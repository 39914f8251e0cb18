/** Sequence helpers shared by the page and endpoint models:
    `Array.prototype.filter`, `Array.prototype.reverse` on a fresh array,
    and the smaller of two lengths used by `slice(0, n)`. */
module Seqs {

  function Min(a: int, b: int): (m: int)
    ensures m <= a && m <= b && (m == a || m == b)
  {
    if a <= b then a else b
  }

  /** The elements of `s` that satisfy `p`, in their original order. */
  function Filter<T>(s: seq<T>, p: T -> bool): (r: seq<T>)
    ensures |r| <= |s|
    ensures forall k :: 0 <= k < |r| ==> p(r[k])
    ensures forall k :: 0 <= k < |r| ==> r[k] in s
    ensures forall k :: 0 <= k < |s| && p(s[k]) ==> s[k] in r
  {
    if s == [] then []
    else if p(s[0]) then [s[0]] + Filter(s[1..], p)
    else Filter(s[1..], p)
  }

  /** Where each kept element of `Filter(s, p)` sits in `s`. */
  function FilterPositions<T>(s: seq<T>, p: T -> bool): seq<nat> {
    if s == [] then []
    else
      var tail := FilterPositions(s[1..], p);
      var shifted := seq(|tail|, k requires 0 <= k < |tail| => tail[k] + 1);
      if p(s[0]) then [0] + shifted else shifted
  }

  /** `s[pos[k]]` is the k-th kept element and the positions increase. */
  ghost predicate PositionsOf<T>(s: seq<T>, kept: seq<T>, pos: seq<nat>) {
    && |pos| == |kept|
    && (forall k :: 0 <= k < |pos| ==> pos[k] < |s| && s[pos[k]] == kept[k])
    && (forall i, j :: 0 <= i < j < |pos| ==> pos[i] < pos[j])
  }

  lemma PositionsOfCons<T>(x: T, s: seq<T>, kept: seq<T>, pos: seq<nat>, keep: bool)
    requires PositionsOf(s, kept, pos)
    ensures var shifted := seq(|pos|, k requires 0 <= k < |pos| => pos[k] + 1);
            if keep then PositionsOf([x] + s, [x] + kept, [0] + shifted)
            else PositionsOf([x] + s, kept, shifted)
  {
    var shifted := seq(|pos|, k requires 0 <= k < |pos| => pos[k] + 1);
    assert forall k :: 0 <= k < |shifted| ==> ([x] + s)[shifted[k]] == s[pos[k]];
  }

  /** The positions of the kept elements increase: filtering keeps the
      original order. */
  lemma {:induction false} FilterKeepsOrder<T>(s: seq<T>, p: T -> bool)
    ensures PositionsOf(s, Filter(s, p), FilterPositions(s, p))
  {
    if s != [] {
      FilterKeepsOrder(s[1..], p);
      assert [s[0]] + s[1..] == s;
      PositionsOfCons(s[0], s[1..], Filter(s[1..], p), FilterPositions(s[1..], p), p(s[0]));
    }
  }

  /** The elements of `s` in the opposite order. */
  function Reversed<T>(s: seq<T>): (r: seq<T>)
    ensures |r| == |s|
    ensures forall k :: 0 <= k < |s| ==> r[k] == s[|s| - 1 - k]
  {
    if s == [] then [] else Reversed(s[1..]) + [s[0]]
  }
}
