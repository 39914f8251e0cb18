/** The pieces of JavaScript's string and number behaviour the dashboard
    relies on: `parseInt` with no radix, the decimal rendering of an integer
    in a template literal, ASCII `toUpperCase`, `startsWith`, `replace` of
    the first occurrence of a string, and `Math.round`. */
module Text {
  import opened Wrappers

  predicate IsDecimalDigit(c: char) {
    '0' <= c <= '9'
  }

  predicate IsRadixDigit(c: char, radix: nat) {
    if radix == 16 then IsDecimalDigit(c) || 'a' <= c <= 'f' || 'A' <= c <= 'F'
    else IsDecimalDigit(c)
  }

  function DigitValue(c: char): (d: nat)
    requires IsRadixDigit(c, 16)
    ensures d < 16
    ensures IsDecimalDigit(c) ==> d < 10
  {
    if IsDecimalDigit(c) then c as nat - '0' as nat
    else if 'a' <= c <= 'f' then c as nat - 'a' as nat + 10
    else c as nat - 'A' as nat + 10
  }

  function DigitChar(d: nat): (c: char)
    requires d < 10
    ensures IsDecimalDigit(c) && DigitValue(c) == d
  {
    ('0' as nat + d) as char
  }

  /** The characters `parseInt` skips before the number: ECMAScript's
      white space and line terminators. */
  predicate IsWhiteSpace(c: char) {
    var n := c as int;
    n == 0x09 || n == 0x0A || n == 0x0B || n == 0x0C || n == 0x0D || n == 0x20
    || n == 0xA0 || n == 0x1680 || (0x2000 <= n <= 0x200A) || n == 0x2028
    || n == 0x2029 || n == 0x202F || n == 0x205F || n == 0x3000 || n == 0xFEFF
  }

  function TrimStart(s: string): (r: string)
    ensures |r| <= |s| && r == s[|s| - |r|..]
    ensures r != [] ==> !IsWhiteSpace(r[0])
    ensures s != [] && !IsWhiteSpace(s[0]) ==> r == s
  {
    if s != [] && IsWhiteSpace(s[0]) then TrimStart(s[1..]) else s
  }

  /** The longest prefix of `s` made of digits of the given radix. */
  function LeadingDigits(s: string, radix: nat): (r: string)
    ensures |r| <= |s| && r == s[..|r|]
    ensures forall k :: 0 <= k < |r| ==> IsRadixDigit(r[k], radix)
    ensures |r| < |s| ==> !IsRadixDigit(s[|r|], radix)
  {
    if s != [] && IsRadixDigit(s[0], radix) then [s[0]] + LeadingDigits(s[1..], radix) else []
  }

  /** The value of a digit string in the given radix, most significant first. */
  function DigitsValue(ds: string, radix: nat): nat
    requires radix == 10 || radix == 16
    requires forall k :: 0 <= k < |ds| ==> IsRadixDigit(ds[k], radix)
  {
    if ds == [] then 0
    else
      assert IsRadixDigit(ds[|ds| - 1], radix);
      DigitsValue(ds[..|ds| - 1], radix) * radix + DigitValue(ds[|ds| - 1])
  }

  /** The unsigned part of `parseInt`: a `0x`/`0X` prefix switches to
      radix 16, then the longest run of digits is read; none gives `None`. */
  function ParseUnsigned(u: string): (r: Option<nat>)
    ensures u != [] && IsDecimalDigit(u[0]) && !StartsWith(u, "0x") && !StartsWith(u, "0X") ==> r.Some?
  {
    var hex := |u| >= 2 && u[0] == '0' && (u[1] == 'x' || u[1] == 'X');
    var radix := if hex then 16 else 10;
    var z := LeadingDigits(if hex then u[2..] else u, radix);
    if z == [] then None else Some(DigitsValue(z, radix))
  }

  /** `parseInt(s)` with no radix: skip leading white space, take an optional
      sign, then read the unsigned part. No digits gives `NaN`, here `None`.
      Values are exact integers. */
  function ParseInt(s: string): (r: Option<int>)
    ensures s == [] ==> r == None
  {
    var t := TrimStart(s);
    if t != [] && t[0] == '-' then
      match ParseUnsigned(t[1..])
      case Some(v) => Some(-(v as int))
      case None => None
    else if t != [] && t[0] == '+' then
      match ParseUnsigned(t[1..])
      case Some(v) => Some(v)
      case None => None
    else
      match ParseUnsigned(t)
      case Some(v) => Some(v)
      case None => None
  }

  /** `parseInt` gives `NaN` when, after the leading white space, nothing
      is left or the first character is neither a digit nor a sign. */
  lemma ParseIntNoNumber(s: string)
    requires var t := TrimStart(s); t == [] || (!IsDecimalDigit(t[0]) && t[0] != '-' && t[0] != '+')
    ensures ParseInt(s) == None
  {
    var t := TrimStart(s);
    if t != [] {
      assert !(|t| >= 2 && t[0] == '0');
      assert LeadingDigits(t, 10) == [];
    }
  }

  /** A decimal number after the white space reads as its leading digits. */
  lemma ParseIntDecimal(s: string)
    requires var t := TrimStart(s);
             t != [] && IsDecimalDigit(t[0]) && !StartsWith(t, "0x") && !StartsWith(t, "0X")
    ensures ParseInt(s) == Some(DigitsValue(LeadingDigits(TrimStart(s), 10), 10) as int)
  {
    var t := TrimStart(s);
    ParseUnsignedDecimal(t);
    assert t[0] != '-' && t[0] != '+';
  }

  lemma ParseUnsignedDecimal(t: string)
    requires t != [] && IsDecimalDigit(t[0]) && !StartsWith(t, "0x") && !StartsWith(t, "0X")
    ensures ParseUnsigned(t) == Some(DigitsValue(LeadingDigits(t, 10), 10))
  {
    if |t| >= 2 {
      StartsWithTwo(t, '0', 'x');
      StartsWithTwo(t, '0', 'X');
    }
    assert LeadingDigits(t, 10) != [];
  }

  lemma StartsWithTwo(t: string, c0: char, c1: char)
    requires |t| >= 2
    ensures StartsWith(t, [c0, c1]) <==> t[0] == c0 && t[1] == c1
  {
    if t[0] == c0 && t[1] == c1 {
      assert t[..2] == [c0, c1];
    }
  }

  /** A sign applies to the unsigned number after it; a sign with no
      number after it is `NaN`. */
  lemma ParseIntSigned(s: string)
    requires var t := TrimStart(s); t != [] && (t[0] == '-' || t[0] == '+')
    ensures var t := TrimStart(s);
            && (ParseUnsigned(t[1..]).None? ==> ParseInt(s) == None)
            && (ParseUnsigned(t[1..]).Some? ==>
                  ParseInt(s) == Some(if t[0] == '-' then -(ParseUnsigned(t[1..]).value as int)
                                      else ParseUnsigned(t[1..]).value as int))
  {
  }

  /** The decimal digits of `n`, without leading zeros. */
  function NatToString(n: nat): (s: string)
    ensures s != []
    ensures forall k :: 0 <= k < |s| ==> IsDecimalDigit(s[k])
    ensures n > 0 ==> s[0] != '0'
  {
    if n < 10 then [DigitChar(n)] else NatToString(n / 10) + [DigitChar(n % 10)]
  }

  /** The text a template literal `${n}` gives for an integer `n`. */
  function IntToString(i: int): (s: string)
    ensures s != [] && (s[0] == '-' || IsDecimalDigit(s[0]))
    ensures s[0] == '-' <==> i < 0
    ensures forall k :: (if i < 0 then 1 else 0) <= k < |s| ==> IsDecimalDigit(s[k])
    ensures i < 0 ==> |s| >= 2 && s[1] != '0'
    ensures i > 0 ==> s[0] != '0'
  {
    if i < 0 then "-" + NatToString(-i) else NatToString(i)
  }

  lemma {:induction false} NatToStringValue(n: nat)
    ensures DigitsValue(NatToString(n), 10) == n
  {
    if n >= 10 {
      var s := NatToString(n);
      assert s[..|s| - 1] == NatToString(n / 10);
      NatToStringValue(n / 10);
    }
  }

  lemma {:induction false} LeadingDigitsOfDigits(ds: string, rest: string, radix: nat)
    requires forall k :: 0 <= k < |ds| ==> IsRadixDigit(ds[k], radix)
    requires rest == [] || !IsRadixDigit(rest[0], radix)
    ensures LeadingDigits(ds + rest, radix) == ds
  {
    if ds != [] {
      assert (ds + rest)[1..] == ds[1..] + rest;
      LeadingDigitsOfDigits(ds[1..], rest, radix);
    } else {
      assert ds + rest == rest;
    }
  }

  lemma ParseUnsignedOfNatToString(m: nat, suffix: string)
    requires suffix == [] || (!IsDecimalDigit(suffix[0]) && suffix[0] != 'x' && suffix[0] != 'X')
    ensures ParseUnsigned(NatToString(m) + suffix) == Some(m)
  {
    var ds := NatToString(m);
    var u := ds + suffix;
    assert !(|u| >= 2 && u[0] == '0' && (u[1] == 'x' || u[1] == 'X')) by {
      if |u| >= 2 && u[0] == '0' {
        assert m == 0 && |ds| == 1;
        assert u[1] == suffix[0];
      }
    }
    LeadingDigitsOfDigits(ds, suffix, 10);
    NatToStringValue(m);
  }

  lemma ParseIntOfDigitsFirst(u: string, m: nat)
    requires u != [] && IsDecimalDigit(u[0]) && ParseUnsigned(u) == Some(m)
    ensures ParseInt(u) == Some(m as int)
  {
    assert TrimStart(u) == u;
  }

  lemma ParseIntOfMinus(u: string, m: nat)
    requires ParseUnsigned(u) == Some(m)
    ensures ParseInt(['-'] + u) == Some(-(m as int))
  {
    var s := ['-'] + u;
    assert TrimStart(s) == s;
    assert s[1..] == u;
  }

  /** `parseInt` reads back the integer a template literal printed, whatever
      unit text follows it, provided that text does not itself continue the
      number (a digit, or an `x` that would turn a lone `0` into a hex prefix). */
  lemma ParseIntOfIntToString(n: int, suffix: string)
    requires suffix == [] || (!IsDecimalDigit(suffix[0]) && suffix[0] != 'x' && suffix[0] != 'X')
    ensures ParseInt(IntToString(n) + suffix) == Some(n)
  {
    var m: nat := if n < 0 then -n else n;
    var u := NatToString(m) + suffix;
    ParseUnsignedOfNatToString(m, suffix);
    if n < 0 {
      assert IntToString(n) + suffix == ['-'] + u;
      ParseIntOfMinus(u, m);
    } else {
      assert IntToString(n) + suffix == u;
      ParseIntOfDigitsFirst(u, m);
    }
  }

  /** A lower-case ASCII letter becomes the capital at the same place in
      the alphabet; every other character is kept. */
  function UpperChar(c: char): (u: char)
    ensures !('a' <= u <= 'z')
    ensures 'a' <= c <= 'z' ==> 'A' <= u <= 'Z' && u as int - 'A' as int == c as int - 'a' as int
    ensures !('a' <= c <= 'z') ==> u == c
  {
    if 'a' <= c <= 'z' then (c as int - 32) as char else c
  }

  /** `toUpperCase` on the ASCII letters; every other character is kept. */
  function Upper(s: string): (r: string)
    ensures |r| == |s|
    ensures forall k :: 0 <= k < |r| ==> r[k] == UpperChar(s[k])
    ensures forall k :: 0 <= k < |r| ==> !('a' <= r[k] <= 'z')
  {
    seq(|s|, k requires 0 <= k < |s| => UpperChar(s[k]))
  }

  predicate StartsWith(s: string, prefix: string) {
    |prefix| <= |s| && s[..|prefix|] == prefix
  }

  /** `s.replace(pattern, replacement)` with a string pattern: only the first
      occurrence is replaced, and an empty pattern inserts at the front. */
  function ReplaceFirst(s: string, pattern: string, replacement: string): (r: string)
    ensures StartsWith(s, pattern) ==> r == replacement + s[|pattern|..]
  {
    if StartsWith(s, pattern) then replacement + s[|pattern|..]
    else if s == [] then s
    else [s[0]] + ReplaceFirst(s[1..], pattern, replacement)
  }

  /** `pattern` occurs in `s` starting at index `i`. */
  predicate OccursAt(s: string, pattern: string, i: int) {
    0 <= i && i + |pattern| <= |s| && s[i..i + |pattern|] == pattern
  }

  lemma OccursAtTail(s: string, pattern: string, j: int)
    requires s != [] && 0 <= j
    ensures OccursAt(s[1..], pattern, j) <==> OccursAt(s, pattern, j + 1)
  {
    if j + 1 + |pattern| <= |s| {
      assert s[1..][j..j + |pattern|] == s[j + 1..j + 1 + |pattern|];
    }
  }

  /** `replace` rewrites the first occurrence of the pattern and keeps the
      text before and after it. */
  lemma {:induction false} ReplaceFirstAt(s: string, pattern: string, replacement: string, i: int)
    requires OccursAt(s, pattern, i)
    requires forall j :: 0 <= j < i ==> !OccursAt(s, pattern, j)
    ensures ReplaceFirst(s, pattern, replacement) == s[..i] + replacement + s[i + |pattern|..]
  {
    if i == 0 {
      assert StartsWith(s, pattern);
    } else {
      assert !OccursAt(s, pattern, 0);
      assert !StartsWith(s, pattern);
      var tail := s[1..];
      OccursAtTail(s, pattern, i - 1);
      forall j | 0 <= j < i - 1
        ensures !OccursAt(tail, pattern, j)
      {
        OccursAtTail(s, pattern, j);
      }
      ReplaceFirstAt(tail, pattern, replacement, i - 1);
      assert ReplaceFirst(s, pattern, replacement) == [s[0]] + ReplaceFirst(tail, pattern, replacement);
      RejoinAfterFirst(s, replacement, i, i + |pattern|);
    }
  }

  lemma RejoinAfterFirst(s: string, replacement: string, i: int, e: int)
    requires 0 < i <= e <= |s|
    ensures [s[0]] + (s[1..][..i - 1] + replacement + s[1..][e - 1..]) == s[..i] + replacement + s[e..]
  {
    assert [s[0]] + s[1..][..i - 1] == s[..i];
    assert s[1..][e - 1..] == s[e..];
  }

  /** Without an occurrence of the pattern, `replace` changes nothing. */
  lemma {:induction false} ReplaceFirstAbsent(s: string, pattern: string, replacement: string)
    requires forall j :: 0 <= j <= |s| ==> !OccursAt(s, pattern, j)
    ensures ReplaceFirst(s, pattern, replacement) == s
  {
    assert !OccursAt(s, pattern, 0);
    if s != [] {
      forall j | 0 <= j <= |s[1..]|
        ensures !OccursAt(s[1..], pattern, j)
      {
        OccursAtTail(s, pattern, j);
      }
      ReplaceFirstAbsent(s[1..], pattern, replacement);
    }
  }

  /** `ReplaceFirst` deletes a unit text that follows a number exactly. */
  lemma {:induction false} ReplaceFirstSuffix(ds: string, pattern: string)
    requires pattern != []
    requires forall k :: 0 <= k < |ds| ==> IsDecimalDigit(ds[k]) || ds[k] == '-'
    requires !IsDecimalDigit(pattern[0]) && pattern[0] != '-'
    ensures ReplaceFirst(ds + pattern, pattern, "") == ds
  {
    if ds == [] {
      assert ds + pattern == pattern;
    } else {
      assert !StartsWith(ds + pattern, pattern) by {
        assert (ds + pattern)[0] == ds[0];
      }
      assert (ds + pattern)[1..] == ds[1..] + pattern;
      ReplaceFirstSuffix(ds[1..], pattern);
    }
  }

  /** `Math.round`: the nearest integer, halves rounded up. */
  function Round(x: real): (r: int)
    ensures r as real - 0.5 <= x < r as real + 0.5
  {
    (x + 0.5).Floor
  }
}
