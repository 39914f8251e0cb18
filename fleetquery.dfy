/** The fleet snapshot endpoint (`GET /devices`): the documents of the last
    14 days of the four telemetry document types, newest first, reduced to
    the latest document of each device. */
module FleetQuery {
  import opened Wrappers
  import opened Seqs
  import opened Telemetry

  const FleetDocumentTypes: seq<string> :=
    ["telemetry-compressor", "telemetry-press", "telemetry-conveyor", "telemetry-quality"]

  const FleetWindowMs: int := 14 * MsPerDay

  /** The query's WHERE clause, with `now - 14 days` as the cutoff. */
  predicate FleetEligible(now: int, r: TelemetryRecord) {
    r.documentType in FleetDocumentTypes && r.windowEnd >= now - FleetWindowMs
  }

  /** The WHERE clause as the filter the store applies. */
  function FleetWhere(now: int): TelemetryRecord -> bool {
    r => FleetEligible(now, r)
  }

  /** The set of device ids occurring in a list of documents. */
  function DeviceIds(items: seq<TelemetryRecord>): set<string> {
    set k | 0 <= k < |items| :: items[k].deviceId
  }

  /** The `latestByDevice` object while the loop runs: its keys in insertion
      order (the order `Object.values` lists them in) and its entries. */
  datatype Latest = Latest(order: seq<string>, byDevice: map<string, TelemetryRecord>)

  ghost predicate WellFormed(acc: Latest) {
    && (forall i, j :: 0 <= i < j < |acc.order| ==> acc.order[i] != acc.order[j])
    && (forall id :: id in acc.byDevice <==> id in acc.order)
    && (forall id :: id in acc.byDevice ==> acc.byDevice[id].deviceId == id)
  }

  /** One pass of the `forEach` body: a device seen for the first time is
      added; a known device is replaced only by a strictly later window. */
  function Absorb(acc: Latest, item: TelemetryRecord): Latest {
    var id := item.deviceId;
    if id !in acc.byDevice then Latest(acc.order + [id], acc.byDevice[id := item])
    else if item.windowEnd > acc.byDevice[id].windowEnd then Latest(acc.order, acc.byDevice[id := item])
    else acc
  }

  /** The object after the loop has absorbed every item, in order. */
  function Fold(items: seq<TelemetryRecord>): (acc: Latest)
    ensures WellFormed(acc)
    ensures acc.byDevice.Keys == DeviceIds(items)
  {
    if items == [] then Latest([], map[])
    else
      var init := items[..|items| - 1];
      assert DeviceIds(items) == DeviceIds(init) + {items[|items| - 1].deviceId} by {
        forall id | id in DeviceIds(items) ensures id in DeviceIds(init) + {items[|items| - 1].deviceId} {
          var k :| 0 <= k < |items| && items[k].deviceId == id;
          if k < |items| - 1 { assert init[k] == items[k]; }
        }
        forall id | id in DeviceIds(init) ensures id in DeviceIds(items) {
          var k :| 0 <= k < |init| && init[k].deviceId == id;
          assert items[k] == init[k];
        }
      }
      Absorb(Fold(init), items[|items| - 1])
  }

  /** `Object.values(latestByDevice)`. */
  function Values(acc: Latest): (devices: seq<TelemetryRecord>)
    requires forall k :: 0 <= k < |acc.order| ==> acc.order[k] in acc.byDevice
  {
    seq(|acc.order|, k requires 0 <= k < |acc.order| => acc.byDevice[acc.order[k]])
  }

  function LatestPerDevice(items: seq<TelemetryRecord>): seq<TelemetryRecord> {
    Values(Fold(items))
  }

  /** The loop of the handler, over a dictionary updated in place. */
  method ReduceLatest(items: seq<TelemetryRecord>) returns (devices: seq<TelemetryRecord>)
    ensures devices == LatestPerDevice(items)
  {
    var latestByDevice: map<string, TelemetryRecord> := map[];
    var order: seq<string> := [];
    var i := 0;
    while i < |items|
      invariant 0 <= i <= |items|
      invariant Latest(order, latestByDevice) == Fold(items[..i])
    {
      var item := items[i];
      assert items[..i + 1][..i] == items[..i];
      if item.deviceId !in latestByDevice || item.windowEnd > latestByDevice[item.deviceId].windowEnd {
        if item.deviceId !in latestByDevice {
          order := order + [item.deviceId];
        }
        latestByDevice := latestByDevice[item.deviceId := item];
      }
      i := i + 1;
    }
    assert items[..i] == items;
    devices := Values(Latest(order, latestByDevice));
  }

  /** Every kept document is at least as recent as every document of the
      same device. */
  lemma {:induction false} FoldKeepsNewest(items: seq<TelemetryRecord>)
    ensures forall id, j :: id in Fold(items).byDevice && 0 <= j < |items| && items[j].deviceId == id
              ==> items[j].windowEnd <= Fold(items).byDevice[id].windowEnd
  {
    if items != [] {
      var init := items[..|items| - 1];
      FoldKeepsNewest(init);
      forall id, j | id in Fold(items).byDevice && 0 <= j < |items| && items[j].deviceId == id
        ensures items[j].windowEnd <= Fold(items).byDevice[id].windowEnd
      {
        if j < |items| - 1 {
          assert items[j] == init[j];
          assert id in DeviceIds(init);
        }
      }
    }
  }

  /** `items[i]` is newer than every earlier document of its device. */
  ghost predicate FirstNewestAt(items: seq<TelemetryRecord>, i: int) {
    0 <= i < |items|
    && forall j :: 0 <= j < i && items[j].deviceId == items[i].deviceId ==> items[j].windowEnd < items[i].windowEnd
  }

  lemma FirstNewestExtends(init: seq<TelemetryRecord>, last: TelemetryRecord, i: int)
    requires FirstNewestAt(init, i)
    ensures FirstNewestAt(init + [last], i) && (init + [last])[i] == init[i]
  {
    var items := init + [last];
    forall j | 0 <= j < i && items[j].deviceId == items[i].deviceId
      ensures items[j].windowEnd < items[i].windowEnd
    {
      assert items[j] == init[j] && items[i] == init[i];
    }
  }

  /** Every kept document is a document of the input, and among the newest
      documents of its device it is the first one met: later ties lose
      because the comparison is strict. */
  lemma {:induction false} FoldKeepsFirstNewest(items: seq<TelemetryRecord>)
    ensures forall id :: id in Fold(items).byDevice ==>
              exists i :: FirstNewestAt(items, i) && items[i] == Fold(items).byDevice[id]
  {
    if items != [] {
      var n := |items| - 1;
      var init := items[..n];
      var last := items[n];
      assert items == init + [last];
      FoldKeepsFirstNewest(init);
      FoldKeepsNewest(init);
      var before := Fold(init);
      forall id | id in Fold(items).byDevice
        ensures exists i :: FirstNewestAt(items, i) && items[i] == Fold(items).byDevice[id]
      {
        if id == last.deviceId && (id !in before.byDevice || last.windowEnd > before.byDevice[id].windowEnd) {
          assert Fold(items).byDevice[id] == items[n];
          forall j | 0 <= j < n && items[j].deviceId == items[n].deviceId
            ensures items[j].windowEnd < items[n].windowEnd
          {
            assert items[j] == init[j];
            assert id in DeviceIds(init);
          }
          assert FirstNewestAt(items, n);
        } else {
          assert Fold(items).byDevice[id] == before.byDevice[id];
          var i :| FirstNewestAt(init, i) && init[i] == before.byDevice[id];
          FirstNewestExtends(init, last, i);
        }
      }
    }
  }

  /** The dictionary's keys come in the order their devices first occur in
      the input: some document of an earlier key comes before every
      document of a later key. */
  /** Some document of device `x` comes before every document of device `y`. */
  ghost predicate Precedes(items: seq<TelemetryRecord>, x: string, y: string) {
    exists p :: 0 <= p < |items| && items[p].deviceId == x
      && forall q :: 0 <= q < |items| && items[q].deviceId == y ==> p < q
  }

  ghost predicate FirstOccurrenceOrder(items: seq<TelemetryRecord>, order: seq<string>) {
    forall a, b :: 0 <= a < b < |order| ==> Precedes(items, order[a], order[b])
  }

  lemma {:induction false} FoldKeysInFirstOccurrenceOrder(items: seq<TelemetryRecord>)
    ensures FirstOccurrenceOrder(items, Fold(items).order)
  {
    if items != [] {
      var n := |items| - 1;
      var init := items[..n];
      var last := items[n];
      assert items == init + [last];
      FoldKeysInFirstOccurrenceOrder(init);
      var before := Fold(init);
      FirstOccurrenceExtends(init, last, before.order);
      if last.deviceId !in before.byDevice {
        forall k | 0 <= k < |before.order|
          ensures before.order[k] in DeviceIds(init)
        {
          assert before.order[k] in before.byDevice;
        }
        FirstOccurrenceAppendNew(init, last, before.order);
      }
    }
  }

  /** A later document never breaks the order of the keys met so far. */
  lemma FirstOccurrenceExtends(init: seq<TelemetryRecord>, last: TelemetryRecord, order: seq<string>)
    requires FirstOccurrenceOrder(init, order)
    ensures FirstOccurrenceOrder(init + [last], order)
  {
    var items := init + [last];
    forall a, b | 0 <= a < b < |order|
      ensures Precedes(items, order[a], order[b])
    {
      assert Precedes(init, order[a], order[b]);
      var p :| 0 <= p < |init| && init[p].deviceId == order[a]
               && forall q :: 0 <= q < |init| && init[q].deviceId == order[b] ==> p < q;
      assert items[p] == init[p];
      forall q | 0 <= q < |items| && items[q].deviceId == order[b]
        ensures p < q
      {
        if q < |init| {
          assert items[q] == init[q];
        }
      }
    }
  }

  /** A device met for the first time goes after every key met so far. */
  lemma FirstOccurrenceAppendNew(init: seq<TelemetryRecord>, last: TelemetryRecord, order: seq<string>)
    requires FirstOccurrenceOrder(init, order)
    requires forall k :: 0 <= k < |order| ==> order[k] in DeviceIds(init)
    requires last.deviceId !in DeviceIds(init)
    ensures FirstOccurrenceOrder(init + [last], order + [last.deviceId])
  {
    var items := init + [last];
    var order' := order + [last.deviceId];
    FirstOccurrenceExtends(init, last, order);
    forall a, b | 0 <= a < b < |order'|
      ensures Precedes(items, order'[a], order'[b])
    {
      if b < |order| {
        assert order'[a] == order[a] && order'[b] == order[b];
      } else {
        assert order'[a] == order[a] && order[a] in DeviceIds(init);
        var p :| 0 <= p < |init| && init[p].deviceId == order[a];
        assert items[p] == init[p];
        assert forall q :: 0 <= q < |init| ==> items[q] == init[q];
      }
    }
  }

  /** The output never holds two documents of the same device. */
  lemma LatestUnique(items: seq<TelemetryRecord>)
    ensures forall a, b :: 0 <= a < b < |LatestPerDevice(items)| ==>
              LatestPerDevice(items)[a].deviceId != LatestPerDevice(items)[b].deviceId
  {
    var acc := Fold(items);
    var out := LatestPerDevice(items);
    forall a, b | 0 <= a < b < |out|
      ensures out[a].deviceId != out[b].deviceId
    {
      assert out[a].deviceId == acc.order[a] && out[b].deviceId == acc.order[b];
    }
  }

  /** Every device of the input is in the output. */
  lemma LatestCoversEveryDevice(items: seq<TelemetryRecord>)
    ensures forall j :: 0 <= j < |items| ==>
              exists k :: 0 <= k < |LatestPerDevice(items)| && LatestPerDevice(items)[k].deviceId == items[j].deviceId
  {
    var acc := Fold(items);
    var out := LatestPerDevice(items);
    forall j | 0 <= j < |items|
      ensures exists k :: 0 <= k < |out| && out[k].deviceId == items[j].deviceId
    {
      var id := items[j].deviceId;
      assert id in DeviceIds(items);
      assert id in acc.order;
      var k :| 0 <= k < |acc.order| && acc.order[k] == id;
      assert out[k].deviceId == id;
    }
  }

  /** A kept document's window ends no earlier than that of any input
      document of the same device. */
  lemma LatestIsNewest(items: seq<TelemetryRecord>)
    ensures forall k, j :: 0 <= k < |LatestPerDevice(items)| && 0 <= j < |items|
              && items[j].deviceId == LatestPerDevice(items)[k].deviceId
              ==> items[j].windowEnd <= LatestPerDevice(items)[k].windowEnd
  {
    FoldKeepsNewest(items);
    var acc := Fold(items);
    var out := LatestPerDevice(items);
    forall k, j | 0 <= k < |out| && 0 <= j < |items| && items[j].deviceId == out[k].deviceId
      ensures items[j].windowEnd <= out[k].windowEnd
    {
      assert out[k] == acc.byDevice[acc.order[k]];
    }
  }

  /** `x` is the input document at some index `i` that is newer than every
      earlier document of its device. */
  ghost predicate IsFirstNewest(items: seq<TelemetryRecord>, x: TelemetryRecord) {
    exists i :: FirstNewestAt(items, i) && items[i] == x
  }

  /** Each output document is an unmodified input document, the first of
      the newest documents of its device in input order. */
  lemma LatestIsFirstNewest(items: seq<TelemetryRecord>)
    ensures forall k :: 0 <= k < |LatestPerDevice(items)| ==> IsFirstNewest(items, LatestPerDevice(items)[k])
  {
    FoldKeepsFirstNewest(items);
    var acc := Fold(items);
    var out := LatestPerDevice(items);
    forall k | 0 <= k < |out|
      ensures IsFirstNewest(items, out[k])
    {
      var id := acc.order[k];
      assert id in acc.order && id in acc.byDevice;
      var i :| FirstNewestAt(items, i) && items[i] == acc.byDevice[id];
      assert items[i] == out[k];
    }
  }

  /** On the store's newest-first order the kept document of a device is
      simply the first one of that device. */
  lemma LatestOfSortedIsFirstSeen(items: seq<TelemetryRecord>)
    requires SortedByWindowEndDesc(items)
    ensures forall k :: 0 <= k < |LatestPerDevice(items)| ==>
              exists i :: 0 <= i < |items| && items[i] == LatestPerDevice(items)[k]
                && forall j :: 0 <= j < i ==> items[j].deviceId != items[i].deviceId
  {
    LatestIsFirstNewest(items);
    var out := LatestPerDevice(items);
    forall k | 0 <= k < |out|
      ensures exists i :: 0 <= i < |items| && items[i] == out[k]
                && forall j :: 0 <= j < i ==> items[j].deviceId != items[i].deviceId
    {
      assert IsFirstNewest(items, out[k]);
      var i :| FirstNewestAt(items, i) && items[i] == out[k];
      forall j | 0 <= j < i
        ensures items[j].deviceId != items[i].deviceId
      {
        assert items[j].windowEnd >= items[i].windowEnd;
      }
    }
  }

  /** The response of the handler for what the store call produced: a 200
      with the reduced list, or a 500 with the error's message. */
  function FleetResponse(fetched: Result<seq<TelemetryRecord>>): (resp: Response)
    ensures resp.status == 200 || resp.status == 500
    ensures resp.status == 500 <==> fetched.Failure?
    ensures fetched.Failure? ==> resp == Response(500, [], ErrorBody(fetched.message))
    ensures fetched == Ok([]) ==> resp == Response(200, JsonCorsHeaders, DeviceList([]))
    ensures fetched.Ok? ==>
              && resp.headers == JsonCorsHeaders && resp.body.DeviceList?
              && resp.body.devices == LatestPerDevice(fetched.value)
              && |resp.body.devices| <= |fetched.value|
              && (forall a, b :: 0 <= a < b < |resp.body.devices| ==>
                    resp.body.devices[a].deviceId != resp.body.devices[b].deviceId)
              && (forall k :: 0 <= k < |resp.body.devices| ==> resp.body.devices[k] in fetched.value)
  {
    match fetched
    case Failure(message) => Response(500, [], ErrorBody(message))
    case Ok(items) =>
      LatestUnique(items);
      LatestIsFirstNewest(items);
      LatestCount(items);
      Response(200, JsonCorsHeaders, DeviceList(LatestPerDevice(items)))
  }

  /** There are no more kept documents than input documents. */
  lemma LatestCount(items: seq<TelemetryRecord>)
    ensures |LatestPerDevice(items)| <= |items|
  {
    var acc := Fold(items);
    var ids := set k | 0 <= k < |acc.order| :: acc.order[k];
    assert |ids| == |acc.order| by {
      DistinctCount(acc.order);
    }
    assert ids == DeviceIds(items);
    DeviceIdsCount(items);
  }

  lemma {:induction false} DistinctCount(s: seq<string>)
    requires forall i, j :: 0 <= i < j < |s| ==> s[i] != s[j]
    ensures |set k | 0 <= k < |s| :: s[k]| == |s|
  {
    if s != [] {
      var init := s[..|s| - 1];
      DistinctCount(init);
      var a := set k | 0 <= k < |init| :: init[k];
      var b := set k | 0 <= k < |s| :: s[k];
      assert b == a + {s[|s| - 1]};
      assert s[|s| - 1] !in a;
    }
  }

  lemma {:induction false} DeviceIdsCount(items: seq<TelemetryRecord>)
    ensures |DeviceIds(items)| <= |items|
  {
    if items != [] {
      var init := items[..|items| - 1];
      DeviceIdsCount(init);
      assert DeviceIds(items) <= DeviceIds(init) + {items[|items| - 1].deviceId} by {
        forall id | id in DeviceIds(items) ensures id in DeviceIds(init) + {items[|items| - 1].deviceId} {
          var k :| 0 <= k < |items| && items[k].deviceId == id;
          if k < |items| - 1 { assert init[k] == items[k]; }
        }
      }
      SubsetCard(DeviceIds(items), DeviceIds(init) + {items[|items| - 1].deviceId});
    }
  }

  lemma SubsetCard(a: set<string>, b: set<string>)
    requires a <= b
    ensures |a| <= |b|
  {
    assert b == a + (b - a);
  }

  /** The handler: it awaits the store, runs the reduction and writes the
      response once per branch. */
  method HandleGetDevices(fetched: Result<seq<TelemetryRecord>>) returns (resp: Response)
    ensures resp == FleetResponse(fetched)
  {
    match fetched {
      case Failure(message) =>
        resp := Response(500, [], ErrorBody(message));
      case Ok(items) =>
        var devices := ReduceLatest(items);
        resp := Response(200, JsonCorsHeaders, DeviceList(devices));
    }
  }

  /** Against the real store: every listed document passes the WHERE
      clause and is a stored document. */
  lemma FleetListsOnlyEligible(store: seq<TelemetryRecord>, now: int, items: seq<TelemetryRecord>)
    requires IsQueryAnswer(store, FleetWhere(now), items)
    ensures forall k :: 0 <= k < |LatestPerDevice(items)| ==>
              FleetEligible(now, LatestPerDevice(items)[k]) && LatestPerDevice(items)[k] in store
  {
    QueryAnswerContents(store, FleetWhere(now), items);
    LatestIsFirstNewest(items);
    var out := LatestPerDevice(items);
    forall k | 0 <= k < |out|
      ensures FleetEligible(now, out[k]) && out[k] in store
    {
      assert IsFirstNewest(items, out[k]);
      var i :| FirstNewestAt(items, i) && items[i] == out[k];
      assert FleetWhere(now)(items[i]);
    }
  }

  /** Against the real store: every device with an eligible document is
      listed. */
  lemma FleetListsEveryEligibleDevice(store: seq<TelemetryRecord>, now: int, items: seq<TelemetryRecord>)
    requires IsQueryAnswer(store, FleetWhere(now), items)
    ensures forall j :: 0 <= j < |store| && FleetEligible(now, store[j]) ==>
              exists k :: 0 <= k < |LatestPerDevice(items)| && LatestPerDevice(items)[k].deviceId == store[j].deviceId
  {
    QueryAnswerContents(store, FleetWhere(now), items);
    LatestCoversEveryDevice(items);
    var out := LatestPerDevice(items);
    forall j | 0 <= j < |store| && FleetEligible(now, store[j])
      ensures exists k :: 0 <= k < |out| && out[k].deviceId == store[j].deviceId
    {
      assert FleetWhere(now)(store[j]);
      assert store[j] in items;
      var i :| 0 <= i < |items| && items[i] == store[j];
    }
  }
}
