/** The device detail endpoint (`GET /devices/{deviceId}`): the device's
    telemetry documents of the last 24 hours, newest first, answered as the
    newest document plus the whole series in chronological order. */
module DeviceDetailQuery {
  import opened Wrappers
  import opened Seqs
  import opened Text
  import opened Telemetry

  const DetailWindowMs: int := MsPerDay

  /** The query's WHERE clause: this device, a `telemetry-%` document type,
      and a window ending at or after `now - 24 hours`. */
  predicate DetailEligible(deviceId: string, now: int, r: TelemetryRecord) {
    r.deviceId == deviceId && StartsWith(r.documentType, "telemetry-") && r.windowEnd >= now - DetailWindowMs
  }

  function DetailWhere(deviceId: string, now: int): TelemetryRecord -> bool {
    r => DetailEligible(deviceId, now, r)
  }

  /** One element of the `items.map(...)` projection; availability becomes
      a percentage. */
  function ToHistoryPoint(r: TelemetryRecord): HistoryPoint {
    HistoryPoint(r.windowEnd, r.avgTemperature, r.avgProductionRate, r.availabilityPercentage * 100.0)
  }

  /** `items.map(...).reverse()`. */
  function Historical(items: seq<TelemetryRecord>): (h: seq<HistoryPoint>)
    ensures |h| == |items|
    ensures forall k :: 0 <= k < |h| ==>
              && h[k].timestamp == items[|items| - 1 - k].windowEnd
              && h[k].temperature == items[|items| - 1 - k].avgTemperature
              && h[k].productionRate == items[|items| - 1 - k].avgProductionRate
              && h[k].availability == items[|items| - 1 - k].availabilityPercentage * 100.0
  {
    Reversed(seq(|items|, k requires 0 <= k < |items| => ToHistoryPoint(items[k])))
  }

  /** The response of the handler for what the store call produced. */
  function DetailResponse(fetched: Result<seq<TelemetryRecord>>): (resp: Response)
    ensures fetched.Failure? ==> resp == Response(500, [], ErrorBody(fetched.message))
    ensures fetched == Ok([]) ==> resp == Response(404, [], ErrorBody("Device not found"))
    ensures resp.status == 200 <==> fetched.Ok? && fetched.value != []
    ensures resp.status == 200 ==>
              && resp.headers == JsonCorsHeaders && resp.body.DeviceDetail?
              && resp.body.current == fetched.value[0]
              && resp.body.historical == Historical(fetched.value)
              && |resp.body.historical| == |fetched.value|
              && resp.body.historical[|fetched.value| - 1].timestamp == resp.body.current.windowEnd
  {
    match fetched
    case Failure(message) => Response(500, [], ErrorBody(message))
    case Ok(items) =>
      if |items| == 0 then Response(404, [], ErrorBody("Device not found"))
      else Response(200, JsonCorsHeaders, DeviceDetail(items[0], Historical(items)))
  }

  /** On the store's newest-first order the series never goes back in time. */
  lemma HistoricalChronological(items: seq<TelemetryRecord>)
    requires SortedByWindowEndDesc(items)
    ensures forall a, b :: 0 <= a < b < |Historical(items)| ==>
              Historical(items)[a].timestamp <= Historical(items)[b].timestamp
  {
    var h := Historical(items);
    var n := |items|;
    forall a, b | 0 <= a < b < |h|
      ensures h[a].timestamp <= h[b].timestamp
    {
      assert h[a].timestamp == items[n - 1 - a].windowEnd;
      assert h[b].timestamp == items[n - 1 - b].windowEnd;
    }
  }

  /** Against the real store: `current` is an eligible document of the
      device and no eligible document of the store is newer. */
  lemma DetailCurrentIsNewest(store: seq<TelemetryRecord>, deviceId: string, now: int,
                              items: seq<TelemetryRecord>)
    requires IsQueryAnswer(store, DetailWhere(deviceId, now), items)
    requires items != []
    ensures DetailEligible(deviceId, now, items[0]) && items[0].deviceId == deviceId
    ensures forall j :: 0 <= j < |store| && DetailEligible(deviceId, now, store[j]) ==>
              store[j].windowEnd <= items[0].windowEnd
  {
    QueryAnswerContents(store, DetailWhere(deviceId, now), items);
    assert DetailWhere(deviceId, now)(items[0]);
    forall j | 0 <= j < |store| && DetailEligible(deviceId, now, store[j])
      ensures store[j].windowEnd <= items[0].windowEnd
    {
      assert DetailWhere(deviceId, now)(store[j]);
      assert store[j] in items;
      var i :| 0 <= i < |items| && items[i] == store[j];
      if i > 0 {
        assert items[0].windowEnd >= items[i].windowEnd;
      }
    }
  }

  /** Against the real store: the 404 is given exactly when the store holds
      no eligible document of the device. */
  lemma DetailNotFoundIffNoEligible(store: seq<TelemetryRecord>, deviceId: string, now: int,
                                    items: seq<TelemetryRecord>)
    requires IsQueryAnswer(store, DetailWhere(deviceId, now), items)
    ensures DetailResponse(Ok(items)).status == 404 <==>
              forall j :: 0 <= j < |store| ==> !DetailEligible(deviceId, now, store[j])
  {
    QueryAnswerContents(store, DetailWhere(deviceId, now), items);
    if items != [] {
      assert DetailWhere(deviceId, now)(items[0]);
      var j :| 0 <= j < |store| && store[j] == items[0];
    } else {
      forall j | 0 <= j < |store|
        ensures !DetailEligible(deviceId, now, store[j])
      {
        assert DetailWhere(deviceId, now)(store[j]) == DetailEligible(deviceId, now, store[j]);
      }
    }
  }
}
