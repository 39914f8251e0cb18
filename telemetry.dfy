/** The telemetry documents both query endpoints read, the time units they
    filter with, and the shape of the HTTP responses they write. Times are
    milliseconds since the epoch; averaged metrics are exact reals. */
module Telemetry {
  import opened Seqs

  /** One document of the `Telemetry` container: one device, one
      aggregation window. Only the fields the core reads are kept. */
  datatype TelemetryRecord = TelemetryRecord(
    deviceId: string,
    deviceType: string,
    lineId: string,
    lineName: string,
    avgTemperature: real,
    avgProductionRate: real,
    availabilityPercentage: real,
    currentErrorCode: int,
    windowEnd: int,
    documentType: string)

  const MsPerMinute: int := 60 * 1000
  const MsPerDay: int := 24 * 60 * MsPerMinute

  /** `ORDER BY c.WindowEnd DESC`. */
  predicate SortedByWindowEndDesc(items: seq<TelemetryRecord>) {
    forall i, j :: 0 <= i < j < |items| ==> items[i].windowEnd >= items[j].windowEnd
  }

  /** What `fetchAll` hands back for a query whose WHERE clause is
      `eligible` and whose order is `ORDER BY c.WindowEnd DESC`: exactly the
      eligible documents of the store, newest first. The store decides the
      order among documents with equal `WindowEnd`. */
  ghost predicate IsQueryAnswer(store: seq<TelemetryRecord>, eligible: TelemetryRecord -> bool,
                                items: seq<TelemetryRecord>) {
    multiset(items) == multiset(Filter(store, eligible)) && SortedByWindowEndDesc(items)
  }

  /** A query answer holds eligible store documents and every one of them. */
  lemma QueryAnswerContents(store: seq<TelemetryRecord>, eligible: TelemetryRecord -> bool,
                            items: seq<TelemetryRecord>)
    requires IsQueryAnswer(store, eligible, items)
    ensures forall k :: 0 <= k < |items| ==> items[k] in store && eligible(items[k])
    ensures forall k :: 0 <= k < |store| && eligible(store[k]) ==> store[k] in items
  {
    var selected := Filter(store, eligible);
    forall k | 0 <= k < |items|
      ensures items[k] in store && eligible(items[k])
    {
      assert items[k] in multiset(items);
      assert items[k] in multiset(selected);
    }
    forall k | 0 <= k < |store| && eligible(store[k])
      ensures store[k] in items
    {
      assert store[k] in selected;
      assert store[k] in multiset(selected);
      assert store[k] in multiset(items);
    }
  }

  datatype Header = Header(name: string, value: string)

  /** One chart point of the device-detail series. */
  datatype HistoryPoint = HistoryPoint(timestamp: int, temperature: real, productionRate: real,
                                       availability: real)

  datatype Body =
    | DeviceList(devices: seq<TelemetryRecord>)
    | DeviceDetail(current: TelemetryRecord, historical: seq<HistoryPoint>)
    | ErrorBody(error: string)

  /** `context.res`. */
  datatype Response = Response(status: int, headers: seq<Header>, body: Body)

  /** The headers of every successful response; error responses carry none. */
  const JsonCorsHeaders: seq<Header> :=
    [Header("Content-Type", "application/json"), Header("Access-Control-Allow-Origin", "*")]
}
