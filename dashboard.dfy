/** The Dashboard page's derived data: the three overview metrics over the
    device rows, the short list of devices in alert, the two trend series
    over the line KPI history, and the guard of the change caption. */
module Dashboard {
  import opened Wrappers
  import opened Seqs
  import opened Text
  import opened Telemetry
  import opened DeviceService

  /** `parseInt(text) || 0`: `NaN` (and 0) become 0. */
  function ParseIntOrZero(text: string): (v: int)
    ensures ParseInt(text).Some? ==> v == ParseInt(text).value
    ensures v != 0 ==> ParseInt(text) == Some(v)
    ensures ParseInt(text).None? ==> v == 0
  {
    match ParseInt(text)
    case Some(v) => v
    case None => 0
  }

  function RateText(d: DeviceView): string { d.productionRate }
  function TemperatureText(d: DeviceView): string { d.temperature }

  /** The parsed field of every row, in row order. */
  function Parsed(devices: seq<DeviceView>, field: DeviceView -> string): (xs: seq<int>)
    ensures |xs| == |devices|
  {
    seq(|devices|, k requires 0 <= k < |devices| => ParseIntOrZero(field(devices[k])))
  }

  /** The `reduce` summing from the left. */
  function Sum(xs: seq<int>): int {
    if xs == [] then 0 else Sum(xs[..|xs| - 1]) + xs[|xs| - 1]
  }

  /** The nearest integer to the average of the parsed field. */
  function Mean(devices: seq<DeviceView>, field: DeviceView -> string): (avg: int)
    requires devices != []
    ensures avg as real - 0.5 <= Sum(Parsed(devices, field)) as real / |devices| as real < avg as real + 0.5
  {
    Round(Sum(Parsed(devices, field)) as real / |devices| as real)
  }

  predicate IsAlert(d: DeviceView) {
    d.status == "error" || d.status == "warning"
  }

  datatype Metrics = Metrics(avgProductionRate: int, avgTemperature: int, activeAlerts: nat)

  /** The number of rows in error or warning, counted row by row. */
  function CountAlerts(devices: seq<DeviceView>): nat {
    if devices == [] then 0
    else (if IsAlert(devices[0]) then 1 else 0) + CountAlerts(devices[1..])
  }

  /** Filtering the rows in alert keeps exactly as many as the count. */
  lemma {:induction false} FilterCount(devices: seq<DeviceView>)
    ensures |Filter(devices, IsAlert)| == CountAlerts(devices)
  {
    if devices != [] {
      FilterCount(devices[1..]);
    }
  }

  /** `calculateCurrentMetrics`: all zero for no rows, otherwise the rounded
      means of the parsed rate and temperature and the number of rows in
      alert. */
  function CalculateCurrentMetrics(devices: seq<DeviceView>): (m: Metrics)
    ensures devices == [] ==> m == Metrics(0, 0, 0)
    ensures devices != [] ==> m.avgProductionRate == Mean(devices, RateText)
                              && m.avgTemperature == Mean(devices, TemperatureText)
    ensures m.activeAlerts == CountAlerts(devices)
    ensures m.activeAlerts <= |devices|
    ensures m.activeAlerts == 0 <==> forall k :: 0 <= k < |devices| ==> !IsAlert(devices[k])
  {
    if |devices| == 0 then Metrics(0, 0, 0)
    else
      assert Filter(devices, IsAlert) != [] ==> IsAlert(Filter(devices, IsAlert)[0]);
      FilterCount(devices);
      Metrics(Mean(devices, RateText), Mean(devices, TemperatureText), |Filter(devices, IsAlert)|)
  }

  /** The caption of the alerts card. */
  function AlertsCaption(m: Metrics): (caption: string)
    ensures caption == "All systems normal" <==> m.activeAlerts == 0
    ensures m.activeAlerts > 0 ==> caption == "Attention needed"
  {
    if m.activeAlerts > 0 then "Attention needed" else "All systems normal"
  }

  /** The card reads "All systems normal" exactly when no row is in error
      or warning. */
  lemma AlertsCaptionOfDevices(devices: seq<DeviceView>)
    ensures AlertsCaption(CalculateCurrentMetrics(devices)) == "All systems normal"
            <==> forall k :: 0 <= k < |devices| ==> !IsAlert(devices[k])
  {
  }

  lemma {:induction false} SumWithin(xs: seq<int>, lo: int, hi: int)
    requires forall k :: 0 <= k < |xs| ==> lo <= xs[k] <= hi
    ensures lo * |xs| <= Sum(xs) <= hi * |xs|
  {
    if xs != [] {
      var init := xs[..|xs| - 1];
      SumWithin(init, lo, hi);
      assert lo * |xs| == lo * |init| + lo;
      assert hi * |xs| == hi * |init| + hi;
    }
  }

  lemma QuotientWithin(t: real, n: real, lo: real, hi: real)
    requires n > 0.0 && lo * n <= t <= hi * n
    ensures lo <= t / n <= hi
  {
    assert (t / n) * n == t;
  }

  lemma MulAsReal(a: int, b: int)
    ensures (a * b) as real == a as real * b as real
  {
  }

  lemma RoundWithin(x: real, lo: int, hi: int)
    requires lo as real <= x <= hi as real
    ensures lo <= Round(x) <= hi
  {
  }

  /** A mean stays within any integer bounds every parsed value keeps. */
  lemma MeanWithin(devices: seq<DeviceView>, field: DeviceView -> string, lo: int, hi: int)
    requires devices != []
    requires forall k :: 0 <= k < |devices| ==> lo <= ParseIntOrZero(field(devices[k])) <= hi
    ensures lo <= Mean(devices, field) <= hi
  {
    var xs := Parsed(devices, field);
    assert forall k :: 0 <= k < |xs| ==> lo <= xs[k] <= hi;
    RoundedMeanWithin(xs, lo, hi);
  }

  lemma RoundedMeanWithin(xs: seq<int>, lo: int, hi: int)
    requires xs != []
    requires forall k :: 0 <= k < |xs| ==> lo <= xs[k] <= hi
    ensures lo <= Round(Sum(xs) as real / |xs| as real) <= hi
  {
    var n := |xs|;
    var total := Sum(xs);
    SumWithin(xs, lo, hi);
    MulAsReal(lo, n);
    MulAsReal(hi, n);
    QuotientWithin(total as real, n as real, lo as real, hi as real);
    RoundWithin(total as real / n as real, lo, hi);
  }

  /** The overview metrics of the fleet list the device service builds:
      the alert rows are exactly the records whose status is error or
      warning, and when every record's average temperature lies in integer
      bounds, so does the card's average temperature. */
  lemma FleetMetrics(records: seq<TelemetryRecord>, now: int, lo: int, hi: int)
    requires records != []
    requires forall k :: 0 <= k < |records| ==> lo as real <= records[k].avgTemperature <= hi as real
    ensures forall k :: 0 <= k < |records| ==>
              (IsAlert(MapDevices(records, now)[k]) <==> DetermineStatus(records[k], now) in {Error, Warning})
    ensures lo <= CalculateCurrentMetrics(MapDevices(records, now)).avgTemperature <= hi
  {
    var views := MapDevices(records, now);
    MappedDevicesReadBack(records, now);
    forall k | 0 <= k < |views|
      ensures lo <= ParseIntOrZero(TemperatureText(views[k])) <= hi
    {
      RoundWithin(records[k].avgTemperature, lo, hi);
    }
    MeanWithin(views, TemperatureText, lo, hi);
  }

  /** The alert code column: the row's error code, or `N/A` when it is 0. */
  datatype AlertCode = Code(code: int) | NotAvailable

  datatype AlertRow = AlertRow(
    id: string,
    name: string,
    alertCode: AlertCode,
    temperature: string,
    status: string,
    suggestedAction: string)

  const MaxAlertRows: nat := 5

  function AlertRowOf(d: DeviceView): AlertRow {
    AlertRow(
      d.id, d.name,
      if d.errorCode != 0 then Code(d.errorCode) else NotAvailable,
      d.temperature, d.status,
      if d.status == "error" then "Check device immediately" else "Monitor temperature")
  }

  /** `getDevicesWithAlerts`: the first five rows in error or warning,
      projected. */
  function DevicesWithAlerts(devices: seq<DeviceView>): (rows: seq<AlertRow>)
    ensures |rows| == Min(MaxAlertRows, |Filter(devices, IsAlert)|)
    ensures forall k :: 0 <= k < |rows| ==>
              var d := Filter(devices, IsAlert)[k];
              && rows[k].id == d.id && rows[k].name == d.name
              && rows[k].temperature == d.temperature && rows[k].status == d.status
              && (rows[k].status == "error" || rows[k].status == "warning")
              && (rows[k].suggestedAction == "Check device immediately" <==> rows[k].status == "error")
              && (rows[k].suggestedAction == "Monitor temperature" <==> rows[k].status == "warning")
              && (rows[k].alertCode == NotAvailable <==> d.errorCode == 0)
              && (rows[k].alertCode.Code? ==> rows[k].alertCode.code == d.errorCode)
  {
    var alerts := Filter(devices, IsAlert);
    var shown := alerts[..Min(MaxAlertRows, |alerts|)];
    seq(|shown|, k requires 0 <= k < |shown| => AlertRowOf(shown[k]))
  }

  /** The alert list shows as many rows as the alerts card counts, up to
      five. */
  lemma AlertListMatchesCard(devices: seq<DeviceView>)
    ensures |DevicesWithAlerts(devices)| == Min(MaxAlertRows, CalculateCurrentMetrics(devices).activeAlerts)
  {
    FilterCount(devices);
  }

  /** The alert rows follow the devices' own order. */
  lemma AlertRowsInDeviceOrder(devices: seq<DeviceView>)
    ensures var pos := FilterPositions(devices, IsAlert);
            var rows := DevicesWithAlerts(devices);
            && |rows| <= |pos|
            && (forall k :: 0 <= k < |rows| ==> pos[k] < |devices| && rows[k].id == devices[pos[k]].id)
            && (forall i, j :: 0 <= i < j < |rows| ==> pos[i] < pos[j])
  {
    FilterKeepsOrder(devices, IsAlert);
  }

  /** One document of the line KPI history; a missing figure is `None`. */
  datatype KpiRecord = KpiRecord(windowEnd: int, linePerformanceRate: Option<real>, lineQualityPercentage: Option<real>)

  function PerformanceOf(r: KpiRecord): Option<real> { r.linePerformanceRate }
  function QualityOf(r: KpiRecord): Option<real> { r.lineQualityPercentage }

  /** `item.Field || 0`. */
  function OrZero(x: Option<real>): real {
    if x.Some? then x.value else 0.0
  }

  /** One chart point; its label is the date of `windowEnd`. */
  datatype TrendPoint = TrendPoint(windowEnd: int, value: int)

  const MaxTrendPoints: nat := 12

  function ToTrendPoint(r: KpiRecord, field: KpiRecord -> Option<real>): TrendPoint {
    TrendPoint(r.windowEnd, Round(OrZero(field(r))))
  }

  /** `kpiData.slice(0, 12).reverse().map(...)`: the first twelve records,
      last first. */
  function TrendSeries(kpi: seq<KpiRecord>, field: KpiRecord -> Option<real>): (points: seq<TrendPoint>)
    ensures |points| == Min(MaxTrendPoints, |kpi|)
    ensures kpi == [] ==> points == []
    ensures forall k :: 0 <= k < |points| ==>
              points[k] == ToTrendPoint(kpi[|points| - 1 - k], field)
  {
    if |kpi| == 0 then []
    else
      var newest := Reversed(kpi[..Min(MaxTrendPoints, |kpi|)]);
      seq(|newest|, k requires 0 <= k < |newest| => ToTrendPoint(newest[k], field))
  }

  /** `prepareProductionData`: the line performance rate of the newest
      twelve records, oldest first, a missing rate charted as 0. */
  function ProductionTrend(kpi: seq<KpiRecord>): (points: seq<TrendPoint>)
    ensures |points| == Min(MaxTrendPoints, |kpi|)
    ensures forall k :: 0 <= k < |points| ==>
              && points[k].windowEnd == kpi[|points| - 1 - k].windowEnd
              && points[k].value == Round(OrZero(kpi[|points| - 1 - k].linePerformanceRate))
  {
    TrendSeries(kpi, PerformanceOf)
  }

  /** `prepareQualityData`: the same over the line quality percentage. */
  function QualityTrend(kpi: seq<KpiRecord>): (points: seq<TrendPoint>)
    ensures |points| == Min(MaxTrendPoints, |kpi|)
    ensures forall k :: 0 <= k < |points| ==>
              && points[k].windowEnd == kpi[|points| - 1 - k].windowEnd
              && points[k].value == Round(OrZero(kpi[|points| - 1 - k].lineQualityPercentage))
  {
    TrendSeries(kpi, QualityOf)
  }

  /** The history comes newest first, so the chart runs oldest to newest
      and ends at the newest record. */
  lemma TrendChronological(kpi: seq<KpiRecord>, field: KpiRecord -> Option<real>)
    requires forall i, j :: 0 <= i < j < |kpi| ==> kpi[i].windowEnd >= kpi[j].windowEnd
    ensures var points := TrendSeries(kpi, field);
            && (forall i, j :: 0 <= i < j < |points| ==> points[i].windowEnd <= points[j].windowEnd)
            && (kpi != [] ==> points[|points| - 1].windowEnd == kpi[0].windowEnd)
  {
    var points := TrendSeries(kpi, field);
    forall i, j | 0 <= i < j < |points|
      ensures points[i].windowEnd <= points[j].windowEnd
    {
      assert points[i].windowEnd == kpi[|points| - 1 - i].windowEnd;
      assert points[j].windowEnd == kpi[|points| - 1 - j].windowEnd;
    }
  }

  /** What `calculateChange` compares: nothing below two points, otherwise
      the last two values. The percentage itself is not modelled. */
  datatype Change = NoChange | Between(latest: int, previous: int)

  function CalculateChange(data: seq<TrendPoint>): (c: Change)
    ensures c == NoChange <==> |data| < 2
    ensures c.Between? ==> c.latest == data[|data| - 1].value && c.previous == data[|data| - 2].value
  {
    if |data| < 2 then NoChange else Between(data[|data| - 1].value, data[|data| - 2].value)
  }

  /** The card's own guard `data.length > 0 ? calculateChange(data) : '+0%'`
      adds nothing to the guard inside `calculateChange`. */
  function CardChange(data: seq<TrendPoint>): (c: Change)
    ensures c == CalculateChange(data)
  {
    if |data| > 0 then CalculateChange(data) else NoChange
  }

  /** With fewer than two KPI records both cards show `+0%`. */
  lemma ShortHistoryShowsNoChange(kpi: seq<KpiRecord>)
    requires |kpi| < 2
    ensures CardChange(ProductionTrend(kpi)) == NoChange
    ensures CardChange(QualityTrend(kpi)) == NoChange
  {
  }
}
