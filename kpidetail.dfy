/** The KPI detail page: per-device performance figures drawn at random
    within fixed ranges, the integer OEE computed from them, the projection
    of one selected metric, and the best value of each metric. */
module KpiDetail {
  import opened Wrappers
  import opened Seqs
  import opened Text
  import DeviceService

  /** A device of the sample fleet, as the page reads it. */
  datatype SourceDevice = SourceDevice(name: string, productionRate: string)

  /** The three `Math.random()` draws for one device. */
  datatype Draws = Draws(availability: real, quality: real, performance: real)

  predicate ValidDraws(d: Draws) {
    && 0.0 <= d.availability < 1.0
    && 0.0 <= d.quality < 1.0
    && 0.0 <= d.performance < 1.0
  }

  /** One row of `devicePerformance`. The production rate is `None` where
      `parseInt` gives `NaN`. */
  datatype DevicePerformance = DevicePerformance(
    name: string,
    availability: int,
    quality: int,
    performance: int,
    oee: int,
    productionRate: Option<int>)

  /** `Math.floor(draw * span) + base`. */
  function Scaled(draw: real, span: nat, base: int): (v: int)
    requires 0.0 <= draw < 1.0
    ensures base <= v < base + span || (span == 0 && v == base)
  {
    (draw * span as real).Floor + base
  }

  /** Overall Equipment Effectiveness from three percentages:
      `Math.round(a * q * p / 10000)`. */
  function Oee(availability: int, quality: int, performance: int): (oee: int)
    ensures oee as real - 0.5 <= (availability * quality * performance) as real / 10000.0 < oee as real + 0.5
  {
    Round((availability * quality * performance) as real / 10000.0)
  }

  /** `parseInt(productionRate.replace(' units/hr', ''))`: the unit text
      the device service prints is dropped before parsing; an empty text
      gives `NaN`. */
  function ParseRate(productionRate: string): (rate: Option<int>)
    ensures productionRate == [] ==> rate == None
  {
    ParseInt(ReplaceFirst(productionRate, DeviceService.RateSuffix, ""))
  }

  function Perform(device: SourceDevice, draws: Draws): (d: DevicePerformance)
    requires ValidDraws(draws)
    ensures d.name == device.name
    ensures 70 <= d.availability <= 99 && 80 <= d.quality <= 99 && 70 <= d.performance <= 94
    ensures d.oee == Oee(d.availability, d.quality, d.performance)
    ensures d.productionRate == ParseRate(device.productionRate)
  {
    var availability := Scaled(draws.availability, 30, 70);
    var quality := Scaled(draws.quality, 20, 80);
    var performance := Scaled(draws.performance, 25, 70);
    DevicePerformance(device.name, availability, quality, performance,
                      Oee(availability, quality, performance), ParseRate(device.productionRate))
  }

  /** `devicePerformance`: one row per device, in order. */
  function DevicePerformances(devices: seq<SourceDevice>, draws: seq<Draws>): (perf: seq<DevicePerformance>)
    requires |draws| == |devices|
    requires forall k :: 0 <= k < |draws| ==> ValidDraws(draws[k])
    ensures |perf| == |devices|
    ensures forall k :: 0 <= k < |perf| ==> perf[k] == Perform(devices[k], draws[k])
  {
    seq(|devices|, k requires 0 <= k < |devices| => Perform(devices[k], draws[k]))
  }

  lemma RoundAtMost(x: real, bound: int)
    requires x <= bound as real
    ensures Round(x) <= bound
  {
  }

  /** With percentages of at most 100, the OEE is a percentage no larger
      than any of its three components. */
  lemma OeeAtMostComponents(a: int, q: int, p: int)
    requires 0 <= a <= 100 && 0 <= q <= 100 && 0 <= p <= 100
    ensures 0 <= Oee(a, q, p)
    ensures Oee(a, q, p) <= a && Oee(a, q, p) <= q && Oee(a, q, p) <= p
  {
    var qp := q * p;
    var ap := a * p;
    var aq := a * q;
    assert 0 <= qp <= 10000 && 0 <= ap <= 10000 && 0 <= aq <= 10000 by {
      MulBound(q, p);
      MulBound(a, p);
      MulBound(a, q);
    }
    var prod := a * q * p;
    assert prod == a * qp && prod == q * ap && prod == p * aq;
    assert 0 <= prod;
    assert prod <= a * 10000 by { MulMonotone(a, qp, 10000); }
    assert prod <= q * 10000 by { MulMonotone(q, ap, 10000); }
    assert prod <= p * 10000 by { MulMonotone(p, aq, 10000); }
    var x := prod as real / 10000.0;
    RoundAtMost(x, a);
    RoundAtMost(x, q);
    RoundAtMost(x, p);
  }

  lemma MulBound(x: int, y: int)
    requires 0 <= x <= 100 && 0 <= y <= 100
    ensures 0 <= x * y <= 10000
  {
    MulMonotone(x, y, 100);
    MulMonotone(100, x, 100);
  }

  lemma MulMonotone(x: int, y: int, z: int)
    requires 0 <= x && y <= z
    ensures x * y <= x * z
  {
  }

  /** The formula reproduces the OEE of the sample KPI figures, overall and
      month by month. */
  lemma OeeMatchesSampleKpis()
    ensures Oee(85, 92, 78) == 61
    ensures Oee(82, 90, 75) == 55
    ensures Oee(84, 91, 76) == 58
    ensures Oee(83, 92, 77) == 59
    ensures Oee(85, 93, 78) == 62
    ensures Oee(87, 92, 79) == 63
    ensures Oee(86, 91, 80) == 63
  {
  }

  /** The production rate a device's `N units/hr` text reads back as `N`. */
  lemma ProductionRateReadsBack(n: int)
    ensures ParseRate(IntToString(n) + DeviceService.RateSuffix) == Some(n)
  {
    var ds := IntToString(n);
    assert forall k :: 0 <= k < |ds| ==> IsDecimalDigit(ds[k]) || ds[k] == '-' by {
      if n < 0 {
        var digits := NatToString(-n);
        assert ds == "-" + digits;
        assert forall k :: 1 <= k < |ds| ==> ds[k] == digits[k - 1];
      }
    }
    ReplaceFirstSuffix(ds, DeviceService.RateSuffix);
    assert ds + [] == ds;
    ParseIntOfIntToString(n, []);
  }

  datatype MetricPoint = MetricPoint(name: string, value: Option<int>)

  function OeeOf(d: DevicePerformance): int { d.oee }
  function AvailabilityOf(d: DevicePerformance): int { d.availability }
  function QualityOf(d: DevicePerformance): int { d.quality }
  function PerformanceOf(d: DevicePerformance): int { d.performance }

  /** The `switch` of `getMetricData` for one device: any name it does not
      list selects the OEE. */
  function MetricValue(metric: string, d: DevicePerformance): (v: Option<int>)
    ensures metric == "availability" ==> v == Some(d.availability)
    ensures metric == "quality" ==> v == Some(d.quality)
    ensures metric == "performance" ==> v == Some(d.performance)
    ensures metric == "production" ==> v == d.productionRate
    ensures metric !in {"availability", "quality", "performance", "production"} ==> v == Some(d.oee)
  {
    match metric
    case "oee" => Some(d.oee)
    case "availability" => Some(d.availability)
    case "quality" => Some(d.quality)
    case "performance" => Some(d.performance)
    case "production" => d.productionRate
    case _ => Some(d.oee)
  }

  /** `getMetricData`: one point per device, in order, named after it. */
  function MetricData(metric: string, perf: seq<DevicePerformance>): (data: seq<MetricPoint>)
    ensures |data| == |perf|
    ensures forall k :: 0 <= k < |data| ==>
              data[k].name == perf[k].name && data[k].value == MetricValue(metric, perf[k])
  {
    seq(|perf|, k requires 0 <= k < |perf| => MetricPoint(perf[k].name, MetricValue(metric, perf[k])))
  }

  /** An unknown metric shows the same chart as `oee`. */
  lemma UnknownMetricIsOee(metric: string, perf: seq<DevicePerformance>)
    requires metric !in {"oee", "availability", "quality", "performance", "production"}
    ensures MetricData(metric, perf) == MetricData("oee", perf)
  {
  }

  /** `Math.max(...values)`; `None` stands for the `-Infinity` of an empty
      argument list. */
  function TopPerformer(values: seq<int>): (top: Option<int>)
    ensures top.None? <==> values == []
    ensures top.Some? ==> top.value in values
    ensures top.Some? ==> forall k :: 0 <= k < |values| ==> values[k] <= top.value
  {
    if values == [] then None
    else
      var last := values[|values| - 1];
      match TopPerformer(values[..|values| - 1])
      case None => Some(last)
      case Some(m) => Some(if m >= last then m else last)
  }

  function Project(perf: seq<DevicePerformance>, field: DevicePerformance -> int): (values: seq<int>)
    ensures |values| == |perf|
    ensures forall k :: 0 <= k < |values| ==> values[k] == field(perf[k])
  {
    seq(|perf|, k requires 0 <= k < |perf| => field(perf[k]))
  }

  datatype Comparison = Comparison(oee: Option<int>, availability: Option<int>, quality: Option<int>, performance: Option<int>)

  /** The `topPerformer` column of `comparisonData`: for each metric the
      largest value over the devices, absent for an empty fleet. */
  function TopPerformers(perf: seq<DevicePerformance>): (c: Comparison)
    ensures perf == [] ==> c == Comparison(None, None, None, None)
    ensures perf != [] ==> c.oee.Some? && c.availability.Some? && c.quality.Some? && c.performance.Some?
    ensures forall k :: 0 <= k < |perf| ==>
              && perf[k].oee <= c.oee.value && perf[k].availability <= c.availability.value
              && perf[k].quality <= c.quality.value && perf[k].performance <= c.performance.value
    ensures c.oee.Some? ==> exists k :: 0 <= k < |perf| && perf[k].oee == c.oee.value
    ensures c.availability.Some? ==> exists k :: 0 <= k < |perf| && perf[k].availability == c.availability.value
    ensures c.quality.Some? ==> exists k :: 0 <= k < |perf| && perf[k].quality == c.quality.value
    ensures c.performance.Some? ==> exists k :: 0 <= k < |perf| && perf[k].performance == c.performance.value
  {
    Comparison(
      TopPerformer(Project(perf, OeeOf)),
      TopPerformer(Project(perf, AvailabilityOf)),
      TopPerformer(Project(perf, QualityOf)),
      TopPerformer(Project(perf, PerformanceOf)))
  }

  /** Over a non-empty fleet every best value is one device's value, at
      least every device's value, and inside its metric's range. */
  lemma TopPerformersWithinRanges(devices: seq<SourceDevice>, draws: seq<Draws>)
    requires |draws| == |devices| && devices != []
    requires forall k :: 0 <= k < |draws| ==> ValidDraws(draws[k])
    ensures var tops := TopPerformers(DevicePerformances(devices, draws));
            && tops.availability.Some? && 70 <= tops.availability.value <= 99
            && tops.quality.Some? && 80 <= tops.quality.value <= 99
            && tops.performance.Some? && 70 <= tops.performance.value <= 94
            && tops.oee.Some? && 0 <= tops.oee.value <= tops.availability.value
  {
    var perf := DevicePerformances(devices, draws);
    var tops := TopPerformers(perf);
    var av := Project(perf, AvailabilityOf);
    var oe := Project(perf, OeeOf);
    var i :| 0 <= i < |oe| && oe[i] == tops.oee.value;
    OeeAtMostComponents(perf[i].availability, perf[i].quality, perf[i].performance);
    assert oe[i] <= av[i];
    assert av[i] <= tops.availability.value;
  }
}
