/** The client data-access layer: the API origin, the status rule applied
    to every fleet document, the suggested action for an error type, the
    mappers from API documents to table rows, and the query strings of the
    requests. The requests themselves (`fetch`) are not modelled. */
module DeviceService {
  import opened Wrappers
  import opened Seqs
  import opened Text
  import opened JsObject
  import opened Telemetry
  import FleetQuery

  /** `API_BASE_URL`, chosen by the build's production flag. */
  function ApiBaseUrl(production: bool): (url: string)
    ensures production ==> StartsWith(url, "https://")
    ensures !production ==> StartsWith(url, "http://localhost:7071/")
  {
    if production then
      var scheme := "https://";
      assert (scheme + "iiotfunc-bugvhvexfbh0b7ha.westeurope-01.azurewebsites.net/api")[..|scheme|] == scheme;
      scheme + "iiotfunc-bugvhvexfbh0b7ha.westeurope-01.azurewebsites.net/api"
    else
      var origin := "http://localhost:7071/";
      assert (origin + "api")[..|origin|] == origin;
      origin + "api"
  }

  datatype DeviceStatus = Online | Warning | Error | Offline | Maintenance

  /** The status strings the pages and the badge compare against. */
  function StatusName(s: DeviceStatus): string {
    match s
    case Online => "online"
    case Warning => "warning"
    case Error => "error"
    case Offline => "offline"
    case Maintenance => "maintenance"
  }

  const StaleAfterMs: int := 5 * MsPerMinute

  /** `determineStatus`: a document more than five minutes old is offline
      whatever it says; otherwise an error code wins; otherwise a
      temperature strictly above 80 is a warning. */
  function DetermineStatus(device: TelemetryRecord, now: int): (s: DeviceStatus)
    ensures s == Offline <==> now - device.windowEnd > StaleAfterMs
    ensures s == Error <==> now - device.windowEnd <= StaleAfterMs && device.currentErrorCode != 0
    ensures s == Warning <==>
              now - device.windowEnd <= StaleAfterMs && device.currentErrorCode == 0 && device.avgTemperature > 80.0
    ensures s == Online <==>
              now - device.windowEnd <= StaleAfterMs && device.currentErrorCode == 0 && device.avgTemperature <= 80.0
    ensures s != Maintenance
  {
    var minutesSinceUpdate := (now - device.windowEnd) as real / 1000.0 / 60.0;
    if minutesSinceUpdate > 5.0 then Offline
    else if device.currentErrorCode != 0 then Error
    else if device.avgTemperature > 80.0 then Warning
    else Online
  }

  const ActionMap: map<string, string> := map[
    "EmergencyStop" := "Emergency stop activated - Check safety systems",
    "PowerFailure" := "Power failure detected - Restore power supply",
    "SensorFailure" := "Sensor malfunction - Replace or recalibrate sensor",
    "UnknownError" := "Unknown error - Inspect device manually",
    "LinePattern" := "Multiple errors detected - Check entire production line"
  ]

  const DefaultAction: string := "Check device status"

  /** `getSuggestedAction` with the lookup restricted to the table's own
      keys: the listed error types get their fixed text, every other type
      the default. */
  function SuggestedAction(errorType: string): (action: string)
    ensures errorType in ActionMap ==> action == ActionMap[errorType]
    ensures action == DefaultAction <==> errorType !in ActionMap
    ensures action != ""
  {
    if errorType in ActionMap then ActionMap[errorType] else DefaultAction
  }

  /** What `actionMap[errorType] || 'Check device status'` yields in
      JavaScript: a string, or an inherited member of `Object.prototype`. */
  datatype JsValue = Str(s: string) | PrototypeMember(name: string)

  /** `getSuggestedAction` as written: the object lookup also finds the
      members every object inherits, and those are truthy, so the default
      never replaces them. */
  function SuggestedActionAsWritten(errorType: string): (v: JsValue)
    ensures errorType !in ObjectPrototypeMembers ==> v == Str(SuggestedAction(errorType))
    ensures errorType in ObjectPrototypeMembers ==> v == PrototypeMember(errorType)
  {
    match Get(ActionMap, errorType)
    case Own(action) => if action != "" then Str(action) else Str(DefaultAction)
    case Inherited(name) => PrototypeMember(name)
    case Undefined => Str(DefaultAction)
  }

  /** The error type `toString` is answered with a function instead of
      the default action. */
  lemma SuggestedActionAsWrittenLeaks()
    ensures SuggestedActionAsWritten("toString") == PrototypeMember("toString")
    ensures SuggestedAction("toString") == DefaultAction
  {
    assert "toString" in ObjectPrototypeMembers;
  }

  /** One row of the device table, as `getDevices` builds it. */
  datatype DeviceView = DeviceView(
    id: string,
    name: string,
    deviceType: string,
    lineId: string,
    lineName: string,
    temperature: string,
    productionRate: string,
    status: string,
    lastUpdate: int,
    errorCode: int)

  const DegreesSuffix: string := "\U{00B0}C"
  const RateSuffix: string := " units/hr"

  function ToDeviceView(device: TelemetryRecord, now: int): DeviceView {
    DeviceView(
      device.deviceId,
      device.deviceId,
      device.deviceType,
      device.lineId,
      device.lineName,
      IntToString(Round(device.avgTemperature)) + DegreesSuffix,
      IntToString(Round(device.avgProductionRate)) + RateSuffix,
      StatusName(DetermineStatus(device, now)),
      device.windowEnd,
      device.currentErrorCode)
  }

  /** `devices.map(...)` of `getDevices`. */
  function MapDevices(devices: seq<TelemetryRecord>, now: int): (views: seq<DeviceView>)
    ensures |views| == |devices|
    ensures forall k :: 0 <= k < |views| ==>
              && views[k].id == devices[k].deviceId && views[k].name == devices[k].deviceId
              && views[k].status == StatusName(DetermineStatus(devices[k], now))
              && views[k].lastUpdate == devices[k].windowEnd
              && views[k].errorCode == devices[k].currentErrorCode
  {
    seq(|devices|, k requires 0 <= k < |devices| => ToDeviceView(devices[k], now))
  }

  /** The unit-suffixed strings of a row read back, with `parseInt`, as the
      rounded averages they were printed from. */
  lemma MappedDevicesReadBack(devices: seq<TelemetryRecord>, now: int)
    ensures forall k :: 0 <= k < |MapDevices(devices, now)| ==>
              && ParseInt(MapDevices(devices, now)[k].temperature) == Some(Round(devices[k].avgTemperature))
              && ParseInt(MapDevices(devices, now)[k].productionRate) == Some(Round(devices[k].avgProductionRate))
  {
    var views := MapDevices(devices, now);
    forall k | 0 <= k < |views|
      ensures && ParseInt(views[k].temperature) == Some(Round(devices[k].avgTemperature))
              && ParseInt(views[k].productionRate) == Some(Round(devices[k].avgProductionRate))
    {
      assert views[k] == ToDeviceView(devices[k], now);
      ParseIntOfIntToString(Round(devices[k].avgTemperature), DegreesSuffix);
      ParseIntOfIntToString(Round(devices[k].avgProductionRate), RateSuffix);
    }
  }

  /** One document of the error feed. */
  datatype ErrorEvent = ErrorEvent(
    deviceId: string,
    lineId: string,
    errorCode: int,
    errorType: string,
    severity: string,
    timestamp: string,
    actionTaken: string,
    alertId: string,
    errorCount: int)

  /** One row of the error table, as `getErrors` builds it. */
  datatype ErrorView = ErrorView(
    id: int,
    name: string,
    hubId: string,
    errorCode: int,
    errorType: string,
    severity: string,
    timestamp: string,
    alertCode: string,
    suggestedAction: string,
    actionTaken: string,
    alertId: string,
    errorCount: int)

  /** The alert code: the error type in capitals, a `-`, then the code. */
  function AlertCode(errorType: string, errorCode: int): (code: string)
    ensures |code| > |errorType| + 1
    ensures forall k :: 0 <= k < |errorType| ==> code[k] == UpperChar(errorType[k])
    ensures code[|errorType|] == '-'
  {
    Upper(errorType) + "-" + IntToString(errorCode)
  }

  /** What follows the `-` of the alert code reads back as the error code. */
  lemma AlertCodeDecodes(errorType: string, errorCode: int)
    ensures ParseInt(AlertCode(errorType, errorCode)[|errorType| + 1..]) == Some(errorCode)
  {
    var a := AlertCode(errorType, errorCode);
    assert a[|errorType| + 1..] == IntToString(errorCode) + [];
    ParseIntOfIntToString(errorCode, []);
  }

  function ToErrorView(e: ErrorEvent, index: nat): ErrorView {
    ErrorView(
      index + 1, e.deviceId, e.lineId, e.errorCode, e.errorType, e.severity, e.timestamp,
      AlertCode(e.errorType, e.errorCode), SuggestedAction(e.errorType),
      e.actionTaken, e.alertId, e.errorCount)
  }

  /** `errors.map((error, index) => ...)` of `getErrors`: one row per event,
      numbered from 1 in feed order. */
  function MapErrors(errors: seq<ErrorEvent>): (views: seq<ErrorView>)
    ensures |views| == |errors|
    ensures forall k :: 0 <= k < |views| ==>
              && views[k].id == k + 1
              && views[k].name == errors[k].deviceId && views[k].hubId == errors[k].lineId
              && views[k].errorCode == errors[k].errorCode && views[k].errorType == errors[k].errorType
              && views[k].alertCode == AlertCode(errors[k].errorType, errors[k].errorCode)
              && views[k].suggestedAction == SuggestedAction(errors[k].errorType)
    ensures forall k :: 0 <= k < |views| && errors[k].errorType !in ObjectPrototypeMembers ==>
              SuggestedActionAsWritten(errors[k].errorType) == Str(views[k].suggestedAction)
  {
    seq(|errors|, k requires 0 <= k < |errors| => ToErrorView(errors[k], k))
  }

  /** `URLSearchParams` as the service uses it: appended pairs, serialised
      as `name=value` joined by `&`. Percent-encoding is not modelled. */
  class QueryParams {
    var entries: seq<(string, string)>

    constructor ()
      ensures entries == []
    {
      entries := [];
    }

    method Append(name: string, value: string)
      modifies this
      ensures entries == old(entries) + [(name, value)]
    {
      entries := entries + [(name, value)];
    }

    function ToString(): string
      reads this
    {
      EncodeQuery(entries)
    }
  }

  function EncodeQuery(entries: seq<(string, string)>): (q: string)
    ensures q == "" <==> entries == []
  {
    if entries == [] then ""
    else
      var last := entries[|entries| - 1];
      var pair := last.0 + "=" + last.1;
      if |entries| == 1 then pair else EncodeQuery(entries[..|entries| - 1]) + "&" + pair
  }

  /** JavaScript truthiness of an optional string or number parameter. */
  predicate Given(s: Option<string>) {
    s.Some? && s.value != ""
  }

  predicate GivenNumber(n: Option<int>) {
    n.Some? && n.value != 0
  }

  datatype ErrorFilter = ErrorFilter(deviceId: Option<string>, lineId: Option<string>, daysBack: Option<int>)

  predicate AnyErrorFilter(p: ErrorFilter) {
    Given(p.deviceId) || Given(p.lineId) || GivenNumber(p.daysBack)
  }

  /** The pairs `getErrors` appends, in order. */
  function ErrorQueryEntries(p: ErrorFilter): (entries: seq<(string, string)>)
    ensures entries == [] <==> !AnyErrorFilter(p)
  {
    (if Given(p.deviceId) then [("deviceId", p.deviceId.value)] else [])
    + (if Given(p.lineId) then [("lineId", p.lineId.value)] else [])
    + (if GivenNumber(p.daysBack) then [("daysBack", IntToString(p.daysBack.value))] else [])
  }

  /** The URL `getErrors` fetches: a `?` and the query string only when a
      filter was given. */
  method ErrorsUrl(base: string, p: ErrorFilter) returns (url: string)
    ensures AnyErrorFilter(p) ==> url == base + "/errors?" + EncodeQuery(ErrorQueryEntries(p))
    ensures !AnyErrorFilter(p) ==> url == base + "/errors"
    ensures StartsWith(url, base + "/errors")
    ensures |url| > |base + "/errors"| <==> AnyErrorFilter(p)
  {
    var queryParams := new QueryParams();
    if Given(p.deviceId) {
      queryParams.Append("deviceId", p.deviceId.value);
    }
    if Given(p.lineId) {
      queryParams.Append("lineId", p.lineId.value);
    }
    if GivenNumber(p.daysBack) {
      queryParams.Append("daysBack", IntToString(p.daysBack.value));
    }
    assert queryParams.entries == ErrorQueryEntries(p);
    var qs := queryParams.ToString();
    url := base + "/errors" + (if qs != "" then "?" + qs else "");
    assert (base + "/errors" + "?") + qs == base + "/errors?" + qs;
  }

  datatype LogFilter = LogFilter(deviceId: Option<string>, date: Option<string>, container: Option<string>)

  function LogQueryEntries(p: LogFilter): seq<(string, string)> {
    (if Given(p.deviceId) then [("deviceId", p.deviceId.value)] else [])
    + (if Given(p.date) then [("date", p.date.value)] else [])
    + (if Given(p.container) then [("container", p.container.value)] else [])
  }

  /** The URL `getLogs` fetches: unlike `getErrors`, the `?` is always there. */
  method LogsUrl(base: string, p: LogFilter) returns (url: string)
    ensures url == base + "/logs?" + EncodeQuery(LogQueryEntries(p))
    ensures !Given(p.deviceId) && !Given(p.date) && !Given(p.container) ==> url == base + "/logs?"
  {
    var queryParams := new QueryParams();
    if Given(p.deviceId) {
      queryParams.Append("deviceId", p.deviceId.value);
    }
    if Given(p.date) {
      queryParams.Append("date", p.date.value);
    }
    if Given(p.container) {
      queryParams.Append("container", p.container.value);
    }
    assert queryParams.entries == LogQueryEntries(p);
    url := base + "/logs?" + queryParams.ToString();
  }

  const DefaultLogContainer: string := "telemetry-qcs"

  /** The URL `getLogDates` fetches; an absent container means the default. */
  method LogDatesUrl(base: string, deviceId: Option<string>, container: Option<string>) returns (url: string)
    ensures var c := if container.Some? then container.value else DefaultLogContainer;
            url == base + "/logs/dates?"
                   + EncodeQuery((if Given(deviceId) then [("deviceId", deviceId.value)] else []) + [("container", c)])
  {
    var queryParams := new QueryParams();
    if Given(deviceId) {
      queryParams.Append("deviceId", deviceId.value);
    }
    queryParams.Append("container", if container.Some? then container.value else DefaultLogContainer);
    assert queryParams.entries
        == (if Given(deviceId) then [("deviceId", deviceId.value)] else [])
           + [("container", if container.Some? then container.value else DefaultLogContainer)];
    url := base + "/logs/dates?" + queryParams.ToString();
  }

  const DefaultKpiDaysBack: int := 30

  /** The URL `getLineKPIs` fetches; `daysBack` is always sent, 30 when
      absent. */
  method LineKpisUrl(base: string, lineId: Option<string>, daysBack: Option<int>) returns (url: string)
    ensures var d := if daysBack.Some? then daysBack.value else DefaultKpiDaysBack;
            url == base + "/kpis?"
                   + EncodeQuery((if Given(lineId) then [("lineId", lineId.value)] else []) + [("daysBack", IntToString(d))])
  {
    var queryParams := new QueryParams();
    if Given(lineId) {
      queryParams.Append("lineId", lineId.value);
    }
    queryParams.Append("daysBack", IntToString(if daysBack.Some? then daysBack.value else DefaultKpiDaysBack));
    assert queryParams.entries
        == (if Given(lineId) then [("lineId", lineId.value)] else [])
           + [("daysBack", IntToString(if daysBack.Some? then daysBack.value else DefaultKpiDaysBack))];
    url := base + "/kpis?" + queryParams.ToString();
  }

  /** Two documents of one device, the newer fresh and error-free at 60
      degrees, the older one hour earlier with an error: the fleet list
      keeps only the newer one, and it shows as online. */
  lemma FleetScenario(t: int, a: TelemetryRecord, b: TelemetryRecord)
    requires a.deviceId == b.deviceId
    requires a.windowEnd == t && a.currentErrorCode == 0 && a.avgTemperature == 60.0
    requires b.windowEnd == t - 60 * MsPerMinute && b.currentErrorCode == 2
    ensures FleetQuery.LatestPerDevice([a, b]) == [a]
    ensures DetermineStatus(a, t) == Online
  {
    var items := [a, b];
    assert items[..1] == [a];
    assert [a][..0] == [];
    assert FleetQuery.Fold([]) == FleetQuery.Latest([], map[]);
    var one := FleetQuery.Fold([a]);
    assert one == FleetQuery.Absorb(FleetQuery.Latest([], map[]), a);
    assert one == FleetQuery.Latest([a.deviceId], map[a.deviceId := a]);
    assert FleetQuery.Fold(items) == FleetQuery.Absorb(one, b);
    assert FleetQuery.Fold(items) == one;
  }
}
