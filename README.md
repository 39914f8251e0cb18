# IIoT dashboard core, modelled in Dafny

This project models the logic of a small industrial IoT monitoring
dashboard. The dashboard has two Azure Functions endpoints over a Cosmos DB
`Telemetry` container and a React client. The model covers:

- **Fleet snapshot endpoint** (`GET /devices`). It reads the telemetry
  documents of the last 14 days of four document types, newest first. A
  loop keeps the latest document of each device in a dictionary, and the
  dictionary's values are returned as a 200, or the error as a 500. The
  loop is a `while` loop over a map plus its key insertion order. It is
  proved equal to a recursive fold, and the properties the endpoint
  promises are proved about that fold.
- **Device detail endpoint** (`GET /devices/{id}`). It reads the device's
  `telemetry-*` documents of the last 24 hours. An empty answer is a 404.
  Otherwise it returns the newest document and the projected series in
  chronological order.
- **Device service** (client). It covers:
  - the status rule;
  - the suggested action for an error type;
  - the device-row and error-row mappers;
  - the query strings of the requests, built on a `URLSearchParams`-like
    object.
- **Dashboard page.** It covers:
  - the three overview metrics;
  - the list of at most five devices in alert;
  - the two 12-point trend series;
  - the guard of the change caption.
- **Status badge.** It covers the status table with an offline fallback
  and the dot colour.
- **Secondary navigation bar.** The path prefix picks a tab list, the
  active tab defaults to the first item, and the active button is
  highlighted. The parent's `activeTab` state is a class field that the
  bar reads and sets.
- **KPI detail page.** It covers:
  - random per-device figures within fixed ranges;
  - the integer OEE;
  - the metric selection;
  - the best value of each metric.
- **Authentication provider.** It is a class holding the browser storage,
  the authenticated flag and the user. `login`, `logout`, `checkAuth` and
  the user effect are its methods.

The database is an input sequence `store`. What `fetchAll` hands back is
any `items` satisfying `Telemetry.IsQueryAnswer`: the same multiset as the
eligible store documents, sorted newest first. The lemmas stated "against
the real store" connect the endpoint output to the store through that
predicate. Wall-clock time is the integer parameter `now`, in
milliseconds. `WindowEnd` is an integer in milliseconds too. Averaged
telemetry figures are exact `real`s, and `Math.round` is
`Floor(x + 0.5)`.

Where descriptions of the system and the code disagree, the code is
followed:

- `determineStatus` (src/services/deviceService.js:210-219) tests
  staleness before the error code. A document more than five minutes old
  is offline even when it carries an error code.
- Freshness is wall-clock age. It is not an availability threshold.

On the Dashboard, the change under "Avg Temperature" is computed from the
quality trend series (src/pages/Dashboard.jsx:146). The model reproduces
that as written, through `Dashboard.CardChange` over
`Dashboard.QualityTrend`. The KPI detail comments promise ranges up to 100
and 95, but the code draws 70-99, 80-99 and 70-94
(src/pages/KPIDetail.jsx:8-10). The model follows the code.

Files:

- `wrappers.dfy`: `Option` and `Result`.
- `seqs.dfy`: `filter` (with the positions it keeps), `reverse` and `Min`.
- `text.dfy`: `parseInt`, integer printing, ASCII `toUpperCase`,
  `startsWith`, `replace` and `Math.round`.
- `jsobject.dfy`: property lookup on an object literal, including the
  members inherited from `Object.prototype`.
- `telemetry.dfy`: documents, responses and the query-answer predicate.
- One file per core source file: `fleetquery.dfy`, `devicedetail.dfy`,
  `deviceservice.dfy`, `dashboard.dfy`, `statusbadge.dfy`,
  `secondarynavbar.dfy`, `kpidetail.dfy` and `auth.dfy`.

## Model

| member | source | states |
|---|---|---|
| Text.ParseIntOfIntToString | src/pages/Dashboard.jsx:49-57 | `parseInt` reads back any printed integer followed by unit text that does not continue the number |
| Text.Round | src/services/deviceService.js:26-27 | `Math.round` gives the integer within half of `x`, halves rounded up |
| Text.ParseInt | src/pages/Dashboard.jsx:50 | the reference definition of `parseInt` with no radix: the empty text is `NaN` (`None`); the lemmas below state which texts give what |
| Text.ParseIntNoNumber | src/pages/Dashboard.jsx:50 | after the leading white space, nothing left or a first character that is neither a digit nor a sign gives `NaN` |
| Text.ParseIntDecimal | src/pages/Dashboard.jsx:50 | a decimal number after the white space, without a `0x`/`0X` prefix, reads as the value of its leading digits |
| Text.ParseIntSigned | src/pages/Dashboard.jsx:50 | a `-` or `+` applies to the unsigned number after it; a sign with no number after it is `NaN` |
| Text.IntToString | src/services/deviceService.js:26-27 | the `${n}` text: a `-` exactly for negative numbers, then decimal digits with no leading zero; `parseInt` reads it back by `Text.ParseIntOfIntToString` |
| Text.StartsWith | src/components/SecondaryNavbar.jsx:39-46 | `startsWith`: the text is at least as long as the prefix and begins with it |
| Text.ReplaceFirst | src/pages/KPIDetail.jsx:12 | `replace` with a string pattern: a text that starts with the pattern has that first occurrence replaced |
| Text.ReplaceFirstAt | src/pages/KPIDetail.jsx:12 | when the pattern first occurs at index `i`, the result is the text before `i`, the replacement, and the text after the occurrence |
| Text.ReplaceFirstAbsent | src/pages/KPIDetail.jsx:12 | a text with no occurrence of the pattern is returned unchanged |
| Text.UpperChar | src/services/deviceService.js:179 | a lower-case ASCII letter becomes the capital at the same place in the alphabet; every other character is kept |
| Text.Upper | src/services/deviceService.js:179 | upper-casing keeps the length and maps every character to its capital |
| Text.ReplaceFirstSuffix | src/pages/KPIDetail.jsx:12 | replacing the first occurrence of a unit text that follows a number exactly leaves the number |
| Seqs.Filter | src/pages/Dashboard.jsx:59 | `filter`: no longer than the input, every kept element satisfies the test and comes from the input, and every input element that satisfies it is kept |
| Seqs.FilterKeepsOrder | src/pages/Dashboard.jsx:97 | the kept elements sit at strictly increasing positions of the input, so `filter` keeps the order |
| Seqs.Reversed | api/getDeviceDetail/index.js:52 | `reverse`: the same length, element `k` being element `n-1-k` of the input |
| Telemetry.QueryAnswerContents | api/getDevices/index.js:16-34 | a query answer holds only eligible store documents, and every one of them |
| FleetQuery.FleetEligible | api/getDevices/index.js:13-24 | the WHERE clause: one of the four document types and a window ending at or after now minus 14 days |
| FleetQuery.Fold | api/getDevices/index.js:37-43 | the dictionary after the loop is well formed: distinct keys, each mapped to a document of that device, and the keys are exactly the device ids of the input |
| FleetQuery.FoldKeysInFirstOccurrenceOrder | api/getDevices/index.js:37-45 | the keys come in the order their devices first occur in the input: some document of an earlier key comes before every document of a later key |
| FleetQuery.ReduceLatest | api/getDevices/index.js:37-45 | the in-place loop over the dictionary returns exactly the values of the fold specification |
| FleetQuery.FoldKeepsNewest | api/getDevices/index.js:39-41 | each kept document is at least as recent as every input document of its device |
| FleetQuery.FoldKeepsFirstNewest | api/getDevices/index.js:39-41 | each kept document is an input document newer than every earlier one of its device, so ties keep the first, because the comparison is strict |
| FleetQuery.LatestPerDevice | api/getDevices/index.js:45 | `Object.values` of the dictionary after the loop, in key insertion order; what it promises is stated by the `Latest*` lemmas below |
| FleetQuery.LatestUnique | api/getDevices/index.js:37-45 | the output holds at most one document per device id |
| FleetQuery.LatestCoversEveryDevice | api/getDevices/index.js:38-42 | every device id of the input appears in the output |
| FleetQuery.LatestIsNewest | api/getDevices/index.js:39-41 | an output document's window ends no earlier than that of any input document of the same device |
| FleetQuery.LatestIsFirstNewest | api/getDevices/index.js:40-45 | every output document is an unmodified input document, the first of its device's newest |
| FleetQuery.LatestOfSortedIsFirstSeen | api/getDevices/index.js:25-43 | on newest-first input, the kept document of a device is its first occurrence |
| FleetQuery.LatestCount | api/getDevices/index.js:45 | there are no more output documents than input documents |
| FleetQuery.FleetResponse | api/getDevices/index.js:45-61 | status 200 or 500; 500 exactly on failure, with `{error: message}` and no headers; an empty answer is 200 with an empty list; otherwise JSON/CORS headers and exactly the reduced list, which is duplicate-free and drawn from the answer |
| FleetQuery.HandleGetDevices | api/getDevices/index.js:32-62 | the handler, with the loop inside, writes exactly the response the specification function gives |
| FleetQuery.FleetListsOnlyEligible | api/getDevices/index.js:13-24 | against the store, every listed document is a stored document of one of the four types whose window ends at or after now minus 14 days |
| FleetQuery.FleetListsEveryEligibleDevice | api/getDevices/index.js:13-43 | against the store, every device with an eligible document is listed |
| DeviceDetailQuery.DetailEligible | api/getDeviceDetail/index.js:14-22 | the WHERE clause: this device, a `telemetry-` document type, and a window ending at or after now minus 24 hours |
| DeviceDetailQuery.Historical | api/getDeviceDetail/index.js:47-52 | the series has the answer's length, in reverse order; each point copies `WindowEnd`, temperature and production rate, and availability times 100 |
| DeviceDetailQuery.DetailResponse | api/getDeviceDetail/index.js:35-71 | failure is 500 with the message; an empty answer is 404 "Device not found"; 200 exactly for a non-empty answer, with `current` the first document, the series exactly the reversed projection of the answer, as long as the answer, and a last timestamp equal to `current`'s `WindowEnd` |
| DeviceDetailQuery.HistoricalChronological | api/getDeviceDetail/index.js:23-52 | on newest-first input the series is non-decreasing in time |
| DeviceDetailQuery.DetailCurrentIsNewest | api/getDeviceDetail/index.js:14-44 | against the store, `current` is an eligible document of the device, and no eligible stored document is newer |
| DeviceDetailQuery.DetailNotFoundIffNoEligible | api/getDeviceDetail/index.js:14-41 | against the store, the 404 happens exactly when no stored document is this device's `telemetry-*` document of the last 24 hours |
| DeviceService.ApiBaseUrl | src/services/deviceService.js:3-5 | the production build talks to an `https://` origin, any other build to `http://localhost:7071/` |
| DeviceService.DetermineStatus | src/services/deviceService.js:210-219 | offline iff more than 5 minutes old whatever else holds; error iff fresh with a non-zero code; warning iff fresh, code 0 and temperature strictly above 80; online otherwise; never maintenance |
| DeviceService.SuggestedAction | src/services/deviceService.js:195-205 | the five listed error types get their fixed text; the default text is given exactly for every other type; never empty |
| DeviceService.SuggestedActionAsWritten | src/services/deviceService.js:204 | as written, the lookup agrees with `SuggestedAction` off the prototype member names and returns an inherited member on them |
| DeviceService.SuggestedActionAsWrittenLeaks | src/services/deviceService.js:204 | the error type `toString` gets an inherited function instead of the default action |
| DeviceService.MapDevices | src/services/deviceService.js:20-31 | one row per document, in order; `id` and `name` are the device id; status is the status rule at `now`; last update and error code are copied |
| DeviceService.MappedDevicesReadBack | src/services/deviceService.js:26-27 | the `°C` and ` units/hr` strings parse back to the rounded averages |
| DeviceService.AlertCode | src/services/deviceService.js:179 | the alert code starts with the error type in capitals, character by character, then a `-` and at least one more character |
| DeviceService.AlertCodeDecodes | src/services/deviceService.js:179 | the text after the `-` of the alert code parses back to the error code |
| DeviceService.MapErrors | src/services/deviceService.js:171-184 | one row per event, ids 1..n in order; device, line, code and type copied; alert code and suggested action derived from the event; off the prototype member names the action is what the lookup as written returns |
| DeviceService.EncodeQuery | src/services/deviceService.js:163 | the query string is empty exactly when no pair was appended |
| DeviceService.ErrorQueryEntries | src/services/deviceService.js:158-161 | no pair is appended exactly when none of device, line and days-back is truthy |
| DeviceService.QueryParams.Append | src/services/deviceService.js:158-161 | appending adds the pair at the end and changes nothing else |
| DeviceService.ErrorsUrl | src/services/deviceService.js:156-163 | the URL is `/errors` plus `?` and the query string when a filter is truthy, and bare `/errors` otherwise; it is longer than the bare path exactly when a filter was given |
| DeviceService.LogsUrl | src/services/deviceService.js:57-64 | `/logs?` and the truthy filters in order; the `?` is there even when none is |
| DeviceService.LogDatesUrl | src/services/deviceService.js:78-84 | `/logs/dates?`, the device when truthy, then the container, `telemetry-qcs` by default |
| DeviceService.LineKpisUrl | src/services/deviceService.js:98-104 | `/kpis?`, the line when truthy, then `daysBack`, 30 by default |
| DeviceService.FleetScenario | api/getDevices/index.js:37-45 | a fresh error-free document at 60 degrees and an older erroring one of the same device reduce to the fresh one, which is online |
| JsObject.Get | src/components/StatusBadge.jsx:34 | a lookup finds an own key first, then an `Object.prototype` member, else nothing |
| Dashboard.ParseIntOrZero | src/pages/Dashboard.jsx:50-55 | the number `parseInt` read when there is one, and 0 for `NaN` |
| Dashboard.Mean | src/pages/Dashboard.jsx:62-63 | the nearest integer (halves up) to the sum of the parsed values divided by the device count |
| Dashboard.FilterCount | src/pages/Dashboard.jsx:59 | the `filter(...).length` of the devices in alert equals the row-by-row count of devices in error or warning |
| Dashboard.CalculateCurrentMetrics | src/pages/Dashboard.jsx:40-66 | all zero for no devices; otherwise the two rounded means, and an alert count equal to the number of devices in error or warning, zero exactly when there are none |
| Dashboard.MeanWithin | src/pages/Dashboard.jsx:49-63 | the rounded mean lies within any integer bounds that every parsed value keeps |
| Dashboard.FleetMetrics | src/pages/Dashboard.jsx:40-66 | over the service's rows, a row is in alert exactly when its document's status is error or warning, and bounded document temperatures give a card temperature within the same bounds |
| Dashboard.AlertsCaption | src/pages/Dashboard.jsx:152 | "All systems normal" exactly when there are no active alerts, and "Attention needed" when there are some |
| Dashboard.AlertsCaptionOfDevices | src/pages/Dashboard.jsx:59-152 | the caption says "All systems normal" exactly when no device is in error or warning |
| Dashboard.DevicesWithAlerts | src/pages/Dashboard.jsx:95-109 | min(5, alerts) rows, each an error or warning device in filter order; "Check device immediately" exactly for error and "Monitor temperature" exactly for warning; `N/A` exactly when the error code is 0 |
| Dashboard.AlertListMatchesCard | src/pages/Dashboard.jsx:59-98 | the alert list has as many rows as the alerts card counts, up to five |
| Dashboard.AlertRowsInDeviceOrder | src/pages/Dashboard.jsx:95-98 | the alert rows come from strictly increasing device positions |
| Dashboard.TrendSeries | src/pages/Dashboard.jsx:69-92 | at most 12 points, empty for empty input, point k from record `n-1-k` of the first twelve, its value the rounded field or 0 |
| Dashboard.ProductionTrend | src/pages/Dashboard.jsx:69-79 | up to twelve points, oldest first, each the rounded line performance rate of its record or 0 when it is missing |
| Dashboard.QualityTrend | src/pages/Dashboard.jsx:82-92 | the same over the line quality percentage |
| Dashboard.TrendChronological | src/pages/Dashboard.jsx:72 | on newest-first history the series runs forward in time and ends at the newest record |
| Dashboard.CalculateChange | src/pages/Dashboard.jsx:117-120 | below two points there is no change; otherwise it compares the last value with the one before |
| Dashboard.CardChange | src/pages/Dashboard.jsx:140 | the card's own length guard gives the same result as `calculateChange` |
| Dashboard.ShortHistoryShowsNoChange | src/pages/Dashboard.jsx:118-146 | with fewer than two KPI records both cards show no change |
| StatusBadge.ConfigFor | src/components/StatusBadge.jsx:33-34 | a known status gets its entry; any other gets the offline entry |
| StatusBadge.Label | src/components/StatusBadge.jsx:5-39 | the label is never empty; a known status's label is the status capitalised; any other status reads "Offline" |
| StatusBadge.DotColour | src/components/StatusBadge.jsx:38 | the dot is green, yellow or red exactly for online, warning or error, and gray exactly otherwise |
| StatusBadge.DotMatchesBadge | src/components/StatusBadge.jsx:5-38 | the dot is the badge colour in the 600 shade exactly when the status is not maintenance |
| StatusBadge.ConfigAsWritten | src/components/StatusBadge.jsx:34 | as written, the lookup agrees with `ConfigFor` off the prototype member names and yields a non-entry on them |
| StatusBadge.LabelAsWritten | src/components/StatusBadge.jsx:34-39 | as written, the label agrees with `Label` off the prototype member names and is missing on them |
| StatusBadge.BadgeAsWrittenLosesFallback | src/components/StatusBadge.jsx:34-39 | the status `constructor` renders no label where the fallback promises "Offline" |
| SecondaryNavbar.SelectNavItems | src/components/SecondaryNavbar.jsx:37-49 | a bar is shown exactly for the four prefixes; each prefix selects its own list, and it is non-empty |
| SecondaryNavbar.PrefixesExclusive | src/components/SecondaryNavbar.jsx:39-46 | no path starts with two of the prefixes, so the first match is the only match |
| SecondaryNavbar.Buttons | src/components/SecondaryNavbar.jsx:64-72 | one button per item, in order, highlighted exactly when its id is the active tab |
| SecondaryNavbar.AtMostOneHighlighted | src/components/SecondaryNavbar.jsx:69 | with distinct ids no two buttons are highlighted, and one is exactly when the active tab names an item |
| SecondaryNavbar.NavListsDistinct | src/components/SecondaryNavbar.jsx:13-35 | every list the bar can show has distinct ids |
| SecondaryNavbar.NavBar | src/components/SecondaryNavbar.jsx:56-72 | nothing is rendered exactly for an empty list |
| SecondaryNavbar.TabHost.Render | src/components/SecondaryNavbar.jsx:38-72 | other paths render nothing and keep the tab; bar paths set an unset tab to the first item and highlight against the tab as it was |
| SecondaryNavbar.TabHost.Click | src/components/SecondaryNavbar.jsx:67 | a click makes the item the active tab |
| SecondaryNavbar.RenderTwice | src/components/SecondaryNavbar.jsx:52-54 | starting with no tab, the second render highlights the first item |
| KpiDetail.Scaled | src/pages/KPIDetail.jsx:8-10 | `floor(draw * span) + base` lies in `[base, base + span)` |
| KpiDetail.Oee | src/pages/KPIDetail.jsx:15 | the OEE is the nearest integer (halves up) to the product of the three percentages divided by 10000 |
| KpiDetail.ParseRate | src/pages/KPIDetail.jsx:12 | the rate text with its first ` units/hr` removed, read by `parseInt`; the empty text is `NaN`; the read-back of printed rates is `KpiDetail.ProductionRateReadsBack` |
| KpiDetail.Perform | src/pages/KPIDetail.jsx:6-17 | a row keeps the name; availability is in 70..99, quality in 80..99 and performance in 70..94; it carries their OEE and the parsed rate |
| KpiDetail.DevicePerformances | src/pages/KPIDetail.jsx:6-17 | one row per device, in order |
| KpiDetail.OeeAtMostComponents | src/pages/KPIDetail.jsx:15 | with components in 0..100, the OEE is non-negative and no larger than any component |
| KpiDetail.OeeMatchesSampleKpis | src/data/sampleData.js:131-144 | the formula gives the sample OEE figures, overall and for each month |
| KpiDetail.ProductionRateReadsBack | src/pages/KPIDetail.jsx:12 | `N units/hr` parses back to `N` |
| KpiDetail.MetricValue | src/pages/KPIDetail.jsx:28-59 | each named metric selects its field, production may be NaN, and any other name selects OEE |
| KpiDetail.MetricData | src/pages/KPIDetail.jsx:27-60 | one point per device, in order, named after it, with the selected value |
| KpiDetail.UnknownMetricIsOee | src/pages/KPIDetail.jsx:54-58 | an unknown metric gives the same chart as `oee` |
| KpiDetail.TopPerformer | src/pages/KPIDetail.jsx:88 | `Math.max` over the values: absent exactly for none, otherwise one of them and at least every one |
| KpiDetail.TopPerformers | src/pages/KPIDetail.jsx:85-106 | for each of the four metrics the best value is absent exactly for an empty fleet, otherwise one device's value and at least every device's value |
| KpiDetail.TopPerformersWithinRanges | src/pages/KPIDetail.jsx:85-106 | over a non-empty fleet every best value exists and lies in its metric's range; the best OEE is at most the best availability |
| Auth.AuthProvider.constructor | src/context/AuthContext.jsx:12-15 | the flag is true exactly when storage holds "true"; no user yet |
| Auth.AuthProvider.SyncUser | src/context/AuthContext.jsx:18-32 | the user is the admin profile exactly when authenticated; nothing else changes |
| Auth.AuthProvider.CheckAuth | src/context/AuthContext.jsx:36-39 | the flag is re-read from storage |
| Auth.AuthProvider.Login | src/context/AuthContext.jsx:53-61 | true exactly for admin/admin; success stores "true" and sets the flag; failure changes nothing |
| Auth.AuthProvider.Logout | src/context/AuthContext.jsx:64-70 | the key is removed and the flag and user cleared, keeping both agreements |
| Auth.Session | src/context/AuthContext.jsx:11-70 | over a session, a user is shown exactly when the login succeeded or storage already said so; after logout nobody is signed in and the key is gone |

## Left out

- The HTTP layer is not modelled: `fetch`, `response.ok` and the thrown errors of the client calls. The client calls that only fetch (`getDeviceDetail`, `updateDeviceTwin`, `getDeviceStatusHistory`) are not modelled, because they contain no logic beyond the request.
- The Cosmos client and SQL are not modelled. The store is an input sequence, and `fetchAll`'s answer is any sequence meeting `Telemetry.IsQueryAnswer`.
- `Date.now()`, `new Date(...)` and ISO strings are not modelled. Times are integer milliseconds; the WHERE clause's comparison of ISO strings is taken as a comparison of times.
- Floating point is not modelled. Averages and percentages are exact reals, and `NaN` and `Infinity` of real-valued fields do not occur.
- DeviceService.DetermineStatus does not model the rounding of `/ 1000 / 60` in floating point.
- Telemetry fields are assumed to have their documented JSON types. JSON parsing and missing fields are not modelled.
- Dashboard.CalculateChange returns only the two values compared. The percentage, `toFixed(1)` and its division by a zero previous value are not modelled.
- Dashboard.TrendSeries keeps `WindowEnd` in place of the `month/day` label, because date formatting is not modelled.
- The averages of the KPI detail page (src/pages/KPIDetail.jsx:79-82) are floating-point divisions and are not modelled.
- The pie and trend chart data of the KPI detail page are copies of sample data and are not modelled.
- `Math.random` is not modelled. Its three draws per device are inputs `Draws`, each in `[0, 1)`.
- DeviceService.MapErrors fills `suggestedAction` with the corrected `DeviceService.SuggestedAction`. For an error type that names an `Object.prototype` member (`toString`, …) the source's row holds the inherited function instead (see Findings); `DeviceService.SuggestedActionAsWritten` models that value.
- URLSearchParams percent-encoding is not modelled. DeviceService.EncodeQuery joins the raw names and values.
- A `null` passed explicitly for a defaulted parameter is not modelled.
- FleetQuery.LatestPerDevice keeps insertion order. `Object.values` would list integer-like device ids first, in numeric order.
- A device id that names an `Object.prototype` member (`constructor`, `toString`, …) in `latestByDevice` is not modelled.
- Text.Upper and Text.UpperChar upper-case ASCII letters only. Unicode case mapping is not modelled.
- Text.ParseInt yields exact integers. The loss of precision of very long digit strings is not modelled.
- Concurrency is not modelled: `Promise.all`, `useEffect` scheduling and the `storage` event listener. The effects are methods the caller runs in order.
- The listener's removal on unmount is not modelled.
- React state, rendering and loading flags are not modelled. Only the derived data and the parent's `activeTab` are kept.
- The markup-only files are not modelled: App routing, DeviceDetail, Errors, Logs, LiveData, KPI, Configuration, UserProfile, Navbar, ImprovedNavbar, Modal, Form, DataTable, Alert and DashboardCard.
- Only the sample KPI figures of src/data/sampleData.js are used, in KpiDetail.OeeMatchesSampleKpis.

## Findings

| source | as written | input that shows it | evidently intended | confidence | as-written member | corrected member |
|---|---|---|---|---|---|---|
| src/components/StatusBadge.jsx:34 | `statusConfig[status] \|\| statusConfig.offline` also finds members inherited from `Object.prototype`; they are truthy, so the fallback is skipped and `config.label` is undefined | status `"constructor"` (or `"toString"`) | any status the table does not list renders the offline badge, as the comment above the line says | low impact, since statuses come from the status rule; not executed | StatusBadge.LabelAsWritten, StatusBadge.BadgeAsWrittenLosesFallback | StatusBadge.Label |
| src/services/deviceService.js:204 | `actionMap[errorType] \|\| 'Check device status'` also finds inherited members, so such an error type gets a function instead of text | error type `"toString"` | every unlisted error type gets "Check device status" | low impact, since error types come from the device feed; not executed | DeviceService.SuggestedActionAsWritten, DeviceService.SuggestedActionAsWrittenLeaks | DeviceService.SuggestedAction |
