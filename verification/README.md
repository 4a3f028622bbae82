# drainageGutter in Dafny

drainageGutter is a citizen-reporting service for clogged storm drains (빗물받이) in Gwangju. Residents photograph a drain and file a report with its GPS position, how blocked it is, the cause and a phone number. A map shows the reports and a heat map of past flood damage. A batch job geocodes the municipal flood-damage table and loads it into the database. A home-screen card shows the weather and warns on rainy days.

This project models the decision and transformation rules of that system as pure Dafny functions over immutable datatypes, and proves properties of them:

- **Backend**
  - the flood-damage and report schemas (`FloodDamageModel`, `ReportModel`);
  - the viewport grid aggregation and the sorted listing of flood damages (`FloodDamageRoutes`);
  - the reports API: upload naming, the size limit, listing, lookup and creation (`ReportRoutes`);
  - the flood-damage import job (`FloodImport`);
  - the reverse-geocoding proxy (`GeocodeRoute`).
- **Client**
  - the shared report draft (`ReportDraft`);
  - the form hook: phone sanitising, handlers and submit checks (`ReportFormHook`);
  - the form screen: location effects, the Nominatim address line, phone-box focus and option lists (`ReportFormScreen`);
  - the Naver address formatter (`NaverAddress`);
  - the weather card (`Weather`);
  - the map screen's filters, layer switches, centre and download guard (`MapView`);
  - the level colour table (`MapColours`);
  - the application frame (`AppShell`).
- **Shared helpers**
  - `Wrappers`: `Option`, `Result`, `Response` and JavaScript string truthiness;
  - `JsText`: digit filtering, `trim`, `parseInt` and decimal rendering;
  - `Ordering`: a stable descending sort used for `sort({ createdAt: -1 })`.

The model makes these simplifications:

- The database is a `seq` of records. A failing database is a `Result` parameter.
- Clocks (`Date.now()`, save times) are parameters.
- `parseFloat` is an uninterpreted `string -> real`.
- Coordinates are exact `real`s.
- External services (Naver, Nominatim, Open-Meteo, the browser's geolocation, image compression) are parameters that stand for their answers.

## Model

| member | source | states |
|---|---|---|
| JsText.DigitsOnly | frontend/src/hooks/useReportForm.ts:66 | the result holds exactly the ASCII digits that occur in the input, is no longer than it, and leaves all-digit text unchanged |
| JsText.DigitsOnlyAppend | frontend/src/hooks/useReportForm.ts:66 | the digits of a concatenation are the digits of each part, in order, so order and repeated digits are kept |
| JsText.DigitsOnlyOne | frontend/src/hooks/useReportForm.ts:66 | a single character is kept exactly when it is an ASCII digit |
| JsText.Utf16Length | frontend/src/components/ReportForm.tsx:149-153 | `length` of a string counts UTF-16 code units: between one and two per character, exactly one per character when all are below U+10000 |
| JsText.Utf16LengthAppend | frontend/src/components/ReportForm.tsx:149-153 | the code-unit length of a concatenation is the sum of the parts' lengths |
| JsText.Utf16LengthOne | frontend/src/components/ReportForm.tsx:149-153 | one character is one code unit below U+10000 and a surrogate pair (two) above |
| JsText.Trim | frontend/src/components/ReportForm.tsx:123 | the result is a slice of the input with only white space before and after it, has no white space at either end, and is empty exactly when the input is all white space |
| JsText.ParseInt | backend/routes/floodDamages.js:19 | `parseInt(s, 10)` yields a number exactly when a digit run follows the leading white space and an optional sign |
| JsText.ParseIntReads | backend/routes/floodDamages.js:19 | after leading white space and an optional '+' or '-', `parseInt` reads the value of the digit run, negated under '-', ignoring whatever follows the run |
| JsText.ParseIntOfNatToString | backend/routes/reports.js:84 | reading back the decimal rendering of any non-negative integer gives that integer |
| Ordering.SortDesc | backend/routes/floodDamages.js:8 | the result is a permutation of the input (same multiset, same length) ordered by the key, largest first |
| FloodDamageModel.PreSave | backend/models/FloodDamage.js:43-48 | a new document is stamped with the save time; an existing one is returned unchanged; no other field changes |
| FloodDamageModel.SaveNew | backend/models/FloodDamage.js:10-34 | a save succeeds exactly when address and damage date are non-empty and the sequence number is not taken; it appends the stamped document and keeps sequence numbers unique |
| FloodDamageModel.SavedStampIsSaveTime | backend/models/FloodDamage.js:36-48 | whatever creation time a new document was built with, the stored one carries the save time |
| FloodDamageModel.ResaveKeepsStamp | backend/models/FloodDamage.js:43-48 | saving an existing document again never moves its creation time |
| FloodDamageRoutes.GetAll | backend/routes/floodDamages.js:6-13 | a failing query answers 500 with its message; otherwise 200 with every record, newest first |
| FloodDamageRoutes.NormaliseZoom | backend/routes/floodDamages.js:19 | a missing, unparsable or zero zoom becomes 10; any other integer, negative ones included, is kept |
| FloodDamageRoutes.GridSize | backend/routes/floodDamages.js:30 | on exact reals, the cell size is positive for every zoom |
| FloodDamageRoutes.GridSizeHalves | backend/routes/floodDamages.js:30 | one zoom level more halves the cell size |
| FloodDamageRoutes.GridSizeDecreasing | backend/routes/floodDamages.js:30 | the cell size strictly decreases as the zoom grows |
| FloodDamageRoutes.Match | backend/routes/floodDamages.js:35-38 | a record is kept exactly when south ≤ latitude ≤ north and west ≤ longitude ≤ east, both ends inclusive |
| FloodDamageRoutes.MatchOne | backend/routes/floodDamages.js:35-38 | one record passes the stage exactly when it lies in the box |
| FloodDamageRoutes.MatchAppend | backend/routes/floodDamages.js:35-38 | the records passing from a concatenation are those of each part in order, so order and repeated records are kept |
| FloodDamageRoutes.Members | backend/routes/floodDamages.js:44-50 | the reference grouping: a point belongs to a cell exactly when the floors of its coordinates over the cell size are that cell's key |
| FloodDamageRoutes.AddPointDistinct | backend/routes/floodDamages.js:49-50 | adding a point to the running per-cell totals never creates a second entry for the same cell |
| FloodDamageRoutes.AccumulateRepresents | backend/routes/floodDamages.js:49-54 | after any prefix of the points, the running totals hold one entry per occupied cell, with that cell's member count and coordinate sums |
| FloodDamageRoutes.FinishTotal | backend/routes/floodDamages.js:53 | the emitted cluster counts add up to the number of points accumulated |
| FloodDamageRoutes.GroupByCell | backend/routes/floodDamages.js:40-55 | the cluster keys are distinct; every point's cell has a cluster; each count is its member count and each position the members' mean; the counts sum to the number of points |
| FloodDamageRoutes.PointInExactlyOneCluster | backend/routes/floodDamages.js:44-50 | each kept point is a member of exactly one emitted cluster |
| FloodDamageRoutes.MeanBetween | backend/routes/floodDamages.js:51-52 | a mean lies within any bounds that hold for all of its members |
| FloodDamageRoutes.MeanBetweenExtremes | backend/routes/floodDamages.js:51-52 | a cluster's mean lies between its members' smallest and largest coordinate |
| FloodDamageRoutes.MinCoord | backend/routes/floodDamages.js:51-52 | the smallest coordinate of a non-empty group is one of its members' and bounds all of them from below |
| FloodDamageRoutes.MaxCoord | backend/routes/floodDamages.js:51-52 | the largest coordinate of a non-empty group is one of its members' and bounds all of them from above |
| FloodDamageRoutes.GetClusters | backend/routes/floodDamages.js:16-64 | a missing or empty bound answers 200 with an empty list and the database is not consulted; a failing query answers 500; otherwise the grid grouping of the records inside the box |
| FloodDamageRoutes.ClustersInsideBox | backend/routes/floodDamages.js:21-55 | every emitted cluster lies inside the requested box, and the counts add up to the number of records inside it |
| FloodDamageRoutes.TwoNearbyRecordsShareACluster | backend/routes/floodDamages.js:30-53 | at zoom 10 two records 0.0001° apart form one cluster of count 2 at their midpoint |
| ReportModel.Create | backend/models/Report.js:5-16 | a create succeeds exactly when the store is reachable, every required field is present and non-empty, and the id is new; the stored report keeps the id, every given field as given and any given status (else "접수"), passes the stored-document check, and is stamped with the insert time |
| ReportModel.CreatePreservesInvariant | backend/models/Report.js:5 | creates keep report ids unique and every stored report valid |
| ReportRoutes.LastIndexOf | backend/routes/reports.js:16 | the index found holds the character and none follows it; no index means the character does not occur |
| ReportRoutes.StripTrailingSlashes | backend/routes/reports.js:16 | the result is a prefix of the path that does not end in '/', and everything removed is '/' |
| ReportRoutes.Basename | backend/routes/reports.js:16 | the segment is the suffix of the slash-stripped path after its last '/' (the whole of it when there is none) |
| ReportRoutes.Extname | backend/routes/reports.js:16 | the extension is non-empty exactly when a '.' follows the segment's first character and the segment is not ".."; then it is the proper suffix of the segment from a '.' with neither '.' nor '/' after it |
| ReportRoutes.UploadFilename | backend/routes/reports.js:15-19 | the stored name is the upload time followed by the original extension, or ".jpg" without one; it has no '/' and parses back to the upload time |
| ReportRoutes.ParseIntOfStampedName | backend/routes/reports.js:17 | `parseInt` of a time-stamped name followed by any text that starts with '.' reads back exactly the time stamp |
| ReportRoutes.ReceivePhoto | backend/routes/reports.js:15-28 | no file gives no upload; a file over 10·1024·1024 bytes is refused; any other is saved under the time-stamped name |
| ReportRoutes.Summaries | backend/routes/reports.js:34 | the projection keeps one entry per report, in order |
| ReportRoutes.ListReports | backend/routes/reports.js:31-41 | a failing query answers 500 "Error fetching reports"; otherwise 200 with id, position and level of every report, newest first |
| ReportRoutes.FindById | backend/routes/reports.js:46 | a report is found exactly when one with that id is stored, and the one found has that id |
| ReportRoutes.GetReport | backend/routes/reports.js:44-55 | 500 "Error fetching report detail" on a failing query, 404 "Report not found" when no report has the id, otherwise 200 with the matching report |
| ReportRoutes.HandlePost | backend/routes/reports.js:58-126 | no file answers 400 "Photo is required." and stores nothing; every error is a 400 or 500 and stores nothing; 201 exactly when the record is valid and its id new, and then the store grows by exactly that report (status "접수", photo URL under /uploads/originals/, thumbnail equal to the photo URL, form fields copied, coordinates parsed, stamped with the insert time) |
| ReportRoutes.PostReport | backend/routes/reports.js:23-72 | as written: an oversize upload never reaches the handler and gets Express's default 500 page; a missing file gets 400; otherwise the handler runs on the stored name |
| ReportRoutes.PostReportIntended | backend/routes/reports.js:69-72 | corrected: every upload that was not saved, oversize ones included, answers 400 "Photo is required." and stores nothing |
| ReportRoutes.OversizePhotoIsServerError | backend/routes/reports.js:69-72 | a photo one byte over the limit is answered 500 by the code as written and 400 by the corrected route |
| ReportRoutes.FindAppended | backend/routes/reports.js:46 | a report appended under a new id is what a lookup of that id finds |
| ReportRoutes.CreatedReportIsRetrievable | backend/routes/reports.js:46-116 | a report the POST route created is returned unchanged by GET /:reportId, and the store stays valid with unique ids |
| FloodImport.GetNaverGeocode | backend/importFloodData.js:35-49 | a position exactly when the request succeeded and the hit list is non-empty; then the first hit, with x as the longitude and y as the latitude |
| FloodImport.ImportRow | backend/importFloodData.js:67-96 | a row that cannot be geocoded leaves the collection as it was; otherwise at most that row's record is appended; sequence numbers stay unique |
| FloodImport.ImportRows | backend/importFloodData.js:67-99 | the reloaded collection has at most one record per row, unique sequence numbers and only schema-valid records |
| FloodImport.ImportFloodData | backend/importFloodData.js:58-107 | an unreadable table leaves the collection alone; otherwise the collection is replaced by the row-by-row import |
| FloodImport.ImportReplacesContents | backend/importFloodData.js:64 | the result of a run does not depend on what was stored before, and every record comes from a row of the table |
| FloodImport.ImportRowsFromRows | backend/importFloodData.js:77-83 | every imported record carries the sequence number and address of some row |
| FloodImport.ImportKeepsExactlyPlacedRows | backend/importFloodData.js:67-96 | with distinct sequence numbers and filled-in text, the collection is exactly the geocodable rows in table order, each at its own save time, with failed rows skipped |
| GeocodeRoute.Coords | backend/routes/geocode.js:40 | the coordinate parameter is the longitude, a comma, then the latitude |
| GeocodeRoute.CoordsRoundTrip | backend/routes/geocode.js:40 | splitting the parameter at its first comma gives back longitude and latitude whenever the longitude text has no comma |
| GeocodeRoute.ErrorStatus | backend/routes/geocode.js:54 | the upstream status when there is a non-zero one, otherwise 500 |
| GeocodeRoute.Reverse | backend/routes/geocode.js:5-57 | missing credentials answer 500 whatever the query; with credentials a missing coordinate answers 400; otherwise Naver's body is relayed with 200, or, when Naver fails, its non-zero status (else 500) with the fixed message "Failed to fetch data from Naver API." |
| GeocodeRoute.UpstreamStatusIsRelayed | backend/routes/geocode.js:50-55 | once the checks pass, an upstream failure answers with the upstream's non-zero status, or 500 when it has none or zero |
| ReportDraft.SetPhoto | frontend/src/context/ReportContext.tsx:66-75 | only the photo and its preview URL change |
| ReportDraft.SetLocation | frontend/src/context/ReportContext.tsx:77-83 | only latitude and longitude change |
| ReportDraft.SetFormData | frontend/src/context/ReportContext.tsx:85-90 | exactly the keys present in the patch are overwritten; photo and position are untouched |
| ReportDraft.ResetReport | frontend/src/context/ReportContext.tsx:92-108 | from any state the draft becomes blank: nullable fields null and text fields empty |
| ReportFormHook.Sanitise | frontend/src/hooks/useReportForm.ts:66-76 | the box keeps only digits, at most 3 for the first box and 4 for the others, as a prefix of the digits typed |
| ReportFormHook.SanitiseIdempotent | frontend/src/hooks/useReportForm.ts:66-76 | sanitising sanitised text changes nothing |
| ReportFormHook.HandlePhoneNumberChange | frontend/src/hooks/useReportForm.ts:61-79 | the named box gets the sanitised text; the other boxes and every other field stay as they were |
| ReportFormHook.HandleChange | frontend/src/hooks/useReportForm.ts:54-59 | typing changes only the field the input is named after |
| ReportFormHook.HandleCauseClick | frontend/src/hooks/useReportForm.ts:81-83 | only the cause changes |
| ReportFormHook.HandleCloggingLevelClick | frontend/src/hooks/useReportForm.ts:85-87 | only the clogging level changes |
| ReportFormHook.HandlersKeepSanitised | frontend/src/hooks/useReportForm.ts:40-87 | the initial form is sanitised, and every handler keeps each phone box digits-only and within its length |
| ReportFormHook.FullPhoneNumber | frontend/src/hooks/useReportForm.ts:109 | the number is the three boxes, in order, with nothing between them |
| ReportFormHook.Validate | frontend/src/hooks/useReportForm.ts:93-127 | checks run in order: photo, position (zero counts as missing), level, cause, at least 10 phone digits; the first failure gives its message; when all pass the payload carries the draft's photo and position, the form's fields and the joined number |
| ReportFormHook.AcceptedPhoneHasTenOrElevenDigits | frontend/src/hooks/useReportForm.ts:109-113 | a number that passes the check from sanitised boxes has 10 or 11 digits and nothing else |
| ReportFormHook.HandleSubmit | frontend/src/hooks/useReportForm.ts:89-151 | a failed check only sets its message; a successful post resets the draft, keeps the button disabled and heads home; a failed one re-enables it, reports the server's message (else the transport's) and leaves the form's fields, with the joined number, in the draft |
| ReportFormScreen.OnPhoto | frontend/src/components/ReportForm.tsx:35-69 | without a file the screen sends the user to /report/guide and the draft is untouched; with one it stores the compressed photo, or the original when compression failed |
| ReportFormScreen.LocationEffectsAlternate | frontend/src/components/ReportForm.tsx:71-95 | for any draft, exactly one of "ask for GPS" and "look up the address" runs |
| ReportFormScreen.OnLocate | frontend/src/components/ReportForm.tsx:71-90 | with both coordinates truthy nothing happens; otherwise a fix is stored with a success message, and an error or a missing API leaves the draft alone with its message |
| ReportFormScreen.Spaced | frontend/src/components/ReportForm.tsx:115-119 | the space-terminated address is empty exactly when every component is |
| ReportFormScreen.AddressLine | frontend/src/components/ReportForm.tsx:104-131 | a failed fetch and a missing address object each give their fixed message; otherwise the trimmed line, or "주소를 찾을 수 없습니다." when it is empty |
| ReportFormScreen.AddressLineIsJoinedComponents | frontend/src/components/ReportForm.tsx:106-123 | for components without edge white space, the line is the non-empty ones in the order state, city/town/village, county, neighbourhood/suburb, road, house number, with single spaces |
| ReportFormScreen.FocusAfterInput | frontend/src/components/ReportForm.tsx:141-158 | focus moves forward exactly when the first box's `length` is 3 or the second's is 4, counted in UTF-16 code units (a character above U+FFFF counts twice); never from the last box, never back to the first |
| ReportFormScreen.SurrogatePairCountsTwice | frontend/src/components/ReportForm.tsx:149 | an emoji followed by a digit is two characters but three code units, and moves focus on from the first box |
| ReportFormScreen.FocusAfterKey | frontend/src/components/ReportForm.tsx:160-172 | Backspace in an empty box moves focus one box back; the first box keeps it |
| ReportFormScreen.FocusMovesAreInverse | frontend/src/components/ReportForm.tsx:141-172 | a forward move is undone by Backspace in the empty box it moved to |
| ReportFormScreen.ShowsCauseDetail | frontend/src/components/ReportForm.tsx:237 | the free-text cause box shows exactly for the cause "기타" |
| ReportFormScreen.OptionsAreDistinct | frontend/src/components/ReportForm.tsx:174-185 | the form offers 4 distinct levels and 9 distinct causes |
| ReportFormScreen.OfferedLevelsAreColoured | frontend/src/components/ReportForm.tsx:174 | the offered levels are the map's four coloured levels, and none of them is drawn grey |
| NaverAddress.Find | frontend/src/utils/geoUtils.ts:22 | a found item is in the list and has the name; nothing is found exactly when no item has it |
| NaverAddress.FindIsFirst | frontend/src/utils/geoUtils.ts:22 | the item found is the first with the name |
| NaverAddress.RoadStep | frontend/src/utils/geoUtils.ts:22-37 | a road item with land but no region throws; with no road item or no land the text stays the not-found message; otherwise it is the trimmed road line, or the not-found message when that is empty |
| NaverAddress.LotStep | frontend/src/utils/geoUtils.ts:39-57 | with no lot item, or one without region or land, the not-found message; otherwise the trimmed lot line, or the not-found message when that is empty |
| NaverAddress.AddressText | frontend/src/utils/geoUtils.ts:5-67 | a failed request, or a road item that throws, gives the loading-error message; without status code 0 and results, the not-found message; a road address wins; the lot-number address is used only when the road step produced nothing |
| NaverAddress.RoadLineShape | frontend/src/utils/geoUtils.ts:28-36 | for names without edge white space, the road line is "area1 area2 roadName", then " number1" when present |
| NaverAddress.LotLineShape | frontend/src/utils/geoUtils.ts:46-55 | for names without edge white space, the lot line is "area1 area2 area3 number1", then "-number2" when present |
| NaverAddress.RoadAddressText | frontend/src/utils/geoUtils.ts:18-36 | a successful reply whose first road item has clean names gives "area1 area2 roadName[ number1]" as the address, unless that text spells the not-found message |
| NaverAddress.LotAddressText | frontend/src/utils/geoUtils.ts:18-58 | without a usable road item, a successful reply whose first lot item has clean names gives "area1 area2 area3 number1[-number2]" |
| NaverAddress.RoadAddressWins | frontend/src/utils/geoUtils.ts:39-57 | once the road step has produced an address, items after it cannot change the result |
| Weather.Row | frontend/src/components/WeatherDisplay.tsx:42-87 | a code falls outside every row of the table exactly when it is not one of the known WMO codes |
| Weather.Describe | frontend/src/components/WeatherDisplay.tsx:42-88 | code 0 is "맑음", codes 1-3 are "대체로 맑음", and a code is "알 수 없음" exactly when it is not in the table |
| Weather.IconFor | frontend/src/components/WeatherDisplay.tsx:90-135 | a code has an icon exactly when it is in the table; the snow and snow-shower codes share the snow icon |
| Weather.IconFollowsDescription | frontend/src/components/WeatherDisplay.tsx:90-135 | two codes with the same description get the same icon |
| Weather.RainMeansRainyDescription | frontend/src/components/WeatherDisplay.tsx:293-295 | the rain codes are exactly those described as drizzle, rain, showers or thunderstorms; the snow codes are not rain |
| Weather.At | frontend/src/components/WeatherDisplay.tsx:198-200 | indexing past a column's end gives undefined |
| Weather.ZipDaily | frontend/src/components/WeatherDisplay.tsx:194-203 | one row per time stamp, row i pairing the i-th entry of every column |
| Weather.RainingToday | frontend/src/components/WeatherDisplay.tsx:292-295 | the warning shows only when today's code is described as some kind of rain, and always for a rain code |
| Weather.WeeklyView | frontend/src/components/WeatherDisplay.tsx:369 | the weekly strip is days 1 to 6 (`slice(1, 7)`): exactly 6 days when there are at least 7, otherwise all days but today, none from an empty list; day i+1 in slot i, never today |
| Weather.WeeklyViewIsTailPrefix | frontend/src/components/WeatherDisplay.tsx:369 | with at most 7 days the strip is everything after today, and days past the seventh never change it |
| Weather.Filter | frontend/src/components/WeatherDisplay.tsx:218-227 | the kept hours are exactly those that pass the test |
| Weather.FilterOne | frontend/src/components/WeatherDisplay.tsx:218-227 | one hour is kept exactly when it passes the test |
| Weather.FilterAppend | frontend/src/components/WeatherDisplay.tsx:218-227 | the hours kept from a concatenation are those of each part in order, so order and repeated hours are kept |
| Weather.HourlyView | frontend/src/components/WeatherDisplay.tsx:216-228 | at most 24 hours, all passing the test, as a prefix of the filtered list; the whole filtered list when at most 24 pass, exactly 24 when more do |
| Weather.HourlyViewIgnoresLaterHours | frontend/src/components/WeatherDisplay.tsx:216-228 | once 24 hours pass the test, hours appended later do not change the view |
| Weather.PlaceName | frontend/src/components/WeatherDisplay.tsx:250-267 | the first non-empty of city, town, village, county, state and country; else the display name; else "알 수 없는 위치", which is also the answer without an address object |
| Weather.ForecastPoint | frontend/src/components/WeatherDisplay.tsx:139-167 | the user's position when there is one; otherwise Seoul with the matching notice |
| MapColours.LevelColour | frontend/src/utils/mapUtils.ts:3-16 | 양호, 주의, 막힘 and 폐색 are green, yellow, orange and red; any other text is grey, and grey only for other text |
| MapColours.ColourNamesLevel | frontend/src/utils/mapUtils.ts:5-12 | two levels share a colour only when they are the same level |
| MapColours.MarkerFor | frontend/src/utils/mapUtils.ts:19-30 | the marker is drawn in the level's colour |
| MapColours.MarkersDistinguishLevels | frontend/src/utils/mapUtils.ts:19-24 | markers of different levels differ, and all unknown levels look alike |
| MapView.HandleFilterChange | frontend/src/components/MapView.tsx:63-69 | only the named filter key is set, to the checkbox's state |
| MapView.FilteredReports | frontend/src/components/MapView.tsx:183-185 | a report is kept exactly when its level's filter is truthy |
| MapView.FilteredReportsAppend | frontend/src/components/MapView.tsx:183-185 | filtering distributes over concatenation, so kept reports keep their original order |
| MapView.HeatmapData | frontend/src/components/MapView.tsx:187-190 | the points are exactly the positions of the shown reports of that level, each with weight 1; none for a level that is filtered out |
| MapView.HeatmapDataOne | frontend/src/components/MapView.tsx:187-190 | one report gives its unit-weight point when it is shown and of the level, and nothing otherwise |
| MapView.HeatmapDataAppend | frontend/src/components/MapView.tsx:187-190 | the points of a concatenation are those of each part in order, so two reports at one spot give two points |
| MapView.ToggleLayer | frontend/src/components/MapView.tsx:71-87 | as written: "points" flips only the points; each heat-map switch flips itself and clears the other only when it was on before the click; other names change nothing |
| MapView.BothHeatmapsCanShow | frontend/src/components/MapView.tsx:76-83 | from the initial switches, turning on the report heat map and then the flood heat map leaves both on |
| MapView.ToggleLayerExclusive | frontend/src/components/MapView.tsx:71-87 | corrected: switching a heat map on switches the other off, and at most one heat map stays on |
| MapView.ExclusiveTogglesKeepOneHeatmap | frontend/src/components/MapView.tsx:71-87 | any sequence of corrected clicks from the initial switches keeps at most one heat map on |
| MapView.MapCenter | frontend/src/components/MapView.tsx:176-181 | the user's position, else the first report, else (35.1595, 126.8526) |
| MapView.ClickDownload | frontend/src/components/MapView.tsx:98-100 | a click starts an export exactly when none is running, and the guard is then held |
| MapView.DownloadSettled | frontend/src/components/MapView.tsx:133-135 | the guard is released whatever the outcome |
| MapView.DoubleClickStartsOnce | frontend/src/components/MapView.tsx:98-139 | of two clicks in a row before the export settles, at most one starts an export; once it settles the next click starts one |
| AppShell.TitleFromMatches | frontend/src/App.tsx:33-36 | the first match's title when it has one; with no titled match, "빗물받이 신고 시스템" |
| AppShell.FirstTitledMatchWins | frontend/src/App.tsx:33-35 | matches without a handle or title are skipped, and the first titled match decides, whatever follows |
| AppShell.Layout | frontend/src/App.tsx:44-62 | wider than 768 pixels: the desktop class and top navigation only; otherwise the titled header and the bottom bar; a loading route adds the spinner and a half-transparent page |

## Left out

- Floating point is not modelled. Coordinates are exact reals, so IEEE-754 rounding of `parseFloat`, `Math.pow` and division, and its effect on which cell a point on a boundary falls in, are not covered. `NaN` inputs are out of scope.
- FloodDamageRoutes.GridSize: the float overflow of `Math.pow(2, zoom)` is not modelled. The zoom comes unbounded from the query string. For a zoom of 1024 or more the power is `Infinity`, the cell size is 0 and the `$divide` stage fails, so the route answers 500 where `GetClusters` answers 200. For a very negative zoom the cell size is `Infinity`.
- A coordinate field missing from the POST body is modelled as a value the required-number check rejects, and the route answers 500.
- MongoDB is replaced by a sequence of documents.
  - The aggregation engine emits clusters in no particular order; the model emits them in the order their cells first appear.
  - Ties in `sort({ createdAt: -1 })` keep their input order, where Mongo leaves them unspecified.
  - Unique indexes are checked on insert only.
- HTTP wiring is left out: the Express app, query strings given as arrays, headers, JSON encoding and request logging. Express's default error page is stood for by the text "Internal Server Error".
- The outer `catch` of the POST route (backend/routes/reports.js:117-125) is not modelled; no step the model covers before the inner `try` can throw.
- Time zones are left out. `moment-timezone`, `Date.now()` and the import's save times are integer parameters. The hourly forecast's date test is a parameter `keep`; only its 24-entry cap is modelled.
- For the import job:
  - a failing `deleteMany` is not modelled; it is caught by the outer handler and would stop the run;
  - the 100 ms pacing delay, logging and the disconnect are left out;
  - a missing table is `None`.
- External requests are left out: Naver, Nominatim, Open-Meteo, axios, `fetch` and the browser's geolocation. They become parameters or datatypes for their answers, and their URLs, headers and query encodings are not modelled.
- React is left out: rendering, effects scheduling and state batching. Also left out are `URL.createObjectURL`/`revokeObjectURL`, image compression (its result is an `Option` parameter), the 2-second navigation timer, the browser's `maxLength` input attribute, refs (assumed mounted) and the spreadsheet export contents.
- ReportFormHook.HandleChange: only the two inputs the form routes through it (`causeDetail`, `description`) are modelled, not arbitrary `name` attributes.
- ReportDraft.SetFormData: a patch key present with the value `undefined` is modelled as absent, not as overwriting with `undefined`.
- ReportFormHook.HandleSubmit: the transient "신고를 접수하는 중입니다..." message shown while the post is in flight is not part of the settled state.
- ReportFormScreen.AddressLine: the GPS message the address effect also sets, and the loading flag, are not modelled.
- Weather: these UI states are not modelled:
  - the error text for a missing daily or hourly block or a failed fetch;
  - the loading and error render branches;
  - date formatting with `toLocaleDateString`;
  - the randomised raindrops.
- Other screens and layout components are not part of this model: IntroScreen, Home, About, PCBlocker, Header, TopNav, BottomNav, LazyImage, ReportPopup, the report guide and photo screens, the router and `useMapData`.

## Findings

| source | as written | input that shows it | evidently intended | confidence | as-written member | corrected member |
|---|---|---|---|---|---|---|
| backend/routes/reports.js:69-72 | multer rejects an oversize upload by passing an error to `next`. backend/server.js installs no error handler, so Express's default handler answers 500 and the route's own check never runs. | a photo of 10·1024·1024 + 1 bytes | the oversize upload is handled by the route's check (the comment at line 69 says so) and answered 400 "Photo is required." | medium, not executed | ReportRoutes.PostReport, ReportRoutes.OversizePhotoIsServerError | ReportRoutes.PostReportIntended, ReportRoutes.CreatedReportIsRetrievable |
| frontend/src/components/MapView.tsx:76-83 | the test that clears the other heat map reads this switch's value from before the click, so it fires when the switch is turned off, not on | from the initial switches, click "reportHeatmap" then "floodHeatmap": both heat maps are on | turning one heat map on turns the other off, so at most one is on | medium, not executed | MapView.ToggleLayer, MapView.BothHeatmapsCanShow | MapView.ToggleLayerExclusive, MapView.ExclusiveTogglesKeepOneHeatmap |
