# Smart Community Health Map: region state model

A Dafny model of the state behind the health-map dashboard (`HealthMapApp`
in `script.js`). The dashboard keeps a collection of regions. Each region has
an id, a name, a status (secure, moderate or danger), health data (clinics,
hospitals, population, a list of issues, the date of the last update), a
count of recent reports and some map geometry. Citizens submit reports, and
enough reports move a region to moderate or danger. An administrator who
logged in with the password can set any region's status directly. The
summary cards, the detail panel, the admin labels and the tooltip are all
computed from the collection.

Files and modules:

- `text.dfy` (`Text`): JavaScript's `trim` (with ECMAScript's whitespace set) and `join`.
- `region_model.dfy` (`RegionModel`): the `Status`, `HealthData` and `Region` datatypes, status names, and the five seed districts.
- `transitions.dfy` (`Transitions`): the `map`-over-regions update, one report and one override applied to a region, and what they do to the collection.
- `views.dfy` (`Views`): the status counters and population total, people per facility, the status messages and labels, and the tooltip's issue line.
- `app.dfy` (`HealthMap`): the `HealthMapApp` class with its `regions` and `isAdminMode` fields and its methods, plus a `Storage` object for the browser's local storage. Its loops are proved against the functions of `Transitions`.
- `scenarios.dfy` (`Scenarios`): worked cases on the seed, such as the first-run statistics, the seed ratios, and a report that moves Northside to moderate. It also holds small client methods that report, override, log in and reload.

Three points of the code that are easy to misread, kept as written, and one that is not:

- Reports are not a one-way ratchet. The threshold rule runs after every report: 6 to 10 reports give moderate, even when the region was danger. More than 10 give danger, even when an administrator had set secure (script.js:555-559). `ReportIsNotARatchet` exhibits both.
- Loading has no fallback for malformed data. A saved value replaces the seed wholesale, and `JSON.parse` would throw on bad input (script.js:99-104).
- A report or an override for an unknown id is not an error. The collection is left unchanged, and it is still saved (script.js:547-566).
- The report is not copy-on-write. The shallow copy at script.js:549 shares `healthData` with the old record. The model does not keep this: it updates the stored record as a value (see Left out).

## Model

| member | source | states |
|---|---|---|
| `RegionModel.ParseStatus` | script.js:697-704 | reading a stored status string, as the three named cases of this switch (and of those at script.js:317-320, 334-344) do; the source has no such function. Only the three stored names "secure", "moderate", "danger" read back as a status, each as the status of that name |
| `RegionModel.ParseStatusName` | script.js:697-704 | every status reads back from its stored name, so distinct statuses have distinct names |
| `RegionModel.StatusName` | script.js:10-70 | the string stored for each status, "secure", "moderate" or "danger"; `ParseStatusName` states that it reads back, so distinct statuses have distinct names |
| `RegionModel.Seed` | script.js:6-82 | the built-in collection has five regions with distinct ids, each with at least one facility |
| `RegionModel.SeedIds` | script.js:6-82 | the seed's ids in order: downtown, northside, eastward, westside, southend |
| `Text.TrimStart` | script.js:540-541 | the result is the suffix of the input after its leading whitespace, and it does not start with whitespace |
| `Text.TrimEnd` | script.js:540-541 | the result is the prefix of the input before its trailing whitespace, and it does not end with whitespace |
| `Text.Trim` | script.js:540-541 | the trimmed description neither starts nor ends with whitespace |
| `Text.TrimIsSlice` | script.js:540-541 | the trimmed description is a slice of the input with only whitespace cut away on each side |
| `Text.TrimEmptyIff` | script.js:540 | a description trims to empty exactly when it is all whitespace |
| `Text.Join` | script.js:219 | the elements in order with the separator between neighbours; `IssuesSummary` states its results for the tooltip's one and two shown issues |
| `Transitions.MapWhereId` | script.js:547-564 | the mapped collection has as many regions as the original |
| `Transitions.MapWhereIdAt` | script.js:547-564 | at each position, the mapped collection holds the updated region when the id matches and the original region otherwise |
| `Transitions.MapWhereIdAbsent` | script.js:707-718 | an id that matches no region leaves the collection equal to the original |
| `Transitions.MapWhereIdUnique` | script.js:707-718 | with unique ids, the map replaces exactly the one matching element |
| `Transitions.FormatIssue` | script.js:551 | the issue text is the report type, ": ", then the description; `NorthsideReport` states one instance |
| `Transitions.StatusAfterReport` | script.js:555-559 | the threshold rule on the new count; `ReportAllTarget` states its three branches (danger above 10, moderate for 6 to 10, unchanged otherwise) and `ReportIsNotARatchet` that it can lower a status |
| `Transitions.AddReport` | script.js:549-559 | one report on one region; `ReportAllTarget` states every field of the result: one more report, the issue appended, today's date, the threshold rule, all else unchanged |
| `Transitions.WithStatus` | script.js:709-716 | one override on one region; `SetStatusAllTarget` states every field of the result: the new status and today's date, all else unchanged |
| `Transitions.ReportAll` | script.js:547-564 | the collection after a report; its contract is given by `ReportAllFrame`, `ReportAllTarget` and `ReportAllAbsent` |
| `Transitions.SetStatusAll` | script.js:707-718 | the collection after an override; its contract is given by `SetStatusAllFrame`, `SetStatusAllTarget`, `SetStatusAllAbsent` and `SetStatusCounts` |
| `Transitions.ReportAllFrame` | script.js:547-564 | a report keeps the number, order and ids of the regions, and every region with another id is unchanged |
| `Transitions.ReportAllTarget` | script.js:549-559 | the reported region has one more report, the issue appended at the end, today's date, and the same name, facilities, population and geometry; its status is danger above 10 reports, moderate for 6 to 10, and unchanged otherwise |
| `Transitions.ReportAllAbsent` | script.js:547-564 | a report for an id that matches no region leaves the collection unchanged |
| `Transitions.SetStatusAllFrame` | script.js:707-718 | an override keeps the number, order and ids of the regions, and every region with another id is unchanged |
| `Transitions.SetStatusAllTarget` | script.js:709-716 | the overridden region has the new status and today's date; its name, facilities, population, issues, report count and geometry are unchanged |
| `Transitions.SetStatusAllAbsent` | script.js:707-718 | an override for an id that matches no region leaves the collection unchanged |
| `Transitions.ReportIsNotARatchet` | script.js:555-559 | some region's status is lowered by a report (danger to moderate), and a secure region can be raised straight to danger |
| `Views.CountStatus` | script.js:496-498 | a status counter never exceeds the number of regions |
| `Views.TotalPopulation` | script.js:499 | the sum of the populations, added from the first region to the last; `TotalPopulationAppend` and `TotalPopulationPointwise` state its additivity, and `ReportKeepsTotalPopulation` and `SetStatusKeepsTotalPopulation` that reports and overrides keep it |
| `Views.StatusCountsSum` | script.js:496-498 | the secure, moderate and danger counters add up to the number of regions |
| `Views.ComputeStats` | script.js:495-499 | the secure, moderate and danger counters count the regions of that status, they add up to the number of regions, the population figure is the sum of the populations, and an empty collection gives all zeros |
| `Views.TotalPopulationAppend` | script.js:499 | the population total of two collections joined is the sum of their totals |
| `Views.TotalPopulationPointwise` | script.js:499 | collections whose populations agree position by position have equal totals |
| `Views.ReportKeepsTotalPopulation` | script.js:546-564 | a report does not change the total population |
| `Views.SetStatusKeepsTotalPopulation` | script.js:706-718 | an override does not change the total population |
| `Views.CountStatusUpdate` | script.js:496-498 | replacing one region moves one unit from the counter of its old status to the counter of its new one |
| `Views.SetStatusCounts` | script.js:706-718 | with unique ids, an override moves exactly one region from its old status counter to the new status counter, and none when the status is the same |
| `Views.HealthcareRatio` | script.js:327-330 | there is a ratio exactly when there is a facility; `facilities * r` is within half a facility count of the population, so `r` is within 1/2 of population / facilities, with halves rounded up |
| `Views.RatioIsRoundedQuotient` | script.js:329 | on real numbers, `r - 1/2 <= population / facilities < r + 1/2`, which is `Math.round`'s definition |
| `Views.RatioUnique` | script.js:327-330 | the rounded ratio is the only whole number that satisfies those bounds |
| `Views.RatioExact` | script.js:327-330 | when the facilities divide the population, the ratio is the exact quotient |
| `Views.PeoplePerFacility` | script.js:327-330 | a region's ratio with clinics plus hospitals as the facilities; its contract is `HealthcareRatio`'s, and `SeedRatios` states two seed values |
| `Views.GetStatusMessage` | script.js:332-355 | the fallback "Status unknown" message appears exactly for a string that is not one of the three statuses |
| `Views.StatusMessagesDistinct` | script.js:332-355 | distinct statuses get distinct detail-panel messages |
| `Views.GetStatusLabel` | script.js:697-704 | the label "Unknown" appears exactly for a string that is not one of the three statuses |
| `Views.StatusLabelsDistinct` | script.js:697-704 | distinct statuses get distinct labels |
| `Views.IssuesSummary` | script.js:217-220 | no issues give an empty line and one issue gives that issue; otherwise the line is the first two issues joined by ", ", plus "..." when there are more than two |
| `HealthMap.Storage.constructor` | script.js:99-108 | the local-storage entry "healthMapRegions" starts as the value it is given (a saved collection or nothing); `LoadFromLocalStorage` reads it and `SaveToLocalStorage` writes it |
| `HealthMap.HealthMapApp.constructor` | script.js:5-103 | the application starts from the seed, a saved collection replaces it wholesale, and admin mode is off |
| `HealthMap.HealthMapApp.LoadFromLocalStorage` | script.js:99-104 | a saved collection replaces the current one; with nothing saved the collection is unchanged |
| `HealthMap.HealthMapApp.SaveToLocalStorage` | script.js:106-108 | the saved value becomes the current collection |
| `HealthMap.HealthMapApp.SubmitReport` | script.js:546-566 | the new collection is the report applied to every region with the id, the ids are unchanged, and the result is saved |
| `HealthMap.HealthMapApp.HandleReportSubmit` | script.js:533-544 | a report is applied exactly when the region id, the type and the trimmed description are all non-empty; it uses the trimmed description; otherwise the collection and storage are unchanged |
| `HealthMap.HealthMapApp.UpdateRegionStatus` | script.js:706-720 | the new collection is the override applied to every region with the id, the ids are unchanged, and the result is saved |
| `HealthMap.HealthMapApp.HandleAdminLogin` | script.js:587-602 | the login is accepted exactly for "admin123"; admin mode becomes on when accepted and is unchanged otherwise |
| `HealthMap.HealthMapApp.Logout` | script.js:732-736 | admin mode is off |
| `Scenarios.SeedStats` | script.js:6-82 | on first run: 2 secure, 2 moderate, 1 danger, 168000 people |
| `Scenarios.SeedRatios` | script.js:327-330 | Eastward (28000 people, 2 facilities) has 14000 people per facility, and Downtown (45000 people, 10 facilities) has 4500 |
| `Scenarios.NorthsideReport` | script.js:546-564 | Northside with 5 reports, after a "Water Quality: Brown tap water" report: 6 reports, moderate, issue appended, today's date |
| `Scenarios.DowntownOverride` | script.js:706-718 | overriding Downtown to danger sets the status and date and leaves its 2 reports |
| `Scenarios.TrimExamples` | script.js:540-541 | " \t" trims to empty; " Brown tap water" trims to "Brown tap water" |

## Left out

- Rendering is not modelled: the SVG map, tooltip markup and positioning, the detail panel, admin-control markup, icons, modals, the character count and event wiring (script.js:110-197, 199-215, 222-284, 293-312, 359-492, 507-531, 577-686). `updateStats` is modelled as the pure `ComputeStats`, not as its writes to the page.
- The refresh of the selected region after a change is not modelled (script.js:571-574, 726-729). It is part of the detail panel.
- Aliasing is not modelled. `{ ...region }` at script.js:549 is a shallow copy, so `push` and the `lastUpdate` write also change the record that `selectedRegion` may still hold. `AddReport` is a value update of the stored record.
- Persistence is modelled as a `Storage` object that holds an already-parsed collection or nothing. JSON encoding, and the exception `JSON.parse` throws on malformed data, are not modelled. Nor is the falsy empty string at script.js:101, which `JSON.stringify` never produces.
- The date is a parameter `today`. The source reads it from the clock with `new Date().toISOString()` (script.js:552, 714).
- `HealthcareRatio` returns no value when a region has no facilities. In the source, the division gives Infinity or NaN, and that is what is displayed.
- `HealthcareRatio`, `TotalPopulation`: numbers are unbounded integers. JavaScript uses doubles, which are exact only up to 2^53, and `Math.round` rounds a floating-point quotient.
- `toLocaleString` number formatting is not modelled.
- `Region.status` is the three-value `Status` type, so a loaded record cannot hold any other string. `GetStatusLabel` and `GetStatusMessage` take the raw status string, so their `default` branches are kept.
- Security of the admin session is not modelled. `UpdateRegionStatus` does not check `isAdminMode`, as in the source; only the page hides the controls. The `alert` and the clearing of the password field on a wrong password are page effects.
- The scroll-reveal block at script.js:744-777 is not modelled. It is timers and page effects inside a `<script>` tag.
