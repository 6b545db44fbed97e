# EduTrack core logic in Dafny

EduTrack is a React dashboard for an education agency. It tracks students,
their applications, agents, marketers, campuses, users and the analytics
derived from them. Most of the repository is rendering and calls to a hosted
record store. This project models the sequential logic inside it:

- **Entity services.** Student, application, agent, marketer, campus and
  marketer-performance services shape the record each `create` and `update`
  sends (casing fallbacks, defaults, `parseInt` references). They reject
  non-numeric ids before any store call. They read a store response in a
  fixed way: throw its message, throw a per-entity failure, return the first
  successful record's data, or return `true`.
- **Student filters.** The flat filter object becomes the ordered `where`
  list of a student fetch.
- **User service.** It has no store: a fixed user list, `createUser`
  validation and defaults, and the id checks of the other calls.
- **Analytics.** The weekly split of the monthly series, the dashboard totals
  and the per-agent and per-marketer performance buckets.
- **UI logic.**
  - the filter bar's map updates and its "Clear All" condition;
  - the data table's sort toggle, its row-selection list and cell fallbacks;
  - the status-badge class table;
  - the applications page's summary, reference rendering and form defaults;
  - the navigation decision taken after authentication.

The model is organised as follows:

- `Js` holds the JavaScript semantics the code depends on:
  - dynamically typed values and truthiness;
  - `||` and `String(v)`;
  - `parseInt` without a radix, partial, with `None` standing for NaN.
- `Store` holds the request and response shapes and the interpretation every
  service shares.
- Each service and component has its own module.
- Store responses, the clock readings of `createUser` and the browser
  location are inputs.

The analytics have no fallback bucket for unresolved references: they
group by the raw `agentName`/`marketerName` value, converted to a property
key. The analytics read `agentName`, `marketerName` and `offerStatus`,
while the student service selects `agent_name`, `marketer_name` and
`offer_status`. Each side is modelled as written.

## Model

| member | source | states |
|---|---|---|
| Js.Or | src/services/api/studentService.js:108 | `a \|\| b` yields `a` when truthy, else `b`; the result is truthy iff either operand is |
| Js.ParseIntRoundTrip | src/services/api/studentService.js:150-153 | `parseInt` of the decimal rendering of any integer gives that integer back |
| Js.ParseIntOfNumber | src/services/api/applicationService.js:146-149 | a numeric id is never NaN: `parseInt(n)` is `n` |
| Js.ParseInt | src/services/api/studentService.js:56-59 | an empty string, or one with no decimal digit, parses to NaN |
| Store.Successes | src/services/api/studentService.js:131 | the kept results are all successful entries of the input; when all succeed it keeps them all |
| Store.Failures | src/services/api/studentService.js:132-138 | the failed entries are empty exactly when every result succeeded |
| Store.ListOutcome | src/services/api/studentService.js:42-47 | a failed fetch throws its message; otherwise the data, or `[]` when the data is falsy |
| Store.ReadOutcome | src/services/api/studentService.js:92-97 | `getById` throws the store's message on failure and otherwise returns the data unchanged |
| Store.WriteOutcome | src/services/api/studentService.js:126-141 | throws the store's message when `success` is false; `undefined` with no results array; the entity failure when any entry failed; otherwise the first entry's data |
| Store.DeleteOutcome | src/services/api/studentService.js:211-225 | returns `true` iff the response succeeded with a results array and no failed entry; `undefined` iff there is no array |
| Store.GetById | src/services/api/studentService.js:54-101 | the call reaches the store iff the id parses; otherwise it throws `Invalid <entity> ID` |
| Store.Delete | src/services/api/studentService.js:198-229 | a NaN id throws before any store call; otherwise exactly that id is deleted |
| Store.NumericIdReachesStore | src/services/api/studentService.js:56-61 | a number id is passed to the store unchanged |
| Store.WriteAndDeleteAgree | src/services/api/studentService.js:130-137 | on a successful response with results, a write throws iff a delete would |
| StudentFilters.ConditionsFrom | src/services/api/studentService.js:234-306 | from a position on, one condition per truthy recognised key, in increasing key order, each carrying that key's value |
| StudentFilters.WhereConditions | src/services/api/studentService.js:234-306 | a condition is present iff its key is truthy; conditions come in the fixed order; each has exactly one value; `Contains` is used iff the field is `Name` |
| StudentFilters.OtherKeysIgnored | src/services/api/studentService.js:234-306 | setting a key outside the nine never changes the where list |
| StudentFilters.AgentAndMarketerIgnored | src/services/api/studentService.js:234-306 | `agent` and `marketer` filters produce no condition |
| StudentService.Payload | src/services/api/studentService.js:106-121 | `Name` over `name`; snake_case statuses over camelCase; `campus`, `agent_name`, `marketer_name` parsed; other fields copied |
| StudentService.GetAll | src/services/api/studentService.js:9-51 | one unconditioned fetch of `student`; throws the store message on failure, else returns `data || []` |
| StudentService.GetById | src/services/api/studentService.js:54-101 | a NaN id throws `Invalid student ID` with no store call; otherwise the parsed id is requested, the store message is thrown on failure and `data` is returned as is |
| StudentService.Create | src/services/api/studentService.js:104-145 | sends the shaped record; a failed entry throws `Failed to create student` |
| StudentService.Update | src/services/api/studentService.js:148-195 | a NaN id throws before any call; otherwise sends the shaped record with the parsed `Id` |
| StudentService.Delete | src/services/api/studentService.js:198-229 | returns `true` iff the id parses and the store reports every deletion succeeded |
| StudentService.GetFilteredData | src/services/api/studentService.js:232-347 | always issues one fetch with the translated where list, even an empty one |
| StudentService.UpdateIsCreatePlusId | src/services/api/studentService.js:156-171 | an update record is the create record plus the parsed id |
| ApplicationService.Payload | src/services/api/applicationService.js:104-117 | `Name` over `name`; the four references parsed; statuses, remarks and amount copied with no default |
| ApplicationService.GetAll | src/services/api/applicationService.js:9-50 | one unconditioned fetch of `application`; throws the store message on failure, else returns `data || []` |
| ApplicationService.GetById | src/services/api/applicationService.js:53-99 | a NaN id throws `Invalid application ID` with no store call; otherwise the parsed id is requested, the store message is thrown on failure and `data` is returned as is |
| ApplicationService.Create | src/services/api/applicationService.js:102-141 | a failed entry throws `Failed to create application`; otherwise the write outcome |
| ApplicationService.Update | src/services/api/applicationService.js:144-189 | a NaN id throws before any call; otherwise the record with the parsed `Id` |
| ApplicationService.Delete | src/services/api/applicationService.js:192-223 | returns `true` iff the id parses and no deletion failed |
| ApplicationService.NumericReferencesKept | src/services/api/applicationService.js:107-110 | references given as numbers reach the store as those numbers |
| AgentService.CreatePayload | src/services/api/agentService.js:66-73 | `name` over `Name`; `active` becomes `true` only when undefined |
| AgentService.UpdatePayload | src/services/api/agentService.js:107-114 | the parsed id; `active` as given, no default |
| AgentService.GetAll | src/services/api/agentService.js:9-31 | one unconditioned fetch of `agent`; throws the store message on failure, else returns `data || []` |
| AgentService.GetById | src/services/api/agentService.js:34-61 | a NaN id throws `Invalid agent ID` with no store call; otherwise the parsed id is requested, the store message is thrown on failure and `data` is returned as is |
| AgentService.Create | src/services/api/agentService.js:64-96 | a failed entry throws `Failed to create agent`; otherwise the write outcome |
| AgentService.Update | src/services/api/agentService.js:99-137 | a NaN id throws before any call; otherwise sends the update record |
| AgentService.Delete | src/services/api/agentService.js:140-171 | returns `true` iff the id parses and no deletion failed |
| AgentService.UpdateMatchesCreateIffActiveGiven | src/services/api/agentService.js:71-112 | update and create records agree apart from the id iff `active` was given |
| AgentService.ExplicitInactiveKept | src/services/api/agentService.js:71 | an explicit `false` survives `create` |
| AgentService.NamePreferenceOpposesStudent | src/services/api/agentService.js:68 | for every record with both `name` and `Name` truthy, the agent service keeps `name` where the student service keeps `Name` |
| MarketerService.CreatePayload | src/services/api/marketerService.js:72-82 | `active` defaults only when undefined; `specialization` defaults to `General Marketing` and `performance` to `Good` when falsy; both are always truthy |
| MarketerService.UpdatePayload | src/services/api/marketerService.js:116-126 | the parsed id and every field as given |
| MarketerService.GetAll | src/services/api/marketerService.js:9-34 | one unconditioned fetch of `marketer`; throws the store message on failure, else returns `data || []` |
| MarketerService.GetById | src/services/api/marketerService.js:37-67 | a NaN id throws `Invalid marketer ID` with no store call; otherwise the parsed id is requested, the store message is thrown on failure and `data` is returned as is |
| MarketerService.Create | src/services/api/marketerService.js:70-105 | any caller data is sent, with no required-field check; a failed entry throws `Failed to create marketer` |
| MarketerService.Update | src/services/api/marketerService.js:108-149 | a NaN id throws before any call; otherwise sends the update record |
| MarketerService.Delete | src/services/api/marketerService.js:152-183 | returns `true` iff the id parses and no deletion failed |
| MarketerService.UpdateMatchesCreateIffNoDefault | src/services/api/marketerService.js:78-124 | update and create agree apart from the id iff none of the three defaults applies |
| CampusService.Payload | src/services/api/campusService.js:62-67 | exactly `Name` (`name` over `Name`) and `location`, plus the id on update |
| CampusService.GetAll | src/services/api/campusService.js:9-29 | one unconditioned fetch of `campus`; throws the store message on failure, else returns `data || []` |
| CampusService.GetById | src/services/api/campusService.js:32-57 | a NaN id throws `Invalid campus ID` with no store call; otherwise the parsed id is requested, the store message is thrown on failure and `data` is returned as is |
| CampusService.Create | src/services/api/campusService.js:60-90 | throws the store message on failure or `Failed to create campus` on a failed entry; else the write outcome: the first entry's data, `undefined` when `results` is absent or empty |
| CampusService.Update | src/services/api/campusService.js:93-129 | a NaN id throws before any call; otherwise sends the record with the parsed `Id` |
| CampusService.Delete | src/services/api/campusService.js:132-163 | returns `true` iff the id parses and no deletion failed |
| CampusService.UpdateIsCreatePlusId | src/services/api/campusService.js:100-105 | the update record adds only the parsed id to the create record |
| MarketerPerformanceService.CreatePayload | src/services/api/marketerPerformanceService.js:74-82 | each total falls back to 0 when falsy; `marketer` parsed |
| MarketerPerformanceService.UpdatePayload | src/services/api/marketerPerformanceService.js:116-124 | totals copied unchanged; `marketer` parsed |
| MarketerPerformanceService.GetAll | src/services/api/marketerPerformanceService.js:9-35 | one unconditioned fetch of `marketer_performance`; throws the store message on failure, else returns `data || []` |
| MarketerPerformanceService.GetById | src/services/api/marketerPerformanceService.js:38-69 | a NaN id throws `Invalid marketer performance ID` with no store call; otherwise the parsed id is requested, the store message is thrown on failure and `data` is returned as is |
| MarketerPerformanceService.Create | src/services/api/marketerPerformanceService.js:72-105 | a failed entry throws `Failed to create marketer performance` |
| MarketerPerformanceService.Update | src/services/api/marketerPerformanceService.js:108-147 | a NaN id throws before any call; otherwise sends the update record |
| MarketerPerformanceService.Delete | src/services/api/marketerPerformanceService.js:150-181 | returns `true` iff the id parses and no deletion failed |
| MarketerPerformanceService.UpdateMatchesCreateIffTotalsKept | src/services/api/marketerPerformanceService.js:78-122 | update and create agree apart from the id iff every total is truthy or exactly 0 |
| UserService.GetAllUsers | src/services/api/userService.js:13-34 | exactly two active users with Ids 1 and 2, each of which would pass `createUser`'s check |
| UserService.CreateUser | src/services/api/userService.js:41-65 | rejects iff `Name`, `email` or `role` is falsy; otherwise copies them, defaults `active` only when undefined and sets `lastLogin` to null |
| UserService.UpdateUser | src/services/api/userService.js:67-88 | rejects iff the id is NaN; otherwise exactly the parsed id and the four fields as given |
| UserService.DeleteUser | src/services/api/userService.js:90-103 | `true` iff the id parses, else `Invalid user ID` |
| UserService.ResetPassword | src/services/api/userService.js:105-119 | `true` iff the id parses, whatever the password |
| UserService.UpdateUserProfile | src/services/api/userService.js:144-167 | rejects iff the id is NaN; otherwise the parsed id and the six profile fields as given |
| UserService.UpdateOfCreatedUserKeepsFields | src/services/api/userService.js:49-81 | updating a created user with its own id and fields returns those fields |
| UserService.IdChecksAgree | src/services/api/userService.js:69-148 | the four id checks accept the same ids |
| AnalyticsWeekly.JsRem | src/services/api/analyticsService.js:21 | the remainder differs from the dividend by a multiple of 4 and takes the dividend's sign |
| AnalyticsWeekly.SharesOfNonNegative | src/services/api/analyticsService.js:21-24 | for `v >= 0` the four shares sum to `v`; weeks 2–4 equal `v / 4`; week 1 is `v / 4 + v % 4` and the largest |
| AnalyticsWeekly.SharesOfMinusOne | src/services/api/analyticsService.js:21-24 | a negative value is not conserved: -1 splits into shares summing to -5 |
| AnalyticsWeekly.WeekLabel | src/services/api/analyticsService.js:20 | the label is the period, then `-W`, then the one digit whose value is `week` |
| AnalyticsWeekly.WeekPoint | src/services/api/analyticsService.js:19-25 | each counter of a weekly point is its week's share of the monthly counter |
| AnalyticsWeekly.WeeklyData | src/services/api/analyticsService.js:15-28 | four points per month |
| AnalyticsWeekly.MonthWeeks | src/services/api/analyticsService.js:17-25 | a month splits into four points, point `w` being week `w + 1` |
| AnalyticsWeekly.WeeklyDataIndex | src/services/api/analyticsService.js:16-26 | point `4q + w` of the weekly series is point `w` of month `q`'s split |
| AnalyticsWeekly.WeeklyDataAt | src/services/api/analyticsService.js:16-26 | point `k` is week `k % 4 + 1` of month `k / 4`, so months stay in order |
| AnalyticsWeekly.WeeklyTotalsConserved | src/services/api/analyticsService.js:16-26 | with non-negative counters the weekly series has the monthly totals |
| AnalyticsWeekly.MonthlyData | src/services/api/analyticsService.js:7-10 | the same points in the same order (sequences are values, so the copy's freshness has no counterpart) |
| AnalyticsStats.WithOffer | src/services/api/analyticsService.js:36 | keeps exactly the offer-issued records, each as many times as the input holds it |
| AnalyticsStats.WithOfferConcat | src/services/api/analyticsService.js:36 | the filter keeps input order: filtering `a + b` gives the filtered `a` followed by the filtered `b` |
| AnalyticsStats.WithCoe | src/services/api/analyticsService.js:37 | keeps exactly the COE-issued records, each as many times as the input holds it |
| AnalyticsStats.WithCoeConcat | src/services/api/analyticsService.js:37 | the filter keeps input order over concatenations |
| AnalyticsStats.Dashboard | src/services/api/analyticsService.js:31-48 | `totalApplications` is the record count; offers and COEs never exceed it |
| AnalyticsStats.RowTotalsAreDashboard | src/services/api/analyticsService.js:35-40 | the per-record contributions sum to the four dashboard figures |
| AnalyticsStats.CountsBoundedByApps | src/services/api/analyticsService.js:67-74 | offers and COEs counted over any records are at most the record count |
| AnalyticsStats.IndexOfKey | src/services/api/analyticsService.js:57 | finds the bucket with a key, or reports that none has it |
| AnalyticsStats.Count | src/services/api/analyticsService.js:67-74 | counting a record adds exactly its contribution to each measure |
| AnalyticsStats.GroupIsGrouping | src/services/api/analyticsService.js:55-75 | the `forEach` gives distinct keys and covers every record's key; each bucket holds exactly its own records' totals and the first one's name |
| AnalyticsStats.AccumulateKeepsGrouping | src/services/api/analyticsService.js:56-74 | one loop iteration keeps the grouping exact |
| AnalyticsStats.GroupSum | src/services/api/analyticsService.js:55-75 | summed over buckets, each measure equals the same measure over all records |
| AnalyticsStats.ExactBucketBounds | src/services/api/analyticsService.js:56-74 | every bucket counts at least one record, and offers and COEs at most its applications |
| AnalyticsStats.ConversionRate | src/services/api/analyticsService.js:79 | with offers at most applications, the rate lies in [0, 100] |
| AnalyticsStats.Performance | src/services/api/analyticsService.js:50-81 | one row per bucket with distinct keys; every bucket has applications ≥ 1, so the `'0.0'` branch is never taken; rates lie in [0, 100] |
| AnalyticsStats.EveryStudentHasBucket | src/services/api/analyticsService.js:55-65 | every record's key has a bucket |
| AnalyticsStats.EveryBucketHasStudent | src/services/api/analyticsService.js:57-64 | every bucket key is some record's key, and no other bucket shares it |
| AnalyticsStats.PerformanceAgreesWithDashboard | src/services/api/analyticsService.js:35-40 | bucket applications sum to the record count; bucket offers, COEs and amounts sum to the dashboard figures |
| AnalyticsStats.BucketTotalsAreItsStudents | src/services/api/analyticsService.js:88-110 | each bucket's figures are the count, the offers, the COEs and the issued amount of its own records |
| FilterBar.HandleFilterChange | src/components/molecules/FilterBar.jsx:21-23 | the key gets the value; every other key is unchanged; the key set grows by that key only |
| FilterBar.ShowsClearButton | src/components/molecules/FilterBar.jsx:25-52 | the clear control is shown iff some filter value is truthy; never for an empty map |
| FilterBar.ActiveIsTruthy | src/components/molecules/FilterBar.jsx:25 | `value && value !== ''` is plain truthiness; an all-`''` map is inactive |
| FilterBar.ApplyChanges | src/components/molecules/FilterBar.jsx:58-127 | changes through the bar add only the bar's keys, with string values, and leave other keys alone |
| FilterBar.BarWritesOnlyItsKeys | src/components/molecules/FilterBar.jsx:58-127 | from no filters, only the eleven bar keys are ever written |
| FilterBar.ChangesCompose | src/components/molecules/FilterBar.jsx:21-23 | a second change to the same key wins; changes to different keys commute |
| FilterBar.ConditionsImplyActive | src/components/molecules/FilterBar.jsx:25 | a non-empty student where list implies active filters |
| FilterBar.AgentFilterActiveButUnqueried | src/components/molecules/FilterBar.jsx:70-75 | an agent filter is active yet adds no student condition |
| DataTable.HandleSort | src/components/molecules/DataTable.jsx:19-24 | emits only with a handler; the key is the clicked one; the direction is `desc` iff that key is currently `asc` |
| DataTable.NewColumnStartsAscending | src/components/molecules/DataTable.jsx:21 | another column always starts at `asc` |
| DataTable.SameColumnAlternates | src/components/molecules/DataTable.jsx:21 | clicking the same column again flips the direction |
| DataTable.IconFor | src/components/molecules/DataTable.jsx:121-127 | the neutral icon shows iff the column is not sorted; the up chevron shows iff it is sorted `asc` |
| DataTable.IconFollowsClick | src/components/molecules/DataTable.jsx:116-127 | after a click only the clicked column shows a direction |
| DataTable.Without | src/components/molecules/DataTable.jsx:38 | removes every occurrence of the id and keeps every other entry |
| DataTable.WithoutCounts | src/components/molecules/DataTable.jsx:38 | other ids keep their multiplicity; the length drops by the id's count |
| DataTable.WithoutConcat | src/components/molecules/DataTable.jsx:38 | removal distributes over concatenation, so order is preserved |
| DataTable.SelectAll | src/components/molecules/DataTable.jsx:26-32 | checked selects every row id in data order; unchecked selects none |
| DataTable.SelectRow | src/components/molecules/DataTable.jsx:34-40 | checked appends the id; unchecked drops all its occurrences and keeps the other counts |
| DataTable.ClickKeepsSelectionClean | src/components/molecules/DataTable.jsx:102-157 | clicks through the checkboxes keep the selection duplicate-free and within the shown ids |
| DataTable.StaleSelectionChecksHeader | src/components/molecules/DataTable.jsx:104 | the header box compares lengths only: it can be checked while no shown row is |
| DataTable.SelectRowDuplicates | src/components/molecules/DataTable.jsx:36 | appending does not prevent a duplicate |
| DataTable.FormatCellValue | src/components/molecules/DataTable.jsx:42-53 | status columns render a badge; falsy currency is `$0`; other falsy values are `-` |
| DataTable.CellFor | src/components/molecules/DataTable.jsx:162-164 | an undefined field is `-`; a cell is `-` or `$0` exactly in the listed cases |
| StatusBadge.ClassFor | src/components/atoms/StatusBadge.jsx:1-26 | a configured (type, status) pair gets its class; anything else gets the grey fallback |
| StatusBadge.ConfiguredClassesTruthy | src/components/atoms/StatusBadge.jsx:3-23 | no configured class is empty, so the `\|\|` fallback never hides one |
| StatusBadge.VisaAlwaysFallsBack | src/components/atoms/StatusBadge.jsx:3-25 | every visa status gets the fallback class |
| StatusBadge.OmittedTypeIsDefault | src/components/atoms/StatusBadge.jsx:1 | an omitted type behaves as `default`, which colours only `Active` |
| StatusBadge.GreyIsNotOnlyFallback | src/components/atoms/StatusBadge.jsx:21 | `Inactive` is configured with the fallback's own class |
| StatusBadge.Render | src/components/atoms/StatusBadge.jsx:28-32 | the badge text is the status unchanged |
| ApplicationsPage.SummaryOf | src/components/pages/Applications.jsx:338-355 | the total is the application count; offers and COEs never exceed it; no offers means no collection |
| ApplicationsPage.SummaryMatchesDashboard | src/components/pages/Applications.jsx:338-355 | the page summary equals the analytics dashboard figures over the same records, a missing amount counting 0 |
| ApplicationsPage.RenderReference | src/components/pages/Applications.jsx:192-197 | an object's truthy `Name`; else the value if truthy; else `N/A`; never falsy |
| ApplicationsPage.ReferenceValue | src/components/pages/Applications.jsx:114-117 | the reference's `Id` if truthy, else the value if truthy, else `''` |
| ApplicationsPage.EditForm | src/components/pages/Applications.jsx:110-126 | references normalised; statuses default to `Pending`; other fields default to `''` |
| ApplicationsPage.EditOfEmptyIsNewForm | src/components/pages/Applications.jsx:140-155 | editing an empty application opens exactly the new-application form |
| ApplicationsPage.EditFormStatusesSet | src/components/pages/Applications.jsx:118-121 | every status of an edit form is truthy |
| ApplicationsPage.EditedReferenceReachesPayload | src/components/pages/Applications.jsx:114-117 | a reference record with a non-zero numeric `Id` reaches the update payload as that number |
| ApplicationsPage.HandleInputChange | src/components/pages/Applications.jsx:181-184 | only the named field changes |
| ApplicationsPage.ApplyFilters | src/components/pages/Applications.jsx:77-86 | no fetch iff the filter map has no keys; otherwise an unfiltered reload |
| ApplicationsPage.ApplyFiltersIgnoresValues | src/components/pages/Applications.jsx:77-81 | any two non-empty filter maps reload the same; a map of empty values still reloads |
| AuthRedirect.OnSuccess | src/App.jsx:45-89 | `setUser` is dispatched iff a user is present |
| AuthRedirect.ContainsTail | src/App.jsx:77 | a string containing `a + b` contains `b` |
| AuthRedirect.AuthPageContainsName | src/App.jsx:49-51 | every authentication path contains one of the bare names at line 77 |
| AuthRedirect.OnSuccessIsIntended | src/App.jsx:53-87 | the branches reduce to the four-case decision; the arms at lines 60, 69-72, 79 and 86 are never taken |
| AuthRedirect.UserFollowsRedirect | src/App.jsx:53-55 | with a user and a non-empty redirect, navigate to the redirect |
| AuthRedirect.NoUserStaysOnAuthPage | src/App.jsx:75-85 | without a user on an authentication page, stay there whether or not there is a redirect |
| AuthRedirect.NoUserElsewhereGoesToLogin | src/App.jsx:67-74 | without a user on any other page, go to plain `/login` |

## Left out

- The hosted store client, its SDK, the authentication widget and the network. Store responses are inputs. The `fields` lists of each fetch are not modelled because they only select columns.
- `Promise.all` fan-outs and the `delay` waits. They are scheduling, not logic.
- `console.error` logging. The `try`/`catch` blocks only log and rethrow, so they leave the outcome unchanged.
- `Js.ParseInt` covers the integers only: numbers are integers in the model, so there is no exponent or fraction rendering and no precision loss for huge values.
- Property keys that collide with `Object.prototype` members (`toString`, `__proto__`, …). They could make a missing bucket or badge entry look present. Every key is treated as an own property.
- `AnalyticsStats.ConversionRate`: the rate is an exact real, not the one-decimal `toFixed` string.
- Bucket order, because `Object.values` places integer-like keys first. The bucket list is in first-appearance order, but no lemma depends on that order.
- `AnalyticsWeekly.WeeklyTotalsConserved`: conservation is stated for non-negative counters only. `SharesOfMinusOne` shows it fails for negative ones.
- `ApplicationsPage.SummaryOf`: `amount` is a number or missing. A string amount would make JavaScript concatenate instead of add.
- `AnalyticsStats.Dashboard`: `amount` is an integer. JavaScript would concatenate a string amount or yield NaN for a missing one.
- Money, date and number formatting (`toLocaleString`, `toLocaleDateString`) in the table and summary cells.
- The sort in the applications page's `handleSort`. Its comparator never returns 0 and is not a consistent order, so the result depends on the engine.
- The Date and Math.random readings:
  - `Date.now()` and today's date in `createUser` are parameters.
  - `generateLoginCredentials` is not modelled: it only draws a random password.
- The browser location. The current path and the `redirect` parameter are inputs; URL decoding is not modelled.
- `DataTable.SelectAll`: row ids are integers. Rows without an `Id` are not modelled.
- The loading skeleton, row animation, modal visibility and every other piece of rendering.
- The clear handler and the delete and submit flows of the applications page, which only call the services modelled above.
- The JSON fixtures behind the monthly series. Their contents are an input.
