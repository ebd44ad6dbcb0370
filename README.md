# OpenProject dashboard: a Dafny model of its data logic

This project models the data logic of a React dashboard that works over the OpenProject REST API
(API v3). The logic is a set of small, deterministic transformations:

- the API client's credential store: an in-memory slot, a slot persisted in localStorage, and the
  preparation of every request (credential check, URL, headers, ok/not-ok branch);
- the normalisation of the API's HAL work-package records into the app's `WorkPackage` values;
- the analytics service: a synthetic 14-day burndown series and a per-member workload roll-up;
- the dashboard summary: completion counts, progress percentage, overdue packages and the next
  milestone;
- the team overview's per-member statistics;
- the task list's status filter, its three sort orders and the sort-field button;
- the tasks page's search and filters, and its lists of distinct status and type names;
- the calendar page's due-date matching: the tasks listed for the chosen day, and which days are
  highlighted.

Representation choices:

- Dates are day numbers, counted in days since 1970-01-01. Instants are milliseconds since the
  epoch. `new Date("YYYY-MM-DD")` is the UTC midnight `DayStart(d)`. The current instant and the
  browser's UTC offset are parameters.
- JavaScript numbers for hours, burndown points and percentages are Dafny `real`s.
  `Math.round(x)` is `floor(x + 0.5)`.
- localStorage is one `LocalStorage` object. Every client instance shares it. A stored entry holds
  the credentials themselves, because the JSON round trip is the identity on them.
- `fetch` is a function parameter from the request to its outcome.
- `null`/`undefined` fields are `Option`s.

Modules: `Wrappers`, `Seqs`, `Strings`, `Dates` and `Rounding` are helpers. `OpenProject` holds the
entity types of `src/types/openproject.ts`. `WorkItems` holds the completion buckets, the assignee
match and the estimate sums. `WorkOrder` holds the three list orders and a stable sort. The other
modules follow the source files: `Analytics`, `WorkPackages`, `Client`, `DashboardSummary`,
`TeamOverview`, `TaskList`, `TasksPage` and `CalendarPage`.

`src/lib/api.ts` repeats `src/lib/api/client.ts`, the mapping of `src/lib/api/workPackages.ts`
and `src/lib/api/analytics.ts` almost line for line. Each is modelled once. The rows below name
the matching `api.ts` lines too.

## Model

| member | source | states |
|---|---|---|
| Seqs.Filter | src/pages/TasksPage.tsx:82-94 | `Array.filter`: every kept element satisfies the predicate, an element is kept exactly when it is in the input and satisfies the predicate, and the result is never longer than the input |
| Seqs.FilterMultiplicity | src/pages/TasksPage.tsx:82-94 | each value occurs in the filtered list exactly as often as in the input when it satisfies the predicate, and not at all otherwise |
| Seqs.FilterAppend | src/lib/api/analytics.ts:66 | filtering a list with one more element at the end adds that element at the end exactly when it satisfies the predicate |
| Seqs.FilterIsSubsequence | src/components/TaskList.tsx:29 | a filter keeps input order: its result is a subsequence of the input |
| Seqs.FilterFilter | src/pages/TasksPage.tsx:81-94 | filtering by `p` and then by `q` equals one filter by `p && q` |
| Seqs.Any | src/pages/CalendarPage.tsx:84-90 | `Array.some` holds exactly when some index satisfies the predicate, and exactly when the filter by it is non-empty |
| Seqs.FindIndex | src/components/DashboardSummary.tsx:39-44 | `Array.find`'s index: the first index satisfying the predicate, or none when no element does |
| Seqs.Distinct | src/pages/TasksPage.tsx:100-101 | `Array.from(new Set(xs))`: no duplicates and the same members as `xs` |
| Seqs.DistinctFirstOccurrenceOrder | src/pages/TasksPage.tsx:100-101 | the distinct values appear in the order of their first occurrence in `xs` |
| Strings.ToLower | src/pages/TasksPage.tsx:83 | lower-casing keeps the length, leaves no capital A-Z, turns each capital into its lower-case letter and keeps every other character |
| Strings.ToLowerIdempotent | src/pages/TasksPage.tsx:83 | lower-casing an already lower-cased string changes nothing |
| Strings.ContainsAt | src/pages/TasksPage.tsx:83-84 | `includes` holds exactly when the term occurs at some position of the string |
| Strings.LexLessTransitive | src/components/TaskList.tsx:50 | the status-name order is transitive |
| Strings.LexLessIrreflexive | src/components/TaskList.tsx:50 | no status name is before itself |
| Strings.NatToStringRoundTrip | src/lib/api/client.ts:55 | the decimal rendering of a status code reads back as that code |
| Dates.DayStartBefore | src/components/DashboardSummary.tsx:25-27 | a due date's UTC midnight is before `now` exactly when its day is before now's UTC day, or is that day and `now` is past midnight UTC |
| Rounding.Round | src/components/DashboardSummary.tsx:20 | `Math.round(x)` is within half a unit of `x`, with halves rounded up |
| Rounding.RoundedPercentInRange | src/components/TeamOverview.tsx:26-28 | a rounded percentage of a part of a positive whole lies in [0, 100] |
| Rounding.RoundedPercentOfWhole | src/components/DashboardSummary.tsx:19-21 | the whole of anything rounds to exactly 100 percent |
| WorkItems.AssignedTasks | src/lib/api/analytics.ts:66 | a member's tasks are exactly the packages whose `assignedTo.id` equals the member id; unassigned packages are in no member's tasks (also src/lib/api.ts:197) |
| WorkItems.AssignedTasksAppend | src/lib/api/analytics.ts:66 | a package added at the end joins the member's tasks, at the end, exactly when it is assigned to that member |
| WorkItems.SumEstimates | src/lib/api/analytics.ts:68 | the hour sum (a missing estimate counts 0) of no packages is 0, and it is non-negative when the estimates are (also src/components/TeamOverview.tsx:22) |
| WorkItems.SumEstimatesAppend | src/lib/api/analytics.ts:68 | one more package adds its estimate, or 0 when it has none, to the hour sum |
| WorkItems.SumEstimatesOfFilter | src/components/TeamOverview.tsx:22-23 | the hours of a filtered part never exceed the hours of the whole |
| WorkItems.StatusBucketsPartition | src/components/DashboardSummary.tsx:15-17 | with percentages in [0, 100], the completed, in-progress and not-started buckets add up to all packages |
| WorkItems.OutOfRangeEscapesBuckets | src/components/DashboardSummary.tsx:15-17 | a percentage outside [0, 100] lands in no bucket, so the range condition is needed |
| WorkOrder.ParseInt | src/components/TaskList.tsx:46 | `parseInt` is NaN exactly when no digit follows the optional sign; a string of digits reads as its decimal value; after a minus sign the value is not positive |
| WorkOrder.ParseIntPrefix | src/components/TaskList.tsx:46 | after an optional sign, `parseInt` reads the leading run of digits and ignores what follows it: "12abc" is 12, "+7" is 7 and "-7" is -7 |
| WorkOrder.ParseIntOfDecimal | src/components/TaskList.tsx:46 | `parseInt` of a decimal priority id gives back that number |
| WorkOrder.BeforeMatchesCompare | src/components/TaskList.tsx:37-54 | a package sorts before another exactly when the comparator returns a negative number: undated due dates compare 1 as the left operand and -1 as the right one, dated ones by their UTC midnights; priorities by the difference of their parsed ids, with NaN never negative; status names by code-point order (the due-date comparator also at src/components/DashboardSummary.tsx:33-37) |
| WorkOrder.BeforeIrreflexive | src/components/TaskList.tsx:37-54 | no package sorts strictly before itself, in any of the three orders |
| WorkOrder.BeforeTransitive | src/components/TaskList.tsx:37-54 | each of the three orders is transitive |
| WorkOrder.Insert | src/components/TaskList.tsx:37 | inserting adds exactly the one element: the multiset grows by it |
| WorkOrder.SortTasks | src/components/TaskList.tsx:37 | the sorted copy is a permutation of the input |
| WorkOrder.InsertKeepsSorted | src/components/TaskList.tsx:37-54 | inserting into a sorted list keeps it sorted |
| WorkOrder.SortTasksSorted | src/components/TaskList.tsx:37-54 | the sorted copy is sorted: no later package is strictly before an earlier one |
| WorkOrder.SortedByDueDate | src/components/TaskList.tsx:38-42 | sorted by due date, dated packages ascend by date and undated ones come after all dated ones |
| WorkOrder.SortedByPriority | src/components/TaskList.tsx:44-47 | sorted by priority, packages with numeric ids ascend by id |
| Analytics.GetBurndownData | src/lib/api/analytics.ts:17-56 | the loop's four arrays are the fourteen-day synthetic series for today, whatever the project and sprint (also src/lib/api.ts:151-187) |
| Analytics.SyntheticSeries | src/lib/api/analytics.ts:34-55 | four series of exactly 14 entries; the dates are 14 consecutive days ending today; `remaining` equals `actual` (line 52) |
| Analytics.IdealLine | src/lib/api/analytics.ts:31-40 | the ideal line starts at 100, falls strictly, and ends at 100/14 rather than 0 (also src/lib/api.ts:162-171) |
| Analytics.ActualCurve | src/lib/api/analytics.ts:43-49 | the actual curve is above the ideal line in the first week and below it in the second, never rises, starts at 100 and ends at 0 (also src/lib/api.ts:174-180) |
| Analytics.WorkloadFor | src/lib/api/analytics.ts:66-75 | an entry holds its member, the number of packages assigned to that member, at most that many completed ones, and non-negative hours when estimates are non-negative; with no packages it is all zero |
| Analytics.WorkloadForAppend | src/lib/api/analytics.ts:66-75 | one more package assigned to the member adds one task, one completed task exactly when it is at 100 percent, and its estimate to the hours; a package assigned elsewhere or to no one changes nothing |
| Analytics.GetWorkloadData | src/lib/api/analytics.ts:65-76 | one entry per member, in member order (also src/lib/api.ts:196-207) |
| Analytics.HitsExactlyOne | src/lib/api/analytics.ts:66 | with distinct member ids a package counts for exactly one member when it is assigned to one of them, and for none otherwise |
| Analytics.TotalAssignedCons | src/lib/api/analytics.ts:65-72 | one more package raises the members' total assigned count by the number of members it is assigned to |
| Analytics.WorkloadTotalExact | src/lib/api/analytics.ts:65-76 | with distinct member ids, the members' assigned counts add up to exactly the number of packages assigned to some member |
| Analytics.ZeroWithoutPackages | src/lib/api/analytics.ts:65-76 | with no packages the members' assigned counts add up to 0 (the base case of `WorkloadTotalExact`) |
| WorkPackages.LastSegment | src/lib/api/workPackages.ts:19 | the id is the suffix of `href` after its last '/': it holds no '/', and a '/' precedes it unless it is all of `href` |
| WorkPackages.LastSegmentEmpty | src/lib/api/workPackages.ts:19 | the id is empty exactly when `href` is empty or ends in '/' |
| WorkPackages.LastSegmentWithoutSlash | src/lib/api/workPackages.ts:19 | an `href` without '/' is its own id |
| WorkPackages.LastSegmentOfPath | src/lib/api/workPackages.ts:19 | the id of `prefix/id` is `id` |
| WorkPackages.Normalize | src/lib/api/workPackages.ts:9-39 | scalar fields are copied; a missing percentage is 0; the status colour is `#cccccc`; `assignedTo` is absent exactly when there is no assignee link (also src/lib/api.ts:96-125) |
| WorkPackages.NormalizeReferences | src/lib/api/workPackages.ts:18-38 | every link id is its href's last segment and holds no '/'; each of status, type, project, priority and the present assignee takes the link's title when it is present and non-empty, and otherwise exactly 'Unknown', 'Normal' or 'Unassigned' (also src/lib/api.ts:105-125) |
| WorkPackages.NormalizeDescription | src/lib/api/workPackages.ts:11 | the description is the raw text when present and non-empty, otherwise empty |
| WorkPackages.NormalizeAll | src/lib/api/workPackages.ts:8-39 | the result has the records' length and order, one normalised record each (also src/lib/api.ts:95-126) |
| WorkPackages.NormalizeAllAssignees | src/lib/api/workPackages.ts:27-30 | in the list, unassigned records stay unassigned and assigned ones keep their assignee's id (also src/lib/api.ts:114-117) |
| Client.ErrorMessage | src/lib/api/client.ts:54-56 | a failed response's message begins with "API request failed: " |
| Client.RequestFailedMessage | src/lib/api/client.ts:55 | the message is the prefix, the status code's digits, one space and the status text, of exactly that length, so code and text can be read back |
| Client.BuildRequest | src/lib/api/client.ts:40-46 | URL `url/api/v3/endpoint`; JSON content type and `Bearer apiKey` by default; caller headers override them (also src/lib/api.ts:40-46) |
| Client.RequestOutcome | src/lib/api/client.ts:33-62 | without credentials: 'API credentials not set' and no fetch; otherwise the built request is sent, and only an ok response succeeds, with a failure carrying status and status text; a rejected fetch fails with its own message unchanged (also src/lib/api.ts:33-62) |
| Client.OpenProjectClient.constructor | src/lib/api/client.ts:5 | a new client has an empty memory slot over the given storage |
| Client.OpenProjectClient.SetCredentials | src/lib/api/client.ts:7-10 | both slots hold the credentials and getting them returns them (also src/lib/api.ts:7-10) |
| Client.OpenProjectClient.GetCredentials | src/lib/api/client.ts:12-22 | returns what is in effect: memory first, then storage; null when both are empty; a stored entry is copied into memory, and what a later get returns is unchanged (also src/lib/api.ts:12-22) |
| Client.OpenProjectClient.ClearCredentials | src/lib/api/client.ts:24-27 | both slots are empty, so getting the credentials returns null (also src/lib/api.ts:24-27) |
| Client.OpenProjectClient.IsAuthenticated | src/lib/api/client.ts:29-31 | true exactly when getting the credentials would return some; like that get, it loads stored credentials into memory (also src/lib/api.ts:29-31) |
| Client.OpenProjectClient.Request | src/lib/api/client.ts:33-63 | the result and the request sent are those `RequestOutcome` gives for the credentials in effect before the call; those credentials are loaded into memory and stay in effect (also src/lib/api.ts:33-63) |
| Client.LogoutThrough | src/lib/api/index.ts:14-19 | clearing one instance empties its slots but leaves another instance's cached credentials in effect |
| Client.SharedStorageScenario | src/lib/api/index.ts:14-19 | after login and logout through the facade, a service that had loaded the credentials still has them and one that had not has none |
| DashboardSummary.TaskCounts | src/components/DashboardSummary.tsx:14-17 | the total is the number of packages; each bucket is at most the total; with percentages in [0, 100] the buckets add up to the total; no packages give all zeros |
| DashboardSummary.TaskCountsAppend | src/components/DashboardSummary.tsx:14-17 | one more package adds one to the total and one to each bucket its percentage falls in: completed at 100, in progress strictly between 0 and 100, not started at 0 |
| DashboardSummary.ProjectProgress | src/components/DashboardSummary.tsx:19-21 | progress lies in [0, 100]; it is 0 with no packages and 100 when all are completed; otherwise it is within half a unit of the completed share of the packages times 100 |
| DashboardSummary.OverduePackages | src/components/DashboardSummary.tsx:23-28 | exactly the dated, unfinished packages whose due date is before now, as a subsequence of the input |
| DashboardSummary.OverdueByDay | src/components/DashboardSummary.tsx:24-27 | unfinished packages due on an earlier UTC day are overdue and ones due later are not; one due on the current UTC day is overdue from the first millisecond after midnight UTC |
| DashboardSummary.NotOverdue | src/components/DashboardSummary.tsx:24-27 | a finished or undated package is in no list's overdue packages |
| DashboardSummary.NextMilestone | src/components/DashboardSummary.tsx:31-44 | a result is a package whose type name contains "milestone" (any case), with a due date not before now; there is none exactly when no such milestone exists |
| DashboardSummary.NextMilestoneIsEarliest | src/components/DashboardSummary.tsx:33-44 | the next milestone is due no later than any other upcoming milestone |
| TeamOverview.CompletionPercent | src/components/TeamOverview.tsx:26-28 | 0 when no hours are estimated; otherwise within half a unit of the completed share of the hours times 100; in [0, 100] when the completed hours are part of the total |
| TeamOverview.StatsFor | src/components/TeamOverview.tsx:17-39 | counts the member's assigned packages; completed is at most assigned; the three buckets add up under the range condition; completed hours lie between 0 and the total; the percentage is `CompletionPercent` of the two hour sums; with no packages everything is 0 |
| TeamOverview.StatsForAppend | src/components/TeamOverview.tsx:17-39 | one more package assigned to the member adds one to the assigned count and to the bucket its percentage falls in, its estimate to the total hours and, when completed, to the completed hours; a package assigned elsewhere changes nothing |
| TeamOverview.TallyAppend | src/components/TeamOverview.tsx:18-28 | the counts and hour sums over a member's task list grow by one task exactly as its percentage and estimate say |
| TeamOverview.TeamStats | src/components/TeamOverview.tsx:16-40 | one entry per member, in member order |
| TeamOverview.EmptyTeamStats | src/components/TeamOverview.tsx:17-28 | with no packages, every count, hour total and percentage is 0 |
| TeamOverview.UnassignedCountedNowhere | src/components/TeamOverview.tsx:17 | a package without an assignee is in no member's statistics |
| TaskList.FilteredTasks | src/components/TaskList.tsx:29-35 | 'all' keeps every task; the other filters keep exactly the tasks at 100, strictly between 0 and 100, or at 0; order is kept |
| TaskList.VisibleTasks | src/components/TaskList.tsx:37-54 | the listed tasks are a permutation of the filtered ones, sorted by the chosen field |
| TaskList.NextSortField | src/components/TaskList.tsx:86-90 | each press changes the sort field |
| TaskList.SortFieldCycle | src/components/TaskList.tsx:86-90 | the button moves due date to priority, priority to status and status to due date, so three presses return to the start |
| TaskList.TaskListState.constructor | src/components/TaskList.tsx:26-27 | the list starts sorted by due date, showing all tasks |
| TaskList.TaskListState.CycleSortField | src/components/TaskList.tsx:86-90 | the sort field moves to the next in the cycle and the filter stays |
| TaskList.TaskListState.SetFilterStatus | src/components/TaskList.tsx:67-70 | the filter becomes the chosen one and the sort field stays |
| TaskList.TaskListState.Rendered | src/components/TaskList.tsx:29-54 | in any state, the rendered list is a sorted permutation of the tasks the current filter keeps |
| TasksPage.MatchingPackages | src/pages/TasksPage.tsx:79-94 | a package is listed exactly when it matches the search term (case-insensitive subject, or id) and the set status and type filters; order is kept; with no criteria, all are listed |
| TasksPage.ApplyFilters | src/pages/TasksPage.tsx:77-97 | applying search, status and type one after another lists exactly the matching packages |
| TasksPage.UniqueStatuses | src/pages/TasksPage.tsx:100 | every status name present, once each, in order of first appearance |
| TasksPage.UniqueTypes | src/pages/TasksPage.tsx:101 | every type name present, once each, in order of first appearance |
| CalendarPage.SelectedDateTasks | src/pages/CalendarPage.tsx:60-73 | no day chosen: nothing; otherwise exactly the tasks due that day, in input order |
| CalendarPage.DayClassNames | src/pages/CalendarPage.tsx:81-97 | a day gets the highlight class exactly when some task is due that day, otherwise "" |
| CalendarPage.Booked | src/pages/CalendarPage.tsx:146-155 | the `booked` modifier holds exactly when some task is due that day |
| CalendarPage.HighlightAgreement | src/pages/CalendarPage.tsx:146-155 | the `booked` modifier holds exactly on highlighted days, and exactly on the days whose task list would be non-empty |
| CalendarPage.UndatedNeverShown | src/pages/CalendarPage.tsx:65-69 | a task without a due date is never listed, and adding it to any task list changes neither the highlight class nor the `booked` modifier of any day |
| CalendarPage.SelectedDateTasksAsWritten | src/pages/CalendarPage.tsx:63-70 | as written: exactly the tasks whose due date, rendered in the browser's zone, names the chosen day |
| CalendarPage.DayClassNamesAsWritten | src/pages/CalendarPage.tsx:81-97 | as written: a day gets the highlight class exactly when some task's due date, rendered in the browser's zone, names that day, otherwise "" |
| CalendarPage.BookedAsWritten | src/pages/CalendarPage.tsx:146-155 | as written: `booked` holds exactly when some task's due date, rendered in the browser's zone, names that day |
| CalendarPage.HighlightAgreementAsWritten | src/pages/CalendarPage.tsx:81-155 | as written, in every zone: a day is highlighted exactly when it is `booked`, and exactly when choosing it lists some task |
| CalendarPage.ShownDueDayEast | src/pages/CalendarPage.tsx:66 | at UTC and east of it, a due date renders as its own day |
| CalendarPage.ShownDueDayWest | src/pages/CalendarPage.tsx:66 | west of UTC, a due date renders as the day before |
| CalendarPage.AsWrittenAgreesEast | src/pages/CalendarPage.tsx:60-73 | at UTC and east of it, the written comparison selects exactly the tasks due on the chosen day |
| CalendarPage.AsWrittenShiftsWest | src/pages/CalendarPage.tsx:60-73 | west of UTC, choosing a day lists the tasks due on the following day |
| CalendarPage.HighlightShiftsWest | src/pages/CalendarPage.tsx:81-97 | west of UTC, a day is highlighted and `booked` exactly as the following day should be |
| CalendarPage.HighlightAgreesEast | src/pages/CalendarPage.tsx:146-155 | at UTC and east of it, the written highlight and `booked` modifier agree with the intended ones |
| CalendarPage.DueDateMissedInUtcMinus5 | src/pages/CalendarPage.tsx:63-67 | in UTC-5, a task due on 2026-10-15 is missing from that day's list and highlight, and is listed and highlighted under 2026-10-14 |

## Left out

- Network I/O: `fetch` is a parameter. `response.json()` is the body string; its parsing is not modelled. Request options other than headers are not modelled.
- Member lookup (`src/lib/api/members.ts`, `src/lib/api.ts:129-148`) is not part of this model. It is a chain of network calls whose only logic is a `principal.type === 'User'` test.
- Projects (`src/lib/api/projects.ts`) are not part of this model. Their completion figure comes from `Math.random`.
- UI, routing, loading and error flows, and the chart components are not modelled.
- Floating point: burndown points, hours and percentages are exact reals, not IEEE doubles. For example, `100/14` is exact here.
- Analytics.GetBurndownData: the dates are UTC day numbers. The formatting `toISOString().split("T")[0]` is left out. So is the daylight-saving shift that `setDate` in local time can cause near midnight.
- Time zones appear only in the calendar's rendering of due dates. Elsewhere "now" is an instant and due dates are UTC midnights, as `new Date("YYYY-MM-DD")` parses them.
- WorkOrder.Before: `localeCompare` is taken as code-point order.
- Strings.ToLower: `toLowerCase` is ASCII-only here, so letters outside A-Z keep their case in the search (`TasksPage.SearchHit`) and in the milestone test (`DashboardSummary.IsMilestone`).
- WorkOrder.ParseInt: leading whitespace and `0x` prefixes are not modelled.
- Logging is not modelled: the `console.log` calls at src/lib/api/analytics.ts:62-63 and the `console.error` before the rethrow at src/lib/api/client.ts:60 (also src/lib/api.ts:60) have no effect on any result.
- WorkOrder.SortTasks: the model is a stable insertion sort over a consistent reading of the comparators. An engine's sort with the source's comparators is not modelled in two cases: the due-date comparator returns 1 for two undated tasks, and NaN priorities compare equal to every id. In both cases the order an engine produces is implementation-defined.
- DashboardSummary.NextMilestoneIsEarliest: only the due date of the chosen milestone is proved minimal. Which of several milestones due on the same day is chosen is not stated.
- WorkPackages.Normalize: the wire record is taken as well-formed. All links except the assignee are present, and ids are strings. A `percentageDone` of `0` or `null` both give 0.
- Client: `JSON.parse(JSON.stringify(c))` is taken as the identity. The persisted entry is never malformed.

## Findings

| source | as written | input that shows it | evidently intended | confidence | as-written member | corrected member |
|---|---|---|---|---|---|---|
| src/pages/CalendarPage.tsx:63-67 | `new Date(task.dueDate)` parses a date-only string as UTC midnight, and `toDateString()` renders it in the local zone. West of UTC every due date therefore lands on the previous day, both in the listed tasks and in the highlighted days (lines 86 and 150). | browser at UTC-5, a task due 2026-10-15, the user picks 2026-10-15: the list is empty; picking 2026-10-14 lists the task | the tasks listed for a day are those whose due date is that calendar day | high (not executed) | CalendarPage.SelectedDateTasksAsWritten, CalendarPage.DayClassNamesAsWritten, CalendarPage.HighlightShiftsWest, CalendarPage.DueDateMissedInUtcMinus5 | CalendarPage.SelectedDateTasks, CalendarPage.DayClassNames, CalendarPage.Booked, CalendarPage.HighlightAgreement |
