# Project-management analytics and deadline sweeps, modelled in Dafny

This project models the computational core of a project-management backend.
Projects have members, a budget, a duration in months and a list of tasks.
Tasks have a status, a deadline, an assignee and a completion date.

The model covers:

- the fractional-month duration calculator `calculateDurationInMonths`;
- the project risk level `calculateRiskLevel`, as written and as evidently intended;
- the deadline notifiers `notifyDeadlines` and `notifyProjectDeadlines`.
  Each tier choice is a function of the deadline and the start of today.
  Each e-mail is an output label.
- the `markTaskAsBacklog` sweep, as an in-place method over an `array<Task>`;
- the analytics inside the project controller's handlers:
  - the member filter of `removeMembers`;
  - the completion percentage;
  - the two-entry risk report;
  - the task-status counter;
  - the per-day productivity histogram;
  - the project-status histogram;
  - the running maximum behind "project with highest risk level".

Modules:

| file | module | content |
|---|---|---|
| `Wrappers.dfy` | `Wrappers` | `Option`, `Result` |
| `JsNumber.dfy` | `JsNumber` | JavaScript numbers as `Finite(real)`, `PosInf`, `NegInf` and `NaN`. It defines `/` (division by zero gives an infinity or `NaN`), `<` (false whenever `NaN` is involved) and `x \|\| 0`. |
| `Calendar.dfy` | `Calendar` | Gregorian dates as `(year, month0, day)` and the leap-year rule. Also `new Date(y, m + 1, 0).getDate()`. |
| `DateKey.dfy` | `DateKey` | The unpadded `Y-M-D` day key of the productivity histogram, with a parser. The key is proved injective through a parse round trip. |
| `Models.dfy` | `Models` | The task, user and project records, already loaded and populated |
| `ProjectHelper.dfy` | `ProjectHelper` | `calculateDurationInMonths` and `calculateRiskLevel` |
| `NotificationHelper.dfy` | `NotificationHelper` | The deadline tiers, both notifier sweeps and `markTaskAsBacklog` |
| `ProjectController.dfy` | `ProjectController` | The handler computations |

Four modelling choices matter.

- **`now` in the notifiers.** `now.setHours(23, 59, 59, 999)` mutates `now` before any subtraction. So every `deadline - now` in the notifiers is measured from the *end* of today. The model therefore fixes `now = TodayEnd(todayStart) = todayStart + 86 399 999`.
- **A sweep stops at the first bad record.** A task with no assignee, or a project with no owner, makes `forEach` throw a `TypeError` when it reads `.email`. This happens only when that record would have been e-mailed. The sweep then stops: earlier records have already been processed, later ones are not. `SweepOutcome` records the labels of the processed prefix and whether the sweep aborted.
- **Insertion order of the productivity map.** The productivity dictionary is a `Counter`: the keys in first-insertion order, plus a `map` from key to count. `Object.entries` lists keys that are not array indices in insertion order. The `Y-M-D` keys contain dashes, so they are never array indices.
- **Code over intent.** Where the code does something other than its comments and names suggest, the model follows the code:
  - `now` is the end of today, not the current instant;
  - the project "within a week" and "within a month" tiers (announced by the comment at helpers/notificationHelper.js:50) can never fire;
  - the notifiers only send e-mail: they keep no log and never skip a repeated notification;
  - `calculateRiskLevel` fails whenever a project is behind schedule, and the controller cannot call it at all (see Findings).

## Model

| member | source | states |
|---|---|---|
| `Calendar.ConstructorYearLeap` | helpers/projectHelper.js:19 | The `Date` constructor reads years 0 to 99 as 1900 to 1999. The year it actually uses is a leap year exactly when the given year is a leap year other than 0. |
| `Calendar.DaysInStartMonth` | helpers/projectHelper.js:19 | Day 0 of the next month is the length of the start month, except for February of year 0: the constructor reads that year as 1900, so the result is 28 although year 0 is a leap year. The result is always between 28 and 31. It is 29 exactly for February of a leap year other than 0, and 28 exactly for February of a common year or of year 0. |
| `DateKey.DayKey` | controllers/projectController.js:532-534 | The template literal `${year}-${month + 1}-${day}` without padding. It has no contract of its own: `DateKey.DayKeyRoundTrip` and `DateKey.DayKeyInjective` state its properties. |
| `DateKey.NatToStringRoundTrip` | controllers/projectController.js:532-534 | Parsing the decimal rendering of a natural number gives the number back. |
| `DateKey.IntToStringRoundTrip` | controllers/projectController.js:532-534 | Parsing the rendering of an integer, negative years included, gives it back. |
| `DateKey.SplitAtLastDashOf` | controllers/projectController.js:532-534 | Splitting `x-a` at its last dash recovers `x` and `a` when `a` has no dash. |
| `DateKey.DayKeyRoundTrip` | controllers/projectController.js:532-534 | The unpadded `Y-M-D` key of a date parses back to that date. |
| `DateKey.DayKeyInjective` | controllers/projectController.js:532-534 | Two dates share a productivity key exactly when they are the same day. |
| `JsNumber.Div` | controllers/projectController.js:255 | JavaScript division: a finite quotient for a non-zero divisor. Dividing by zero gives `NaN` for `0/0` and an infinity of the dividend's sign otherwise. |
| `JsNumber.Times` | controllers/projectController.js:255 | Scaling by a positive constant keeps a finite number finite and leaves infinities and `NaN` as they are. |
| `JsNumber.Plus` | helpers/projectHelper.js:74-77 | JavaScript addition: finite sums are exact, and `NaN` is absorbing. |
| `JsNumber.OrZero` | controllers/projectController.js:255 | `x \|\| 0` turns `NaN` into 0, keeps every other number (0 stays 0) and never yields `NaN`. |
| `JsNumber.Less` | controllers/projectController.js:669 | JavaScript `<` on numbers. It has no contract of its own: `JsNumber.CompareMeaning`, `LessIrreflexive`, `LessTransitive` and `LessTotal` state its properties. |
| `JsNumber.AtLeast` | controllers/projectController.js:302-304 | JavaScript `>=` on numbers. It has no contract of its own: `JsNumber.CompareMeaning` states its properties. |
| `JsNumber.CompareMeaning` | controllers/projectController.js:302-304 | On finite numbers `<` and `>=` are the real order. A comparison that holds involves no `NaN`. `<` never holds from +Infinity or towards -Infinity. `>=` excludes `<`. |
| `JsNumber.LessIrreflexive` | controllers/projectController.js:669 | `<` on numbers is irreflexive. |
| `JsNumber.LessTransitive` | controllers/projectController.js:669 | `<` on numbers is transitive. |
| `JsNumber.LessTotal` | controllers/projectController.js:669 | `<` is total on numbers other than `NaN`. |
| `Models.CompletedCount` | helpers/projectHelper.js:46-48 | The number of completed tasks is at most the number of tasks. It equals the number of tasks exactly when every task is completed, and it is 0 exactly when none is. |
| `ProjectHelper.MonthsBetween` | helpers/projectHelper.js:1-25 | `calculateDurationInMonths` itself. It has no contract of its own: the lemmas `MonthsBetweenSelf` to `MonthsBetweenNextDay` below state its properties. |
| `ProjectHelper.MonthsBetweenSelf` | helpers/projectHelper.js:11-24 | The duration from a date to itself is 0. |
| `ProjectHelper.MonthsBetweenSameDayOfMonth` | helpers/projectHelper.js:11-22 | With equal days of the month, the duration is exactly `12*(endYear-startYear) + (endMonth-startMonth)`. |
| `ProjectHelper.MonthsBetweenSwapped` | helpers/projectHelper.js:18-22 | `f(a,b) + f(b,a)` is `dayDiff/dim(a) - dayDiff/dim(b)`, where `dim` is the length of the date's month. |
| `ProjectHelper.MonthsBetweenAntisymmetric` | helpers/projectHelper.js:18-22 | `f(a,b) == -f(b,a)` exactly when the two days of the month are equal or the two months have the same length. |
| `ProjectHelper.MonthsBetweenNextDay` | helpers/projectHelper.js:18-22 | With the start fixed, moving the end one day later within its month adds exactly `1/daysInStartMonth`. |
| `ProjectHelper.Payroll` | helpers/projectHelper.js:29-32 | The salary `reduce`, repeated at controllers/projectController.js:287-290. With non-negative salaries the payroll is non-negative. |
| `ProjectHelper.Cost` | helpers/projectHelper.js:34 | `pay * project.duration`, repeated at controllers/projectController.js:292. It is non-negative for a non-negative payroll and duration, and 0 for a zero duration. |
| `ProjectHelper.PercentBounds` | helpers/projectHelper.js:51 | `completed/total*100` is finite and within [0, 100]. It is 100 exactly when all tasks are completed and 0 exactly when none is. |
| `ProjectHelper.TaskCompletionPercentage` | helpers/projectHelper.js:46-51 | The task completion percentage is `NaN` with no tasks. Otherwise it is finite, within [0, 100] and equal to `completed/total*100`. |
| `ProjectHelper.TaskCompletionPercentageExtremes` | helpers/projectHelper.js:46-51 | With at least one task, the percentage is 100 exactly when all tasks are completed and 0 exactly when none is. |
| `ProjectHelper.BehindSchedule` | helpers/projectHelper.js:64-66 | The schedule test `durationPercentage < taskCompletionPercentage`, repeated at controllers/projectController.js:341. It has no contract of its own: `ProjectHelper.BehindScheduleMeaning` states its meaning. |
| `ProjectHelper.BehindScheduleMeaning` | helpers/projectHelper.js:51-66 | A project with no tasks is never behind schedule, because a comparison with `NaN` is false. With a positive duration, "behind" means the remaining share of the duration is below the completed share of the tasks. A project that is behind has less than its whole duration left. |
| `ProjectHelper.CalculateRiskLevel` | helpers/projectHelper.js:27-80 | The function fails exactly when the project is behind schedule, because that branch reads the undeclared `riskObj`. Otherwise it returns half the task completion percentage: `NaN` with no tasks, and a value in [0, 50] otherwise. |
| `ProjectHelper.BudgetNeverAffectsRiskLevel` | helpers/projectHelper.js:36-77 | Two projects that differ only in members and budget get the same result, so the budget risk percentage never reaches the returned value. |
| `ProjectHelper.CalculateRiskLevelThrowsWhenDueToday` | helpers/projectHelper.js:64-72 | A project with a positive duration, at least one task, all tasks completed and its end date today always fails. |
| `NotificationHelper.TodayEnd` | helpers/notificationHelper.js:10-14 | `now` after `setHours(23,59,59,999)` is the last millisecond of today. |
| `NotificationHelper.TaskAlertFor` | helpers/notificationHelper.js:14-46 | The four task outcomes are mutually exclusive. "2 days" fires exactly for `deadline - todayEnd` in (24h, 48h], "1 day" for (0, 24h], and "today" for `todayStart <= deadline <= todayEnd`. Nothing fires before todayStart or more than 48h after todayEnd. |
| `NotificationHelper.NotifyDeadlines` | helpers/notificationHelper.js:5-48 | Each processed task gets exactly its own tier, so at most one e-mail. The sweep aborts exactly when some task needs an e-mail but has no assignee, at the first such task. |
| `NotificationHelper.ProjectAlertFor` | helpers/notificationHelper.js:57-109 | The "7 days" and "30 days" tiers never fire. "1 day" fires exactly when the end date is in (todayEnd, todayEnd+24h]. "today" fires exactly when it is in [todayStart, todayEnd]. Nothing fires outside those ranges. |
| `NotificationHelper.NotifyProjectDeadlines` | helpers/notificationHelper.js:51-111 | Each processed project gets exactly its own tier. The sweep aborts exactly when some project needs an e-mail but has no owner, at the first such project. |
| `NotificationHelper.Swept` | helpers/notificationHelper.js:115-125 | A task is rewritten to backlog exactly when it is overdue and not completed. Otherwise it is unchanged, and no field other than `status` ever changes. |
| `NotificationHelper.SweptAllIdempotent` | helpers/notificationHelper.js:120 | A second sweep with the same `now` changes nothing. |
| `NotificationHelper.SweptAllLeavesNoOverdueOpenTask` | helpers/notificationHelper.js:115-125 | After the sweep, every task with `deadline <= now` is either completed or in backlog. |
| `NotificationHelper.MarkTaskAsBacklog` | helpers/notificationHelper.js:114-126 | The in-place loop leaves the array equal to the sweep of its old contents. |
| `ProjectController.RemoveMember` | controllers/projectController.js:207-209 | The removed id no longer occurs. Every other id keeps its multiplicity. The length drops by the number of occurrences removed. A list without the id is unchanged. |
| `ProjectController.RemoveMemberAppend` | controllers/projectController.js:207-209 | Filtering a concatenation filters each part in place, so the remaining members keep their stored order. |
| `ProjectController.CompletionPercentage` | controllers/projectController.js:251-255 | The percentage is always finite and within [0, 100]. It is 0 with no tasks, through `\|\| 0`, and `completed/total*100` otherwise. |
| `ProjectController.CompletionPercentageExtremes` | controllers/projectController.js:251-255 | The percentage is 100 exactly when there are tasks and all are completed. It is 0 exactly when none is completed. |
| `ProjectController.ImpactOf` | controllers/projectController.js:302-308 | The same tiers recur at controllers/projectController.js:351-357. A flagged risk always gets a tier: low below 30, medium in [30, 60), high otherwise. `NaN` and `+Infinity` fail both comparisons and are high. |
| `ProjectController.BudgetRiskOf` | controllers/projectController.js:287-319 | The budget risk has impact "none" exactly when cost <= budget, and then difference 0 and percentage 0. Otherwise difference = cost - budget > 0 and the impact is tiered. For any non-zero budget, negative included, percentage = difference/budget*100, which is positive when the budget is positive. A zero budget gives +Infinity and "high". |
| `ProjectController.BudgetRiskTiers` | controllers/projectController.js:302-308 | Given budget > 0 and cost > budget: low exactly when cost < 1.3·budget, medium exactly in [1.3·budget, 1.6·budget), high exactly from 1.6·budget. |
| `ProjectController.ScheduleRiskOf` | controllers/projectController.js:322-378 | Time risk is flagged exactly when the project is behind schedule. With no tasks it is "on schedule" with impact "none". When flagged, the difference is `duration - remaining`. For a non-zero duration the percentage is that difference over the duration, times 100. For a zero duration it is +Infinity and the impact is high. |
| `ProjectController.ScheduleRiskTiers` | controllers/projectController.js:341-378 | For a project behind schedule: low exactly when more than 70% of the duration remains, medium exactly for (40%, 70%], high exactly for at most 40%. |
| `ProjectController.RiskReport` | controllers/projectController.js:284-377 | The report has exactly two entries, budget then time. |
| `ProjectController.BudgetRiskExample` | controllers/projectController.js:287-319 | Budget 1000 with payroll 600 over 2 months gives difference 200, percentage 20 and impact low. |
| `ProjectController.ScanForHighestRisk` | controllers/projectController.js:665-673 | The `forEach` scan with the imported binding as a parameter. With an undefined binding, it fails exactly when some project is still to be visited. With a defined binding, it never fails. A newly chosen project is one of those visited. |
| `ProjectController.HighestRiskAsWired` | controllers/projectController.js:665-673 | The scan with the binding left undefined by the unexported import of controllers/projectController.js:3. It fails exactly when there is at least one project. With no projects it answers no project and level 0. |
| `ProjectController.ScanAgrees` | controllers/projectController.js:665-673 | With a defined binding, the handler's scan succeeds with the running maximum of the levels the binding gives, project by project. |
| `ProjectController.MaxSoFarStep` | controllers/projectController.js:669-672 | One visit of the scan keeps the running-maximum facts, whether or not the visited level beats the current maximum. |
| `ProjectController.HighestRiskAsWiredFailsOnAnyProject` | controllers/projectController.js:668 | A single project already makes the handler fail. |
| `ProjectController.ProjectRiskLevelMeaning` | helpers/projectHelper.js:64-79 | The intended risk level agrees with `calculateRiskLevel` whenever the latter succeeds. It is `NaN` with no tasks. When the project is behind schedule, it exceeds half the completion percentage. |
| `ProjectController.HighestRiskProject` | controllers/projectController.js:665-673 | The chosen project is the first one whose level is strictly greater than every earlier level and than 0. `highestRiskLevel` is >= 0 and not below any project's level. Nothing is chosen exactly when no level exceeds 0, and the result is then 0. The result equals what the handler's own scan gives with the corrected level as its binding. |
| `ProjectController.StatusCountsPartition` | controllers/projectController.js:406-427 | The four status counts sum to the number of tasks. |
| `ProjectController.StatusCountCompleted` | controllers/projectController.js:412-427 | The "completed" counter equals the completed-task count used by the percentages. |
| `ProjectController.GetProjectTaskStatus` | controllers/projectController.js:406-427 | The switch loop returns the count of each status, and `pending + completed + backlogs + idle == tasks.length`. |
| `ProjectController.CompletionKeysLength` | controllers/projectController.js:529-534 | One day key is produced per task with a non-null `completedOn`. |
| `ProjectController.CompletionKeysCount` | controllers/projectController.js:529-534 | A date's key occurs exactly as often as tasks were completed on that day. |
| `ProjectController.Add` | controllers/projectController.js:535-539 | Incrementing a key keeps the counter well formed: every listed key is counted, every counted key is listed, and no key is listed twice. It adds the key to the key set and nothing else. |
| `ProjectController.Tally` | controllers/projectController.js:528-541 | The tally is well formed and its keys are exactly the keys seen. |
| `ProjectController.TallyCounts` | controllers/projectController.js:528-541 | Each key's count is its number of occurrences. |
| `ProjectController.TallySum` | controllers/projectController.js:528-550 | The histogram values sum to the number of keys tallied. |
| `ProjectController.TallyOrder` | controllers/projectController.js:528-550 | Keys are listed in order of first occurrence. |
| `ProjectController.Entries` | controllers/projectController.js:543-550 | There is one `{date, value}` entry per listed key, in listing order. |
| `ProjectController.ProductivityDataShape` | controllers/projectController.js:528-550 | Every entry has value >= 1. Dates are pairwise distinct. Each entry's date is the key of some completed task, and its value is that key's number of occurrences. |
| `ProjectController.ProductivityDataSum` | controllers/projectController.js:528-550 | The values sum to the number of tasks with a non-null `completedOn`. |
| `ProjectController.ProductivityDataDays` | controllers/projectController.js:528-550 | A day has an entry exactly when some task was completed on it, and that entry's value is the number of such tasks. |
| `ProjectController.ProductivityDataOrder` | controllers/projectController.js:528-550 | Entries appear in order of the first task completed on their day. |
| `ProjectController.CountCompletion` | controllers/projectController.js:535-539 | One `forEach` step on the `productivity` object is exactly one increment of the counter. |
| `ProjectController.TallyCompletions` | controllers/projectController.js:528-541 | The `forEach` loop builds exactly the tally of the tasks' day keys, in insertion order. |
| `ProjectController.GetProjectProductivity` | controllers/projectController.js:528-550 | The handler computation returns exactly the productivity histogram specified above. |
| `ProjectController.ProjectStatusPartition` | controllers/projectController.js:621-628 | Active, inactive and completed counts plus projects with any other status sum to the number of projects. |
| `ProjectController.GetProjectStatusCount` | controllers/projectController.js:621-645 | There are exactly three entries: Active, Inactive and Completed, in that order, each with its status count. Their values sum to the number of projects when every status is one of the three. |

## Left out

- HTTP handling (`req`/`res`, status codes), every Mongoose `find`/`findById`/`populate`/`save`/`deleteOne`, `sendEmail` and `console.log`. Records arrive loaded and populated, and an e-mail is an output label.
- The current time (`new Date()`) is left out: `today` (a calendar day) and `todayStart` (epoch milliseconds of local midnight) are parameters. Time zones, DST and JavaScript's parsing of `"Y-M-D"` strings are not modelled. A date is its local calendar fields, and an instant carries both its epoch milliseconds and its local day.
- `toFixed(2)` rounding and the string results it produces are not modelled. The budget and schedule tiers compare a `toFixed` string with a number literal, which JavaScript converts to a number, so the model compares the unrounded numbers there. The running maximum compares two strings; see the `ProjectController.HighestRiskProject` line below.
- IEEE-754 rounding is not modelled: finite numbers are exact reals. `NaN` and the infinities are kept where the code relies on them.
- Risk description strings and the response messages.
- models/project.js is not part of this model. The project status is therefore the three values the histogram knows plus any other value (`Unlisted`).
- The asynchronous `members.forEach(async ...)` loops in `createProject` and `updateProject` (controllers/projectController.js:38-50,137-163), because their only effect is fire-and-forget database interleaving.
- jobs/NotificationJob.js: cron scheduling only, and as wired it never runs a notifier. jobs/NotificationJob.js:2 binds the whole exported object of helpers/notificationHelper.js, so the call at jobs/NotificationJob.js:7 throws a `TypeError` on every tick. `notifyProjectDeadlines` and `markTaskAsBacklog` are never scheduled, and app.js never loads the job. The model states what each notifier and the sweep do when called.
- controllers/userController.js, controllers/taskController.js, controllers/notificationController.js, the route files, app.js and utils/Logger.js: database and mail I/O, and field merges with no logic of their own.
- `getTotalSumInvested`, `getTotalTasksPendingForToday`, `getPendingProjectDuration`, `getTeam` and `getAllProjects` are left out: they are lookups and one-line reductions outside the analytics core.
- No notification log or severity deduplication: the code only sends e-mail.
- `ProjectController.HighestRiskProject`: besides exporting `calculateRiskLevel` and declaring `riskObj`, the corrected scan makes two more corrections. First, it compares risk levels as numbers. `calculateRiskLevel` returns a `toFixed` string, so once `highestRiskLevel` holds one, `riskLevel > highestRiskLevel` (controllers/projectController.js:669) compares two strings character by character: `"9.00" > "25.00"` and `"NaN" > "25.00"` both hold. Second, it reads each project's tasks as populated. `Project.find({})` at controllers/projectController.js:662 does not populate them, so `task.status` would be undefined at helpers/projectHelper.js:47 and the completion percentage would be 0, or `NaN` without tasks.
- `ProjectController.ProjectRiskLevel`: the intended risk level adds a number to the `toFixed` string of the schedule risk percentage. That would be string concatenation in JavaScript. The model adds the numbers instead, and states only bounds and agreement with `calculateRiskLevel`.

## Findings

| source | as written | input that shows it | evidently intended | confidence | as-written member | corrected member |
|---|---|---|---|---|---|---|
| helpers/projectHelper.js:66-72 | The behind-schedule branch reads `riskObj.difference`, but `riskObj` is never declared. So `calculateRiskLevel` throws a `ReferenceError` whenever `durationPercentage < taskCompletionPercentage`. | Any project with a positive duration whose tasks are all completed and whose end date is today: the remaining duration is 0 and completion is 100%. | The schedule risk is the local `difference` over the duration, times 100, averaged with the completion percentage. | high (not executed) | `ProjectHelper.CalculateRiskLevel`, `ProjectHelper.CalculateRiskLevelThrowsWhenDueToday` | `ProjectController.ProjectRiskLevel`, `ProjectController.ProjectRiskLevelMeaning` |
| helpers/projectHelper.js:82 | Only `calculateDurationInMonths` is exported, so the `calculateRiskLevel` destructured at controllers/projectController.js:3 is `undefined`. Calling it throws a `TypeError`. | Any database holding at least one project. | The handler scans all projects with a working risk level and keeps the first strict maximum above 0. That also needs two more corrections: the levels compared as numbers rather than as `toFixed` strings (controllers/projectController.js:669), and the projects' tasks populated (controllers/projectController.js:662). | high (not executed) | `ProjectController.HighestRiskAsWired`, `ProjectController.HighestRiskAsWiredFailsOnAnyProject` | `ProjectController.HighestRiskProject` |
