# Task-submission tracker: a Dafny model

This project models the in-memory engine of the employee task tracker served
by `server.js`. Employees post the status of a task to `/submit`. The server
keeps every submission in one list. Starting from a list with at most one
record per (employeeId, task) key, it never creates a second one. A
`Completed` record is final. An `Attempted`
record may only move on to some other status; a second `Attempted` is
refused. A key without a record gets a new record, appended with a timestamp.
Reads fold that list into two views: a per-employee summary (counts of
`Completed` and `Attempted` records, with the name from the employee's first
record) and, for one employee, a task-to-status index in which later records
overwrite earlier ones. A separate employee table accepts new ids through
`/add-employee` and refuses ids it already holds.

The server keeps the employee table, the summary and the index in plain
JavaScript objects. Looking up a property name that every object inherits
from `Object.prototype` (`toString`, `constructor`, `__proto__` and the
others listed in `Records.ObjectPrototypeKeys`) finds the inherited member.
The model keeps these effects:

- `/add-employee` refuses such an id as already present.
- `/employee/:id` answers such an id with no name, departments or tasks.
- The summary makes no entry for such an employee id.
- The index drops a task named `__proto__`, because assigning a string to
  that property is ignored.

Layout:

- `records.dfy` (module `Records`): statuses, requests, records, employees,
  the first-match search and the unique-key predicate.
- `submit.dfy` (module `SubmitRules`): the verdict and the resulting list of
  `/submit`, replay of a run of requests, and the lemmas about them.
- `summary.dfy` (module `EmployeeSummary`): the summary fold and its
  characterisation by counting.
- `task_status.dfy` (module `TaskIndex`): the task-status index and its
  characterisation by the last record of each task.
- `server.dfy` (module `Server`): class `Tracker`, holding `submissions` and
  `employees`, with the request handlers as methods proved against the
  functions above.

A status is `Attempted`, `Completed` or `Other(text)`, because the handler
accepts any string. The string "Completed" decodes to `Completed`,
"Attempted" to `Attempted`, and any other string to `Other`
(`Records.ParseStatus`). The clock is a parameter: `Submit` takes the timestamp
of a new record as an argument.

Behaviour of the code that the model keeps as written:

- An in-place update changes only `status`. The record keeps its
  original timestamp, name and department (server.js:133-134).
- `/submit` does not check that the employee exists or that the task belongs to
  them, and neither does the model.
- The summary counts every record as it is stored. It does not deduplicate
  by (employeeId, task).

## Model

| member | source | states |
|---|---|---|
| `Records.FirstMatch` | server.js:117-119 | the result is the index of a record of the key with no record of the key before it, and it is absent exactly when no record has the key |
| `Records.NewRecord` | server.js:136 | the appended record has the request's key and status and the given timestamp |
| `Records.ParseStatus` | server.js:115 | a decoded status never holds "Completed" or "Attempted" as `Other` |
| `Records.StatusRoundTrip` | server.js:115 | decoding a stored string and storing it again gives the same string, and the reverse holds for every decoded status |
| `SubmitRules.Verdict` | server.js:117-131 | the request is refused as already completed iff the key's first record is Completed, and refused as needing completion iff that record is Attempted and the request is Attempted too |
| `SubmitRules.AfterSubmit` | server.js:133-137 | a refused request leaves the list unchanged; the list grows by at most one record; no existing record changes its key |
| `SubmitRules.Replay` | server.js:114-141 | a run of submits only appends, at most one record per request, and never changes the key of a stored record; characterised further by `ReplayKeepsKeysUnique` and `CompletedIsFinal` |
| `SubmitRules.SubmitKeepsStatusesDecoded` | server.js:115-136 | when every stored status and the request's status come from decoding a string, so do all statuses after the submit |
| `SubmitRules.CompletedRejectsResubmit` | server.js:121-125 | a Completed first record refuses every new status for its key and the list stays the same |
| `SubmitRules.AttemptedTwiceRejected` | server.js:127-131 | an Attempted first record refuses a second Attempted and the list stays the same |
| `SubmitRules.AcceptedUpdatesInPlace` | server.js:133-134 | an accepted request for a key that has a record keeps the list length, sets only that record's status and leaves every other record as it was |
| `SubmitRules.UnmatchedAppends` | server.js:135-136 | a request whose key has no record is accepted and appends exactly one record with its fields at the end |
| `SubmitRules.SubmitKeepsKeysUnique` | server.js:117-137 | if no two records share a key before a submit, none do after it, accepted or refused |
| `SubmitRules.ReplayKeepsKeysUnique` | server.js:114-141 | keys stay unique over any run of submits |
| `SubmitRules.SubmitKeepsCompleted` | server.js:121-136 | a submit for any key leaves a Completed first record in place and still first for its key |
| `SubmitRules.CompletedIsFinal` | server.js:121-136 | Completed is absorbing: over any run of submits, a Completed first record stays unchanged at its index |
| `SubmitRules.AttemptedThenCompletedScenario` | server.js:117-137 | for employee E1 and task 11, Attempted is recorded, a second Attempted is refused, Completed is then recorded in place, and a second Completed is refused |
| `EmployeeSummary.Tally` | server.js:162-163 | a Completed record adds one to the entry's Completed count and an Attempted record one to its Attempted count; each count grows only for its own status, and id and name stay |
| `EmployeeSummary.Summarize` | server.js:150-164 | every entry is keyed by its own employee id, never by an inherited object member; characterised by `SummaryCountsRecords` |
| `EmployeeSummary.SummaryCountsRecords` | server.js:150-164 | the summary has an entry exactly for the ids that have records and do not name an inherited object member; each entry's counts are the numbers of that id's Completed and Attempted records, and its name is the name on the id's first record |
| `EmployeeSummary.OtherStatusCountsForNeither` | server.js:152-163 | a record of any other status changes no existing entry; it adds an empty entry for its id only when the id is new and not an inherited object member |
| `TaskIndex.TaskStatus` | server.js:87-92 | the index never holds the task `__proto__`; characterised by `TaskStatusIsLastRecord` |
| `TaskIndex.TaskStatusIsLastRecord` | server.js:87-92 | the index holds exactly the tasks other than `__proto__` that the employee has records for, each with the status of its last record |
| `TaskIndex.TaskStatusAgreesWithFirstMatch` | server.js:88-92 | while keys are unique, the index holds a task other than `__proto__` exactly when `/submit` finds a record for it, and shows that record's status |
| `Server.Tracker.constructor` | server.js:11-13 | the tracker starts from the loaded employee table and submissions list |
| `Server.Tracker.Find` | server.js:117-119 | the loop finds the key's first record, as `FirstMatch` specifies |
| `Server.Tracker.Submit` | server.js:114-141 | the answer is `Verdict` and the new list `AfterSubmit` of the old list; a refusal changes nothing; unique keys stay unique |
| `Server.Tracker.SummaryByEmployee` | server.js:149-167 | the single pass builds exactly `Summarize` of the submissions |
| `Server.Tracker.EmployeeDetails` | server.js:82-95 | the employee's own entry; for an absent id, no fields when the id names an inherited object member and the empty entry otherwise; and exactly the `TaskStatus` index of the submissions |
| `Server.Tracker.AddEmployee` | server.js:44-52 | an id already in the table or naming an inherited object member is refused and the table is unchanged; otherwise exactly that id is added with the given entry |

## Left out

- HTTP routing, status codes, response messages and `app.listen` (server.js:1-9, 203). Each handler's answer is its method's result.
- File persistence (server.js:36-41, 55-60, 77-79, 139): reading and writing `submissions.json` and `adhoc-employees.json`. The loaded state is the constructor's argument.
- CSV loading and the `/upload-adhoc-csv` handler (server.js:19-32, 169-200): they depend on a streaming parser library and on file uploads.
- The clock (server.js:136): `new Date().toISOString()` becomes the `timestamp` argument of `Submit`.
- The second `/add-employee` handler (server.js:101-110): the first registration handles every request to that route, so this one never runs.
- `GET /submissions` and `GET /all-employees` (server.js:97-99, 144-146): they return the state as it is.
- Server.Tracker.SummaryByEmployee: returns a map, not the ordered list of the source. `Object.values` lists integer-like ids first, in numeric order, and then the others in insertion order; that order is not modelled.
- JavaScript's loose typing: ids, tasks and names are strings, and a request field that is missing is not modelled. A status is one of the three constructors. A status stored as the string "Completed" is `Completed`, "Attempted" is `Attempted`, and any other string is `Other`. A value such as `Other("Completed")` can be written in Dafny, but no stored string decodes to it. The lemmas range over all statuses, a superset of the reachable ones; `SubmitKeepsStatusesDecoded` shows that submits starting from decoded statuses never leave that set.
- Server.Tracker.AddEmployee: treats every own entry of the table as taken, together with the inherited member names. The source tests `employeeData[id]` for truthiness, so an entry loaded as a falsy JSON value would let the id be registered again. That case is not modelled.
- Server.Tracker.SummaryByEmployee: for an employee id naming an inherited member, the source's `++` writes an enumerable `Completed` or `Attempted` property holding `NaN` onto that shared member, for example onto `Object.prototype` for `__proto__`. That side effect outlives the request and is not modelled. It also shows up in later `/employee/<that id>` answers: `{ ...data, taskStatus }` (server.js:94) copies the property, while `EmployeeDetails` still returns no fields for that id. The summary itself, which has no entry for that id, is modelled.
- Server.Tracker.EmployeeDetails: an own entry loaded as a falsy JSON value is served by the source as the empty entry (server.js:84). The model's table holds only `Employee` values, so it returns that entry unchanged.
- Server.Tracker.constructor: a loaded table whose id is `__proto__` would replace the table object's prototype in the source. The model stores it as an ordinary entry. The model also assumes loading has finished before the first request. In the source, `preloadAllEmployees()` is not awaited (server.js:73) and `app.listen` (server.js:203) starts serving at once. Early requests can therefore see a partly loaded table, and the unguarded `employeeData[row.id] = …` (server.js:24) can overwrite an id that `/add-employee` has just accepted.
- Concurrency: the server handles one request at a time, and each method runs to completion.
- The browser scripts (`submission.js`, `public/*.js`): they handle forms and page updates and contain none of the tracker's rules.
