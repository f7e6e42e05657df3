# Classroom attendance backend: session lifecycle and frame ingestion

This project models the Node backend of a classroom attendance and
engagement system in Dafny. A time-boxed *session* gates incoming
observations. Batches of face detections and engagement readings become
attendance and engagement rows. Course sessions are numbered per course and
summarised when they close. Reports count who was present and how engaged
they were.

Modules, one per source file:

| module | file | form |
|---|---|---|
| `SessionStore` | `session_store.dfy` | the process-wide session record as a class `Store`, with lazy expiry as the pure function `Expire` |
| `SessionRoutes` | `session_routes.dfy` | `/status`, `/start` and `/stop`: pure computations plus methods over the store |
| `AiRoutes` | `ai_routes.dfy` | `/process-frame`: the closure state of a batch as the class `FrameBatch`; the two `forEach` loops and the completion callbacks as loops. Also `/engagement` |
| `Db` | `db.dfy` | the tables as sequence fields of the class `Database`; the row writers, course-session numbering and finalisation, and `ensureColumn` |
| `AttendanceRoutes` | `attendance_routes.dfy` | `POST /`, and `POST /bulk` as a loop over the completion order |
| `Reports` | `reports.dfy` | `/daily`, `/summary` and `/student/:id` as pure functions over query rows |
| `Common` | `common.dfy` | shared values: JavaScript null/falsy as `Option`, sums and means over reals, and counting over a completion order |

Modelling conventions:
- The clock is a parameter. `now` is in milliseconds; `today` and `clock` are
  the default date and time a route would read from `Date`.
- Dates are integers, ordered as the ISO `yyyy-mm-dd` strings the backend
  stores compare.
- JavaScript's `x || null` and `if (!x)` on ids become `Option<int>`. An id is
  truthy when it is present and not 0.
- A persistence call's own failure is a parameter (`fault`, or one
  `Outcome` per call).
- Node runs callbacks one at a time, so a fan-out's completion order is a
  parameter `order`: a rearrangement of the call indices. Every
  order-independent claim is proved for all such orders.

Behaviours of the code that the model keeps:
- A session expires only once `now > endTime` (`backend/sessionStore.js:13`).
  At the end time itself it is still active (`SessionStore.ActiveAtEndTime`).
- `/start` calls `startSession(minutes)` with no metadata
  (`backend/routes/session.js:22`). A session started through the route
  therefore has every course field null (`SessionRoutes.StartThenStatus`).
- The `/status` reply holds only `success: true`, `isActive`,
  `remainingSeconds` and `duration` (`backend/routes/session.js:10-15`).

## Model

| member | source | states |
|---|---|---|
| SessionStore.Initial | backend/sessionStore.js:1-8 | the initial record is inactive, with a null end time, duration 0 and every course field null |
| SessionStore.Expire | backend/sessionStore.js:13-16 | after a read at `now`, the session is active iff it was active and `now` is not strictly past its end time (a null end time compares as 0); expiry clears only `isActive` and `endTime`, keeps duration and the course fields, and leaves an inactive record untouched |
| SessionStore.Started | backend/sessionStore.js:19-26 | `startSession(m, meta)` gives an active record with duration `m`, end time `now + m*60000`, and each course field equal to its metadata value, or null when that value is falsy, whatever the prior record |
| SessionStore.OperationsKeepWellFormed | backend/sessionStore.js:11-34 | expiry, start and stop all keep "active exactly while an end time is set" |
| SessionStore.ExpireIdempotent | backend/sessionStore.js:11-18 | a second `getState` at the same instant returns the same record and changes nothing |
| SessionStore.ActiveAtEndTime | backend/sessionStore.js:13 | at its end time a session is still active; one millisecond later a read expires it |
| SessionStore.ObservedActive | backend/sessionStore.js:13-16 | across any sequence of reads, the i-th sees the session active iff it started active and no read up to the i-th came after the end time, so once expired it stays inactive until the next start |
| SessionStore.Store.constructor | backend/sessionStore.js:1-8 | the store starts as `Initial()` |
| SessionStore.Store.GetState | backend/sessionStore.js:11-18 | the new state is `Expire(old state, now)` and the returned snapshot is that state |
| SessionStore.Store.StartSession | backend/sessionStore.js:19-26 | the new state is `Started(now, m, meta)` |
| SessionStore.Store.StopSession | backend/sessionStore.js:27-34 | the new state is `Initial()` whatever the prior state, so stopping twice equals stopping once |
| SessionRoutes.CeilDiv | backend/routes/session.js:8 | `Math.ceil(a / b)`: the least `q` with `q*b >= a` |
| SessionRoutes.RemainingSeconds | backend/routes/session.js:8 | 0 when inactive or past the end; otherwise the least whole number of seconds covering the milliseconds left; never negative |
| SessionRoutes.StartMinutes | backend/routes/session.js:20 | `parseInt(duration) \|\| 10`: the parsed value when it is a non-zero number, otherwise 10; never 0 |
| SessionRoutes.Status | backend/routes/session.js:6-16 | `/status` expires the store through `getState` at the first clock read and reports the resulting `isActive` and duration, with `RemainingSeconds` at the second clock read |
| SessionRoutes.Start | backend/routes/session.js:18-30 | `/start` leaves `Started(now, StartMinutes(duration), no metadata)` and replies active with those minutes |
| SessionRoutes.Stop | backend/routes/session.js:32-40 | `/stop` leaves the initial record and replies inactive |
| SessionRoutes.StartThenStatus | backend/routes/session.js:6-30 | right after `/start` with `m > 0` minutes, `/status` at the same instant reports active with exactly `m*60` seconds left and no course; a negative `m` is already expired |
| SessionRoutes.RemainingShrinks | backend/routes/session.js:8 | for a started session, the remaining seconds never exceed the duration and do not grow as time passes |
| Db.Flag | backend/db.js:274 | a boolean is stored as 1 when true and 0 when false |
| Db.MaxOf | backend/db.js:312 | `MAX(...)` is null iff there are no values, and otherwise one of the values and no smaller than any |
| Db.NextSessionNumber | backend/db.js:312-318 | the next number is one past the largest number of that course (it exceeds every one, and one less is among them), and 1 for a course with no sessions |
| Db.NumberingAdvances | backend/db.js:310-331 | if every course's sessions are numbered 1..k, inserting one numbered `NextSessionNumber` gives it k+1, keeps 1..k+1, and leaves every other course's numbering unchanged |
| Db.StudentsOf | backend/db.js:337 | the distinct students are exactly the students of the attendance rows of that course session |
| Db.AttendanceRowsFiltered | backend/db.js:337 | the rows counted are exactly those `WHERE course_session_id = csid` |
| Db.ScoresOfFiltered | backend/db.js:343 | the scores averaged are those of the engagement rows `WHERE course_session_id = csid`, in table order, one per row |
| Db.DistinctStudentsBound | backend/db.js:337 | the distinct-student count never exceeds the course session's attendance rows and is 0 exactly when there are none |
| Db.AverageEngagementBounds | backend/db.js:343-351 | the stored average is 0 with no scores and otherwise lies within any bounds kept by every score of that course session (scores of other sessions are unconstrained) |
| Db.FinalizeEmpty | backend/db.js:335-362 | finalising a course session with no rows stores zero students and a zero average |
| Db.WithSummary | backend/db.js:353-356 | the update sets end time, total and average on the rows with that id and leaves every other row unchanged |
| Db.WithSummaryKeepsNumbers | backend/db.js:353-356 | the update changes no row id and no course's session numbering |
| Db.WithColumn | backend/db.js:30-43 | a missing column is appended to its table's columns, with its definition; a present one leaves the table as it was; no other table changes and no table is created |
| Db.WithColumnIdempotent | backend/db.js:30-43 | applying the migration twice leaves the schema as applying it once |
| Db.WithColumnKeepsPresent | backend/db.js:30-34 | a column already present is neither added again nor redefined |
| Db.Database.RecordAttendance | backend/db.js:230-242 | on success, exactly one row is appended with the next id and falsy course ids stored as null, and the ack carries those values; a failure appends nothing |
| Db.Database.RecordEngagement | backend/db.js:270-283 | on success, exactly one row is appended with the booleans stored as 1/0 and falsy course ids as null; a failure appends nothing |
| Db.Database.InsertCourseSession | backend/db.js:319-329 | the insert appends the row with the next id and keeps every table invariant, including the per-course numbering |
| Db.Database.CreateCourseSession | backend/db.js:310-332 | a failed max-query or insert writes nothing; otherwise one open row is appended, numbered one past the course's count, advancing that course's numbering and leaving the others unchanged |
| Db.Database.FinalizeCourseSession | backend/db.js:335-362 | any failed query aborts with no update; otherwise the row with that id gets the end time, the distinct-student count and the mean score (0 with none) |
| Db.Database.EnsureColumn | backend/db.js:22-45 | succeeds iff the column already exists, or the table exists and the `ALTER` succeeds; the schema afterwards is `WithColumn` of the old one on success and unchanged on failure |
| AiRoutes.GateOf | backend/routes/ai.js:16-19 | the batch gate is the snapshot's `isActive`, and each course id `\|\| null`: kept when truthy, null otherwise |
| AiRoutes.AttendanceCallOf | backend/routes/ai.js:42 | the attendance call carries the detection's student id, the batch date and time, and the gate's course ids |
| AiRoutes.EngagementCallOf | backend/routes/ai.js:57-66 | the engagement call carries the entry's student id, its score (0 when absent), eyes open and facing the camera unless explicitly false, the batch date and time, and the gate's course ids |
| AiRoutes.DetectionCalls | backend/routes/ai.js:39-52 | an inactive snapshot dispatches no attendance call, and there is at most one call per detection |
| AiRoutes.EngagementCalls | backend/routes/ai.js:54-79 | the same for engagement entries |
| AiRoutes.DetectionCallsFiltered | backend/routes/ai.js:39-52 | under an active snapshot the attendance calls are, in order, one per detection with a truthy student id (so their number is that of the kept detections); under an inactive one there are none |
| AiRoutes.EngagementCallsFiltered | backend/routes/ai.js:54-79 | the same for engagement entries and engagement calls |
| AiRoutes.Dispatched | backend/routes/ai.js:21-79 | a rejected batch or an inactive snapshot dispatches nothing; otherwise at most one call per entry |
| AiRoutes.DetectionDispatchedIff | backend/routes/ai.js:41-51 | a call is dispatched for a detection iff the snapshot is active and the detection's student id is truthy |
| AiRoutes.EngagementDispatchedIff | backend/routes/ai.js:57-78 | an engagement call, with its defaults applied, is dispatched iff the snapshot is active and the entry's student id is truthy |
| AiRoutes.OneSnapshotGatesBatch | backend/routes/ai.js:16-19 | every call of a batch carries a truthy student id, the batch date and time, and the course ids of the one snapshot taken; an inactive snapshot dispatches nothing |
| AiRoutes.OutcomesPartition | backend/routes/ai.js:43-45 | each completed call lands in exactly one of the attendance, engagement and error lists |
| AiRoutes.TalliesAddUp | backend/routes/ai.js:39-96 | the response counts add up to the number of dispatched calls, which is at most the number of entries, and are all 0 for an inactive snapshot |
| AiRoutes.FrameBatch.constructor | backend/routes/ai.js:31-33 | a batch starts with `processed` 0 and empty lists |
| AiRoutes.FrameBatch.SendIfDone | backend/routes/ai.js:82 | a response with the current lists is sent iff `processed == total` |
| AiRoutes.FrameBatch.Skip | backend/routes/ai.js:48-51 | a skip bumps `processed` by one and responds iff that reaches `total` |
| AiRoutes.FrameBatch.Visit | backend/routes/ai.js:41-51 | one `forEach` callback before anything completed: a call to dispatch is handed on and leaves the counter alone; anything else is a skip that bumps it, responding with all counts 0 iff that reaches `total` |
| AiRoutes.FrameBatch.Complete | backend/routes/ai.js:42-47 | a completion bumps `processed` by one, pushes the ack or the error to exactly one list, and responds iff that reaches `total` |
| AiRoutes.WalkDetections | backend/routes/ai.js:39-52 | the detections loop dispatches exactly `DetectionCalls` and counts each skip; a response it sends has all counts 0 |
| AiRoutes.WalkEngagement | backend/routes/ai.js:54-79 | the engagement loop dispatches exactly `EngagementCalls` and counts each skip |
| AiRoutes.CompleteAll | backend/routes/ai.js:42-47 | whatever order the callbacks run in, each list's length is the number of calls with that outcome, and the last callback responds iff the counter reaches `total` |
| AiRoutes.TotalAsWritten | backend/routes/ai.js:33 | `total` as written is the number of entries walked plus the `length` of a non-array `engagement_data` |
| AiRoutes.EmissionsAsWritten | backend/routes/ai.js:33-83 | the handler as written responds at most twice: never iff `total` exceeds what the loops walk, and twice iff there is no engagement array, `total` is reached, and nothing was dispatched |
| AiRoutes.ServeDetectionsAsWritten | backend/routes/ai.js:39-83 | with no engagement array, a batch as written dispatches exactly `DetectionCalls` and responds once when all detections are counted and once more when the skips alone reach `total`; every response tallies the outcomes |
| AiRoutes.ServeAsWritten | backend/routes/ai.js:39-96 | a valid non-empty batch as written dispatches exactly `Dispatched` and sends exactly `EmissionsAsWritten` responses, each tallying the outcomes |
| AiRoutes.RunBatchAsWritten | backend/routes/ai.js:21-96 | the handler as written: a 400 iff `detections` is not an array, "No data" iff its `total` is 0, and otherwise exactly `EmissionsAsWritten` responses, each tallying the outcomes |
| AiRoutes.DoubleResponseWhenAllSkipped | backend/routes/ai.js:48-83 | with no engagement data, a non-empty batch as written is answered twice iff every detection is skipped, and once otherwise |
| AiRoutes.DoubleResponseExample | backend/routes/ai.js:48-83 | one detection without a student id and no engagement data draws two responses |
| AiRoutes.NoResponseForNonArrayEngagement | backend/routes/ai.js:33-83 | a non-array `engagement_data` with positive `length` makes `total` unreachable, so the handler as written never responds |
| AiRoutes.Total | backend/routes/ai.js:33 | the corrected `total`: the detections plus the entries of an engagement array, nothing for any other `engagement_data` |
| AiRoutes.ServeBatch | backend/routes/ai.js:39-79 | walking both lists and then completing every call sends exactly one response, and that response tallies the outcomes of all dispatched calls |
| AiRoutes.RunBatch | backend/routes/ai.js:21-96 | the corrected handler: every non-empty valid batch gets exactly one response, whose counts are the numbers of stored attendance calls, stored engagement calls and failures |
| AiRoutes.ProcessFrame | backend/routes/ai.js:7-97 | `/process-frame` as written expires the store before validating, even for a rejected batch, gates the batch on that one snapshot, and sends exactly `EmissionsAsWritten` responses, each tallying the outcomes |
| AiRoutes.ProcessFrameCorrected | backend/routes/ai.js:7-97 | the same route with the corrected handler: the same expiry and gating, and exactly one response for every valid non-empty batch |
| AiRoutes.PostEngagement | backend/routes/ai.js:99-148 | a 400 iff the student id is falsy or the score is null/absent, with nothing read or written; otherwise the store is read (maybe expiring it) and one row is recorded regardless of `isActive`, tagged with the store's course ids |
| AttendanceRoutes.PostAttendance | backend/routes/attendance.js:6-33 | a 400 iff the student id is falsy, with nothing written; otherwise one row with the defaulted date and time and no course, or the insert's error |
| AttendanceRoutes.AcksIn | backend/routes/attendance.js:101-108 | the results list has one ack, with no course ids, per successful insert |
| AttendanceRoutes.ErrorsIn | backend/routes/attendance.js:101-108 | the errors list has one entry per failed insert |
| AttendanceRoutes.RunCallbacks | backend/routes/attendance.js:101-126 | whatever order the callbacks run in, exactly one verdict is sent, by the callback that brings the count to the number of ids, built from the acks and errors in completion order |
| AttendanceRoutes.Verdict | backend/routes/attendance.js:111-125 | the final reply is a 500 carrying the errors iff there are errors and no results; otherwise a 201 with both counts and the results, the errors included iff there are some |
| AttendanceRoutes.VerdictCounts | backend/routes/attendance.js:110-125 | in any completion order: a 500 carrying every error iff no insert succeeded; otherwise a 201 with `recorded` = successes and `failed` = the rest, errors omitted iff none failed |
| AttendanceRoutes.BulkAttendance | backend/routes/attendance.js:84-129 | a 400 iff `student_ids` is missing, not an array or empty, with no call; otherwise one call per id, and the last callback sends exactly one verdict, as `VerdictCounts` states |
| Reports.NonZero | backend/routes/reports.js:20-22 | a null or zero aggregate is reported as null; any other value is kept |
| Reports.FormatRow | backend/routes/reports.js:15-23 | a student is present iff the attendance count is present and positive (missing counts as 0); the engagement fields are null exactly when null or 0 |
| Reports.Rate | backend/routes/reports.js:39 | the attendance rate is 0 with no students, otherwise between 0 and 100; 100 when all are present |
| Reports.Daily | backend/routes/reports.js:6-45 | total is the number of rows; present is the number of present lines and absent the rest (never negative); the rate bounds; the average is the mean of the non-null line averages, 0 when there is none |
| Reports.SummaryOf | backend/routes/reports.js:134-163 | the same counts over raw rows; `students_tracked_engagement` is the number of rows with a non-null average, and the average their mean, 0 when there is none |
| Common.Filter | backend/routes/reports.js:26-27 | `filter` keeps, in order, exactly the elements that pass the test, each as many times as it occurs |
| Reports.PresentCountFiltered | backend/routes/reports.js:26 | `/daily`'s present count is the length of `filter(s => s.present)` |
| Reports.EngagedAveragesFiltered | backend/routes/reports.js:27 | `/daily` averages the values of the lines `filter(s => s.avg_engagement !== null)` keeps, one per line, in order |
| Reports.PresentRowsFiltered | backend/routes/reports.js:144 | `/summary`'s present count is the length of its `filter` on raw rows |
| Reports.TrackedAveragesFiltered | backend/routes/reports.js:145 | `/summary` averages the values of the rows its `withEng` filter keeps, one per row, in order |
| Reports.PresentCountsAgree | backend/routes/reports.js:134-148 | `/summary`'s present count over raw rows equals `/daily`'s over formatted rows |
| Reports.TrackedSplitsByZero | backend/routes/reports.js:145-148 | `/summary` tracks as many students as `/daily` counts as engaged plus those with a zero average |
| Reports.TrackedSumAgrees | backend/routes/reports.js:145-148 | the averages `/summary` adds up have the same sum as those `/daily` adds up (reports.js:27-29) |
| Reports.TrackedWithin | backend/routes/reports.js:145-147 | every value `/summary` averages is some row's own average, so any bounds on the rows' averages carry over |
| Reports.SummaryAverageWithin | backend/routes/reports.js:145-148 | `/summary`'s average lies within the bounds of the students' averages, or no student is tracked |
| Reports.SelectDateFilter | backend/routes/reports.js:64-75 | both dates give `BETWEEN` with 2 parameters, one date `>=` or `<=` with 1, none no clause; the parameters are the given dates in order, and a date is admitted iff it is within each given bound |
| Reports.AttendanceOf | backend/routes/reports.js:78-82 | the history holds exactly the student's attendance rows that the clause admits, each as many times as in the table |
| Reports.EngagementOf | backend/routes/reports.js:88-97 | likewise for engagement rows |
| Reports.ScoresOnFiltered | backend/routes/reports.js:88-92 | a day's scores are those of the rows of that day, one per row, in order |
| Reports.DatesOf | backend/routes/reports.js:95 | the grouping days are distinct and are exactly the days of the rows |
| Reports.Groups | backend/routes/reports.js:88-97 | one group per day, in the given order |
| Reports.GroupsPrefix | backend/routes/reports.js:88-97 | the groups of a prefix of the days are the prefix of the groups, and each group holds the mean and the number of its day's scores |
| Reports.GroupByDate | backend/routes/reports.js:88-97 | `GROUP BY session_date` gives groups with distinct days |
| Reports.GroupsComeFromRows | backend/routes/reports.js:88-97 | every group's day is the day of some row |
| Reports.RowsHaveGroups | backend/routes/reports.js:88-97 | every row's day has a group |
| Reports.GroupOfDay | backend/routes/reports.js:88-97 | each group's average is the mean of its day's scores, and its count their number, which is positive |
| Reports.SampleTotal | backend/routes/reports.js:122 | the summed `sample_count` is 0 with no groups and no smaller than any day's count |
| Reports.SamplesCover | backend/routes/reports.js:122 | grouping over distinct days that cover the rows puts every row in exactly one group |
| Reports.SamplesCountRows | backend/routes/reports.js:122 | `engagement_samples` equals the number of engagement rows grouped |
| Reports.DayAverageWithin | backend/routes/reports.js:91 | each day's average lies within any bounds every score keeps |
| Reports.DayAveragesWithin | backend/routes/reports.js:104-106 | the overall average is the mean of the day averages: 0 with no rows, and otherwise within any bounds every score keeps |
| Reports.StudentHistory | backend/routes/reports.js:47-132 | a 400 iff the id is NaN; a 404 iff the student is unknown; otherwise the attendance days are the admitted rows, the samples the admitted engagement rows, and the average the mean of the day averages |

## Left out

- Float formatting: `toFixed(2)`, `parseFloat` of the formatted strings, and rounding. Averages and rates are exact reals.
- Wall-clock reads (`Date.now()`, `toISOString`, `toTimeString`) are the parameters `now`, `later`, `today` and `clock`. Nothing relates `later` to `now` in `SessionRoutes.Status`, since `Date.now()` is not guaranteed to be monotonic.
- The SQL engine: query text, joins, `CREATE TABLE`, and the `ORDER BY` of the history queries. `Reports.AttendanceOf` keeps table order, and `Reports.Groups` orders days by first appearance, not by date descending.
- `getStudentById` and `getDailyReport` are not modelled as queries. Their results are inputs to `Reports.StudentHistory`, `Reports.Daily` and `Reports.SummaryOf`.
- Reports.Daily: a failed report query, which the route passes to `next`, is not modelled.
- Reports.SummaryOf: a failed report query is not modelled.
- Reports.StudentHistory: a failed lookup or history query is not modelled.
- AiRoutes.ProcessFrame: returns the persistence calls it dispatches and takes each call's outcome as a parameter. It does not apply them to a `Db.Database`; their effect on the tables is `Db.Database.RecordAttendance` and `Db.Database.RecordEngagement`. `AiRoutes.ProcessFrameCorrected` does the same.
- A `null` entry in `detections` or `engagement_data` makes `d.student_id` or `e.student_id` throw a TypeError (`backend/routes/ai.js:41`, `:57`). Express then answers 500 while the calls already dispatched for earlier entries still run and later try to respond. Entries are records in the model, so this case is not modelled.
- AttendanceRoutes.BulkAttendance: returns its calls and takes their outcomes as parameters, in the same way as `AiRoutes.ProcessFrame`.
- AiRoutes.EmissionsAsWritten: a truthy `engagement_data` that is not an array is given a natural-number `length` (`AiRoutes.NotAList`). Other lengths are not modelled, and each changes what `total` (`backend/routes/ai.js:33`) does:
  - a negative one lowers `total` below the number of entries walked, so a skip can answer before the dispatched writes complete, the `else` branch (`backend/routes/ai.js:82`) can answer again, and a negative `total` is never reached;
  - a fractional one, or one that is not a number (making `total` NaN), is never reached, so the request is never answered.
- The Express error handler behind `next(err)`, and the error a second `res.json` raises, are not modelled. A route's error reply is `ServerError` with the message.
- `getState` hands out the live state object rather than a copy. Every route reads the fields it needs at once, so the model returns a snapshot value.
- Concurrent requests and locking: Node runs one callback at a time, and the model runs each request to completion.
- Db.Database.CreateCourseSession: runs its `SELECT MAX` (`backend/db.js:311-313`) and its `INSERT` (`backend/db.js:319-321`) as one step. In the original they run in separate callbacks, so two calls for the same course that interleave can both read the same maximum and insert the same number; the per-course numbering 1..k that `Db.NumberingAdvances` and `Db.Database.Valid` keep holds only when such calls do not interleave.
- AttendanceRoutes.PostAttendance: models the evidently intended call. As written, the route calls `recordAttendance(student_id, date, time, callback)` (`backend/routes/attendance.js:19`), but the function takes its callback as the sixth argument (`backend/db.js:230`). The route's callback is bound to `courseSessionId` and `callback` is `undefined`, so when the insert completes, `callback(...)` (`backend/db.js:236`, `:238`) throws "callback is not a function" and the route never answers. The model stores the row with no course ids and hands the outcome to the route.
- AttendanceRoutes.BulkAttendance: models the evidently intended call, in the same way. As written, each `recordAttendance(studentId, date, time, callback)` (`backend/routes/attendance.js:102`) throws on completion for the same reason, so no verdict is ever sent.
- The GET routes of attendance.js and ai.js, `/dashboard`, and the students and courses routes are not part of this model. Neither are server.js, aiProcess.js, the browser UI and the Python ai-engine.

## Findings

| source | as written | input that shows it | evidently intended | confidence | as-written member | corrected member |
|---|---|---|---|---|---|---|
| backend/routes/ai.js:48-83 | after the detections loop, the `else` branch calls `sendResponse` again if `processed === total`, although the last synchronous skip already did | `{detections: [{}]}` with no `engagement_data`, or any batch without engagement data while the session is inactive | one response per request | high (not executed) | AiRoutes.DoubleResponseExample | AiRoutes.ProcessFrameCorrected |
| backend/routes/ai.js:33-83 | `total` adds `engagement_data.length` whenever `engagement_data` is truthy, but only an array is walked | `{detections: [], engagement_data: {length: 1}}` | count only the entries that are walked, so the batch is answered | medium (not executed) | AiRoutes.NoResponseForNonArrayEngagement | AiRoutes.ProcessFrameCorrected |
