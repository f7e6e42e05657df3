/** The row writers and course-session registry of backend/db.js, over
    tables kept as sequences of records. The SQL engine is not modelled: each
    statement's own failure is the parameter `fault` (the error sqlite would
    report, if any), and aggregates are functions over the rows. */
module Db {
  import opened Common

  datatype AttendanceRow = AttendanceRow(
    id: int, studentId: int, sessionDate: Date, sessionTime: Time,
    courseSessionId: Option<int>, courseId: Option<int>)

  datatype EngagementRow = EngagementRow(
    id: int, studentId: int, sessionDate: Date, sessionTime: Time,
    attentionScore: real, eyesOpen: int, facingCamera: int,
    courseSessionId: Option<int>, courseId: Option<int>)

  datatype CourseSessionRow = CourseSessionRow(
    id: int, courseId: int, sessionNumber: int, sessionDate: Date,
    startTime: int, endTime: Option<int>, totalStudents: int, avgEngagement: real)

  /** What the insert callbacks hand back. */
  datatype AttendanceAck = AttendanceAck(id: int, studentId: int, courseSessionId: Option<int>, courseId: Option<int>)
  datatype EngagementAck = EngagementAck(id: int, courseSessionId: Option<int>, courseId: Option<int>)
  datatype CourseSessionAck = CourseSessionAck(id: int, courseId: int, sessionNumber: int, sessionDate: Date)

  datatype Column = Column(name: string, definition: string)

  /** SQLite stores a boolean as 1 or 0. */
  function Flag(b: bool): (v: int)
    ensures v == 1 || v == 0
    ensures v == 1 <==> b
  {
    if b then 1 else 0
  }

  // ---------------------------------------------------------------------
  // Row ids (AUTOINCREMENT)

  /** `ids` increase strictly and none exceeds `last`, the largest id handed out. */
  predicate IdsBelow(ids: seq<int>, last: int) {
    && (forall i, j :: 0 <= i < j < |ids| ==> ids[i] < ids[j])
    && (forall i :: 0 <= i < |ids| ==> ids[i] <= last)
  }

  function AttendanceIds(rows: seq<AttendanceRow>): seq<int> {
    seq(|rows|, i requires 0 <= i < |rows| => rows[i].id)
  }

  function EngagementIds(rows: seq<EngagementRow>): seq<int> {
    seq(|rows|, i requires 0 <= i < |rows| => rows[i].id)
  }

  function CourseSessionIds(rows: seq<CourseSessionRow>): seq<int> {
    seq(|rows|, i requires 0 <= i < |rows| => rows[i].id)
  }

  /** Handing out `last + 1` keeps ids increasing and below the new last. */
  lemma IdsBelowAppend(ids: seq<int>, last: int)
    requires IdsBelow(ids, last)
    ensures IdsBelow(ids + [last + 1], last + 1)
  {
  }

  // ---------------------------------------------------------------------
  // Course-session numbering

  /** The session numbers of course `c`, in table order. */
  function Numbers(rows: seq<CourseSessionRow>, c: int): seq<int> {
    if rows == [] then []
    else
      var last := rows[|rows| - 1];
      Numbers(rows[..|rows| - 1], c) + (if last.courseId == c then [last.sessionNumber] else [])
  }

  /** `MAX(...)` over a column: None on no rows. */
  function MaxOf(xs: seq<int>): (m: Option<int>)
    ensures m.None? <==> xs == []
    ensures m.Some? ==> m.value in xs && forall x :: x in xs ==> x <= m.value
  {
    if xs == [] then None
    else
      var m := MaxOf(xs[..|xs| - 1]);
      assert xs == xs[..|xs| - 1] + [xs[|xs| - 1]];
      if m.Some? && m.value >= xs[|xs| - 1] then m else Some(xs[|xs| - 1])
  }

  /** `COALESCE(MAX(session_number), 0) + 1` over the rows of course `c`. */
  function NextSessionNumber(rows: seq<CourseSessionRow>, c: int): (n: int)
    ensures forall x :: x in Numbers(rows, c) ==> x < n
    ensures Numbers(rows, c) != [] ==> n - 1 in Numbers(rows, c)
    ensures Numbers(rows, c) == [] ==> n == 1
  {
    var m := MaxOf(Numbers(rows, c));
    (if m.Some? then m.value else 0) + 1
  }

  /** 1, 2, ..., k. */
  function OneTo(k: nat): (r: seq<int>)
    ensures |r| == k
    ensures forall i :: 0 <= i < k ==> r[i] == i + 1
  {
    if k == 0 then [] else OneTo(k - 1) + [k]
  }

  /** Every course's sessions are numbered 1, 2, ..., k in table order. */
  ghost predicate NumberedInOrder(rows: seq<CourseSessionRow>) {
    forall c :: Numbers(rows, c) == OneTo(|Numbers(rows, c)|)
  }

  lemma MaxOfOneTo(k: nat)
    requires k > 0
    ensures MaxOf(OneTo(k)) == Some(k)
  {
    var m := MaxOf(OneTo(k));
    assert OneTo(k)[k - 1] == k;
    forall x | x in OneTo(k) ensures x <= k { }
  }

  /** Appending a row extends only its own course's numbers. */
  lemma NumbersAppend(rows: seq<CourseSessionRow>, row: CourseSessionRow, c: int)
    ensures Numbers(rows + [row], c) == Numbers(rows, c) + (if row.courseId == c then [row.sessionNumber] else [])
  {
    assert (rows + [row])[..|rows|] == rows;
  }

  /** Opening a session of course `c` numbers it one past the last and
      leaves every other course's numbering as it was: a course's sessions
      are numbered 1, 2, 3, ... and courses do not interfere. */
  lemma {:induction false} NumberingAdvances(rows: seq<CourseSessionRow>, row: CourseSessionRow)
    requires NumberedInOrder(rows)
    requires row.sessionNumber == NextSessionNumber(rows, row.courseId)
    ensures row.sessionNumber == |Numbers(rows, row.courseId)| + 1
    ensures Numbers(rows + [row], row.courseId) == Numbers(rows, row.courseId) + [row.sessionNumber]
    ensures forall c :: c != row.courseId ==> Numbers(rows + [row], c) == Numbers(rows, c)
    ensures NumberedInOrder(rows + [row])
  {
    var k := |Numbers(rows, row.courseId)|;
    assert Numbers(rows, row.courseId) == OneTo(k);
    if k > 0 {
      MaxOfOneTo(k);
    }
    forall c ensures Numbers(rows + [row], c) == Numbers(rows, c) + (if row.courseId == c then [row.sessionNumber] else []) {
      NumbersAppend(rows, row, c);
    }
    forall c ensures Numbers(rows + [row], c) == OneTo(|Numbers(rows + [row], c)|) {
      assert Numbers(rows, c) == OneTo(|Numbers(rows, c)|);
    }
  }

  // ---------------------------------------------------------------------
  // Finalising a course session

  /** `WHERE course_session_id = csid` on the attendance table. */
  function AttendedIn(csid: int): AttendanceRow -> bool {
    (r: AttendanceRow) => r.courseSessionId == Some(csid)
  }

  /** `WHERE course_session_id = csid` on the engagement table. */
  function ObservedIn(csid: int): EngagementRow -> bool {
    (r: EngagementRow) => r.courseSessionId == Some(csid)
  }

  /** The distinct students with attendance rows for course session `csid`. */
  function StudentsOf(rows: seq<AttendanceRow>, csid: int): (s: set<int>)
    ensures forall id :: id in s <==> exists r :: r in rows && r.courseSessionId == Some(csid) && r.studentId == id
  {
    if rows == [] then {}
    else
      var last := rows[|rows| - 1];
      StudentsOf(rows[..|rows| - 1], csid) + (if last.courseSessionId == Some(csid) then {last.studentId} else {})
  }

  /** How many attendance rows belong to course session `csid`. */
  function AttendanceRowsOf(rows: seq<AttendanceRow>, csid: int): (n: nat)
    ensures n <= |rows|
  {
    if rows == [] then 0
    else AttendanceRowsOf(rows[..|rows| - 1], csid) + (if rows[|rows| - 1].courseSessionId == Some(csid) then 1 else 0)
  }

  /** The attention scores recorded for course session `csid`. */
  function ScoresOf(rows: seq<EngagementRow>, csid: int): (xs: seq<real>)
    ensures |xs| <= |rows|
  {
    if rows == [] then []
    else
      var last := rows[|rows| - 1];
      ScoresOf(rows[..|rows| - 1], csid) + (if last.courseSessionId == Some(csid) then [last.attentionScore] else [])
  }

  /** The rows counted are those `WHERE course_session_id = csid`. */
  lemma {:induction false} AttendanceRowsFiltered(rows: seq<AttendanceRow>, csid: int)
    ensures AttendanceRowsOf(rows, csid) == |Filter(rows, AttendedIn(csid))|
  {
    if rows != [] {
      AttendanceRowsFiltered(rows[..|rows| - 1], csid);
    }
  }

  /** The scores averaged are those of the rows `WHERE course_session_id =
      csid`, in order. */
  lemma {:induction false} ScoresOfFiltered(rows: seq<EngagementRow>, csid: int)
    ensures |ScoresOf(rows, csid)| == |Filter(rows, ObservedIn(csid))|
    ensures forall k :: 0 <= k < |ScoresOf(rows, csid)| ==>
              ScoresOf(rows, csid)[k] == Filter(rows, ObservedIn(csid))[k].attentionScore
  {
    if rows != [] {
      var init, last := rows[..|rows| - 1], rows[|rows| - 1];
      ScoresOfFiltered(init, csid);
      var xs0, kept0 := ScoresOf(init, csid), Filter(init, ObservedIn(csid));
      var xs, kept := ScoresOf(rows, csid), Filter(rows, ObservedIn(csid));
      assert kept == kept0 + (if ObservedIn(csid)(last) then [last] else []);
      assert xs == xs0 + (if ObservedIn(csid)(last) then [last.attentionScore] else []);
      forall k | 0 <= k < |xs|
        ensures xs[k] == kept[k].attentionScore
      {
        if k < |xs0| {
          assert xs[k] == xs0[k] && kept[k] == kept0[k];
        }
      }
    }
  }

  /** `COUNT(DISTINCT student_id)` never exceeds the number of rows and is 0
      exactly when the course session has no attendance rows. */
  lemma {:induction false} DistinctStudentsBound(rows: seq<AttendanceRow>, csid: int)
    ensures |StudentsOf(rows, csid)| <= AttendanceRowsOf(rows, csid)
    ensures |StudentsOf(rows, csid)| == 0 <==> AttendanceRowsOf(rows, csid) == 0
  {
    if rows != [] {
      DistinctStudentsBound(rows[..|rows| - 1], csid);
      var last := rows[|rows| - 1];
      if last.courseSessionId == Some(csid) {
        assert last.studentId in StudentsOf(rows, csid);
      }
    }
  }

  /** The average the registry stores lies within any bounds of the scores
      of that course session, and is 0 when it has none. */
  lemma AverageEngagementBounds(rows: seq<EngagementRow>, csid: int, lo: real, hi: real)
    requires forall r :: r in rows && r.courseSessionId == Some(csid) ==> lo <= r.attentionScore <= hi
    ensures ScoresOf(rows, csid) == [] ==> Mean(ScoresOf(rows, csid)) == 0.0
    ensures ScoresOf(rows, csid) != [] ==> lo <= Mean(ScoresOf(rows, csid)) <= hi
  {
    ScoresWithin(rows, csid, lo, hi);
    if ScoresOf(rows, csid) != [] {
      MeanBounds(ScoresOf(rows, csid), lo, hi);
    }
  }

  lemma {:induction false} ScoresWithin(rows: seq<EngagementRow>, csid: int, lo: real, hi: real)
    requires forall r :: r in rows && r.courseSessionId == Some(csid) ==> lo <= r.attentionScore <= hi
    ensures forall i :: 0 <= i < |ScoresOf(rows, csid)| ==> lo <= ScoresOf(rows, csid)[i] <= hi
  {
    if rows != [] {
      ScoresWithin(rows[..|rows| - 1], csid, lo, hi);
      assert rows[|rows| - 1] in rows;
    }
  }

  /** The course-session table after `UPDATE ... WHERE id = csid`. */
  function WithSummary(rows: seq<CourseSessionRow>, csid: int, end: int, total: int, avg: real): (r: seq<CourseSessionRow>)
    ensures |r| == |rows|
    ensures forall i :: 0 <= i < |rows| && rows[i].id != csid ==> r[i] == rows[i]
    ensures forall i :: 0 <= i < |rows| && rows[i].id == csid ==>
              r[i] == rows[i].(endTime := Some(end), totalStudents := total, avgEngagement := avg)
  {
    seq(|rows|, i requires 0 <= i < |rows| =>
      if rows[i].id == csid then rows[i].(endTime := Some(end), totalStudents := total, avgEngagement := avg)
      else rows[i])
  }

  /** The update touches neither ids, courses nor numbers. */
  lemma {:induction false} WithSummaryKeepsNumbers(rows: seq<CourseSessionRow>, csid: int, end: int, total: int, avg: real)
    ensures CourseSessionIds(WithSummary(rows, csid, end, total, avg)) == CourseSessionIds(rows)
    ensures forall c :: Numbers(WithSummary(rows, csid, end, total, avg), c) == Numbers(rows, c)
  {
    var r := WithSummary(rows, csid, end, total, avg);
    if rows != [] {
      var n := |rows| - 1;
      WithSummaryKeepsNumbers(rows[..n], csid, end, total, avg);
      assert r[..n] == WithSummary(rows[..n], csid, end, total, avg);
    }
  }

  // ---------------------------------------------------------------------
  // Migrations

  predicate HasColumn(schema: map<string, seq<Column>>, table: string, column: string) {
    table in schema && exists c :: c in schema[table] && c.name == column
  }

  /** The schema after `ALTER TABLE table ADD COLUMN column definition`
      when the column is missing. */
  function WithColumn(schema: map<string, seq<Column>>, table: string, column: string, definition: string): (r: map<string, seq<Column>>)
    ensures r.Keys == schema.Keys
    ensures table in schema ==> HasColumn(r, table, column)
    ensures table in schema && !HasColumn(schema, table, column) ==>
              r[table] == schema[table] + [Column(column, definition)]
    ensures HasColumn(schema, table, column) ==> r[table] == schema[table]
    ensures table !in schema ==> r == schema
    ensures forall t :: t in schema && t != table ==> r[t] == schema[t]
  {
    if table in schema && !HasColumn(schema, table, column) then
      var r := schema[table := schema[table] + [Column(column, definition)]];
      assert Column(column, definition) in r[table];
      r
    else schema
  }

  /** Applying the migration twice leaves the schema as applying it once. */
  lemma WithColumnIdempotent(schema: map<string, seq<Column>>, table: string, column: string, definition: string)
    ensures var once := WithColumn(schema, table, column, definition);
            WithColumn(once, table, column, definition) == once
  {
  }

  /** A present column is never added again, nor its definition changed. */
  lemma WithColumnKeepsPresent(schema: map<string, seq<Column>>, table: string, column: string, definition: string)
    requires HasColumn(schema, table, column)
    ensures WithColumn(schema, table, column, definition) == schema
  {
  }

  // ---------------------------------------------------------------------
  // The database

  class Database {
    var attendance: seq<AttendanceRow>
    var engagement: seq<EngagementRow>
    var courseSessions: seq<CourseSessionRow>
    var schema: map<string, seq<Column>>
    var lastAttendanceId: int
    var lastEngagementId: int
    var lastCourseSessionId: int

    ghost predicate Valid()
      reads this
    {
      && IdsBelow(AttendanceIds(attendance), lastAttendanceId)
      && IdsBelow(EngagementIds(engagement), lastEngagementId)
      && IdsBelow(CourseSessionIds(courseSessions), lastCourseSessionId)
      && NumberedInOrder(courseSessions)
    }

    /** Empty tables over the schema `initialSchema`. */
    constructor (initialSchema: map<string, seq<Column>>)
      ensures Valid()
      ensures attendance == [] && engagement == [] && courseSessions == []
      ensures schema == initialSchema
    {
      attendance, engagement, courseSessions := [], [], [];
      schema := initialSchema;
      lastAttendanceId, lastEngagementId, lastCourseSessionId := 0, 0, 0;
    }

    /** `recordAttendance`: one row, with falsy course ids stored as null. */
    method RecordAttendance(studentId: int, sessionDate: Date, sessionTime: Time,
                            courseSessionId: Option<int>, courseId: Option<int>, fault: Option<string>)
      returns (r: Result<AttendanceAck>)
      requires Valid()
      modifies this`attendance, this`lastAttendanceId
      ensures Valid()
      ensures fault.Some? ==> r == Err(fault.value) && attendance == old(attendance)
      ensures fault.None? ==>
                && var row := AttendanceRow(old(lastAttendanceId) + 1, studentId, sessionDate, sessionTime,
                                            OrNull(courseSessionId), OrNull(courseId));
                && attendance == old(attendance) + [row]
                && r == Ok(AttendanceAck(row.id, studentId, row.courseSessionId, row.courseId))
    {
      if fault.Some? {
        return Err(fault.value);
      }
      var id := lastAttendanceId + 1;
      IdsBelowAppend(AttendanceIds(attendance), lastAttendanceId);
      var row := AttendanceRow(id, studentId, sessionDate, sessionTime, OrNull(courseSessionId), OrNull(courseId));
      attendance := attendance + [row];
      lastAttendanceId := id;
      assert AttendanceIds(attendance) == AttendanceIds(old(attendance)) + [id];
      r := Ok(AttendanceAck(id, studentId, row.courseSessionId, row.courseId));
    }

    /** `recordEngagement`: one row, booleans stored as 1/0 and falsy course
        ids as null. */
    method RecordEngagement(studentId: int, sessionDate: Date, sessionTime: Time, attentionScore: real,
                            eyesOpen: bool, facingCamera: bool,
                            courseSessionId: Option<int>, courseId: Option<int>, fault: Option<string>)
      returns (r: Result<EngagementAck>)
      requires Valid()
      modifies this`engagement, this`lastEngagementId
      ensures Valid()
      ensures fault.Some? ==> r == Err(fault.value) && engagement == old(engagement)
      ensures fault.None? ==>
                && var row := EngagementRow(old(lastEngagementId) + 1, studentId, sessionDate, sessionTime,
                                            attentionScore, Flag(eyesOpen), Flag(facingCamera),
                                            OrNull(courseSessionId), OrNull(courseId));
                && engagement == old(engagement) + [row]
                && r == Ok(EngagementAck(row.id, row.courseSessionId, row.courseId))
    {
      if fault.Some? {
        return Err(fault.value);
      }
      var id := lastEngagementId + 1;
      IdsBelowAppend(EngagementIds(engagement), lastEngagementId);
      var row := EngagementRow(id, studentId, sessionDate, sessionTime, attentionScore,
                               if eyesOpen then 1 else 0, if facingCamera then 1 else 0,
                               OrNull(courseSessionId), OrNull(courseId));
      engagement := engagement + [row];
      lastEngagementId := id;
      assert EngagementIds(engagement) == EngagementIds(old(engagement)) + [id];
      r := Ok(EngagementAck(id, row.courseSessionId, row.courseId));
    }

    /** `createCourseSession`: number the new session one past the course's
        highest, then insert it open (no end time, zero aggregates). A failed
        max-query inserts nothing. */
    method CreateCourseSession(courseId: int, sessionDate: Date, now: int,
                               queryFault: Option<string>, insertFault: Option<string>)
      returns (r: Result<CourseSessionAck>)
      requires Valid()
      modifies this`courseSessions, this`lastCourseSessionId
      ensures Valid()
      ensures queryFault.Some? ==> r == Err(queryFault.value) && courseSessions == old(courseSessions)
      ensures queryFault.None? && insertFault.Some? ==> r == Err(insertFault.value) && courseSessions == old(courseSessions)
      ensures queryFault.None? && insertFault.None? ==>
                && var n := NextSessionNumber(old(courseSessions), courseId);
                && var row := CourseSessionRow(old(lastCourseSessionId) + 1, courseId, n, sessionDate, now, None, 0, 0.0);
                && n == |Numbers(old(courseSessions), courseId)| + 1
                && courseSessions == old(courseSessions) + [row]
                && Numbers(courseSessions, courseId) == Numbers(old(courseSessions), courseId) + [n]
                && (forall c :: c != courseId ==> Numbers(courseSessions, c) == Numbers(old(courseSessions), c))
                && r == Ok(CourseSessionAck(row.id, courseId, n, sessionDate))
    {
      if queryFault.Some? {
        return Err(queryFault.value);
      }
      var nextNum := NextSessionNumber(courseSessions, courseId);
      if insertFault.Some? {
        return Err(insertFault.value);
      }
      var id := lastCourseSessionId + 1;
      var row := CourseSessionRow(id, courseId, nextNum, sessionDate, now, None, 0, 0.0);
      NumberingAdvances(courseSessions, row);
      InsertCourseSession(row);
      r := Ok(CourseSessionAck(id, courseId, nextNum, sessionDate));
    }

    /** The INSERT of `createCourseSession`: the row takes the next id. */
    method InsertCourseSession(row: CourseSessionRow)
      requires Valid()
      requires row.id == lastCourseSessionId + 1
      requires NumberedInOrder(courseSessions + [row])
      modifies this`courseSessions, this`lastCourseSessionId
      ensures Valid()
      ensures courseSessions == old(courseSessions) + [row]
      ensures lastCourseSessionId == row.id
    {
      IdsBelowAppend(CourseSessionIds(courseSessions), lastCourseSessionId);
      courseSessions := courseSessions + [row];
      lastCourseSessionId := row.id;
      assert CourseSessionIds(courseSessions) == CourseSessionIds(old(courseSessions)) + [row.id];
    }

    /** `finalizeCourseSession`: store the end time, the number of distinct
        students and the mean attention score (0 with no scores) on the row
        with id `csid`; a failed query aborts before the update. */
    method FinalizeCourseSession(csid: int, now: int,
                                 countFault: Option<string>, avgFault: Option<string>, updateFault: Option<string>)
      returns (r: Result<()>)
      requires Valid()
      modifies this`courseSessions
      ensures Valid()
      ensures r.Ok? <==> countFault.None? && avgFault.None? && updateFault.None?
      ensures r.Err? ==> courseSessions == old(courseSessions)
      ensures r.Ok? ==> courseSessions == WithSummary(old(courseSessions), csid, now,
                                                      |StudentsOf(attendance, csid)|, Mean(ScoresOf(engagement, csid)))
    {
      if countFault.Some? {
        return Err(countFault.value);
      }
      var totalStudents := |StudentsOf(attendance, csid)|;
      if avgFault.Some? {
        return Err(avgFault.value);
      }
      var scores := ScoresOf(engagement, csid);
      var avgEng := if |scores| > 0 then Sum(scores) / (|scores| as real) else 0.0;
      if updateFault.Some? {
        return Err(updateFault.value);
      }
      WithSummaryKeepsNumbers(courseSessions, csid, now, totalStudents, avgEng);
      courseSessions := WithSummary(courseSessions, csid, now, totalStudents, avgEng);
      r := Ok(());
    }

    /** `ensureColumn`: add the column only when the table lacks it. */
    method EnsureColumn(table: string, column: string, definition: string,
                        pragmaFault: Option<string>, alterFault: Option<string>)
      returns (r: Result<()>)
      modifies this`schema
      ensures r.Ok? <==> pragmaFault.None? &&
                         (HasColumn(old(schema), table, column) || (table in old(schema) && alterFault.None?))
      ensures schema == if r.Ok? then WithColumn(old(schema), table, column, definition) else old(schema)
    {
      if pragmaFault.Some? {
        return Err(pragmaFault.value);
      }
      if HasColumn(schema, table, column) {
        return Ok(());
      }
      if table !in schema {
        // PRAGMA table_info lists no columns for a missing table; the ALTER then fails.
        return Err("no such table: " + table);
      }
      if alterFault.Some? {
        return Err(alterFault.value);
      }
      schema := schema[table := schema[table] + [Column(column, definition)]];
      r := Ok(());
    }
  }

  /** Finalising a course session with no attendance and no engagement rows
      stores zero students and a zero average. */
  lemma FinalizeEmpty(attendance: seq<AttendanceRow>, engagement: seq<EngagementRow>, csid: int)
    requires forall r :: r in attendance ==> r.courseSessionId != Some(csid)
    requires forall r :: r in engagement ==> r.courseSessionId != Some(csid)
    ensures |StudentsOf(attendance, csid)| == 0
    ensures Mean(ScoresOf(engagement, csid)) == 0.0
  {
    NoneOfSession(attendance, engagement, csid);
    DistinctStudentsBound(attendance, csid);
  }

  lemma {:induction false} NoneOfSession(attendance: seq<AttendanceRow>, engagement: seq<EngagementRow>, csid: int)
    requires forall r :: r in attendance ==> r.courseSessionId != Some(csid)
    requires forall r :: r in engagement ==> r.courseSessionId != Some(csid)
    ensures AttendanceRowsOf(attendance, csid) == 0
    ensures ScoresOf(engagement, csid) == []
    decreases |attendance| + |engagement|
  {
    if attendance != [] {
      assert attendance[|attendance| - 1] in attendance;
      NoneOfSession(attendance[..|attendance| - 1], engagement, csid);
    }
    if engagement != [] {
      assert engagement[|engagement| - 1] in engagement;
      NoneOfSession(attendance, engagement[..|engagement| - 1], csid);
    }
  }
}
