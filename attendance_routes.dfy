/** The write endpoints of backend/routes/attendance.js: `POST /` records one
    student, `POST /bulk` fans out one insert per student and answers from
    whichever callback completes last. */
module AttendanceRoutes {
  import opened Common
  import Db

  // ---------------------------------------------------------------------
  // POST /

  /** The request body; None is a field that is absent or falsy. */
  datatype AttendanceRequest = AttendanceRequest(studentId: Option<int>, sessionDate: Option<Date>, sessionTime: Option<Time>)

  datatype AttendanceReply =
    | Rejected(error: string)                                                     // 400
    | Created(attendance: Db.AttendanceAck, sessionDate: Date, sessionTime: Time)  // 201
    | ServerError(message: string)                                                // next(err)

  /** `POST /`: a falsy student id is refused before anything is written;
      otherwise one attendance row, dated `today`/`clock` unless the body
      says otherwise, and carrying no course. */
  method PostAttendance(db: Db.Database, today: Date, clock: Time, req: AttendanceRequest, fault: Option<string>)
    returns (reply: AttendanceReply)
    requires db.Valid()
    modifies db`attendance, db`lastAttendanceId
    ensures db.Valid()
    ensures reply.Rejected? <==> !Truthy(req.studentId)
    ensures reply.Rejected? ==> db.attendance == old(db.attendance)
    ensures Truthy(req.studentId) && fault.Some? ==>
              reply == ServerError(fault.value) && db.attendance == old(db.attendance)
    ensures Truthy(req.studentId) && fault.None? ==>
              && var row := Db.AttendanceRow(old(db.lastAttendanceId) + 1, req.studentId.value,
                                             OrDefault(req.sessionDate, today), OrDefault(req.sessionTime, clock),
                                             None, None);
              && db.attendance == old(db.attendance) + [row]
              && reply == Created(Db.AttendanceAck(row.id, row.studentId, None, None), row.sessionDate, row.sessionTime)
  {
    if !Truthy(req.studentId) {
      return Rejected("Student ID is required");
    }
    var date, time := OrDefault(req.sessionDate, today), OrDefault(req.sessionTime, clock);
    var r := db.RecordAttendance(req.studentId.value, date, time, None, None, fault);
    match r {
      case Err(message) =>
        reply := ServerError(message);
      case Ok(ack) =>
        reply := Created(ack, date, time);
    }
  }

  // ---------------------------------------------------------------------
  // POST /bulk

  /** The request body; `studentIds` is None when absent or not an array. */
  datatype BulkRequest = BulkRequest(studentIds: Option<seq<int>>, sessionDate: Option<Date>, sessionTime: Option<Time>)

  /** The insert issued for one student id. */
  datatype BulkCall = BulkCall(studentId: int, sessionDate: Date, sessionTime: Time)

  datatype BulkError = BulkError(studentId: int, message: string)

  datatype BulkVerdict =
    | AllFailed(failures: seq<BulkError>)                                 // 500
    | Recorded(recorded: nat, failed: nat, attendance: seq<Db.AttendanceAck>,
               errors: Option<seq<BulkError>>)                          // 201; None is `undefined`

  datatype BulkReply =
    | BulkRejected(error: string)          // 400
    | Replies(verdicts: seq<BulkVerdict>)  // every reply sent once the callbacks ran

  /** The rows acknowledged, in the order their callbacks completed. */
  function AcksIn(order: seq<nat>, ids: seq<int>, outcomes: seq<Outcome>): (acks: seq<Db.AttendanceAck>)
    requires |ids| == |outcomes|
    ensures |acks| == CountWhere(order, StoredAt(outcomes))
    ensures forall a :: a in acks ==> a.courseSessionId == None && a.courseId == None
  {
    if order == [] then []
    else
      var i := order[|order| - 1];
      AcksIn(order[..|order| - 1], ids, outcomes)
        + (if i < |outcomes| && outcomes[i].Stored? then [Db.AttendanceAck(outcomes[i].rowId, ids[i], None, None)] else [])
  }

  /** The failures collected, in the order their callbacks completed. */
  function ErrorsIn(order: seq<nat>, ids: seq<int>, outcomes: seq<Outcome>): (errors: seq<BulkError>)
    requires |ids| == |outcomes|
    ensures |errors| == CountWhere(order, FailedAt(outcomes))
  {
    if order == [] then []
    else
      var i := order[|order| - 1];
      ErrorsIn(order[..|order| - 1], ids, outcomes)
        + (if i < |outcomes| && outcomes[i].Failed? then [BulkError(ids[i], outcomes[i].message)] else [])
  }

  /** The reply the last callback sends, from what was collected: a 500
      carrying the errors when every insert failed, otherwise a 201 with
      both counts, the rows, and the errors only when there are some. */
  function Verdict(results: seq<Db.AttendanceAck>, errors: seq<BulkError>): (v: BulkVerdict)
    ensures v.AllFailed? <==> |errors| > 0 && |results| == 0
    ensures v.AllFailed? ==> v.failures == errors
    ensures v.Recorded? ==> v.recorded == |results| && v.failed == |errors| && v.attendance == results
    ensures v.Recorded? ==> (v.errors.None? <==> errors == []) && (v.errors.Some? ==> v.errors.value == errors)
  {
    if |errors| > 0 && |results| == 0 then AllFailed(errors)
    else Recorded(|results|, |errors|, results, if |errors| > 0 then Some(errors) else None)
  }

  /** How many of the inserts succeeded. */
  function StoredCount(outcomes: seq<Outcome>): nat {
    CountWhere(Range(|outcomes|), StoredAt(outcomes))
  }

  /** Whatever order the callbacks complete in, the verdict is a 500 exactly
      when no insert succeeded, and otherwise a 201 counting the successes
      and the failures, which together make up every id, with the error list
      left out exactly when nothing failed. */
  lemma {:induction false} VerdictCounts(ids: seq<int>, outcomes: seq<Outcome>, order: seq<nat>)
    requires |ids| == |outcomes| > 0
    requires IsOrder(order, |outcomes|)
    ensures var v := Verdict(AcksIn(order, ids, outcomes), ErrorsIn(order, ids, outcomes));
            var n, ok := |outcomes|, StoredCount(outcomes);
            && (v.AllFailed? <==> ok == 0)
            && (v.AllFailed? ==> |v.failures| == n)
            && (v.Recorded? ==> v.recorded == ok && v.failed == n - ok && |v.attendance| == ok)
            && (v.Recorded? ==> (v.errors.None? <==> ok == n))
  {
    var n := |outcomes|;
    OrderBounds(order, n);
    CountOverOrder(order, n, StoredAt(outcomes));
    CountOverOrder(order, n, FailedAt(outcomes));
    forall i | i in order ensures StoredAt(outcomes)(i) != FailedAt(outcomes)(i) {
      assert i < n;
    }
    CountWherePartition(order, StoredAt(outcomes), FailedAt(outcomes));
  }

  /** One more callback completing adds its row, if any, at the end. */
  lemma AcksInStep(order: seq<nat>, k: nat, ids: seq<int>, outcomes: seq<Outcome>)
    requires |ids| == |outcomes| && k < |order| && order[k] < |outcomes|
    ensures AcksIn(order[..k + 1], ids, outcomes)
            == AcksIn(order[..k], ids, outcomes)
               + (if outcomes[order[k]].Stored? then [Db.AttendanceAck(outcomes[order[k]].rowId, ids[order[k]], None, None)] else [])
  {
    assert order[..k + 1][..k] == order[..k];
  }

  /** One more callback completing adds its error, if any, at the end. */
  lemma ErrorsInStep(order: seq<nat>, k: nat, ids: seq<int>, outcomes: seq<Outcome>)
    requires |ids| == |outcomes| && k < |order| && order[k] < |outcomes|
    ensures ErrorsIn(order[..k + 1], ids, outcomes)
            == ErrorsIn(order[..k], ids, outcomes)
               + (if outcomes[order[k]].Failed? then [BulkError(ids[order[k]], outcomes[order[k]].message)] else [])
  {
    assert order[..k + 1][..k] == order[..k];
  }

  /** The callbacks of `POST /bulk`, running in `order`: each counts itself
      and pushes to one list, and the one that brings the count to the
      number of ids sends the verdict. */
  method RunCallbacks(ids: seq<int>, outcomes: seq<Outcome>, order: seq<nat>) returns (verdicts: seq<BulkVerdict>)
    requires |ids| == |outcomes| > 0
    requires IsOrder(order, |outcomes|)
    ensures verdicts == [Verdict(AcksIn(order, ids, outcomes), ErrorsIn(order, ids, outcomes))]
  {
    var n := |ids|;
    OrderBounds(order, n);
    var results: seq<Db.AttendanceAck> := [];
    var errors: seq<BulkError> := [];
    var completed := 0;
    verdicts := [];
    var k := 0;
    while k < |order|
      invariant 0 <= k <= |order|
      invariant completed == k
      invariant results == AcksIn(order[..k], ids, outcomes)
      invariant errors == ErrorsIn(order[..k], ids, outcomes)
      invariant verdicts == if k == n then [Verdict(results, errors)] else []
    {
      var i := order[k];
      AcksInStep(order, k, ids, outcomes);
      ErrorsInStep(order, k, ids, outcomes);
      completed := completed + 1;
      match outcomes[i] {
        case Failed(message) =>
          errors := errors + [BulkError(ids[i], message)];
        case Stored(rowId) =>
          results := results + [Db.AttendanceAck(rowId, ids[i], None, None)];
      }
      if completed == n {
        verdicts := verdicts + [Verdict(results, errors)];
      }
      k := k + 1;
    }
    assert order[..k] == order;
  }

  /** `POST /bulk`: one insert per id, issued in array order; each callback
      counts itself and the one that brings the count to the number of ids
      replies. `outcomes[i]` is how the i-th insert ends and `order` the
      order in which the callbacks run. */
  method BulkAttendance(req: BulkRequest, today: Date, clock: Time, outcomes: seq<Outcome>, order: seq<nat>)
    returns (reply: BulkReply, calls: seq<BulkCall>)
    requires req.studentIds.Some? ==> |outcomes| == |req.studentIds.value| && IsOrder(order, |outcomes|)
    ensures reply.BulkRejected? <==> req.studentIds == None || req.studentIds == Some([])
    ensures reply.BulkRejected? ==> calls == []
    ensures reply.Replies? ==>
              && var ids := req.studentIds.value;
              && var date, time := OrDefault(req.sessionDate, today), OrDefault(req.sessionTime, clock);
              && |calls| == |ids|
              && (forall i :: 0 <= i < |ids| ==> calls[i] == BulkCall(ids[i], date, time))
              && reply.verdicts == [Verdict(AcksIn(order, ids, outcomes), ErrorsIn(order, ids, outcomes))]
    ensures reply.Replies? ==>
              && var v, n, ok := reply.verdicts[0], |outcomes|, StoredCount(outcomes);
              && (v.AllFailed? <==> ok == 0)
              && (v.AllFailed? ==> |v.failures| == n)
              && (v.Recorded? ==> v.recorded == ok && v.failed == n - ok && |v.attendance| == ok)
              && (v.Recorded? ==> (v.errors.None? <==> ok == n))
  {
    if req.studentIds.None? || |req.studentIds.value| == 0 {
      return BulkRejected("student_ids array is required"), [];
    }
    var ids := req.studentIds.value;
    var date, time := OrDefault(req.sessionDate, today), OrDefault(req.sessionTime, clock);
    calls := seq(|ids|, i requires 0 <= i < |ids| => BulkCall(ids[i], date, time));

    var verdicts := RunCallbacks(ids, outcomes, order);
    VerdictCounts(ids, outcomes, order);
    reply := Replies(verdicts);
  }
}
