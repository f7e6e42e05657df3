/** The ingestion endpoints of backend/routes/ai.js.

    `POST /process-frame` reads the session once, validates the batch,
    walks the detections and then the engagement entries, and for each one
    either dispatches a persistence call or skips it. A shared counter
    `processed` is bumped by every skip (at once) and by every completion
    callback (later, in whatever order the calls complete), and the
    response is sent whenever the counter equals `total`.

    The persistence calls themselves are external here: a batch handler
    returns the calls it dispatches, in dispatch order, and is given the
    outcome of each (`outcomes[i]` for `calls[i]`) and the order in which the
    callbacks fire (`order`, a rearrangement of the indices). What each call
    does to the tables is Db.Database.RecordAttendance / RecordEngagement. */
module AiRoutes {
  import opened Common
  import opened SessionStore
  import Db

  // ---------------------------------------------------------------------
  // Requests

  datatype Detection = Detection(studentId: Option<int>)

  datatype EngagementEntry = EngagementEntry(
    studentId: Option<int>, attentionScore: Option<real>,
    eyesOpen: Option<bool>, facingCamera: Option<bool>)

  /** The `engagement_data` field: falsy (absent, null, ...), an array, or
      some other truthy value whose `length` is `length`. */
  datatype EngagementField = Missing | Entries(items: seq<EngagementEntry>) | NotAList(length: nat)

  /** `detections` is None when it is missing or not an array. */
  datatype FrameRequest = FrameRequest(
    detections: Option<seq<Detection>>, engagement: EngagementField,
    sessionDate: Option<Date>, sessionTime: Option<Time>)

  // ---------------------------------------------------------------------
  // Gating and dispatch

  /** The three values read from the one snapshot a batch takes. */
  datatype Gate = Gate(isActive: bool, courseId: Option<int>, courseSessionId: Option<int>)

  /** `isActive` as read, and each course id `|| null`. */
  function GateOf(s: SessionState): (g: Gate)
    ensures g.isActive == s.isActive
    ensures Truthy(s.courseId) ==> g.courseId == s.courseId
    ensures !Truthy(s.courseId) ==> g.courseId == None
    ensures Truthy(s.courseSessionId) ==> g.courseSessionId == s.courseSessionId
    ensures !Truthy(s.courseSessionId) ==> g.courseSessionId == None
  {
    Gate(s.isActive, OrNull(s.courseId), OrNull(s.courseSessionId))
  }

  /** A persistence call, with the arguments it is dispatched with. */
  datatype Call =
    | AttendanceCall(studentId: int, date: Date, time: Time,
                     courseSessionId: Option<int>, courseId: Option<int>)
    | EngagementCall(studentId: int, date: Date, time: Time, score: real,
                     eyesOpen: bool, facingCamera: bool,
                     courseSessionId: Option<int>, courseId: Option<int>)

  /** The attendance call for a detection: its student, tagged with the
      batch's date and time and the snapshot's course ids. */
  function AttendanceCallOf(d: Detection, g: Gate, date: Date, time: Time): (c: Call)
    requires Truthy(d.studentId)
    ensures c.AttendanceCall? && c.studentId == d.studentId.value
    ensures TaggedBy(c, g, date, time)
  {
    AttendanceCall(d.studentId.value, date, time, g.courseSessionId, g.courseId)
  }

  /** `attention_score || 0`. */
  function ScoreOrZero(x: Option<real>): real {
    if x.Some? then x.value else 0.0
  }

  /** The engagement defaults: score 0 when absent, and eyes open / facing
      the camera unless explicitly false. */
  function EngagementCallOf(e: EngagementEntry, g: Gate, date: Date, time: Time): (c: Call)
    requires Truthy(e.studentId)
    ensures c.EngagementCall? && c.studentId == e.studentId.value
    ensures TaggedBy(c, g, date, time)
    ensures e.attentionScore.Some? ==> c.score == e.attentionScore.value
    ensures e.attentionScore.None? ==> c.score == 0.0
    ensures c.eyesOpen <==> e.eyesOpen != Some(false)
    ensures c.facingCamera <==> e.facingCamera != Some(false)
  {
    EngagementCall(e.studentId.value, date, time, ScoreOrZero(e.attentionScore),
                   e.eyesOpen != Some(false), e.facingCamera != Some(false),
                   g.courseSessionId, g.courseId)
  }

  /** A call tagged with the snapshot's course ids, for a truthy student. */
  predicate TaggedBy(c: Call, g: Gate, date: Date, time: Time) {
    c.studentId != 0 && c.date == date && c.time == time &&
    c.courseSessionId == g.courseSessionId && c.courseId == g.courseId
  }

  /** The attendance calls dispatched for `ds`, in order. */
  function DetectionCalls(ds: seq<Detection>, g: Gate, date: Date, time: Time): (r: seq<Call>)
    ensures |r| <= |ds|
    ensures !g.isActive ==> r == []
  {
    if ds == [] then []
    else
      var d := ds[|ds| - 1];
      DetectionCalls(ds[..|ds| - 1], g, date, time) +
        (if Truthy(d.studentId) && g.isActive then [AttendanceCallOf(d, g, date, time)] else [])
  }

  /** The engagement calls dispatched for `es`, in order. */
  function EngagementCalls(es: seq<EngagementEntry>, g: Gate, date: Date, time: Time): (r: seq<Call>)
    ensures |r| <= |es|
    ensures !g.isActive ==> r == []
  {
    if es == [] then []
    else
      var e := es[|es| - 1];
      EngagementCalls(es[..|es| - 1], g, date, time) +
        (if Truthy(e.studentId) && g.isActive then [EngagementCallOf(e, g, date, time)] else [])
  }

  /** `d.student_id` is truthy. */
  predicate Identified(d: Detection) {
    Truthy(d.studentId)
  }

  /** `e.student_id` is truthy. */
  predicate IdentifiedEntry(e: EngagementEntry) {
    Truthy(e.studentId)
  }

  /** Under an active session the detections loop dispatches one attendance
      call for each detection with a truthy student id, in order; under an
      inactive one, none. */
  lemma {:induction false} DetectionCallsFiltered(ds: seq<Detection>, g: Gate, date: Date, time: Time)
    ensures var r, kept := DetectionCalls(ds, g, date, time), Filter(ds, Identified);
            && |r| == (if g.isActive then |kept| else 0)
            && (g.isActive ==> forall k :: 0 <= k < |r| ==> r[k] == AttendanceCallOf(kept[k], g, date, time))
  {
    if ds != [] && g.isActive {
      var init, d := ds[..|ds| - 1], ds[|ds| - 1];
      DetectionCallsFiltered(init, g, date, time);
      var r0, kept0 := DetectionCalls(init, g, date, time), Filter(init, Identified);
      var r, kept := DetectionCalls(ds, g, date, time), Filter(ds, Identified);
      assert kept == kept0 + (if Identified(d) then [d] else []);
      assert r == r0 + (if Identified(d) then [AttendanceCallOf(d, g, date, time)] else []);
      forall k | 0 <= k < |r|
        ensures r[k] == AttendanceCallOf(kept[k], g, date, time)
      {
        if k < |r0| {
          assert r[k] == r0[k] && kept[k] == kept0[k];
        }
      }
    }
  }

  /** The same for the engagement loop: one engagement call for each entry
      with a truthy student id, in order, while the session is active. */
  lemma {:induction false} EngagementCallsFiltered(es: seq<EngagementEntry>, g: Gate, date: Date, time: Time)
    ensures var r, kept := EngagementCalls(es, g, date, time), Filter(es, IdentifiedEntry);
            && |r| == (if g.isActive then |kept| else 0)
            && (g.isActive ==> forall k :: 0 <= k < |r| ==> r[k] == EngagementCallOf(kept[k], g, date, time))
  {
    if es != [] && g.isActive {
      var init, e := es[..|es| - 1], es[|es| - 1];
      EngagementCallsFiltered(init, g, date, time);
      var r0, kept0 := EngagementCalls(init, g, date, time), Filter(init, IdentifiedEntry);
      var r, kept := EngagementCalls(es, g, date, time), Filter(es, IdentifiedEntry);
      assert kept == kept0 + (if IdentifiedEntry(e) then [e] else []);
      assert r == r0 + (if IdentifiedEntry(e) then [EngagementCallOf(e, g, date, time)] else []);
      forall k | 0 <= k < |r|
        ensures r[k] == EngagementCallOf(kept[k], g, date, time)
      {
        if k < |r0| {
          assert r[k] == r0[k] && kept[k] == kept0[k];
        }
      }
    }
  }

  /** Walking one more detection appends its call, if it makes one. */
  lemma DetectionCallsStep(ds: seq<Detection>, i: nat, g: Gate, date: Date, time: Time)
    requires i < |ds|
    ensures DetectionCalls(ds[..i + 1], g, date, time)
            == DetectionCalls(ds[..i], g, date, time)
               + (if Truthy(ds[i].studentId) && g.isActive then [AttendanceCallOf(ds[i], g, date, time)] else [])
  {
    assert ds[..i + 1][..i] == ds[..i];
  }

  /** Walking one more engagement entry appends its call, if it makes one. */
  lemma EngagementCallsStep(es: seq<EngagementEntry>, j: nat, g: Gate, date: Date, time: Time)
    requires j < |es|
    ensures EngagementCalls(es[..j + 1], g, date, time)
            == EngagementCalls(es[..j], g, date, time)
               + (if Truthy(es[j].studentId) && g.isActive then [EngagementCallOf(es[j], g, date, time)] else [])
  {
    assert es[..j + 1][..j] == es[..j];
  }

  /** The entries the two `forEach` loops walk over. */
  function Walked(f: EngagementField): seq<EngagementEntry> {
    if f.Entries? then f.items else []
  }

  function BatchDate(req: FrameRequest, today: Date): Date { OrDefault(req.sessionDate, today) }
  function BatchTime(req: FrameRequest, clock: Time): Time { OrDefault(req.sessionTime, clock) }

  /** Every persistence call a batch dispatches, in dispatch order. */
  function Dispatched(req: FrameRequest, g: Gate, today: Date, clock: Time): (r: seq<Call>)
    ensures req.detections.Some? ==> |r| <= |req.detections.value| + |Walked(req.engagement)|
    ensures req.detections.None? || !g.isActive ==> r == []
  {
    if req.detections.None? then []
    else
      var date, time := BatchDate(req, today), BatchTime(req, clock);
      DetectionCalls(req.detections.value, g, date, time) + EngagementCalls(Walked(req.engagement), g, date, time)
  }

  /** A detection is persisted exactly when the snapshot is active and its
      student id is truthy; nothing else is. */
  lemma {:induction false} DetectionDispatchedIff(ds: seq<Detection>, g: Gate, date: Date, time: Time, c: Call)
    ensures c in DetectionCalls(ds, g, date, time) <==>
              g.isActive && exists i :: 0 <= i < |ds| && Truthy(ds[i].studentId) && c == AttendanceCallOf(ds[i], g, date, time)
  {
    if ds != [] {
      var n := |ds| - 1;
      DetectionDispatchedIff(ds[..n], g, date, time, c);
      if g.isActive && exists i :: 0 <= i < |ds| && Truthy(ds[i].studentId) && c == AttendanceCallOf(ds[i], g, date, time) {
        var i :| 0 <= i < |ds| && Truthy(ds[i].studentId) && c == AttendanceCallOf(ds[i], g, date, time);
        if i < n {
          assert ds[..n][i] == ds[i];
        }
      }
      if c in DetectionCalls(ds[..n], g, date, time) {
        var i :| 0 <= i < n && Truthy(ds[..n][i].studentId) && c == AttendanceCallOf(ds[..n][i], g, date, time);
        assert ds[i] == ds[..n][i];
      }
    }
  }

  /** An engagement entry is persisted, with its defaults applied, exactly
      when the snapshot is active and its student id is truthy. */
  lemma {:induction false} EngagementDispatchedIff(es: seq<EngagementEntry>, g: Gate, date: Date, time: Time, c: Call)
    ensures c in EngagementCalls(es, g, date, time) <==>
              g.isActive && exists i :: 0 <= i < |es| && Truthy(es[i].studentId) && c == EngagementCallOf(es[i], g, date, time)
  {
    if es != [] {
      var n := |es| - 1;
      EngagementDispatchedIff(es[..n], g, date, time, c);
      if g.isActive && exists i :: 0 <= i < |es| && Truthy(es[i].studentId) && c == EngagementCallOf(es[i], g, date, time) {
        var i :| 0 <= i < |es| && Truthy(es[i].studentId) && c == EngagementCallOf(es[i], g, date, time);
        if i < n {
          assert es[..n][i] == es[i];
        }
      }
      if c in EngagementCalls(es[..n], g, date, time) {
        var i :| 0 <= i < n && Truthy(es[..n][i].studentId) && c == EngagementCallOf(es[..n][i], g, date, time);
        assert es[i] == es[..n][i];
      }
    }
  }

  /** One snapshot gates the whole batch: every call carries the course ids
      of that snapshot, and an inactive snapshot dispatches nothing. */
  lemma OneSnapshotGatesBatch(req: FrameRequest, s: SessionState, today: Date, clock: Time)
    ensures var calls := Dispatched(req, GateOf(s), today, clock);
            && (!s.isActive ==> calls == [])
            && forall c :: c in calls ==>
                 TaggedBy(c, GateOf(s), BatchDate(req, today), BatchTime(req, clock))
                 && c.courseId == OrNull(s.courseId) && c.courseSessionId == OrNull(s.courseSessionId)
  {
    if req.detections.Some? {
      var g, date, time := GateOf(s), BatchDate(req, today), BatchTime(req, clock);
      var ds, es := req.detections.value, Walked(req.engagement);
      forall c | c in Dispatched(req, g, today, clock)
        ensures TaggedBy(c, g, date, time)
      {
        if c in DetectionCalls(ds, g, date, time) {
          DetectionDispatchedIff(ds, g, date, time, c);
        } else {
          EngagementDispatchedIff(es, g, date, time, c);
        }
      }
    }
  }

  // ---------------------------------------------------------------------
  // The response

  datatype FrameError = FrameError(isAttendance: bool, studentId: int, message: string)

  datatype FrameSummary = FrameSummary(
    attendanceRecorded: nat, engagementRecorded: nat, errorCount: nat,
    attendance: seq<Db.AttendanceAck>, engagement: seq<Db.EngagementAck>, errors: seq<FrameError>)

  /** What the handler answers: a 400, the "No data to process" reply, or
      the summaries `sendResponse` emits (ideally exactly one). */
  datatype FrameReply = BadRequest(error: string) | NoData | Emitted(responses: seq<FrameSummary>)

  /** Index `i` is an attendance call that was stored. */
  function StoredAttendanceAt(calls: seq<Call>, outcomes: seq<Outcome>): nat -> bool {
    (i: nat) => i < |calls| && i < |outcomes| && calls[i].AttendanceCall? && outcomes[i].Stored?
  }

  function StoredEngagementAt(calls: seq<Call>, outcomes: seq<Outcome>): nat -> bool {
    (i: nat) => i < |calls| && i < |outcomes| && calls[i].EngagementCall? && outcomes[i].Stored?
  }

  const EmptySummary := FrameSummary(0, 0, 0, [], [], [])

  /** A summary whose counts are its lists' lengths and agree with the
      outcomes of all `n` dispatched calls. */
  predicate Tallies(r: FrameSummary, calls: seq<Call>, outcomes: seq<Outcome>) {
    var n := |calls|;
    && r.attendanceRecorded == |r.attendance| == CountWhere(Range(n), StoredAttendanceAt(calls, outcomes))
    && r.engagementRecorded == |r.engagement| == CountWhere(Range(n), StoredEngagementAt(calls, outcomes))
    && r.errorCount == |r.errors| == CountWhere(Range(n), FailedAt(outcomes))
  }

  /** The counts of a tallying summary add up to the number of dispatched
      calls, which is at most the number of entries in the batch: every
      failure is one error entry and no failure hides another item. */
  lemma {:induction false} TalliesAddUp(r: FrameSummary, req: FrameRequest, g: Gate, today: Date, clock: Time, outcomes: seq<Outcome>)
    requires req.detections.Some?
    requires |outcomes| == |Dispatched(req, g, today, clock)|
    requires Tallies(r, Dispatched(req, g, today, clock), outcomes)
    ensures r.attendanceRecorded + r.engagementRecorded + r.errorCount == |Dispatched(req, g, today, clock)|
    ensures r.attendanceRecorded + r.engagementRecorded + r.errorCount <= |req.detections.value| + |Walked(req.engagement)|
    ensures !g.isActive ==> r.attendanceRecorded == r.engagementRecorded == r.errorCount == 0
  {
    var calls := Dispatched(req, g, today, clock);
    OutcomesPartition(Range(|calls|), calls, outcomes);
  }

  /** Over indices of dispatched calls, each is exactly one of: a stored
      attendance call, a stored engagement call, a failure. */
  lemma {:induction false} OutcomesPartition(s: seq<nat>, calls: seq<Call>, outcomes: seq<Outcome>)
    requires |outcomes| == |calls|
    requires forall k :: 0 <= k < |s| ==> s[k] < |calls|
    ensures CountWhere(s, StoredAttendanceAt(calls, outcomes)) + CountWhere(s, StoredEngagementAt(calls, outcomes))
            + CountWhere(s, FailedAt(outcomes)) == |s|
  {
    if s != [] {
      OutcomesPartition(s[..|s| - 1], calls, outcomes);
    }
  }

  // ---------------------------------------------------------------------
  // The closure state of one batch

  /** The variables the completion callbacks of one request share:
      `processed`, the `results` lists, and the responses sent so far. */
  class FrameBatch {
    const total: nat
    var processed: nat
    var attendance: seq<Db.AttendanceAck>
    var engagement: seq<Db.EngagementAck>
    var errors: seq<FrameError>
    var responses: seq<FrameSummary>

    /** What `sendResponse` would send now. */
    function Summary(): FrameSummary
      reads this
    {
      FrameSummary(|attendance|, |engagement|, |errors|, attendance, engagement, errors)
    }

    constructor (total: nat)
      ensures this.total == total && processed == 0
      ensures attendance == [] && engagement == [] && errors == [] && responses == []
    {
      this.total := total;
      processed := 0;
      attendance, engagement, errors, responses := [], [], [], [];
    }

    /** `if (processed === total) sendResponse();` */
    method SendIfDone()
      modifies this`responses
      ensures responses == old(responses) + (if processed == total then [Summary()] else [])
    {
      if processed == total {
        responses := responses + [Summary()];
      }
    }

    /** A skipped entry: bump the counter, maybe respond. */
    method Skip()
      modifies this`processed, this`responses
      ensures processed == old(processed) + 1
      ensures responses == old(responses) + (if processed == total then [Summary()] else [])
    {
      processed := processed + 1;
      SendIfDone();
    }

    /** One `forEach` callback while nothing has completed yet: a call to
        dispatch is handed on, anything else is skipped. */
    method Visit(dispatch: Option<Call>) returns (sent: seq<Call>)
      requires attendance == [] && engagement == [] && errors == []
      requires processed < total
      requires responses == if processed == total then [EmptySummary] else []
      modifies this`processed, this`responses
      ensures sent == if dispatch.Some? then [dispatch.value] else []
      ensures processed == old(processed) + 1 - |sent|
      ensures responses == if processed == total then [EmptySummary] else []
    {
      if dispatch.Some? {
        sent := [dispatch.value];
      } else {
        sent := [];
        Skip();
      }
    }

    /** The completion callback of a dispatched call. */
    method Complete(call: Call, outcome: Outcome)
      modifies this`processed, this`attendance, this`engagement, this`errors, this`responses
      ensures processed == old(processed) + 1
      ensures attendance == old(attendance) +
                (if call.AttendanceCall? && outcome.Stored?
                 then [Db.AttendanceAck(outcome.rowId, call.studentId, call.courseSessionId, call.courseId)] else [])
      ensures engagement == old(engagement) +
                (if call.EngagementCall? && outcome.Stored?
                 then [Db.EngagementAck(outcome.rowId, call.courseSessionId, call.courseId)] else [])
      ensures errors == old(errors) +
                (if outcome.Failed? then [FrameError(call.AttendanceCall?, call.studentId, outcome.message)] else [])
      ensures responses == old(responses) + (if processed == total then [Summary()] else [])
    {
      processed := processed + 1;
      match outcome {
        case Failed(message) =>
          errors := errors + [FrameError(call.AttendanceCall?, call.studentId, message)];
        case Stored(rowId) =>
          if call.AttendanceCall? {
            attendance := attendance + [Db.AttendanceAck(rowId, call.studentId, call.courseSessionId, call.courseId)];
          } else {
            engagement := engagement + [Db.EngagementAck(rowId, call.courseSessionId, call.courseId)];
          }
      }
      SendIfDone();
    }
  }

  // ---------------------------------------------------------------------
  // The two phases of a batch

  /** The synchronous `forEach` over the detections: dispatch or skip each,
      in order. Nothing has completed yet, so a response sent here has all
      counts zero. */
  method WalkDetections(batch: FrameBatch, ds: seq<Detection>, g: Gate, date: Date, time: Time)
    returns (calls: seq<Call>)
    requires batch.processed == 0 && batch.responses == []
    requires batch.attendance == [] && batch.engagement == [] && batch.errors == []
    requires |ds| <= batch.total && batch.total > 0
    modifies batch`processed, batch`responses
    ensures calls == DetectionCalls(ds, g, date, time)
    ensures batch.processed == |ds| - |calls|
    ensures batch.responses == if batch.processed == batch.total then [EmptySummary] else []
  {
    calls := [];
    var i := 0;
    while i < |ds|
      invariant 0 <= i <= |ds|
      invariant calls == DetectionCalls(ds[..i], g, date, time)
      invariant |calls| <= i
      invariant batch.processed == i - |calls|
      invariant batch.responses == if batch.processed == batch.total then [EmptySummary] else []
    {
      DetectionCallsStep(ds, i, g, date, time);
      var d := ds[i];
      var sent := batch.Visit(if Truthy(d.studentId) && g.isActive then Some(AttendanceCallOf(d, g, date, time)) else None);
      calls := calls + sent;
      i := i + 1;
    }
    assert ds[..i] == ds;
  }

  /** The synchronous `forEach` over the engagement entries, after the
      detections. */
  method WalkEngagement(batch: FrameBatch, es: seq<EngagementEntry>, g: Gate, date: Date, time: Time)
    returns (calls: seq<Call>)
    requires batch.attendance == [] && batch.engagement == [] && batch.errors == []
    requires batch.processed + |es| <= batch.total
    requires batch.responses == if batch.processed == batch.total then [EmptySummary] else []
    modifies batch`processed, batch`responses
    ensures calls == EngagementCalls(es, g, date, time)
    ensures batch.processed == old(batch.processed) + |es| - |calls|
    ensures batch.responses == if batch.processed == batch.total then [EmptySummary] else []
  {
    ghost var start := batch.processed;
    calls := [];
    var j := 0;
    while j < |es|
      invariant 0 <= j <= |es|
      invariant calls == EngagementCalls(es[..j], g, date, time)
      invariant |calls| <= j
      invariant batch.processed == start + j - |calls|
      invariant batch.responses == if batch.processed == batch.total then [EmptySummary] else []
    {
      EngagementCallsStep(es, j, g, date, time);
      var e := es[j];
      var sent := batch.Visit(if Truthy(e.studentId) && g.isActive then Some(EngagementCallOf(e, g, date, time)) else None);
      calls := calls + sent;
      j := j + 1;
    }
    assert es[..j] == es;
  }

  /** The completion callbacks, firing in `order`. */
  method CompleteAll(batch: FrameBatch, calls: seq<Call>, outcomes: seq<Outcome>, order: seq<nat>)
    requires |outcomes| == |calls|
    requires IsOrder(order, |calls|)
    requires batch.processed + |calls| <= batch.total
    requires batch.attendance == [] && batch.engagement == [] && batch.errors == []
    modifies batch`processed, batch`attendance, batch`engagement, batch`errors, batch`responses
    ensures batch.processed == old(batch.processed) + |calls|
    ensures Tallies(batch.Summary(), calls, outcomes)
    ensures batch.responses == old(batch.responses) +
              (if |calls| > 0 && batch.processed == batch.total then [batch.Summary()] else [])
  {
    OrderBounds(order, |calls|);
    ghost var start := batch.processed;
    ghost var before := batch.responses;
    var k := 0;
    while k < |order|
      invariant 0 <= k <= |order|
      invariant batch.processed == start + k
      invariant |batch.attendance| == CountWhere(order[..k], StoredAttendanceAt(calls, outcomes))
      invariant |batch.engagement| == CountWhere(order[..k], StoredEngagementAt(calls, outcomes))
      invariant |batch.errors| == CountWhere(order[..k], FailedAt(outcomes))
      invariant batch.responses == before + (if k > 0 && batch.processed == batch.total then [batch.Summary()] else [])
    {
      assert order[..k + 1][..k] == order[..k];
      var i := order[k];
      batch.Complete(calls[i], outcomes[i]);
      k := k + 1;
    }
    assert order[..k] == order;
    CountOverOrder(order, |calls|, StoredAttendanceAt(calls, outcomes));
    CountOverOrder(order, |calls|, StoredEngagementAt(calls, outcomes));
    CountOverOrder(order, |calls|, FailedAt(outcomes));
  }

  // ---------------------------------------------------------------------
  // The handler as written

  /** `total` as the handler computes it: the engagement field's `length`
      whenever it is truthy, array or not. */
  function TotalAsWritten(req: FrameRequest): (n: nat)
    requires req.detections.Some?
    ensures n == Total(req) + (if req.engagement.NotAList? then req.engagement.length else 0)
  {
    |req.detections.value| + match req.engagement
                             case Missing => 0
                             case Entries(items) => |items|
                             case NotAList(n) => n
  }

  /** How many times the handler as written calls `sendResponse`: once if
      the counter ever reaches `total`, and once more from the check that
      follows the detections loop when there is no engagement array and the
      synchronous skips alone have already reached `total`. */
  function EmissionsAsWritten(req: FrameRequest, g: Gate, today: Date, clock: Time): (e: nat)
    requires req.detections.Some?
    ensures e <= 2
    ensures e == 0 <==> Total(req) < TotalAsWritten(req)
    ensures e == 2 <==> !req.engagement.Entries? && Total(req) == TotalAsWritten(req)
                        && Dispatched(req, g, today, clock) == []
  {
    var total := TotalAsWritten(req);
    var walked := |req.detections.value| + |Walked(req.engagement)|;
    var skipped := walked - |Dispatched(req, g, today, clock)|;
    (if walked == total then 1 else 0) + (if !req.engagement.Entries? && skipped == total then 1 else 0)
  }

  /** With an engagement array the counter reaches `total` exactly once. */
  lemma EmissionsWithArray(req: FrameRequest, g: Gate, today: Date, clock: Time)
    requires req.detections.Some? && req.engagement.Entries?
    ensures TotalAsWritten(req) == |req.detections.value| + |req.engagement.items|
    ensures EmissionsAsWritten(req, g, today, clock) == 1
  {
  }

  /** Without one only the detections dispatch calls, and the check after
      the detections loop may respond a second time. */
  lemma EmissionsWithoutArray(req: FrameRequest, g: Gate, today: Date, clock: Time)
    requires req.detections.Some? && !req.engagement.Entries?
    ensures var ds, date, time := req.detections.value, BatchDate(req, today), BatchTime(req, clock);
            && Dispatched(req, g, today, clock) == DetectionCalls(ds, g, date, time)
            && EmissionsAsWritten(req, g, today, clock)
               == (if |ds| == TotalAsWritten(req) then 1 else 0)
                  + (if |ds| - |DetectionCalls(ds, g, date, time)| == TotalAsWritten(req) then 1 else 0)
  {
    var dispatched := DetectionCalls(req.detections.value, g, BatchDate(req, today), BatchTime(req, clock));
    assert EngagementCalls([], g, BatchDate(req, today), BatchTime(req, clock)) == [];
    assert Dispatched(req, g, today, clock) == dispatched + [] == dispatched;
  }

  /** A validated, non-empty batch as written when `engagement_data` is no
      array: walk the detections, check the counter once more, then run the
      callbacks. (With an array the handler walks both lists and completes
      them exactly as `ServeBatch` does.) */
  method ServeDetectionsAsWritten(ds: seq<Detection>, total: nat, g: Gate, date: Date, time: Time,
                                  outcomes: seq<Outcome>, order: seq<nat>)
    returns (responses: seq<FrameSummary>, calls: seq<Call>)
    requires total > 0 && |ds| <= total
    requires |outcomes| == |DetectionCalls(ds, g, date, time)|
    requires IsOrder(order, |outcomes|)
    ensures calls == DetectionCalls(ds, g, date, time)
    ensures |responses| == (if |ds| == total then 1 else 0) + (if |ds| - |calls| == total then 1 else 0)
    ensures forall r :: r in responses ==> Tallies(r, calls, outcomes)
  {
    var batch := new FrameBatch(total);
    calls := WalkDetections(batch, ds, g, date, time);
    batch.SendIfDone();
    if batch.processed == total {
      assert |calls| == 0 && batch.Summary() == EmptySummary;
      assert batch.responses == [EmptySummary, EmptySummary];
    } else {
      assert batch.responses == [];
    }
    CompleteAll(batch, calls, outcomes, order);
    assert |calls| == 0 ==> batch.Summary() == EmptySummary;
    responses := batch.responses;
  }

  /** A validated, non-empty batch as written: an engagement array is
      walked and completed exactly as `ServeBatch` does; otherwise only the
      detections are, with the extra check after their loop. */
  method ServeAsWritten(req: FrameRequest, g: Gate, today: Date, clock: Time,
                        outcomes: seq<Outcome>, order: seq<nat>)
    returns (responses: seq<FrameSummary>, calls: seq<Call>)
    requires req.detections.Some? && TotalAsWritten(req) > 0
    requires |outcomes| == |Dispatched(req, g, today, clock)|
    requires IsOrder(order, |outcomes|)
    ensures calls == Dispatched(req, g, today, clock)
    ensures |responses| == EmissionsAsWritten(req, g, today, clock)
    ensures forall r :: r in responses ==> Tallies(r, calls, outcomes)
  {
    var ds := req.detections.value;
    var date, time := BatchDate(req, today), BatchTime(req, clock);
    if req.engagement.Entries? {
      EmissionsWithArray(req, g, today, clock);
      responses, calls := ServeBatch(ds, req.engagement.items, g, date, time, outcomes, order);
      assert responses == [responses[0]];
    } else {
      EmissionsWithoutArray(req, g, today, clock);
      responses, calls := ServeDetectionsAsWritten(ds, TotalAsWritten(req), g, date, time, outcomes, order);
    }
  }

  /** The batch handler of `/process-frame` exactly as written, for a given
      snapshot. */
  method RunBatchAsWritten(s: SessionState, req: FrameRequest, today: Date, clock: Time,
                           outcomes: seq<Outcome>, order: seq<nat>)
    returns (reply: FrameReply, calls: seq<Call>)
    requires |outcomes| == |Dispatched(req, GateOf(s), today, clock)|
    requires IsOrder(order, |outcomes|)
    ensures calls == Dispatched(req, GateOf(s), today, clock)
    ensures reply.BadRequest? <==> req.detections.None?
    ensures reply.NoData? <==> req.detections.Some? && TotalAsWritten(req) == 0
    ensures reply.Emitted? ==> |reply.responses| == EmissionsAsWritten(req, GateOf(s), today, clock)
    ensures reply.Emitted? ==> forall r :: r in reply.responses ==> Tallies(r, calls, outcomes)
  {
    if req.detections.None? {
      return BadRequest("detections array is required"), [];
    }
    if TotalAsWritten(req) == 0 {
      return NoData, [];
    }
    var responses;
    responses, calls := ServeAsWritten(req, GateOf(s), today, clock, outcomes, order);
    reply := Emitted(responses);
  }

  /** Without engagement data, a non-empty batch is answered twice by the
      handler as written exactly when every detection is skipped (for
      instance while the session is inactive): the last skip reaches
      `total`, and so does the check after the loop. Any other such batch
      is answered once. */
  lemma DoubleResponseWhenAllSkipped(req: FrameRequest, g: Gate, today: Date, clock: Time)
    requires req.detections.Some? && |req.detections.value| > 0
    requires req.engagement.Missing?
    ensures var calls := DetectionCalls(req.detections.value, g, BatchDate(req, today), BatchTime(req, clock));
            EmissionsAsWritten(req, g, today, clock) == if calls == [] then 2 else 1
  {
    EmissionsWithoutArray(req, g, today, clock);
  }

  /** A concrete request showing it: one detection without a student id. */
  lemma DoubleResponseExample(g: Gate, today: Date, clock: Time)
    ensures EmissionsAsWritten(FrameRequest(Some([Detection(None)]), Missing, None, None), g, today, clock) == 2
  {
    var req := FrameRequest(Some([Detection(None)]), Missing, None, None);
    assert DetectionCalls([Detection(None)], g, BatchDate(req, today), BatchTime(req, clock)) == [] by {
      assert [Detection(None)][..0] == [];
    }
  }

  /** A truthy `engagement_data` that is not an array but has a positive
      `length` is counted in `total` and walked by no loop: the counter never
      reaches `total` and the request is never answered. */
  lemma NoResponseForNonArrayEngagement(req: FrameRequest, g: Gate, today: Date, clock: Time)
    requires req.detections.Some?
    requires req.engagement.NotAList? && req.engagement.length > 0
    ensures TotalAsWritten(req) > 0
    ensures EmissionsAsWritten(req, g, today, clock) == 0
  {
  }

  // ---------------------------------------------------------------------
  // The handler as intended

  /** `total` counting only the entries the loops walk over. */
  function Total(req: FrameRequest): (n: nat)
    requires req.detections.Some?
    ensures req.engagement.Entries? ==> n == |req.detections.value| + |req.engagement.items|
    ensures !req.engagement.Entries? ==> n == |req.detections.value|
  {
    |req.detections.value| + |Walked(req.engagement)|
  }

  /** A validated, non-empty batch as intended: walk both lists, then run
      the callbacks; exactly one of the skips or callbacks responds. */
  method ServeBatch(ds: seq<Detection>, es: seq<EngagementEntry>, g: Gate, date: Date, time: Time,
                    outcomes: seq<Outcome>, order: seq<nat>)
    returns (responses: seq<FrameSummary>, calls: seq<Call>)
    requires |ds| + |es| > 0
    requires |outcomes| == |DetectionCalls(ds, g, date, time) + EngagementCalls(es, g, date, time)|
    requires IsOrder(order, |outcomes|)
    ensures calls == DetectionCalls(ds, g, date, time) + EngagementCalls(es, g, date, time)
    ensures |responses| == 1 && Tallies(responses[0], calls, outcomes)
  {
    var batch := new FrameBatch(|ds| + |es|);
    calls := WalkDetections(batch, ds, g, date, time);
    var more := WalkEngagement(batch, es, g, date, time);
    calls := calls + more;
    assert batch.processed == batch.total ==> |calls| == 0 && batch.Summary() == EmptySummary;
    CompleteAll(batch, calls, outcomes, order);
    assert |calls| == 0 ==> batch.Summary() == EmptySummary;
    responses := batch.responses;
  }

  /** The batch handler of `/process-frame` with the check after the
      detections loop removed and a non-array `engagement_data` counted as
      empty: it answers every well-formed, non-empty batch exactly once, and
      that one summary accounts for every dispatched call. */
  method RunBatch(s: SessionState, req: FrameRequest, today: Date, clock: Time,
                  outcomes: seq<Outcome>, order: seq<nat>)
    returns (reply: FrameReply, calls: seq<Call>)
    requires |outcomes| == |Dispatched(req, GateOf(s), today, clock)|
    requires IsOrder(order, |outcomes|)
    ensures calls == Dispatched(req, GateOf(s), today, clock)
    ensures reply.BadRequest? <==> req.detections.None?
    ensures reply.NoData? <==> req.detections.Some? && Total(req) == 0
    ensures reply.Emitted? ==> |reply.responses| == 1 && Tallies(reply.responses[0], calls, outcomes)
  {
    var g := GateOf(s);
    if req.detections.None? {
      return BadRequest("detections array is required"), [];
    }
    var ds := req.detections.value;
    var date, time := OrDefault(req.sessionDate, today), OrDefault(req.sessionTime, clock);
    var es := if req.engagement.Entries? then req.engagement.items else [];
    var total := |ds| + |es|;
    if total == 0 {
      return NoData, [];
    }
    var responses;
    responses, calls := ServeBatch(ds, es, g, date, time, outcomes, order);
    reply := Emitted(responses);
  }

  /** `POST /process-frame` as written: one read of the session (which may
      expire it, even when the batch is then rejected), then the batch
      handler as written. */
  method ProcessFrame(store: Store, now: int, today: Date, clock: Time, req: FrameRequest,
                      outcomes: seq<Outcome>, order: seq<nat>)
    returns (reply: FrameReply, calls: seq<Call>)
    requires |outcomes| == |Dispatched(req, GateOf(Expire(store.State(), now)), today, clock)|
    requires IsOrder(order, |outcomes|)
    modifies store
    ensures store.State() == Expire(old(store.State()), now)
    ensures calls == Dispatched(req, GateOf(store.State()), today, clock)
    ensures reply.BadRequest? <==> req.detections.None?
    ensures reply.NoData? <==> req.detections.Some? && TotalAsWritten(req) == 0
    ensures reply.Emitted? ==> |reply.responses| == EmissionsAsWritten(req, GateOf(store.State()), today, clock)
    ensures reply.Emitted? ==> forall r :: r in reply.responses ==> Tallies(r, calls, outcomes)
  {
    var snapshot := store.GetState(now);
    reply, calls := RunBatchAsWritten(snapshot, req, today, clock, outcomes, order);
  }

  /** `POST /process-frame` with the corrected batch handler: the same read
      of the session, then exactly one summary for every well-formed,
      non-empty batch. */
  method ProcessFrameCorrected(store: Store, now: int, today: Date, clock: Time, req: FrameRequest,
                               outcomes: seq<Outcome>, order: seq<nat>)
    returns (reply: FrameReply, calls: seq<Call>)
    requires |outcomes| == |Dispatched(req, GateOf(Expire(store.State(), now)), today, clock)|
    requires IsOrder(order, |outcomes|)
    modifies store
    ensures store.State() == Expire(old(store.State()), now)
    ensures calls == Dispatched(req, GateOf(store.State()), today, clock)
    ensures reply.BadRequest? <==> req.detections.None?
    ensures reply.NoData? <==> req.detections.Some? && Total(req) == 0
    ensures reply.Emitted? ==> |reply.responses| == 1 && Tallies(reply.responses[0], calls, outcomes)
  {
    var snapshot := store.GetState(now);
    reply, calls := RunBatch(snapshot, req, today, clock, outcomes, order);
  }

  // ---------------------------------------------------------------------
  // POST /engagement

  datatype EngagementRequest = EngagementRequest(
    studentId: Option<int>, attentionScore: Option<real>,
    eyesOpen: Option<bool>, facingCamera: Option<bool>,
    sessionDate: Option<Date>, sessionTime: Option<Time>)

  datatype EngagementReply =
    | Rejected(error: string)
    | Recorded(ack: Db.EngagementAck, studentId: int, attentionScore: real, sessionDate: Date, sessionTime: Time)
    | ServerError(message: string)

  /** `POST /engagement`: validate, then read the session (possibly expiring
      it) and record the entry whatever `isActive` says, tagged with the
      store's course ids. */
  method PostEngagement(store: Store, db: Db.Database, now: int, today: Date, clock: Time,
                        req: EngagementRequest, fault: Option<string>)
    returns (reply: EngagementReply)
    requires db.Valid()
    modifies store, db`engagement, db`lastEngagementId
    ensures db.Valid()
    ensures reply.Rejected? <==> !Truthy(req.studentId) || req.attentionScore.None?
    ensures reply.Rejected? ==> store.State() == old(store.State()) && db.engagement == old(db.engagement)
    ensures !reply.Rejected? ==> store.State() == Expire(old(store.State()), now)
    ensures !reply.Rejected? && fault.Some? ==> reply == ServerError(fault.value) && db.engagement == old(db.engagement)
    ensures !reply.Rejected? && fault.None? ==>
              && var s := store.State();
              && var row := Db.EngagementRow(old(db.lastEngagementId) + 1, req.studentId.value,
                                             OrDefault(req.sessionDate, today), OrDefault(req.sessionTime, clock),
                                             req.attentionScore.value,
                                             Db.Flag(req.eyesOpen != Some(false)), Db.Flag(req.facingCamera != Some(false)),
                                             OrNull(s.courseSessionId), OrNull(s.courseId));
              && db.engagement == old(db.engagement) + [row]
              && reply == Recorded(Db.EngagementAck(row.id, row.courseSessionId, row.courseId),
                                   row.studentId, row.attentionScore, row.sessionDate, row.sessionTime)
  {
    if !Truthy(req.studentId) {
      return Rejected("Student ID is required");
    }
    if req.attentionScore.None? {
      return Rejected("Attention score is required");
    }
    var date, time := OrDefault(req.sessionDate, today), OrDefault(req.sessionTime, clock);
    var state := store.GetState(now);
    var r := db.RecordEngagement(req.studentId.value, date, time, req.attentionScore.value,
                                 req.eyesOpen != Some(false), req.facingCamera != Some(false),
                                 OrNull(state.courseSessionId), OrNull(state.courseId), fault);
    match r
    case Err(message) =>
      reply := ServerError(message);
    case Ok(ack) =>
      reply := Recorded(ack, req.studentId.value, req.attentionScore.value, date, time);
  }
}
