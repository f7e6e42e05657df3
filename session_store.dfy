/** The process-wide session record of backend/sessionStore.js: one mutable
    object read with lazy expiry and overwritten by start and stop. The
    clock is the parameter `now`, in milliseconds. */
module SessionStore {
  import opened Common

  datatype SessionState = SessionState(
    isActive: bool,
    endTime: Option<int>,      // milliseconds; null while inactive
    duration: int,             // minutes
    courseId: Option<int>,
    courseSessionId: Option<int>,
    sessionNumber: Option<int>)

  /** The optional second argument of `startSession`; `{}` has every field None. */
  datatype Metadata = Metadata(courseId: Option<int>, courseSessionId: Option<int>, sessionNumber: Option<int>)

  const NoMetadata := Metadata(None, None, None)

  /** The record as the module initialises it. */
  function Initial(): (s: SessionState)
    ensures !s.isActive && s.endTime == None && s.duration == 0
    ensures s.courseId == None && s.courseSessionId == None && s.sessionNumber == None
  {
    SessionState(false, None, 0, None, None, None)
  }

  /** The state the store keeps: active exactly while an end time is set. */
  predicate WellFormed(s: SessionState) {
    s.isActive == s.endTime.Some?
  }

  /** `Date.now() > state.endTime`, where a null end time compares as 0. */
  predicate PastEnd(s: SessionState, now: int) {
    now > (if s.endTime.Some? then s.endTime.value else 0)
  }

  /** Lazy expiry, the side effect of every read through `getState`. */
  function Expire(s: SessionState, now: int): (r: SessionState)
    ensures r.isActive <==> s.isActive && !PastEnd(s, now)
    ensures r.isActive ==> r.endTime == s.endTime
    ensures !r.isActive && s.isActive ==> r.endTime == None
    ensures !s.isActive ==> r == s
    ensures r.duration == s.duration && r.courseId == s.courseId
    ensures r.courseSessionId == s.courseSessionId && r.sessionNumber == s.sessionNumber
  {
    if s.isActive && PastEnd(s, now) then s.(isActive := false, endTime := None) else s
  }

  /** The record after `startSession(minutes, meta)` at time `now`. */
  function Started(now: int, minutes: int, meta: Metadata): (s: SessionState)
    ensures s.isActive && s.duration == minutes
    ensures s.endTime == Some(now + minutes * 60000)
    ensures s.courseId == OrNull(meta.courseId)
    ensures s.courseSessionId == OrNull(meta.courseSessionId)
    ensures s.sessionNumber == OrNull(meta.sessionNumber)
  {
    SessionState(true, Some(now + minutes * 60 * 1000), minutes,
                 OrNull(meta.courseId), OrNull(meta.courseSessionId), OrNull(meta.sessionNumber))
  }

  /** Every operation of the store keeps it well formed. */
  lemma OperationsKeepWellFormed(s: SessionState, now: int, minutes: int, meta: Metadata)
    requires WellFormed(s)
    ensures WellFormed(Expire(s, now))
    ensures WellFormed(Started(now, minutes, meta))
    ensures WellFormed(Initial())
  {
  }

  /** A second read at the same instant sees, and changes, nothing more. */
  lemma ExpireIdempotent(s: SessionState, now: int)
    ensures Expire(Expire(s, now), now) == Expire(s, now)
  {
  }

  /** The comparison is strict: at the end time itself the session is still on. */
  lemma ActiveAtEndTime(s: SessionState)
    requires s.isActive && s.endTime.Some?
    ensures Expire(s, s.endTime.value) == s
    ensures !Expire(s, s.endTime.value + 1).isActive
  {
  }

  /** The snapshots returned by successive `getState` calls at `times`. */
  function Observed(s: SessionState, times: seq<int>): (r: seq<SessionState>)
    ensures |r| == |times|
    decreases |times|
  {
    if times == [] then []
    else
      var first := Expire(s, times[0]);
      [first] + Observed(first, times[1..])
  }

  /** Expiry is monotone: the i-th read sees an active session exactly when
      the session was active to begin with and no read up to and including
      it came after the end time. Once a read has expired it, every later
      read sees it inactive, whatever the later times. */
  lemma {:induction false} ObservedActive(s: SessionState, times: seq<int>, i: nat)
    requires WellFormed(s)
    requires i < |times|
    ensures Observed(s, times)[i].isActive <==>
              s.isActive && forall j :: 0 <= j <= i ==> times[j] <= s.endTime.value
    ensures Observed(s, times)[i].isActive ==> Observed(s, times)[i] == s
    decreases |times|
  {
    var first := Expire(s, times[0]);
    if i > 0 {
      ObservedActive(first, times[1..], i - 1);
      assert Observed(s, times)[i] == Observed(first, times[1..])[i - 1];
      if s.isActive && forall j :: 0 <= j <= i ==> times[j] <= s.endTime.value {
        assert first == s;
        forall j | 0 <= j <= i - 1 ensures times[1..][j] <= first.endTime.value {
          assert times[1..][j] == times[j + 1];
        }
      } else if s.isActive && first.isActive {
        assert first == s;
        var j :| 0 <= j <= i && times[j] > s.endTime.value;
        assert j != 0;
        assert times[1..][j - 1] == times[j];
      }
    }
  }

  /** The module-level `state` object. */
  class Store {
    var isActive: bool
    var endTime: Option<int>
    var duration: int
    var courseId: Option<int>
    var courseSessionId: Option<int>
    var sessionNumber: Option<int>

    function State(): SessionState
      reads this
    {
      SessionState(isActive, endTime, duration, courseId, courseSessionId, sessionNumber)
    }

    constructor ()
      ensures State() == Initial()
    {
      isActive, endTime, duration := false, None, 0;
      courseId, courseSessionId, sessionNumber := None, None, None;
    }

    /** `getState`: expire if the end time has passed, then hand out the record. */
    method GetState(now: int) returns (snapshot: SessionState)
      modifies this
      ensures State() == Expire(old(State()), now)
      ensures snapshot == State()
    {
      if isActive && now > (if endTime.Some? then endTime.value else 0) {
        isActive := false;
        endTime := None;
      }
      snapshot := State();
    }

    /** `startSession(durationMinutes, metadata)`: overwrite the record,
        whatever session was running. */
    method StartSession(now: int, durationMinutes: int, meta: Metadata)
      modifies this
      ensures State() == Started(now, durationMinutes, meta)
    {
      isActive := true;
      duration := durationMinutes;
      endTime := Some(now + durationMinutes * 60 * 1000);
      courseId := OrNull(meta.courseId);
      courseSessionId := OrNull(meta.courseSessionId);
      sessionNumber := OrNull(meta.sessionNumber);
    }

    /** `stopSession`: back to the initial record, whatever the prior state;
        so stopping twice leaves what stopping once does. */
    method StopSession()
      modifies this
      ensures State() == Initial()
    {
      isActive := false;
      endTime := None;
      duration := 0;
      courseId := None;
      courseSessionId := None;
      sessionNumber := None;
    }
  }
}
