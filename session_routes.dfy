/** The control endpoints of backend/routes/session.js: status, start and
    stop, each a call into the session store. */
module SessionRoutes {
  import opened Common
  import opened SessionStore

  /** `Math.ceil(a / b)` for a positive divisor. */
  function CeilDiv(a: int, b: int): (q: int)
    requires b > 0
    ensures q * b >= a
    ensures (q - 1) * b < a
  {
    -((-a) / b)
  }

  /** The `remainingSeconds` that `/status` reports for a snapshot read at `now`. */
  function RemainingSeconds(s: SessionState, now: int): (r: nat)
    ensures !s.isActive ==> r == 0
    ensures s.isActive && s.endTime.Some? && s.endTime.value > now ==>
              r * 1000 >= s.endTime.value - now && (r - 1) * 1000 < s.endTime.value - now
    ensures s.isActive && s.endTime.Some? && s.endTime.value <= now ==> r == 0
  {
    if s.isActive then
      var left := CeilDiv((if s.endTime.Some? then s.endTime.value else 0) - now, 1000);
      if left > 0 then left else 0
    else 0
  }

  /** `parseInt(duration) || 10`; None stands for a missing or non-numeric
      duration, for which `parseInt` gives NaN. */
  function StartMinutes(duration: Option<int>): (m: int)
    ensures m != 0
    ensures Truthy(duration) ==> m == duration.value
    ensures !Truthy(duration) ==> m == 10
  {
    if Truthy(duration) then duration.value else 10
  }

  datatype StatusReply = StatusReply(isActive: bool, remainingSeconds: nat, duration: int)

  datatype StartReply = StartReply(isActive: bool, duration: int)

  datatype StopReply = StopReply(isActive: bool)

  /** `GET /status`: the read itself (at `now`) may expire the session; the
      remaining seconds come from a second clock read, `later`. */
  method Status(store: Store, now: int, later: int) returns (reply: StatusReply)
    modifies store
    ensures store.State() == Expire(old(store.State()), now)
    ensures reply.isActive == store.State().isActive
    ensures reply.remainingSeconds == RemainingSeconds(store.State(), later)
    ensures reply.duration == store.State().duration
  {
    var state := store.GetState(now);
    var remaining := if state.isActive
                     then var left := CeilDiv((if state.endTime.Some? then state.endTime.value else 0) - later, 1000);
                          if left > 0 then left else 0
                     else 0;
    reply := StatusReply(state.isActive, remaining, state.duration);
  }

  /** `POST /start`: starts a session without course metadata, overriding
      any session already running. */
  method Start(store: Store, now: int, duration: Option<int>) returns (reply: StartReply)
    modifies store
    ensures store.State() == Started(now, StartMinutes(duration), NoMetadata)
    ensures reply == StartReply(true, StartMinutes(duration))
  {
    var minutes := if Truthy(duration) then duration.value else 10;
    store.StartSession(now, minutes, NoMetadata);
    reply := StartReply(true, minutes);
  }

  /** `POST /stop`: always answers inactive and leaves the initial record. */
  method Stop(store: Store) returns (reply: StopReply)
    modifies store
    ensures store.State() == Initial()
    ensures !reply.isActive
  {
    store.StopSession();
    reply := StopReply(false);
  }

  /** Right after `/start` with a positive duration, `/status` at the same
      instant reports an active session with exactly that many minutes
      left, and no course; a negative duration is accepted by `parseInt` but
      yields a session that the first read already finds expired. */
  lemma StartThenStatus(now: int, duration: Option<int>)
    ensures var m := StartMinutes(duration);
            var s := Expire(Started(now, m, NoMetadata), now);
            && s.courseId == None && s.courseSessionId == None && s.sessionNumber == None
            && s.duration == m
            && (m > 0 ==> s.isActive && RemainingSeconds(s, now) == m * 60)
            && (m < 0 ==> !s.isActive && RemainingSeconds(s, now) == 0)
  {
    var m := StartMinutes(duration);
    var s := Expire(Started(now, m, NoMetadata), now);
    if m > 0 {
      assert s == Started(now, m, NoMetadata);
      var r := RemainingSeconds(s, now);
      assert r * 1000 >= m * 60000 && (r - 1) * 1000 < m * 60000;
    }
  }

  /** While a well-formed session is active, the remaining seconds never
      exceed its duration, measured from its start `start`, and shrink as
      time passes. */
  lemma RemainingShrinks(start: int, minutes: int, meta: Metadata, t1: int, t2: int)
    requires minutes > 0
    requires start <= t1 <= t2
    ensures var s := Started(start, minutes, meta);
            RemainingSeconds(Expire(s, t2), t2) <= RemainingSeconds(Expire(s, t1), t1) <= minutes * 60
  {
    var s := Started(start, minutes, meta);
    var end := start + minutes * 60000;
    var r1 := RemainingSeconds(Expire(s, t1), t1);
    var r2 := RemainingSeconds(Expire(s, t2), t2);
    if t2 <= end && t1 < end {
      assert (r1 - 1) * 1000 < end - t1 <= minutes * 60000;
      if t2 < end {
        assert r2 * 1000 >= end - t2 && (r2 - 1) * 1000 < end - t2;
        assert r1 * 1000 >= end - t1;
      }
    } else if t1 < end {
      assert (r1 - 1) * 1000 < end - t1 <= minutes * 60000;
    }
  }
}
