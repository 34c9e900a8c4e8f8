/** Session validation: the sliding idle window and its coarsened last-seen stamp. */
module SessionIdle {
  import opened Common

  /** The idle timeout (none when zero or less) and the interval within which a validation
      stays read-only (zero: every validation writes). */
  datatype Policy = Policy(idleTimeout: Time, touchInterval: Time)

  /** What the configuration accepts. */
  predicate Accepted(p: Policy) {
    p.touchInterval >= 0 && (p.touchInterval > 0 && p.idleTimeout > 0 ==> p.touchInterval < p.idleTimeout)
  }

  datatype Session = Session(lastSeenAt: Time, expiresAt: Time, revokedAt: Option<Time>)

  /** One validation: its clock readings for the expiry check, the idle check and the
      stamp, whether the user is enabled, and whether the stamp commits. */
  datatype Use = Use(expiry: Time, idle: Time, now: Time, enabled: bool, commits: bool)

  datatype Outcome = Outcome(session: Session, ok: bool)

  predicate Fresh(p: Policy, s: Session, u: Use) {
    && s.revokedAt.None? && u.expiry < s.expiresAt
    && (p.idleTimeout > 0 ==> u.idle < s.lastSeenAt + p.idleTimeout)
  }

  function Validate(p: Policy, s: Session, u: Use): Outcome {
    if !Fresh(p, s, u) || !u.enabled then Outcome(s, false)
    else if p.touchInterval > 0 && u.now < s.lastSeenAt + p.touchInterval then Outcome(s, true)
    else if !u.commits then Outcome(s, false)
    else Outcome(s.(lastSeenAt := u.now), true)
  }

  function Run(p: Policy, s: Session, uses: seq<Use>): Session
    decreases |uses|
  {
    if uses == [] then s else Run(p, Validate(p, s, uses[0]).session, uses[1..])
  }

  /** The time of the last validation that succeeded, from the creation on. */
  function LastUse(p: Policy, s: Session, created: Time, uses: seq<Use>): Time
    decreases |uses|
  {
    if uses == [] then created
    else
      var o := Validate(p, s, uses[0]);
      LastUse(p, o.session, if o.ok then uses[0].now else created, uses[1..])
  }

  /** Clock readings in order. */
  predicate Ordered(uses: seq<Use>, since: Time)
    decreases |uses|
  {
    uses == [] ||
    (since <= uses[0].expiry <= uses[0].idle <= uses[0].now && Ordered(uses[1..], uses[0].now))
  }

  // ----- how far the stamp may lag -----

  /** The stamp is no later than the last use, and earlier by less than the interval. */
  predicate Lags(p: Policy, s: Session, last: Time) {
    s.lastSeenAt <= last && (last == s.lastSeenAt || last < s.lastSeenAt + p.touchInterval)
  }

  lemma {:induction false} LagIsBounded(p: Policy, s: Session, last: Time, since: Time, uses: seq<Use>)
    requires Lags(p, s, last) && last <= since && Ordered(uses, since)
    ensures Lags(p, Run(p, s, uses), LastUse(p, s, last, uses))
    ensures Run(p, s, uses).expiresAt == s.expiresAt && Run(p, s, uses).revokedAt == s.revokedAt
    decreases |uses|
  {
    if uses != [] {
      var o := Validate(p, s, uses[0]);
      LagIsBounded(p, o.session, if o.ok then uses[0].now else last, uses[0].now, uses[1..]);
    }
  }

  // ----- theorems -----

  /** Within the idle timeout of the last use, less the touch interval. */
  predicate SoonEnough(p: Policy, last: Time, at: Time) {
    p.idleTimeout > 0 ==>
      if p.touchInterval > 0 then at <= last + p.idleTimeout - p.touchInterval else at < last + p.idleTimeout
  }

  /** After any run of validations, one whose idle check comes within the idle timeout less
      the touch interval of the last use succeeds; one at the full timeout or beyond, or at
      or after the expiry, never does. */
  lemma NextUse(p: Policy, s: Session, uses: seq<Use>, u: Use)
    requires Ordered(uses, s.lastSeenAt) && Accepted(p) && s.revokedAt.None?
    ensures var last, o := LastUse(p, s, s.lastSeenAt, uses), Validate(p, Run(p, s, uses), u);
      && (u.enabled && u.commits && u.expiry < s.expiresAt && SoonEnough(p, last, u.idle) ==> o.ok)
      && (u.expiry >= s.expiresAt ==> !o.ok)
      && (p.idleTimeout > 0 && u.idle >= last + p.idleTimeout ==> !o.ok)
  {
    LagIsBounded(p, s, s.lastSeenAt, s.lastSeenAt, uses);
  }

  /** Each use comes soon enough after the one before. */
  predicate Close(p: Policy, uses: seq<Use>, last: Time)
    decreases |uses|
  {
    uses == [] || (SoonEnough(p, last, uses[0].idle) && Close(p, uses[1..], uses[0].now))
  }

  predicate AllSucceed(p: Policy, s: Session, uses: seq<Use>)
    decreases |uses|
  {
    uses == [] || (Validate(p, s, uses[0]).ok && AllSucceed(p, Validate(p, s, uses[0]).session, uses[1..]))
  }

  /** A session kept in use never idles out: with consecutive uses close enough, every one
      before the expiry succeeds although the stamp lags. */
  lemma {:induction false} ActiveSessionSurvives(p: Policy, s: Session, last: Time, uses: seq<Use>)
    requires Accepted(p) && s.revokedAt.None? && Lags(p, s, last) && Ordered(uses, last)
    requires Close(p, uses, last)
    requires forall u | u in uses :: u.enabled && u.commits && u.expiry < s.expiresAt
    ensures AllSucceed(p, s, uses)
    decreases |uses|
  {
    if uses != [] {
      assert uses[0] in uses;
      ActiveSessionSurvives(p, Validate(p, s, uses[0]).session, uses[0].now, uses[1..]);
    }
  }

  /** The margin is exact: with a touch interval, a use one tick beyond it can be refused. */
  lemma MarginIsTight(p: Policy, s: Session)
    requires Accepted(p) && p.touchInterval > 0 && p.idleTimeout > 0 && s.revokedAt.None?
    requires s.expiresAt > s.lastSeenAt + p.idleTimeout
    ensures var first := s.lastSeenAt + p.touchInterval - 1;
      var next := first + p.idleTimeout - p.touchInterval + 1;
      var a, b := Use(first, first, first, true, true), Use(next, next, next, true, true);
      && Validate(p, s, a).ok && !Validate(p, Validate(p, s, a).session, b).ok
  {
  }

  // ----- reading, then stamping, with anything in between -----

  /** A validation under way: the copy of the session it read, or its answer. */
  datatype Call = Loaded(copy: Session) | Answered(ok: bool)

  /** The stored session and the validations of its token. */
  datatype System = System(session: Session, calls: map<nat, Call>)

  /** One store access: a validation reads the record, a validation finishes (by its checks
      on the copy, and by the stamp unless it may stay read-only), or the session is revoked. */
  datatype Event = Load(callId: nat) | Finish(callId: nat, use: Use) | Revoke(at: Time)

  function Revoked(s: Session, at: Time): Session {
    if s.revokedAt.None? then s.(revokedAt := Some(at)) else s
  }

  /** The stamp refuses a session that is revoked by now. */
  function Touch(s: Session, u: Use): Outcome {
    if s.revokedAt.Some? || !u.commits then Outcome(s, false) else Outcome(s.(lastSeenAt := u.now), true)
  }

  /** The checks pass and the stamp is recent enough to be left alone. */
  predicate ReadOnly(p: Policy, copy: Session, u: Use) {
    Fresh(p, copy, u) && u.enabled && p.touchInterval > 0 && u.now < copy.lastSeenAt + p.touchInterval
  }

  function Conclude(p: Policy, s: Session, copy: Session, u: Use): Outcome {
    if !Fresh(p, copy, u) || !u.enabled then Outcome(s, false)
    else if ReadOnly(p, copy, u) then Outcome(s, true)
    else Touch(s, u)
  }

  function Apply(p: Policy, sys: System, e: Event): System {
    match e
    case Load(c) => if c in sys.calls then sys else sys.(calls := sys.calls[c := Loaded(sys.session)])
    case Finish(c, u) =>
      if c !in sys.calls || sys.calls[c].Answered? then sys
      else
        var o := Conclude(p, sys.session, sys.calls[c].copy, u);
        System(o.session, sys.calls[c := Answered(o.ok)])
    case Revoke(at) => sys.(session := Revoked(sys.session, at))
  }

  function Perform(p: Policy, sys: System, events: seq<Event>): System
    decreases |events|
  {
    if events == [] then sys else Perform(p, Apply(p, sys, events[0]), events[1..])
  }

  /** Undisturbed, the two steps are the validation above. */
  lemma UndisturbedIsValidate(p: Policy, sys: System, c: nat, u: Use)
    requires c !in sys.calls
    ensures var o := Validate(p, sys.session, u);
      Perform(p, sys, [Load(c), Finish(c, u)]) == System(o.session, sys.calls[c := Answered(o.ok)])
  {
    var loaded := Apply(p, sys, Load(c));
    var finished := Apply(p, loaded, Finish(c, u));
    assert [Load(c), Finish(c, u)][1..] == [Finish(c, u)] && [Finish(c, u)][1..] == [];
    assert Perform(p, sys, [Load(c), Finish(c, u)]) == Perform(p, loaded, [Finish(c, u)]) == Perform(p, finished, []);
    assert finished.calls == sys.calls[c := Answered(Validate(p, sys.session, u).ok)];
  }

  predicate Accepts(sys: System, c: nat) {
    c in sys.calls && sys.calls[c] == Answered(true)
  }

  /** The call has read the session while it was live and has not answered yet. */
  predicate Racing(sys: System, c: nat) {
    c in sys.calls && sys.calls[c].Loaded? && sys.calls[c].copy.revokedAt.None?
  }

  /** A validation succeeds exactly if the session it read was live, unexpired and not idle,
      its user is enabled, and either the stamp it read is recent or the session is still
      live and the new stamp commits; only then is it stamped. */
  lemma FinishSucceedsIff(p: Policy, sys: System, c: nat, u: Use)
    requires c in sys.calls && sys.calls[c].Loaded?
    ensures var copy, next := sys.calls[c].copy, Apply(p, sys, Finish(c, u));
      var recent := p.touchInterval > 0 && u.now < copy.lastSeenAt + p.touchInterval;
      && (Accepts(next, c) <==>
            && copy.revokedAt.None? && u.expiry < copy.expiresAt
            && (p.idleTimeout > 0 ==> u.idle < copy.lastSeenAt + p.idleTimeout)
            && u.enabled && (recent || (sys.session.revokedAt.None? && u.commits)))
      && next.session == if Accepts(next, c) && !recent then sys.session.(lastSeenAt := u.now) else sys.session
  {
  }

  /** The session of a disabled user is refused. */
  lemma DisabledUserIsRefused(p: Policy, sys: System, c: nat, u: Use)
    requires !u.enabled && !Accepts(sys, c)
    ensures !Accepts(Apply(p, sys, Finish(c, u)), c) && Apply(p, sys, Finish(c, u)).session == sys.session
  {
  }

  /** Once a session is revoked, a validation that had read it before succeeds exactly if it
      stays read-only, and one that reads it later never does. */
  lemma FinishAfterRevocationIff(p: Policy, sys: System, c: nat, u: Use)
    requires sys.session.revokedAt.Some? && c in sys.calls && sys.calls[c].Loaded?
    ensures Accepts(Apply(p, sys, Finish(c, u)), c) <==> Racing(sys, c) && ReadOnly(p, sys.calls[c].copy, u)
  {
  }

  /** Over every continuation the session stays revoked and unstamped, and only calls that
      raced the revocation are accepted. */
  lemma {:induction false} RevocationIsFinal(p: Policy, sys: System, events: seq<Event>, c: nat)
    requires sys.session.revokedAt.Some? && !Racing(sys, c) && !Accepts(sys, c)
    ensures Perform(p, sys, events).session == sys.session
    ensures !Accepts(Perform(p, sys, events), c)
    decreases |events|
  {
    if events != [] {
      RevocationIsFinal(p, Apply(p, sys, events[0]), events[1..], c);
    }
  }

  /** So a session revoked by a sign-out is refused to every call that starts after it. */
  lemma SignedOutIsRefused(p: Policy, sys: System, at: Time, events: seq<Event>, c: nat)
    requires c !in sys.calls
    ensures !Accepts(Perform(p, Apply(p, sys, Revoke(at)), events), c)
  {
    RevocationIsFinal(p, Apply(p, sys, Revoke(at)), events, c);
  }

  /** And with every validation writing, to every call that has not answered by then. */
  lemma {:induction false} WritingLeavesNoRace(p: Policy, sys: System, events: seq<Event>, c: nat)
    requires p.touchInterval == 0 && sys.session.revokedAt.Some? && !Accepts(sys, c)
    ensures !Accepts(Perform(p, sys, events), c)
    decreases |events|
  {
    if events != [] {
      var next := Apply(p, sys, events[0]);
      WritingLeavesNoRace(p, next, events[1..], c);
    }
  }

  // ----- the lag with validations in flight -----

  /** The clock readings of the validations, in the order in which they finish. */
  function Readings(events: seq<Event>): seq<Time> {
    if events == [] then []
    else (if events[0].Finish? then [events[0].use.now] else []) + Readings(events[1..])
  }

  predicate InOrder(readings: seq<Time>) {
    |readings| <= 1 || (readings[0] <= readings[1] && InOrder(readings[1..]))
  }

  /** The event is a validation that succeeds. */
  predicate Succeeds(p: Policy, sys: System, e: Event) {
    && e.Finish? && e.callId in sys.calls && sys.calls[e.callId].Loaded?
    && Conclude(p, sys.session, sys.calls[e.callId].copy, e.use).ok
  }

  /** The latest use, when it was `last` before the event. */
  function Latest(p: Policy, sys: System, e: Event, last: Time): Time {
    if Succeeds(p, sys, e) && e.use.now > last then e.use.now else last
  }

  /** All through the run the stamp never moves back and lags the latest use by less than the
      touch interval. */
  predicate Forward(p: Policy, sys: System, events: seq<Event>, last: Time)
    decreases |events|
  {
    && Lags(p, sys.session, last)
    && (events == [] ||
        var next := Apply(p, sys, events[0]);
        && sys.session.lastSeenAt <= next.session.lastSeenAt
        && Forward(p, next, events[1..], Latest(p, sys, events[0], last)))
  }

  /** No validation in flight read a later stamp. */
  predicate CopiesOlder(sys: System) {
    forall c | c in sys.calls && sys.calls[c].Loaded? :: sys.calls[c].copy.lastSeenAt <= sys.session.lastSeenAt
  }

  /** A finish that reads no earlier time than any use before. */
  lemma FinishInOrder(p: Policy, sys: System, e: Event, last: Time)
    requires p.touchInterval >= 0 && Lags(p, sys.session, last) && CopiesOlder(sys) && (e.Finish? ==> last <= e.use.now)
    ensures var next := Apply(p, sys, e);
      && Lags(p, next.session, Latest(p, sys, e, last)) && CopiesOlder(next)
      && sys.session.lastSeenAt <= next.session.lastSeenAt
  {
  }

  predicate Since(readings: seq<Time>, last: Time) {
    forall r | r in readings :: last <= r
  }

  lemma {:induction false} FirstIsLeast(readings: seq<Time>)
    requires InOrder(readings) && readings != []
    ensures Since(readings[1..], readings[0])
  {
    if |readings| > 1 {
      FirstIsLeast(readings[1..]);
      assert readings[1..] == [readings[1]] + readings[1..][1..];
    }
  }

  lemma TailInOrder(readings: seq<Time>, last: Time)
    requires readings != [] && InOrder(readings) && Since(readings, last)
    ensures InOrder(readings[1..]) && Since(readings[1..], last) && last <= readings[0]
  {
    assert readings[0] in readings && forall r | r in readings[1..] :: r in readings;
  }

  lemma ReadingsSplit(events: seq<Event>, last: Time)
    requires events != [] && InOrder(Readings(events)) && Since(Readings(events), last)
    ensures InOrder(Readings(events[1..])) && Since(Readings(events[1..]), last)
    ensures events[0].Finish? ==> last <= events[0].use.now && Since(Readings(events[1..]), events[0].use.now)
  {
    var all, rest := Readings(events), Readings(events[1..]);
    if events[0].Finish? {
      assert all[0] == events[0].use.now && all[1..] == rest;
      TailInOrder(all, last);
      FirstIsLeast(all);
    } else {
      assert all == rest;
    }
  }

  lemma {:induction false} OrderedGoesForward(p: Policy, sys: System, events: seq<Event>, last: Time)
    requires p.touchInterval >= 0 && Lags(p, sys.session, last) && CopiesOlder(sys)
    requires InOrder(Readings(events)) && Since(Readings(events), last)
    ensures Forward(p, sys, events, last)
    decreases |events|
  {
    if events != [] {
      ReadingsSplit(events, last);
      FinishInOrder(p, sys, events[0], last);
      OrderedGoesForward(p, Apply(p, sys, events[0]), events[1..], Latest(p, sys, events[0], last));
    }
  }

  // ----- a stalled validation moves the stamp back -----

  function UseAt(now: Time, idle: Time): Use {
    Use(idle, idle, now, true, true)
  }

  /** Both validations in flight finish, the first with a later reading; all other finishes
      are of calls that do not exist. */
  function Overtaking(readings: seq<Time>, idle: Time): seq<Event> {
    if readings == [] then []
    else if |readings| >= 2 && readings[0] > readings[1] then
      [Finish(0, UseAt(readings[0], idle)), Finish(1, UseAt(readings[1], idle))] + Idle(readings[2..], idle)
    else [Finish(2, UseAt(readings[0], idle))] + Overtaking(readings[1..], idle)
  }

  function Idle(readings: seq<Time>, idle: Time): seq<Event> {
    if readings == [] then [] else [Finish(2, UseAt(readings[0], idle))] + Idle(readings[1..], idle)
  }

  lemma OneReading(e: Event, events: seq<Event>)
    requires e.Finish?
    ensures Readings([e] + events) == [e.use.now] + Readings(events)
  {
    assert ([e] + events)[1..] == events;
  }

  lemma {:induction false} IdleReadings(readings: seq<Time>, idle: Time)
    ensures Readings(Idle(readings, idle)) == readings
  {
    if readings != [] {
      IdleReadings(readings[1..], idle);
      OneReading(Finish(2, UseAt(readings[0], idle)), Idle(readings[1..], idle));
    }
  }

  lemma {:induction false} OvertakingReadings(readings: seq<Time>, idle: Time)
    ensures Readings(Overtaking(readings, idle)) == readings
  {
    if readings == [] {
    } else if |readings| >= 2 && readings[0] > readings[1] {
      var a, b := Finish(0, UseAt(readings[0], idle)), Finish(1, UseAt(readings[1], idle));
      IdleReadings(readings[2..], idle);
      OneReading(b, Idle(readings[2..], idle));
      OneReading(a, [b] + Idle(readings[2..], idle));
      assert [a, b] + Idle(readings[2..], idle) == [a] + ([b] + Idle(readings[2..], idle));
    } else {
      OvertakingReadings(readings[1..], idle);
      OneReading(Finish(2, UseAt(readings[0], idle)), Overtaking(readings[1..], idle));
    }
  }

  /** A session last seen long enough before that every reading stamps it. */
  predicate Due(p: Policy, s: Session, readings: seq<Time>) {
    && s.revokedAt.None? && s.lastSeenAt < s.expiresAt
    && forall r | r in readings :: s.lastSeenAt + p.touchInterval <= r
  }

  function Two(s: Session): System {
    System(s, map[0 := Loaded(s), 1 := Loaded(s)])
  }

  lemma StalledStamps(p: Policy, s: Session, now: Time, later: Time)
    requires s.revokedAt.None? && s.lastSeenAt < s.expiresAt && s.lastSeenAt + p.touchInterval <= now < later
    ensures var first := Apply(p, Two(s), Finish(0, UseAt(later, s.lastSeenAt)));
      && first.session.lastSeenAt == later
      && Apply(p, first, Finish(1, UseAt(now, s.lastSeenAt))).session.lastSeenAt == now
  {
  }

  lemma {:induction false} OvertakingGoesBack(p: Policy, s: Session, readings: seq<Time>, last: Time)
    requires Due(p, s, readings) && !InOrder(readings)
    ensures !Forward(p, Two(s), Overtaking(readings, s.lastSeenAt), last)
  {
    var events := Overtaking(readings, s.lastSeenAt);
    assert readings[1] in readings && forall r | r in readings[1..] :: r in readings;
    if readings[0] > readings[1] {
      StalledStamps(p, s, readings[1], readings[0]);
      assert events[1..][0] == events[1];
    } else {
      assert readings[1..][0] == readings[1];
      assert events[1..] == Overtaking(readings[1..], s.lastSeenAt);
      assert Apply(p, Two(s), events[0]) == Two(s);
      OvertakingGoesBack(p, s, readings[1..], last);
    }
  }

  function Least(readings: seq<Time>): (least: Time)
    ensures forall r | r in readings :: least <= r
  {
    if readings == [] then 0
    else
      var rest := Least(readings[1..]);
      assert readings == [readings[0]] + readings[1..];
      if readings[0] < rest then readings[0] else rest
  }

  /** A run of validations with these readings, of a session last seen before all of them. */
  predicate Reads(sys: System, events: seq<Event>, readings: seq<Time>) {
    CopiesOlder(sys) && Readings(events) == readings && Since(readings, sys.session.lastSeenAt)
  }

  /** With validations in flight the stamp moves forward, lagging the latest use by less than
      the touch interval, on every run with these readings if and only if the validations
      finish in the order of their readings: the stamp is written without a comparison. */
  lemma LagInFlightIff(p: Policy, readings: seq<Time>)
    requires Accepted(p)
    ensures InOrder(readings) <==>
      forall sys, events :: Reads(sys, events, readings) ==> Forward(p, sys, events, sys.session.lastSeenAt)
  {
    if InOrder(readings) {
      forall sys, events | Reads(sys, events, readings) ensures Forward(p, sys, events, sys.session.lastSeenAt) {
        OrderedGoesForward(p, sys, events, sys.session.lastSeenAt);
      }
    } else {
      var seen := Least(readings) - p.touchInterval;
      var s := Session(seen, seen + 1, None);
      OvertakingReadings(readings, seen);
      OvertakingGoesBack(p, s, readings, seen);
      assert Reads(Two(s), Overtaking(readings, seen), readings);
    }
  }

  // ----- the session record, updated in place -----

  class Record {
    var lastSeenAt: Time
    const expiresAt: Time
    var revokedAt: Option<Time>

    function View(): Session
      reads this
    {
      Session(lastSeenAt, expiresAt, revokedAt)
    }

    constructor (now: Time, ttl: Time)
      ensures View() == Session(now, now + ttl, None)
    {
      lastSeenAt, expiresAt, revokedAt := now, now + ttl, None;
    }

    /** The checks on the copy that was read, then the stamp on the record as it is now. */
    method FinishValidation(p: Policy, copy: Session, u: Use) returns (ok: bool)
      modifies this
      ensures Outcome(View(), ok) == Conclude(p, old(View()), copy, u)
    {
      if copy.revokedAt.Some? || u.expiry >= copy.expiresAt {
        return false;
      }
      if p.idleTimeout > 0 && u.idle >= copy.lastSeenAt + p.idleTimeout {
        return false;
      }
      if !u.enabled {
        return false;
      }
      if p.touchInterval > 0 && u.now < copy.lastSeenAt + p.touchInterval {
        return true;
      }
      ok := TouchSession(u);
    }

    method TouchSession(u: Use) returns (ok: bool)
      modifies this
      ensures Outcome(View(), ok) == Touch(old(View()), u)
    {
      if revokedAt.Some? || !u.commits {
        return false;
      }
      lastSeenAt := u.now;
      return true;
    }

    /** Closes the record for every validation that reads it from now on. */
    method RevokeSession(at: Time)
      modifies this
      ensures View() == Revoked(old(View()), at)
      ensures forall p, u, s :: !Conclude(p, s, View(), u).ok
    {
      if revokedAt.None? {
        revokedAt := Some(at);
      }
    }
  }
}
