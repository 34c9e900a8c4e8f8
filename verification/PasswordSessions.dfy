/** Passwords, sign-ins and server-side sessions as one interleaved system: no password
    that was replaced has, or can get, a live session. */
module PasswordSessions {
  import opened Common
  import opened Uuid
  import opened SignIn

  /** A session; `under` is the hash its authentication completed against, for one minted
      with a fingerprint, kept as history. */
  datatype Session = Session(userId: Id, under: Option<Hash>, revokedAt: Option<Time>)

  /** `seen` is every hash ever stored. */
  datatype System = System(
    passwords: map<Id, Hash>, sessions: map<Id, Session>, calls: map<nat, Call>, seen: set<Hash>)

  const INITIAL := System(map[], map[], map[], {})

  /** One store transaction, or one store access of a sign-in call. Creating an account may
      hand out an authentication for it at once, as a bootstrap, a signup and an accepted
      invitation do. */
  datatype Event =
    | CreateAccount(userId: Id, hash: Hash, signedIn: Option<nat>)
    | ChangePassword(userId: Id, hash: Hash, at: Time)
    | CompleteReset(userId: Id, hash: Hash, at: Time)
    | StartSignIn(callId: nat, userId: Id, password: Password)
    | StepSignIn(callId: nat, env: Env)
    | PromoteTotp(callId: nat, promotedId: nat)
    | CreateSession(sessionId: Id, callId: nat)
    | CreateUnguardedSession(sessionId: Id, userId: Id)
    | RevokeSession(sessionId: Id, at: Time)
    | RevokeUserSessions(userId: Id, at: Time)

  function StoredHash(passwords: map<Id, Hash>, userId: Id): Option<Hash> {
    if userId in passwords then Some(passwords[userId]) else None
  }

  function StampSession(s: Session, at: Time): Session {
    if s.revokedAt.None? then s.(revokedAt := Some(at)) else s
  }

  function RevokeAll(sessions: map<Id, Session>, userId: Id, at: Time): map<Id, Session> {
    map id | id in sessions :: if sessions[id].userId == userId then StampSession(sessions[id], at) else sessions[id]
  }

  function Install(sys: System, userId: Id, hash: Hash): System {
    sys.(passwords := sys.passwords[userId := hash], seen := sys.seen + {hash})
  }

  function StepCall(fp: Hash -> Digest, sys: System, c: nat, env: Env): System
    requires c in sys.calls
  {
    var call := sys.calls[c];
    if call.Done? || call.Rejected? then sys
    else
      var stored := StoredHash(sys.passwords, call.userId);
      var p := Step(fp, call, stored, env);
      var stepped := sys.(calls := sys.calls[c := p.call]);
      if p.stored != stored && p.stored.Some? then Install(stepped, call.userId, p.stored.value) else stepped
  }

  /** The store mints a session only while the fingerprint the authentication carries is
      that of the hash stored now. */
  predicate Guard(fp: Hash -> Digest, sys: System, auth: Authentication) {
    auth.userId in sys.passwords && fp(sys.passwords[auth.userId]) == auth.digest
  }

  function Apply(fp: Hash -> Digest, sys: System, e: Event): System {
    match e
    case CreateAccount(userId, hash, signedIn) =>
      if userId in sys.passwords then sys
      else if signedIn.Some? && signedIn.value !in sys.calls then
        Install(sys, userId, hash).(calls := sys.calls[signedIn.value := Done(Grant(fp, userId, false, hash))])
      else Install(sys, userId, hash)
    case ChangePassword(userId, hash, at) =>
      if userId !in sys.passwords then sys
      else Install(sys, userId, hash).(sessions := RevokeAll(sys.sessions, userId, at))
    case CompleteReset(userId, hash, at) =>
      Install(sys, userId, hash).(sessions := RevokeAll(sys.sessions, userId, at))
    case StartSignIn(c, userId, password) =>
      if c in sys.calls then sys else sys.(calls := sys.calls[c := Begun(userId, password)])
    case StepSignIn(c, env) => if c in sys.calls then StepCall(fp, sys, c, env) else sys
    case PromoteTotp(c, promoted) =>
      if c !in sys.calls || !sys.calls[c].Done? || promoted in sys.calls then sys
      else sys.(calls := sys.calls[promoted := Done(sys.calls[c].auth.(pending := false))])
    case CreateSession(id, c) =>
      if id in sys.sessions || c !in sys.calls || !sys.calls[c].Done? || !Guard(fp, sys, sys.calls[c].auth) then sys
      else
        var auth := sys.calls[c].auth;
        sys.(sessions := sys.sessions[id := Session(auth.userId, Some(auth.under), None)])
    case CreateUnguardedSession(id, userId) =>
      if id in sys.sessions then sys else sys.(sessions := sys.sessions[id := Session(userId, None, None)])
    case RevokeSession(id, at) =>
      if id !in sys.sessions then sys
      else sys.(sessions := sys.sessions[id := StampSession(sys.sessions[id], at)])
    case RevokeUserSessions(userId, at) => sys.(sessions := RevokeAll(sys.sessions, userId, at))
  }

  function Run(fp: Hash -> Digest, sys: System, events: seq<Event>): System
    decreases |events|
  {
    if events == [] then sys else Run(fp, Apply(fp, sys, events[0]), events[1..])
  }

  ghost predicate Reachable(fp: Hash -> Digest, sys: System) {
    exists events: seq<Event> :: sys == Run(fp, INITIAL, events)
  }

  // ----- the invariant -----

  /** Two different hashes that were both stored have one fingerprint. */
  predicate Collides(fp: Hash -> Digest, seen: set<Hash>) {
    exists a, b | a in seen && b in seen :: a != b && fp(a) == fp(b)
  }

  predicate LiveByPassword(s: Session) {
    s.revokedAt.None? && s.under.Some?
  }

  /** The session is closed, was not minted by a password, or was minted under the password
      its user has now. */
  predicate Current(passwords: map<Id, Hash>, s: Session) {
    LiveByPassword(s) ==>
      s.userId in passwords && passwords[s.userId].password == s.under.value.password
  }

  predicate CallSeen(seen: set<Hash>, call: Call) {
    match call
    case Begun(_, _) => true
    case Done(auth) => auth.under in seen
    case Rejected => true
    case _ => call.current in seen
  }

  predicate CallsOk(fp: Hash -> Digest, calls: map<nat, Call>, seen: set<Hash>) {
    forall c | c in calls :: CallOk(fp, calls[c]) && CallSeen(seen, calls[c])
  }

  predicate PasswordsSeen(passwords: map<Id, Hash>, seen: set<Hash>) {
    forall u | u in passwords :: passwords[u] in seen
  }

  predicate SessionsCurrent(passwords: map<Id, Hash>, sessions: map<Id, Session>) {
    forall id | id in sessions :: Current(passwords, sessions[id])
  }

  predicate Inv(fp: Hash -> Digest, sys: System) {
    && CallsOk(fp, sys.calls, sys.seen)
    && PasswordsSeen(sys.passwords, sys.seen)
    && (SessionsCurrent(sys.passwords, sys.sessions) || Collides(fp, sys.seen))
  }

  // ----- preservation -----

  lemma CollisionStays(fp: Hash -> Digest, seen: set<Hash>, more: set<Hash>)
    requires seen <= more && Collides(fp, seen)
    ensures Collides(fp, more)
  {
    var a, b :| a in seen && b in seen && a != b && fp(a) == fp(b);
    assert a in more && b in more;
  }

  lemma StepCallKeepsInv(fp: Hash -> Digest, sys: System, c: nat, env: Env)
    requires Inv(fp, sys) && c in sys.calls
    ensures Inv(fp, StepCall(fp, sys, c, env))
    ensures forall u :: u in sys.passwords ==>
      u in StepCall(fp, sys, c, env).passwords &&
      StepCall(fp, sys, c, env).passwords[u].password == sys.passwords[u].password
  {
    var call := sys.calls[c];
    if !call.Done? && !call.Rejected? {
      var stored := StoredHash(sys.passwords, call.userId);
      StepKeepsPassword(fp, call, stored, env);
      var next := StepCall(fp, sys, c, env);
      assert sys.seen <= next.seen;
      assert SessionsCurrent(sys.passwords, sys.sessions) ==> SessionsCurrent(next.passwords, next.sessions);
      if Collides(fp, sys.seen) {
        CollisionStays(fp, sys.seen, next.seen);
      }
    }
  }

  /** The event replaces the password of its user: a change needs one to replace, a reset
      does not. */
  predicate Replaces(sys: System, e: Event) {
    (e.ChangePassword? && e.userId in sys.passwords) || e.CompleteReset?
  }

  /** A change or a reset stores the new hash and keeps every live session current, as it
      closes the user's. */
  lemma ReplaceKeepsInv(fp: Hash -> Digest, sys: System, e: Event)
    requires Inv(fp, sys) && Replaces(sys, e)
    ensures Inv(fp, Apply(fp, sys, e)) && StoredHash(Apply(fp, sys, e).passwords, e.userId) == Some(e.hash)
  {
    if Collides(fp, sys.seen) {
      CollisionStays(fp, sys.seen, sys.seen + {e.hash});
    }
  }

  /** A session passes the guard under the current password, unless two stored hashes share
      a fingerprint. */
  lemma MintingKeepsInv(fp: Hash -> Digest, sys: System, id: Id, c: nat)
    requires Inv(fp, sys)
    ensures Inv(fp, Apply(fp, sys, CreateSession(id, c)))
  {
    if id !in sys.sessions && c in sys.calls && sys.calls[c].Done? && Guard(fp, sys, sys.calls[c].auth) {
      var auth := sys.calls[c].auth;
      var stored := sys.passwords[auth.userId];
      assert fp(stored) == fp(auth.under);
      if stored != auth.under {
        assert stored in sys.seen && auth.under in sys.seen;
        assert Collides(fp, sys.seen);
      }
    }
  }

  lemma ApplyKeepsInv(fp: Hash -> Digest, sys: System, e: Event)
    requires Inv(fp, sys)
    ensures Inv(fp, Apply(fp, sys, e))
  {
    match e
    case CreateAccount(userId, hash, _) =>
      if userId !in sys.passwords && Collides(fp, sys.seen) {
        CollisionStays(fp, sys.seen, sys.seen + {hash});
      }
    case ChangePassword(userId, hash, at) =>
      if userId in sys.passwords {
        ReplaceKeepsInv(fp, sys, e);
      }
    case CompleteReset(userId, hash, at) =>
      ReplaceKeepsInv(fp, sys, e);
    case StepSignIn(c, env) =>
      if c in sys.calls {
        StepCallKeepsInv(fp, sys, c, env);
      }
    case CreateSession(id, c) =>
      MintingKeepsInv(fp, sys, id, c);
    case _ =>
  }

  lemma {:induction false} RunKeepsInv(fp: Hash -> Digest, sys: System, events: seq<Event>)
    requires Inv(fp, sys)
    ensures Inv(fp, Run(fp, sys, events))
    decreases |events|
  {
    if events != [] {
      ApplyKeepsInv(fp, sys, events[0]);
      RunKeepsInv(fp, Apply(fp, sys, events[0]), events[1..]);
    }
  }

  // ----- theorems -----

  /** In every run of sign-ins, rehashes, changes, resets and session creations, each live
      session minted with a fingerprint was minted under the password that is current now,
      or two hashes the system stored share a fingerprint. */
  lemma LiveSessionsAreCurrent(fp: Hash -> Digest, sys: System)
    requires Reachable(fp, sys)
    ensures !Collides(fp, sys.seen) ==> forall id | id in sys.sessions && LiveByPassword(sys.sessions[id]) ::
      var session := sys.sessions[id];
      session.userId in sys.passwords && sys.passwords[session.userId].password == session.under.value.password
  {
    var events: seq<Event> :| sys == Run(fp, INITIAL, events);
    RunKeepsInv(fp, INITIAL, events);
    if !Collides(fp, sys.seen) {
      assert SessionsCurrent(sys.passwords, sys.sessions);
    }
  }

  /** The event installs a password for a user. */
  predicate Installs(e: Event, userId: Id, password: Password) {
    (e.CreateAccount? || e.ChangePassword? || e.CompleteReset?) && e.userId == userId && e.hash.password == password
  }

  predicate Has(passwords: map<Id, Hash>, userId: Id, password: Password) {
    userId in passwords && passwords[userId].password == password
  }

  /** A password a user does not have comes back only by an event that installs it. */
  lemma {:induction false} NotInstalledNotCurrent(fp: Hash -> Digest, sys: System, events: seq<Event>, userId: Id,
                                                  password: Password)
    requires Inv(fp, sys) && !Has(sys.passwords, userId, password)
    requires forall e | e in events :: !Installs(e, userId, password)
    ensures !Has(Run(fp, sys, events).passwords, userId, password)
    decreases |events|
  {
    if events != [] {
      var e := events[0];
      assert e in events;
      NotInstalledStep(fp, sys, e, userId, password);
      ApplyKeepsInv(fp, sys, e);
      NotInstalledNotCurrent(fp, Apply(fp, sys, e), events[1..], userId, password);
    }
  }

  /** Once a password is replaced it never has a live session again, whatever sign-ins,
      rehashes, promotions and session creations are under way or follow, for as long as no
      event installs it anew; or two stored hashes share a fingerprint. */
  lemma ReplacedPasswordIsLockedOut(fp: Hash -> Digest, sys: System, events: seq<Event>, userId: Id, replaced: Password)
    requires Reachable(fp, sys) && !Has(sys.passwords, userId, replaced)
    requires forall e | e in events :: !Installs(e, userId, replaced)
    ensures var later := Run(fp, sys, events);
      !Collides(fp, later.seen) ==> forall id | id in later.sessions && later.sessions[id].userId == userId ::
        LiveByPassword(later.sessions[id]) ==> later.sessions[id].under.value.password != replaced
  {
    var before: seq<Event> :| sys == Run(fp, INITIAL, before);
    RunKeepsInv(fp, INITIAL, before);
    RunKeepsInv(fp, sys, events);
    NotInstalledNotCurrent(fp, sys, events, userId, replaced);
    var later := Run(fp, sys, events);
    if !Collides(fp, later.seen) {
      assert SessionsCurrent(later.passwords, later.sessions);
    }
  }

  // ----- what a change and a reset do -----

  /** Every session of the user is closed, at `at` unless it was before, and no other session
      is touched. */
  ghost predicate ClosesJust(before: map<Id, Session>, after: map<Id, Session>, userId: Id, at: Time) {
    && after.Keys == before.Keys
    && forall id | id in before ::
         after[id] == if before[id].userId == userId && before[id].revokedAt.None?
                      then before[id].(revokedAt := Some(at)) else before[id]
  }

  /** A change or a reset stores the new hash, closes the user's sessions, and touches no
      other user and no sign-in. */
  lemma ReplacementInstalls(fp: Hash -> Digest, sys: System, e: Event)
    requires Replaces(sys, e)
    ensures var next := Apply(fp, sys, e);
      && StoredHash(next.passwords, e.userId) == Some(e.hash)
      && (forall u | u != e.userId :: StoredHash(next.passwords, u) == StoredHash(sys.passwords, u))
      && ClosesJust(sys.sessions, next.sessions, e.userId, e.at) && next.calls == sys.calls
  {
  }

  /** Signing a user out everywhere, or one session out, closes just that; an account is
      created with its password unless the user has one; a second factor completes a copy of
      the sign-in it was asked for. */
  lemma OtherEventsEffect(fp: Hash -> Digest, sys: System, e: Event)
    ensures var next := Apply(fp, sys, e);
      && (e.RevokeUserSessions? ==>
            ClosesJust(sys.sessions, next.sessions, e.userId, e.at) && next.passwords == sys.passwords)
      && (e.RevokeSession? && e.sessionId in sys.sessions ==>
            && e.sessionId in next.sessions && next.sessions[e.sessionId].revokedAt.Some?
            && next.sessions[e.sessionId].userId == sys.sessions[e.sessionId].userId
            && next == sys.(sessions := sys.sessions[e.sessionId := next.sessions[e.sessionId]]))
      && (e.CreateAccount? ==>
            && StoredHash(next.passwords, e.userId) ==
                 (if e.userId in sys.passwords then Some(sys.passwords[e.userId]) else Some(e.hash))
            && forall u | u != e.userId :: StoredHash(next.passwords, u) == StoredHash(sys.passwords, u))
      && (e.CreateAccount? && e.userId !in sys.passwords && e.signedIn.Some? && e.signedIn.value !in sys.calls ==>
            && e.signedIn.value in next.calls
            && next.calls[e.signedIn.value] == Done(Authentication(e.userId, false, fp(e.hash), e.hash)))
      && (e.CreateUnguardedSession? && e.sessionId !in sys.sessions ==>
            next == sys.(sessions := sys.sessions[e.sessionId := Session(e.userId, None, None)]))
      && (e.PromoteTotp? && e.callId in sys.calls && sys.calls[e.callId].Done? && e.promotedId !in sys.calls ==>
            var auth := sys.calls[e.callId].auth;
            next == sys.(calls := sys.calls[e.promotedId := Done(Authentication(auth.userId, false, auth.digest, auth.under))]))
  {
  }

  /** A sign-in under way with a password. */
  predicate SigningIn(call: Call, userId: Id, password: Password) {
    !call.Done? && !call.Rejected? && call.userId == userId && call.password == password
  }

  lemma SigningInStep(fp: Hash -> Digest, sys: System, e: Event, userId: Id, password: Password, c: nat)
    requires Inv(fp, sys) && !Has(sys.passwords, userId, password) && c in sys.calls && SigningIn(sys.calls[c], userId, password)
    ensures var next := Apply(fp, sys, e);
      c in next.calls && (SigningIn(next.calls[c], userId, password) || next.calls[c].Rejected?)
  {
    if e.StepSignIn? && e.callId == c {
      CompletionIsCurrent(fp, sys.calls[c], StoredHash(sys.passwords, userId), e.env);
    }
  }

  lemma RejectedStays(fp: Hash -> Digest, sys: System, e: Event, c: nat)
    requires c in sys.calls && sys.calls[c].Rejected?
    ensures c in Apply(fp, sys, e).calls && Apply(fp, sys, e).calls[c].Rejected?
  {
  }

  /** A sign-in under way with a password its user does not have never completes, for as long
      as no event installs that password. */
  lemma {:induction false} NeverCompletes(fp: Hash -> Digest, sys: System, events: seq<Event>, userId: Id,
                                          password: Password, c: nat)
    requires Inv(fp, sys) && !Has(sys.passwords, userId, password) && c in sys.calls
    requires SigningIn(sys.calls[c], userId, password) || sys.calls[c].Rejected?
    requires forall e | e in events :: !Installs(e, userId, password)
    ensures var later := Run(fp, sys, events);
      c in later.calls && (SigningIn(later.calls[c], userId, password) || later.calls[c].Rejected?)
    decreases |events|
  {
    if events != [] {
      var e := events[0];
      assert e in events;
      if sys.calls[c].Rejected? {
        RejectedStays(fp, sys, e, c);
      } else {
        SigningInStep(fp, sys, e, userId, password, c);
      }
      NotInstalledStep(fp, sys, e, userId, password);
      ApplyKeepsInv(fp, sys, e);
      NeverCompletes(fp, Apply(fp, sys, e), events[1..], userId, password, c);
    }
  }

  lemma NotInstalledStep(fp: Hash -> Digest, sys: System, e: Event, userId: Id, password: Password)
    requires Inv(fp, sys) && !Has(sys.passwords, userId, password) && !Installs(e, userId, password)
    ensures !Has(Apply(fp, sys, e).passwords, userId, password)
  {
    if e.StepSignIn? && e.callId in sys.calls {
      StepCallKeepsInv(fp, sys, e.callId, e.env);
    }
  }

  /** A user no event gives a password to is rejected at the first access of a sign-in. */
  lemma NewSignInRejected(fp: Hash -> Digest, sys: System, userId: Id, password: Password, c: nat, env: Env)
    requires !Has(sys.passwords, userId, password) && c !in sys.calls
    ensures var end := Apply(fp, Apply(fp, sys, StartSignIn(c, userId, password)), StepSignIn(c, env));
      c in end.calls && end.calls[c] == Rejected
  {
  }

  /** From every reachable state: after a change or a reset to another password, and until an
      event installs the old one, the old password has no live session, no sign-in under way
      with it completes, and every sign-in begun with it is rejected. */
  lemma ReplacementLocksOut(fp: Hash -> Digest, sys: System, e: Event, events: seq<Event>, old': Password, c: nat, env: Env)
    requires Reachable(fp, sys) && Replaces(sys, e) && e.hash.password != old'
    requires forall f | f in events :: !Installs(f, e.userId, old')
    ensures var next, later := Apply(fp, sys, e), Run(fp, Apply(fp, sys, e), events);
      && !Has(later.passwords, e.userId, old')
      && (!Collides(fp, later.seen) ==> forall id | id in later.sessions && later.sessions[id].userId == e.userId ::
            LiveByPassword(later.sessions[id]) ==> later.sessions[id].under.value.password != old')
      && (c in next.calls && SigningIn(next.calls[c], e.userId, old') ==>
            c in later.calls && (SigningIn(later.calls[c], e.userId, old') || later.calls[c].Rejected?))
      && (c !in later.calls ==>
            var end := Apply(fp, Apply(fp, later, StartSignIn(c, e.userId, old')), StepSignIn(c, env));
            c in end.calls && end.calls[c] == Rejected)
  {
    var next, later := Apply(fp, sys, e), Run(fp, Apply(fp, sys, e), events);
    ReachableStep(fp, sys, e);
    ReplacementInstalls(fp, sys, e);
    ReplacedPasswordIsLockedOut(fp, next, events, e.userId, old');
    ReachableInv(fp, next);
    NotInstalledNotCurrent(fp, next, events, e.userId, old');
    if c in next.calls && SigningIn(next.calls[c], e.userId, old') {
      NeverCompletes(fp, next, events, e.userId, old', c);
    }
    if c !in later.calls {
      NewSignInRejected(fp, later, e.userId, old', c, env);
    }
  }

  lemma ReachableInv(fp: Hash -> Digest, sys: System)
    requires Reachable(fp, sys)
    ensures Inv(fp, sys)
  {
    var events: seq<Event> :| sys == Run(fp, INITIAL, events);
    RunKeepsInv(fp, INITIAL, events);
  }

  lemma {:induction false} RunSplits(fp: Hash -> Digest, sys: System, a: seq<Event>, b: seq<Event>)
    ensures Run(fp, sys, a + b) == Run(fp, Run(fp, sys, a), b)
    decreases |a|
  {
    if a == [] {
      assert a + b == b;
    } else {
      assert (a + b)[1..] == a[1..] + b;
      RunSplits(fp, Apply(fp, sys, a[0]), a[1..], b);
    }
  }

  lemma RunOne(fp: Hash -> Digest, sys: System, e: Event)
    ensures Run(fp, sys, [e]) == Apply(fp, sys, e)
  {
    assert [e][1..] == [];
    assert Run(fp, Apply(fp, sys, e), []) == Apply(fp, sys, e);
  }

  lemma ReachableStep(fp: Hash -> Digest, sys: System, e: Event)
    requires Reachable(fp, sys)
    ensures Reachable(fp, Apply(fp, sys, e))
  {
    var events: seq<Event> :| sys == Run(fp, INITIAL, events);
    RunSplits(fp, INITIAL, events, [e]);
    RunOne(fp, sys, e);
    assert Run(fp, INITIAL, events + [e]) == Apply(fp, sys, e);
  }

  // ----- the new password signs in -----

  function Plain(secondFactor: bool): Env {
    Env(true, None, secondFactor, true)
  }

  /** Four undisturbed accesses of a sign-in begun with the stored password. */
  function SignedIn(fp: Hash -> Digest, sys: System, c: nat, userId: Id, password: Password, secondFactor: bool): System {
    var begun := Apply(fp, sys, StartSignIn(c, userId, password));
    var verified := Apply(fp, begun, StepSignIn(c, Plain(secondFactor)));
    var rehashed := Apply(fp, verified, StepSignIn(c, Plain(secondFactor)));
    var looked := Apply(fp, rehashed, StepSignIn(c, Plain(secondFactor)));
    Apply(fp, looked, StepSignIn(c, Plain(secondFactor)))
  }

  lemma StoredPasswordSignsIn(fp: Hash -> Digest, sys: System, c: nat, userId: Id, hash: Hash, secondFactor: bool)
    requires StoredHash(sys.passwords, userId) == Some(hash) && c !in sys.calls
    ensures SignedIn(fp, sys, c, userId, hash.password, secondFactor) ==
      sys.(calls := sys.calls[c := Done(Authentication(userId, secondFactor, fp(hash), hash))])
  {
    var password := hash.password;
    var begun := Apply(fp, sys, StartSignIn(c, userId, password));
    var verified := Apply(fp, begun, StepSignIn(c, Plain(secondFactor)));
    assert verified == sys.(calls := begun.calls[c := Verified(userId, password, hash)]);
    var rehashed := Apply(fp, verified, StepSignIn(c, Plain(secondFactor)));
    assert rehashed == sys.(calls := verified.calls[c := Rehashed(userId, password, hash)]);
    var looked := Apply(fp, rehashed, StepSignIn(c, Plain(secondFactor)));
    assert looked == sys.(calls := rehashed.calls[c := if secondFactor then Confirming(userId, password, hash)
                                                       else Finalizing(userId, password, hash, 0)]);
    var done := Apply(fp, looked, StepSignIn(c, Plain(secondFactor)));
    assert done.calls == sys.calls[c := Done(Authentication(userId, secondFactor, fp(hash), hash))];
  }

  /** After a change or a reset the new password signs in, undisturbed, and its session is
      minted live. */
  lemma ReplacementSignsIn(fp: Hash -> Digest, sys: System, e: Event, c: nat, id: Id)
    requires Replaces(sys, e) && c !in sys.calls && id !in sys.sessions
    ensures var signedIn := SignedIn(fp, Apply(fp, sys, e), c, e.userId, e.hash.password, false);
      var minted := Apply(fp, signedIn, CreateSession(id, c));
      && c in signedIn.calls && signedIn.calls[c] == Done(Authentication(e.userId, false, fp(e.hash), e.hash))
      && id in minted.sessions && minted.sessions[id] == Session(e.userId, Some(e.hash), None)
  {
    ReplacementInstalls(fp, sys, e);
    StoredPasswordSignsIn(fp, Apply(fp, sys, e), c, e.userId, e.hash, false);
  }

  // ----- minting -----

  /** A finished sign-in can mint a session exactly while the very hash it finished against
      is the one stored: after a change, a reset or even a rehash it no longer can. */
  lemma MintsExactlyWhileStored(fp: Hash -> Digest, sys: System, id: Id, c: nat)
    requires Reachable(fp, sys) && !Collides(fp, sys.seen)
    requires c in sys.calls && sys.calls[c].Done? && id !in sys.sessions
    ensures var auth := sys.calls[c].auth;
      id in Apply(fp, sys, CreateSession(id, c)).sessions <==> StoredHash(sys.passwords, auth.userId) == Some(auth.under)
    ensures var auth, next := sys.calls[c].auth, Apply(fp, sys, CreateSession(id, c));
      id in next.sessions ==> next == sys.(sessions := sys.sessions[id := Session(auth.userId, Some(auth.under), None)])
  {
    var events: seq<Event> :| sys == Run(fp, INITIAL, events);
    RunKeepsInv(fp, INITIAL, events);
    var auth := sys.calls[c].auth;
    if Guard(fp, sys, auth) {
      var stored := sys.passwords[auth.userId];
      assert stored in sys.seen && auth.under in sys.seen && fp(stored) == fp(auth.under);
    }
  }

  /** The password a user has changes exactly by an explicit change or reset to another one,
      whatever the sign-ins in flight rehash. */
  lemma OnlyReplacementChangesPasswords(fp: Hash -> Digest, sys: System, e: Event, userId: Id)
    requires Reachable(fp, sys) && userId in sys.passwords
    ensures var next := Apply(fp, sys, e);
      userId in next.passwords &&
      (next.passwords[userId].password != sys.passwords[userId].password <==>
         (e.ChangePassword? || e.CompleteReset?) && e.userId == userId && e.hash.password != sys.passwords[userId].password)
  {
    var events: seq<Event> :| sys == Run(fp, INITIAL, events);
    RunKeepsInv(fp, INITIAL, events);
    if e.StepSignIn? && e.callId in sys.calls {
      StepCallKeepsInv(fp, sys, e.callId, e.env);
    }
  }
}
