/** What the grant, code and token machine guarantees over whole runs. */
module OAuthTheorems {
  import opened Common
  import opened Uuid
  import opened OAuthRecords
  import opened OAuthSpec
  import opened OAuthProtocol
  import opened OAuthInvariant
  import opened OAuthPreservation

  // ----- the kinds of step -----

  datatype Kind =
    | Still
    | Revoking
    | Consenting(grant: Grant, code: Code)
    | Exchanging(callId: CallId, at: Time)
    | Rotating(callId: CallId, at: Time)

  /** What an event does to the vault. */
  ghost predicate IsKind(sys: System, w: Vault, k: Kind) {
    var v := sys.store.vault;
    match k
    case Still => w == v
    case Revoking => OnlyRevokes(v, w)
    case Consenting(grant, code) =>
      && grant.id !in v.grants && code.id !in v.codes && code.grantId == grant.id && code.usedAt.None?
      && w.grants == v.grants[grant.id := grant] && w.codes == v.codes[code.id := code]
      && w.access == v.access && w.refresh == v.refresh
    case Exchanging(c, at) =>
      && c in sys.calls && sys.calls[c].Minted? && sys.calls[c].job.Exchange?
      && Exchanged(v, w, sys.calls[c].job.code.id, at, sys.calls[c].access, sys.calls[c].refresh)
    case Rotating(c, at) =>
      && c in sys.calls && sys.calls[c].Minted? && sys.calls[c].job.Refresh? && sys.calls[c].refresh.Some?
      && Rotated(v, w, sys.calls[c].job.previous.id, at, sys.calls[c].access, sys.calls[c].refresh.value)
  }

  lemma ReadLeavesVault(s: State, call: Call, env: Env)
    requires Reads(call) || call.IssuerChecked? || call.Refetching?
    ensures Advance(s, call, env).state.vault == s.vault
  {
  }

  lemma ClassifyCall(sys: System, c: CallId, env: Env) returns (k: Kind)
    requires c in sys.calls
    ensures IsKind(sys, StepCall(sys, c, env).store.vault, k) && (k.Exchanging? ==> k.callId == c)
  {
    var call := sys.calls[c];
    if call.Minted? {
      CommitShape(sys.store, call, env);
      CommitStep(sys, c, env);
      k := if !Commit(sys.store, call, env).call.Issued? then Still
           else if call.job.Exchange? then Exchanging(c, env.now) else Rotating(c, env.now);
    } else if Revokes(call) {
      RevokeStep(sys, c, env);
      k := if StepCall(sys, c, env).store.vault == sys.store.vault then Still else Revoking;
    } else {
      ReadLeavesVault(sys.store, call, env);
      k := Still;
    }
  }

  lemma Classify(sys: System, e: Event) returns (k: Kind)
    requires Inv(sys)
    ensures IsKind(sys, Apply(sys, e).store.vault, k) && (k.Exchanging? ==> e.StepEvent? && k.callId == e.callId)
  {
    match e
    case AdminEvent(op, commits) =>
      AdminOnlyRevokes(sys.store, op, commits, sys.minted);
      k := if Apply(sys, e).store.vault == sys.store.vault then Still else Revoking;
    case ConsentEvent(consent, commits) =>
      k := if Apply(sys, e).store.vault == sys.store.vault then Still else Consenting(consent.Grant(), consent.Code());
    case StartEvent(_, _) => k := Still;
    case StepEvent(c, env) =>
      if c in sys.calls { k := ClassifyCall(sys, c, env); } else { k := Still; }
  }

  lemma ExchangingGrows(sys: System, w: Vault, c: CallId, at: Time)
    requires Inv(sys) && IsKind(sys, w, Exchanging(c, at))
    ensures Grows(sys.store.vault, w)
  {
    DraftUnstored(sys.store.vault, sys.calls[c], sys.minted);
    ExchangeGrows(sys.store.vault, w, sys.calls[c].job.code.id, at, sys.calls[c].access, sys.calls[c].refresh);
  }

  lemma RotatingGrows(sys: System, w: Vault, c: CallId, at: Time)
    requires Inv(sys) && IsKind(sys, w, Rotating(c, at))
    ensures Grows(sys.store.vault, w)
  {
    DraftUnstored(sys.store.vault, sys.calls[c], sys.minted);
    RotationGrows(sys.store.vault, w, sys.calls[c].job.previous.id, at, sys.calls[c].access, sys.calls[c].refresh.value);
  }

  /** Apart from a revocation, a step keeps every record and its revocation. */
  lemma KindGrows(sys: System, w: Vault, k: Kind)
    requires Inv(sys) && IsKind(sys, w, k) && !k.Revoking?
    ensures Grows(sys.store.vault, w)
  {
    match k
    case Still =>
    case Consenting(grant, code) => ConsentGrows(sys.store.vault, w, grant, code);
    case Exchanging(c, at) => ExchangingGrows(sys, w, c, at);
    case Rotating(c, at) => RotatingGrows(sys, w, c, at);
  }

  // ----- a revoked grant stays revoked -----

  lemma RevokedGrantStep(sys: System, e: Event, g: Id)
    requires Inv(sys) && GrantRevoked(sys.store.vault, g)
    ensures GrantRevoked(Apply(sys, e).store.vault, g)
  {
    var k := Classify(sys, e);
    if !k.Revoking? {
      KindGrows(sys, Apply(sys, e).store.vault, k);
    }
  }

  /** No later event revives a revoked grant: not re-enabling its client, resource or
      issuer, not replacing the client's record, not another call. */
  lemma {:induction false} RevokedGrantStaysRevoked(sys: System, events: seq<Event>, g: Id)
    requires Inv(sys) && GrantRevoked(sys.store.vault, g)
    ensures GrantRevoked(Run(sys, events).store.vault, g)
    decreases |events|
  {
    if events == [] {
    } else {
      ApplyKeepsInv(sys, events[0]);
      RevokedGrantStep(sys, events[0], g);
      RevokedGrantStaysRevoked(Apply(sys, events[0]), events[1..], g);
    }
  }

  // ----- nothing passes under a revoked grant -----

  /** The call has passed the validation of grant `g`, or ended having passed it. */
  predicate Passed(call: Call, g: Id) {
    || (PastGrant(call) && call.grant.id == g)
    || (call.Authenticated? && call.grant.id == g)
    || (call.Issued? && call.access.grantId == g)
  }

  function PassedCalls(sys: System, g: Id): set<CallId> {
    set c | c in sys.calls && Passed(sys.calls[c], g)
  }

  lemma EarlyCallsPassNothing(s: State, call: Call, env: Env, g: Id)
    requires !call.Presented? && !PastGrant(call) && !call.Issued? && !call.Authenticated?
    ensures !Passed(Advance(s, call, env).call, g)
  {
  }

  lemma CarriedGrant(s: State, call: Call, env: Env, g: Id)
    requires PastGrant(call) && CallOk(s.vault, call)
    ensures Passed(Advance(s, call, env).call, g) ==> Passed(call, g)
  {
  }

  lemma RevokedGrantRead(s: State, job: Job, g: Id)
    requires CodesOk(s.vault) && GrantRevoked(s.vault, g)
    ensures !Passed(CheckGrant(s, job), g)
  {
    if job.GrantId() in s.vault.grants {
      assert s.vault.grants[job.GrantId()].id == job.GrantId();
    }
  }

  /** A call that has not read the grant before it was revoked fails when it does. */
  lemma PassingStep(s: State, call: Call, env: Env, g: Id)
    requires CodesOk(s.vault) && GrantRevoked(s.vault, g) && CallOk(s.vault, call)
    ensures Passed(Advance(s, call, env).call, g) ==> Passed(call, g)
  {
    if call.Presented? {
      RevokedGrantRead(s, call.job, g);
    } else if PastGrant(call) {
      CarriedGrant(s, call, env, g);
    } else if !call.Issued? && !call.Authenticated? {
      EarlyCallsPassNothing(s, call, env, g);
    }
  }

  lemma PassedCallsStep(sys: System, e: Event, g: Id)
    requires Inv(sys) && GrantRevoked(sys.store.vault, g)
    ensures PassedCalls(Apply(sys, e), g) <= PassedCalls(sys, g)
  {
    if e.StepEvent? && e.callId in sys.calls {
      StepOfCall(sys, e.callId, e.env);
      PassingStep(sys.store, sys.calls[e.callId], e.env, g);
    }
  }

  /** Once a grant is revoked, no bearer check, refresh or exchange that had not yet
      read it gets past that read, in any interleaving. */
  lemma {:induction false} NothingPassesUnderRevokedGrant(sys: System, events: seq<Event>, g: Id)
    requires Inv(sys) && GrantRevoked(sys.store.vault, g)
    ensures PassedCalls(Run(sys, events), g) <= PassedCalls(sys, g)
    decreases |events|
  {
    if events == [] {
    } else {
      ApplyKeepsInv(sys, events[0]);
      RevokedGrantStep(sys, events[0], g);
      PassedCallsStep(sys, events[0], g);
      NothingPassesUnderRevokedGrant(Apply(sys, events[0]), events[1..], g);
    }
  }

  // ----- what can still be issued under a revoked grant -----

  function AccessOf(v: Vault, g: Id): set<Id> {
    set t | t in v.access && v.access[t].grantId == g
  }

  function RefreshOf(v: Vault, g: Id): set<Id> {
    set t | t in v.refresh && v.refresh[t].grantId == g
  }

  /** Refresh tokens of the grant that have been rotated. */
  function RotatedOf(v: Vault, g: Id): set<Id> {
    set t | t in v.refresh && v.refresh[t].grantId == g && v.refresh[t].usedAt.Some?
  }

  /** A rotation commits only under a grant that is not revoked. */
  lemma NoRotationUnderRevokedGrant(sys: System, w: Vault, k: Kind, g: Id)
    requires Inv(sys) && GrantRevoked(sys.store.vault, g) && IsKind(sys, w, k) && k.Rotating?
    ensures sys.store.vault.refresh[sys.calls[k.callId].job.previous.id].grantId != g
  {
    assert CallOk(sys.store.vault, sys.calls[k.callId]);
  }

  lemma RotatedOfRevoking(v: Vault, w: Vault, g: Id)
    requires RefreshRevoked(v, w)
    ensures RotatedOf(w, g) == RotatedOf(v, g)
  {
  }

  lemma RotatedOfAdding(refresh: map<Id, RefreshToken>, v: Vault, w: Vault, r: RefreshToken, g: Id)
    requires v.refresh == refresh && w.refresh == refresh[r.id := r] && r.id !in refresh && r.usedAt.None?
    ensures RotatedOf(w, g) == RotatedOf(v, g)
  {
  }

  lemma RotatedOfElsewhere(v: Vault, w: Vault, p: Id, at: Time, access: AccessToken, r: RefreshToken, g: Id)
    requires Rotated(v, w, p, at, access, r) && v.refresh[p].grantId != g && r.grantId != g && r.id !in v.refresh
    ensures RotatedOf(w, g) == RotatedOf(v, g)
  {
  }

  lemma RotatedOfStep(sys: System, e: Event, g: Id)
    requires Inv(sys) && GrantRevoked(sys.store.vault, g)
    ensures RotatedOf(Apply(sys, e).store.vault, g) == RotatedOf(sys.store.vault, g)
  {
    var v, w := sys.store.vault, Apply(sys, e).store.vault;
    var k := Classify(sys, e);
    if k.Rotating? {
      var call := sys.calls[k.callId];
      NoRotationUnderRevokedGrant(sys, w, k, g);
      DraftUnstored(v, call, sys.minted);
      RotationFits(v, call);
      RotatedOfElsewhere(v, w, call.job.previous.id, k.at, call.access, call.refresh.value, g);
    } else if k.Exchanging? && sys.calls[k.callId].refresh.Some? {
      DraftUnstored(v, sys.calls[k.callId], sys.minted);
      RotatedOfAdding(v.refresh, v, w, sys.calls[k.callId].refresh.value, g);
    } else if k.Revoking? {
      RotatedOfRevoking(v, w, g);
    }
  }

  /** No refresh rotation commits under a revoked grant, whatever was in flight. */
  lemma {:induction false} RevokedGrantNeverRotates(sys: System, events: seq<Event>, g: Id)
    requires Inv(sys) && GrantRevoked(sys.store.vault, g)
    ensures RotatedOf(Run(sys, events).store.vault, g) == RotatedOf(sys.store.vault, g)
    decreases |events|
  {
    if events == [] {
    } else {
      ApplyKeepsInv(sys, events[0]);
      RevokedGrantStep(sys, events[0], g);
      RotatedOfStep(sys, events[0], g);
      RevokedGrantNeverRotates(Apply(sys, events[0]), events[1..], g);
    }
  }

  lemma IssuedOfRevoking(v: Vault, w: Vault, g: Id)
    requires OnlyRevokes(v, w)
    ensures AccessOf(w, g) == AccessOf(v, g) && RefreshOf(w, g) == RefreshOf(v, g) && (Redeemed(w, g) <==> Redeemed(v, g))
  {
  }

  lemma IssuedOfRotation(v: Vault, w: Vault, p: Id, at: Time, access: AccessToken, r: RefreshToken, g: Id)
    requires Rotated(v, w, p, at, access, r) && v.refresh[p].grantId != g && r.grantId != g && access.grantId != g
    requires Unstored(v, access, Some(r))
    ensures AccessOf(w, g) == AccessOf(v, g) && RefreshOf(w, g) == RefreshOf(v, g) && (Redeemed(w, g) <==> Redeemed(v, g))
  {
  }

  lemma IssuedOfExchangeElsewhere(v: Vault, w: Vault, c: Id, at: Time, access: AccessToken, refresh: Option<RefreshToken>, g: Id)
    requires Exchanged(v, w, c, at, access, refresh) && Unstored(v, access, refresh) && v.codes[c].grantId != g
    requires access.grantId != g && (refresh.Some? ==> refresh.value.grantId != g)
    ensures AccessOf(w, g) == AccessOf(v, g) && RefreshOf(w, g) == RefreshOf(v, g)
    ensures Redeemed(v, g) ==> Redeemed(w, g)
  {
    if Redeemed(v, g) {
      ExchangeRedeems(v, w, c, at);
    }
  }

  lemma IssuedOfExchange(v: Vault, w: Vault, c: Id, at: Time, access: AccessToken, refresh: Option<RefreshToken>)
    requires Exchanged(v, w, c, at, access, refresh)
    requires access.grantId == v.codes[c].grantId && (refresh.Some? ==> refresh.value.grantId == v.codes[c].grantId)
    ensures var g := v.codes[c].grantId;
      AccessOf(w, g) <= AccessOf(v, g) + {access.id} &&
      RefreshOf(w, g) <= RefreshOf(v, g) + (if refresh.Some? then {refresh.value.id} else {}) && Redeemed(w, g)
  {
    ExchangeRedeems(v, w, c, at);
  }

  /** A step under a revoked grant issues nothing, or is the one exchange of its code. */
  ghost predicate IssueStep(v: Vault, w: Vault, g: Id) {
    || (AccessOf(w, g) == AccessOf(v, g) && RefreshOf(w, g) == RefreshOf(v, g) && (Redeemed(v, g) ==> Redeemed(w, g)))
    || (!Redeemed(v, g) && Redeemed(w, g) && AccessOf(v, g) == {} && RefreshOf(v, g) == {} &&
        |AccessOf(w, g)| <= 1 && |RefreshOf(w, g)| <= 1)
  }

  lemma AtMostOne<T>(s: set<T>, x: T)
    requires s <= {x}
    ensures |s| <= 1
  {
    assert s == {} || s == {x};
  }

  lemma UnredeemedOf(v: Vault, minted: set<Id>, c: Id)
    requires CodesOk(v) && TokensOk(v, minted) && c in v.codes && v.codes[c].usedAt.None?
    ensures var g := v.codes[c].grantId; !Redeemed(v, g) && AccessOf(v, g) == {} && RefreshOf(v, g) == {}
  {
    UnredeemedHasNoTokens(v, minted, c);
  }

  lemma ExchangeIssueStep(sys: System, w: Vault, k: Kind, g: Id)
    requires Inv(sys) && IsKind(sys, w, k) && k.Exchanging?
    ensures IssueStep(sys.store.vault, w, g)
  {
    var v, call := sys.store.vault, sys.calls[k.callId];
    var c := call.job.code.id;
    DraftUnstored(v, call, sys.minted);
    DraftFits(v, call);
    if v.codes[c].grantId == g {
      UnredeemedOf(v, sys.minted, c);
      IssuedOfExchange(v, w, c, k.at, call.access, call.refresh);
      AtMostOne(AccessOf(w, g), call.access.id);
      AtMostOne(RefreshOf(w, g), if call.refresh.Some? then call.refresh.value.id else NO_ID);
    } else {
      IssuedOfExchangeElsewhere(v, w, c, k.at, call.access, call.refresh, g);
    }
  }

  lemma RotationIssueStep(sys: System, w: Vault, k: Kind, g: Id)
    requires Inv(sys) && IsKind(sys, w, k) && k.Rotating? && GrantRevoked(sys.store.vault, g)
    ensures IssueStep(sys.store.vault, w, g)
  {
    var v, call := sys.store.vault, sys.calls[k.callId];
    NoRotationUnderRevokedGrant(sys, w, k, g);
    DraftUnstored(v, call, sys.minted);
    DraftFits(v, call);
    RotationFits(v, call);
    IssuedOfRotation(v, w, call.job.previous.id, k.at, call.access, call.refresh.value, g);
  }

  lemma ConsentIssueStep(v: Vault, w: Vault, code: Code, g: Id)
    requires code.id !in v.codes && w.codes == v.codes[code.id := code] && w.access == v.access && w.refresh == v.refresh
    ensures IssueStep(v, w, g)
  {
    if Redeemed(v, g) {
      RedeemedStays(v, w, g);
    }
  }

  lemma RevokedIssueStep(sys: System, e: Event, g: Id)
    requires Inv(sys) && GrantRevoked(sys.store.vault, g)
    ensures IssueStep(sys.store.vault, Apply(sys, e).store.vault, g)
  {
    var v, w := sys.store.vault, Apply(sys, e).store.vault;
    var k := Classify(sys, e);
    match k
    case Still =>
    case Revoking => IssuedOfRevoking(v, w, g);
    case Consenting(_, code) => ConsentIssueStep(v, w, code, g);
    case Exchanging(_, _) => ExchangeIssueStep(sys, w, k, g);
    case Rotating(_, _) => RotationIssueStep(sys, w, k, g);
  }

  /** After a grant is revoked, at most the one exchange that raced the revocation
      still commits: nothing more is issued if the code was redeemed before, and at
      most one access and one refresh token if it was not. */
  lemma {:induction false} RevokedGrantIssuesAtMostOnce(sys: System, events: seq<Event>, g: Id)
    requires Inv(sys) && GrantRevoked(sys.store.vault, g)
    ensures var v, w := sys.store.vault, Run(sys, events).store.vault;
      && (Redeemed(v, g) ==> AccessOf(w, g) == AccessOf(v, g) && RefreshOf(w, g) == RefreshOf(v, g))
      && (!Redeemed(v, g) ==>
            || (AccessOf(w, g) == AccessOf(v, g) && RefreshOf(w, g) == RefreshOf(v, g))
            || (AccessOf(v, g) == {} && RefreshOf(v, g) == {} && |AccessOf(w, g)| <= 1 && |RefreshOf(w, g)| <= 1))
    decreases |events|
  {
    if events == [] {
    } else {
      ApplyKeepsInv(sys, events[0]);
      RevokedGrantStep(sys, events[0], g);
      RevokedIssueStep(sys, events[0], g);
      RevokedGrantIssuesAtMostOnce(Apply(sys, events[0]), events[1..], g);
    }
  }

  // ----- which exchange that is -----

  /** An exchange that has read grant `g` and has not committed yet. */
  predicate Racing(call: Call, g: Id) {
    PastGrant(call) && call.job.Exchange? && call.grant.id == g
  }

  function RacingCalls(sys: System, g: Id): set<CallId> {
    set c | c in sys.calls && Racing(sys.calls[c], g)
  }

  /** The event is the commit of a racing exchange, and the store accepts it. */
  predicate CommitsRace(sys: System, e: Event, g: Id) {
    && e.StepEvent? && e.callId in sys.calls && e.env.commits
    && var call := sys.calls[e.callId];
    && call.Minted? && Racing(call, g)
    && CheckConsumeCode(sys.store.vault, call.job.code.id, e.env.now, call.access, call.refresh).Ok?
  }

  lemma RaceCommitStep(sys: System, e: Event, g: Id)
    requires e.StepEvent? && e.callId in sys.calls && sys.calls[e.callId].Minted? && Racing(sys.calls[e.callId], g)
    ensures var after := Apply(sys, e);
      && (CommitsRace(sys, e, g) ==> IsKind(sys, after.store.vault, Exchanging(e.callId, e.env.now)))
      && (!CommitsRace(sys, e, g) ==> after.store.vault == sys.store.vault)
      && after.calls == sys.calls[e.callId := after.calls[e.callId]]
      && (if CommitsRace(sys, e, g) then after.calls[e.callId] == Issued(sys.calls[e.callId].access, sys.calls[e.callId].refresh)
          else after.calls[e.callId].Failed?)
  {
    CommitShape(sys.store, sys.calls[e.callId], e.env);
    CommitStep(sys, e.callId, e.env);
  }

  /** Nothing of grant `g` is added. */
  predicate NothingNew(v: Vault, w: Vault, g: Id) {
    AccessOf(w, g) == AccessOf(v, g) && RefreshOf(w, g) == RefreshOf(v, g)
  }

  lemma IssuedHere(v: Vault, w: Vault, c: Id, at: Time, access: AccessToken, refresh: Option<RefreshToken>, g: Id)
    requires Exchanged(v, w, c, at, access, refresh) && Unstored(v, access, refresh)
    requires access.grantId == g && (refresh.Some? ==> refresh.value.grantId == g)
    ensures access.id !in AccessOf(v, g) && AccessOf(w, g) == AccessOf(v, g) + {access.id}
    ensures refresh.Some? ==> refresh.value.id !in RefreshOf(v, g)
    ensures RefreshOf(w, g) == RefreshOf(v, g) + (if refresh.Some? then {refresh.value.id} else {})
  {
  }

  /** A committed race adds exactly the tokens the exchange drafted. */
  lemma RaceIssues(sys: System, e: Event, g: Id)
    requires Inv(sys) && CommitsRace(sys, e, g)
    ensures var v, w, call := sys.store.vault, Apply(sys, e).store.vault, sys.calls[e.callId];
      && call.access.id !in AccessOf(v, g) && AccessOf(w, g) == AccessOf(v, g) + {call.access.id}
      && (call.refresh.Some? ==> call.refresh.value.id !in RefreshOf(v, g))
      && RefreshOf(w, g) == RefreshOf(v, g) + (if call.refresh.Some? then {call.refresh.value.id} else {})
  {
    var v, w, call := sys.store.vault, Apply(sys, e).store.vault, sys.calls[e.callId];
    RaceCommitStep(sys, e, g);
    DraftUnstored(v, call, sys.minted);
    DraftFits(v, call);
    IssuedHere(v, w, call.job.code.id, e.env.now, call.access, call.refresh, g);
  }

  lemma ExchangeElsewhere(sys: System, w: Vault, k: Kind, g: Id)
    requires Inv(sys) && IsKind(sys, w, k) && k.Exchanging? && sys.calls[k.callId].grant.id != g
    ensures NothingNew(sys.store.vault, w, g)
  {
    var v, call := sys.store.vault, sys.calls[k.callId];
    DraftUnstored(v, call, sys.minted);
    DraftFits(v, call);
    IssuedOfExchangeElsewhere(v, w, call.job.code.id, k.at, call.access, call.refresh, g);
  }

  lemma RotationElsewhere(sys: System, w: Vault, k: Kind, g: Id)
    requires Inv(sys) && IsKind(sys, w, k) && k.Rotating? && GrantRevoked(sys.store.vault, g)
    ensures NothingNew(sys.store.vault, w, g)
  {
    var v, call := sys.store.vault, sys.calls[k.callId];
    NoRotationUnderRevokedGrant(sys, w, k, g);
    DraftUnstored(v, call, sys.minted);
    DraftFits(v, call);
    RotationFits(v, call);
    IssuedOfRotation(v, w, call.job.previous.id, k.at, call.access, call.refresh.value, g);
  }

  lemma KindNothingNew(sys: System, w: Vault, k: Kind, g: Id)
    requires Inv(sys) && GrantRevoked(sys.store.vault, g) && IsKind(sys, w, k)
    requires k.Exchanging? ==> sys.calls[k.callId].grant.id != g
    ensures NothingNew(sys.store.vault, w, g)
  {
    match k
    case Still =>
    case Revoking => IssuedOfRevoking(sys.store.vault, w, g);
    case Consenting(_, _) =>
    case Exchanging(_, _) => ExchangeElsewhere(sys, w, k, g);
    case Rotating(_, _) => RotationElsewhere(sys, w, k, g);
  }

  /** The kind of an event that is not a commit of an exchange of `g`. */
  lemma ClassifyOther(sys: System, e: Event, g: Id) returns (k: Kind)
    requires Inv(sys)
    requires !(e.StepEvent? && e.callId in sys.calls && sys.calls[e.callId].Minted? && Racing(sys.calls[e.callId], g))
    ensures IsKind(sys, Apply(sys, e).store.vault, k) && (k.Exchanging? ==> sys.calls[k.callId].grant.id != g)
  {
    k := Classify(sys, e);
  }

  lemma NoRaceNothingNew(sys: System, e: Event, g: Id)
    requires Inv(sys) && GrantRevoked(sys.store.vault, g) && !CommitsRace(sys, e, g)
    ensures NothingNew(sys.store.vault, Apply(sys, e).store.vault, g)
  {
    if e.StepEvent? && e.callId in sys.calls && sys.calls[e.callId].Minted? && Racing(sys.calls[e.callId], g) {
      RaceCommitStep(sys, e, g);
    } else {
      var k := ClassifyOther(sys, e, g);
      KindNothingNew(sys, Apply(sys, e).store.vault, k, g);
    }
  }

  /** Once a grant is revoked, an event issues an access token under it exactly if it commits
      an exchange that had read the grant before, and a refresh token exactly if that
      exchange drafted one. */
  lemma IssuesAfterRevocationIff(sys: System, e: Event, g: Id)
    requires Inv(sys) && GrantRevoked(sys.store.vault, g)
    ensures var v, w := sys.store.vault, Apply(sys, e).store.vault;
      && (AccessOf(w, g) != AccessOf(v, g) <==> CommitsRace(sys, e, g))
      && (RefreshOf(w, g) != RefreshOf(v, g) <==> CommitsRace(sys, e, g) && sys.calls[e.callId].refresh.Some?)
  {
    if CommitsRace(sys, e, g) {
      RaceIssues(sys, e, g);
    } else {
      NoRaceNothingNew(sys, e, g);
    }
  }

  /** What the exchanges racing in `sys` have issued by `after`. */
  function Won(sys: System, after: System, g: Id): set<Id> {
    set c | c in RacingCalls(sys, g) && c in after.calls && after.calls[c].Issued? :: after.calls[c].access.id
  }

  function WonRefresh(sys: System, after: System, g: Id): set<Id> {
    set c | c in RacingCalls(sys, g) && c in after.calls && after.calls[c].Issued? && after.calls[c].refresh.Some? ::
      after.calls[c].refresh.value.id
  }

  lemma RacerAdvances(s: State, call: Call, env: Env, g: Id)
    requires Racing(call, g) && !call.Minted?
    ensures var next := Advance(s, call, env).call; Racing(next, g) || next.Failed?
  {
  }

  lemma RacerIsOld(s: State, call: Call, env: Env, g: Id)
    requires CodesOk(s.vault) && GrantRevoked(s.vault, g) && Racing(Advance(s, call, env).call, g)
    ensures Racing(call, g)
  {
    if call.Presented? {
      RevokedGrantRead(s, call.job, g);
    } else if PastGrant(call) {
      RacerCarried(s, call, env, g);
    } else if !call.Issued? && !call.Authenticated? {
      EarlyCallsPassNothing(s, call, env, g);
    }
  }

  lemma RacerCarried(s: State, call: Call, env: Env, g: Id)
    requires PastGrant(call) && Racing(Advance(s, call, env).call, g)
    ensures Racing(call, g)
  {
  }

  lemma StepOfCall(sys: System, c: CallId, env: Env)
    requires c in sys.calls
    ensures var after := StepCall(sys, c, env);
      after == sys || after.calls == sys.calls[c := Advance(sys.store, sys.calls[c], env).call]
  {
  }

  lemma RacingStep(sys: System, c: CallId, env: Env, g: Id)
    requires c in sys.calls && Racing(sys.calls[c], g)
    ensures var next := StepCall(sys, c, env);
      && c in next.calls
      && (Racing(next.calls[c], g) || next.calls[c].Failed? || CommitsRace(sys, StepEvent(c, env), g))
  {
    if sys.calls[c].Minted? {
      RaceCommitStep(sys, StepEvent(c, env), g);
    } else {
      StepOfCall(sys, c, env);
      RacerAdvances(sys.store, sys.calls[c], env, g);
    }
  }

  /** A racing exchange goes on racing, fails, or is the one the event commits. */
  lemma RacerStep(sys: System, e: Event, g: Id, c: CallId)
    requires c in RacingCalls(sys, g)
    ensures var next := Apply(sys, e);
      && c in next.calls
      && (Racing(next.calls[c], g) || next.calls[c].Failed? || (CommitsRace(sys, e, g) && c == e.callId))
  {
    if e.StepEvent? && e.callId in sys.calls {
      if e.callId == c {
        RacingStep(sys, c, e.env, g);
      } else {
        StepOfCall(sys, e.callId, e.env);
      }
    }
  }

  /** No exchange joins the race once the grant is revoked. */
  lemma RacersShrink(sys: System, e: Event, g: Id)
    requires Inv(sys) && GrantRevoked(sys.store.vault, g)
    ensures RacingCalls(Apply(sys, e), g) <= RacingCalls(sys, g)
  {
    if e.StepEvent? && e.callId in sys.calls {
      StepOfCall(sys, e.callId, e.env);
      if Racing(Advance(sys.store, sys.calls[e.callId], e.env).call, g) {
        RacerIsOld(sys.store, sys.calls[e.callId], e.env, g);
      }
    }
  }

  predicate Finished(call: Call) {
    call.Issued? || call.Failed?
  }

  lemma FinishedStep(sys: System, e: Event, c: CallId)
    requires c in sys.calls && Finished(sys.calls[c])
    ensures c in Apply(sys, e).calls && Apply(sys, e).calls[c] == sys.calls[c]
  {
    if e.StepEvent? && e.callId in sys.calls {
      StepOfCall(sys, e.callId, e.env);
    }
  }

  lemma {:induction false} FinishedStays(sys: System, events: seq<Event>, c: CallId)
    requires c in sys.calls && Finished(sys.calls[c])
    ensures c in Run(sys, events).calls && Run(sys, events).calls[c] == sys.calls[c]
    decreases |events|
  {
    if events != [] {
      FinishedStep(sys, events[0], c);
      FinishedStays(Apply(sys, events[0]), events[1..], c);
    }
  }

  /** A racing exchange that an event ends keeps that end over every continuation. */
  predicate EndsKept(sys: System, next: System, after: System, g: Id) {
    forall c | c in RacingCalls(sys, g) ::
      && c in next.calls
      && (Racing(next.calls[c], g) || (c in after.calls && after.calls[c] == next.calls[c]))
  }

  lemma EndsAreKept(sys: System, e: Event, events: seq<Event>, g: Id)
    ensures EndsKept(sys, Apply(sys, e), Run(Apply(sys, e), events), g)
  {
    var next := Apply(sys, e);
    forall c | c in RacingCalls(sys, g)
      ensures c in next.calls
      ensures Racing(next.calls[c], g) || (c in Run(next, events).calls && Run(next, events).calls[c] == next.calls[c])
    {
      RacerStep(sys, e, g, c);
      if CommitsRace(sys, e, g) && c == e.callId {
        RaceCommitStep(sys, e, g);
      }
      if !Racing(next.calls[c], g) {
        FinishedStays(next, events, c);
      }
    }
  }

  function StepWon(sys: System, e: Event, g: Id): set<Id> {
    if CommitsRace(sys, e, g) then {sys.calls[e.callId].access.id} else {}
  }

  function StepWonRefresh(sys: System, e: Event, g: Id): set<Id> {
    if CommitsRace(sys, e, g) && sys.calls[e.callId].refresh.Some? then {sys.calls[e.callId].refresh.value.id} else {}
  }

  /** The race goes on in `next` but for the one exchange that the event commits. */
  ghost predicate RaceGoesOn(sys: System, e: Event, next: System, g: Id) {
    && RacingCalls(next, g) <= RacingCalls(sys, g)
    && (forall c | c in RacingCalls(sys, g) && c in next.calls ::
          c in RacingCalls(next, g) || next.calls[c].Failed? || (CommitsRace(sys, e, g) && c == e.callId))
    && (CommitsRace(sys, e, g) ==>
          && e.callId in RacingCalls(sys, g) && e.callId in next.calls && !Racing(next.calls[e.callId], g)
          && next.calls[e.callId] == Issued(sys.calls[e.callId].access, sys.calls[e.callId].refresh))
  }

  lemma RaceStep(sys: System, e: Event, g: Id)
    requires Inv(sys) && GrantRevoked(sys.store.vault, g)
    ensures RaceGoesOn(sys, e, Apply(sys, e), g)
  {
    RacersShrink(sys, e, g);
    if CommitsRace(sys, e, g) {
      RaceCommitStep(sys, e, g);
    }
    forall c | c in RacingCalls(sys, g)
      ensures c in RacingCalls(Apply(sys, e), g) || Apply(sys, e).calls[c].Failed? || (CommitsRace(sys, e, g) && c == e.callId)
    {
      RacerStep(sys, e, g, c);
    }
  }

  lemma WonSplits(sys: System, e: Event, next: System, after: System, g: Id)
    requires RaceGoesOn(sys, e, next, g) && EndsKept(sys, next, after, g)
    ensures Won(sys, after, g) == Won(next, after, g) + StepWon(sys, e, g)
    ensures WonRefresh(sys, after, g) == WonRefresh(next, after, g) + StepWonRefresh(sys, e, g)
  {
  }

  /** `now` is `before` and, apart from it, `more`. */
  predicate Adds(before: set<Id>, now: set<Id>, more: set<Id>) {
    now == before + more && more !! before
  }

  lemma StepAdds(sys: System, e: Event, g: Id)
    requires Inv(sys) && GrantRevoked(sys.store.vault, g)
    ensures var v, w := sys.store.vault, Apply(sys, e).store.vault;
      Adds(AccessOf(v, g), AccessOf(w, g), StepWon(sys, e, g)) && Adds(RefreshOf(v, g), RefreshOf(w, g), StepWonRefresh(sys, e, g))
  {
    if CommitsRace(sys, e, g) {
      RaceIssues(sys, e, g);
    } else {
      NoRaceNothingNew(sys, e, g);
    }
  }

  /** What was issued under the grant from `sys` to `after` is exactly what exchanges racing
      in `sys` were issued. */
  predicate IssuedByRacers(sys: System, after: System, g: Id) {
    && Adds(AccessOf(sys.store.vault, g), AccessOf(after.store.vault, g), Won(sys, after, g))
    && Adds(RefreshOf(sys.store.vault, g), RefreshOf(after.store.vault, g), WonRefresh(sys, after, g))
  }

  lemma AddsCompose(a: set<Id>, b: set<Id>, c: set<Id>, x: set<Id>, y: set<Id>)
    requires Adds(a, b, x) && Adds(b, c, y)
    ensures Adds(a, c, y + x)
  {
  }

  /** How one event goes into the account. */
  ghost predicate EventCounted(sys: System, e: Event, next: System, g: Id) {
    && RaceGoesOn(sys, e, next, g)
    && Adds(AccessOf(sys.store.vault, g), AccessOf(next.store.vault, g), StepWon(sys, e, g))
    && Adds(RefreshOf(sys.store.vault, g), RefreshOf(next.store.vault, g), StepWonRefresh(sys, e, g))
  }

  lemma EventCounts(sys: System, e: Event, g: Id)
    requires Inv(sys) && GrantRevoked(sys.store.vault, g)
    ensures EventCounted(sys, e, Apply(sys, e), g)
  {
    RaceStep(sys, e, g);
    StepAdds(sys, e, g);
  }

  lemma IssuedComposes(sys: System, e: Event, next: System, after: System, g: Id)
    requires EventCounted(sys, e, next, g) && IssuedByRacers(next, after, g) && EndsKept(sys, next, after, g)
    ensures IssuedByRacers(sys, after, g)
  {
    WonSplits(sys, e, next, after, g);
    AddsCompose(AccessOf(sys.store.vault, g), AccessOf(next.store.vault, g), AccessOf(after.store.vault, g),
                StepWon(sys, e, g), Won(next, after, g));
    AddsCompose(RefreshOf(sys.store.vault, g), RefreshOf(next.store.vault, g), RefreshOf(after.store.vault, g),
                StepWonRefresh(sys, e, g), WonRefresh(next, after, g));
  }

  lemma IssuedExtends(sys: System, e: Event, events: seq<Event>, g: Id)
    requires Inv(sys) && GrantRevoked(sys.store.vault, g)
    requires IssuedByRacers(Apply(sys, e), Run(Apply(sys, e), events), g)
    ensures IssuedByRacers(sys, Run(Apply(sys, e), events), g)
  {
    EventCounts(sys, e, g);
    EndsAreKept(sys, e, events, g);
    IssuedComposes(sys, e, Apply(sys, e), Run(Apply(sys, e), events), g);
  }

  lemma NothingIssuedYet(sys: System, g: Id)
    ensures IssuedByRacers(sys, sys, g)
  {
    assert Won(sys, sys, g) == {} && WonRefresh(sys, sys, g) == {};
  }

  lemma RevokedKeepsInv(sys: System, e: Event, g: Id)
    requires Inv(sys) && GrantRevoked(sys.store.vault, g)
    ensures Inv(Apply(sys, e)) && GrantRevoked(Apply(sys, e).store.vault, g)
  {
    ApplyKeepsInv(sys, e);
    RevokedGrantStep(sys, e, g);
  }

  /** After a revocation the tokens issued under the grant, over every continuation, are
      exactly those of the exchanges that had read the grant before and that were issued. */
  lemma {:induction false} OnlyRacersIssue(sys: System, events: seq<Event>, g: Id)
    requires Inv(sys) && GrantRevoked(sys.store.vault, g)
    ensures IssuedByRacers(sys, Run(sys, events), g)
    decreases |events|
  {
    if events == [] {
      NothingIssuedYet(sys, g);
    } else {
      RevokedKeepsInv(sys, events[0], g);
      OnlyRacersIssue(Apply(sys, events[0]), events[1..], g);
      IssuedExtends(sys, events[0], events[1..], g);
    }
  }

  // ----- a revoked refresh family stays dead -----

  function FamilyTokens(refresh: map<Id, RefreshToken>, f: Id): set<Id> {
    set t | t in refresh && refresh[t].familyId == f
  }

  /** Family `f` descends from grant `g`, and no bearer derived from it is alive. */
  ghost predicate FamilyDead(access: map<Id, AccessToken>, refresh: map<Id, RefreshToken>, f: Id, g: Id) {
    && (exists t :: t in refresh && refresh[t].familyId == f && refresh[t].grantId == g)
    && (forall t :: t in refresh && refresh[t].familyId == f ==> refresh[t].revokedAt.Some?)
    && (forall t :: t in access && access[t].grantId == g ==> access[t].revokedAt.Some?)
  }

  /** Revoking a family kills it: its tokens and every access token of its grant. */
  lemma RevokeFamilyKills(v: Vault, f: Id, at: Time, t: Id)
    requires t in v.refresh && v.refresh[t].familyId == f
    ensures var w := RevokeFamilyVault(v, f, at); FamilyDead(w.access, w.refresh, f, v.refresh[t].grantId)
  {
    var w := RevokeFamilyVault(v, f, at);
    assert t in w.refresh && w.refresh[t].familyId == f && w.refresh[t].grantId == v.refresh[t].grantId;
    assert v.refresh[t].grantId in FamilyGrants(v, f);
  }

  lemma DeadFamilyRevoking(v: Vault, w: Vault, f: Id, g: Id)
    requires OnlyRevokes(v, w) && FamilyDead(v.access, v.refresh, f, g)
    ensures FamilyDead(w.access, w.refresh, f, g) && FamilyTokens(w.refresh, f) == FamilyTokens(v.refresh, f)
  {
    var t :| t in v.refresh && v.refresh[t].familyId == f && v.refresh[t].grantId == g;
    assert t in w.refresh;
  }

  /** Records of another family and another grant leave a dead family as it was. */
  lemma DeadFamilyAdding(v: Vault, w: Vault, f: Id, g: Id, access: AccessToken, refresh: Option<RefreshToken>)
    requires FamilyDead(v.access, v.refresh, f, g) && Unstored(v, access, refresh)
    requires w.access == v.access[access.id := access] && access.grantId != g
    requires w.refresh == if refresh.Some? then v.refresh[refresh.value.id := refresh.value] else v.refresh
    requires refresh.Some? ==> refresh.value.familyId != f
    ensures FamilyDead(w.access, w.refresh, f, g) && FamilyTokens(w.refresh, f) == FamilyTokens(v.refresh, f)
  {
    var t :| t in v.refresh && v.refresh[t].familyId == f && v.refresh[t].grantId == g;
    assert t in w.refresh;
  }

  /** A rotation needs an unrevoked token, so it is of another family and another grant. */
  lemma DeadFamilyRotation(v: Vault, w: Vault, f: Id, g: Id, p: Id, at: Time, access: AccessToken, r: RefreshToken)
    requires FamilyDead(v.access, v.refresh, f, g) && FamiliesOk(v.refresh) && Rotated(v, w, p, at, access, r) && Unstored(v, access, Some(r))
    requires access.grantId == r.grantId == v.refresh[p].grantId && r.familyId == v.refresh[p].familyId
    ensures FamilyDead(w.access, w.refresh, f, g) && FamilyTokens(w.refresh, f) == FamilyTokens(v.refresh, f)
  {
    var t :| t in v.refresh && v.refresh[t].familyId == f && v.refresh[t].grantId == g;
    var mid := v.(refresh := v.refresh[p := v.refresh[p].(usedAt := Some(at), replacedById := r.id)]);
    assert v.refresh[p].familyId != f && v.refresh[p].grantId != g;
    assert t in mid.refresh && mid.refresh[t] == v.refresh[t];
    assert FamilyDead(mid.access, mid.refresh, f, g) && FamilyTokens(mid.refresh, f) == FamilyTokens(v.refresh, f);
    DeadFamilyAdding(mid, w, f, g, access, Some(r));
  }

  /** The code of a grant with a family is spent, so an exchange is of another grant
      and starts another family. */
  lemma ExchangeIsApart(v: Vault, call: Call, minted: set<Id>, t: Id)
    requires CodesOk(v) && TokensOk(v, minted) && t in v.refresh && HeldOk(v.access, v.refresh, call, minted)
    requires call.Minted? && call.job.Exchange? && CallOk(v, call) && v.codes[call.job.code.id].usedAt.None?
    ensures call.access.grantId != v.refresh[t].grantId
    ensures call.refresh.Some? ==> call.refresh.value.familyId != v.refresh[t].familyId
  {
    DraftFits(v, call);
    UnredeemedHasNoTokens(v, minted, call.job.code.id);
    if call.refresh.Some? {
      assert call.refresh.value.familyId in Held(call);
    }
  }

  lemma DeadFamilyExchange(sys: System, w: Vault, k: Kind, f: Id, g: Id)
    requires Inv(sys) && IsKind(sys, w, k) && k.Exchanging? && FamilyDead(sys.store.vault.access, sys.store.vault.refresh, f, g)
    ensures FamilyDead(w.access, w.refresh, f, g) && FamilyTokens(w.refresh, f) == FamilyTokens(sys.store.vault.refresh, f)
  {
    var v, call := sys.store.vault, sys.calls[k.callId];
    var t :| t in v.refresh && v.refresh[t].familyId == f && v.refresh[t].grantId == g;
    DraftUnstored(v, call, sys.minted);
    ExchangeIsApart(v, call, sys.minted, t);
    DeadFamilyAdding(v, w, f, g, call.access, call.refresh);
  }

  lemma DeadFamilyRotating(sys: System, w: Vault, k: Kind, f: Id, g: Id)
    requires Inv(sys) && IsKind(sys, w, k) && k.Rotating? && FamilyDead(sys.store.vault.access, sys.store.vault.refresh, f, g)
    ensures FamilyDead(w.access, w.refresh, f, g) && FamilyTokens(w.refresh, f) == FamilyTokens(sys.store.vault.refresh, f)
  {
    var v, call := sys.store.vault, sys.calls[k.callId];
    DraftUnstored(v, call, sys.minted);
    DraftFits(v, call);
    RotationFits(v, call);
    DeadFamilyRotation(v, w, f, g, call.job.previous.id, k.at, call.access, call.refresh.value);
  }

  lemma DeadFamilyStep(sys: System, e: Event, f: Id, g: Id)
    requires Inv(sys) && FamilyDead(sys.store.vault.access, sys.store.vault.refresh, f, g)
    ensures FamilyDead(Apply(sys, e).store.vault.access, Apply(sys, e).store.vault.refresh, f, g)
    ensures FamilyTokens(Apply(sys, e).store.vault.refresh, f) == FamilyTokens(sys.store.vault.refresh, f)
  {
    var v, w := sys.store.vault, Apply(sys, e).store.vault;
    var k := Classify(sys, e);
    match k
    case Still =>
    case Revoking => DeadFamilyRevoking(v, w, f, g);
    case Consenting(_, _) =>
    case Exchanging(_, _) => DeadFamilyExchange(sys, w, k, f, g);
    case Rotating(_, _) => DeadFamilyRotating(sys, w, k, f, g);
  }

  /** Once a family is revoked, all its refresh tokens stay revoked, it never grows, and
      no access token of its grant is ever unrevoked again. */
  lemma {:induction false} RevokedFamilyStaysDead(sys: System, events: seq<Event>, f: Id, g: Id)
    requires Inv(sys) && FamilyDead(sys.store.vault.access, sys.store.vault.refresh, f, g)
    ensures FamilyDead(Run(sys, events).store.vault.access, Run(sys, events).store.vault.refresh, f, g)
    ensures FamilyTokens(Run(sys, events).store.vault.refresh, f) == FamilyTokens(sys.store.vault.refresh, f)
    decreases |events|
  {
    if events == [] {
    } else {
      ApplyKeepsInv(sys, events[0]);
      DeadFamilyStep(sys, events[0], f, g);
      RevokedFamilyStaysDead(Apply(sys, events[0]), events[1..], f, g);
    }
  }

  // ----- codes are consumed once -----

  predicate CodeUsed(v: Vault, c: Id) {
    c in v.codes && v.codes[c].usedAt.Some?
  }

  /** How many events of the run turn code `c` from unused to used. */
  function Consumptions(sys: System, events: seq<Event>, c: Id): (n: nat)
    decreases |events|
  {
    if events == [] then 0
    else
      var next := Apply(sys, events[0]);
      (if !CodeUsed(sys.store.vault, c) && CodeUsed(next.store.vault, c) then 1 else 0) +
      Consumptions(next, events[1..], c)
  }

  lemma UsedCodeStep(sys: System, e: Event, c: Id)
    requires Inv(sys) && CodeUsed(sys.store.vault, c)
    ensures CodeUsed(Apply(sys, e).store.vault, c)
    ensures Apply(sys, e).store.vault.codes[c] == sys.store.vault.codes[c]
  {
    var k := Classify(sys, e);
    KindKeepsUsedCode(sys, Apply(sys, e).store.vault, k, c);
  }

  lemma KindKeepsUsedCode(sys: System, w: Vault, k: Kind, c: Id)
    requires IsKind(sys, w, k) && CodeUsed(sys.store.vault, c)
    ensures CodeUsed(w, c) && w.codes[c] == sys.store.vault.codes[c]
  {
  }

  /** A code is consumed at most once in any run, and a consumed code never changes again. */
  lemma {:induction false} CodeConsumedAtMostOnce(sys: System, events: seq<Event>, c: Id)
    requires Inv(sys)
    ensures Consumptions(sys, events, c) <= if CodeUsed(sys.store.vault, c) then 0 else 1
    ensures CodeUsed(sys.store.vault, c) ==>
      c in Run(sys, events).store.vault.codes && Run(sys, events).store.vault.codes[c] == sys.store.vault.codes[c]
    decreases |events|
  {
    if events == [] {
    } else {
      ApplyKeepsInv(sys, events[0]);
      if CodeUsed(sys.store.vault, c) {
        UsedCodeStep(sys, events[0], c);
      }
      CodeConsumedAtMostOnce(Apply(sys, events[0]), events[1..], c);
    }
  }

  // ----- a family is one chain -----

  /** The chain of a family holds exactly its tokens, and only its end is unused. */
  lemma ChainIsFamily(refresh: map<Id, RefreshToken>, chains: map<Id, seq<Id>>, f: Id, u: Id)
    requires ChainsOk(refresh, chains) && f in chains
    ensures u in chains[f] <==> u in refresh && refresh[u].familyId == f
    ensures u in chains[f] ==> (refresh[u].usedAt.None? <==> u == chains[f][|chains[f]| - 1])
  {
    assert ChainOk(refresh, f, chains[f]);
    if u in chains[f] {
      var i :| 0 <= i < |chains[f]| && chains[f][i] == u;
    }
  }

  lemma SameFamilySameGrant(v: Vault, minted: set<Id>, t: Id, u: Id)
    requires FamiliesOk(v.refresh) && RefreshOk(v, minted) && t in v.refresh && u in v.refresh
    requires v.refresh[t].familyId == v.refresh[u].familyId
    ensures v.refresh[u].grantId == v.refresh[t].grantId && v.refresh[u].grantId in v.grants
    ensures Within(v.refresh[u].scopes, v.grants[v.refresh[u].grantId].scopes)
  {
    assert RefreshFits(v.refresh[u], v.grants[v.refresh[u].grantId]);
  }

  /** A token of the same grant, within its consented scopes, and unused only at the end. */
  predicate OnChain(v: Vault, grantId: Id, chain: seq<Id>, u: Id)
    requires chain != []
  {
    && u in v.refresh && v.refresh[u].grantId == grantId && grantId in v.grants
    && Within(v.refresh[u].scopes, v.grants[grantId].scopes)
    && (v.refresh[u].usedAt.None? <==> u == chain[|chain| - 1])
  }

  /** `chain` lists exactly the tokens of `t`'s family, all of `t`'s grant and within
      its consented scopes, and only the last of them is unused. */
  ghost predicate ListsFamily(v: Vault, t: Id, chain: seq<Id>)
    requires t in v.refresh
  {
    && chain != []
    && (forall u :: u in chain <==> u in v.refresh && v.refresh[u].familyId == v.refresh[t].familyId)
    && (forall u :: u in chain ==> OnChain(v, v.refresh[t].grantId, chain, u))
  }

  lemma FamilyMembers(refresh: map<Id, RefreshToken>, chains: map<Id, seq<Id>>, f: Id)
    requires ChainsOk(refresh, chains) && f in chains
    ensures forall u :: u in chains[f] <==> u in refresh && refresh[u].familyId == f
  {
    forall u ensures u in chains[f] <==> u in refresh && refresh[u].familyId == f {
      ChainIsFamily(refresh, chains, f, u);
    }
  }

  lemma FamilyMember(v: Vault, minted: set<Id>, chains: map<Id, seq<Id>>, t: Id, u: Id)
    requires RefreshOk(v, minted) && FamiliesOk(v.refresh) && ChainsOk(v.refresh, chains) && t in v.refresh
    requires u in chains[v.refresh[t].familyId]
    ensures OnChain(v, v.refresh[t].grantId, chains[v.refresh[t].familyId], u)
  {
    var chain := chains[v.refresh[t].familyId];
    assert u in v.refresh && v.refresh[u].familyId == v.refresh[t].familyId &&
           (v.refresh[u].usedAt.None? <==> u == chain[|chain| - 1]) by {
      ChainIsFamily(v.refresh, chains, v.refresh[t].familyId, u);
    }
    SameFamilySameGrant(v, minted, t, u);
  }

  lemma FamilyIsListed(v: Vault, minted: set<Id>, chains: map<Id, seq<Id>>, t: Id)
    requires RefreshOk(v, minted) && FamiliesOk(v.refresh) && ChainsOk(v.refresh, chains) && t in v.refresh
    ensures ListsFamily(v, t, chains[v.refresh[t].familyId])
  {
    var chain := chains[v.refresh[t].familyId];
    FamilyMembers(v.refresh, chains, v.refresh[t].familyId);
    forall u | u in chain ensures OnChain(v, v.refresh[t].grantId, chain, u) {
      FamilyMember(v, minted, chains, t, u);
    }
  }

  /** Every refresh family of a reachable state is one chain through its replacements:
      each token is replaced by the next with no wider scopes, up to the one unused
      token at the end, and the chain is the whole family. */
  lemma FamilyIsOneChain(sys: System, t: Id) returns (chain: seq<Id>)
    requires Reachable(sys) && t in sys.store.vault.refresh
    ensures ChainOk(sys.store.vault.refresh, sys.store.vault.refresh[t].familyId, chain)
    ensures ListsFamily(sys.store.vault, t, chain)
  {
    ReachableInv(sys);
    chain := sys.chains[sys.store.vault.refresh[t].familyId];
    FamilyIsListed(sys.store.vault, sys.minted, sys.chains, t);
  }

  // ----- revocation, from any reachable state -----

  /** A grant revoked in a reachable state is dead for good: it stays revoked, no call
      passes its validation any more, no rotation commits under it, and what is still issued
      is exactly what exchanges in flight that had read it before commit, at most one. */
  lemma RevokedGrantIsDead(sys: System, events: seq<Event>, g: Id)
    requires Reachable(sys) && GrantRevoked(sys.store.vault, g)
    ensures var v, w := sys.store.vault, Run(sys, events).store.vault;
      && GrantRevoked(w, g)
      && PassedCalls(Run(sys, events), g) <= PassedCalls(sys, g)
      && RotatedOf(w, g) == RotatedOf(v, g)
      && (AccessOf(w, g) == AccessOf(v, g) || (AccessOf(v, g) == {} && !Redeemed(v, g) && |AccessOf(w, g)| <= 1))
      && (RefreshOf(w, g) == RefreshOf(v, g) || (RefreshOf(v, g) == {} && !Redeemed(v, g) && |RefreshOf(w, g)| <= 1))
    ensures IssuedByRacers(sys, Run(sys, events), g)
  {
    ReachableInv(sys);
    RevokedGrantStaysRevoked(sys, events, g);
    NothingPassesUnderRevokedGrant(sys, events, g);
    RevokedGrantNeverRotates(sys, events, g);
    RevokedGrantIssuesAtMostOnce(sys, events, g);
    OnlyRacersIssue(sys, events, g);
  }

  /** A continuation issues under a revoked grant exactly if an exchange that had read the
      grant before the revocation is issued in it; with none in flight, none does. */
  lemma RevokedGrantIssuesIff(sys: System, events: seq<Event>, g: Id)
    requires Reachable(sys) && GrantRevoked(sys.store.vault, g)
    ensures var v, after := sys.store.vault, Run(sys, events);
      var w := after.store.vault;
      && (AccessOf(w, g) != AccessOf(v, g) <==>
            exists c :: c in RacingCalls(sys, g) && c in after.calls && after.calls[c].Issued?)
      && (RacingCalls(sys, g) == {} ==> NothingNew(v, w, g))
  {
    ReachableInv(sys);
    OnlyRacersIssue(sys, events, g);
    WonIff(sys, Run(sys, events), g);
  }

  lemma WonIff(sys: System, after: System, g: Id)
    ensures Won(sys, after, g) != {} <==> exists c :: c in RacingCalls(sys, g) && c in after.calls && after.calls[c].Issued?
    ensures RacingCalls(sys, g) == {} ==> Won(sys, after, g) == {} && WonRefresh(sys, after, g) == {}
  {
    if c :| c in RacingCalls(sys, g) && c in after.calls && after.calls[c].Issued? {
      assert after.calls[c].access.id in Won(sys, after, g);
    }
  }

  /** An accepted token is a token of the grant it was accepted under. */
  predicate AcceptedOk(calls: map<CallId, Call>) {
    forall c | c in calls :: calls[c].Authenticated? ==> calls[c].token.grantId == calls[c].grant.id
  }

  lemma AcceptingStep(s: State, call: Call, env: Env)
    requires CallOk(s.vault, call) && !call.Authenticated? && Advance(s, call, env).call.Authenticated?
    ensures var next := Advance(s, call, env).call; next.token.grantId == next.grant.id
  {
    assert call.IssuerChecked?;
  }

  lemma AcceptedStep(sys: System, e: Event)
    requires AcceptedOk(sys.calls) && forall c | c in sys.calls :: CallOk(sys.store.vault, sys.calls[c])
    ensures AcceptedOk(Apply(sys, e).calls)
  {
    if e.StepEvent? && e.callId in sys.calls && !sys.calls[e.callId].Authenticated? &&
       Advance(sys.store, sys.calls[e.callId], e.env).call.Authenticated? {
      AcceptingStep(sys.store, sys.calls[e.callId], e.env);
    }
  }

  lemma {:induction false} RunKeepsAccepted(sys: System, events: seq<Event>)
    requires Inv(sys) && AcceptedOk(sys.calls)
    ensures AcceptedOk(Run(sys, events).calls)
    decreases |events|
  {
    if events != [] {
      AcceptedStep(sys, events[0]);
      ApplyKeepsInv(sys, events[0]);
      RunKeepsAccepted(Apply(sys, events[0]), events[1..]);
    }
  }

  /** A call that starts after the revocation never passes: it issues nothing under the
      grant and accepts no token of it. */
  lemma LaterCallsFail(before: seq<Event>, after: seq<Event>, g: Id, c: CallId)
    requires var sys := Run(INITIAL, before); GrantRevoked(sys.store.vault, g) && c !in sys.calls
    ensures var calls := Run(Run(INITIAL, before), after).calls;
      c in calls ==>
        && !(calls[c].Issued? && calls[c].access.grantId == g)
        && !(calls[c].Authenticated? && calls[c].token.grantId == g)
  {
    var sys := Run(INITIAL, before);
    InitialInv();
    RunKeepsInv(INITIAL, before);
    RunKeepsAccepted(INITIAL, before);
    RunKeepsAccepted(sys, after);
    NothingPassesUnderRevokedGrant(sys, after, g);
    assert c !in PassedCalls(sys, g);
  }

  lemma RevokingFamilyStep(sys: System, c: CallId, env: Env)
    requires c in sys.calls && sys.calls[c].RevokingFamily?
    ensures var f := sys.calls[c].familyId;
      var a := RevokeFamily(sys.store, f, env.now, env.commits);
      && StepCall(sys, c, env).store == a.state
      && (a.reply.Ok? <==> env.commits && FamilyGrants(sys.store.vault, f) != {})
      && (a.reply.Ok? ==> a.state.vault == RevokeFamilyVault(sys.store.vault, f, env.now))
  {
  }

  lemma RevokingFamilyTokens(v: Vault, f: Id, at: Time)
    ensures FamilyTokens(RevokeFamilyVault(v, f, at).refresh, f) == FamilyTokens(v.refresh, f)
  {
  }

  lemma CommittedRevocationKills(sys: System, c: CallId, env: Env, t: Id)
    requires c in sys.calls && sys.calls[c].RevokingFamily? && env.commits
    requires t in sys.store.vault.refresh && sys.store.vault.refresh[t].familyId == sys.calls[c].familyId
    ensures var v, w, f := sys.store.vault, Apply(sys, StepEvent(c, env)).store.vault, sys.calls[c].familyId;
      FamilyDead(w.access, w.refresh, f, v.refresh[t].grantId) && FamilyTokens(w.refresh, f) == FamilyTokens(v.refresh, f)
  {
    var v, f := sys.store.vault, sys.calls[c].familyId;
    assert v.refresh[t].grantId in FamilyGrants(v, f);
    RevokingFamilyStep(sys, c, env);
    RevokeFamilyKills(v, f, env.now, t);
    RevokingFamilyTokens(v, f, env.now);
  }

  lemma RunOne(sys: System, e: Event, events: seq<Event>)
    ensures Run(sys, [e] + events) == Run(Apply(sys, e), events)
  {
    assert ([e] + events)[1..] == events;
  }

  /** A call that revokes a family, once its step commits, leaves the family dead over every
      continuation: its tokens revoked, none ever added, and no live access token of its
      grant. */
  lemma FamilyRevocationIsFinal(sys: System, c: CallId, env: Env, events: seq<Event>, t: Id)
    requires Reachable(sys) && c in sys.calls && sys.calls[c].RevokingFamily? && env.commits
    requires t in sys.store.vault.refresh && sys.store.vault.refresh[t].familyId == sys.calls[c].familyId
    ensures var v, w := sys.store.vault, Run(sys, [StepEvent(c, env)] + events).store.vault;
      var f := sys.calls[c].familyId;
      FamilyDead(w.access, w.refresh, f, v.refresh[t].grantId) && FamilyTokens(w.refresh, f) == FamilyTokens(v.refresh, f)
  {
    ReachableInv(sys);
    CommittedRevocationKills(sys, c, env, t);
    RunOne(sys, StepEvent(c, env), events);
    ApplyKeepsInv(sys, StepEvent(c, env));
    RevokedFamilyStaysDead(Apply(sys, StepEvent(c, env)), events, sys.calls[c].familyId, sys.store.vault.refresh[t].grantId);
  }

  /** A family revoked in a reachable state is dead for good. */
  lemma RevokedFamilyIsDead(sys: System, events: seq<Event>, f: Id, g: Id)
    requires Reachable(sys) && FamilyDead(sys.store.vault.access, sys.store.vault.refresh, f, g)
    ensures var v, w := sys.store.vault, Run(sys, events).store.vault;
      FamilyDead(w.access, w.refresh, f, g) && FamilyTokens(w.refresh, f) == FamilyTokens(v.refresh, f)
  {
    ReachableInv(sys);
    RevokedFamilyStaysDead(sys, events, f, g);
  }
}
