/** What each disablement and revocation does, record by record, and that it is final: the
    cascade reaches every grant and token it should and no other, and what it reached stays
    dead over every continuation, enabling again included. */
module OAuthEffects {
  import opened Common
  import opened Uuid
  import opened OAuthRecords
  import opened OAuthSpec
  import opened OAuthProtocol
  import opened OAuthInvariant
  import opened OAuthPreservation
  import opened OAuthIndex
  import opened OAuthTheorems
  import opened OAuthRace

  // ----- the records after a revocation -----

  /** The token is revoked at `at` if it was not before. */
  function ClosedAccess(t: AccessToken, at: Time): AccessToken {
    if t.revokedAt.None? then t.(revokedAt := Some(at)) else t
  }

  function ClosedRefresh(t: RefreshToken, at: Time): RefreshToken {
    if t.revokedAt.None? then t.(revokedAt := Some(at)) else t
  }

  /** The same records and indexes, and the same codes. */
  predicate SameRecords(v: Vault, w: Vault) {
    && w.codes == v.codes && w.codeKeys == v.codeKeys && w.accessKeys == v.accessKeys && w.refreshKeys == v.refreshKeys
    && w.grants.Keys == v.grants.Keys && w.access.Keys == v.access.Keys && w.refresh.Keys == v.refresh.Keys
  }

  /** Exactly the grants `gs` are revoked, with every access and refresh token under them. */
  ghost predicate RevokesGrants(v: Vault, w: Vault, gs: set<Id>, at: Time) {
    && SameRecords(v, w)
    && (forall g | g in v.grants ::
          w.grants[g] == if g in gs then v.grants[g].(revokedAt := Some(at), updatedAt := at) else v.grants[g])
    && (forall t | t in v.access ::
          w.access[t] == if v.access[t].grantId in gs then ClosedAccess(v.access[t], at) else v.access[t])
    && (forall t | t in v.refresh ::
          w.refresh[t] == if v.refresh[t].grantId in gs then ClosedRefresh(v.refresh[t], at) else v.refresh[t])
  }

  /** Exactly the user's grants and tokens are revoked, in one workspace or, if none is named,
      in all. */
  ghost predicate RevokesUser(v: Vault, w: Vault, userId: Id, workspaceId: Id, at: Time) {
    && SameRecords(v, w)
    && (forall g | g in v.grants ::
          var x := v.grants[g];
          w.grants[g] == if x.userId == userId && (workspaceId != NO_ID ==> x.workspaceId == workspaceId) && x.revokedAt.None?
                         then x.(revokedAt := Some(at)) else x)
    && (forall t | t in v.access ::
          var x := v.access[t];
          w.access[t] == if x.userId == userId && (workspaceId != NO_ID ==> x.workspaceId == workspaceId)
                         then ClosedAccess(x, at) else x)
    && (forall t | t in v.refresh ::
          var x := v.refresh[t];
          w.refresh[t] == if x.userId == userId && (workspaceId != NO_ID ==> x.workspaceId == workspaceId)
                          then ClosedRefresh(x, at) else x)
  }

  /** Exactly the refresh tokens of the family are revoked, and the access tokens of the
      grants it descends from. */
  ghost predicate RevokesFamily(v: Vault, w: Vault, f: Id, at: Time) {
    && SameRecords(v, w) && w.grants == v.grants
    && (forall t | t in v.refresh ::
          w.refresh[t] == if v.refresh[t].familyId == f then ClosedRefresh(v.refresh[t], at) else v.refresh[t])
    && (forall t | t in v.access ::
          w.access[t] == if exists r :: r in v.refresh && v.refresh[r].familyId == f && v.refresh[r].grantId == v.access[t].grantId
                         then ClosedAccess(v.access[t], at) else v.access[t])
  }

  /** Exactly one access token is revoked. */
  predicate RevokesAccess(v: Vault, w: Vault, id: Id, at: Time)
    requires id in v.access
  {
    w == v.(access := v.access[id := ClosedAccess(v.access[id], at)])
  }

  // ----- disabling a client, a resource and an issuer -----

  function HeldBy(grants: map<Id, Grant>, clientRecordId: Id): set<Id> {
    set g | g in grants && grants[g].clientRecordId == clientRecordId
  }

  function GivenFor(grants: map<Id, Grant>, resourceId: Id): set<Id> {
    set g | g in grants && grants[g].resourceId == resourceId
  }

  function GivenBy(grants: map<Id, Grant>, issuerId: Id): set<Id> {
    set g | g in grants && grants[g].issuerId == issuerId
  }

  lemma RevokedGrantRecords(v: Vault, gs: set<Id>, at: Time)
    ensures RevokesGrants(v, RevokeGrants(v, gs, at), gs, at)
  {
  }

  lemma ClientDisabledShape(s: State, id: Id, at: Time)
    requires id in s.config.clients
    ensures var c, next := s.config, Administer(s, SetClientDisabledOp(id, true, at), true);
      && next.vault == RevokeGrants(s.vault, HeldBy(s.vault.grants, id), at)
      && next.config == c.(clients := c.clients[id := c.clients[id].(disabledAt := Some(at), updatedAt := at)])
  {
    assert GrantsOfClient(s.vault.grants, id) == HeldBy(s.vault.grants, id);
  }

  lemma ResourceDisabledShape(s: State, id: Id, at: Time)
    requires id in s.config.resources
    ensures var c, next := s.config, Administer(s, SetResourceDisabledOp(id, true, at), true);
      && next.vault == RevokeGrants(s.vault, GivenFor(s.vault.grants, id), at)
      && next.config == c.(resources := c.resources[id := c.resources[id].(disabledAt := Some(at), updatedAt := at)])
  {
    assert GrantsOfResource(s.vault.grants, id) == GivenFor(s.vault.grants, id);
  }

  lemma IssuerDisabledShape(s: State, id: Id, at: Time)
    requires id in s.config.issuers
    ensures var c, next := s.config, Administer(s, SetIssuerDisabledOp(id, true, at), true);
      && next.vault == RevokeGrants(s.vault, GivenBy(s.vault.grants, id), at)
      && next.config == c.(issuers := c.issuers[id := c.issuers[id].(disabledAt := Some(at), updatedAt := at)])
  {
    assert GrantsOfIssuer(s.vault.grants, id) == GivenBy(s.vault.grants, id);
  }

  /** Disabling a stored client revokes exactly its grants and their tokens. */
  lemma DisablingClientRevokes(sys: System, id: Id, at: Time)
    requires id in sys.store.config.clients
    ensures var v, c, next := sys.store.vault, sys.store.config, Apply(sys, AdminEvent(SetClientDisabledOp(id, true, at), true));
      && RevokesGrants(v, next.store.vault, HeldBy(v.grants, id), at)
      && next.store.config == c.(clients := c.clients[id := c.clients[id].(disabledAt := Some(at), updatedAt := at)])
      && next.calls == sys.calls
  {
    ClientDisabledShape(sys.store, id, at);
    RevokedGrantRecords(sys.store.vault, HeldBy(sys.store.vault.grants, id), at);
  }

  /** Disabling a stored protected resource revokes exactly the grants for it. */
  lemma DisablingResourceRevokes(sys: System, id: Id, at: Time)
    requires id in sys.store.config.resources
    ensures var v, c, next := sys.store.vault, sys.store.config, Apply(sys, AdminEvent(SetResourceDisabledOp(id, true, at), true));
      && RevokesGrants(v, next.store.vault, GivenFor(v.grants, id), at)
      && next.store.config == c.(resources := c.resources[id := c.resources[id].(disabledAt := Some(at), updatedAt := at)])
      && next.calls == sys.calls
  {
    ResourceDisabledShape(sys.store, id, at);
    RevokedGrantRecords(sys.store.vault, GivenFor(sys.store.vault.grants, id), at);
  }

  /** Disabling a stored issuer revokes exactly the grants it gave. */
  lemma DisablingIssuerRevokes(sys: System, id: Id, at: Time)
    requires id in sys.store.config.issuers
    ensures var v, c, next := sys.store.vault, sys.store.config, Apply(sys, AdminEvent(SetIssuerDisabledOp(id, true, at), true));
      && RevokesGrants(v, next.store.vault, GivenBy(v.grants, id), at)
      && next.store.config == c.(issuers := c.issuers[id := c.issuers[id].(disabledAt := Some(at), updatedAt := at)])
      && next.calls == sys.calls
  {
    IssuerDisabledShape(sys.store, id, at);
    RevokedGrantRecords(sys.store.vault, GivenBy(sys.store.vault.grants, id), at);
  }

  /** Enabling again clears the flag and brings no grant or token back. */
  lemma EnablingRestoresNothing(sys: System, id: Id, at: Time)
    ensures var c, next := sys.store.config, Apply(sys, AdminEvent(SetClientDisabledOp(id, false, at), true));
      next.store.vault == sys.store.vault &&
      (id in c.clients ==> next.store.config.clients == c.clients[id := c.clients[id].(disabledAt := None, updatedAt := at)])
    ensures var c, next := sys.store.config, Apply(sys, AdminEvent(SetResourceDisabledOp(id, false, at), true));
      next.store.vault == sys.store.vault &&
      (id in c.resources ==> next.store.config.resources == c.resources[id := c.resources[id].(disabledAt := None, updatedAt := at)])
    ensures var c, next := sys.store.config, Apply(sys, AdminEvent(SetIssuerDisabledOp(id, false, at), true));
      next.store.vault == sys.store.vault &&
      (id in c.issuers ==> next.store.config.issuers == c.issuers[id := c.issuers[id].(disabledAt := None, updatedAt := at)])
  {
  }

  // ----- revoking grants, users and tokens -----

  lemma RevokingGrantRevokes(sys: System, id: Id, at: Time)
    requires id in sys.store.vault.grants
    ensures var next := Apply(sys, AdminEvent(RevokeGrantOp(id, at), true));
      RevokesGrants(sys.store.vault, next.store.vault, {id}, at) && next.store.config == sys.store.config && next.calls == sys.calls
  {
    RevokedGrantRecords(sys.store.vault, {id}, at);
  }

  lemma RevokedUserRecords(v: Vault, userId: Id, workspaceId: Id, at: Time)
    ensures RevokesUser(v, RevokeUserVault(v, userId, workspaceId, at), userId, workspaceId, at)
  {
  }

  /** A credential revocation reaches the user's grants and tokens in the workspace named, or
      in all of them. */
  lemma RevokingUserRevokes(sys: System, userId: Id, workspaceId: Id, at: Time)
    ensures var next := Apply(sys, AdminEvent(RevokeUserOp(userId, workspaceId, at), true));
      && RevokesUser(sys.store.vault, next.store.vault, userId, workspaceId, at)
      && next.store.config == sys.store.config && next.calls == sys.calls
  {
    RevokedUserRecords(sys.store.vault, userId, workspaceId, at);
  }

  lemma FamilyGrantsIff(v: Vault, f: Id, g: Id)
    ensures g in FamilyGrants(v, f) <==> exists r :: r in v.refresh && v.refresh[r].familyId == f && v.refresh[r].grantId == g
  {
  }

  lemma RevokedFamilyRecords(v: Vault, f: Id, at: Time)
    ensures RevokesFamily(v, RevokeFamilyVault(v, f, at), f, at)
  {
    var w := RevokeFamilyVault(v, f, at);
    forall t | t in v.access
      ensures w.access[t] == if exists r :: r in v.refresh && v.refresh[r].familyId == f && v.refresh[r].grantId == v.access[t].grantId
                             then ClosedAccess(v.access[t], at) else v.access[t]
    {
      FamilyGrantsIff(v, f, v.access[t].grantId);
    }
  }

  /** The committed step of a call that revokes a family, a replayed code's grant or an access
      token revokes exactly that. */
  lemma RevokingStepRevokes(sys: System, c: CallId, env: Env)
    requires c in sys.calls && env.commits
    ensures var v, w := sys.store.vault, Apply(sys, StepEvent(c, env)).store.vault;
      && (sys.calls[c].RevokingFamily? ==> RevokesFamily(v, w, sys.calls[c].familyId, env.now))
      && (sys.calls[c].RevokingGrant? && sys.calls[c].grantId in v.grants ==>
            RevokesGrants(v, w, {sys.calls[c].grantId}, env.now))
      && (sys.calls[c].RevokingAccess? && sys.calls[c].tokenId in v.access ==> RevokesAccess(v, w, sys.calls[c].tokenId, env.now))
  {
    match sys.calls[c]
    case RevokingFamily(f, _) => RevokingFamilyRevokes(sys, c, env);
    case RevokingGrant(g) => if g in sys.store.vault.grants { RevokingGrantStep(sys, c, env); }
    case RevokingAccess(t) => if t in sys.store.vault.access { RevokingAccessStep(sys, c, env); }
    case _ =>
  }

  lemma FamilyStepShape(sys: System, c: CallId, env: Env)
    requires c in sys.calls && sys.calls[c].RevokingFamily? && env.commits
    ensures var v, f := sys.store.vault, sys.calls[c].familyId;
      Apply(sys, StepEvent(c, env)).store.vault == if FamilyGrants(v, f) == {} then v else RevokeFamilyVault(v, f, env.now)
  {
    RevokingFamilyStep(sys, c, env);
  }

  lemma UnknownFamilyRecords(v: Vault, f: Id, at: Time)
    requires FamilyGrants(v, f) == {}
    ensures RevokesFamily(v, v, f, at)
  {
    assert forall r | r in v.refresh && v.refresh[r].familyId == f :: v.refresh[r].grantId in FamilyGrants(v, f);
  }

  lemma RevokingFamilyRevokes(sys: System, c: CallId, env: Env)
    requires c in sys.calls && sys.calls[c].RevokingFamily? && env.commits
    ensures RevokesFamily(sys.store.vault, Apply(sys, StepEvent(c, env)).store.vault, sys.calls[c].familyId, env.now)
  {
    var v, f := sys.store.vault, sys.calls[c].familyId;
    FamilyStepShape(sys, c, env);
    if FamilyGrants(v, f) == {} {
      UnknownFamilyRecords(v, f, env.now);
    } else {
      RevokedFamilyRecords(v, f, env.now);
    }
  }

  lemma GrantStepShape(sys: System, c: CallId, env: Env)
    requires c in sys.calls && sys.calls[c].RevokingGrant? && env.commits && sys.calls[c].grantId in sys.store.vault.grants
    ensures Apply(sys, StepEvent(c, env)).store.vault == RevokeGrants(sys.store.vault, {sys.calls[c].grantId}, env.now)
  {
  }

  lemma RevokingGrantStep(sys: System, c: CallId, env: Env)
    requires c in sys.calls && sys.calls[c].RevokingGrant? && env.commits && sys.calls[c].grantId in sys.store.vault.grants
    ensures RevokesGrants(sys.store.vault, Apply(sys, StepEvent(c, env)).store.vault, {sys.calls[c].grantId}, env.now)
  {
    GrantStepShape(sys, c, env);
    RevokedGrantRecords(sys.store.vault, {sys.calls[c].grantId}, env.now);
  }

  lemma RevokingAccessStep(sys: System, c: CallId, env: Env)
    requires c in sys.calls && sys.calls[c].RevokingAccess? && env.commits && sys.calls[c].tokenId in sys.store.vault.access
    ensures RevokesAccess(sys.store.vault, Apply(sys, StepEvent(c, env)).store.vault, sys.calls[c].tokenId, env.now)
  {
  }

  // ----- what is revoked stays revoked -----

  predicate AccessClosed(v: Vault, t: Id) {
    t in v.access && v.access[t].revokedAt.Some?
  }

  predicate RefreshClosed(v: Vault, t: Id) {
    t in v.refresh && v.refresh[t].revokedAt.Some?
  }

  lemma ClosedStep(sys: System, e: Event, t: Id)
    requires Inv(sys)
    ensures AccessClosed(sys.store.vault, t) ==> AccessClosed(Apply(sys, e).store.vault, t)
    ensures RefreshClosed(sys.store.vault, t) ==> RefreshClosed(Apply(sys, e).store.vault, t)
  {
    var k := Classify(sys, e);
    if !k.Revoking? {
      KindGrows(sys, Apply(sys, e).store.vault, k);
    }
  }

  /** No event clears the revocation of a token. */
  lemma {:induction false} RevokedTokenStaysRevoked(sys: System, events: seq<Event>, t: Id)
    requires Inv(sys)
    ensures AccessClosed(sys.store.vault, t) ==> AccessClosed(Run(sys, events).store.vault, t)
    ensures RefreshClosed(sys.store.vault, t) ==> RefreshClosed(Run(sys, events).store.vault, t)
    decreases |events|
  {
    if events != [] {
      ClosedStep(sys, events[0], t);
      ApplyKeepsInv(sys, events[0]);
      RevokedTokenStaysRevoked(Apply(sys, events[0]), events[1..], t);
    }
  }

  // ----- a revoked access token is refused -----

  /** The bearer check has read access token `t`, or ended having accepted it. */
  predicate HoldsToken(call: Call, t: Id) {
    || (call.TokenRead? && call.token.id == t)
    || ((call.Presented? || PastGrant(call)) && call.job.Authenticate? && call.job.token.id == t)
    || (call.Authenticated? && call.token.id == t)
  }

  lemma BeginHoldsLive(s: State, request: Request, env: Env, minted: set<Id>, t: Id)
    requires AccessOk(s.vault, minted) && AccessClosed(s.vault, t)
    ensures !HoldsToken(Begin(s, request, env), t)
  {
  }

  /** A call that holds no access token record at all. */
  predicate HoldsNone(call: Call) {
    !call.TokenRead? && !call.Presented? && !PastGrant(call) && !call.Authenticated?
  }

  lemma OthersTakeNoToken(s: State, call: Call, env: Env, t: Id)
    requires !call.Begun? && HoldsNone(call)
    ensures !HoldsToken(Advance(s, call, env).call, t)
  {
    match call
    case ClientKnown(request, issuer, client) => PresentTakesNoToken(s, request, issuer, client, env, t);
    case IssuerKnown(request, issuer) =>
      if !request.AuthenticateRequest? {
        ResolvingTakesNoToken(s, request, issuer, env, t);
      }
    case _ => RestTakesNoToken(s, call, env, t);
  }

  lemma PresentTakesNoToken(s: State, request: Request, issuer: Issuer, client: Client, env: Env, t: Id)
    ensures !HoldsToken(Present(s, request, issuer, client, env), t)
  {
  }

  lemma ResolvingTakesNoToken(s: State, request: Request, issuer: Issuer, env: Env, t: Id)
    requires !request.AuthenticateRequest?
    ensures !HoldsToken(ResolveClient(s, request, issuer, env), t)
  {
  }

  lemma RestTakesNoToken(s: State, call: Call, env: Env, t: Id)
    requires !call.Begun? && !call.ClientKnown? && !call.IssuerKnown? && HoldsNone(call)
    ensures !HoldsToken(Advance(s, call, env).call, t)
  {
  }

  lemma HoldersCarryToken(s: State, call: Call, env: Env, t: Id)
    requires !HoldsNone(call) && HoldsToken(Advance(s, call, env).call, t)
    ensures HoldsToken(call, t)
  {
  }

  lemma CarriesToken(s: State, call: Call, env: Env, t: Id)
    requires !call.Begun? && HoldsToken(Advance(s, call, env).call, t)
    ensures HoldsToken(call, t)
  {
    if HoldsNone(call) {
      OthersTakeNoToken(s, call, env, t);
    } else {
      HoldersCarryToken(s, call, env, t);
    }
  }

  /** No call takes up a token that is revoked by then. */
  lemma HoldersStep(sys: System, e: Event, t: Id, c: CallId)
    requires Inv(sys) && AccessClosed(sys.store.vault, t)
    requires c in sys.calls ==> !HoldsToken(sys.calls[c], t)
    ensures c in Apply(sys, e).calls ==> !HoldsToken(Apply(sys, e).calls[c], t)
  {
    if e.StepEvent? && e.callId in sys.calls {
      StepOfCall(sys, e.callId, e.env);
      if e.callId == c && HoldsToken(Advance(sys.store, sys.calls[c], e.env).call, t) {
        if sys.calls[c].Begun? {
          BeginHoldsLive(sys.store, sys.calls[c].request, e.env, sys.minted, t);
        } else {
          CarriesToken(sys.store, sys.calls[c], e.env, t);
        }
      }
    }
  }

  /** Once an access token is revoked, no bearer check that had not read it before accepts
      it, over every continuation. */
  lemma {:induction false} RevokedTokenIsRefused(sys: System, events: seq<Event>, t: Id, c: CallId)
    requires Inv(sys) && AccessClosed(sys.store.vault, t)
    requires c in sys.calls ==> !HoldsToken(sys.calls[c], t)
    ensures var calls := Run(sys, events).calls; c in calls ==> !(calls[c].Authenticated? && calls[c].token.id == t)
    decreases |events|
  {
    if events != [] {
      HoldersStep(sys, events[0], t, c);
      ClosedStep(sys, events[0], t);
      ApplyKeepsInv(sys, events[0]);
      RevokedTokenIsRefused(Apply(sys, events[0]), events[1..], t, c);
    }
  }

  // ----- the cascades are final -----

  lemma ReachableStep(sys: System, e: Event)
    requires Reachable(sys)
    ensures Reachable(Apply(sys, e))
  {
    var events: seq<Event> :| sys == Run(INITIAL, events);
    RunSplits(INITIAL, events, [e]);
    RunLast(sys, e);
    assert Run(INITIAL, events + [e]) == Apply(sys, e);
  }

  /** The grant is dead from `sys` on: it is revoked, no call has passed its validation since,
      nothing was rotated, and what was issued is what exchanges racing in `sys` committed. */
  ghost predicate GrantDead(sys: System, later: System, g: Id) {
    && GrantRevoked(later.store.vault, g)
    && PassedCalls(later, g) <= PassedCalls(sys, g)
    && RotatedOf(later.store.vault, g) == RotatedOf(sys.store.vault, g)
    && IssuedByRacers(sys, later, g)
  }

  /** Every token the grant had in `v` is revoked in `w`. */
  ghost predicate TokensDead(v: Vault, w: Vault, g: Id) {
    && (forall t | t in v.access && v.access[t].grantId == g :: AccessClosed(w, t))
    && (forall t | t in v.refresh && v.refresh[t].grantId == g :: RefreshClosed(w, t))
  }

  lemma RevokedNow(v: Vault, w: Vault, gs: set<Id>, at: Time, g: Id)
    requires RevokesGrants(v, w, gs, at) && g in gs && g in v.grants
    ensures GrantRevoked(w, g) && TokensDead(v, w, g)
  {
  }

  lemma TokensStayDead(v: Vault, next: System, events: seq<Event>, g: Id)
    requires Inv(next) && TokensDead(v, next.store.vault, g)
    ensures TokensDead(v, Run(next, events).store.vault, g)
  {
    forall t | t in v.access && v.access[t].grantId == g ensures AccessClosed(Run(next, events).store.vault, t) {
      RevokedTokenStaysRevoked(next, events, t);
    }
    forall t | t in v.refresh && v.refresh[t].grantId == g ensures RefreshClosed(Run(next, events).store.vault, t) {
      RevokedTokenStaysRevoked(next, events, t);
    }
  }

  lemma DeadFromNow(next: System, events: seq<Event>, g: Id)
    requires Reachable(next) && GrantRevoked(next.store.vault, g)
    ensures GrantDead(next, Run(next, events), g)
  {
    RevokedGrantIsDead(next, events, g);
  }

  lemma RevocationIsFinal(v: Vault, next: System, events: seq<Event>, g: Id)
    requires Reachable(next) && GrantRevoked(next.store.vault, g) && TokensDead(v, next.store.vault, g)
    ensures GrantDead(next, Run(next, events), g) && TokensDead(v, Run(next, events).store.vault, g)
  {
    DeadFromNow(next, events, g);
    ReachableInv(next);
    TokensStayDead(v, next, events, g);
  }

  /** From every reachable state, disabling a client, a resource or an issuer kills each of
      its grants, and every token under them, over every continuation: enabling it again
      brings nothing back. */
  lemma DisablingIsFinal(sys: System, op: AdminOp, events: seq<Event>, g: Id)
    requires Reachable(sys) && g in sys.store.vault.grants
    requires
      || (op.SetClientDisabledOp? && op.disabled && op.id in sys.store.config.clients &&
          sys.store.vault.grants[g].clientRecordId == op.id)
      || (op.SetResourceDisabledOp? && op.disabled && op.id in sys.store.config.resources &&
          sys.store.vault.grants[g].resourceId == op.id)
      || (op.SetIssuerDisabledOp? && op.disabled && op.id in sys.store.config.issuers &&
          sys.store.vault.grants[g].issuerId == op.id)
    ensures var next, later := Apply(sys, AdminEvent(op, true)), Run(Apply(sys, AdminEvent(op, true)), events);
      GrantDead(next, later, g) && TokensDead(sys.store.vault, later.store.vault, g)
  {
    var v, next := sys.store.vault, Apply(sys, AdminEvent(op, true));
    match op {
      case SetClientDisabledOp(id, _, at) =>
        DisablingClientRevokes(sys, id, at);
        RevokedNow(v, next.store.vault, HeldBy(v.grants, id), at, g);
      case SetResourceDisabledOp(id, _, at) =>
        DisablingResourceRevokes(sys, id, at);
        RevokedNow(v, next.store.vault, GivenFor(v.grants, id), at, g);
      case SetIssuerDisabledOp(id, _, at) =>
        DisablingIssuerRevokes(sys, id, at);
        RevokedNow(v, next.store.vault, GivenBy(v.grants, id), at, g);
    }
    ReachableStep(sys, AdminEvent(op, true));
    RevocationIsFinal(v, next, events, g);
  }

  /** The same for a grant that is revoked itself. */
  lemma GrantRevocationIsFinal(sys: System, g: Id, at: Time, events: seq<Event>)
    requires Reachable(sys) && g in sys.store.vault.grants
    ensures var next := Apply(sys, AdminEvent(RevokeGrantOp(g, at), true));
      GrantDead(next, Run(next, events), g) && TokensDead(sys.store.vault, Run(next, events).store.vault, g)
  {
    var next := Apply(sys, AdminEvent(RevokeGrantOp(g, at), true));
    RevokingGrantRevokes(sys, g, at);
    RevokedNow(sys.store.vault, next.store.vault, {g}, at, g);
    ReachableStep(sys, AdminEvent(RevokeGrantOp(g, at), true));
    RevocationIsFinal(sys.store.vault, next, events, g);
  }

  lemma UserRevokedNow(v: Vault, w: Vault, userId: Id, workspaceId: Id, at: Time, minted: set<Id>, g: Id)
    requires TokensOk(v, minted) && RevokesUser(v, w, userId, workspaceId, at)
    requires g in v.grants && v.grants[g].userId == userId && (workspaceId != NO_ID ==> v.grants[g].workspaceId == workspaceId)
    ensures GrantRevoked(w, g) && TokensDead(v, w, g)
  {
    forall t | t in v.access && v.access[t].grantId == g ensures AccessClosed(w, t) {
      assert AccessFits(v.access[t], v.grants[g]);
    }
    forall t | t in v.refresh && v.refresh[t].grantId == g ensures RefreshClosed(w, t) {
      assert RefreshFits(v.refresh[t], v.grants[g]);
    }
  }

  /** And for every grant of a user whose credentials are revoked. */
  lemma UserRevocationIsFinal(sys: System, userId: Id, workspaceId: Id, at: Time, events: seq<Event>, g: Id)
    requires Reachable(sys) && g in sys.store.vault.grants && sys.store.vault.grants[g].userId == userId
    requires workspaceId != NO_ID ==> sys.store.vault.grants[g].workspaceId == workspaceId
    ensures var next := Apply(sys, AdminEvent(RevokeUserOp(userId, workspaceId, at), true));
      GrantDead(next, Run(next, events), g) && TokensDead(sys.store.vault, Run(next, events).store.vault, g)
  {
    var e := AdminEvent(RevokeUserOp(userId, workspaceId, at), true);
    ReachableInv(sys);
    RevokingUserRevokes(sys, userId, workspaceId, at);
    UserRevokedNow(sys.store.vault, Apply(sys, e).store.vault, userId, workspaceId, at, sys.minted, g);
    ReachableStep(sys, e);
    RevocationIsFinal(sys.store.vault, Apply(sys, e), events, g);
  }

  /** An access token revoked by a call stays revoked, and no bearer check that begins after
      that accepts it. */
  lemma AccessRevocationIsFinal(sys: System, c: CallId, env: Env, events: seq<Event>, d: CallId)
    requires Reachable(sys) && c in sys.calls && sys.calls[c].RevokingAccess? && env.commits
    requires sys.calls[c].tokenId in sys.store.vault.access && d !in sys.calls
    ensures var t, later := sys.calls[c].tokenId, Run(Apply(sys, StepEvent(c, env)), events);
      && AccessClosed(later.store.vault, t)
      && (d in later.calls ==> !(later.calls[d].Authenticated? && later.calls[d].token.id == t))
  {
    var next := Apply(sys, StepEvent(c, env));
    RevokingAccessStep(sys, c, env);
    ReachableStep(sys, StepEvent(c, env));
    ReachableInv(next);
    StepOfCall(sys, c, env);
    RevokedTokenStaysRevoked(next, events, sys.calls[c].tokenId);
    RevokedTokenIsRefused(next, events, sys.calls[c].tokenId, d);
  }

  // ----- the operations that store one record -----

  /** A committed creation is refused exactly if an identifier or a key is taken or what it
      refers to is missing, and what is created is found by its key; an update of an issuer
      needs its identifier and URL to be stored, and is found under that URL; a revoked
      client-credentials token is found revoked. No other record changes. */
  lemma StoredIsFound(s: State, op: AdminOp)
    requires op.UpdateIssuerOp? ==> (op.issuer.url in s.config.issuerUrls ==> s.config.issuerUrls[op.issuer.url] == op.issuer.id)
    ensures var c, d := s.config, Administer(s, op, true).config;
      && (op.CreateIssuerOp? ==>
            && (d == c <==> op.issuer.id in c.issuers || op.issuer.url in c.issuerUrls)
            && (d != c ==> IssuerByUrl(d, op.issuer.url) == Some(op.issuer) && d.issuers - {op.issuer.id} == c.issuers))
      && (op.UpdateIssuerOp? && op.issuer.id in c.issuers && c.issuers[op.issuer.id].url == op.issuer.url ==>
            && d.issuers == c.issuers[op.issuer.id := op.issuer]
            && (op.issuer.url in c.issuerUrls ==> IssuerByUrl(d, op.issuer.url) == Some(op.issuer)))
      && (op.CreateResourceOp? ==>
            var r := op.resource;
            && (d == c <==> r.issuerId !in c.issuers || r.workspaceId !in c.workspaces || r.id in c.resources || r.uri in c.resourceUris)
            && (d != c ==> Lookup(d.resources, d.resourceUris, r.uri) == Some(r) && d.resources - {r.id} == c.resources))
      && (op.CreateClientTokenOp? ==>
            var t := op.clientToken;
            && (d == c <==> t.prefix in c.clientTokenKeys)
            && (d != c ==> Lookup(d.clientTokens, d.clientTokenKeys, t.prefix) == Some(t)))
      && (op.RevokeClientTokenOp? && op.id in c.clientTokens ==>
            d.clientTokens[op.id].revokedAt == Some(op.at) && d.clientTokens - {op.id} == c.clientTokens - {op.id})
  {
    var c, d := s.config, Administer(s, op, true).config;
    if op.CreateIssuerOp? && op.issuer.id !in c.issuers && op.issuer.url !in c.issuerUrls {
      assert op.issuer.url in d.issuerUrls;
    } else if op.CreateResourceOp? && op.resource.uri !in c.resourceUris && op.resource.id !in c.resources && d.resources != c.resources {
      assert op.resource.uri in d.resourceUris;
    } else if op.CreateClientTokenOp? && op.clientToken.prefix !in c.clientTokenKeys {
      assert op.clientToken.prefix in d.clientTokenKeys;
    }
  }

  /** No administrative operation has an effect if its commit fails. */
  lemma FailedCommitHasNoEffect(s: State, op: AdminOp)
    requires !op.AddWorkspace?
    ensures Administer(s, op, false) == s
  {
  }
}
