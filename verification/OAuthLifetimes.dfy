/** The tokens and codes the endpoints hand out, put to use: how long each is good for, what
    it stands for, and what presenting it a second time does. */
module OAuthLifetimes {
  import opened Common
  import opened Uuid
  import opened OAuthRecords
  import opened OAuthSpec
  import opened OAuthProtocol
  import opened OAuthInvariant
  import opened OAuthPreservation
  import opened OAuthRegistry
  import opened OAuthSolo
  import opened OAuthEffects

  /** Grants and resources sit under their own identifiers. */
  predicate Filed(s: State) {
    && (forall g | g in s.vault.grants :: s.vault.grants[g].id == g)
    && (forall r | r in s.config.resources :: s.config.resources[r].id == r)
  }

  predicate ResourcesFiled(c: Config) {
    forall r | r in c.resources :: c.resources[r].id == r
  }

  lemma AdminKeepsResources(s: State, op: AdminOp, commits: bool)
    requires ResourcesFiled(s.config)
    ensures ResourcesFiled(Administer(s, op, commits).config)
  {
  }

  lemma EventKeepsResources(sys: System, e: Event)
    requires ResourcesFiled(sys.store.config)
    ensures ResourcesFiled(Apply(sys, e).store.config)
  {
    if e.AdminEvent? {
      AdminKeepsResources(sys.store, e.op, e.commits);
    } else if e.StepEvent? && e.callId in sys.calls {
      if sys.calls[e.callId].Refetching? {
        RefetchStep(sys, e.callId, e.env);
      } else {
        ConfigUntouched(sys.store, sys.calls[e.callId], e.env);
      }
    }
  }

  /** So they do in every reachable state. */
  lemma ReachableFiled(sys: System)
    requires Reachable(sys)
    ensures Filed(sys.store)
  {
    var events: seq<Event> :| sys == Run(INITIAL, events);
    var kept := (s: System) => ResourcesFiled(s.store.config);
    forall s, e | kept(s) ensures kept(Apply(s, e)) {
      EventKeepsResources(s, e);
    }
    RunKeeps(kept, e => true, INITIAL, events);
    ReachableInv(sys);
  }

  // ----- a bearer check of a stored token -----

  /** The token is what a new one for this grant and these scopes should be. */
  predicate IssuedFor(token: AccessToken, grant: Grant, scopes: Scopes, bearer: Bearer, expiresAt: Time) {
    && token.prefix == bearer.prefix && token.digest == bearer.digest
    && token.grantId == grant.id && token.clientRecordId == grant.clientRecordId && token.userId == grant.userId
    && token.workspaceId == grant.workspaceId && token.resourceId == grant.resourceId && token.scopes == scopes
    && token.expiresAt == expiresAt && token.revokedAt.None?
  }

  /** The client of the grant is stored, and may use the grant at the audience. */
  predicate InUse(s: State, grant: Grant, audience: Audience) {
    grant.clientRecordId in s.config.clients && Usable(s, s.config.clients[grant.clientRecordId], grant.id, audience)
  }

  /** A live token of a grant is accepted until it expires, for as long as the grant may be
      used and its permissions are held. */
  lemma {:induction false} LiveTokenAccepted(t: State, token: AccessToken, grant: Grant, scopes: Scopes, bearer: Bearer, expiresAt: Time,
                          audience: Audience, u: Env)
    requires Filed(t) && grant.id in t.vault.grants && t.vault.grants[grant.id] == grant && Within(scopes, grant.scopes)
    requires AccessByPrefix(t.vault, bearer.prefix) == Some(token) && IssuedFor(token, grant, scopes, bearer, expiresAt)
    ensures var q := Solo(t, Begun(AuthenticateRequest(Some(bearer), audience)), u, 6);
      && q.state == t
      && (q.call.Authenticated? <==> u.now < expiresAt && u.permitted && InUse(t, grant, audience))
      && (q.call.Authenticated? ==> q.call.token == token)
  {
    AuthenticateSolo(t, bearer, audience, u);
  }

  // ----- after an exchange -----

  /** The store and the request are such that the exchange issues. */
  predicate Exchanges(s: State, job: Job, env: Env) {
    job.Exchange? && Active(s, job) && ExchangeReady(s, job, ActiveGrant(s, job), ActiveResource(s, job), env)
  }

  /** What an exchange has put in the store for its access token. */
  lemma ExchangedAccess(s: State, job: Job, env: Env) returns (token: AccessToken)
    requires Exchanges(s, job, env)
    ensures var t, grant := Solo(s, Presented(job), env, 5).state, ActiveGrant(s, job);
      && t.config == s.config && t.vault.grants == s.vault.grants
      && AccessByPrefix(t.vault, env.accessBearer.prefix) == Some(token)
      && IssuedFor(token, grant, grant.scopes, env.accessBearer, env.now + job.issuer.accessTtl)
  {
    ExchangeSolo(s, job, env);
    token := Solo(s, Presented(job), env, 5).call.access;
  }

  lemma SameUse(s: State, t: State, grant: Grant, audience: Audience)
    requires t.config == s.config && t.vault.grants == s.vault.grants
    ensures (InUse(t, grant, audience) <==> InUse(s, grant, audience)) && (Filed(t) <==> Filed(s))
  {
  }

  /** The access token of an exchange is accepted from the exchange on until its lifetime is
      over, exactly while the grant may be used and its permissions are held. */
  lemma ExchangedTokenLives(s: State, job: Job, env: Env, audience: Audience, u: Env)
    requires Exchanges(s, job, env) && Filed(s)
    ensures var p, grant := Solo(s, Presented(job), env, 5), ActiveGrant(s, job);
      var q := Solo(p.state, Begun(AuthenticateRequest(Some(env.accessBearer), audience)), u, 6);
      && p.call.Issued?
      && (q.call.Authenticated? <==> u.now < env.now + job.issuer.accessTtl && u.permitted && InUse(s, grant, audience))
      && (q.call.Authenticated? ==>
            IssuedFor(q.call.token, grant, grant.scopes, env.accessBearer, env.now + job.issuer.accessTtl))
  {
    var t, grant := Solo(s, Presented(job), env, 5).state, ActiveGrant(s, job);
    ExchangeSolo(s, job, env);
    var token := ExchangedAccess(s, job, env);
    SameUse(s, t, grant, audience);
    LiveTokenAccepted(t, token, grant, grant.scopes, env.accessBearer, env.now + job.issuer.accessTtl, audience, u);
  }

  /** With the client as stored, it is accepted at its resource exactly in that time. */
  lemma ExchangedTokenWorks(s: State, job: Job, env: Env, u: Env)
    requires Exchanges(s, job, env) && Filed(s) && u.permitted
    requires job.client.id in s.config.clients && s.config.clients[job.client.id] == job.client
    ensures var p := Solo(s, Presented(job), env, 5);
      Solo(p.state, Begun(AuthenticateRequest(Some(env.accessBearer), AnyResource)), u, 6).call.Authenticated? <==>
        u.now < env.now + job.issuer.accessTtl
  {
    ExchangedTokenLives(s, job, env, AnyResource, u);
  }

  /** From every reachable state. */
  lemma ReachableExchangeLives(sys: System, job: Job, env: Env, audience: Audience, u: Env)
    requires Reachable(sys) && Exchanges(sys.store, job, env)
    ensures var p, grant := Solo(sys.store, Presented(job), env, 5), ActiveGrant(sys.store, job);
      var q := Solo(p.state, Begun(AuthenticateRequest(Some(env.accessBearer), audience)), u, 6);
      && p.call.Issued?
      && (q.call.Authenticated? <==> u.now < env.now + job.issuer.accessTtl && u.permitted && InUse(sys.store, grant, audience))
      && (q.call.Authenticated? ==>
            IssuedFor(q.call.token, grant, grant.scopes, env.accessBearer, env.now + job.issuer.accessTtl))
  {
    ReachableFiled(sys);
    ExchangedTokenLives(sys.store, job, env, audience, u);
  }

  // ----- after a refresh -----

  predicate Refreshes(s: State, job: Job, env: Env) {
    job.Refresh? && Active(s, job) && RefreshReady(s, job, ActiveGrant(s, job), ActiveResource(s, job), env)
  }

  /** The scopes a refresh asks for: those given, or those of its token. */
  function AskedScopes(job: Job): Scopes
    requires job.Refresh?
  {
    if job.narrowing.Narrow? then job.narrowing.scopes else job.previous.scopes
  }

  lemma RotatedAccess(s: State, job: Job, env: Env) returns (token: AccessToken)
    requires Refreshes(s, job, env)
    ensures var t, grant := Solo(s, Presented(job), env, 5).state, ActiveGrant(s, job);
      && t.config == s.config && t.vault.grants == s.vault.grants
      && AccessByPrefix(t.vault, env.accessBearer.prefix) == Some(token)
      && IssuedFor(token, grant, AskedScopes(job), env.accessBearer, env.now + job.issuer.accessTtl)
  {
    RefreshSolo(s, job, env);
    token := Solo(s, Presented(job), env, 5).call.access;
  }

  /** The same for the access token of a refresh, which carries the scopes asked for. */
  lemma RotatedTokenLives(s: State, job: Job, env: Env, audience: Audience, u: Env)
    requires Refreshes(s, job, env) && Filed(s) && Within(job.previous.scopes, ActiveGrant(s, job).scopes)
    ensures var p, grant := Solo(s, Presented(job), env, 5), ActiveGrant(s, job);
      var q := Solo(p.state, Begun(AuthenticateRequest(Some(env.accessBearer), audience)), u, 6);
      && p.call.Issued?
      && (q.call.Authenticated? <==> u.now < env.now + job.issuer.accessTtl && u.permitted && InUse(s, grant, audience))
      && (q.call.Authenticated? ==>
            IssuedFor(q.call.token, grant, AskedScopes(job), env.accessBearer, env.now + job.issuer.accessTtl))
  {
    var t, grant := Solo(s, Presented(job), env, 5).state, ActiveGrant(s, job);
    RefreshSolo(s, job, env);
    var token := RotatedAccess(s, job, env);
    SameUse(s, t, grant, audience);
    assert Within(AskedScopes(job), job.previous.scopes);
    LiveTokenAccepted(t, token, grant, AskedScopes(job), env.accessBearer, env.now + job.issuer.accessTtl, audience, u);
  }

  /** From every reachable state, for a stored refresh token. */
  lemma ReachableRotationLives(sys: System, job: Job, env: Env, audience: Audience, u: Env)
    requires Reachable(sys) && Refreshes(sys.store, job, env) && sys.store.vault.refresh[job.previous.id] == job.previous
    ensures var p, grant := Solo(sys.store, Presented(job), env, 5), ActiveGrant(sys.store, job);
      var q := Solo(p.state, Begun(AuthenticateRequest(Some(env.accessBearer), audience)), u, 6);
      && p.call.Issued?
      && (q.call.Authenticated? <==> u.now < env.now + job.issuer.accessTtl && u.permitted && InUse(sys.store, grant, audience))
      && (q.call.Authenticated? ==>
            IssuedFor(q.call.token, grant, AskedScopes(job), env.accessBearer, env.now + job.issuer.accessTtl))
  {
    ReachableFiled(sys);
    RefreshWithinGrant(sys, job.previous.id);
    RotatedTokenLives(sys.store, job, env, audience, u);
  }

  lemma RefreshWithinGrant(sys: System, t: Id)
    requires Reachable(sys) && t in sys.store.vault.refresh
    ensures var v := sys.store.vault;
      v.refresh[t].grantId in v.grants && Within(v.refresh[t].scopes, v.grants[v.refresh[t].grantId].scopes)
  {
    ReachableInv(sys);
    assert RefreshFits(sys.store.vault.refresh[t], sys.store.vault.grants[sys.store.vault.refresh[t].grantId]);
  }

  // ----- a refresh token put to use -----

  /** The refresh token is what a new one for this grant, family and these scopes should be. */
  predicate RefreshIssuedFor(token: RefreshToken, grant: Grant, scopes: Scopes, familyId: Id, bearer: Bearer, expiresAt: Time) {
    && token.prefix == bearer.prefix && token.digest == bearer.digest && token.familyId == familyId
    && token.grantId == grant.id && token.clientRecordId == grant.clientRecordId && token.userId == grant.userId
    && token.workspaceId == grant.workspaceId && token.resourceId == grant.resourceId && token.scopes == scopes
    && token.expiresAt == expiresAt && token.usedAt.None? && token.revokedAt.None?
  }

  /** A refresh with this bearer, keeping the scopes. */
  function RefreshWith(url: string, clientId: string, bearer: Bearer, audience: Audience): Request {
    RefreshRequest(url, clientId, Some(bearer), KeepScopes, audience)
  }

  /** The new bearers of a refresh collide with none in the store. */
  predicate BearersFree(v: Vault, u: Env) {
    u.accessBearer.prefix !in v.accessKeys && u.refreshBearer.prefix !in v.refreshKeys
  }

  /** A live refresh token of a grant rotates until it expires, for its own client and as long
      as the grant may be used. */
  lemma LiveRefreshRotates(t: State, token: RefreshToken, grant: Grant, scopes: Scopes, familyId: Id, bearer: Bearer,
                           expiresAt: Time, issuer: Issuer, client: Client, url: string, audience: Audience, u: Env)
    requires Filed(t) && grant.id in t.vault.grants && t.vault.grants[grant.id] == grant
    requires RefreshByPrefix(t.vault, bearer.prefix) == Some(token) && token.id in t.vault.refresh && t.vault.refresh[token.id] == token
    requires RefreshIssuedFor(token, grant, scopes, familyId, bearer, expiresAt)
    ensures var q := Solo(t, ClientKnown(RefreshWith(url, client.clientId, bearer, audience), issuer, client), u, 7);
      && (q.call.Issued? <==>
            u.now < expiresAt && u.permitted && u.commits && BearersFree(t.vault, u) && Usable(t, client, grant.id, audience))
      && (q.call.Issued? ==>
            && q.call.refresh.Some? && q.call.refresh.value.familyId == familyId && q.call.refresh.value.scopes == scopes
            && q.call.refresh.value.expiresAt == u.now + issuer.refreshTtl && q.call.access.expiresAt == u.now + issuer.accessTtl
            && q.call.access.scopes == scopes && q.call.access.grantId == grant.id)
  {
    KnownRefreshEnds(t, issuer, client, RefreshWith(url, client.clientId, bearer, audience), u);
  }

  lemma ExchangedRefresh(s: State, job: Job, env: Env) returns (token: RefreshToken)
    requires Exchanges(s, job, env) && Offline(ActiveGrant(s, job), job.client)
    ensures var t, grant := Solo(s, Presented(job), env, 5).state, ActiveGrant(s, job);
      && t.config == s.config && t.vault.grants == s.vault.grants
      && RefreshByPrefix(t.vault, env.refreshBearer.prefix) == Some(token)
      && token.id in t.vault.refresh && t.vault.refresh[token.id] == token
      && RefreshIssuedFor(token, grant, grant.scopes, env.familyId, env.refreshBearer, env.now + job.issuer.refreshTtl)
  {
    ExchangeSolo(s, job, env);
    token := Solo(s, Presented(job), env, 5).call.refresh.value;
  }

  /** The refresh token of an exchange rotates until its lifetime is over. */
  lemma ExchangedRefreshLives(s: State, job: Job, env: Env, issuer: Issuer, client: Client, url: string, audience: Audience,
                              u: Env)
    requires Exchanges(s, job, env) && Filed(s) && Offline(ActiveGrant(s, job), job.client)
    ensures var t, grant := Solo(s, Presented(job), env, 5).state, ActiveGrant(s, job);
      var q := Solo(t, ClientKnown(RefreshWith(url, client.clientId, env.refreshBearer, audience), issuer, client), u, 7);
      q.call.Issued? <==>
        && u.now < env.now + job.issuer.refreshTtl && u.permitted && u.commits && BearersFree(t.vault, u)
        && Usable(s, client, grant.id, audience)
  {
    var t, grant := Solo(s, Presented(job), env, 5).state, ActiveGrant(s, job);
    var token := ExchangedRefresh(s, job, env);
    SameUse(s, t, grant, audience);
    LiveRefreshRotates(t, token, grant, grant.scopes, env.familyId, env.refreshBearer, env.now + job.issuer.refreshTtl,
                       issuer, client, url, audience, u);
  }

  lemma RotatedRefresh(s: State, job: Job, env: Env) returns (token: RefreshToken)
    requires Refreshes(s, job, env)
    ensures var t, grant := Solo(s, Presented(job), env, 5).state, ActiveGrant(s, job);
      && t.config == s.config && t.vault.grants == s.vault.grants
      && RefreshByPrefix(t.vault, env.refreshBearer.prefix) == Some(token)
      && token.id in t.vault.refresh && t.vault.refresh[token.id] == token
      && RefreshIssuedFor(token, grant, AskedScopes(job), job.previous.familyId, env.refreshBearer, env.now + job.issuer.refreshTtl)
  {
    RefreshSolo(s, job, env);
    token := Solo(s, Presented(job), env, 5).call.refresh.value;
  }

  /** So does the successor a refresh issues. */
  lemma RotatedRefreshLives(s: State, job: Job, env: Env, issuer: Issuer, client: Client, url: string, audience: Audience,
                            u: Env)
    requires Refreshes(s, job, env) && Filed(s)
    ensures var t, grant := Solo(s, Presented(job), env, 5).state, ActiveGrant(s, job);
      var q := Solo(t, ClientKnown(RefreshWith(url, client.clientId, env.refreshBearer, audience), issuer, client), u, 7);
      q.call.Issued? <==>
        && u.now < env.now + job.issuer.refreshTtl && u.permitted && u.commits && BearersFree(t.vault, u)
        && Usable(s, client, grant.id, audience)
  {
    var t, grant := Solo(s, Presented(job), env, 5).state, ActiveGrant(s, job);
    var token := RotatedRefresh(s, job, env);
    SameUse(s, t, grant, audience);
    LiveRefreshRotates(t, token, grant, AskedScopes(job), job.previous.familyId, env.refreshBearer,
                       env.now + job.issuer.refreshTtl, issuer, client, url, audience, u);
  }

  // ----- presenting something twice -----

  /** The retired token can still be found by its prefix, used. */
  lemma RetiredIsFound(s: State, job: Job, env: Env, prefix: string)
    requires Refreshes(s, job, env) && prefix in s.vault.refreshKeys && s.vault.refreshKeys[prefix] == job.previous.id
    requires env.refreshId != job.previous.id
    ensures var t := Solo(s, Presented(job), env, 5).state;
      var stored := s.vault.refresh[job.previous.id];
      RefreshByPrefix(t.vault, prefix) == Some(stored.(usedAt := Some(env.now), replacedById := env.refreshId))
  {
    RefreshSolo(s, job, env);
  }

  lemma FamilyRevocationState(s: State, f: Id, at: Time, t: Id)
    requires t in s.vault.refresh && s.vault.refresh[t].familyId == f
    ensures RevokeFamily(s, f, at, true).state == s.(vault := RevokeFamilyVault(s.vault, f, at))
  {
    assert s.vault.refresh[t].grantId in FamilyGrants(s.vault, f);
  }

  /** A used token of the client is shown, and presents nothing to rotate. */
  lemma UsedIsShown(v: Vault, token: RefreshToken, bearer: Bearer, known: Option<(Issuer, Client)>, request: Request, u: Env)
    requires RefreshByPrefix(v, bearer.prefix) == Some(token) && token.usedAt.Some? && token.digest == bearer.digest
    requires known.Some? && token.clientRecordId == known.value.1.id && request.RefreshRequest? && request.bearer == Some(bearer)
    ensures ShownRefresh(v, known, request) == Some(token) && RefreshJobOf(v, known, request, u).None?
  {
  }

  lemma {:induction false} UsedTokenRevokes(t: State, token: RefreshToken, bearer: Bearer, request: Request, issuer: Issuer,
                                            client: Client, u: Env)
    requires RefreshByPrefix(t.vault, bearer.prefix) == Some(token) && token.usedAt.Some? && token.digest == bearer.digest
    requires token.clientRecordId == client.id && request.RefreshRequest? && request.bearer == Some(bearer) && u.commits
    ensures var q := Solo(t, ClientKnown(request, issuer, client), u, 7);
      q.call.Failed? && q.state == t.(vault := RevokeFamilyVault(t.vault, token.familyId, u.now))
  {
    KnownRefreshEnds(t, issuer, client, request, u);
    UsedIsShown(t.vault, token, bearer, Some((issuer, client)), request, u);
    FamilyRevocationState(t, token.familyId, u.now, t.vault.refreshKeys[bearer.prefix]);
  }

  /** A refresh token presented again after its rotation is refused, and with that its family,
      the successor included, and every access token of its grant are revoked. */
  lemma ReuseRevokesFamily(s: State, job: Job, env: Env, bearer: Bearer, request: Request, issuer: Issuer, client: Client, u: Env)
    requires Refreshes(s, job, env) && env.refreshId != job.previous.id && u.commits
    requires bearer.prefix in s.vault.refreshKeys && s.vault.refreshKeys[bearer.prefix] == job.previous.id
    requires s.vault.refresh[job.previous.id].digest == bearer.digest && s.vault.refresh[job.previous.id].clientRecordId == client.id
    requires request.RefreshRequest? && request.bearer == Some(bearer)
    ensures var t := Solo(s, Presented(job), env, 5).state;
      var q := Solo(t, ClientKnown(request, issuer, client), u, 7);
      q.call.Failed? && RevokesFamily(t.vault, q.state.vault, s.vault.refresh[job.previous.id].familyId, u.now)
  {
    var t, stored := Solo(s, Presented(job), env, 5).state, s.vault.refresh[job.previous.id];
    RetiredIsFound(s, job, env, bearer.prefix);
    UsedTokenRevokes(t, stored.(usedAt := Some(env.now), replacedById := env.refreshId), bearer, request, issuer, client, u);
    RevokedFamilyRecords(t.vault, stored.familyId, u.now);
  }

  lemma SpentIsFound(s: State, job: Job, env: Env, prefix: string)
    requires Exchanges(s, job, env) && prefix in s.vault.codeKeys && s.vault.codeKeys[prefix] == job.code.id
    ensures var t := Solo(s, Presented(job), env, 5).state;
      CodeByPrefix(t.vault, prefix) == Some(s.vault.codes[job.code.id].(usedAt := Some(env.now)))
  {
    ExchangeSolo(s, job, env);
  }

  lemma UsedIsReplayed(v: Vault, code: Code, bearer: Bearer, known: Option<(Issuer, Client)>, request: Request, u: Env)
    requires CodeByPrefix(v, bearer.prefix) == Some(code) && code.usedAt.Some? && code.digest == bearer.digest
    requires known.Some? && code.clientRecordId == known.value.1.id && request.ExchangeRequest? && request.bearer == Some(bearer)
    ensures ReplayedCode(v, known, request) == Some(code) && ExchangeJobOf(v, known, request, u).None?
  {
  }

  lemma {:induction false} UsedCodeRevokes(t: State, code: Code, bearer: Bearer, request: Request, issuer: Issuer, client: Client,
                                           u: Env)
    requires CodeByPrefix(t.vault, bearer.prefix) == Some(code) && code.usedAt.Some? && code.digest == bearer.digest
    requires code.clientRecordId == client.id && request.ExchangeRequest? && request.bearer == Some(bearer) && u.commits
    requires code.grantId in t.vault.grants && t.vault.grants[code.grantId].revokedAt.None?
    ensures var q := Solo(t, ClientKnown(request, issuer, client), u, 6);
      q.call.Failed? && q.state == t.(vault := RevokeGrants(t.vault, {code.grantId}, u.now))
  {
    KnownExchangeEnds(t, issuer, client, request, u);
    UsedIsReplayed(t.vault, code, bearer, Some((issuer, client)), request, u);
  }

  lemma ExchangeKeepsGrants(s: State, job: Job, env: Env)
    requires Exchanges(s, job, env)
    ensures Solo(s, Presented(job), env, 5).state.vault.grants == s.vault.grants
    ensures job.code.grantId in s.vault.grants && s.vault.grants[job.code.grantId].revokedAt.None?
  {
    ExchangeSolo(s, job, env);
  }

  /** A code presented again after its exchange is refused, and with that its grant and every
      token issued for it are revoked. */
  lemma ReplayRevokesGrant(s: State, job: Job, env: Env, bearer: Bearer, request: Request, issuer: Issuer, client: Client, u: Env)
    requires Exchanges(s, job, env) && s.vault.codes[job.code.id] == job.code && u.commits
    requires bearer.prefix in s.vault.codeKeys && s.vault.codeKeys[bearer.prefix] == job.code.id
    requires job.code.digest == bearer.digest && job.code.clientRecordId == client.id
    requires request.ExchangeRequest? && request.bearer == Some(bearer)
    ensures var t := Solo(s, Presented(job), env, 5).state;
      var q := Solo(t, ClientKnown(request, issuer, client), u, 6);
      q.call.Failed? && RevokesGrants(t.vault, q.state.vault, {job.code.grantId}, u.now)
  {
    var t := Solo(s, Presented(job), env, 5).state;
    SpentIsFound(s, job, env, bearer.prefix);
    ExchangeKeepsGrants(s, job, env);
    UsedCodeRevokes(t, job.code.(usedAt := Some(env.now)), bearer, request, issuer, client, u);
    RevokedGrantRecords(t.vault, {job.code.grantId}, u.now);
  }

  // ----- a consented code put to use -----

  /** The exchange a consent is meant for. */
  function ExchangeFor(x: Consent, url: string, audience: Audience): Request {
    ExchangeRequest(url, x.client.clientId, Some(x.code), x.redirectUri, x.challenge, audience)
  }

  /** What was consented to is still in place: the client as it was then, and the resource and
      the issuer. */
  predicate InPlace(c: Config, x: Consent, client: Client, audience: Audience) {
    && client.id == x.client.id && client.metadataHash == x.client.metadataHash && client.disabledAt.None?
    && x.resource.id in c.resources
    && var resource := c.resources[x.resource.id];
    && resource.disabledAt.None? && resource.workspaceId == x.resource.workspaceId
    && (audience == AnyResource || audience == Named(resource.uri))
    && x.issuer.id in c.issuers && c.issuers[x.issuer.id].disabledAt.None? && c.issuers[x.issuer.id].id == resource.issuerId
  }

  lemma ConsentedRecords(s: State, x: Consent)
    requires CreateGrantAndCode(s, x.Grant(), x.Code(), true).reply.Ok?
    ensures var t := CreateGrantAndCode(s, x.Grant(), x.Code(), true).state;
      && t.config == s.config && t.vault.access == s.vault.access && t.vault.refresh == s.vault.refresh
      && t.vault.accessKeys == s.vault.accessKeys && t.vault.refreshKeys == s.vault.refreshKeys
      && x.grantId in t.vault.grants && t.vault.grants[x.grantId] == x.Grant()
      && x.codeId in t.vault.codes && t.vault.codes[x.codeId] == x.Code()
      && CodeByPrefix(t.vault, x.code.prefix) == Some(x.Code())
  {
  }

  lemma ConsentedUse(t: State, x: Consent, client: Client, audience: Audience)
    requires x.grantId in t.vault.grants && t.vault.grants[x.grantId] == x.Grant()
    ensures Usable(t, client, x.grantId, audience) <==> InPlace(t.config, x, client, audience)
  {
  }

  /** A code is exchanged until its lifetime is over, by the client it was given to, exactly
      while what was consented to is in place; and the access token is for that user, that
      resource and those scopes. */
  lemma ConsentedCodeLives(s: State, x: Consent, issuer: Issuer, client: Client, url: string, audience: Audience, u: Env)
    requires CreateGrantAndCode(s, x.Grant(), x.Code(), true).reply.Ok? && Filed(s)
    ensures var t := CreateGrantAndCode(s, x.Grant(), x.Code(), true).state;
      var q := Solo(t, ClientKnown(ExchangeFor(x, url, audience), issuer, client), u, 6);
      && (q.call.Issued? <==>
            && u.now < x.now + x.issuer.codeTtl && InPlace(s.config, x, client, audience) && u.permitted && u.commits
            && u.accessBearer.prefix !in s.vault.accessKeys
            && (("offline_access" in x.scopes && "refresh_token" in client.grantTypes) ==>
                  u.refreshBearer.prefix !in s.vault.refreshKeys))
      && (q.call.Issued? ==>
            && q.call.access.userId == x.userId && q.call.access.workspaceId == x.resource.workspaceId
            && q.call.access.resourceId == x.resource.id && q.call.access.scopes == x.scopes
            && q.call.access.expiresAt == u.now + issuer.accessTtl
            && (q.call.refresh.Some? <==> "offline_access" in x.scopes && "refresh_token" in client.grantTypes))
  {
    var t := CreateGrantAndCode(s, x.Grant(), x.Code(), true).state;
    ConsentedRecords(s, x);
    ConsentedUse(t, x, client, audience);
    KnownExchangeEnds(t, issuer, client, ExchangeFor(x, url, audience), u);
  }

  // ----- the revocation endpoint -----

  /** How a revocation of an access token ends whose client is resolved. */
  predicate AccessRevocationEnds(s: State, known: Option<(Issuer, Client)>, request: Request, env: Env, p: Progress)
    requires request.RevokeAccessRequest?
  {
    var token := if known.None? then None else PresentedAccess(s.vault, known.value.1, request.bearer);
    if known.None? then p.call.Failed? && p.state == s
    else if token.None? then p.call == Revoked && p.state == s
    else if token.value.id in s.vault.access && env.commits then
      p.call == Revoked && RevokesAccess(s.vault, p.state.vault, token.value.id, env.now) && p.state.config == s.config
    else p.call.Failed? && p.state == s
  }

  lemma KnownAccessRevocation(s: State, issuer: Issuer, client: Client, request: Request, env: Env)
    requires request.RevokeAccessRequest?
    ensures AccessRevocationEnds(s, Some((issuer, client)), request, env, Solo(s, ClientKnown(request, issuer, client), env, 2))
  {
    TwoSteps(s, ClientKnown(request, issuer, client), env);
  }

  lemma AccessRevocationFromClient(s: State, known: Option<(Issuer, Client)>, request: Request, env: Env, n: nat)
    requires request.RevokeAccessRequest? && n >= 2
    ensures AccessRevocationEnds(s, known, request, env, Solo(s, ResolvedCall(request, known), env, n))
  {
    if known.Some? {
      KnownAccessRevocation(s, known.value.0, known.value.1, request, env);
      var p := Solo(s, ResolvedCall(request, known), env, 2);
      SoloSplits(s, ResolvedCall(request, known), env, 2, n - 2);
      ClosedStays(p.state, p.call, env, n - 2);
    } else {
      EndedStays(s, Failed(InvalidCredentials), env, n);
    }
  }

  /** From its start, an undisturbed revocation of an access token ends within five steps: it
      revokes exactly the presented token if that is the client's own, leaves everything as
      it was if it is not, and answers the same. */
  lemma AccessRevocationFromStart(s: State, request: Request, env: Env, n: nat)
    requires request.RevokeAccessRequest? && n >= 5
    ensures var r := Resolve(s, request.issuerUrl, request.clientId, env);
      r.state.vault == s.vault && AccessRevocationEnds(r.state, r.known, request, env, Solo(s, Begun(request), env, n))
  {
    var r := Resolve(s, request.issuerUrl, request.clientId, env);
    ResolvingKeepsVault(s, request.issuerUrl, request.clientId, env);
    var k := AfterResolving(s, request, env, n);
    AccessRevocationFromClient(r.state, r.known, request, env, n - k);
  }

  /** How a revocation of a refresh token ends: the whole family of the client's own token is
      revoked. */
  ghost predicate RefreshRevocationEnds(s: State, known: Option<(Issuer, Client)>, request: Request, env: Env, p: Progress)
    requires request.RevokeRefreshRequest?
  {
    var token := if known.None? then None else PresentedRefresh(s.vault, known.value.1, request.bearer);
    if known.None? then p.call.Failed? && p.state == s
    else if token.None? then p.call == Revoked && p.state == s
    else if env.commits then
      p.call == Revoked && RevokesFamily(s.vault, p.state.vault, token.value.familyId, env.now) && p.state.config == s.config
    else p.call.Failed? && p.state == s
  }

  lemma PresentRevocation(s: State, issuer: Issuer, client: Client, request: Request, env: Env)
    requires request.RevokeRefreshRequest?
    ensures var token := PresentedRefresh(s.vault, client, request.bearer);
      Advance(s, ClientKnown(request, issuer, client), env) ==
      Progress(s, if token.None? then Revoked else RevokingFamily(token.value.familyId, false))
  {
  }

  lemma RevokeFamilyEnds(s: State, f: Id, env: Env, t: Id)
    requires t in s.vault.refresh && s.vault.refresh[t].familyId == f
    ensures var p := Advance(s, RevokingFamily(f, false), env);
      if env.commits then p.call == Revoked && p.state == s.(vault := RevokeFamilyVault(s.vault, f, env.now))
      else p.call.Failed? && p.state == s
  {
    assert s.vault.refresh[t].grantId in FamilyGrants(s.vault, f);
  }

  lemma KnownRefreshRevocation(s: State, issuer: Issuer, client: Client, request: Request, env: Env)
    requires request.RevokeRefreshRequest?
    ensures RefreshRevocationEnds(s, Some((issuer, client)), request, env, Solo(s, ClientKnown(request, issuer, client), env, 2))
  {
    var token := PresentedRefresh(s.vault, client, request.bearer);
    PresentRevocation(s, issuer, client, request, env);
    AfterFirst(s, ClientKnown(request, issuer, client), env, 1);
    if token.None? {
      ClosedStays(s, Revoked, env, 1);
    } else {
      OneStep(s, RevokingFamily(token.value.familyId, false), env);
      RevokeFamilyEnds(s, token.value.familyId, env, s.vault.refreshKeys[request.bearer.value.prefix]);
      RevokedFamilyRecords(s.vault, token.value.familyId, env.now);
    }
  }

  lemma RefreshRevocationFromClient(s: State, known: Option<(Issuer, Client)>, request: Request, env: Env, n: nat)
    requires request.RevokeRefreshRequest? && n >= 2
    ensures RefreshRevocationEnds(s, known, request, env, Solo(s, ResolvedCall(request, known), env, n))
  {
    if known.Some? {
      KnownRefreshRevocation(s, known.value.0, known.value.1, request, env);
      var p := Solo(s, ResolvedCall(request, known), env, 2);
      SoloSplits(s, ResolvedCall(request, known), env, 2, n - 2);
      ClosedStays(p.state, p.call, env, n - 2);
    } else {
      EndedStays(s, Failed(InvalidCredentials), env, n);
    }
  }

  /** The same for a refresh token, whose whole family is revoked. */
  lemma RefreshRevocationFromStart(s: State, request: Request, env: Env, n: nat)
    requires request.RevokeRefreshRequest? && n >= 5
    ensures var r := Resolve(s, request.issuerUrl, request.clientId, env);
      r.state.vault == s.vault && RefreshRevocationEnds(r.state, r.known, request, env, Solo(s, Begun(request), env, n))
  {
    var r := Resolve(s, request.issuerUrl, request.clientId, env);
    ResolvingKeepsVault(s, request.issuerUrl, request.clientId, env);
    var k := AfterResolving(s, request, env, n);
    RefreshRevocationFromClient(r.state, r.known, request, env, n - k);
  }

  // ----- credentials that change -----

  /** Rotating a client's keys replaces exactly what is given, and a new key set ends the use
      of every grant that was given for the old one. */
  lemma RotationEndsUse(sys: System, id: Id, secret: Option<Digest>, keys: Option<(string, Digest)>, at: Time, g: Id,
                        audience: Audience)
    requires id in sys.store.config.clients
    ensures var c, next := sys.store.config, Apply(sys, AdminEvent(RotateClientOp(id, secret, keys, at), true));
      var old', new' := c.clients[id], next.store.config.clients[id];
      && next.store == sys.store.(config := c.(clients := c.clients[id := new']))
      && new' == old'.(secretDigest := if secret.Some? then secret.value else old'.secretDigest,
                       jwks := if keys.Some? then keys.value.0 else old'.jwks,
                       metadataHash := if keys.Some? then keys.value.1 else old'.metadataHash, updatedAt := at)
      && (keys.Some? && g in sys.store.vault.grants && sys.store.vault.grants[g].metadataHash != keys.value.1 ==>
            !Usable(next.store, new', g, audience))
  {
  }

  /** A refetched client is what its document says, enabled and under the identity it is asked
      for; and a document that changed ends the use of every grant given for another. */
  lemma RefetchEndsUse(s: State, t: State, url: string, clientId: string, env: Env, g: Id, audience: Audience)
    requires Refetch(s, url, clientId, env).Some?
    ensures var (issuer, client) := Refetch(s, url, clientId, env).value;
      && env.document.Some? && client.issuerId == issuer.id && client.clientId == clientId && client.disabledAt.None?
      && client == env.document.value.(id := client.id, issuerId := issuer.id, clientId := clientId, source := Cimd, disabledAt := None)
      && (g in t.vault.grants && t.vault.grants[g].metadataHash != env.document.value.metadataHash ==>
            !Usable(t, client, g, audience))
  {
  }

  lemma {:induction false} ClosedStays(s: State, call: Call, env: Env, n: nat)
    requires call.Revoked? || call.Failed?
    ensures Solo(s, call, env, n) == Progress(s, call)
  {
    if n > 0 {
      ClosedStays(s, call, env, n - 1);
    }
  }
}
