/** What a call does when nothing interferes: it succeeds exactly when everything it
    presents is good, and then leaves exactly the records it should. */
module OAuthSolo {
  import opened Common
  import opened Uuid
  import opened OAuthRecords
  import opened OAuthSpec
  import opened OAuthProtocol

  /** `n` steps of one call with no other event in between. */
  function Solo(s: State, call: Call, env: Env, n: nat): Progress
    decreases n
  {
    if n == 0 then Progress(s, call)
    else
      var p := Advance(s, call, env);
      Solo(p.state, p.call, env, n - 1)
  }

  /** A grant may be used by a client at an audience: the client is enabled, the grant is its
      own and unrevoked, given for its present metadata, and the resource and the issuer are
      enabled. */
  predicate Usable(s: State, client: Client, grantId: Id, audience: Audience) {
    && client.disabledAt.None?
    && grantId in s.vault.grants
    && var grant := s.vault.grants[grantId];
    && grant.revokedAt.None? && grant.clientRecordId == client.id && grant.metadataHash == client.metadataHash
    && grant.resourceId in s.config.resources
    && var resource := s.config.resources[grant.resourceId];
    && resource.disabledAt.None? && resource.workspaceId == grant.workspaceId
    && (audience == AnyResource || audience == Named(resource.uri))
    && grant.issuerId in s.config.issuers
    && s.config.issuers[grant.issuerId].disabledAt.None?
    && s.config.issuers[grant.issuerId].id == resource.issuerId
  }

  /** The grant behind a job may be used by its client at its audience. */
  predicate Active(s: State, job: Job) {
    Usable(s, job.client, job.GrantId(), job.audience)
  }

  function ActiveGrant(s: State, job: Job): Grant
    requires Active(s, job)
  {
    s.vault.grants[job.GrantId()]
  }

  function ActiveResource(s: State, job: Job): Resource
    requires Active(s, job)
  {
    s.config.resources[ActiveGrant(s, job).resourceId]
  }

  /** Three reads validate a grant, and leave the store alone. */
  lemma ValidationSolo(s: State, job: Job, env: Env)
    ensures Solo(s, Presented(job), env, 3) ==
      Progress(s, if Active(s, job) then IssuerChecked(job, ActiveGrant(s, job), ActiveResource(s, job))
                  else Failed(InvalidCredentials))
  {
    var p1 := Advance(s, Presented(job), env);
    var p2 := Advance(p1.state, p1.call, env);
    var p3 := Advance(p2.state, p2.call, env);
    assert Solo(s, Presented(job), env, 3) == Solo(p1.state, p1.call, env, 2);
    assert Solo(p1.state, p1.call, env, 2) == Solo(p2.state, p2.call, env, 1);
    assert Solo(p2.state, p2.call, env, 1) == Solo(p3.state, p3.call, env, 0);
  }

  lemma SoloUnrolls(s: State, call: Call, env: Env, n: nat)
    requires n > 0
    ensures var p := Advance(s, call, env); Solo(s, call, env, n) == Solo(p.state, p.call, env, n - 1)
  {
  }

  /** Iterating any step, of which Solo is an instance. */
  function Iterate<P>(step: P -> P, p: P, n: nat): P
    decreases n
  {
    if n == 0 then p else Iterate(step, step(p), n - 1)
  }

  lemma {:induction false} IterateSplits<P>(step: P -> P, p: P, m: nat, n: nat)
    ensures Iterate(step, p, m + n) == Iterate(step, Iterate(step, p, m), n)
    decreases m
  {
    if m == 0 {
    } else {
      IterateSplits(step, step(p), m - 1, n);
    }
  }

  function Stepping(env: Env): Progress -> Progress {
    (p: Progress) => Advance(p.state, p.call, env)
  }

  lemma {:induction false} SoloIterates(s: State, call: Call, env: Env, n: nat)
    ensures Solo(s, call, env, n) == Iterate(Stepping(env), Progress(s, call), n)
    decreases n
  {
    if n == 0 {
    } else {
      var p := Advance(s, call, env);
      SoloUnrolls(s, call, env, n);
      SoloIterates(p.state, p.call, env, n - 1);
      assert Stepping(env)(Progress(s, call)) == p;
    }
  }

  lemma SoloSplits(s: State, call: Call, env: Env, m: nat, n: nat)
    ensures var p := Solo(s, call, env, m); Solo(s, call, env, m + n) == Solo(p.state, p.call, env, n)
  {
    var p := Solo(s, call, env, m);
    SoloIterates(s, call, env, m);
    SoloIterates(s, call, env, m + n);
    SoloIterates(p.state, p.call, env, n);
    IterateSplits(Stepping(env), Progress(s, call), m, n);
  }

  predicate Ended(call: Call) {
    call.Issued? || call.Failed?
  }

  lemma {:induction false} EndedStays(s: State, call: Call, env: Env, n: nat)
    requires Ended(call)
    ensures Solo(s, call, env, n) == Progress(s, call)
  {
    if n > 0 {
      EndedStays(s, call, env, n - 1);
    }
  }

  /** A call that has ended after `m` steps has ended the same way after `n`. */
  lemma EndsBy(s: State, call: Call, env: Env, m: nat, n: nat)
    requires m <= n && Ended(Solo(s, call, env, m).call)
    ensures Solo(s, call, env, n) == Solo(s, call, env, m)
  {
    var p := Solo(s, call, env, m);
    SoloSplits(s, call, env, m, n - m);
    EndedStays(p.state, p.call, env, n - m);
  }

  /** A refresh token comes with an exchange exactly for an offline grant of a client
      registered for refreshing. */
  predicate Offline(grant: Grant, client: Client) {
    "offline_access" in grant.scopes && "refresh_token" in client.grantTypes
  }

  /** What the store and the request must offer once the grant is validated. */
  predicate ExchangeReady(s: State, job: Job, grant: Grant, resource: Resource, env: Env)
    requires job.Exchange?
  {
    && env.permitted && env.commits
    && resource.id == job.code.resourceId && grant.scopes == job.code.scopes
    && job.code.id in s.vault.codes
    && s.vault.codes[job.code.id].usedAt.None? && env.now < s.vault.codes[job.code.id].expiresAt
    && env.accessBearer.prefix !in s.vault.accessKeys
    && (Offline(grant, job.client) ==> env.refreshBearer.prefix !in s.vault.refreshKeys)
  }

  /** The code is spent, the access token carries the grant's scopes, and a refresh token
      starts a new family if the grant is offline. */
  predicate Exchanged(s: State, job: Job, grant: Grant, env: Env, p: Progress)
    requires job.Exchange? && job.code.id in s.vault.codes
  {
    var access := NewAccessToken(grant, grant.scopes, job.issuer.accessTtl, env);
    var refresh := if Offline(grant, job.client)
                   then Some(NewRefreshToken(grant, grant.scopes, env.familyId, job.issuer.refreshTtl, env)) else None;
    && p.call == Issued(access, refresh)
    && p.state.vault.codes == s.vault.codes[job.code.id := s.vault.codes[job.code.id].(usedAt := Some(env.now))]
    && p.state.vault.access == s.vault.access[env.accessId := access]
    && p.state.vault.refresh ==
         (if refresh.Some? then s.vault.refresh[env.refreshId := refresh.value] else s.vault.refresh)
    && p.state.vault.accessKeys == s.vault.accessKeys[env.accessBearer.prefix := env.accessId]
    && p.state.vault.refreshKeys ==
         (if refresh.Some? then s.vault.refreshKeys[env.refreshBearer.prefix := env.refreshId] else s.vault.refreshKeys)
    && p.state.vault.codeKeys == s.vault.codeKeys
    && p.state.vault.grants == s.vault.grants && p.state.config == s.config
  }

  lemma ExchangeTail(s: State, job: Job, grant: Grant, resource: Resource, env: Env)
    requires job.Exchange?
    ensures var p := Solo(s, IssuerChecked(job, grant, resource), env, 2);
      if ExchangeReady(s, job, grant, resource, env) then Exchanged(s, job, grant, env, p)
      else p.call.Failed? && p.state == s
  {
    TwoSteps(s, IssuerChecked(job, grant, resource), env);
  }

  /** An undisturbed exchange issues tokens exactly when its grant is active and the rest
      is ready; otherwise it fails and the store is untouched. */
  lemma ExchangeSolo(s: State, job: Job, env: Env)
    requires job.Exchange?
    ensures var p := Solo(s, Presented(job), env, 5);
      if Active(s, job) && ExchangeReady(s, job, ActiveGrant(s, job), ActiveResource(s, job), env) then
        Exchanged(s, job, ActiveGrant(s, job), env, p)
      else p.call.Failed? && p.state == s
  {
    ValidationSolo(s, job, env);
    SoloSplits(s, Presented(job), env, 3, 2);
    if Active(s, job) {
      ExchangeTail(s, job, ActiveGrant(s, job), ActiveResource(s, job), env);
    } else {
      EndedStays(s, Failed(InvalidCredentials), env, 2);
    }
  }

  lemma TwoSteps(s: State, call: Call, env: Env)
    ensures var p := Advance(s, call, env);
      Solo(s, call, env, 2) == Advance(p.state, p.call, env)
  {
    var p := Advance(s, call, env);
    assert Solo(s, call, env, 2) == Solo(p.state, p.call, env, 1);
    var q := Advance(p.state, p.call, env);
    assert Solo(p.state, p.call, env, 1) == Solo(q.state, q.call, env, 0);
  }

  predicate NarrowingAllowed(narrowing: Narrowing, available: Scopes) {
    narrowing.KeepScopes? || (narrowing.Narrow? && Within(narrowing.scopes, available))
  }

  predicate RefreshReady(s: State, job: Job, grant: Grant, resource: Resource, env: Env)
    requires job.Refresh?
  {
    && env.permitted && env.commits
    && resource.id == job.previous.resourceId && NarrowingAllowed(job.narrowing, job.previous.scopes)
    && job.previous.id in s.vault.refresh
    && var stored := s.vault.refresh[job.previous.id];
    && stored.usedAt.None? && stored.revokedAt.None? && env.now < stored.expiresAt
    && stored.familyId == job.previous.familyId && stored.grantId == grant.id
    && env.accessBearer.prefix !in s.vault.accessKeys && env.refreshBearer.prefix !in s.vault.refreshKeys
  }

  /** The presented token is retired in favour of its successor in the same family, and
      both new tokens carry the requested scopes. */
  predicate Rotated(s: State, job: Job, grant: Grant, env: Env, p: Progress)
    requires job.Refresh? && job.previous.id in s.vault.refresh
  {
    var scopes := if job.narrowing.Narrow? then job.narrowing.scopes else job.previous.scopes;
    var access := NewAccessToken(grant, scopes, job.issuer.accessTtl, env);
    var refresh := NewRefreshToken(grant, scopes, job.previous.familyId, job.issuer.refreshTtl, env);
    var retired := s.vault.refresh[job.previous.id].(usedAt := Some(env.now), replacedById := env.refreshId);
    && p.call == Issued(access, Some(refresh))
    && p.state.vault.refresh == s.vault.refresh[job.previous.id := retired][env.refreshId := refresh]
    && p.state.vault.access == s.vault.access[env.accessId := access]
    && p.state.vault.accessKeys == s.vault.accessKeys[env.accessBearer.prefix := env.accessId]
    && p.state.vault.refreshKeys == s.vault.refreshKeys[env.refreshBearer.prefix := env.refreshId]
    && p.state.vault.codes == s.vault.codes && p.state.vault.codeKeys == s.vault.codeKeys
    && p.state.vault.grants == s.vault.grants && p.state.config == s.config
  }

  /** The refresh gets to its commit, and the store answers that with a conflict: the stored
      token is not the one presented any more or a new bearer's prefix is taken, or the
      commit itself fails as one. */
  predicate Contested(s: State, job: Job, grant: Grant, resource: Resource, env: Env)
    requires job.Refresh?
  {
    && env.permitted
    && resource.id == job.previous.resourceId && NarrowingAllowed(job.narrowing, job.previous.scopes)
    && job.previous.id in s.vault.refresh
    && (RefreshReady(s, job, grant, resource, env.(commits := true)) ==> !env.commits && env.conflicts)
  }

  lemma RefreshTail(s: State, job: Job, grant: Grant, resource: Resource, env: Env)
    requires job.Refresh?
    ensures var p := Solo(s, IssuerChecked(job, grant, resource), env, 2);
      if RefreshReady(s, job, grant, resource, env) then Rotated(s, job, grant, env, p)
      else
        && p.state == s
        && (if Contested(s, job, grant, resource, env) then p.call == RevokingFamily(job.previous.familyId, true)
            else p.call.Failed?)
  {
    TwoSteps(s, IssuerChecked(job, grant, resource), env);
  }

  /** An undisturbed refresh issues a new pair exactly when its grant is active and the
      rest is ready; otherwise it has changed nothing so far, and goes on to revoke the
      family exactly when its commit met a conflict. */
  lemma RefreshSolo(s: State, job: Job, env: Env)
    requires job.Refresh?
    ensures var p := Solo(s, Presented(job), env, 5);
      if Active(s, job) && RefreshReady(s, job, ActiveGrant(s, job), ActiveResource(s, job), env) then
        Rotated(s, job, ActiveGrant(s, job), env, p)
      else
        && p.state == s
        && (if Active(s, job) && Contested(s, job, ActiveGrant(s, job), ActiveResource(s, job), env)
            then p.call == RevokingFamily(job.previous.familyId, true) else p.call.Failed?)
  {
    ValidationSolo(s, job, env);
    SoloSplits(s, Presented(job), env, 3, 2);
    if Active(s, job) {
      RefreshTail(s, job, ActiveGrant(s, job), ActiveResource(s, job), env);
    } else {
      EndedStays(s, Failed(InvalidCredentials), env, 2);
    }
  }

  /** The last checks of a bearer check on a validated grant. */
  predicate TokenFits(token: AccessToken, grant: Grant, resource: Resource) {
    && token.resourceId == resource.id && token.userId == grant.userId
    && token.workspaceId == grant.workspaceId && Within(token.scopes, grant.scopes)
  }

  /** A bearer check accepts exactly a live token of an active grant, presented for the
      resource, and issued to the user and the workspace, that the grant names. */
  predicate Accepted(s: State, bearer: Bearer, audience: Audience, env: Env) {
    var token := AccessByPrefix(s.vault, bearer.prefix);
    && token.Some? && token.value.revokedAt.None? && env.now < token.value.expiresAt
    && token.value.digest == bearer.digest && token.value.clientRecordId in s.config.clients
    && var job := Authenticate(s.config.clients[token.value.clientRecordId], audience, token.value);
    && Active(s, job) && env.permitted
    && TokenFits(token.value, ActiveGrant(s, job), ActiveResource(s, job))
  }

  lemma AuthenticateSolo(s: State, bearer: Bearer, audience: Audience, env: Env)
    ensures var p := Solo(s, Begun(AuthenticateRequest(Some(bearer), audience)), env, 6);
      && p.state == s
      && (p.call.Authenticated? <==> Accepted(s, bearer, audience, env))
      && (p.call.Authenticated? ==> Some(p.call.token) == AccessByPrefix(s.vault, bearer.prefix))
  {
    var start := Begun(AuthenticateRequest(Some(bearer), audience));
    var token := AccessByPrefix(s.vault, bearer.prefix);
    TwoSteps(s, start, env);
    SoloSplits(s, start, env, 2, 4);
    var p := Solo(s, start, env, 2);
    assert p.state == s;
    if p.call.Presented? {
      assert p.call.job == Authenticate(s.config.clients[token.value.clientRecordId], audience, token.value);
      AuthenticateTail(s, p.call.job, env);
    } else {
      EndedStays(s, p.call, env, 4);
    }
  }

  lemma AuthenticateTail(s: State, job: Job, env: Env)
    requires job.Authenticate?
    ensures var p := Solo(s, Presented(job), env, 4);
      && p.state == s
      && (p.call.Authenticated? <==>
            Active(s, job) && env.permitted && TokenFits(job.token, ActiveGrant(s, job), ActiveResource(s, job)))
      && (p.call.Authenticated? ==> p.call.token == job.token)
  {
    ValidationSolo(s, job, env);
    SoloSplits(s, Presented(job), env, 3, 1);
    var q := Solo(s, Presented(job), env, 3);
    OneStep(q.state, q.call, env);
  }

  lemma OneStep(s: State, call: Call, env: Env)
    ensures Solo(s, call, env, 1) == Advance(s, call, env)
  {
    var p := Advance(s, call, env);
    assert Solo(s, call, env, 1) == Solo(p.state, p.call, env, 0);
  }

  // ----- from the start of the call -----

  /** The client a request names, when its issuer and the client are enabled, the record is
      not stale and the client proves itself. */
  function KnownClient(s: State, url: string, clientId: string, env: Env): Option<(Issuer, Client)> {
    var issuer := IssuerByUrl(s.config, url);
    if issuer.None? || issuer.value.disabledAt.Some? then None
    else
      var client := ClientByClientId(s.config, issuer.value.id, clientId);
      if client.None? || (client.value.source.Cimd? && env.stale) || client.value.disabledAt.Some? || !env.proven then None
      else Some((issuer.value, client.value))
  }

  /** The record a request refetches: its issuer is enabled, and the client is unknown or its
      record stale, and a document is at hand. */
  function Refetch(s: State, url: string, clientId: string, env: Env): Option<(Issuer, Client)> {
    var issuer := IssuerByUrl(s.config, url);
    if issuer.None? || issuer.value.disabledAt.Some? || env.document.None? then None
    else
      var found := ClientByClientId(s.config, issuer.value.id, clientId);
      if found.Some? && !(found.value.source.Cimd? && env.stale) then None
      else Some((issuer.value, Refetched(found, issuer.value, clientId, env)))
  }

  /** The store once the client is resolved, and the client if it is resolved and proven: the
      stored one, or the refetched one if the store takes it. */
  datatype Resolution = Resolution(state: State, known: Option<(Issuer, Client)>)

  function Resolve(s: State, url: string, clientId: string, env: Env): Resolution {
    var refetch := Refetch(s, url, clientId, env);
    if refetch.None? then Resolution(s, KnownClient(s, url, clientId, env))
    else
      var stored := UpsertCimdClient(s, refetch.value.1, env.commits);
      Resolution(stored.state, if stored.reply.Ok? && env.proven then refetch else None)
  }

  /** Resolving a client changes no grant, code or token. */
  lemma ResolvingKeepsVault(s: State, url: string, clientId: string, env: Env)
    ensures Resolve(s, url, clientId, env).state.vault == s.vault
  {
  }

  /** What an exchange presents, if its client is known and the code is that client's, is
      unused and unexpired, and was issued for this redirect and this verifier. */
  function ExchangeJobOf(v: Vault, known: Option<(Issuer, Client)>, request: Request, env: Env): Option<Job>
    requires request.ExchangeRequest?
  {
    if known.None? || request.bearer.None? then None
    else
      var (issuer, client) := known.value;
      var code := CodeByPrefix(v, request.bearer.value.prefix);
      if code.None? || code.value.clientRecordId != client.id || code.value.digest != request.bearer.value.digest ||
         code.value.usedAt.Some? || code.value.redirectUri != request.redirectUri ||
         env.now >= code.value.expiresAt || code.value.challenge != request.challenge then None
      else Some(Exchange(issuer, client, request.audience, code.value))
  }

  function ExchangeJob(s: State, request: Request, env: Env): Option<Job>
    requires request.ExchangeRequest?
  {
    ExchangeJobOf(s.vault, KnownClient(s, request.issuerUrl, request.clientId, env), request, env)
  }

  function RefreshJobOf(v: Vault, known: Option<(Issuer, Client)>, request: Request, env: Env): Option<Job>
    requires request.RefreshRequest?
  {
    if known.None? || request.bearer.None? then None
    else
      var (issuer, client) := known.value;
      var token := RefreshByPrefix(v, request.bearer.value.prefix);
      if token.None? || token.value.clientRecordId != client.id || token.value.digest != request.bearer.value.digest ||
         token.value.usedAt.Some? || token.value.revokedAt.Some? || env.now >= token.value.expiresAt then None
      else Some(Refresh(issuer, client, request.audience, token.value, request.narrowing))
  }

  lemma ClientResolves(s: State, request: Request, env: Env)
    requires !request.AuthenticateRequest?
    ensures var p := Solo(s, Begun(request), env, 2);
      var known := KnownClient(s, request.issuerUrl, request.clientId, env);
      var refetch := Refetch(s, request.issuerUrl, request.clientId, env);
      && p.state == s
      && (if refetch.Some? then p.call == Refetching(request, refetch.value.0, refetch.value.1)
          else if known.Some? then p.call == ClientKnown(request, known.value.0, known.value.1)
          else p.call == Failed(InvalidCredentials))
  {
    TwoSteps(s, Begun(request), env);
  }

  lemma ThirdStep(s: State, request: Request, env: Env)
    ensures var p := Solo(s, Begun(request), env, 2);
      Solo(s, Begun(request), env, 3) == Advance(p.state, p.call, env)
  {
    var p := Solo(s, Begun(request), env, 2);
    SoloSplits(s, Begun(request), env, 2, 1);
    OneStep(p.state, p.call, env);
  }

  /** How a resolution leaves the call. */
  function ResolvedCall(request: Request, known: Option<(Issuer, Client)>): Call {
    if known.Some? then ClientKnown(request, known.value.0, known.value.1) else Failed(InvalidCredentials)
  }

  /** Two steps resolve the client, and a third stores a refetched one. */
  lemma ResolvesIn(s: State, request: Request, env: Env) returns (steps: nat)
    requires !request.AuthenticateRequest?
    ensures steps <= 3
    ensures var r := Resolve(s, request.issuerUrl, request.clientId, env);
      Solo(s, Begun(request), env, steps) == Progress(r.state, ResolvedCall(request, r.known))
  {
    ClientResolves(s, request, env);
    if Refetch(s, request.issuerUrl, request.clientId, env).Some? {
      ThirdStep(s, request, env);
      steps := 3;
    } else {
      steps := 2;
    }
  }

  lemma AfterResolving(s: State, request: Request, env: Env, n: nat) returns (k: nat)
    requires !request.AuthenticateRequest? && n >= 3
    ensures k <= 3
    ensures var r := Resolve(s, request.issuerUrl, request.clientId, env);
      Solo(s, Begun(request), env, n) == Solo(r.state, ResolvedCall(request, r.known), env, n - k)
  {
    k := ResolvesIn(s, request, env);
    SoloSplits(s, Begun(request), env, k, n - k);
  }

  /** With the client's record at hand, the reads before the grant present exactly its job. */
  lemma ExchangePresents(s: State, request: Request, env: Env)
    requires request.ExchangeRequest? && ExchangeJob(s, request, env).Some?
    ensures Solo(s, Begun(request), env, 3) == Progress(s, Presented(ExchangeJob(s, request, env).value))
  {
    ClientResolves(s, request, env);
    ThirdStep(s, request, env);
  }

  // ----- an exchange to its end -----

  /** The code a failing exchange replays: authentic, and already used. */
  function ReplayedCode(v: Vault, known: Option<(Issuer, Client)>, request: Request): Option<Code>
    requires request.ExchangeRequest?
  {
    if known.None? then None
    else
      var code := PresentedCode(v, known.value.1, request.bearer);
      if code.Some? && code.value.usedAt.Some? then code else None
  }

  /** The store a failing exchange leaves: a replayed code costs its grant, and nothing else
      changes. */
  function FailedExchange(s: State, known: Option<(Issuer, Client)>, request: Request, env: Env): State
    requires request.ExchangeRequest?
  {
    var code := ReplayedCode(s.vault, known, request);
    if code.Some? && code.value.grantId in s.vault.grants && s.vault.grants[code.value.grantId].revokedAt.None? && env.commits
    then s.(vault := RevokeGrants(s.vault, {code.value.grantId}, env.now))
    else s
  }

  /** How an exchange ends whose client is resolved. */
  ghost predicate ExchangeEnds(s: State, known: Option<(Issuer, Client)>, request: Request, env: Env, p: Progress)
    requires request.ExchangeRequest?
  {
    var job := ExchangeJobOf(s.vault, known, request, env);
    if && job.Some? && Active(s, job.value)
       && ExchangeReady(s, job.value, ActiveGrant(s, job.value), ActiveResource(s, job.value), env)
    then Exchanged(s, job.value, ActiveGrant(s, job.value), env, p)
    else p.call.Failed? && p.state == FailedExchange(s, known, request, env)
  }

  lemma PresentExchange(s: State, issuer: Issuer, client: Client, request: Request, env: Env)
    requires request.ExchangeRequest?
    ensures var job := ExchangeJobOf(s.vault, Some((issuer, client)), request, env);
      var code := ReplayedCode(s.vault, Some((issuer, client)), request);
      Advance(s, ClientKnown(request, issuer, client), env) ==
      Progress(s, if job.Some? then Presented(job.value)
                  else if code.Some? then CodeReplayed(code.value.grantId) else Failed(InvalidCredentials))
    ensures ExchangeJobOf(s.vault, Some((issuer, client)), request, env).Some? ==>
      ReplayedCode(s.vault, Some((issuer, client)), request).None?
  {
  }

  lemma ReplayEnds(s: State, grantId: Id, env: Env)
    ensures Solo(s, CodeReplayed(grantId), env, 2) ==
      Progress(if grantId in s.vault.grants && s.vault.grants[grantId].revokedAt.None? && env.commits
               then s.(vault := RevokeGrants(s.vault, {grantId}, env.now)) else s, Failed(InvalidCredentials))
  {
    TwoSteps(s, CodeReplayed(grantId), env);
  }

  lemma AfterFirst(s: State, call: Call, env: Env, n: nat)
    ensures var p := Advance(s, call, env); Solo(s, call, env, n + 1) == Solo(p.state, p.call, env, n)
  {
  }

  lemma KnownExchangeEnds(s: State, issuer: Issuer, client: Client, request: Request, env: Env)
    requires request.ExchangeRequest?
    ensures ExchangeEnds(s, Some((issuer, client)), request, env, Solo(s, ClientKnown(request, issuer, client), env, 6))
  {
    var known := Some((issuer, client));
    var job, code := ExchangeJobOf(s.vault, known, request, env), ReplayedCode(s.vault, known, request);
    PresentExchange(s, issuer, client, request, env);
    AfterFirst(s, ClientKnown(request, issuer, client), env, 5);
    if job.Some? {
      ExchangeSolo(s, job.value, env);
    } else if code.Some? {
      ReplayEnds(s, code.value.grantId, env);
      EndsBy(s, CodeReplayed(code.value.grantId), env, 2, 5);
    } else {
      EndedStays(s, Failed(InvalidCredentials), env, 5);
    }
  }

  lemma ExchangeFromClient(s: State, known: Option<(Issuer, Client)>, request: Request, env: Env, n: nat)
    requires request.ExchangeRequest? && n >= 6
    ensures ExchangeEnds(s, known, request, env, Solo(s, ResolvedCall(request, known), env, n))
  {
    if known.Some? {
      KnownExchangeEnds(s, known.value.0, known.value.1, request, env);
      EndsBy(s, ResolvedCall(request, known), env, 6, n);
    } else {
      EndedStays(s, Failed(InvalidCredentials), env, n);
    }
  }

  /** From its start, an undisturbed exchange ends within nine steps. It issues tokens exactly
      when its client resolves, from the store or from a refetched document, and it presents
      a good code of an active grant and the rest is ready; otherwise it changes nothing
      more, except that a replayed code revokes its grant. */
  lemma ExchangeFromStart(s: State, request: Request, env: Env, n: nat)
    requires request.ExchangeRequest? && n >= 9
    ensures var r := Resolve(s, request.issuerUrl, request.clientId, env);
      r.state.vault == s.vault && ExchangeEnds(r.state, r.known, request, env, Solo(s, Begun(request), env, n))
  {
    ResolvingKeepsVault(s, request.issuerUrl, request.clientId, env);
    var r := Resolve(s, request.issuerUrl, request.clientId, env);
    var k := AfterResolving(s, request, env, n);
    ExchangeFromClient(r.state, r.known, request, env, n - k);
  }

  // ----- a refresh to its end -----

  /** The presented refresh token, if the client is known and the token is that client's. */
  function ShownRefresh(v: Vault, known: Option<(Issuer, Client)>, request: Request): Option<RefreshToken>
    requires request.RefreshRequest?
  {
    if known.None? then None else PresentedRefresh(v, known.value.1, request.bearer)
  }

  /** The token was used or revoked before, or its rotation meets a conflict. */
  predicate Reuse(s: State, known: Option<(Issuer, Client)>, request: Request, env: Env)
    requires request.RefreshRequest?
  {
    var token, job := ShownRefresh(s.vault, known, request), RefreshJobOf(s.vault, known, request, env);
    || (token.Some? && (token.value.usedAt.Some? || token.value.revokedAt.Some?))
    || (job.Some? && Active(s, job.value) &&
        Contested(s, job.value, ActiveGrant(s, job.value), ActiveResource(s, job.value), env))
  }

  /** The store a failing refresh leaves: reuse costs the family, and nothing else changes. */
  function FailedRefresh(s: State, known: Option<(Issuer, Client)>, request: Request, env: Env): State
    requires request.RefreshRequest?
  {
    var token := ShownRefresh(s.vault, known, request);
    if token.Some? && Reuse(s, known, request, env) then RevokeFamily(s, token.value.familyId, env.now, env.commits).state
    else s
  }

  ghost predicate RefreshEnds(s: State, known: Option<(Issuer, Client)>, request: Request, env: Env, p: Progress)
    requires request.RefreshRequest?
  {
    var job := RefreshJobOf(s.vault, known, request, env);
    if && job.Some? && Active(s, job.value)
       && RefreshReady(s, job.value, ActiveGrant(s, job.value), ActiveResource(s, job.value), env)
    then Rotated(s, job.value, ActiveGrant(s, job.value), env, p)
    else p.call.Failed? && p.state == FailedRefresh(s, known, request, env)
  }

  lemma PresentRefresh(s: State, issuer: Issuer, client: Client, request: Request, env: Env)
    requires request.RefreshRequest?
    ensures var known := Some((issuer, client));
      var job, token := RefreshJobOf(s.vault, known, request, env), ShownRefresh(s.vault, known, request);
      var p := Advance(s, ClientKnown(request, issuer, client), env);
      && p.state == s
      && (if job.Some? then p.call == Presented(job.value) && token == Some(job.value.previous)
          else if token.Some? && (token.value.usedAt.Some? || token.value.revokedAt.Some?)
          then p.call == RevokingFamily(token.value.familyId, true)
          else p.call.Failed?)
  {
  }

  lemma ReuseEnds(s: State, familyId: Id, env: Env)
    ensures Solo(s, RevokingFamily(familyId, true), env, 1) ==
      Progress(RevokeFamily(s, familyId, env.now, env.commits).state, Failed(InvalidCredentials))
  {
    OneStep(s, RevokingFamily(familyId, true), env);
  }

  /** From a presented token, in six steps. */
  lemma PresentedRefreshEnds(s: State, job: Job, env: Env)
    requires job.Refresh?
    ensures var p := Solo(s, Presented(job), env, 6);
      if Active(s, job) && RefreshReady(s, job, ActiveGrant(s, job), ActiveResource(s, job), env) then
        Rotated(s, job, ActiveGrant(s, job), env, p)
      else
        && p.call.Failed?
        && p.state == (if Active(s, job) && Contested(s, job, ActiveGrant(s, job), ActiveResource(s, job), env)
                       then RevokeFamily(s, job.previous.familyId, env.now, env.commits).state else s)
  {
    var p := Solo(s, Presented(job), env, 5);
    RefreshSolo(s, job, env);
    SoloSplits(s, Presented(job), env, 5, 1);
    if p.call.RevokingFamily? {
      ReuseEnds(s, job.previous.familyId, env);
    } else {
      EndedStays(p.state, p.call, env, 1);
    }
  }

  lemma KnownRefreshEnds(s: State, issuer: Issuer, client: Client, request: Request, env: Env)
    requires request.RefreshRequest?
    ensures RefreshEnds(s, Some((issuer, client)), request, env, Solo(s, ClientKnown(request, issuer, client), env, 7))
  {
    var known := Some((issuer, client));
    var job, token := RefreshJobOf(s.vault, known, request, env), ShownRefresh(s.vault, known, request);
    PresentRefresh(s, issuer, client, request, env);
    AfterFirst(s, ClientKnown(request, issuer, client), env, 6);
    if job.Some? {
      PresentedRefreshEnds(s, job.value, env);
    } else if token.Some? && (token.value.usedAt.Some? || token.value.revokedAt.Some?) {
      ReuseEnds(s, token.value.familyId, env);
      EndsBy(s, RevokingFamily(token.value.familyId, true), env, 1, 6);
    } else {
      EndedStays(s, Advance(s, ClientKnown(request, issuer, client), env).call, env, 6);
    }
  }

  lemma RefreshFromClient(s: State, known: Option<(Issuer, Client)>, request: Request, env: Env, n: nat)
    requires request.RefreshRequest? && n >= 7
    ensures RefreshEnds(s, known, request, env, Solo(s, ResolvedCall(request, known), env, n))
  {
    if known.Some? {
      KnownRefreshEnds(s, known.value.0, known.value.1, request, env);
      EndsBy(s, ResolvedCall(request, known), env, 7, n);
    } else {
      EndedStays(s, Failed(InvalidCredentials), env, n);
    }
  }

  /** From its start, an undisturbed refresh ends within ten steps. It issues a new pair
      exactly when its client resolves and it presents a good token of an active grant and
      the rest is ready; otherwise it changes nothing more, except that reuse revokes the
      family. */
  lemma RefreshFromStart(s: State, request: Request, env: Env, n: nat)
    requires request.RefreshRequest? && n >= 10
    ensures var r := Resolve(s, request.issuerUrl, request.clientId, env);
      r.state.vault == s.vault && RefreshEnds(r.state, r.known, request, env, Solo(s, Begun(request), env, n))
  {
    ResolvingKeepsVault(s, request.issuerUrl, request.clientId, env);
    var r := Resolve(s, request.issuerUrl, request.clientId, env);
    var k := AfterResolving(s, request, env, n);
    RefreshFromClient(r.state, r.known, request, env, n - k);
  }
}
