/** The race a revocation can lose: an exchange that has passed its last check commits
    after the grant was revoked, so the bound of one issue is reached. */
module OAuthRace {
  import opened Common
  import opened Uuid
  import opened OAuthRecords
  import opened OAuthSpec
  import opened OAuthProtocol
  import opened OAuthInvariant
  import opened OAuthPreservation
  import opened OAuthTheorems
  import opened OAuthSolo

  // ----- steps of one call as events -----

  function Steps(c: CallId, env: Env, n: nat): seq<Event> {
    if n == 0 then [] else [StepEvent(c, env)] + Steps(c, env, n - 1)
  }

  lemma {:induction false} RunSplits(sys: System, a: seq<Event>, b: seq<Event>)
    ensures Run(sys, a + b) == Run(Run(sys, a), b)
    decreases |a|
  {
    if a == [] {
      assert a + b == b;
    } else {
      assert (a + b)[1..] == a[1..] + b;
      RunSplits(Apply(sys, a[0]), a[1..], b);
    }
  }

  lemma ReadingStep(sys: System, c: CallId, env: Env)
    requires c in sys.calls && Reads(sys.calls[c]) && !Advance(sys.store, sys.calls[c], env).call.Refetching?
    ensures Apply(sys, StepEvent(c, env)) == sys.(calls := sys.calls[c := Advance(sys.store, sys.calls[c], env).call])
    ensures Advance(sys.store, sys.calls[c], env).state == sys.store
  {
  }

  /** The next `n` steps of a call only read. */
  predicate ReadsFor(s: State, call: Call, env: Env, n: nat)
    decreases n
  {
    n == 0 ||
    (Reads(call) && !Advance(s, call, env).call.Refetching? && ReadsFor(s, Advance(s, call, env).call, env, n - 1))
  }

  /** While a call only reads, its steps are the undisturbed ones. */
  lemma {:induction false} ReadingRun(sys: System, c: CallId, env: Env, n: nat)
    requires c in sys.calls && ReadsFor(sys.store, sys.calls[c], env, n)
    ensures Run(sys, Steps(c, env, n)) == sys.(calls := sys.calls[c := Solo(sys.store, sys.calls[c], env, n).call])
    ensures Solo(sys.store, sys.calls[c], env, n).state == sys.store
    decreases n
  {
    if n == 0 {
      assert sys.calls[c := sys.calls[c]] == sys.calls;
    } else {
      var next := Advance(sys.store, sys.calls[c], env).call;
      ReadingStep(sys, c, env);
      ReadingRun(sys.(calls := sys.calls[c := next]), c, env, n - 1);
      assert Steps(c, env, n)[1..] == Steps(c, env, n - 1);
      var last := Solo(sys.store, next, env, n - 1).call;
      assert sys.calls[c := next][c := last] == sys.calls[c := last];
    }
  }

  lemma OneMoreRead(s: State, call: Call, next: Call, env: Env, n: nat)
    requires Reads(call) && Advance(s, call, env).call == next && !next.Refetching? && ReadsFor(s, next, env, n)
    ensures ReadsFor(s, call, env, n + 1)
  {
  }

  // ----- an exchange up to its last check -----

  lemma ValidatingReads(s: State, job: Job, env: Env)
    requires Active(s, job)
    ensures ReadsFor(s, Presented(job), env, 3)
  {
    var c1 := GrantChecked(job, ActiveGrant(s, job));
    var c2 := ResourceChecked(job, ActiveGrant(s, job), ActiveResource(s, job));
    var c3 := IssuerChecked(job, ActiveGrant(s, job), ActiveResource(s, job));
    OneMoreRead(s, c2, c3, env, 0);
    OneMoreRead(s, c1, c2, env, 1);
    OneMoreRead(s, Presented(job), c1, env, 2);
  }

  lemma PresentingReads(s: State, request: Request, env: Env, n: nat)
    requires request.ExchangeRequest? && ExchangeJob(s, request, env).Some?
    requires ReadsFor(s, Presented(ExchangeJob(s, request, env).value), env, n)
    ensures ReadsFor(s, Begun(request), env, n + 3)
  {
    var job := ExchangeJob(s, request, env).value;
    var c1, c2 := IssuerKnown(request, job.issuer), ClientKnown(request, job.issuer, job.client);
    OneMoreRead(s, c2, Presented(job), env, n);
    OneMoreRead(s, c1, c2, env, n + 1);
    OneMoreRead(s, Begun(request), c1, env, n + 2);
  }

  lemma CheckedExchange(s: State, request: Request, env: Env)
    requires request.ExchangeRequest? && ExchangeJob(s, request, env).Some? && Active(s, ExchangeJob(s, request, env).value)
    ensures var job := ExchangeJob(s, request, env).value;
      && ReadsFor(s, Begun(request), env, 6)
      && Solo(s, Begun(request), env, 6) == Progress(s, IssuerChecked(job, ActiveGrant(s, job), ActiveResource(s, job)))
  {
    var job := ExchangeJob(s, request, env).value;
    ExchangePresents(s, request, env);
    ValidatingReads(s, job, env);
    PresentingReads(s, request, env, 3);
    ValidationSolo(s, job, env);
    SoloSplits(s, Begun(request), env, 3, 3);
  }

  /** The exchange as it stands before its commit. */
  function Draft(s: State, job: Job, env: Env): Call
    requires job.Exchange? && Active(s, job)
  {
    var grant := ActiveGrant(s, job);
    Minted(job, grant, NewAccessToken(grant, grant.scopes, job.issuer.accessTtl, env),
           if Offline(grant, job.client)
           then Some(NewRefreshToken(grant, grant.scopes, env.familyId, job.issuer.refreshTtl, env)) else None)
  }

  /** An exchange started now would succeed undisturbed. */
  predicate CanExchange(s: State, request: Request, env: Env) {
    && request.ExchangeRequest? && ExchangeJob(s, request, env).Some?
    && var job := ExchangeJob(s, request, env).value;
    && Active(s, job) && ExchangeReady(s, job, ActiveGrant(s, job), ActiveResource(s, job), env)
  }

  lemma StartAndRead(sys: System, c: CallId, request: Request, env: Env, n: nat, last: Call)
    requires c !in sys.calls && ReadsFor(sys.store, Begun(request), env, n)
    requires Solo(sys.store, Begun(request), env, n).call == last
    ensures Run(sys, [StartEvent(c, request)] + Steps(c, env, n)) == sys.(calls := sys.calls[c := last])
  {
    var begun := sys.(calls := sys.calls[c := Begun(request)]);
    RunOne(sys, StartEvent(c, request), Steps(c, env, n));
    ReadingRun(begun, c, env, n);
    assert begun.calls[c := last] == sys.calls[c := last];
  }

  lemma CheckedRun(sys: System, c: CallId, request: Request, env: Env)
    requires c !in sys.calls && CanExchange(sys.store, request, env)
    ensures var job := ExchangeJob(sys.store, request, env).value;
      Run(sys, [StartEvent(c, request)] + Steps(c, env, 6)) ==
      sys.(calls := sys.calls[c := IssuerChecked(job, ActiveGrant(sys.store, job), ActiveResource(sys.store, job))])
  {
    var job := ExchangeJob(sys.store, request, env).value;
    CheckedExchange(sys.store, request, env);
    StartAndRead(sys, c, request, env, 6, IssuerChecked(job, ActiveGrant(sys.store, job), ActiveResource(sys.store, job)));
  }

  lemma ConcludingDrafts(s: State, job: Job, env: Env)
    requires job.Exchange? && Active(s, job)
    requires ExchangeReady(s, job, ActiveGrant(s, job), ActiveResource(s, job), env)
    ensures Conclude(job, ActiveGrant(s, job), ActiveResource(s, job), env) == Draft(s, job, env)
  {
  }

  lemma DraftingStep(sys: System, c: CallId, job: Job, env: Env)
    requires c in sys.calls && FreshIds(sys.minted, env) && job.Exchange? && Active(sys.store, job)
    requires sys.calls[c] == IssuerChecked(job, ActiveGrant(sys.store, job), ActiveResource(sys.store, job))
    requires ExchangeReady(sys.store, job, ActiveGrant(sys.store, job), ActiveResource(sys.store, job), env)
    ensures var after := Apply(sys, StepEvent(c, env));
      after.store == sys.store && c in after.calls && after.calls[c] == Draft(sys.store, job, env)
  {
    MintStep(sys, c, env);
    ConcludingDrafts(sys.store, job, env);
  }

  lemma SevenSteps(sys: System, c: CallId, request: Request, env: Env)
    ensures Run(sys, [StartEvent(c, request)] + Steps(c, env, 7)) ==
      Apply(Run(sys, [StartEvent(c, request)] + Steps(c, env, 6)), StepEvent(c, env))
  {
    var first := [StartEvent(c, request)] + Steps(c, env, 6);
    StepsSplit(c, env, 6);
    assert [StartEvent(c, request)] + Steps(c, env, 7) == first + [StepEvent(c, env)];
    RunSplits(sys, first, [StepEvent(c, env)]);
    RunLast(Run(sys, first), StepEvent(c, env));
  }

  lemma DraftedRun(sys: System, c: CallId, request: Request, env: Env)
    requires c !in sys.calls && CanExchange(sys.store, request, env) && FreshIds(sys.minted, env)
    ensures var after := Run(sys, [StartEvent(c, request)] + Steps(c, env, 7));
      after.store == sys.store && c in after.calls &&
      after.calls[c] == Draft(sys.store, ExchangeJob(sys.store, request, env).value, env)
  {
    CheckedRun(sys, c, request, env);
    SevenSteps(sys, c, request, env);
    DraftingStep(Run(sys, [StartEvent(c, request)] + Steps(c, env, 6)), c, ExchangeJob(sys.store, request, env).value, env);
  }

  lemma {:induction false} StepsSplit(c: CallId, env: Env, n: nat)
    ensures Steps(c, env, n + 1) == Steps(c, env, n) + [StepEvent(c, env)]
  {
    if n > 0 {
      StepsSplit(c, env, n - 1);
    }
  }

  lemma RunLast(sys: System, e: Event)
    ensures Run(sys, [e]) == Apply(sys, e)
  {
    assert [e][1..] == [];
    assert Run(Apply(sys, e), []) == Apply(sys, e);
  }

  // ----- losing the race -----

  lemma CommitAfterRevocation(s: State, job: Job, env: Env, at: Time)
    requires job.Exchange? && Active(s, job)
    requires ExchangeReady(s, job, ActiveGrant(s, job), ActiveResource(s, job), env)
    ensures var revoked := RevokeGrant(s, job.GrantId(), at, true).state;
      var p := Commit(revoked, Draft(s, job, env), env);
      && GrantRevoked(revoked.vault, job.GrantId())
      && p.call.Issued? && env.accessId in p.state.vault.access
      && p.state.vault.access[env.accessId].grantId == ActiveGrant(s, job).id
      && p.state.vault.access[env.accessId].revokedAt.None?
  {
    var revoked := RevokeGrants(s.vault, {job.GrantId()}, at);
    assert revoked.codes == s.vault.codes && revoked.accessKeys == s.vault.accessKeys && revoked.refreshKeys == s.vault.refreshKeys;
  }

  /** An unrevoked access token is stored under a revoked grant. */
  predicate Lost(v: Vault, g: Id, t: Id) {
    GrantRevoked(v, g) && t in v.access && v.access[t].grantId == g && v.access[t].revokedAt.None?
  }

  lemma RevokeThenCommit(sys: System, c: CallId, s: State, job: Job, env: Env, at: Time)
    requires c in sys.calls && sys.store == s && job.Exchange? && Active(s, job) && ActiveGrant(s, job).id == job.GrantId()
    requires ExchangeReady(s, job, ActiveGrant(s, job), ActiveResource(s, job), env)
    requires sys.calls[c] == Draft(s, job, env)
    ensures var between := Apply(sys, AdminEvent(RevokeGrantOp(job.GrantId(), at), true));
      var after := Apply(between, StepEvent(c, env));
      && GrantRevoked(between.store.vault, job.GrantId())
      && c in after.calls && after.calls[c].Issued? && Lost(after.store.vault, job.GrantId(), env.accessId)
  {
    var between := Apply(sys, AdminEvent(RevokeGrantOp(job.GrantId(), at), true));
    assert between.store == RevokeGrant(s, job.GrantId(), at, true).state && between.calls == sys.calls;
    CommitAfterRevocation(s, job, env, at);
    CommitStep(between, c, env);
  }

  /** From every reachable state in which an exchange would succeed undisturbed, there is a
      schedule in which the grant is revoked after the exchange's last check and the
      exchange still commits. */
  lemma RacingExchangeCommits(sys: System, c: CallId, request: Request, env: Env, at: Time)
    requires Reachable(sys) && c !in sys.calls && CanExchange(sys.store, request, env) && FreshIds(sys.minted, env)
    ensures var g := ExchangeJob(sys.store, request, env).value.GrantId();
      var checked := Run(sys, [StartEvent(c, request)] + Steps(c, env, 7));
      var between := Apply(checked, AdminEvent(RevokeGrantOp(g, at), true));
      var after := Apply(between, StepEvent(c, env));
      && !GrantRevoked(checked.store.vault, g) && GrantRevoked(between.store.vault, g)
      && c in after.calls && after.calls[c].Issued? && Lost(after.store.vault, g, env.accessId)
  {
    var job := ExchangeJob(sys.store, request, env).value;
    ReachableInv(sys);
    assert sys.store.vault.grants[job.GrantId()].id == job.GrantId();
    DraftedRun(sys, c, request, env);
    RevokeThenCommit(Run(sys, [StartEvent(c, request)] + Steps(c, env, 7)), c, sys.store, job, env, at);
  }

  // ----- such states are reachable -----

  /** A consent of a pre-registered client to a resource of its issuer, all enabled. */
  predicate Sound(x: Consent) {
    && x.issuer.disabledAt.None? && x.resource.disabledAt.None? && x.client.disabledAt.None?
    && x.resource.issuerId == x.issuer.id && x.client.issuerId == x.issuer.id
    && x.client.source.PreRegistered? && x.client.id != NO_ID
  }

  function WithWorkspace(x: Consent): Config {
    EMPTY_CONFIG.(workspaces := {x.resource.workspaceId})
  }

  function WithIssuer(x: Consent): Config {
    WithWorkspace(x).(issuers := map[x.issuer.id := x.issuer], issuerUrls := map[x.issuer.url := x.issuer.id])
  }

  function WithResource(x: Consent): Config {
    WithIssuer(x).(resources := map[x.resource.id := x.resource], resourceUris := map[x.resource.uri := x.resource.id])
  }

  function WithClient(x: Consent): Config {
    WithResource(x).(clients := map[x.client.id := x.client],
                     clientKeys := map[ClientKey(x.client.issuerId, x.client.clientId) := x.client.id])
  }

  function WithGrant(x: Consent): Vault {
    EMPTY_VAULT.(grants := map[x.grantId := x.Grant()], codes := map[x.codeId := x.Code()],
                 codeKeys := map[x.code.prefix := x.codeId])
  }

  function Fresh(config: Config): System {
    INITIAL.(store := State(config, EMPTY_VAULT))
  }

  function Setup(x: Consent): seq<Event> {
    [AdminEvent(AddWorkspace(x.resource.workspaceId), true)] +
    ([AdminEvent(CreateIssuerOp(x.issuer), true)] +
     ([AdminEvent(CreateResourceOp(x.resource), true)] +
      ([AdminEvent(CreateClientOp(x.client, NO_ID, 0), true)] + [ConsentEvent(x, true)])))
  }

  /** The state five events lead to: one grant with its unused code. */
  function Settled(x: Consent): System {
    System(State(WithClient(x), WithGrant(x)), map[], {x.client.id}, map[])
  }

  lemma WorkspaceAdded(x: Consent)
    ensures Apply(INITIAL, AdminEvent(AddWorkspace(x.resource.workspaceId), true)) == Fresh(WithWorkspace(x))
  {
  }

  lemma IssuerCreated(x: Consent)
    ensures Apply(Fresh(WithWorkspace(x)), AdminEvent(CreateIssuerOp(x.issuer), true)) == Fresh(WithIssuer(x))
  {
  }

  lemma ResourceCreated(x: Consent)
    requires Sound(x)
    ensures Apply(Fresh(WithIssuer(x)), AdminEvent(CreateResourceOp(x.resource), true)) == Fresh(WithResource(x))
  {
  }

  lemma ClientCreated(x: Consent)
    requires Sound(x)
    ensures Apply(Fresh(WithResource(x)), AdminEvent(CreateClientOp(x.client, NO_ID, 0), true)) ==
      Fresh(WithClient(x)).(minted := {x.client.id})
  {
  }

  lemma ConsentGiven(x: Consent)
    requires Sound(x)
    ensures Apply(Fresh(WithClient(x)).(minted := {x.client.id}), ConsentEvent(x, true)) == Settled(x)
  {
  }

  lemma SetupSettles(x: Consent)
    requires Sound(x)
    ensures Run(INITIAL, Setup(x)) == Settled(x)
  {
    var e4 := [ConsentEvent(x, true)];
    var e3 := [AdminEvent(CreateClientOp(x.client, NO_ID, 0), true)] + e4;
    var e2 := [AdminEvent(CreateResourceOp(x.resource), true)] + e3;
    var e1 := [AdminEvent(CreateIssuerOp(x.issuer), true)] + e2;
    RunOne(INITIAL, AdminEvent(AddWorkspace(x.resource.workspaceId), true), e1);
    WorkspaceAdded(x);
    RunOne(Fresh(WithWorkspace(x)), AdminEvent(CreateIssuerOp(x.issuer), true), e2);
    IssuerCreated(x);
    RunOne(Fresh(WithIssuer(x)), AdminEvent(CreateResourceOp(x.resource), true), e3);
    ResourceCreated(x);
    RunOne(Fresh(WithResource(x)), AdminEvent(CreateClientOp(x.client, NO_ID, 0), true), e4);
    ClientCreated(x);
    RunLast(Fresh(WithClient(x)).(minted := {x.client.id}), ConsentEvent(x, true));
    ConsentGiven(x);
  }

  function RequestOf(x: Consent): Request {
    ExchangeRequest(x.issuer.url, x.client.clientId, Some(x.code), x.redirectUri, x.challenge, Named(x.resource.uri))
  }

  predicate Timely(x: Consent, env: Env) {
    env.proven && env.permitted && env.commits && env.now < x.now + x.issuer.codeTtl
  }

  lemma SettledCanExchange(x: Consent, env: Env)
    requires Sound(x) && Timely(x, env)
    ensures CanExchange(Settled(x).store, RequestOf(x), env)
    ensures ExchangeJob(Settled(x).store, RequestOf(x), env).value.GrantId() == x.grantId
  {
    var s := Settled(x).store;
    assert KnownClient(s, x.issuer.url, x.client.clientId, env) == Some((x.issuer, x.client));
    assert CodeByPrefix(s.vault, x.code.prefix) == Some(x.Code());
  }

  /** The setup, the exchange up to its last check, and the revocation. */
  function Race(x: Consent, env: Env, at: Time): seq<Event> {
    Setup(x) + ([StartEvent(0, RequestOf(x))] + Steps(0, env, 7)) + [AdminEvent(RevokeGrantOp(x.grantId, at), true)]
  }

  lemma RaceRuns(x: Consent, env: Env, at: Time)
    requires Sound(x)
    ensures Run(INITIAL, Race(x, env, at)) ==
      Apply(Run(Settled(x), [StartEvent(0, RequestOf(x))] + Steps(0, env, 7)), AdminEvent(RevokeGrantOp(x.grantId, at), true))
  {
    var steps, revoke := [StartEvent(0, RequestOf(x))] + Steps(0, env, 7), AdminEvent(RevokeGrantOp(x.grantId, at), true);
    SetupSettles(x);
    RunSplits(INITIAL, Setup(x), steps);
    RunSplits(INITIAL, Setup(x) + steps, [revoke]);
    RunLast(Run(Settled(x), steps), revoke);
  }

  /** From the empty store: the grant is revoked with nothing issued under it, and one more
      step issues an access token. So the bound of RevokedGrantIssuesAtMostOnce is reached,
      and issuing runs exist for every consent. */
  lemma BoundIsReached(x: Consent, env: Env, at: Time)
    requires Sound(x) && Timely(x, env) && FreshIds({x.client.id}, env)
    ensures var between := Run(INITIAL, Race(x, env, at));
      && GrantRevoked(between.store.vault, x.grantId)
      && Lost(Apply(between, StepEvent(0, env)).store.vault, x.grantId, env.accessId)
  {
    SetupSettles(x);
    assert Reachable(Settled(x));
    SettledCanExchange(x, env);
    RacingExchangeCommits(Settled(x), 0, RequestOf(x), env, at);
    RaceRuns(x, env, at);
  }
}
