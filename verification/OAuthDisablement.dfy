/** Disabling a client: which events enable it again. A metadata document that is fetched
    again is stored as an enabled record, so only clients of the other kinds stay disabled
    until an administrator enables them. */
module OAuthDisablement {
  import opened Common
  import opened Uuid
  import opened OAuthRecords
  import opened OAuthSpec
  import opened OAuthProtocol
  import opened OAuthInvariant
  import opened OAuthPreservation
  import opened OAuthIndex
  import opened OAuthRegistry
  import opened OAuthTheorems
  import opened OAuthRace

  predicate ClientDisabled(c: Config, id: Id) {
    id in c.clients && c.clients[id].disabledAt.Some?
  }

  /** An administrator enables the client. */
  predicate AdminEnables(e: Event, id: Id) {
    e.AdminEvent? && e.commits && e.op.SetClientDisabledOp? && e.op.id == id && !e.op.disabled
  }

  /** A refetch that read the record of the client, before or after it was disabled, stores
      what it fetched. */
  predicate RefetchEnables(sys: System, e: Event, id: Id) {
    && e.StepEvent? && e.callId in sys.calls && e.env.commits
    && sys.calls[e.callId].Refetching? && sys.calls[e.callId].client.id == id
  }

  // ----- the invariant -----

  /** A refetch stores an enabled record of a metadata document, over such a record. */
  predicate RefetchesDocument(c: Config, call: Call) {
    call.Refetching? ==>
      && call.client.source.Cimd? && call.client.disabledAt.None?
      && (call.client.id in c.clients ==> c.clients[call.client.id].source.Cimd?)
  }

  predicate DocumentsOk(c: Config, calls: map<CallId, Call>) {
    forall i | i in calls :: RefetchesDocument(c, calls[i])
  }

  /** The issuer of every client is stored. */
  predicate Housed(c: Config) {
    forall id | id in c.clients :: c.clients[id].issuerId in c.issuers
  }

  ghost predicate DisablementOk(sys: System) {
    && Inv(sys) && RegistryOk(sys)
    && DocumentsOk(sys.store.config, sys.calls) && Housed(sys.store.config)
  }

  // ----- what an operation does to a client record -----

  /** The record keeps its source, and its disablement unless this is what the operation sets. */
  predicate Administered(c: Config, d: Config, op: AdminOp, commits: bool, id: Id)
    requires id in c.clients
  {
    && id in d.clients && d.clients[id].source == c.clients[id].source
    && d.clients[id].disabledAt ==
         if commits && op.SetClientDisabledOp? && op.id == id then Disablement(op.disabled, op.at)
         else c.clients[id].disabledAt
  }

  lemma TokenOpKeepsClients(s: State, op: AdminOp, commits: bool)
    requires op.CreateClientTokenOp? || op.RevokeClientTokenOp?
    ensures Administer(s, op, commits).config.clients == s.config.clients
  {
  }

  lemma NewClientAdministers(s: State, op: AdminOp, commits: bool, id: Id)
    requires id in s.config.clients && op.CreateClientOp?
    ensures Administered(s.config, Administer(s, op, commits).config, op, commits, id)
  {
    CreateClientShape(s, op.client, op.initialId, op.at, commits);
  }

  lemma RotationAdministers(s: State, op: AdminOp, commits: bool, id: Id)
    requires id in s.config.clients && op.RotateClientOp?
    ensures Administered(s.config, Administer(s, op, commits).config, op, commits, id)
  {
  }

  lemma DisablingAdministers(s: State, op: AdminOp, commits: bool, id: Id)
    requires id in s.config.clients && op.SetClientDisabledOp?
    ensures Administered(s.config, Administer(s, op, commits).config, op, commits, id)
  {
  }

  lemma AdminAdministers(s: State, op: AdminOp, commits: bool, id: Id)
    requires id in s.config.clients
    ensures Administered(s.config, Administer(s, op, commits).config, op, commits, id)
  {
    match op
    case CreateClientOp(_, _, _) => NewClientAdministers(s, op, commits, id);
    case RotateClientOp(_, _, _, _) => RotationAdministers(s, op, commits, id);
    case SetClientDisabledOp(_, _, _) => DisablingAdministers(s, op, commits, id);
    case CreateClientTokenOp(_) => TokenOpKeepsClients(s, op, commits);
    case RevokeClientTokenOp(_, _) => TokenOpKeepsClients(s, op, commits);
    case _ => OtherOpKeepsClients(s, op, commits);
  }

  lemma IssuersStay(s: State, op: AdminOp, commits: bool, id: Id)
    requires id in s.config.issuers
    ensures id in Administer(s, op, commits).config.issuers
  {
  }

  lemma NewClientIsHoused(s: State, client: Client, initialId: Id, at: Time, commits: bool)
    requires Housed(s.config)
    ensures Housed(CreateClient(s, client, initialId, at, commits).state.config)
  {
    CreateClientShape(s, client, initialId, at, commits);
  }

  lemma AdminKeepsHoused(s: State, op: AdminOp, commits: bool)
    requires Housed(s.config)
    ensures Housed(Administer(s, op, commits).config)
  {
    var c, d := s.config, Administer(s, op, commits).config;
    if op.CreateClientOp? {
      NewClientIsHoused(s, op.client, op.initialId, op.at, commits);
    } else {
      AdminEvolves(s, op, commits);
      forall id | id in d.clients ensures d.clients[id].issuerId in d.issuers {
        assert id in c.clients;
        IssuersStay(s, op, commits, c.clients[id].issuerId);
      }
    }
  }

  /** A refetch under way has an identifier that no registration draws. */
  lemma AdminKeepsDocuments(sys: System, op: AdminOp, commits: bool)
    requires RegistryOk(sys) && DocumentsOk(sys.store.config, sys.calls) && Unminted(sys.minted, Draws(op))
    ensures DocumentsOk(Administer(sys.store, op, commits).config, sys.calls)
  {
    var c, d := sys.store.config, Administer(sys.store, op, commits).config;
    AdminEvolves(sys.store, op, commits);
    forall i | i in sys.calls ensures RefetchesDocument(d, sys.calls[i]) {
      assert RefetchOk(c, sys.minted, sys.calls[i]) && RefetchesDocument(c, sys.calls[i]);
      if sys.calls[i].Refetching? && sys.calls[i].client.id in c.clients {
        AdminAdministers(sys.store, op, commits, sys.calls[i].client.id);
      }
    }
  }

  // ----- what a step does to a client record -----

  lemma StoringKeepsDocuments(s: State, calls: map<CallId, Call>, i: CallId, next: Call, commits: bool)
    requires DocumentsOk(s.config, calls) && Housed(s.config) && i in calls && calls[i].Refetching? && !next.Refetching?
    ensures var d := UpsertCimdClient(s, calls[i].client, commits).state.config;
      DocumentsOk(d, calls[i := next]) && Housed(d)
  {
    assert RefetchesDocument(s.config, calls[i]);
    UpsertShape(s, calls[i].client, commits);
  }

  lemma FoundIsDocument(s: State, request: Request, issuer: Issuer, env: Env)
    requires !request.AuthenticateRequest? && ResolveClient(s, request, issuer, env).Refetching?
    ensures var found := ClientByClientId(s.config, issuer.id, request.clientId);
      && env.document.Some? && (found.Some? ==> found.value.source.Cimd?)
      && ResolveClient(s, request, issuer, env).client == Refetched(found, issuer, request.clientId, env)
  {
  }

  lemma ResolvingFindsDocument(sys: System, call: Call, env: Env)
    requires RegistryOk(sys) && call.IssuerKnown? && !call.request.AuthenticateRequest? && env.clientRecordId !in sys.minted
    requires ResolveClient(sys.store, call.request, call.issuer, env).Refetching?
    ensures RefetchesDocument(sys.store.config, ResolveClient(sys.store, call.request, call.issuer, env))
  {
    var c := sys.store.config;
    var found := ClientByClientId(c, call.issuer.id, call.request.clientId);
    FoundIsDocument(sys.store, call.request, call.issuer, env);
    if found.Some? {
      FoundIsSameClient(c, call.issuer.id, call.request.clientId, found.value);
    }
  }

  lemma RefetchingKeepsDocuments(sys: System, i: CallId, env: Env)
    requires DisablementOk(sys) && i in sys.calls && sys.calls[i].Refetching?
    ensures var after := StepCall(sys, i, env); DocumentsOk(after.store.config, after.calls) && Housed(after.store.config)
  {
    RefetchStep(sys, i, env);
    StoringKeepsDocuments(sys.store, sys.calls, i, Advance(sys.store, sys.calls[i], env).call, env.commits);
  }

  lemma ResolvingKeepsDocuments(sys: System, i: CallId, env: Env)
    requires DisablementOk(sys) && i in sys.calls && Advance(sys.store, sys.calls[i], env).call.Refetching?
    ensures var after := StepCall(sys, i, env); DocumentsOk(after.store.config, after.calls) && Housed(after.store.config)
  {
    ResolvingStep(sys, i, env);
    OnlyResolvingRefetches(sys.store, sys.calls[i], env);
    if StepCall(sys, i, env) != sys {
      assert env.clientRecordId in {env.clientRecordId};
      ResolvingFindsDocument(sys, sys.calls[i], env);
    }
  }

  lemma QuietKeepsDocuments(sys: System, i: CallId, env: Env)
    requires DisablementOk(sys) && i in sys.calls && !sys.calls[i].Refetching?
    requires !Advance(sys.store, sys.calls[i], env).call.Refetching?
    ensures var after := StepCall(sys, i, env); DocumentsOk(after.store.config, after.calls) && Housed(after.store.config)
  {
    QuietStep(sys, i, env);
    ConfigUntouched(sys.store, sys.calls[i], env);
  }

  lemma StepKeepsDocuments(sys: System, i: CallId, env: Env)
    requires DisablementOk(sys) && i in sys.calls
    ensures var after := StepCall(sys, i, env); DocumentsOk(after.store.config, after.calls) && Housed(after.store.config)
  {
    if sys.calls[i].Refetching? {
      RefetchingKeepsDocuments(sys, i, env);
    } else if Advance(sys.store, sys.calls[i], env).call.Refetching? {
      ResolvingKeepsDocuments(sys, i, env);
    } else {
      QuietKeepsDocuments(sys, i, env);
    }
  }

  lemma ApplyKeepsDocuments(sys: System, e: Event)
    requires DisablementOk(sys)
    ensures var after := Apply(sys, e); DocumentsOk(after.store.config, after.calls) && Housed(after.store.config)
  {
    match e
    case AdminEvent(op, commits) =>
      if Unminted(sys.minted, Draws(op)) {
        AdminKeepsDocuments(sys, op, commits);
        AdminKeepsHoused(sys.store, op, commits);
      }
    case StepEvent(i, env) => if i in sys.calls { StepKeepsDocuments(sys, i, env); }
    case StartEvent(i, request) => if i !in sys.calls { StartKeepsDocuments(sys.store.config, sys.calls, i, request); }
    case ConsentEvent(_, _) => OtherEventsKeepConfig(sys, e);
  }

  lemma StartKeepsDocuments(c: Config, calls: map<CallId, Call>, i: CallId, request: Request)
    requires DocumentsOk(c, calls)
    ensures DocumentsOk(c, calls[i := Begun(request)])
  {
  }

  lemma ApplyKeepsDisablement(sys: System, e: Event)
    requires DisablementOk(sys)
    ensures DisablementOk(Apply(sys, e))
  {
    ApplyKeepsDocuments(sys, e);
    ApplyKeepsRegistry(sys, e);
    ApplyKeepsInv(sys, e);
  }

  lemma {:induction false} RunKeepsDisablement(sys: System, events: seq<Event>)
    requires DisablementOk(sys)
    ensures DisablementOk(Run(sys, events))
    decreases |events|
  {
    if events != [] {
      ApplyKeepsDisablement(sys, events[0]);
      RunKeepsDisablement(Apply(sys, events[0]), events[1..]);
    }
  }

  lemma ReachableDisablement(sys: System)
    requires Reachable(sys)
    ensures DisablementOk(sys)
  {
    var events: seq<Event> :| sys == Run(INITIAL, events);
    InitialInv();
    InitialRegistry();
    RunKeepsDisablement(INITIAL, events);
  }

  // ----- which events enable a client -----

  lemma UpsertReply(s: State, client: Client, commits: bool)
    ensures UpsertCimdClient(s, client, commits).reply.Ok? <==>
      && commits && client.issuerId in s.config.issuers
      && (KeyOf(client) in s.config.clientKeys ==> s.config.clientKeys[KeyOf(client)] == client.id)
  {
  }

  lemma KeyLeadsBack<R(!new)>(records: map<Id, R>, keys: map<string, Id>, key: R -> string, id: Id)
    requires Exact(records, keys, key) && id in records
    ensures key(records[id]) in keys && keys[key(records[id])] == id
  {
  }

  lemma SameClientSameKey(a: Client, b: Client)
    requires SameClient(a, b)
    ensures KeyOf(a) == KeyOf(b)
  {
  }

  /** The store takes a refetched record over a stored one of the same identity. */
  lemma RefetchIsTaken(s: State, client: Client, commits: bool)
    requires Exact(s.config.clients, s.config.clientKeys, KeyOf) && Housed(s.config)
    requires client.id in s.config.clients && SameClient(s.config.clients[client.id], client)
    ensures UpsertCimdClient(s, client, commits).reply.Ok? <==> commits
  {
    UpsertReply(s, client, commits);
    KeyLeadsBack(s.config.clients, s.config.clientKeys, KeyOf, client.id);
    SameClientSameKey(s.config.clients[client.id], client);
  }

  /** What an event makes of a stored client: the record stays, keeps its source, and changes
      its disablement only as an administrator or a refetch has it. */
  predicate EventDisables(sys: System, e: Event, d: Config, id: Id)
    requires id in sys.store.config.clients
  {
    var c := sys.store.config;
    && id in d.clients && d.clients[id].source == c.clients[id].source
    && (d.clients[id].disabledAt.None? <==>
          || AdminEnables(e, id) || RefetchEnables(sys, e, id)
          || (c.clients[id].disabledAt.None? &&
              !(e.AdminEvent? && e.commits && e.op.SetClientDisabledOp? && e.op.id == id && e.op.disabled)))
  }

  lemma UpsertedClients(s: State, client: Client, commits: bool)
    ensures var a := UpsertCimdClient(s, client, commits);
      a.state.config.clients == if a.reply.Ok? then s.config.clients[client.id := client] else s.config.clients
  {
  }

  lemma RefetchedElsewhere(s: State, client: Client, commits: bool, id: Id)
    requires id in s.config.clients && client.id != id
    ensures var d := UpsertCimdClient(s, client, commits).state.config; id in d.clients && d.clients[id] == s.config.clients[id]
  {
    UpsertedClients(s, client, commits);
  }

  lemma RefetchedHere(s: State, client: Client, commits: bool)
    requires Exact(s.config.clients, s.config.clientKeys, KeyOf) && Housed(s.config)
    requires client.id in s.config.clients && SameClient(s.config.clients[client.id], client)
    ensures var d := UpsertCimdClient(s, client, commits).state.config;
      client.id in d.clients && d.clients[client.id] == if commits then client else s.config.clients[client.id]
  {
    UpsertedClients(s, client, commits);
    RefetchIsTaken(s, client, commits);
  }

  lemma RefetchDisables(sys: System, i: CallId, env: Env, id: Id)
    requires DisablementOk(sys) && i in sys.calls && sys.calls[i].Refetching? && id in sys.store.config.clients
    ensures EventDisables(sys, StepEvent(i, env), UpsertCimdClient(sys.store, sys.calls[i].client, env.commits).state.config, id)
  {
    assert RefetchesDocument(sys.store.config, sys.calls[i]) && RefetchOk(sys.store.config, sys.minted, sys.calls[i]);
    if sys.calls[i].client.id == id {
      RefetchedHere(sys.store, sys.calls[i].client, env.commits);
    } else {
      RefetchedElsewhere(sys.store, sys.calls[i].client, env.commits, id);
    }
  }

  lemma AdminDisables(sys: System, op: AdminOp, commits: bool, id: Id)
    requires id in sys.store.config.clients
    ensures EventDisables(sys, AdminEvent(op, commits), Apply(sys, AdminEvent(op, commits)).store.config, id)
  {
    AdminAdministers(sys.store, op, commits, id);
  }

  /** No event but an administrator's and the write of a refetch changes the configuration. */
  lemma OtherEventsKeepConfig(sys: System, e: Event)
    requires !e.AdminEvent? && !(e.StepEvent? && e.callId in sys.calls && sys.calls[e.callId].Refetching?)
    ensures Apply(sys, e).store.config == sys.store.config
  {
    if e.StepEvent? && e.callId in sys.calls {
      ConfigUntouched(sys.store, sys.calls[e.callId], e.env);
    }
  }

  lemma RefetchConfig(sys: System, i: CallId, env: Env)
    requires i in sys.calls && sys.calls[i].Refetching?
    ensures Apply(sys, StepEvent(i, env)).store.config == UpsertCimdClient(sys.store, sys.calls[i].client, env.commits).state.config
  {
    RefetchStep(sys, i, env);
  }

  lemma EventDisablesClient(sys: System, e: Event, id: Id)
    requires DisablementOk(sys) && id in sys.store.config.clients
    ensures EventDisables(sys, e, Apply(sys, e).store.config, id)
  {
    if e.AdminEvent? {
      AdminDisables(sys, e.op, e.commits, id);
    } else if e.StepEvent? && e.callId in sys.calls && sys.calls[e.callId].Refetching? {
      RefetchConfig(sys, e.callId, e.env);
      RefetchDisables(sys, e.callId, e.env, id);
    } else {
      OtherEventsKeepConfig(sys, e);
    }
  }

  /** An event enables a disabled client exactly if it is an administrator's, or the commit
      of a refetch of that client. */
  lemma EnabledAgainIff(sys: System, e: Event, id: Id)
    requires Reachable(sys) && ClientDisabled(sys.store.config, id)
    ensures !ClientDisabled(Apply(sys, e).store.config, id) <==> AdminEnables(e, id) || RefetchEnables(sys, e, id)
  {
    ReachableDisablement(sys);
    EventDisablesClient(sys, e, id);
  }

  /** Only a metadata document is refetched. */
  lemma OnlyDocumentsRefetch(sys: System, e: Event, id: Id)
    requires DisablementOk(sys) && id in sys.store.config.clients && RefetchEnables(sys, e, id)
    ensures sys.store.config.clients[id].source.Cimd?
  {
    assert RefetchesDocument(sys.store.config, sys.calls[e.callId]);
  }

  predicate RegisteredDisabled(c: Config, id: Id) {
    ClientDisabled(c, id) && !c.clients[id].source.Cimd?
  }

  lemma EventKeepsDisabled(sys: System, e: Event, id: Id)
    requires DisablementOk(sys) && RegisteredDisabled(sys.store.config, id) && !AdminEnables(e, id)
    ensures DisablementOk(Apply(sys, e)) && RegisteredDisabled(Apply(sys, e).store.config, id)
  {
    ApplyKeepsDisablement(sys, e);
    EventDisablesClient(sys, e, id);
    if RefetchEnables(sys, e, id) {
      OnlyDocumentsRefetch(sys, e, id);
    }
  }

  /** A disabled client that was registered stays disabled over every run in which no
      administrator enables it. */
  lemma DisabledUntilEnabled(sys: System, events: seq<Event>, id: Id)
    requires Reachable(sys) && RegisteredDisabled(sys.store.config, id)
    requires forall e | e in events :: !AdminEnables(e, id)
    ensures RegisteredDisabled(Run(sys, events).store.config, id)
  {
    var kept := (s: System) => DisablementOk(s) && RegisteredDisabled(s.store.config, id);
    forall s, e | kept(s) && !AdminEnables(e, id) ensures kept(Apply(s, e)) {
      EventKeepsDisabled(s, e, id);
    }
    ReachableDisablement(sys);
    RunKeeps(kept, e => !AdminEnables(e, id), sys, events);
  }

  // ----- a stale document enables its client -----

  lemma ReadsIssuer(sys: System, i: CallId, request: Request, issuer: Issuer, env: Env)
    requires i in sys.calls && sys.calls[i] == Begun(request) && request.ResolveRequest?
    requires IssuerByUrl(sys.store.config, request.issuerUrl) == Some(issuer) && issuer.disabledAt.None?
    ensures Apply(sys, StepEvent(i, env)) == sys.(calls := sys.calls[i := IssuerKnown(request, issuer)])
  {
  }

  lemma ReadsStaleClient(sys: System, i: CallId, request: Request, issuer: Issuer, found: Client, env: Env)
    requires i in sys.calls && sys.calls[i] == IssuerKnown(request, issuer) && request.ResolveRequest?
    requires ClientByClientId(sys.store.config, issuer.id, request.clientId) == Some(found) && found.source.Cimd?
    requires env.stale && env.document.Some? && Unminted(sys.minted, {env.clientRecordId})
    ensures var after := Apply(sys, StepEvent(i, env));
      && after.store == sys.store && i in after.calls
      && after.calls[i] == Refetching(request, issuer, Refetched(Some(found), issuer, request.clientId, env))
  {
  }

  lemma TwoSteps(i: CallId, env: Env)
    ensures Steps(i, env, 2) == [StepEvent(i, env)] + [StepEvent(i, env)]
  {
    StepsSplit(i, env, 1);
    StepsSplit(i, env, 0);
    assert Steps(i, env, 0) == [];
  }

  lemma RunThree(sys: System, a: Event, b: Event, c: Event)
    ensures Run(sys, [a] + ([b] + [c])) == Apply(Apply(Apply(sys, a), b), c)
  {
    RunOne(sys, a, [b] + [c]);
    RunOne(Apply(sys, a), b, [c]);
    RunLast(Apply(Apply(sys, a), b), c);
  }

  lemma TwoReads(sys: System, i: CallId, request: Request, issuer: Issuer, found: Client, env: Env)
    requires i !in sys.calls && request.ResolveRequest? && env.stale && env.document.Some?
    requires IssuerByUrl(sys.store.config, request.issuerUrl) == Some(issuer) && issuer.disabledAt.None?
    requires ClientByClientId(sys.store.config, issuer.id, request.clientId) == Some(found) && found.source.Cimd?
    requires Unminted(sys.minted, {env.clientRecordId})
    ensures var after := Run(sys, [StartEvent(i, request)] + Steps(i, env, 2));
      && after.store == sys.store && i in after.calls
      && after.calls[i] == Refetching(request, issuer, Refetched(Some(found), issuer, request.clientId, env))
  {
    var begun := sys.(calls := sys.calls[i := Begun(request)]);
    TwoSteps(i, env);
    RunThree(sys, StartEvent(i, request), StepEvent(i, env), StepEvent(i, env));
    ReadsIssuer(begun, i, request, issuer, env);
    ReadsStaleClient(begun.(calls := begun.calls[i := IssuerKnown(request, issuer)]), i, request, issuer, found, env);
  }

  lemma RefetchCommitEnables(sys: System, i: CallId, env: Env, id: Id)
    requires DisablementOk(sys) && ClientDisabled(sys.store.config, id) && RefetchEnables(sys, StepEvent(i, env), id)
    ensures !ClientDisabled(Apply(sys, StepEvent(i, env)).store.config, id)
  {
    EventDisablesClient(sys, StepEvent(i, env), id);
  }

  /** In every reachable state, resolving a disabled client whose metadata document is stale,
      at an enabled issuer, enables it. */
  lemma StaleDocumentEnables(sys: System, i: CallId, url: string, issuer: Issuer, id: Id, env: Env)
    requires Reachable(sys) && i !in sys.calls && ClientDisabled(sys.store.config, id)
    requires var client := sys.store.config.clients[id]; client.source.Cimd? && client.issuerId == issuer.id
    requires IssuerByUrl(sys.store.config, url) == Some(issuer) && issuer.disabledAt.None?
    requires env.stale && env.document.Some? && env.commits && Unminted(sys.minted, {env.clientRecordId})
    ensures var request := ResolveRequest(url, sys.store.config.clients[id].clientId);
      var before := Run(sys, [StartEvent(i, request)] + Steps(i, env, 2));
      ClientDisabled(before.store.config, id) && !ClientDisabled(Apply(before, StepEvent(i, env)).store.config, id)
  {
    var client := sys.store.config.clients[id];
    var request := ResolveRequest(url, client.clientId);
    var events := [StartEvent(i, request)] + Steps(i, env, 2);
    ReachableDisablement(sys);
    ClientLookupIsSearch(sys, issuer.id, client.clientId, client);
    TwoReads(sys, i, request, issuer, client, env);
    RunKeepsDisablement(sys, events);
    RefetchCommitEnables(Run(sys, events), i, env, id);
  }
}
