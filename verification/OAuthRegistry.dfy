/** Client records keep their identity over every run, also while their metadata documents
    are refetched, and so every lookup of the store is a search over its records. */
module OAuthRegistry {
  import opened Common
  import opened Uuid
  import opened OAuthRecords
  import opened OAuthSpec
  import opened OAuthProtocol
  import opened OAuthInvariant
  import opened OAuthPreservation
  import opened OAuthIndex

  // ----- the invariant -----

  predicate SameClient(a: Client, b: Client) {
    a.issuerId == b.issuerId && a.clientId == b.clientId
  }

  /** Every client record sits under its own identifier, and identifiers the store does not
      look up were minted. */
  predicate Numbered(c: Config, minted: set<Id>) {
    && (forall id | id in c.clients :: c.clients[id].id == id && id in minted)
    && (forall id | id in c.clientTokens :: id in minted)
  }

  /** The record a refetch is about to store has the identity of the one it replaces. */
  predicate RefetchOk(c: Config, minted: set<Id>, call: Call) {
    call.Refetching? ==>
      && call.client.id in minted
      && (call.client.id in c.clients ==> SameClient(c.clients[call.client.id], call.client))
  }

  /** Two refetches under one identifier are of one client. */
  predicate Agree(a: Call, b: Call) {
    a.Refetching? && b.Refetching? && a.client.id == b.client.id ==> SameClient(a.client, b.client)
  }

  predicate RefetchesOk(c: Config, minted: set<Id>, calls: map<CallId, Call>) {
    && (forall i | i in calls :: RefetchOk(c, minted, calls[i]))
    && (forall i, j | i in calls && j in calls :: Agree(calls[i], calls[j]))
  }

  ghost predicate RegistryOk(sys: System) {
    && Indexed(sys.store) && Numbered(sys.store.config, sys.minted)
    && RefetchesOk(sys.store.config, sys.minted, sys.calls)
  }

  // ----- how the client records evolve -----

  /** Records keep their identity; new ones, and new client tokens, take an identifier in
      `drawn`. */
  predicate Evolves(c: Config, d: Config, drawn: set<Id>) {
    && (forall id | id in c.clients ::
          id in d.clients && SameClient(c.clients[id], d.clients[id]) && d.clients[id].id == c.clients[id].id)
    && (forall id | id in d.clients && id !in c.clients :: id in drawn && d.clients[id].id == id)
    && (forall id | id in d.clientTokens && id !in c.clientTokens :: id in drawn)
  }

  /** Replacing one record by another of the same identity. */
  lemma ReplacingEvolves(c: Config, d: Config, id: Id, client: Client)
    requires id in c.clients && SameClient(c.clients[id], client) && client.id == c.clients[id].id
    requires d.clients == c.clients[id := client] && d.clientTokens == c.clientTokens
    ensures Evolves(c, d, {})
  {
  }

  lemma RotationEvolves(s: State, id: Id, secret: Option<Digest>, keys: Option<(string, Digest)>, at: Time, commits: bool)
    ensures Evolves(s.config, RotateClientCredentials(s, id, secret, keys, at, commits).state.config, {})
  {
    var d := RotateClientCredentials(s, id, secret, keys, at, commits).state.config;
    if d != s.config {
      ReplacingEvolves(s.config, d, id, d.clients[id]);
    }
  }

  lemma DisablingEvolves(s: State, id: Id, disabled: bool, at: Time, commits: bool)
    ensures Evolves(s.config, SetClientDisabled(s, id, disabled, at, commits).state.config, {})
  {
    var d := SetClientDisabled(s, id, disabled, at, commits).state.config;
    if d != s.config {
      ReplacingEvolves(s.config, d, id, d.clients[id]);
    }
  }

  lemma NewClientTokenEvolves(s: State, t: ClientToken, commits: bool)
    ensures Evolves(s.config, CreateClientToken(s, t, commits).state.config, {t.id})
  {
  }

  lemma OldClientTokenEvolves(s: State, id: Id, at: Time, commits: bool)
    ensures Evolves(s.config, RevokeClientToken(s, id, at, commits).state.config, {})
  {
  }

  lemma UntouchedEvolves(c: Config, d: Config, drawn: set<Id>)
    requires d.clients == c.clients && d.clientTokens == c.clientTokens
    ensures Evolves(c, d, drawn)
  {
  }

  /** No other operation touches the records. */
  lemma OtherOpKeepsClients(s: State, op: AdminOp, commits: bool)
    requires !op.CreateClientOp? && !op.RotateClientOp? && !op.SetClientDisabledOp?
    requires !op.CreateClientTokenOp? && !op.RevokeClientTokenOp?
    ensures var d := Administer(s, op, commits).config;
      d.clients == s.config.clients && d.clientTokens == s.config.clientTokens
  {
  }

  lemma OtherOpEvolves(s: State, op: AdminOp, commits: bool)
    requires !op.CreateClientOp? && !op.RotateClientOp? && !op.SetClientDisabledOp?
    requires !op.CreateClientTokenOp? && !op.RevokeClientTokenOp?
    ensures Evolves(s.config, Administer(s, op, commits).config, Draws(op))
  {
    OtherOpKeepsClients(s, op, commits);
    UntouchedEvolves(s.config, Administer(s, op, commits).config, Draws(op));
  }

  lemma AdminEvolves(s: State, op: AdminOp, commits: bool)
    ensures Evolves(s.config, Administer(s, op, commits).config, Draws(op))
  {
    match op
    case CreateClientOp(client, initialId, at) => CreateClientEvolves(s, client, initialId, at, commits);
    case RotateClientOp(id, secret, keys, at) => RotationEvolves(s, id, secret, keys, at, commits);
    case SetClientDisabledOp(id, disabled, at) => DisablingEvolves(s, id, disabled, at, commits);
    case CreateClientTokenOp(t) => NewClientTokenEvolves(s, t, commits);
    case RevokeClientTokenOp(id, at) => OldClientTokenEvolves(s, id, at, commits);
    case _ => OtherOpEvolves(s, op, commits);
  }

  lemma CreateClientEvolves(s: State, client: Client, initialId: Id, at: Time, commits: bool)
    ensures Evolves(s.config, CreateClient(s, client, initialId, at, commits).state.config, {client.id})
  {
    CreateClientShape(s, client, initialId, at, commits);
  }

  lemma UpsertEvolves(s: State, client: Client, commits: bool)
    requires client.id in s.config.clients ==>
      SameClient(s.config.clients[client.id], client) && s.config.clients[client.id].id == client.id
    ensures Evolves(s.config, UpsertCimdClient(s, client, commits).state.config, {client.id})
  {
    UpsertShape(s, client, commits);
  }

  lemma EvolvingKeepsNumbered(c: Config, d: Config, minted: set<Id>, drawn: set<Id>)
    requires Numbered(c, minted) && Evolves(c, d, drawn)
    ensures Numbered(d, minted + drawn)
  {
  }

  /** Identifiers drawn anew are held by no refetch. */
  lemma DrawingKeepsRefetches(c: Config, d: Config, minted: set<Id>, drawn: set<Id>, calls: map<CallId, Call>)
    requires RefetchesOk(c, minted, calls) && Evolves(c, d, drawn) && Unminted(minted, drawn)
    ensures RefetchesOk(d, minted + drawn, calls)
  {
    forall i | i in calls ensures RefetchOk(d, minted + drawn, calls[i]) {
      assert RefetchOk(c, minted, calls[i]);
    }
  }

  /** A refetch stores its record where no other refetch disagrees. */
  lemma StoringKeepsRefetches(c: Config, d: Config, minted: set<Id>, calls: map<CallId, Call>, i: CallId, next: Call)
    requires RefetchesOk(c, minted, calls) && i in calls && calls[i].Refetching? && !next.Refetching?
    requires Evolves(c, d, {calls[i].client.id})
    requires calls[i].client.id in d.clients ==> SameClient(d.clients[calls[i].client.id], calls[i].client)
    ensures RefetchesOk(d, minted, calls[i := next])
  {
    forall j | j in calls && j != i ensures RefetchOk(d, minted, calls[j]) {
      assert RefetchOk(c, minted, calls[j]) && Agree(calls[i], calls[j]);
    }
  }

  lemma QuietKeepsRefetches(c: Config, minted: set<Id>, more: set<Id>, calls: map<CallId, Call>, i: CallId, next: Call)
    requires RefetchesOk(c, minted, calls) && Numbered(c, minted) && !next.Refetching? && minted <= more
    ensures RefetchesOk(c, more, calls[i := next]) && Numbered(c, more)
  {
  }

  lemma FoundIsSameClient(c: Config, issuerId: Id, clientId: string, r: Client)
    requires Exact(c.clients, c.clientKeys, KeyOf) && ClientByClientId(c, issuerId, clientId) == Some(r)
    ensures r.issuerId == issuerId && r.clientId == clientId
    ensures exists id :: id in c.clients && c.clients[id] == r
  {
    FoundIff(c.clients, c.clientKeys, KeyOf, ClientKey(issuerId, clientId), r);
    ClientKeyInjective(r.issuerId, r.clientId, issuerId, clientId);
  }

  /** What a refetch is about to store, right after the read: a record found by its
      client_id keeps that identity, and otherwise the identifier is the new one. */
  lemma RefetchedIdentity(c: Config, minted: set<Id>, call: Call, env: Env)
    requires Exact(c.clients, c.clientKeys, KeyOf) && Numbered(c, minted) && env.document.Some?
    requires call.IssuerKnown? && !call.request.AuthenticateRequest?
    ensures var found := ClientByClientId(c, call.issuer.id, call.request.clientId);
      var client := Refetched(found, call.issuer, call.request.clientId, env);
      if found.Some? then client.id in c.clients && SameClient(c.clients[client.id], client)
      else client.id == env.clientRecordId
  {
    var found := ClientByClientId(c, call.issuer.id, call.request.clientId);
    if found.Some? {
      FoundIsSameClient(c, call.issuer.id, call.request.clientId, found.value);
    }
  }

  lemma JoiningKeepsRefetches(c: Config, minted: set<Id>, drawn: Id, calls: map<CallId, Call>, i: CallId, next: Call)
    requires RefetchesOk(c, minted, calls) && Numbered(c, minted) && drawn !in minted && next.Refetching?
    requires if next.client.id in c.clients then SameClient(c.clients[next.client.id], next.client)
             else next.client.id == drawn
    ensures RefetchesOk(c, minted + {drawn}, calls[i := next])
  {
    forall j | j in calls && j != i ensures Agree(calls[j], next) && Agree(next, calls[j]) {
      assert RefetchOk(c, minted, calls[j]);
    }
  }

  lemma RefetchBegins(sys: System, i: CallId, env: Env)
    requires RegistryOk(sys) && i in sys.calls && sys.calls[i].IssuerKnown? && !sys.calls[i].request.AuthenticateRequest?
    requires ResolveClient(sys.store, sys.calls[i].request, sys.calls[i].issuer, env).Refetching?
    requires env.clientRecordId !in sys.minted
    ensures RefetchesOk(sys.store.config, sys.minted + {env.clientRecordId},
                        sys.calls[i := ResolveClient(sys.store, sys.calls[i].request, sys.calls[i].issuer, env)])
  {
    var c, call := sys.store.config, sys.calls[i];
    var next := ResolveClient(sys.store, call.request, call.issuer, env);
    RefetchedIdentity(c, sys.minted, call, env);
    JoiningKeepsRefetches(c, sys.minted, env.clientRecordId, sys.calls, i, next);
  }

  // ----- every event keeps it -----

  lemma AdminKeepsRegistry(sys: System, op: AdminOp, commits: bool)
    requires Inv(sys) && RegistryOk(sys)
    ensures RegistryOk(Apply(sys, AdminEvent(op, commits)))
  {
    if Unminted(sys.minted, Draws(op)) {
      var c, d := sys.store.config, Administer(sys.store, op, commits).config;
      AdminEvolves(sys.store, op, commits);
      assert op.CreateClientTokenOp? ==> op.clientToken.id in Draws(op);
      AdminIndexed(sys, op, commits);
      EvolvingKeepsNumbered(c, d, sys.minted, Draws(op));
      DrawingKeepsRefetches(c, d, sys.minted, Draws(op), sys.calls);
    }
  }

  /** The configuration a refetch leaves behind. */
  lemma StoredConfig(s: State, minted: set<Id>, call: Call, commits: bool)
    requires call.Refetching? && ConfigIndexed(s.config) && Numbered(s.config, minted) && RefetchOk(s.config, minted, call)
    ensures var d := UpsertCimdClient(s, call.client, commits).state.config;
      && ConfigIndexed(d) && Evolves(s.config, d, {call.client.id})
      && (call.client.id in d.clients ==> SameClient(d.clients[call.client.id], call.client))
  {
    UpsertClientIndexedIff(s, call.client, commits);
    UpsertEvolves(s, call.client, commits);
    UpsertShape(s, call.client, commits);
  }

  lemma StoringKeepsRegistry(sys: System, i: CallId, d: Config, next: Call)
    requires RegistryOk(sys) && i in sys.calls && sys.calls[i].Refetching? && !next.Refetching?
    requires ConfigIndexed(d) && Evolves(sys.store.config, d, {sys.calls[i].client.id})
    requires var client := sys.calls[i].client; client.id in d.clients ==> SameClient(d.clients[client.id], client)
    ensures RegistryOk(sys.(store := sys.store.(config := d), calls := sys.calls[i := next]))
  {
    var c, id := sys.store.config, sys.calls[i].client.id;
    assert RefetchOk(c, sys.minted, sys.calls[i]);
    EvolvingKeepsNumbered(c, d, sys.minted, {id});
    assert sys.minted + {id} == sys.minted;
    StoringKeepsRefetches(c, d, sys.minted, sys.calls, i, next);
  }

  lemma RefetchKeepsRegistry(sys: System, i: CallId, env: Env)
    requires RegistryOk(sys) && i in sys.calls && sys.calls[i].Refetching?
    ensures RegistryOk(StepCall(sys, i, env))
  {
    var p := Advance(sys.store, sys.calls[i], env);
    assert RefetchOk(sys.store.config, sys.minted, sys.calls[i]);
    RefetchStep(sys, i, env);
    StoredConfig(sys.store, sys.minted, sys.calls[i], env.commits);
    StoringKeepsRegistry(sys, i, p.state.config, p.call);
  }

  lemma OnlyResolvingRefetches(s: State, call: Call, env: Env)
    requires Advance(s, call, env).call.Refetching?
    ensures call.IssuerKnown? && !call.request.AuthenticateRequest?
    ensures Advance(s, call, env).call == ResolveClient(s, call.request, call.issuer, env)
  {
  }

  lemma ResolvingStep(sys: System, i: CallId, env: Env)
    requires i in sys.calls && Advance(sys.store, sys.calls[i], env).call.Refetching?
    ensures var after, next := StepCall(sys, i, env), Advance(sys.store, sys.calls[i], env).call;
      || after == sys
      || (&& Unminted(sys.minted, {env.clientRecordId})
          && after == sys.(calls := sys.calls[i := next], minted := sys.minted + {env.clientRecordId}))
  {
    OnlyResolvingRefetches(sys.store, sys.calls[i], env);
  }

  lemma QuietStep(sys: System, i: CallId, env: Env)
    requires i in sys.calls && !Advance(sys.store, sys.calls[i], env).call.Refetching?
    ensures var after, next := StepCall(sys, i, env), Advance(sys.store, sys.calls[i], env).call;
      after == sys || (after.calls == sys.calls[i := next] && sys.minted <= after.minted)
  {
  }

  lemma ResolvingKeepsRegistry(sys: System, i: CallId, env: Env)
    requires RegistryOk(sys) && i in sys.calls && Advance(sys.store, sys.calls[i], env).call.Refetching?
    ensures RegistryOk(StepCall(sys, i, env))
  {
    ResolvingStep(sys, i, env);
    OnlyResolvingRefetches(sys.store, sys.calls[i], env);
    if StepCall(sys, i, env) != sys {
      assert env.clientRecordId in {env.clientRecordId};
      RefetchBegins(sys, i, env);
    }
  }

  lemma QuietKeepsRegistry(sys: System, i: CallId, env: Env)
    requires Inv(sys) && RegistryOk(sys) && i in sys.calls && !sys.calls[i].Refetching?
    requires !Advance(sys.store, sys.calls[i], env).call.Refetching?
    ensures RegistryOk(StepCall(sys, i, env))
  {
    CallStepIndexed(sys, i, env);
    QuietStep(sys, i, env);
    var after, next := StepCall(sys, i, env), Advance(sys.store, sys.calls[i], env).call;
    if after != sys {
      QuietKeepsRefetches(sys.store.config, sys.minted, after.minted, sys.calls, i, next);
    }
  }

  lemma OtherStepKeepsRegistry(sys: System, i: CallId, env: Env)
    requires Inv(sys) && RegistryOk(sys) && i in sys.calls && !sys.calls[i].Refetching?
    ensures RegistryOk(StepCall(sys, i, env))
  {
    if Advance(sys.store, sys.calls[i], env).call.Refetching? {
      ResolvingKeepsRegistry(sys, i, env);
    } else {
      QuietKeepsRegistry(sys, i, env);
    }
  }

  lemma ApplyKeepsRegistry(sys: System, e: Event)
    requires Inv(sys) && RegistryOk(sys)
    ensures RegistryOk(Apply(sys, e))
  {
    match e
    case AdminEvent(op, commits) => AdminKeepsRegistry(sys, op, commits);
    case ConsentEvent(consent, commits) => ConsentIndexed(sys.store, consent, commits);
    case StartEvent(i, request) =>
      if i !in sys.calls {
        QuietKeepsRefetches(sys.store.config, sys.minted, sys.minted, sys.calls, i, Begun(request));
      }
    case StepEvent(i, env) =>
      if i in sys.calls {
        if sys.calls[i].Refetching? {
          RefetchKeepsRegistry(sys, i, env);
        } else {
          OtherStepKeepsRegistry(sys, i, env);
        }
      }
  }

  lemma {:induction false} RunKeepsRegistry(sys: System, events: seq<Event>)
    requires Inv(sys) && RegistryOk(sys)
    ensures RegistryOk(Run(sys, events))
    decreases |events|
  {
    if events != [] {
      ApplyKeepsRegistry(sys, events[0]);
      ApplyKeepsInv(sys, events[0]);
      RunKeepsRegistry(Apply(sys, events[0]), events[1..]);
    }
  }

  // ----- theorems -----

  lemma InitialRegistry()
    ensures RegistryOk(INITIAL)
  {
  }

  lemma ReachableRegistry(sys: System)
    requires Reachable(sys)
    ensures Inv(sys) && RegistryOk(sys)
  {
    var events: seq<Event> :| sys == Run(INITIAL, events);
    InitialInv();
    InitialRegistry();
    RunKeepsInv(INITIAL, events);
    RunKeepsRegistry(INITIAL, events);
  }

  /** In every reachable state all eight indexes are exact inverses of their record maps,
      and every client record sits under its own identifier. */
  lemma ReachableIndexed(sys: System)
    requires Reachable(sys)
    ensures Indexed(sys.store) && Numbered(sys.store.config, sys.minted)
  {
    ReachableRegistry(sys);
  }

  /** A client_id is resolved to a record exactly if that is the record registered for it
      under the issuer, and there is only one. */
  lemma ClientLookupIsSearch(sys: System, issuerId: Id, clientId: string, r: Client)
    requires Reachable(sys)
    ensures ClientByClientId(sys.store.config, issuerId, clientId) == Some(r) <==>
      && r.id in sys.store.config.clients && sys.store.config.clients[r.id] == r
      && r.issuerId == issuerId && r.clientId == clientId
  {
    var c := sys.store.config;
    ReachableIndexed(sys);
    FoundIff(c.clients, c.clientKeys, KeyOf, ClientKey(issuerId, clientId), r);
    if ClientByClientId(c, issuerId, clientId) == Some(r) {
      FoundIsSameClient(c, issuerId, clientId, r);
    }
  }

  ghost predicate Holds<R(!new)>(records: map<Id, R>, r: R) {
    exists id :: id in records && records[id] == r
  }

  /** An issuer is found by URL exactly if it is the stored one with that URL. */
  lemma IssuerLookupIsSearch(sys: System, url: string, r: Issuer)
    requires Reachable(sys)
    ensures IssuerByUrl(sys.store.config, url) == Some(r) <==> Holds(sys.store.config.issuers, r) && r.url == url
  {
    var c := sys.store.config;
    ReachableIndexed(sys);
    FoundIff(c.issuers, c.issuerUrls, UrlOf, url, r);
  }

  /** Codes and tokens are found by prefix exactly if they are the stored ones with it. */
  lemma PrefixLookupsAreSearches(sys: System, prefix: string, code: Code, access: AccessToken, refresh: RefreshToken)
    requires Reachable(sys)
    ensures var v := sys.store.vault;
      && (CodeByPrefix(v, prefix) == Some(code) <==> Holds(v.codes, code) && code.prefix == prefix)
      && (AccessByPrefix(v, prefix) == Some(access) <==> Holds(v.access, access) && access.prefix == prefix)
      && (RefreshByPrefix(v, prefix) == Some(refresh) <==> Holds(v.refresh, refresh) && refresh.prefix == prefix)
  {
    var v := sys.store.vault;
    ReachableIndexed(sys);
    FoundIff(v.codes, v.codeKeys, CodePrefix, prefix, code);
    FoundIff(v.access, v.accessKeys, AccessPrefix, prefix, access);
    FoundIff(v.refresh, v.refreshKeys, RefreshPrefix, prefix, refresh);
  }

  /** So are resources by URI, and initial and client-credentials tokens by prefix. */
  lemma ConfigLookupsAreSearches(sys: System, key: string, resource: Resource, initial: InitialToken, token: ClientToken)
    requires Reachable(sys)
    ensures var c := sys.store.config;
      && (Lookup(c.resources, c.resourceUris, key) == Some(resource) <==> Holds(c.resources, resource) && resource.uri == key)
      && (Lookup(c.initialTokens, c.initialKeys, key) == Some(initial) <==>
            Holds(c.initialTokens, initial) && initial.prefix == key)
      && (Lookup(c.clientTokens, c.clientTokenKeys, key) == Some(token) <==>
            Holds(c.clientTokens, token) && token.prefix == key)
  {
    var c := sys.store.config;
    ReachableIndexed(sys);
    FoundIff(c.resources, c.resourceUris, UriOf, key, resource);
    FoundIff(c.initialTokens, c.initialKeys, InitialPrefix, key, initial);
    FoundIff(c.clientTokens, c.clientTokenKeys, ClientTokenPrefix, key, token);
  }

  // ----- a record keeps its client for good -----

  predicate Keeps(c: Config, d: Config, id: Id) {
    id in c.clients ==> id in d.clients && SameClient(c.clients[id], d.clients[id])
  }

  lemma ConfigUntouched(s: State, call: Call, env: Env)
    requires !call.Refetching?
    ensures Advance(s, call, env).state.config == s.config
  {
  }

  lemma StepKeepsClient(sys: System, i: CallId, env: Env, id: Id)
    requires i in sys.calls && RefetchOk(sys.store.config, sys.minted, sys.calls[i]) && Numbered(sys.store.config, sys.minted)
    ensures Keeps(sys.store.config, StepCall(sys, i, env).store.config, id)
  {
    if sys.calls[i].Refetching? {
      RefetchStep(sys, i, env);
      UpsertEvolves(sys.store, sys.calls[i].client, env.commits);
    } else {
      ConfigUntouched(sys.store, sys.calls[i], env);
    }
  }

  lemma AdminKeepsClient(sys: System, op: AdminOp, commits: bool, id: Id)
    ensures Keeps(sys.store.config, Apply(sys, AdminEvent(op, commits)).store.config, id)
  {
    AdminEvolves(sys.store, op, commits);
  }

  lemma ApplyKeepsClient(sys: System, e: Event, id: Id)
    requires RefetchesOk(sys.store.config, sys.minted, sys.calls) && Numbered(sys.store.config, sys.minted)
    ensures Keeps(sys.store.config, Apply(sys, e).store.config, id)
  {
    match e
    case AdminEvent(op, commits) => AdminKeepsClient(sys, op, commits, id);
    case StepEvent(i, env) => if i in sys.calls { StepKeepsClient(sys, i, env, id); }
    case _ =>
  }

  lemma {:induction false} RunKeepsClient(sys: System, events: seq<Event>, id: Id)
    requires Inv(sys) && RegistryOk(sys)
    ensures Keeps(sys.store.config, Run(sys, events).store.config, id)
    decreases |events|
  {
    if events != [] {
      ApplyKeepsClient(sys, events[0], id);
      ApplyKeepsRegistry(sys, events[0]);
      ApplyKeepsInv(sys, events[0]);
      RunKeepsClient(Apply(sys, events[0]), events[1..], id);
    }
  }

  /** From every reachable state on, a client record keeps its issuer and client_id, whatever
      registrations and refetches interleave. */
  lemma ClientKeepsIdentity(sys: System, events: seq<Event>, id: Id)
    requires Reachable(sys) && id in sys.store.config.clients
    ensures var d := Run(sys, events).store.config;
      id in d.clients && SameClient(sys.store.config.clients[id], d.clients[id])
  {
    ReachableRegistry(sys);
    RunKeepsClient(sys, events, id);
  }
}
