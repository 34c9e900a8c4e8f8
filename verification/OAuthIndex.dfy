/** Every lookup index of the OAuth store is an exact inverse of its record map. */
module OAuthIndex {
  import opened Common
  import opened Uuid
  import opened OAuthRecords
  import opened OAuthSpec
  import opened OAuthProtocol
  import opened OAuthInvariant
  import opened OAuthPreservation

  // ----- one index -----

  /** Each record is found under its key, and each key leads to a record bearing it. */
  ghost predicate Exact<R(!new)>(records: map<Id, R>, keys: map<string, Id>, key: R -> string) {
    && (forall id :: id in records ==> key(records[id]) in keys && keys[key(records[id])] == id)
    && (forall k :: k in keys ==> keys[k] in records && key(records[keys[k]]) == k)
  }

  function Lookup<R>(records: map<Id, R>, keys: map<string, Id>, k: string): Option<R> {
    if k in keys && keys[k] in records then Some(records[keys[k]]) else None
  }

  /** Looking a key up is a linear search over the records: a record is found exactly
      when one bears the key, and it is the only one. */
  lemma LookupIsSearch<R(!new)>(records: map<Id, R>, keys: map<string, Id>, key: R -> string, k: string)
    requires Exact(records, keys, key)
    ensures Lookup(records, keys, k).Some? <==> exists id :: id in records && key(records[id]) == k
    ensures forall id :: id in records && key(records[id]) == k ==> Lookup(records, keys, k) == Some(records[id])
  {
  }

  /** The same, record by record: what a lookup returns, and only that, is a record bearing
      the key. */
  lemma FoundIff<R(!new)>(records: map<Id, R>, keys: map<string, Id>, key: R -> string, k: string, r: R)
    requires Exact(records, keys, key)
    ensures Lookup(records, keys, k) == Some(r) <==> exists id :: id in records && records[id] == r && key(r) == k
  {
    LookupIsSearch(records, keys, key, k);
  }

  /** Inserting a record under an unused key keeps the index exact if and only if its
      identifier is new: an identifier already in use would leave a stale key behind. */
  lemma InsertKeepsExactIff<R(!new)>(records: map<Id, R>, keys: map<string, Id>, key: R -> string, id: Id, r: R)
    requires Exact(records, keys, key) && key(r) !in keys
    ensures Exact(records[id := r], keys[key(r) := id], key) <==> id !in records
  {
    if id in records {
      var stale := key(records[id]);
      assert stale in keys && keys[key(r) := id][stale] == id;
    }
  }

  /** Replacing or inserting a record keeps the index exact if and only if a record
      already under that identifier bears the same key. */
  lemma UpsertKeepsExactIff<R(!new)>(records: map<Id, R>, keys: map<string, Id>, key: R -> string, id: Id, r: R)
    requires Exact(records, keys, key) && (key(r) in keys ==> keys[key(r)] == id)
    ensures Exact(records[id := r], keys[key(r) := id], key) <==> (id in records ==> key(records[id]) == key(r))
  {
    if id in records && key(records[id]) != key(r) {
      var stale := key(records[id]);
      assert stale in keys && keys[key(r) := id][stale] == id;
    }
  }

  /** Changing records without changing any key keeps the index exact. */
  lemma RestampKeepsExact<R(!new)>(records: map<Id, R>, records': map<Id, R>, keys: map<string, Id>, key: R -> string)
    requires Exact(records, keys, key) && records'.Keys == records.Keys
    requires forall id :: id in records ==> key(records'[id]) == key(records[id])
    ensures Exact(records', keys, key)
  {
  }

  lemma UpdateKeepsExact<R(!new)>(records: map<Id, R>, keys: map<string, Id>, key: R -> string, id: Id, r: R)
    requires Exact(records, keys, key) && id in records && key(r) == key(records[id])
    ensures Exact(records[id := r], keys, key)
  {
  }

  // ----- all of them -----

  function UrlOf(i: Issuer): string { i.url }
  function UriOf(r: Resource): string { r.uri }
  function KeyOf(c: Client): string { ClientKey(c.issuerId, c.clientId) }
  function InitialPrefix(t: InitialToken): string { t.prefix }
  function ClientTokenPrefix(t: ClientToken): string { t.prefix }
  function CodePrefix(c: Code): string { c.prefix }
  function AccessPrefix(t: AccessToken): string { t.prefix }
  function RefreshPrefix(t: RefreshToken): string { t.prefix }

  ghost predicate ConfigIndexed(c: Config) {
    && Exact(c.issuers, c.issuerUrls, UrlOf)
    && Exact(c.resources, c.resourceUris, UriOf)
    && Exact(c.clients, c.clientKeys, KeyOf)
    && Exact(c.initialTokens, c.initialKeys, InitialPrefix)
    && Exact(c.clientTokens, c.clientTokenKeys, ClientTokenPrefix)
  }

  ghost predicate VaultIndexed(v: Vault) {
    && Exact(v.codes, v.codeKeys, CodePrefix)
    && Exact(v.access, v.accessKeys, AccessPrefix)
    && Exact(v.refresh, v.refreshKeys, RefreshPrefix)
  }

  ghost predicate Indexed(s: State) {
    ConfigIndexed(s.config) && VaultIndexed(s.vault)
  }

  // ----- configuration steps -----

  lemma IssuerStepIndexed(s: State, op: AdminOp, commits: bool)
    requires ConfigIndexed(s.config) && (op.CreateIssuerOp? || op.UpdateIssuerOp? || op.SetIssuerDisabledOp?)
    ensures ConfigIndexed(Administer(s, op, commits).config)
  {
    var c, d := s.config, Administer(s, op, commits).config;
    if d != c {
      match op
      case CreateIssuerOp(issuer) => InsertKeepsExactIff(c.issuers, c.issuerUrls, UrlOf, issuer.id, issuer);
      case UpdateIssuerOp(_) => RestampKeepsExact(c.issuers, d.issuers, c.issuerUrls, UrlOf);
      case SetIssuerDisabledOp(_, _, _) => RestampKeepsExact(c.issuers, d.issuers, c.issuerUrls, UrlOf);
    }
  }

  lemma ResourceStepIndexed(s: State, op: AdminOp, commits: bool)
    requires ConfigIndexed(s.config) && (op.CreateResourceOp? || op.SetResourceDisabledOp?)
    ensures ConfigIndexed(Administer(s, op, commits).config)
  {
    var c, d := s.config, Administer(s, op, commits).config;
    if d != c {
      match op
      case CreateResourceOp(resource) => InsertKeepsExactIff(c.resources, c.resourceUris, UriOf, resource.id, resource);
      case SetResourceDisabledOp(_, _, _) => RestampKeepsExact(c.resources, d.resources, c.resourceUris, UriOf);
    }
  }

  lemma CreateClientShape(s: State, client: Client, initialId: Id, usedAt: Time, commits: bool)
    ensures var c, d := s.config, CreateClient(s, client, initialId, usedAt, commits).state.config;
      d != c ==>
        && client.id !in c.clients && KeyOf(client) !in c.clientKeys
        && d == c.(clients := c.clients[client.id := client], clientKeys := c.clientKeys[KeyOf(client) := client.id],
                   initialTokens := d.initialTokens)
        && d.initialTokens.Keys == c.initialTokens.Keys
        && (forall id :: id in c.initialTokens ==> d.initialTokens[id].prefix == c.initialTokens[id].prefix)
  {
  }

  lemma ClientAddedIndexed(c: Config, client: Client, tokens: map<Id, InitialToken>)
    requires ConfigIndexed(c) && client.id !in c.clients && KeyOf(client) !in c.clientKeys
    requires tokens.Keys == c.initialTokens.Keys
    requires forall id :: id in c.initialTokens ==> tokens[id].prefix == c.initialTokens[id].prefix
    ensures ConfigIndexed(c.(clients := c.clients[client.id := client],
                             clientKeys := c.clientKeys[KeyOf(client) := client.id], initialTokens := tokens))
  {
    InsertKeepsExactIff(c.clients, c.clientKeys, KeyOf, client.id, client);
    RestampKeepsExact(c.initialTokens, tokens, c.initialKeys, InitialPrefix);
  }

  lemma CreateClientIndexed(s: State, client: Client, initialId: Id, usedAt: Time, commits: bool)
    requires ConfigIndexed(s.config)
    ensures ConfigIndexed(CreateClient(s, client, initialId, usedAt, commits).state.config)
  {
    var c, d := s.config, CreateClient(s, client, initialId, usedAt, commits).state.config;
    CreateClientShape(s, client, initialId, usedAt, commits);
    if d != c {
      ClientAddedIndexed(c, client, d.initialTokens);
    }
  }

  lemma UpsertShape(s: State, client: Client, commits: bool)
    ensures var a := UpsertCimdClient(s, client, commits);
      if a.reply.Ok? then
        && (KeyOf(client) in s.config.clientKeys ==> s.config.clientKeys[KeyOf(client)] == client.id)
        && a.state == s.(config := s.config.(clients := s.config.clients[client.id := client],
                                             clientKeys := s.config.clientKeys[KeyOf(client) := client.id]))
      else a.state == s
  {
  }

  lemma UpsertedIndexedIff(c: Config, client: Client)
    requires ConfigIndexed(c) && (KeyOf(client) in c.clientKeys ==> c.clientKeys[KeyOf(client)] == client.id)
    ensures ConfigIndexed(c.(clients := c.clients[client.id := client],
                             clientKeys := c.clientKeys[KeyOf(client) := client.id])) <==>
      (client.id in c.clients ==> KeyOf(c.clients[client.id]) == KeyOf(client))
  {
    UpsertKeepsExactIff(c.clients, c.clientKeys, KeyOf, client.id, client);
  }

  /** The store does not look at the client_id of the record an upsert replaces: a committed
      upsert keeps the indexes exact if and only if that client_id is kept. */
  lemma UpsertClientIndexedIff(s: State, client: Client, commits: bool)
    requires ConfigIndexed(s.config)
    ensures var a := UpsertCimdClient(s, client, commits);
      ConfigIndexed(a.state.config) <==>
        (a.reply.Ok? && client.id in s.config.clients ==> KeyOf(s.config.clients[client.id]) == KeyOf(client))
  {
    UpsertShape(s, client, commits);
    if UpsertCimdClient(s, client, commits).reply.Ok? {
      UpsertedIndexedIff(s.config, client);
    }
  }

  lemma ClientStepShape(s: State, op: AdminOp, commits: bool)
    requires op.RotateClientOp? || op.SetClientDisabledOp?
    ensures var c, d := s.config, Administer(s, op, commits).config;
      d != c ==>
        && op.id in c.clients && op.id in d.clients && d == c.(clients := c.clients[op.id := d.clients[op.id]])
        && KeyOf(d.clients[op.id]) == KeyOf(c.clients[op.id])
  {
  }

  lemma ClientStepIndexed(s: State, op: AdminOp, commits: bool)
    requires ConfigIndexed(s.config) && (op.RotateClientOp? || op.SetClientDisabledOp?)
    ensures ConfigIndexed(Administer(s, op, commits).config)
  {
    var c, d := s.config, Administer(s, op, commits).config;
    ClientStepShape(s, op, commits);
    if d != c {
      UpdateKeepsExact(c.clients, c.clientKeys, KeyOf, op.id, d.clients[op.id]);
    }
  }

  lemma MachineTokenStepIndexed(s: State, op: AdminOp, commits: bool)
    requires ConfigIndexed(s.config) && (op.CreateClientTokenOp? ==> op.clientToken.id !in s.config.clientTokens)
    requires op.CreateInitialTokenOp? || op.RevokeInitialTokenOp? || op.CreateClientTokenOp? || op.RevokeClientTokenOp?
    ensures ConfigIndexed(Administer(s, op, commits).config)
  {
    var c, d := s.config, Administer(s, op, commits).config;
    if d != c {
      match op
      case CreateInitialTokenOp(t) =>
        InsertKeepsExactIff(c.initialTokens, c.initialKeys, InitialPrefix, t.id, t.(registrations := 0));
      case RevokeInitialTokenOp(_, _) =>
        RestampKeepsExact(c.initialTokens, d.initialTokens, c.initialKeys, InitialPrefix);
      case CreateClientTokenOp(t) =>
        InsertKeepsExactIff(c.clientTokens, c.clientTokenKeys, ClientTokenPrefix, t.id, t);
      case RevokeClientTokenOp(_, _) =>
        RestampKeepsExact(c.clientTokens, d.clientTokens, c.clientTokenKeys, ClientTokenPrefix);
    }
  }

  lemma AdminStepIndexed(s: State, op: AdminOp, commits: bool)
    requires ConfigIndexed(s.config) && (op.CreateClientTokenOp? ==> op.clientToken.id !in s.config.clientTokens)
    ensures ConfigIndexed(Administer(s, op, commits).config)
  {
    if op.CreateIssuerOp? || op.UpdateIssuerOp? || op.SetIssuerDisabledOp? {
      IssuerStepIndexed(s, op, commits);
    } else if op.CreateResourceOp? || op.SetResourceDisabledOp? {
      ResourceStepIndexed(s, op, commits);
    } else if op.CreateClientOp? {
      CreateClientIndexed(s, op.client, op.initialId, op.at, commits);
    } else if op.RotateClientOp? || op.SetClientDisabledOp? {
      ClientStepIndexed(s, op, commits);
    } else if op.CreateInitialTokenOp? || op.RevokeInitialTokenOp? || op.CreateClientTokenOp? || op.RevokeClientTokenOp? {
      MachineTokenStepIndexed(s, op, commits);
    }
  }

  // ----- vault steps -----

  lemma RevokingIndexed(v: Vault, w: Vault)
    requires VaultIndexed(v) && OnlyRevokes(v, w)
    ensures VaultIndexed(w)
  {
    RestampKeepsExact(v.access, w.access, v.accessKeys, AccessPrefix);
    RestampKeepsExact(v.refresh, w.refresh, v.refreshKeys, RefreshPrefix);
  }

  lemma ConsentIndexed(s: State, consent: Consent, commits: bool)
    requires VaultIndexed(s.vault)
    ensures VaultIndexed(CreateGrantAndCode(s, consent.Grant(), consent.Code(), commits).state.vault)
  {
    var v := s.vault;
    if consent.Code().prefix !in v.codeKeys {
      InsertKeepsExactIff(v.codes, v.codeKeys, CodePrefix, consent.Code().id, consent.Code());
    }
  }

  /** The store checks a new token's prefix only; the minted identifier does the rest. */
  lemma AddAccessIndexed(v: Vault, access: AccessToken)
    requires VaultIndexed(v) && access.prefix !in v.accessKeys
    ensures VaultIndexed(AddAccess(v, access)) <==> access.id !in v.access
  {
    InsertKeepsExactIff(v.access, v.accessKeys, AccessPrefix, access.id, access);
  }

  lemma AddRefreshIndexed(v: Vault, refresh: RefreshToken)
    requires VaultIndexed(v) && refresh.prefix !in v.refreshKeys
    ensures VaultIndexed(AddRefresh(v, refresh)) <==> refresh.id !in v.refresh
  {
    InsertKeepsExactIff(v.refresh, v.refreshKeys, RefreshPrefix, refresh.id, refresh);
  }

  lemma ConsumeCodeIndexed(s: State, codeId: Id, at: Time, access: AccessToken, refresh: Option<RefreshToken>, commits: bool)
    requires VaultIndexed(s.vault) && Unstored(s.vault, access, refresh)
    ensures VaultIndexed(ConsumeCode(s, codeId, at, access, refresh, commits).state.vault)
  {
    var v := s.vault;
    if CheckConsumeCode(v, codeId, at, access, refresh).Ok? {
      var spent := v.(codes := v.codes[codeId := v.codes[codeId].(usedAt := Some(at))]);
      RestampKeepsExact(v.codes, spent.codes, v.codeKeys, CodePrefix);
      AddAccessIndexed(spent, access);
      if refresh.Some? {
        AddRefreshIndexed(AddAccess(spent, access), refresh.value);
      }
    }
  }

  lemma RotateRefreshIndexed(s: State, previousId: Id, at: Time, access: AccessToken, refresh: RefreshToken, commits: bool)
    requires VaultIndexed(s.vault) && Unstored(s.vault, access, Some(refresh))
    ensures VaultIndexed(RotateRefresh(s, previousId, at, access, refresh, commits).state.vault)
  {
    var v := s.vault;
    if CheckRotate(v, previousId, at, access, refresh).Ok? {
      var spent := v.(refresh := v.refresh[previousId :=
        v.refresh[previousId].(usedAt := Some(at), replacedById := refresh.id)]);
      RestampKeepsExact(v.refresh, spent.refresh, v.refreshKeys, RefreshPrefix);
      AddAccessIndexed(spent, access);
      AddRefreshIndexed(AddAccess(spent, access), refresh);
    }
  }

  lemma CommitIndexed(s: State, call: Call, env: Env)
    requires call.Minted? && VaultIndexed(s.vault) && Unstored(s.vault, call.access, call.refresh)
    ensures VaultIndexed(Commit(s, call, env).state.vault) && Commit(s, call, env).state.config == s.config
  {
    match call.job
    case Exchange(_, _, _, code) => ConsumeCodeIndexed(s, code.id, env.now, call.access, call.refresh, env.commits);
    case Refresh(_, _, _, previous, _) =>
      if call.refresh.Some? {
        RotateRefreshIndexed(s, previous.id, env.now, call.access, call.refresh.value, env.commits);
      }
    case Authenticate(_, _, _) =>
  }

  lemma StillStep(s: State, call: Call, env: Env)
    requires !call.Minted? && !Revokes(call) && !call.Refetching?
    ensures Advance(s, call, env).state == s
  {
  }

  lemma CallStepIndexed(sys: System, c: CallId, env: Env)
    requires Inv(sys) && Indexed(sys.store) && c in sys.calls && !sys.calls[c].Refetching?
    ensures Indexed(StepCall(sys, c, env).store) && StepCall(sys, c, env).store.config == sys.store.config
  {
    var call := sys.calls[c];
    if call.Minted? {
      DraftUnstored(sys.store.vault, call, sys.minted);
      CommitIndexed(sys.store, call, env);
      CommitStep(sys, c, env);
    } else if Revokes(call) {
      RevokeStep(sys, c, env);
      if StepCall(sys, c, env).store.vault != sys.store.vault {
        RevokingIndexed(sys.store.vault, StepCall(sys, c, env).store.vault);
      }
    } else {
      StillStep(sys.store, call, env);
    }
  }

  lemma AdminIndexed(sys: System, op: AdminOp, commits: bool)
    requires Inv(sys) && Indexed(sys.store)
    requires op.CreateClientTokenOp? ==> op.clientToken.id !in sys.store.config.clientTokens
    ensures Indexed(Administer(sys.store, op, commits))
  {
    AdminStepIndexed(sys.store, op, commits);
    AdminOnlyRevokes(sys.store, op, commits, sys.minted);
    if Administer(sys.store, op, commits).vault != sys.store.vault {
      RevokingIndexed(sys.store.vault, Administer(sys.store, op, commits).vault);
    }
  }
}
