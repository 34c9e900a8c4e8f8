/** The token endpoint, the bearer check and the administrative operations as one
    interleaved system. Every manager call is a sequence of separate store reads
    and writes with a program counter between them, so any number of other steps
    may run in between. Each event is one atomic store access. */
module OAuthProtocol {
  import opened Common
  import opened Uuid
  import opened OAuthRecords
  import opened OAuthSpec

  type CallId = nat

  /** A presented bearer: the lookup prefix it parses to and its digest. */
  datatype Bearer = Bearer(prefix: string, digest: Digest)

  /** The resource parameter: absent, not a valid URL, or normalised. */
  datatype Audience = AnyResource | MalformedResource | Named(uri: string)

  /** The scope parameter of a refresh: absent, malformed, or normalised. */
  datatype Narrowing = KeepScopes | MalformedScopes | Narrow(scopes: Scopes)

  /** A call and its parameters. A ResolveRequest stands for an authorization request, as
      far as it resolves its client: what else it validates is not written to the store. */
  datatype Request =
    | ExchangeRequest(issuerUrl: string, clientId: string, bearer: Option<Bearer>, redirectUri: string,
                      challenge: string, audience: Audience)
    | RefreshRequest(issuerUrl: string, clientId: string, bearer: Option<Bearer>, narrowing: Narrowing,
                     audience: Audience)
    | RevokeAccessRequest(issuerUrl: string, clientId: string, bearer: Option<Bearer>)
    | RevokeRefreshRequest(issuerUrl: string, clientId: string, bearer: Option<Bearer>)
    | ResolveRequest(issuerUrl: string, clientId: string)
    | AuthenticateRequest(bearer: Option<Bearer>, audience: Audience)

  /** What a call is validating a grant for, with the records it has read so far. */
  datatype Job =
    | Exchange(issuer: Issuer, client: Client, audience: Audience, code: Code)
    | Refresh(issuer: Issuer, client: Client, audience: Audience, previous: RefreshToken, narrowing: Narrowing)
    | Authenticate(client: Client, audience: Audience, token: AccessToken)
  {
    function GrantId(): Id {
      match this
      case Exchange(_, _, _, code) => code.grantId
      case Refresh(_, _, _, previous, _) => previous.grantId
      case Authenticate(_, _, token) => token.grantId
    }
  }

  datatype CallError = InvalidCredentials | Expired | InvalidInput | StoreFailure(error: StoreError) | NotAUserToken

  /** A manager call and where it stands. The records it carries are copies taken
      when it read them; the store may have moved on since. */
  datatype Call =
    | Begun(request: Request)
    | IssuerKnown(request: Request, issuer: Issuer)
    | Refetching(request: Request, issuer: Issuer, client: Client)
    | ClientKnown(request: Request, issuer: Issuer, client: Client)
    | TokenRead(token: AccessToken, audience: Audience)
    | Presented(job: Job)
    | GrantChecked(job: Job, grant: Grant)
    | ResourceChecked(job: Job, grant: Grant, resource: Resource)
    | IssuerChecked(job: Job, grant: Grant, resource: Resource)
    | Minted(job: Job, grant: Grant, access: AccessToken, refresh: Option<RefreshToken>)
    | CodeReplayed(grantId: Id)
    | RevokingGrant(grantId: Id)
    | RevokingFamily(familyId: Id, reuse: bool)
    | RevokingAccess(tokenId: Id)
    | Issued(access: AccessToken, refresh: Option<RefreshToken>)
    | Authenticated(token: AccessToken, grant: Grant)
    | Resolved(client: Client)
    | Revoked
    | Failed(error: CallError)

  /** Everything a step takes from outside the store: the clock, newly minted
      identifiers and bearers, the client's proof of possession, whether a cached client
      metadata document is stale and the document fetched in its place, the account,
      workspace and permission checks, whether the commit goes through, and whether a
      failing one reports a conflict. */
  datatype Env = Env(now: Time, accessId: Id, refreshId: Id, familyId: Id, clientRecordId: Id,
                     accessBearer: Bearer, refreshBearer: Bearer, proven: bool, stale: bool, document: Option<Client>,
                     permitted: bool, commits: bool, conflicts: bool)

  datatype Progress = Progress(state: State, call: Call)

  // ----- reads -----

  function IssuerByUrl(c: Config, url: string): Option<Issuer> {
    if url in c.issuerUrls && c.issuerUrls[url] in c.issuers then Some(c.issuers[c.issuerUrls[url]]) else None
  }

  function ClientByClientId(c: Config, issuerId: Id, clientId: string): Option<Client> {
    var key := ClientKey(issuerId, clientId);
    if key in c.clientKeys && c.clientKeys[key] in c.clients then Some(c.clients[c.clientKeys[key]]) else None
  }

  function CodeByPrefix(v: Vault, prefix: string): Option<Code> {
    if prefix in v.codeKeys && v.codeKeys[prefix] in v.codes then Some(v.codes[v.codeKeys[prefix]]) else None
  }

  function AccessByPrefix(v: Vault, prefix: string): Option<AccessToken> {
    if prefix in v.accessKeys && v.accessKeys[prefix] in v.access then Some(v.access[v.accessKeys[prefix]]) else None
  }

  function RefreshByPrefix(v: Vault, prefix: string): Option<RefreshToken> {
    if prefix in v.refreshKeys && v.refreshKeys[prefix] in v.refresh then Some(v.refresh[v.refreshKeys[prefix]]) else None
  }

  /** A presented code of this client, with the digest of the raw code. */
  function PresentedCode(v: Vault, client: Client, bearer: Option<Bearer>): Option<Code> {
    if bearer.None? then None
    else
      var code := CodeByPrefix(v, bearer.value.prefix);
      if code.Some? && code.value.clientRecordId == client.id && code.value.digest == bearer.value.digest then code else None
  }

  function PresentedAccess(v: Vault, client: Client, bearer: Option<Bearer>): Option<AccessToken> {
    if bearer.None? then None
    else
      var token := AccessByPrefix(v, bearer.value.prefix);
      if token.Some? && token.value.clientRecordId == client.id && token.value.digest == bearer.value.digest then token else None
  }

  function PresentedRefresh(v: Vault, client: Client, bearer: Option<Bearer>): Option<RefreshToken> {
    if bearer.None? then None
    else
      var token := RefreshByPrefix(v, bearer.value.prefix);
      if token.Some? && token.value.clientRecordId == client.id && token.value.digest == bearer.value.digest then token else None
  }

  // ----- the calls, one store access at a time -----

  /** First read: the issuer, or the access token of a bearer check. */
  function Begin(s: State, request: Request, env: Env): Call {
    if request.AuthenticateRequest? then
      if request.bearer.None? then Failed(InvalidCredentials)
      else
        var token := AccessByPrefix(s.vault, request.bearer.value.prefix);
        if token.None? then Failed(NotAUserToken)
        else if token.value.revokedAt.Some? || env.now >= token.value.expiresAt ||
                token.value.digest != request.bearer.value.digest then Failed(InvalidCredentials)
        else TokenRead(token.value, request.audience)
    else
      var issuer := IssuerByUrl(s.config, request.issuerUrl);
      if issuer.None? || issuer.value.disabledAt.Some? then Failed(InvalidCredentials)
      else IssuerKnown(request, issuer.value)
  }

  function AuthenticateClient(request: Request, issuer: Issuer, client: Client, env: Env): Call {
    if client.disabledAt.Some? || !env.proven then Failed(InvalidCredentials)
    else ClientKnown(request, issuer, client)
  }

  /** The record a fetched document resolves to: under the identifier of the record that was
      found for this client_id, or under a new one. */
  function Refetched(found: Option<Client>, issuer: Issuer, clientId: string, env: Env): Client
    requires env.document.Some?
  {
    env.document.value.(id := if found.Some? then found.value.id else env.clientRecordId, issuerId := issuer.id,
                        clientId := clientId, source := Cimd, disabledAt := None)
  }

  /** Second read: the client record. A record of a metadata document that is stale, or an
      unknown client_id, is replaced by a document fetched after the read. */
  function ResolveClient(s: State, request: Request, issuer: Issuer, env: Env): Call
    requires !request.AuthenticateRequest?
  {
    var found := ClientByClientId(s.config, issuer.id, request.clientId);
    if found.Some? && !(found.value.source.Cimd? && env.stale) then AuthenticateClient(request, issuer, found.value, env)
    else if env.document.None? then Failed(InvalidCredentials)
    else Refetching(request, issuer, Refetched(found, issuer, request.clientId, env))
  }

  /** The write of a refetch, some time after the read. */
  function StoreRefetched(s: State, request: Request, issuer: Issuer, client: Client, env: Env): Progress {
    var a := UpsertCimdClient(s, client, env.commits);
    Progress(a.state, if a.reply.Ok? then AuthenticateClient(request, issuer, client, env) else Failed(InvalidCredentials))
  }

  /** Third read: the presented code or token, with its own checks. */
  function Present(s: State, request: Request, issuer: Issuer, client: Client, env: Env): Call {
    match request
    case ExchangeRequest(_, _, bearer, redirectUri, challenge, audience) =>
      var code := PresentedCode(s.vault, client, bearer);
      if code.None? then Failed(InvalidCredentials)
      else if code.value.usedAt.Some? then CodeReplayed(code.value.grantId)
      else if code.value.redirectUri != redirectUri || env.now >= code.value.expiresAt ||
              code.value.challenge != challenge then Failed(InvalidCredentials)
      else Presented(Exchange(issuer, client, audience, code.value))
    case RefreshRequest(_, _, bearer, narrowing, audience) =>
      var previous := PresentedRefresh(s.vault, client, bearer);
      if previous.None? then Failed(InvalidCredentials)
      else if previous.value.usedAt.Some? || previous.value.revokedAt.Some? then
        RevokingFamily(previous.value.familyId, true)
      else if env.now >= previous.value.expiresAt then Failed(Expired)
      else Presented(Refresh(issuer, client, audience, previous.value, narrowing))
    case RevokeAccessRequest(_, _, bearer) =>
      var token := PresentedAccess(s.vault, client, bearer);
      if token.None? then Revoked else RevokingAccess(token.value.id)
    case RevokeRefreshRequest(_, _, bearer) =>
      var token := PresentedRefresh(s.vault, client, bearer);
      if token.None? then Revoked else RevokingFamily(token.value.familyId, false)
    case ResolveRequest(_, _) => Resolved(client)
    case AuthenticateRequest(_, _) => Failed(InvalidCredentials)
  }

  /** Fourth read: the grant itself, re-checked on every use. */
  function CheckGrant(s: State, job: Job): Call {
    var grants := s.vault.grants;
    if job.client.disabledAt.Some? then Failed(InvalidCredentials)
    else if job.GrantId() !in grants then Failed(InvalidCredentials)
    else
      var grant := grants[job.GrantId()];
      if grant.revokedAt.Some? || grant.clientRecordId != job.client.id ||
         grant.metadataHash != job.client.metadataHash then Failed(InvalidCredentials)
      else GrantChecked(job, grant)
  }

  function CheckResource(s: State, job: Job, grant: Grant): Call {
    var resources := s.config.resources;
    if grant.resourceId !in resources then Failed(InvalidCredentials)
    else
      var resource := resources[grant.resourceId];
      if resource.disabledAt.Some? || resource.workspaceId != grant.workspaceId then Failed(InvalidCredentials)
      else if job.audience.MalformedResource? || (job.audience.Named? && job.audience.uri != resource.uri) then
        Failed(InvalidCredentials)
      else ResourceChecked(job, grant, resource)
  }

  function CheckIssuer(s: State, job: Job, grant: Grant, resource: Resource): Call {
    var issuers := s.config.issuers;
    if grant.issuerId !in issuers then Failed(InvalidCredentials)
    else if issuers[grant.issuerId].disabledAt.Some? || issuers[grant.issuerId].id != resource.issuerId then
      Failed(InvalidCredentials)
    else IssuerChecked(job, grant, resource)
  }

  function NewAccessToken(grant: Grant, scopes: Scopes, ttl: Time, env: Env): AccessToken {
    AccessToken(env.accessId, env.accessBearer.prefix, env.accessBearer.digest, grant.id, grant.clientRecordId,
                grant.userId, grant.workspaceId, grant.resourceId, scopes, env.now + ttl, None)
  }

  function NewRefreshToken(grant: Grant, scopes: Scopes, familyId: Id, ttl: Time, env: Env): RefreshToken {
    RefreshToken(env.refreshId, familyId, env.refreshBearer.prefix, env.refreshBearer.digest, grant.id,
                 grant.clientRecordId, grant.userId, grant.workspaceId, grant.resourceId, scopes,
                 env.now + ttl, None, NO_ID, None)
  }

  /** After the account, workspace and permission checks: mint the tokens, or
      answer the bearer check. No store access. */
  function Conclude(job: Job, grant: Grant, resource: Resource, env: Env): Call {
    if !env.permitted then Failed(InvalidCredentials)
    else
      match job
      case Exchange(issuer, client, _, code) =>
        if resource.id != code.resourceId || grant.scopes != code.scopes then Failed(InvalidCredentials)
        else
          var access := NewAccessToken(grant, grant.scopes, issuer.accessTtl, env);
          if "offline_access" in grant.scopes && "refresh_token" in client.grantTypes then
            Minted(job, grant, access, Some(NewRefreshToken(grant, grant.scopes, env.familyId, issuer.refreshTtl, env)))
          else Minted(job, grant, access, None)
      case Refresh(issuer, _, _, previous, narrowing) =>
        if resource.id != previous.resourceId then Failed(InvalidCredentials)
        else if narrowing.MalformedScopes? then Failed(InvalidInput)
        else if narrowing.Narrow? && !Within(narrowing.scopes, previous.scopes) then Failed(InvalidInput)
        else
          var scopes := if narrowing.Narrow? then narrowing.scopes else previous.scopes;
          Minted(job, grant, NewAccessToken(grant, scopes, issuer.accessTtl, env),
                 Some(NewRefreshToken(grant, scopes, previous.familyId, issuer.refreshTtl, env)))
      case Authenticate(_, _, token) =>
        if token.resourceId != resource.id || token.userId != grant.userId ||
           token.workspaceId != grant.workspaceId || !Within(token.scopes, grant.scopes) then Failed(InvalidCredentials)
        else Authenticated(token, grant)
  }

  /** The one write of an exchange or a refresh. */
  function Commit(s: State, call: Call, env: Env): Progress
    requires call.Minted?
  {
    match call.job
    case Exchange(_, _, _, code) =>
      var a := ConsumeCode(s, code.id, env.now, call.access, call.refresh, env.commits);
      Progress(a.state,
               if a.reply.Ok? then Issued(call.access, call.refresh)
               else if a.reply.error.Conflict? then Failed(InvalidCredentials)
               else Failed(StoreFailure(a.reply.error)))
    case Refresh(_, _, _, previous, _) =>
      if call.refresh.None? then Progress(s, Failed(InvalidInput))
      else
        var a := RotateRefresh(s, previous.id, env.now, call.access, call.refresh.value, env.commits);
        Progress(a.state,
                 if a.reply.Ok? then Issued(call.access, call.refresh)
                 else if a.reply.error.Conflict? || (a.reply.error.CommitFailed? && env.conflicts) then
                   RevokingFamily(previous.familyId, true)
                 else Failed(StoreFailure(a.reply.error)))
    case Authenticate(_, _, _) => Progress(s, Failed(InvalidInput))
  }

  /** A replayed code: read the grant, and revoke it unless it already is. */
  function ReadReplayedGrant(s: State, grantId: Id): Call {
    if grantId !in s.vault.grants || s.vault.grants[grantId].revokedAt.Some? then Failed(InvalidCredentials)
    else RevokingGrant(grantId)
  }

  function Advance(s: State, call: Call, env: Env): Progress {
    match call
    case Begun(request) => Progress(s, Begin(s, request, env))
    case IssuerKnown(request, issuer) =>
      if request.AuthenticateRequest? then Progress(s, Failed(InvalidInput))
      else Progress(s, ResolveClient(s, request, issuer, env))
    case Refetching(request, issuer, client) => StoreRefetched(s, request, issuer, client, env)
    case ClientKnown(request, issuer, client) => Progress(s, Present(s, request, issuer, client, env))
    case TokenRead(token, audience) =>
      if token.clientRecordId !in s.config.clients then Progress(s, Failed(InvalidCredentials))
      else Progress(s, Presented(Authenticate(s.config.clients[token.clientRecordId], audience, token)))
    case Presented(job) => Progress(s, CheckGrant(s, job))
    case GrantChecked(job, grant) => Progress(s, CheckResource(s, job, grant))
    case ResourceChecked(job, grant, resource) => Progress(s, CheckIssuer(s, job, grant, resource))
    case IssuerChecked(job, grant, resource) => Progress(s, Conclude(job, grant, resource, env))
    case Minted(_, _, _, _) => Commit(s, call, env)
    case CodeReplayed(grantId) => Progress(s, ReadReplayedGrant(s, grantId))
    case RevokingGrant(grantId) =>
      Progress(RevokeGrant(s, grantId, env.now, env.commits).state, Failed(InvalidCredentials))
    case RevokingFamily(familyId, reuse) =>
      var a := RevokeFamily(s, familyId, env.now, env.commits);
      Progress(a.state, if reuse then Failed(InvalidCredentials)
                        else if a.reply.Ok? then Revoked else Failed(StoreFailure(a.reply.error)))
    case RevokingAccess(tokenId) =>
      var a := RevokeAccess(s, tokenId, env.now, env.commits);
      Progress(a.state, if a.reply.Ok? then Revoked else Failed(StoreFailure(a.reply.error)))
    case _ => Progress(s, call)
  }

  // ----- administration and consent -----

  datatype AdminOp =
    | AddWorkspace(workspaceId: Id)
    | CreateIssuerOp(issuer: Issuer)
    | UpdateIssuerOp(issuer: Issuer)
    | SetIssuerDisabledOp(id: Id, disabled: bool, at: Time)
    | CreateResourceOp(resource: Resource)
    | SetResourceDisabledOp(id: Id, disabled: bool, at: Time)
    | CreateClientOp(client: Client, initialId: Id, at: Time)
    | RotateClientOp(id: Id, secret: Option<Digest>, keys: Option<(string, Digest)>, at: Time)
    | SetClientDisabledOp(id: Id, disabled: bool, at: Time)
    | CreateInitialTokenOp(initial: InitialToken)
    | RevokeInitialTokenOp(id: Id, at: Time)
    | CreateClientTokenOp(clientToken: ClientToken)
    | RevokeClientTokenOp(id: Id, at: Time)
    | RevokeGrantOp(id: Id, at: Time)
    | RevokeUserOp(userId: Id, workspaceId: Id, at: Time)

  /** The identifier newID draws for an operation whose store step does not look it up. */
  function Draws(op: AdminOp): set<Id> {
    match op
    case CreateClientOp(client, _, _) => {client.id}
    case CreateClientTokenOp(t) => {t.id}
    case _ => {}
  }

  function Administer(s: State, op: AdminOp, commits: bool): State {
    match op
    case AddWorkspace(id) => s.(config := s.config.(workspaces := s.config.workspaces + {id}))
    case CreateIssuerOp(issuer) => CreateIssuer(s, issuer, commits).state
    case UpdateIssuerOp(issuer) => UpdateIssuer(s, issuer, commits).state
    case SetIssuerDisabledOp(id, disabled, at) => SetIssuerDisabled(s, id, disabled, at, commits).state
    case CreateResourceOp(resource) => CreateResource(s, resource, commits).state
    case SetResourceDisabledOp(id, disabled, at) => SetResourceDisabled(s, id, disabled, at, commits).state
    case CreateClientOp(client, initialId, at) => CreateClient(s, client, initialId, at, commits).state
    case RotateClientOp(id, secret, keys, at) => RotateClientCredentials(s, id, secret, keys, at, commits).state
    case SetClientDisabledOp(id, disabled, at) => SetClientDisabled(s, id, disabled, at, commits).state
    case CreateInitialTokenOp(t) =>
      if t.maxRegistrations < 1 || t.maxRegistrations > 100 then s
      else CreateInitialToken(s, t.(registrations := 0), commits).state
    case RevokeInitialTokenOp(id, at) => RevokeInitialToken(s, id, at, commits).state
    case CreateClientTokenOp(t) => CreateClientToken(s, t, commits).state
    case RevokeClientTokenOp(id, at) => RevokeClientToken(s, id, at, commits).state
    case RevokeGrantOp(id, at) => RevokeGrant(s, id, at, commits).state
    case RevokeUserOp(userId, workspaceId, at) =>
      if commits then s.(vault := RevokeUserVault(s.vault, userId, workspaceId, at)) else s
  }

  /** An approved consent; everything it re-validates only narrows what it writes. */
  datatype Consent = Consent(
    grantId: Id, codeId: Id, issuer: Issuer, client: Client, userId: Id, resource: Resource, scopes: Scopes,
    code: Bearer, redirectUri: string, challenge: string, now: Time)
  {
    function Grant(): Grant {
      OAuthRecords.Grant(grantId, issuer.id, client.id, userId, resource.workspaceId, resource.id, scopes,
                         client.metadataHash, now, None)
    }

    function Code(): Code {
      OAuthRecords.Code(codeId, code.prefix, code.digest, grantId, client.id, redirectUri, resource.id, scopes,
                        challenge, now + issuer.codeTtl, None)
    }
  }

  // ----- the system -----

  /** `minted` is every token, family and client record identifier newID has produced; `chains` is
      a history of each refresh family, in order of issue. */
  datatype System = System(store: State, calls: map<CallId, Call>, minted: set<Id>, chains: map<Id, seq<Id>>)

  const INITIAL := System(EMPTY, map[], {}, map[])

  datatype Event =
    | AdminEvent(op: AdminOp, commits: bool)
    | ConsentEvent(consent: Consent, commits: bool)
    | StartEvent(callId: CallId, request: Request)
    | StepEvent(callId: CallId, env: Env)

  /** newID never returns the zero UUID nor the same identifier twice. */
  predicate FreshIds(minted: set<Id>, env: Env) {
    && env.accessId !in minted && env.refreshId !in minted && env.familyId !in minted
    && env.accessId != env.refreshId && env.accessId != env.familyId && env.refreshId != env.familyId
    && NO_ID !in {env.accessId, env.refreshId, env.familyId}
  }

  predicate Unminted(minted: set<Id>, drawn: set<Id>) {
    forall id | id in drawn :: id !in minted && id != NO_ID
  }

  /** The chains after a call went from `call` to `next`. */
  function Extend(chains: map<Id, seq<Id>>, call: Call, next: Call): map<Id, seq<Id>> {
    if call.Minted? && next.Issued? && next.refresh.Some? then
      var r := next.refresh.value;
      if call.job.Refresh? && r.familyId in chains then chains[r.familyId := chains[r.familyId] + [r.id]]
      else chains[r.familyId := [r.id]]
    else chains
  }

  function StepCall(sys: System, c: CallId, env: Env): System
    requires c in sys.calls
  {
    var call := sys.calls[c];
    var p := Advance(sys.store, call, env);
    if call.IssuerChecked? then
      if FreshIds(sys.minted, env) then
        sys.(calls := sys.calls[c := p.call], minted := sys.minted + {env.accessId, env.refreshId, env.familyId})
      else sys
    else if p.call.Refetching? then
      if Unminted(sys.minted, {env.clientRecordId}) then
        sys.(calls := sys.calls[c := p.call], minted := sys.minted + {env.clientRecordId})
      else sys
    else
      System(p.state, sys.calls[c := p.call], sys.minted, Extend(sys.chains, call, p.call))
  }

  function Apply(sys: System, e: Event): System {
    match e
    case AdminEvent(op, commits) =>
      if !Unminted(sys.minted, Draws(op)) then sys
      else sys.(store := Administer(sys.store, op, commits), minted := sys.minted + Draws(op))
    case ConsentEvent(consent, commits) =>
      sys.(store := CreateGrantAndCode(sys.store, consent.Grant(), consent.Code(), commits).state)
    case StartEvent(c, request) => if c in sys.calls then sys else sys.(calls := sys.calls[c := Begun(request)])
    case StepEvent(c, env) => if c in sys.calls then StepCall(sys, c, env) else sys
  }

  function Run(sys: System, events: seq<Event>): System
    decreases |events|
  {
    if events == [] then sys else Run(Apply(sys, events[0]), events[1..])
  }

  ghost predicate Reachable(sys: System) {
    exists events: seq<Event> :: sys == Run(INITIAL, events)
  }

  /** What every event of a run keeps, the run keeps. */
  lemma {:induction false} RunKeeps(kept: System -> bool, allowed: Event -> bool, sys: System, events: seq<Event>)
    requires kept(sys) && forall e | e in events :: allowed(e)
    requires forall s, e | kept(s) && allowed(e) :: kept(Apply(s, e))
    ensures kept(Run(sys, events))
    decreases |events|
  {
    if events != [] {
      assert events[0] in events;
      RunKeeps(kept, allowed, Apply(sys, events[0]), events[1..]);
    }
  }
}
