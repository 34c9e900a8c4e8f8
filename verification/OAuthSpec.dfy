/** What each OAuth store operation does, as a function of the store's value.
    An operation is refused without effect, or it yields the whole next state.
    `commits` is the outcome of the transaction hook and of the audit append. */
module OAuthSpec {
  import opened Common
  import opened Uuid
  import opened OAuthRecords

  datatype Attempt = Attempt(state: State, reply: Reply)

  /** Refused attempts leave the state alone, whichever stage refused them. */
  function Guarded(s: State, check: Reply, commits: bool, next: State): (a: Attempt) {
    if check.Refused? then Attempt(s, check)
    else if !commits then Attempt(s, Refused(CommitFailed))
    else Attempt(next, Ok)
  }

  function Disablement(disabled: bool, at: Time): Option<Time> {
    if disabled then Some(at) else None
  }

  // ----- revocation stamps -----

  function StampGrant(g: Grant, at: Time): Grant {
    g.(revokedAt := Some(at), updatedAt := at)
  }

  function StampAccess(t: AccessToken, at: Time): AccessToken {
    if t.revokedAt.None? then t.(revokedAt := Some(at)) else t
  }

  function StampRefresh(t: RefreshToken, at: Time): RefreshToken {
    if t.revokedAt.None? then t.(revokedAt := Some(at)) else t
  }

  /** Stamps the grants `gs` and every access and refresh token under them. */
  function RevokeGrants(v: Vault, gs: set<Id>, at: Time): Vault {
    v.(grants := map id | id in v.grants ::
                   if id in gs then StampGrant(v.grants[id], at) else v.grants[id],
       access := map id | id in v.access ::
                   if v.access[id].grantId in gs then StampAccess(v.access[id], at) else v.access[id],
       refresh := map id | id in v.refresh ::
                    if v.refresh[id].grantId in gs then StampRefresh(v.refresh[id], at) else v.refresh[id])
  }

  function GrantsOfIssuer(grants: map<Id, Grant>, id: Id): set<Id> {
    set g | g in grants && grants[g].issuerId == id
  }

  function GrantsOfResource(grants: map<Id, Grant>, id: Id): set<Id> {
    set g | g in grants && grants[g].resourceId == id
  }

  function GrantsOfClient(grants: map<Id, Grant>, id: Id): set<Id> {
    set g | g in grants && grants[g].clientRecordId == id
  }

  // ----- issuers -----

  function CreateIssuer(s: State, issuer: Issuer, commits: bool): Attempt {
    var c := s.config;
    Guarded(s,
            if issuer.id in c.issuers || issuer.url in c.issuerUrls then Refused(Conflict) else Ok,
            commits,
            s.(config := c.(issuers := c.issuers[issuer.id := issuer],
                            issuerUrls := c.issuerUrls[issuer.url := issuer.id])))
  }

  function UpdateIssuer(s: State, issuer: Issuer, commits: bool): Attempt {
    var c := s.config;
    Guarded(s,
            if issuer.id !in c.issuers || c.issuers[issuer.id].url != issuer.url then Refused(NotFound) else Ok,
            commits,
            s.(config := c.(issuers := c.issuers[issuer.id := issuer])))
  }

  function SetIssuerDisabled(s: State, id: Id, disabled: bool, at: Time, commits: bool): Attempt {
    var c := s.config;
    if id !in c.issuers then Attempt(s, Refused(NotFound))
    else
      var issuer := c.issuers[id].(disabledAt := Disablement(disabled, at), updatedAt := at);
      Guarded(s, Ok, commits,
              State(c.(issuers := c.issuers[id := issuer]),
                    if disabled then RevokeGrants(s.vault, GrantsOfIssuer(s.vault.grants, id), at) else s.vault))
  }

  // ----- protected resources -----

  function CreateResource(s: State, resource: Resource, commits: bool): Attempt {
    var c := s.config;
    Guarded(s,
            if resource.issuerId !in c.issuers || resource.workspaceId !in c.workspaces then Refused(NotFound)
            else if resource.id in c.resources || resource.uri in c.resourceUris then Refused(Conflict)
            else Ok,
            commits,
            s.(config := c.(resources := c.resources[resource.id := resource],
                            resourceUris := c.resourceUris[resource.uri := resource.id])))
  }

  function SetResourceDisabled(s: State, id: Id, disabled: bool, at: Time, commits: bool): Attempt {
    var c := s.config;
    if id !in c.resources then Attempt(s, Refused(NotFound))
    else
      var resource := c.resources[id].(disabledAt := Disablement(disabled, at), updatedAt := at);
      Guarded(s, Ok, commits,
              State(c.(resources := c.resources[id := resource]),
                    if disabled then RevokeGrants(s.vault, GrantsOfResource(s.vault.grants, id), at) else s.vault))
  }

  // ----- clients -----

  /** The enabled dynamically registered clients of an issuer. */
  function ActiveDcrClients(c: Config, issuerId: Id): set<Id> {
    set id | id in c.clients && c.clients[id].issuerId == issuerId && c.clients[id].source.Dcr? &&
             c.clients[id].disabledAt.None?
  }

  function CheckCreateClient(c: Config, client: Client, initialId: Id, usedAt: Time): Reply {
    if client.issuerId !in c.issuers then Refused(NotFound)
    else if client.source.Dcr? && c.issuers[client.issuerId].dcrMode.DcrOpen? &&
            |ActiveDcrClients(c, client.issuerId)| >= c.issuers[client.issuerId].dcrOpenLimit then Refused(Conflict)
    else if client.id in c.clients then Refused(Conflict)
    else if ClientKey(client.issuerId, client.clientId) in c.clientKeys then Refused(Conflict)
    else if initialId == NO_ID then Ok
    else if initialId !in c.initialTokens || c.initialTokens[initialId].issuerId != client.issuerId then Refused(NotFound)
    else
      var t := c.initialTokens[initialId];
      if t.revokedAt.Some? || usedAt >= t.expiresAt || t.registrations >= t.maxRegistrations then Refused(Conflict)
      else Ok
  }

  function CreateClient(s: State, client: Client, initialId: Id, usedAt: Time, commits: bool): Attempt {
    var c := s.config;
    var check := CheckCreateClient(c, client, initialId, usedAt);
    if check.Refused? then Attempt(s, check)
    else
      var tokens :=
        if initialId == NO_ID then c.initialTokens
        else c.initialTokens[initialId := c.initialTokens[initialId].(registrations := c.initialTokens[initialId].registrations + 1)];
      Guarded(s, Ok, commits,
              s.(config := c.(clients := c.clients[client.id := client],
                              clientKeys := c.clientKeys[ClientKey(client.issuerId, client.clientId) := client.id],
                              initialTokens := tokens)))
  }

  function UpsertCimdClient(s: State, client: Client, commits: bool): Attempt {
    var c := s.config;
    var key := ClientKey(client.issuerId, client.clientId);
    Guarded(s,
            if client.issuerId !in c.issuers then Refused(NotFound)
            else if key in c.clientKeys && c.clientKeys[key] != client.id then Refused(Conflict)
            else Ok,
            commits,
            s.(config := c.(clients := c.clients[client.id := client],
                            clientKeys := c.clientKeys[key := client.id])))
  }

  /** An absent digest or key set keeps the current one. */
  function RotateClientCredentials(s: State, id: Id, secret: Option<Digest>, keys: Option<(string, Digest)>,
                                   at: Time, commits: bool): Attempt
  {
    var c := s.config;
    if id !in c.clients then Attempt(s, Refused(NotFound))
    else
      var rekeyed := if secret.Some? then c.clients[id].(secretDigest := secret.value) else c.clients[id];
      var client := (if keys.Some? then rekeyed.(jwks := keys.value.0, metadataHash := keys.value.1) else rekeyed)
                    .(updatedAt := at);
      Guarded(s, Ok, commits, s.(config := c.(clients := c.clients[id := client])))
  }

  function SetClientDisabled(s: State, id: Id, disabled: bool, at: Time, commits: bool): Attempt {
    var c := s.config;
    if id !in c.clients then Attempt(s, Refused(NotFound))
    else
      var client := c.clients[id].(disabledAt := Disablement(disabled, at), updatedAt := at);
      Guarded(s, Ok, commits,
              State(c.(clients := c.clients[id := client]),
                    if disabled then RevokeGrants(s.vault, GrantsOfClient(s.vault.grants, id), at) else s.vault))
  }

  // ----- initial access tokens and client-credentials tokens -----

  function CreateInitialToken(s: State, t: InitialToken, commits: bool): Attempt {
    var c := s.config;
    Guarded(s,
            if t.issuerId !in c.issuers then Refused(NotFound)
            else if t.id in c.initialTokens || t.prefix in c.initialKeys then Refused(Conflict)
            else Ok,
            commits,
            s.(config := c.(initialTokens := c.initialTokens[t.id := t],
                            initialKeys := c.initialKeys[t.prefix := t.id])))
  }

  function RevokeInitialToken(s: State, id: Id, at: Time, commits: bool): Attempt {
    var c := s.config;
    if id !in c.initialTokens then Attempt(s, Refused(NotFound))
    else Guarded(s, Ok, commits,
                 s.(config := c.(initialTokens := c.initialTokens[id := c.initialTokens[id].(revokedAt := Some(at))])))
  }

  /** Only the prefix is checked for collision, not the identifier. */
  function CreateClientToken(s: State, t: ClientToken, commits: bool): Attempt {
    var c := s.config;
    Guarded(s, if t.prefix in c.clientTokenKeys then Refused(Conflict) else Ok, commits,
            s.(config := c.(clientTokens := c.clientTokens[t.id := t],
                            clientTokenKeys := c.clientTokenKeys[t.prefix := t.id])))
  }

  function RevokeClientToken(s: State, id: Id, at: Time, commits: bool): Attempt {
    var c := s.config;
    if id !in c.clientTokens then Attempt(s, Refused(NotFound))
    else Guarded(s, Ok, commits,
                 s.(config := c.(clientTokens := c.clientTokens[id := c.clientTokens[id].(revokedAt := Some(at))])))
  }

  // ----- grants and codes -----

  function CreateGrantAndCode(s: State, grant: Grant, code: Code, commits: bool): Attempt {
    var v := s.vault;
    Guarded(s,
            if grant.clientRecordId !in s.config.clients || grant.resourceId !in s.config.resources then Refused(NotFound)
            else if grant.id in v.grants || code.id in v.codes || code.prefix in v.codeKeys then Refused(Conflict)
            else Ok,
            commits,
            s.(vault := v.(grants := v.grants[grant.id := grant],
                           codes := v.codes[code.id := code],
                           codeKeys := v.codeKeys[code.prefix := code.id])))
  }

  function RevokeGrant(s: State, id: Id, at: Time, commits: bool): Attempt {
    Guarded(s, if id !in s.vault.grants then Refused(NotFound) else Ok, commits,
            s.(vault := RevokeGrants(s.vault, {id}, at)))
  }

  predicate Selected(userId: Id, workspaceId: Id, user: Id, workspace: Id) {
    user == userId && (workspaceId == NO_ID || workspace == workspaceId)
  }

  /** The cascade of a reset, a user disablement or a credential revocation:
      grants and tokens are selected by owner, in one workspace or in all. */
  function RevokeUserVault(v: Vault, userId: Id, workspaceId: Id, at: Time): Vault {
    v.(grants := map id | id in v.grants ::
                   var g := v.grants[id];
                   if Selected(userId, workspaceId, g.userId, g.workspaceId) && g.revokedAt.None?
                   then g.(revokedAt := Some(at)) else g,
       access := map id | id in v.access ::
                   var t := v.access[id];
                   if Selected(userId, workspaceId, t.userId, t.workspaceId) then StampAccess(t, at) else t,
       refresh := map id | id in v.refresh ::
                    var t := v.refresh[id];
                    if Selected(userId, workspaceId, t.userId, t.workspaceId) then StampRefresh(t, at) else t)
  }

  // ----- redeeming codes and rotating refresh tokens -----

  /** Neither the grant's revocation nor the token identifiers are checked here. */
  function CheckConsumeCode(v: Vault, codeId: Id, usedAt: Time, access: AccessToken, refresh: Option<RefreshToken>): Reply {
    if codeId !in v.codes then Refused(NotFound)
    else if v.codes[codeId].usedAt.Some? || usedAt >= v.codes[codeId].expiresAt then Refused(Conflict)
    else if access.prefix in v.accessKeys then Refused(Conflict)
    else if refresh.Some? && refresh.value.prefix in v.refreshKeys then Refused(Conflict)
    else Ok
  }

  function AddAccess(v: Vault, access: AccessToken): Vault {
    v.(access := v.access[access.id := access], accessKeys := v.accessKeys[access.prefix := access.id])
  }

  function AddRefresh(v: Vault, refresh: RefreshToken): Vault {
    v.(refresh := v.refresh[refresh.id := refresh], refreshKeys := v.refreshKeys[refresh.prefix := refresh.id])
  }

  function ConsumeCode(s: State, codeId: Id, usedAt: Time, access: AccessToken, refresh: Option<RefreshToken>,
                       commits: bool): Attempt
  {
    var v := s.vault;
    var check := CheckConsumeCode(v, codeId, usedAt, access, refresh);
    if check.Refused? then Attempt(s, check)
    else
      var spent := v.(codes := v.codes[codeId := v.codes[codeId].(usedAt := Some(usedAt))]);
      var withAccess := AddAccess(spent, access);
      Guarded(s, Ok, commits,
              s.(vault := if refresh.Some? then AddRefresh(withAccess, refresh.value) else withAccess))
  }

  function CheckRotate(v: Vault, previousId: Id, usedAt: Time, access: AccessToken, refresh: RefreshToken): Reply {
    if previousId !in v.refresh then Refused(NotFound)
    else
      var p := v.refresh[previousId];
      if p.usedAt.Some? || p.revokedAt.Some? || usedAt >= p.expiresAt then Refused(Conflict)
      else if p.familyId != refresh.familyId || p.grantId != refresh.grantId then Refused(Conflict)
      else if access.prefix in v.accessKeys || refresh.prefix in v.refreshKeys then Refused(Conflict)
      else Ok
  }

  function RotateRefresh(s: State, previousId: Id, usedAt: Time, access: AccessToken, refresh: RefreshToken,
                         commits: bool): Attempt
  {
    var v := s.vault;
    var check := CheckRotate(v, previousId, usedAt, access, refresh);
    if check.Refused? then Attempt(s, check)
    else
      var retired := v.refresh[previousId].(usedAt := Some(usedAt), replacedById := refresh.id);
      var spent := v.(refresh := v.refresh[previousId := retired]);
      Guarded(s, Ok, commits, s.(vault := AddRefresh(AddAccess(spent, access), refresh)))
  }

  function RevokeAccess(s: State, id: Id, at: Time, commits: bool): Attempt {
    var v := s.vault;
    if id !in v.access then Attempt(s, Refused(NotFound))
    else Guarded(s, Ok, commits, s.(vault := v.(access := v.access[id := StampAccess(v.access[id], at)])))
  }

  /** The grants a refresh-token family descends from. */
  function FamilyGrants(v: Vault, familyId: Id): set<Id> {
    set id | id in v.refresh && v.refresh[id].familyId == familyId :: v.refresh[id].grantId
  }

  function RevokeFamilyVault(v: Vault, familyId: Id, at: Time): Vault {
    var gs := FamilyGrants(v, familyId);
    v.(refresh := map id | id in v.refresh ::
                    if v.refresh[id].familyId == familyId then StampRefresh(v.refresh[id], at) else v.refresh[id],
       access := map id | id in v.access ::
                   if v.access[id].grantId in gs then StampAccess(v.access[id], at) else v.access[id])
  }

  function RevokeFamily(s: State, familyId: Id, at: Time, commits: bool): Attempt {
    Guarded(s, if FamilyGrants(s.vault, familyId) == {} then Refused(NotFound) else Ok, commits,
            s.(vault := RevokeFamilyVault(s.vault, familyId, at)))
  }
}
