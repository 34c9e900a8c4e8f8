/** The persisted OAuth records and the store state that holds them. */
module OAuthRecords {
  import opened Common
  import opened Uuid

  type Scopes = seq<string>

  datatype DcrMode = DcrDisabled | DcrProtected | DcrOpen
  datatype ClientSource = PreRegistered | Cimd | Dcr

  datatype Issuer = Issuer(
    id: Id, url: string, dcrMode: DcrMode, dcrOpenLimit: int,
    codeTtl: Time, accessTtl: Time, refreshTtl: Time,
    updatedAt: Time, disabledAt: Option<Time>)

  datatype Resource = Resource(
    id: Id, issuerId: Id, workspaceId: Id, uri: string,
    updatedAt: Time, disabledAt: Option<Time>)

  datatype Client = Client(
    id: Id, issuerId: Id, clientId: string, source: ClientSource,
    grantTypes: seq<string>, secretDigest: Digest, jwks: string, metadataHash: Digest,
    updatedAt: Time, disabledAt: Option<Time>)

  datatype InitialToken = InitialToken(
    id: Id, issuerId: Id, prefix: string, digest: Digest,
    maxRegistrations: int, registrations: int, expiresAt: Time, revokedAt: Option<Time>)

  datatype Grant = Grant(
    id: Id, issuerId: Id, clientRecordId: Id, userId: Id, workspaceId: Id, resourceId: Id,
    scopes: Scopes, metadataHash: Digest, updatedAt: Time, revokedAt: Option<Time>)

  datatype Code = Code(
    id: Id, prefix: string, digest: Digest, grantId: Id, clientRecordId: Id,
    redirectUri: string, resourceId: Id, scopes: Scopes, challenge: string,
    expiresAt: Time, usedAt: Option<Time>)

  datatype AccessToken = AccessToken(
    id: Id, prefix: string, digest: Digest, grantId: Id, clientRecordId: Id,
    userId: Id, workspaceId: Id, resourceId: Id, scopes: Scopes,
    expiresAt: Time, revokedAt: Option<Time>)

  datatype RefreshToken = RefreshToken(
    id: Id, familyId: Id, prefix: string, digest: Digest, grantId: Id, clientRecordId: Id,
    userId: Id, workspaceId: Id, resourceId: Id, scopes: Scopes,
    expiresAt: Time, usedAt: Option<Time>, replacedById: Id, revokedAt: Option<Time>)

  /** A client-credentials access token: no user subject and no grant. */
  datatype ClientToken = ClientToken(
    id: Id, prefix: string, digest: Digest, clientRecordId: Id, issuerId: Id,
    resourceId: Id, workspaceId: Id, scopes: Scopes, expiresAt: Time, revokedAt: Option<Time>)

  /** Issuers, resources, clients and machine credentials, each with its lookup index. */
  datatype Config = Config(
    workspaces: set<Id>,
    issuers: map<Id, Issuer>, issuerUrls: map<string, Id>,
    resources: map<Id, Resource>, resourceUris: map<string, Id>,
    clients: map<Id, Client>, clientKeys: map<string, Id>,
    initialTokens: map<Id, InitialToken>, initialKeys: map<string, Id>,
    clientTokens: map<Id, ClientToken>, clientTokenKeys: map<string, Id>)

  /** Grants and everything derived from them, with the prefix indexes. */
  datatype Vault = Vault(
    grants: map<Id, Grant>,
    codes: map<Id, Code>, codeKeys: map<string, Id>,
    access: map<Id, AccessToken>, accessKeys: map<string, Id>,
    refresh: map<Id, RefreshToken>, refreshKeys: map<string, Id>)

  datatype State = State(config: Config, vault: Vault)

  const EMPTY_CONFIG := Config({}, map[], map[], map[], map[], map[], map[], map[], map[], map[], map[])
  const EMPTY_VAULT := Vault(map[], map[], map[], map[], map[], map[], map[])
  const EMPTY := State(EMPTY_CONFIG, EMPTY_VAULT)

  /** A client is indexed by the text of its issuer, a NUL, and its protocol client_id. */
  function ClientKey(issuerId: Id, clientId: string): (key: string) {
    Text(BytesOf(issuerId)) + "\0" + clientId
  }

  lemma ClientKeyInjective(i: Id, c: string, j: Id, d: string)
    requires ClientKey(i, c) == ClientKey(j, d)
    ensures i == j && c == d
  {
    var k := ClientKey(i, c);
    assert k[..36] == Text(BytesOf(i)) && k[37..] == c;
    assert k[..36] == Text(BytesOf(j)) && k[37..] == d;
    IdTextInjective(i, j);
  }
}
