/** The inductive invariant of the OAuth system, kept by every event. */
module OAuthInvariant {
  import opened Common
  import opened Uuid
  import opened OAuthRecords
  import opened OAuthSpec
  import opened OAuthProtocol

  // ----- copies of records -----

  /** Two readings of one record differ only in the fields a store step may stamp. */
  predicate SameGrant(a: Grant, b: Grant) {
    a == b.(revokedAt := a.revokedAt, updatedAt := a.updatedAt)
  }

  predicate SameCode(a: Code, b: Code) {
    a == b.(usedAt := a.usedAt)
  }

  predicate SameAccess(a: AccessToken, b: AccessToken) {
    a == b.(revokedAt := a.revokedAt)
  }

  predicate SameRefresh(a: RefreshToken, b: RefreshToken) {
    a == b.(usedAt := a.usedAt, replacedById := a.replacedById, revokedAt := a.revokedAt)
  }

  // ----- the vault -----

  predicate GrantRevoked(v: Vault, g: Id) {
    g in v.grants && v.grants[g].revokedAt.Some?
  }

  /** The grant's authorization code has been exchanged. */
  ghost predicate Redeemed(v: Vault, g: Id) {
    exists c :: c in v.codes && v.codes[c].grantId == g && v.codes[c].usedAt.Some?
  }

  predicate AccessFits(t: AccessToken, g: Grant) {
    t.grantId == g.id && t.userId == g.userId && t.workspaceId == g.workspaceId && Within(t.scopes, g.scopes)
  }

  predicate RefreshFits(t: RefreshToken, g: Grant) {
    t.grantId == g.id && t.userId == g.userId && t.workspaceId == g.workspaceId && Within(t.scopes, g.scopes)
  }

  /** Records sit under their own identifier; a grant has at most one code. */
  ghost predicate CodesOk(v: Vault) {
    && (forall g :: g in v.grants ==> v.grants[g].id == g)
    && (forall c :: c in v.codes ==> v.codes[c].id == c && v.codes[c].grantId in v.grants)
    && (forall c, d :: c in v.codes && d in v.codes && v.codes[c].grantId == v.codes[d].grantId ==> c == d)
  }

  /** Every token descends from an exchanged code and stays within its grant. */
  ghost predicate AccessOk(v: Vault, minted: set<Id>) {
    forall t :: t in v.access ==>
      && v.access[t].id == t && t in minted
      && v.access[t].grantId in v.grants && AccessFits(v.access[t], v.grants[v.access[t].grantId])
      && Redeemed(v, v.access[t].grantId)
  }

  ghost predicate RefreshOk(v: Vault, minted: set<Id>) {
    forall t :: t in v.refresh ==>
      && v.refresh[t].id == t && t in minted && v.refresh[t].familyId in minted
      && v.refresh[t].grantId in v.grants && RefreshFits(v.refresh[t], v.grants[v.refresh[t].grantId])
      && Redeemed(v, v.refresh[t].grantId)
  }

  ghost predicate TokensOk(v: Vault, minted: set<Id>) {
    AccessOk(v, minted) && RefreshOk(v, minted)
  }

  /** One grant, one family; one family, one grant. */
  ghost predicate FamiliesOk(refresh: map<Id, RefreshToken>) {
    forall t, u :: t in refresh && u in refresh ==>
      (refresh[t].grantId == refresh[u].grantId <==> refresh[t].familyId == refresh[u].familyId)
  }

  /** `chain` lists tokens of family `f` in order: each but the last was used and
      replaced by the next one, whose scopes are no wider; the last is unused. */
  ghost predicate ChainOk(refresh: map<Id, RefreshToken>, f: Id, chain: seq<Id>) {
    && chain != []
    && (forall i :: 0 <= i < |chain| ==> chain[i] in refresh && refresh[chain[i]].familyId == f)
    && (forall i, j :: 0 <= i < j < |chain| ==> chain[i] != chain[j])
    && (forall i :: 0 <= i < |chain| - 1 ==>
          && refresh[chain[i]].usedAt.Some?
          && refresh[chain[i]].replacedById == chain[i + 1]
          && Within(refresh[chain[i + 1]].scopes, refresh[chain[i]].scopes))
    && refresh[chain[|chain| - 1]].usedAt.None?
    && refresh[chain[|chain| - 1]].replacedById == NO_ID
  }

  /** Every family has its chain, and every refresh token is on its family's chain. */
  ghost predicate ChainsOk(refresh: map<Id, RefreshToken>, chains: map<Id, seq<Id>>) {
    && (forall f :: f in chains ==> ChainOk(refresh, f, chains[f]))
    && (forall t :: t in refresh ==> refresh[t].familyId in chains && t in chains[refresh[t].familyId])
  }

  ghost predicate VaultOk(v: Vault, minted: set<Id>, chains: map<Id, seq<Id>>) {
    CodesOk(v) && TokensOk(v, minted) && FamiliesOk(v.refresh) && ChainsOk(v.refresh, chains)
  }

  // ----- calls in flight -----

  /** What a call has read is still in the store, up to stamps. */
  predicate JobOk(v: Vault, job: Job) {
    match job
    case Exchange(_, _, _, code) => code.id in v.codes && SameCode(code, v.codes[code.id])
    case Refresh(_, _, _, previous, _) =>
      previous.id in v.refresh && SameRefresh(previous, v.refresh[previous.id])
    case Authenticate(_, _, token) => token.id in v.access && SameAccess(token, v.access[token.id])
  }

  /** A call that found its grant active. If the grant has been revoked since, the
      cascade has reached the refresh token the call is about to rotate. */
  predicate GrantSeen(v: Vault, job: Job, grant: Grant) {
    && JobOk(v, job)
    && grant.id == job.GrantId() && grant.id in v.grants && SameGrant(grant, v.grants[grant.id])
    && grant.revokedAt.None?
    && (job.Refresh? && GrantRevoked(v, grant.id) ==> v.refresh[job.previous.id].revokedAt.Some?)
  }

  /** The records a call is about to commit. */
  predicate DraftOk(job: Job, grant: Grant, access: AccessToken, refresh: Option<RefreshToken>) {
    && AccessFits(access, grant) && access.revokedAt.None?
    && (refresh.Some? ==>
          var r := refresh.value;
          && RefreshFits(r, grant) && r.usedAt.None? && r.replacedById == NO_ID && r.revokedAt.None?
          && r.id != NO_ID
          && (job.Refresh? ==> r.familyId == job.previous.familyId && Within(r.scopes, job.previous.scopes)))
  }

  /** The call has found its grant active and has not finished. */
  predicate PastGrant(call: Call) {
    call.GrantChecked? || call.ResourceChecked? || call.IssuerChecked? || call.Minted?
  }

  predicate CallOk(v: Vault, call: Call) {
    && (call.TokenRead? ==> call.token.id in v.access && SameAccess(call.token, v.access[call.token.id]))
    && (call.Presented? ==> JobOk(v, call.job))
    && (PastGrant(call) ==> GrantSeen(v, call.job, call.grant))
    && (call.Minted? ==> DraftOk(call.job, call.grant, call.access, call.refresh))
  }

  /** Token and family identifiers minted by a call and not yet committed. */
  function Held(call: Call): set<Id> {
    if call.Minted? then
      {call.access.id} +
      (if call.refresh.None? then {}
       else if call.job.Exchange? then {call.refresh.value.id, call.refresh.value.familyId}
       else {call.refresh.value.id})
    else {}
  }

  /** An identifier is in the store as a token or as a family. */
  ghost predicate Stored(access: map<Id, AccessToken>, refresh: map<Id, RefreshToken>, id: Id) {
    id in access || id in refresh || exists t :: t in refresh && refresh[t].familyId == id
  }

  /** What a call holds is minted and in no record yet. */
  ghost predicate HeldOk(access: map<Id, AccessToken>, refresh: map<Id, RefreshToken>, call: Call, minted: set<Id>) {
    forall id :: id in Held(call) ==> id in minted && !Stored(access, refresh, id)
  }

  /** Nothing a call holds is held by another. */
  ghost predicate HoldingsOk(access: map<Id, AccessToken>, refresh: map<Id, RefreshToken>,
                             calls: map<CallId, Call>, minted: set<Id>)
  {
    && (forall c :: c in calls ==> HeldOk(access, refresh, calls[c], minted))
    && (forall c, d, id :: c in calls && d in calls && id in Held(calls[c]) && id in Held(calls[d]) ==> c == d)
  }

  ghost predicate Inv(sys: System) {
    var v := sys.store.vault;
    && VaultOk(v, sys.minted, sys.chains)
    && (forall c :: c in sys.calls ==> CallOk(v, sys.calls[c]))
    && HoldingsOk(v.access, v.refresh, sys.calls, sys.minted)
  }

  lemma InitialInv()
    ensures Inv(INITIAL)
  {
  }

  // ----- revocation steps -----

  ghost predicate GrantsRevoked(v: Vault, w: Vault) {
    && w.grants.Keys == v.grants.Keys
    && (forall g :: g in v.grants ==>
          SameGrant(w.grants[g], v.grants[g]) && (v.grants[g].revokedAt.Some? ==> w.grants[g].revokedAt.Some?))
  }

  ghost predicate AccessRevoked(v: Vault, w: Vault) {
    && w.access.Keys == v.access.Keys
    && (forall t :: t in v.access ==>
          SameAccess(w.access[t], v.access[t]) && (v.access[t].revokedAt.Some? ==> w.access[t].revokedAt.Some?))
  }

  ghost predicate RefreshRevoked(v: Vault, w: Vault) {
    && w.refresh.Keys == v.refresh.Keys
    && (forall t :: t in v.refresh ==>
          && w.refresh[t] == v.refresh[t].(revokedAt := w.refresh[t].revokedAt)
          && (v.refresh[t].revokedAt.Some? ==> w.refresh[t].revokedAt.Some?))
  }

  /** A newly revoked grant takes its refresh tokens with it. */
  ghost predicate Cascades(v: Vault, w: Vault) {
    forall t :: t in v.refresh && t in w.refresh && GrantRevoked(w, v.refresh[t].grantId) ==>
      GrantRevoked(v, v.refresh[t].grantId) || w.refresh[t].revokedAt.Some?
  }

  /** `w` is `v` with some records stamped revoked. */
  ghost predicate OnlyRevokes(v: Vault, w: Vault) {
    && w.codes == v.codes && w.codeKeys == v.codeKeys && w.accessKeys == v.accessKeys && w.refreshKeys == v.refreshKeys
    && GrantsRevoked(v, w) && AccessRevoked(v, w) && RefreshRevoked(v, w) && Cascades(v, w)
  }

  lemma RevokingKeepsAccess(v: Vault, w: Vault, minted: set<Id>)
    requires w.codes == v.codes && GrantsRevoked(v, w) && AccessRevoked(v, w) && AccessOk(v, minted)
    ensures AccessOk(w, minted)
  {
    forall g | Redeemed(v, g) ensures Redeemed(w, g) {
      var c :| c in v.codes && v.codes[c].grantId == g && v.codes[c].usedAt.Some?;
      assert c in w.codes;
    }
  }

  lemma RevokingKeepsRefresh(v: Vault, w: Vault, minted: set<Id>)
    requires w.codes == v.codes && GrantsRevoked(v, w) && RefreshRevoked(v, w) && RefreshOk(v, minted)
    ensures RefreshOk(w, minted)
  {
    forall g | Redeemed(v, g) ensures Redeemed(w, g) {
      var c :| c in v.codes && v.codes[c].grantId == g && v.codes[c].usedAt.Some?;
      assert c in w.codes;
    }
  }

  lemma RevokingKeepsFamilies(v: Vault, w: Vault)
    requires RefreshRevoked(v, w) && FamiliesOk(v.refresh)
    ensures FamiliesOk(w.refresh)
  {
  }

  lemma RevokingKeepsChain(v: Vault, w: Vault, f: Id, chain: seq<Id>)
    requires RefreshRevoked(v, w) && ChainOk(v.refresh, f, chain)
    ensures ChainOk(w.refresh, f, chain)
  {
  }

  lemma RevokingKeepsVault(v: Vault, w: Vault, minted: set<Id>, chains: map<Id, seq<Id>>)
    requires VaultOk(v, minted, chains) && OnlyRevokes(v, w)
    ensures VaultOk(w, minted, chains)
  {
    RevokingKeepsAccess(v, w, minted);
    RevokingKeepsRefresh(v, w, minted);
    RevokingKeepsFamilies(v, w);
    forall f | f in chains ensures ChainOk(w.refresh, f, chains[f]) {
      RevokingKeepsChain(v, w, f, chains[f]);
    }
  }

  lemma RevokingKeepsJob(v: Vault, w: Vault, job: Job)
    requires OnlyRevokes(v, w) && JobOk(v, job)
    ensures JobOk(w, job)
  {
  }

  lemma RevokingKeepsGrantSeen(v: Vault, w: Vault, job: Job, grant: Grant)
    requires OnlyRevokes(v, w) && GrantSeen(v, job, grant)
    ensures GrantSeen(w, job, grant)
  {
    RevokingKeepsJob(v, w, job);
  }

  lemma RevokingKeepsCall(v: Vault, w: Vault, call: Call)
    requires OnlyRevokes(v, w) && CallOk(v, call)
    ensures CallOk(w, call)
  {
    if call.Presented? {
      RevokingKeepsJob(v, w, call.job);
    } else if PastGrant(call) {
      RevokingKeepsGrantSeen(v, w, call.job, call.grant);
    }
  }

  lemma RevokingKeepsHoldings(v: Vault, w: Vault, calls: map<CallId, Call>, minted: set<Id>)
    requires AccessRevoked(v, w) && RefreshRevoked(v, w) && HoldingsOk(v.access, v.refresh, calls, minted)
    ensures HoldingsOk(w.access, w.refresh, calls, minted)
  {
    forall id | Stored(w.access, w.refresh, id) ensures Stored(v.access, v.refresh, id) {
      if id !in w.access && id !in w.refresh {
        var t :| t in w.refresh && w.refresh[t].familyId == id;
        assert t in v.refresh && v.refresh[t].familyId == id;
      }
    }
  }

  lemma RevokingKeepsInv(sys: System, w: Vault)
    requires Inv(sys) && OnlyRevokes(sys.store.vault, w)
    ensures Inv(sys.(store := sys.store.(vault := w)))
  {
    var v := sys.store.vault;
    RevokingKeepsVault(v, w, sys.minted, sys.chains);
    forall c | c in sys.calls ensures CallOk(w, sys.calls[c]) {
      RevokingKeepsCall(v, w, sys.calls[c]);
    }
    RevokingKeepsHoldings(v, w, sys.calls, sys.minted);
  }

  lemma RevokeGrantsOnlyRevokes(v: Vault, gs: set<Id>, at: Time)
    ensures OnlyRevokes(v, RevokeGrants(v, gs, at))
  {
  }

  lemma RevokeUserCascades(v: Vault, userId: Id, workspaceId: Id, at: Time, minted: set<Id>, t: Id)
    requires RefreshOk(v, minted) && t in v.refresh
    requires GrantRevoked(RevokeUserVault(v, userId, workspaceId, at), v.refresh[t].grantId)
    ensures GrantRevoked(v, v.refresh[t].grantId) || RevokeUserVault(v, userId, workspaceId, at).refresh[t].revokedAt.Some?
  {
    var g := v.grants[v.refresh[t].grantId];
    assert RefreshFits(v.refresh[t], g);
  }

  lemma RevokeUserStamps(v: Vault, userId: Id, workspaceId: Id, at: Time)
    ensures var w := RevokeUserVault(v, userId, workspaceId, at);
      GrantsRevoked(v, w) && AccessRevoked(v, w) && RefreshRevoked(v, w)
  {
  }

  lemma RevokeUserOnlyRevokes(v: Vault, userId: Id, workspaceId: Id, at: Time, minted: set<Id>)
    requires RefreshOk(v, minted)
    ensures OnlyRevokes(v, RevokeUserVault(v, userId, workspaceId, at))
  {
    var w := RevokeUserVault(v, userId, workspaceId, at);
    RevokeUserStamps(v, userId, workspaceId, at);
    forall t | t in v.refresh && t in w.refresh && GrantRevoked(w, v.refresh[t].grantId)
      ensures GrantRevoked(v, v.refresh[t].grantId) || w.refresh[t].revokedAt.Some?
    {
      RevokeUserCascades(v, userId, workspaceId, at, minted, t);
    }
  }

  lemma RevokeFamilyOnlyRevokes(v: Vault, familyId: Id, at: Time)
    ensures OnlyRevokes(v, RevokeFamilyVault(v, familyId, at))
  {
  }
}
