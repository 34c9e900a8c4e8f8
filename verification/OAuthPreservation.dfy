/** Every event of the OAuth system keeps the invariant. */
module OAuthPreservation {
  import opened Common
  import opened Uuid
  import opened OAuthRecords
  import opened OAuthSpec
  import opened OAuthProtocol
  import opened OAuthInvariant

  // ----- steps that add records -----

  /** `w` keeps every record of `v` and its revocation, and may hold more. */
  ghost predicate Grows(v: Vault, w: Vault) {
    && (forall g :: g in v.grants ==> g in w.grants && w.grants[g] == v.grants[g])
    && (forall c :: c in v.codes ==> c in w.codes && SameCode(w.codes[c], v.codes[c]))
    && (forall t :: t in v.access ==> t in w.access && w.access[t] == v.access[t])
    && (forall t :: t in v.refresh ==>
          t in w.refresh && SameRefresh(w.refresh[t], v.refresh[t]) && w.refresh[t].revokedAt == v.refresh[t].revokedAt)
  }

  lemma GrowingKeepsJob(v: Vault, w: Vault, job: Job)
    requires Grows(v, w) && JobOk(v, job)
    ensures JobOk(w, job)
  {
  }

  lemma GrowingKeepsCall(v: Vault, w: Vault, call: Call)
    requires Grows(v, w) && CallOk(v, call)
    ensures CallOk(w, call)
  {
    if call.Presented? || PastGrant(call) {
      GrowingKeepsJob(v, w, call.job);
    }
  }

  lemma RedeemedStays(v: Vault, w: Vault, g: Id)
    requires forall c :: c in v.codes ==>
      c in w.codes && w.codes[c].grantId == v.codes[c].grantId && (v.codes[c].usedAt.Some? ==> w.codes[c].usedAt.Some?)
    requires Redeemed(v, g)
    ensures Redeemed(w, g)
  {
    var c :| c in v.codes && v.codes[c].grantId == g && v.codes[c].usedAt.Some?;
    assert c in w.codes;
  }

  // ----- consent -----

  lemma ConsentKeepsCodes(v: Vault, w: Vault, grant: Grant, code: Code)
    requires CodesOk(v) && grant.id !in v.grants && code.id !in v.codes && code.grantId == grant.id
    requires w.grants == v.grants[grant.id := grant] && w.codes == v.codes[code.id := code]
    ensures CodesOk(w)
  {
  }

  lemma ConsentKeepsTokens(v: Vault, w: Vault, grant: Grant, code: Code, minted: set<Id>)
    requires TokensOk(v, minted) && grant.id !in v.grants && code.id !in v.codes
    requires w.grants == v.grants[grant.id := grant] && w.codes == v.codes[code.id := code]
    requires w.access == v.access && w.refresh == v.refresh
    ensures TokensOk(w, minted)
  {
    forall g | Redeemed(v, g) ensures Redeemed(w, g) {
      RedeemedStays(v, w, g);
    }
  }

  lemma ConsentGrows(v: Vault, w: Vault, grant: Grant, code: Code)
    requires grant.id !in v.grants && code.id !in v.codes
    requires w.grants == v.grants[grant.id := grant] && w.codes == v.codes[code.id := code]
    requires w.access == v.access && w.refresh == v.refresh
    ensures Grows(v, w)
  {
  }

  lemma GrowingKeepsCalls(v: Vault, w: Vault, calls: map<CallId, Call>)
    requires Grows(v, w) && forall c :: c in calls ==> CallOk(v, calls[c])
    ensures forall c :: c in calls ==> CallOk(w, calls[c])
  {
    forall c | c in calls ensures CallOk(w, calls[c]) {
      GrowingKeepsCall(v, w, calls[c]);
    }
  }

  lemma ConsentKeepsInv(sys: System, consent: Consent, commits: bool)
    requires Inv(sys)
    ensures Inv(Apply(sys, ConsentEvent(consent, commits)))
  {
    var v := sys.store.vault;
    var w := Apply(sys, ConsentEvent(consent, commits)).store.vault;
    if w != v {
      ConsentKeepsCodes(v, w, consent.Grant(), consent.Code());
      ConsentKeepsTokens(v, w, consent.Grant(), consent.Code(), sys.minted);
      ConsentGrows(v, w, consent.Grant(), consent.Code());
      GrowingKeepsCalls(v, w, sys.calls);
    }
  }

  // ----- redeeming a code -----

  /** The vault after a committed exchange of code `c`. */
  ghost predicate Exchanged(v: Vault, w: Vault, c: Id, at: Time, access: AccessToken, refresh: Option<RefreshToken>) {
    && c in v.codes && v.codes[c].usedAt.None?
    && w.grants == v.grants
    && w.codes == v.codes[c := v.codes[c].(usedAt := Some(at))]
    && w.access == v.access[access.id := access]
    && w.refresh == (if refresh.Some? then v.refresh[refresh.value.id := refresh.value] else v.refresh)
  }

  /** Identifiers of the new records, in no record yet. */
  ghost predicate Unstored(v: Vault, access: AccessToken, refresh: Option<RefreshToken>) {
    access.id !in v.access && (refresh.Some? ==> refresh.value.id !in v.refresh)
  }

  lemma ExchangeGrows(v: Vault, w: Vault, c: Id, at: Time, access: AccessToken, refresh: Option<RefreshToken>)
    requires Exchanged(v, w, c, at, access, refresh) && Unstored(v, access, refresh)
    ensures Grows(v, w)
  {
  }

  /** The only code of a grant is unused, so no token descends from the grant yet. */
  lemma UnredeemedHasNoTokens(v: Vault, minted: set<Id>, c: Id)
    requires CodesOk(v) && TokensOk(v, minted) && c in v.codes && v.codes[c].usedAt.None?
    ensures forall t :: t in v.access ==> v.access[t].grantId != v.codes[c].grantId
    ensures forall t :: t in v.refresh ==> v.refresh[t].grantId != v.codes[c].grantId
  {
    assert !Redeemed(v, v.codes[c].grantId);
  }

  lemma ExchangeKeepsCodes(v: Vault, w: Vault, c: Id, at: Time, access: AccessToken, refresh: Option<RefreshToken>)
    requires CodesOk(v) && Exchanged(v, w, c, at, access, refresh)
    ensures CodesOk(w)
  {
  }

  lemma ExchangeRedeems(v: Vault, w: Vault, c: Id, at: Time)
    requires c in v.codes && w.codes == v.codes[c := v.codes[c].(usedAt := Some(at))]
    ensures Redeemed(w, v.codes[c].grantId)
    ensures forall g :: Redeemed(v, g) ==> Redeemed(w, g)
  {
    assert c in w.codes;
    forall g | Redeemed(v, g) ensures Redeemed(w, g) {
      RedeemedStays(v, w, g);
    }
  }

  lemma NewAccessOk(v: Vault, w: Vault, access: AccessToken, minted: set<Id>)
    requires AccessOk(v, minted) && w.grants == v.grants && w.access == v.access[access.id := access]
    requires forall g :: Redeemed(v, g) ==> Redeemed(w, g)
    requires access.id in minted && access.grantId in v.grants && AccessFits(access, v.grants[access.grantId])
    requires Redeemed(w, access.grantId)
    ensures AccessOk(w, minted)
  {
  }

  lemma NewRefreshOk(v: Vault, w: Vault, r: RefreshToken, minted: set<Id>)
    requires RefreshOk(v, minted) && w.grants == v.grants && w.refresh == v.refresh[r.id := r]
    requires forall g :: Redeemed(v, g) ==> Redeemed(w, g)
    requires r.id in minted && r.familyId in minted && r.grantId in v.grants && RefreshFits(r, v.grants[r.grantId])
    requires Redeemed(w, r.grantId)
    ensures RefreshOk(w, minted)
  {
  }

  lemma SameRefreshOk(v: Vault, w: Vault, minted: set<Id>)
    requires RefreshOk(v, minted) && w.grants == v.grants && w.refresh == v.refresh
    requires forall g :: Redeemed(v, g) ==> Redeemed(w, g)
    ensures RefreshOk(w, minted)
  {
  }

  lemma ExchangeKeepsTokens(v: Vault, w: Vault, c: Id, at: Time, access: AccessToken, refresh: Option<RefreshToken>,
                            minted: set<Id>)
    requires AccessOk(v, minted) && RefreshOk(v, minted) && Exchanged(v, w, c, at, access, refresh)
    requires access.grantId == v.codes[c].grantId && access.grantId in v.grants
    requires access.id in minted && AccessFits(access, v.grants[access.grantId])
    requires refresh.Some? ==>
      var r := refresh.value;
      r.id in minted && r.familyId in minted && r.grantId == access.grantId && RefreshFits(r, v.grants[access.grantId])
    ensures AccessOk(w, minted) && RefreshOk(w, minted)
  {
    ExchangeRedeems(v, w, c, at);
    NewAccessOk(v, w, access, minted);
    if refresh.Some? {
      NewRefreshOk(v, w, refresh.value, minted);
    } else {
      SameRefreshOk(v, w, minted);
    }
  }

  lemma NewFamilyApart(refresh: map<Id, RefreshToken>, r: RefreshToken)
    requires FamiliesOk(refresh) && r.id !in refresh
    requires forall t :: t in refresh ==> refresh[t].familyId != r.familyId && refresh[t].grantId != r.grantId
    ensures FamiliesOk(refresh[r.id := r])
  {
  }

  lemma ChainStays(refresh: map<Id, RefreshToken>, r: RefreshToken, f: Id, chain: seq<Id>)
    requires ChainOk(refresh, f, chain) && r.id !in refresh
    ensures ChainOk(refresh[r.id := r], f, chain)
  {
  }

  lemma ChainStarts(refresh: map<Id, RefreshToken>, r: RefreshToken)
    requires r.usedAt.None? && r.replacedById == NO_ID
    ensures ChainOk(refresh[r.id := r], r.familyId, [r.id])
  {
  }

  lemma NewChain(refresh: map<Id, RefreshToken>, chains: map<Id, seq<Id>>, r: RefreshToken)
    requires ChainsOk(refresh, chains) && r.id !in refresh && r.usedAt.None? && r.replacedById == NO_ID
    requires forall t :: t in refresh ==> refresh[t].familyId != r.familyId
    ensures ChainsOk(refresh[r.id := r], chains[r.familyId := [r.id]])
  {
    var refresh', chains' := refresh[r.id := r], chains[r.familyId := [r.id]];
    forall f | f in chains' ensures ChainOk(refresh', f, chains'[f]) {
      if f == r.familyId {
        ChainStarts(refresh, r);
      } else {
        ChainStays(refresh, r, f, chains[f]);
      }
    }
    forall t | t in refresh' ensures refresh'[t].familyId in chains' && t in chains'[refresh'[t].familyId] {
      if t != r.id {
        assert refresh[t].familyId in chains;
      }
    }
  }

  lemma NewFamily(refresh: map<Id, RefreshToken>, chains: map<Id, seq<Id>>, r: RefreshToken)
    requires FamiliesOk(refresh) && ChainsOk(refresh, chains)
    requires r.id !in refresh && r.usedAt.None? && r.replacedById == NO_ID
    requires forall t :: t in refresh ==> refresh[t].familyId != r.familyId && refresh[t].grantId != r.grantId
    ensures FamiliesOk(refresh[r.id := r]) && ChainsOk(refresh[r.id := r], chains[r.familyId := [r.id]])
  {
    NewFamilyApart(refresh, r);
    NewChain(refresh, chains, r);
  }

  // ----- rotating a refresh token -----

  /** The vault after a committed rotation of refresh token `p`. */
  ghost predicate Rotated(v: Vault, w: Vault, p: Id, at: Time, access: AccessToken, r: RefreshToken) {
    && p in v.refresh && v.refresh[p].usedAt.None? && v.refresh[p].revokedAt.None?
    && w.grants == v.grants && w.codes == v.codes
    && w.access == v.access[access.id := access]
    && w.refresh == v.refresh[p := v.refresh[p].(usedAt := Some(at), replacedById := r.id)][r.id := r]
  }

  lemma RotationGrows(v: Vault, w: Vault, p: Id, at: Time, access: AccessToken, r: RefreshToken)
    requires Rotated(v, w, p, at, access, r) && Unstored(v, access, Some(r))
    ensures Grows(v, w)
  {
  }

  lemma RotationKeepsTokens(v: Vault, w: Vault, p: Id, at: Time, access: AccessToken, r: RefreshToken, minted: set<Id>)
    requires AccessOk(v, minted) && RefreshOk(v, minted) && Rotated(v, w, p, at, access, r) && r.id !in v.refresh
    requires access.grantId == r.grantId == v.refresh[p].grantId && r.familyId == v.refresh[p].familyId
    requires AccessFits(access, v.grants[r.grantId]) && RefreshFits(r, v.grants[r.grantId])
    requires access.id in minted && r.id in minted
    ensures AccessOk(w, minted) && RefreshOk(w, minted)
  {
    assert forall g :: Redeemed(v, g) == Redeemed(w, g);
    NewAccessOk(v, w, access, minted);
    var mid := v.(refresh := v.refresh[p := v.refresh[p].(usedAt := Some(at), replacedById := r.id)]);
    assert RefreshOk(mid, minted) by {
      assert forall g :: Redeemed(v, g) == Redeemed(mid, g);
    }
    assert forall g :: Redeemed(mid, g) == Redeemed(w, g);
    NewRefreshOk(mid, w, r, minted);
  }

  /** Only the end of a chain is unused, so it is what a rotation replaces. */
  lemma UnusedIsLast(refresh: map<Id, RefreshToken>, chains: map<Id, seq<Id>>, p: Id)
    requires ChainsOk(refresh, chains) && p in refresh && refresh[p].usedAt.None?
    ensures var f := refresh[p].familyId; f in chains && chains[f] != [] && chains[f][|chains[f]| - 1] == p
  {
    var chain := chains[refresh[p].familyId];
    assert ChainOk(refresh, refresh[p].familyId, chain);
    var i :| 0 <= i < |chain| && chain[i] == p;
  }

  lemma ExtendedChain(refresh: map<Id, RefreshToken>, f: Id, chain: seq<Id>, p: Id, at: Time, r: RefreshToken)
    requires ChainOk(refresh, f, chain) && chain[|chain| - 1] == p
    requires r.id !in refresh && r.familyId == f && r.usedAt.None? && r.replacedById == NO_ID
    requires Within(r.scopes, refresh[p].scopes)
    ensures ChainOk(refresh[p := refresh[p].(usedAt := Some(at), replacedById := r.id)][r.id := r], f, chain + [r.id])
  {
    var refresh' := refresh[p := refresh[p].(usedAt := Some(at), replacedById := r.id)][r.id := r];
    var chain' := chain + [r.id];
    forall i | 0 <= i < |chain'| - 1
      ensures refresh'[chain'[i]].usedAt.Some? && refresh'[chain'[i]].replacedById == chain'[i + 1]
      ensures Within(refresh'[chain'[i + 1]].scopes, refresh'[chain'[i]].scopes)
    {
      if i < |chain| - 1 {
        assert chain[i] != p && chain[i + 1] in refresh;
      }
    }
  }

  lemma OtherChain(refresh: map<Id, RefreshToken>, f: Id, chain: seq<Id>, p: Id, at: Time, r: RefreshToken)
    requires ChainOk(refresh, f, chain) && p in refresh && refresh[p].familyId != f && r.id !in refresh
    ensures ChainOk(refresh[p := refresh[p].(usedAt := Some(at), replacedById := r.id)][r.id := r], f, chain)
  {
  }

  lemma RotationKeepsChains(refresh: map<Id, RefreshToken>, chains: map<Id, seq<Id>>, p: Id, at: Time, r: RefreshToken)
    requires ChainsOk(refresh, chains) && p in refresh && refresh[p].usedAt.None? && r.familyId == refresh[p].familyId
    requires r.id !in refresh && r.usedAt.None? && r.replacedById == NO_ID && Within(r.scopes, refresh[p].scopes)
    ensures r.familyId in chains
    ensures ChainsOk(refresh[p := refresh[p].(usedAt := Some(at), replacedById := r.id)][r.id := r],
                     chains[r.familyId := chains[r.familyId] + [r.id]])
  {
    UnusedIsLast(refresh, chains, p);
    var refresh' := refresh[p := refresh[p].(usedAt := Some(at), replacedById := r.id)][r.id := r];
    var chains' := chains[r.familyId := chains[r.familyId] + [r.id]];
    forall f | f in chains' ensures ChainOk(refresh', f, chains'[f]) {
      assert ChainOk(refresh, f, chains[f]);
      if f == r.familyId {
        ExtendedChain(refresh, f, chains[f], p, at, r);
      } else {
        OtherChain(refresh, f, chains[f], p, at, r);
      }
    }
    forall t | t in refresh' ensures refresh'[t].familyId in chains' && t in chains'[refresh'[t].familyId] {
      if t == r.id {
        assert chains'[r.familyId][|chains[r.familyId]|] == r.id;
      } else {
        assert t in refresh && refresh'[t].familyId == refresh[t].familyId;
      }
    }
  }

  lemma RotationKeepsFamilies(refresh: map<Id, RefreshToken>, p: Id, at: Time, r: RefreshToken)
    requires FamiliesOk(refresh) && p in refresh && r.id !in refresh
    requires r.familyId == refresh[p].familyId && r.grantId == refresh[p].grantId
    ensures FamiliesOk(refresh[p := refresh[p].(usedAt := Some(at), replacedById := r.id)][r.id := r])
  {
  }

  // ----- steps of a call that only read -----

  lemma BeginOk(s: State, request: Request, env: Env, minted: set<Id>)
    requires TokensOk(s.vault, minted)
    ensures CallOk(s.vault, Begin(s, request, env)) && Held(Begin(s, request, env)) == {}
  {
  }

  lemma PresentedCodeOk(v: Vault, client: Client, bearer: Option<Bearer>)
    requires CodesOk(v)
    ensures var code := PresentedCode(v, client, bearer);
      code.Some? ==> code.value.id in v.codes && v.codes[code.value.id] == code.value
  {
  }

  lemma PresentedRefreshOk(v: Vault, client: Client, bearer: Option<Bearer>, minted: set<Id>)
    requires RefreshOk(v, minted)
    ensures var token := PresentedRefresh(v, client, bearer);
      token.Some? ==> token.value.id in v.refresh && v.refresh[token.value.id] == token.value
  {
  }

  function BearerOf(request: Request): Option<Bearer> {
    if request.ResolveRequest? then None else request.bearer
  }

  lemma PresentOk(s: State, request: Request, issuer: Issuer, client: Client, env: Env)
    requires var code := PresentedCode(s.vault, client, BearerOf(request));
      code.Some? ==> code.value.id in s.vault.codes && s.vault.codes[code.value.id] == code.value
    requires var token := PresentedRefresh(s.vault, client, BearerOf(request));
      token.Some? ==> token.value.id in s.vault.refresh && s.vault.refresh[token.value.id] == token.value
    ensures var call := Present(s, request, issuer, client, env);
      CallOk(s.vault, call) && Held(call) == {} && !call.Minted? && !call.Refetching?
  {
  }

  lemma PresentStepOk(s: State, request: Request, issuer: Issuer, client: Client, env: Env, minted: set<Id>)
    requires CodesOk(s.vault) && RefreshOk(s.vault, minted)
    ensures var call := Present(s, request, issuer, client, env);
      CallOk(s.vault, call) && Held(call) == {} && !call.Minted? && !call.Refetching?
  {
    PresentedCodeOk(s.vault, client, BearerOf(request));
    PresentedRefreshOk(s.vault, client, BearerOf(request), minted);
    PresentOk(s, request, issuer, client, env);
  }

  lemma CheckGrantOk(s: State, job: Job)
    requires CodesOk(s.vault) && JobOk(s.vault, job)
    ensures CallOk(s.vault, CheckGrant(s, job)) && Held(CheckGrant(s, job)) == {}
  {
  }

  lemma ConcludeOk(s: State, job: Job, grant: Grant, resource: Resource, env: Env, minted: set<Id>)
    requires TokensOk(s.vault, minted) && GrantSeen(s.vault, job, grant) && env.refreshId != NO_ID
    ensures CallOk(s.vault, Conclude(job, grant, resource, env))
    ensures Held(Conclude(job, grant, resource, env)) <= {env.accessId, env.refreshId, env.familyId}
  {
    if job.Refresh? {
      assert RefreshFits(s.vault.refresh[job.previous.id], s.vault.grants[grant.id]);
    }
  }

  /** A step that leaves the store alone and holds no identifier afterwards. */
  predicate Reads(call: Call) {
    call.Begun? || call.IssuerKnown? || call.ClientKnown? || call.TokenRead? || call.Presented? || call.GrantChecked? ||
    call.ResourceChecked? || call.CodeReplayed? || call.Issued? || call.Authenticated? || call.Resolved? || call.Revoked? ||
    call.Failed?
  }

  /** The reads that carry forward only what the call already has. */
  lemma CarryStepOk(s: State, call: Call, env: Env)
    requires CallOk(s.vault, call) && Reads(call) && !call.Begun? && !call.ClientKnown? && !call.Presented?
    ensures var p := Advance(s, call, env);
      p.state == s && CallOk(s.vault, p.call) && Held(p.call) == {} && !p.call.Minted?
  {
  }

  lemma ReadStepOk(s: State, call: Call, env: Env, minted: set<Id>)
    requires CodesOk(s.vault) && TokensOk(s.vault, minted) && CallOk(s.vault, call) && Reads(call)
    ensures var p := Advance(s, call, env);
      p.state == s && CallOk(s.vault, p.call) && Held(p.call) == {} && !p.call.Minted?
  {
    if call.Begun? {
      BeginOk(s, call.request, env, minted);
    } else if call.ClientKnown? {
      PresentStepOk(s, call.request, call.issuer, call.client, env, minted);
    } else if call.Presented? {
      CheckGrantOk(s, call.job);
    } else {
      CarryStepOk(s, call, env);
    }
  }

  /** Replacing one call by one that holds nothing. */
  lemma ReleasingKeepsHoldings(access: map<Id, AccessToken>, refresh: map<Id, RefreshToken>, calls: map<CallId, Call>,
                               minted: set<Id>, c: CallId, next: Call)
    requires HoldingsOk(access, refresh, calls, minted) && Held(next) == {}
    ensures HoldingsOk(access, refresh, calls[c := next], minted)
  {
  }

  lemma ReplacingKeepsInv(sys: System, c: CallId, next: Call)
    requires Inv(sys) && CallOk(sys.store.vault, next) && Held(next) == {}
    ensures Inv(sys.(calls := sys.calls[c := next]))
  {
    ReleasingKeepsHoldings(sys.store.vault.access, sys.store.vault.refresh, sys.calls, sys.minted, c, next);
  }

  lemma ReadStepShape(sys: System, c: CallId, env: Env)
    requires c in sys.calls && Reads(sys.calls[c])
    requires var p := Advance(sys.store, sys.calls[c], env); p.state == sys.store
    ensures var mid, after := sys.(calls := sys.calls[c := Advance(sys.store, sys.calls[c], env).call]), StepCall(sys, c, env);
      after == sys || after == mid || after == mid.(minted := mid.minted + {env.clientRecordId})
  {
  }

  lemma ReadStepKeepsInv(sys: System, c: CallId, env: Env)
    requires Inv(sys) && c in sys.calls && Reads(sys.calls[c])
    ensures Inv(StepCall(sys, c, env))
  {
    var next := Advance(sys.store, sys.calls[c], env).call;
    ReadStepOk(sys.store, sys.calls[c], env, sys.minted);
    ReadStepShape(sys, c, env);
    ReplacingKeepsInv(sys, c, next);
    MintedGrows(sys.(calls := sys.calls[c := next]), sys.store.config, {env.clientRecordId});
  }

  lemma RefetchStep(sys: System, c: CallId, env: Env)
    requires c in sys.calls && sys.calls[c].Refetching?
    ensures var p := Advance(sys.store, sys.calls[c], env);
      && StepCall(sys, c, env) == sys.(store := sys.store.(config := p.state.config), calls := sys.calls[c := p.call])
      && p.state == UpsertCimdClient(sys.store, sys.calls[c].client, env.commits).state
      && (p.call.ClientKnown? || p.call.Failed?)
  {
  }

  /** Storing a refetched client record leaves the vault alone. */
  lemma RefetchStepKeepsInv(sys: System, c: CallId, env: Env)
    requires Inv(sys) && c in sys.calls && sys.calls[c].Refetching?
    ensures Inv(StepCall(sys, c, env)) && StepCall(sys, c, env).store.vault == sys.store.vault
  {
    var p := Advance(sys.store, sys.calls[c], env);
    RefetchStep(sys, c, env);
    ReplacingKeepsInv(sys, c, p.call);
    MintedGrows(sys.(calls := sys.calls[c := p.call]), p.state.config, {});
    assert sys.minted + {} == sys.minted;
  }

  // ----- minting -----

  lemma FreshIsUnstored(v: Vault, minted: set<Id>, id: Id)
    requires TokensOk(v, minted) && id !in minted
    ensures !Stored(v.access, v.refresh, id)
  {
  }

  lemma MintingKeepsHoldings(v: Vault, calls: map<CallId, Call>, minted: set<Id>, c: CallId, next: Call, new': set<Id>)
    requires HoldingsOk(v.access, v.refresh, calls, minted) && Held(next) <= new' && new' !! minted
    requires forall id :: id in new' ==> !Stored(v.access, v.refresh, id)
    ensures HoldingsOk(v.access, v.refresh, calls[c := next], minted + new')
  {
    var calls' := calls[c := next];
    forall d | d in calls' ensures HeldOk(v.access, v.refresh, calls'[d], minted + new') {
      if d != c {
        assert HeldOk(v.access, v.refresh, calls[d], minted);
      }
    }
    forall d, e, id | d in calls' && e in calls' && id in Held(calls'[d]) && id in Held(calls'[e]) ensures d == e {
      if d != c {
        assert HeldOk(v.access, v.refresh, calls[d], minted);
      }
      if e != c {
        assert HeldOk(v.access, v.refresh, calls[e], minted);
      }
    }
  }

  lemma TokensOkGrows(v: Vault, minted: set<Id>, more: set<Id>)
    requires TokensOk(v, minted)
    ensures TokensOk(v, minted + more)
  {
  }

  lemma MintStep(sys: System, c: CallId, env: Env)
    requires c in sys.calls && sys.calls[c].IssuerChecked?
    ensures var call := sys.calls[c];
      StepCall(sys, c, env) ==
        if !FreshIds(sys.minted, env) then sys
        else System(sys.store, sys.calls[c := Conclude(call.job, call.grant, call.resource, env)],
                    sys.minted + {env.accessId, env.refreshId, env.familyId}, sys.chains)
  {
  }

  lemma MintStepKeepsInv(sys: System, c: CallId, env: Env)
    requires Inv(sys) && c in sys.calls && sys.calls[c].IssuerChecked?
    ensures Inv(StepCall(sys, c, env))
  {
    var v := sys.store.vault;
    var call := sys.calls[c];
    MintStep(sys, c, env);
    if FreshIds(sys.minted, env) {
      ConcludeOk(sys.store, call.job, call.grant, call.resource, env, sys.minted);
      var new' := {env.accessId, env.refreshId, env.familyId};
      forall id | id in new' ensures !Stored(v.access, v.refresh, id) {
        FreshIsUnstored(v, sys.minted, id);
      }
      MintingKeepsHoldings(v, sys.calls, sys.minted, c, Conclude(call.job, call.grant, call.resource, env), new');
      TokensOkGrows(v, sys.minted, new');
    }
  }

  // ----- committing -----

  /** A call in `calls` commits the records of its draft: the others' identifiers stay theirs. */
  lemma CommitKeepsHoldings(v: Vault, w: Vault, calls: map<CallId, Call>, minted: set<Id>, c: CallId, next: Call)
    requires HoldingsOk(v.access, v.refresh, calls, minted) && c in calls && Held(next) == {}
    requires forall id :: Stored(w.access, w.refresh, id) ==> Stored(v.access, v.refresh, id) || id in Held(calls[c])
    ensures HoldingsOk(w.access, w.refresh, calls[c := next], minted)
  {
    var calls' := calls[c := next];
    forall d | d in calls' ensures HeldOk(w.access, w.refresh, calls'[d], minted) {
      if d != c {
        assert HeldOk(v.access, v.refresh, calls[d], minted);
      }
    }
  }

  /** What the committing step establishes is all the next state needs. */
  lemma CommitKeepsInv(sys: System, c: CallId, w: Vault, next: Call, chains: map<Id, seq<Id>>)
    requires c in sys.calls && next.Issued?
    requires HoldingsOk(sys.store.vault.access, sys.store.vault.refresh, sys.calls, sys.minted)
    requires forall d :: d in sys.calls ==> CallOk(sys.store.vault, sys.calls[d])
    requires Grows(sys.store.vault, w) && VaultOk(w, sys.minted, chains)
    requires forall id :: Stored(w.access, w.refresh, id) ==>
      Stored(sys.store.vault.access, sys.store.vault.refresh, id) || id in Held(sys.calls[c])
    ensures Inv(System(sys.store.(vault := w), sys.calls[c := next], sys.minted, chains))
  {
    GrowingKeepsCalls(sys.store.vault, w, sys.calls);
    CommitKeepsHoldings(sys.store.vault, w, sys.calls, sys.minted, c, next);
  }

  lemma ExchangeStores(v: Vault, w: Vault, call: Call, at: Time)
    requires call.Minted? && call.job.Exchange? && Exchanged(v, w, call.job.code.id, at, call.access, call.refresh)
    ensures forall id :: Stored(w.access, w.refresh, id) ==> Stored(v.access, v.refresh, id) || id in Held(call)
  {
    forall id | Stored(w.access, w.refresh, id) ensures Stored(v.access, v.refresh, id) || id in Held(call) {
      if id !in w.access && id !in w.refresh {
        var t :| t in w.refresh && w.refresh[t].familyId == id;
      }
    }
  }

  lemma RotationStores(v: Vault, w: Vault, call: Call, at: Time)
    requires call.Minted? && call.job.Refresh? && call.refresh.Some?
    requires Rotated(v, w, call.job.previous.id, at, call.access, call.refresh.value)
    requires call.refresh.value.familyId == v.refresh[call.job.previous.id].familyId
    ensures forall id :: Stored(w.access, w.refresh, id) ==> Stored(v.access, v.refresh, id) || id in Held(call)
  {
    forall id | Stored(w.access, w.refresh, id) ensures Stored(v.access, v.refresh, id) || id in Held(call) {
      if id !in w.access && id !in w.refresh {
        var t :| t in w.refresh && w.refresh[t].familyId == id;
        assert t in v.refresh || t == call.refresh.value.id;
        assert call.job.previous.id in v.refresh;
      }
    }
  }

  /** A draft matches the stored grant as it matched the copy the call read. */
  lemma DraftFits(v: Vault, call: Call)
    requires call.Minted? && CallOk(v, call)
    ensures var g := call.job.GrantId();
      && g in v.grants && call.access.grantId == g && AccessFits(call.access, v.grants[g])
      && (call.refresh.Some? ==> call.refresh.value.grantId == g && RefreshFits(call.refresh.value, v.grants[g]))
  {
  }

  lemma ExchangeKeepsVault(v: Vault, w: Vault, call: Call, at: Time, minted: set<Id>, chains: map<Id, seq<Id>>)
    requires VaultOk(v, minted, chains) && call.Minted? && call.job.Exchange? && CallOk(v, call)
    requires Exchanged(v, w, call.job.code.id, at, call.access, call.refresh)
    requires HeldOk(v.access, v.refresh, call, minted)
    ensures VaultOk(w, minted, Extend(chains, call, Issued(call.access, call.refresh)))
  {
    var c := call.job.code.id;
    assert call.access.id in Held(call);
    DraftFits(v, call);
    ExchangeKeepsCodes(v, w, c, at, call.access, call.refresh);
    if call.refresh.Some? {
      var r := call.refresh.value;
      assert r.id in Held(call) && r.familyId in Held(call);
      UnredeemedHasNoTokens(v, minted, c);
      NewFamily(v.refresh, chains, r);
    }
    ExchangeKeepsTokens(v, w, c, at, call.access, call.refresh, minted);
  }

  lemma RotationFits(v: Vault, call: Call)
    requires call.Minted? && call.job.Refresh? && call.refresh.Some? && CallOk(v, call)
    ensures var p, r := call.job.previous.id, call.refresh.value;
      && p in v.refresh && r.familyId == v.refresh[p].familyId && r.grantId == v.refresh[p].grantId
      && r.usedAt.None? && r.replacedById == NO_ID && Within(r.scopes, v.refresh[p].scopes)
  {
  }

  lemma RotationKeepsVault(v: Vault, w: Vault, call: Call, at: Time, minted: set<Id>, chains: map<Id, seq<Id>>)
    requires VaultOk(v, minted, chains) && call.Minted? && call.job.Refresh? && call.refresh.Some? && CallOk(v, call)
    requires Rotated(v, w, call.job.previous.id, at, call.access, call.refresh.value)
    requires call.access.id in minted && call.refresh.value.id in minted && call.refresh.value.id !in v.refresh
    ensures VaultOk(w, minted, Extend(chains, call, Issued(call.access, call.refresh)))
  {
    var p := call.job.previous.id;
    var r := call.refresh.value;
    DraftFits(v, call);
    RotationFits(v, call);
    RotationKeepsChains(v.refresh, chains, p, at, r);
    RotationKeepsFamilies(v.refresh, p, at, r);
    RotationKeepsTokens(v, w, p, at, call.access, r, minted);
  }

  lemma DraftUnstored(v: Vault, call: Call, minted: set<Id>)
    requires call.Minted? && HeldOk(v.access, v.refresh, call, minted)
    ensures call.access.id in minted && Unstored(v, call.access, call.refresh)
    ensures call.refresh.Some? ==> call.refresh.value.id in minted
  {
    assert call.access.id in Held(call) && (call.refresh.Some? ==> call.refresh.value.id in Held(call));
  }

  lemma ExchangeCommitKeepsInv(sys: System, c: CallId, w: Vault, at: Time)
    requires Inv(sys) && c in sys.calls && sys.calls[c].Minted? && sys.calls[c].job.Exchange?
    requires Exchanged(sys.store.vault, w, sys.calls[c].job.code.id, at, sys.calls[c].access, sys.calls[c].refresh)
    ensures var next := Issued(sys.calls[c].access, sys.calls[c].refresh);
      Inv(System(sys.store.(vault := w), sys.calls[c := next], sys.minted, Extend(sys.chains, sys.calls[c], next)))
  {
    var v, call := sys.store.vault, sys.calls[c];
    var next := Issued(call.access, call.refresh);
    DraftUnstored(v, call, sys.minted);
    ExchangeKeepsVault(v, w, call, at, sys.minted, sys.chains);
    ExchangeGrows(v, w, call.job.code.id, at, call.access, call.refresh);
    ExchangeStores(v, w, call, at);
    CommitKeepsInv(sys, c, w, next, Extend(sys.chains, call, next));
  }

  lemma RotationCommitKeepsInv(sys: System, c: CallId, w: Vault, at: Time)
    requires Inv(sys) && c in sys.calls && sys.calls[c].Minted? && sys.calls[c].job.Refresh? && sys.calls[c].refresh.Some?
    requires Rotated(sys.store.vault, w, sys.calls[c].job.previous.id, at, sys.calls[c].access, sys.calls[c].refresh.value)
    ensures var next := Issued(sys.calls[c].access, sys.calls[c].refresh);
      Inv(System(sys.store.(vault := w), sys.calls[c := next], sys.minted, Extend(sys.chains, sys.calls[c], next)))
  {
    var v, call := sys.store.vault, sys.calls[c];
    var next := Issued(call.access, call.refresh);
    DraftUnstored(v, call, sys.minted);
    RotationFits(v, call);
    RotationKeepsVault(v, w, call, at, sys.minted, sys.chains);
    RotationGrows(v, w, call.job.previous.id, at, call.access, call.refresh.value);
    RotationStores(v, w, call, at);
    CommitKeepsInv(sys, c, w, next, Extend(sys.chains, call, next));
  }

  /** A call ends, or turns to revoking, without touching the store. */
  /** A commit redeems the code, rotates the token, or leaves the store alone. */
  lemma CommitShape(s: State, call: Call, env: Env)
    requires call.Minted?
    ensures var p := Commit(s, call, env);
      && p.state == s.(vault := p.state.vault)
      && (p.call.Issued? ==>
            && p.call == Issued(call.access, call.refresh)
            && (call.job.Exchange? ==>
                  Exchanged(s.vault, p.state.vault, call.job.code.id, env.now, call.access, call.refresh))
            && (!call.job.Exchange? ==>
                  && call.job.Refresh? && call.refresh.Some?
                  && Rotated(s.vault, p.state.vault, call.job.previous.id, env.now, call.access, call.refresh.value)))
      && (!p.call.Issued? ==> p.state == s && (p.call.Failed? || p.call.RevokingFamily?))
  {
  }

  lemma CommitStep(sys: System, c: CallId, env: Env)
    requires c in sys.calls && sys.calls[c].Minted?
    ensures var p := Commit(sys.store, sys.calls[c], env);
      StepCall(sys, c, env) ==
        System(p.state, sys.calls[c := p.call], sys.minted, Extend(sys.chains, sys.calls[c], p.call))
  {
  }

  lemma ExchangeStepKeepsInv(sys: System, c: CallId, env: Env)
    requires Inv(sys) && c in sys.calls && sys.calls[c].Minted? && sys.calls[c].job.Exchange?
    requires Commit(sys.store, sys.calls[c], env).call.Issued?
    ensures Inv(StepCall(sys, c, env))
  {
    CommitShape(sys.store, sys.calls[c], env);
    CommitStep(sys, c, env);
    ExchangeCommitKeepsInv(sys, c, Commit(sys.store, sys.calls[c], env).state.vault, env.now);
  }

  lemma RotationStepKeepsInv(sys: System, c: CallId, env: Env)
    requires Inv(sys) && c in sys.calls && sys.calls[c].Minted? && !sys.calls[c].job.Exchange?
    requires Commit(sys.store, sys.calls[c], env).call.Issued?
    ensures Inv(StepCall(sys, c, env))
  {
    CommitShape(sys.store, sys.calls[c], env);
    CommitStep(sys, c, env);
    RotationCommitKeepsInv(sys, c, Commit(sys.store, sys.calls[c], env).state.vault, env.now);
  }

  lemma FailedCommitStep(sys: System, c: CallId, env: Env)
    requires c in sys.calls && sys.calls[c].Minted? && !Commit(sys.store, sys.calls[c], env).call.Issued?
    ensures var next := Commit(sys.store, sys.calls[c], env).call;
      StepCall(sys, c, env) == sys.(calls := sys.calls[c := next]) && (next.Failed? || next.RevokingFamily?)
  {
    CommitShape(sys.store, sys.calls[c], env);
    CommitStep(sys, c, env);
  }

  lemma FailedCommitKeepsInv(sys: System, c: CallId, env: Env)
    requires Inv(sys) && c in sys.calls && sys.calls[c].Minted?
    requires !Commit(sys.store, sys.calls[c], env).call.Issued?
    ensures Inv(StepCall(sys, c, env))
  {
    FailedCommitStep(sys, c, env);
    ReplacingKeepsInv(sys, c, Commit(sys.store, sys.calls[c], env).call);
  }

  lemma CommitStepKeepsInv(sys: System, c: CallId, env: Env)
    requires Inv(sys) && c in sys.calls && sys.calls[c].Minted?
    ensures Inv(StepCall(sys, c, env))
  {
    if !Commit(sys.store, sys.calls[c], env).call.Issued? {
      FailedCommitKeepsInv(sys, c, env);
    } else if sys.calls[c].job.Exchange? {
      ExchangeStepKeepsInv(sys, c, env);
    } else {
      RotationStepKeepsInv(sys, c, env);
    }
  }

  // ----- revoking calls and administration -----

  predicate Revokes(call: Call) {
    call.RevokingGrant? || call.RevokingFamily? || call.RevokingAccess?
  }

  lemma RevokeAccessOnlyRevokes(v: Vault, id: Id, at: Time)
    requires id in v.access
    ensures OnlyRevokes(v, v.(access := v.access[id := StampAccess(v.access[id], at)]))
  {
  }

  lemma RevokeStep(sys: System, c: CallId, env: Env)
    requires c in sys.calls && Revokes(sys.calls[c])
    ensures var p := Advance(sys.store, sys.calls[c], env);
      && StepCall(sys, c, env) == sys.(store := sys.store.(vault := p.state.vault), calls := sys.calls[c := p.call])
      && (p.call.Failed? || p.call.Revoked?)
      && (p.state.vault == sys.store.vault || OnlyRevokes(sys.store.vault, p.state.vault))
  {
    var v, call := sys.store.vault, sys.calls[c];
    match call
    case RevokingGrant(g) => RevokeGrantsOnlyRevokes(v, {g}, env.now);
    case RevokingFamily(f, _) => RevokeFamilyOnlyRevokes(v, f, env.now);
    case RevokingAccess(t) => if t in v.access { RevokeAccessOnlyRevokes(v, t, env.now); }
  }

  lemma RevokeStepKeepsInv(sys: System, c: CallId, env: Env)
    requires Inv(sys) && c in sys.calls && Revokes(sys.calls[c])
    ensures Inv(StepCall(sys, c, env))
  {
    var p := Advance(sys.store, sys.calls[c], env);
    RevokeStep(sys, c, env);
    var mid := sys.(store := sys.store.(vault := p.state.vault));
    if p.state.vault != sys.store.vault {
      RevokingKeepsInv(sys, p.state.vault);
    } else {
      assert mid == sys;
    }
    ReplacingKeepsInv(mid, c, p.call);
    assert StepCall(sys, c, env) == mid.(calls := mid.calls[c := p.call]);
  }

  /** Disabling an issuer, a resource or a client only revokes in the vault. */
  lemma DisablingOnlyRevokes(s: State, op: AdminOp, commits: bool)
    requires op.SetIssuerDisabledOp? || op.SetResourceDisabledOp? || op.SetClientDisabledOp?
    ensures var w := Administer(s, op, commits).vault; w == s.vault || OnlyRevokes(s.vault, w)
  {
    var v := s.vault;
    match op
    case SetIssuerDisabledOp(id, _, at) =>
      RevokeGrantsOnlyRevokes(v, (set g | g in v.grants && v.grants[g].issuerId == id), at);
    case SetResourceDisabledOp(id, _, at) =>
      RevokeGrantsOnlyRevokes(v, (set g | g in v.grants && v.grants[g].resourceId == id), at);
    case SetClientDisabledOp(id, _, at) =>
      RevokeGrantsOnlyRevokes(v, (set g | g in v.grants && v.grants[g].clientRecordId == id), at);
  }

  /** An administrative operation leaves the vault alone or only revokes in it. */
  lemma AdminOnlyRevokes(s: State, op: AdminOp, commits: bool, minted: set<Id>)
    requires RefreshOk(s.vault, minted)
    ensures var w := Administer(s, op, commits).vault; w == s.vault || OnlyRevokes(s.vault, w)
  {
    if op.SetIssuerDisabledOp? || op.SetResourceDisabledOp? || op.SetClientDisabledOp? {
      DisablingOnlyRevokes(s, op, commits);
    } else if op.RevokeGrantOp? {
      RevokeGrantsOnlyRevokes(s.vault, {op.id}, op.at);
    } else if op.RevokeUserOp? {
      RevokeUserOnlyRevokes(s.vault, op.userId, op.workspaceId, op.at, minted);
    }
  }

  /** More identifiers may be minted, and the configuration may change. */
  lemma MintedGrows(sys: System, config: Config, more: set<Id>)
    requires Inv(sys)
    ensures Inv(sys.(store := sys.store.(config := config), minted := sys.minted + more))
  {
    var v := sys.store.vault;
    TokensOkGrows(v, sys.minted, more);
    assert HoldingsOk(v.access, v.refresh, sys.calls, sys.minted + more);
  }

  lemma AdminKeepsInv(sys: System, op: AdminOp, commits: bool)
    requires Inv(sys)
    ensures Inv(Apply(sys, AdminEvent(op, commits)))
  {
    var s := Administer(sys.store, op, commits);
    AdminOnlyRevokes(sys.store, op, commits, sys.minted);
    var mid := sys.(store := sys.store.(vault := s.vault));
    if s.vault != sys.store.vault {
      RevokingKeepsInv(sys, s.vault);
    } else {
      assert mid == sys;
    }
    MintedGrows(mid, s.config, Draws(op));
  }

  /** Every event keeps the invariant. */
  lemma ApplyKeepsInv(sys: System, e: Event)
    requires Inv(sys)
    ensures Inv(Apply(sys, e))
  {
    match e
    case AdminEvent(op, commits) => AdminKeepsInv(sys, op, commits);
    case ConsentEvent(consent, commits) => ConsentKeepsInv(sys, consent, commits);
    case StartEvent(c, request) => if c !in sys.calls { ReplacingKeepsInv(sys, c, Begun(request)); }
    case StepEvent(c, env) =>
      if c in sys.calls {
        var call := sys.calls[c];
        if call.IssuerChecked? {
          MintStepKeepsInv(sys, c, env);
        } else if call.Minted? {
          CommitStepKeepsInv(sys, c, env);
        } else if Revokes(call) {
          RevokeStepKeepsInv(sys, c, env);
        } else if call.Refetching? {
          RefetchStepKeepsInv(sys, c, env);
        } else {
          ReadStepKeepsInv(sys, c, env);
        }
      }
  }

  lemma {:induction false} RunKeepsInv(sys: System, events: seq<Event>)
    requires Inv(sys)
    ensures Inv(Run(sys, events))
    decreases |events|
  {
    if events == [] {
    } else {
      ApplyKeepsInv(sys, events[0]);
      RunKeepsInv(Apply(sys, events[0]), events[1..]);
    }
  }

  /** The invariant holds in every state any interleaving can reach. */
  lemma ReachableInv(sys: System)
    requires Reachable(sys)
    ensures Inv(sys)
  {
    var events: seq<Event> :| sys == Run(INITIAL, events);
    InitialInv();
    RunKeepsInv(INITIAL, events);
  }
}
