/** The in-memory store itself: one map per record kind and per index, updated in place
    under its lock. Every mutator checks, snapshots, mutates, and rolls back to the
    snapshot if the transaction hook fails; each is proved to do what the specification
    function of the same name says. */
module OAuthStore {
  import opened Common
  import opened Uuid
  import opened OAuthRecords
  import opened OAuthSpec

  /** The fate of the commit that carries a mutation: the audit event is acceptable,
      and the transaction hook succeeds. */
  datatype Commit = Commit(auditable: bool, hook: bool) {
    predicate Passes() { auditable && hook }
  }

  // ----- revoking grants one at a time -----

  /** Revoking one more grant after a set of them is revoking the larger set: tokens
      already stamped keep their stamp. */
  lemma RevokeOneMore(v: Vault, gs: set<Id>, g: Id, at: Time)
    ensures RevokeGrants(RevokeGrants(v, gs, at), {g}, at) == RevokeGrants(v, gs + {g}, at)
    ensures RevokeGrants(v, gs, at).grants.Keys == v.grants.Keys
    ensures g in v.grants && g !in gs ==> RevokeGrants(v, gs, at).grants[g] == v.grants[g]
  {
    var one, two := RevokeGrants(RevokeGrants(v, gs, at), {g}, at), RevokeGrants(v, gs + {g}, at);
    assert one.grants == two.grants;
    assert one.access == two.access;
    assert one.refresh == two.refresh;
  }

  lemma StampOne(v: Vault, g: Id, at: Time)
    requires g in v.grants
    ensures RevokeGrants(v, {g}, at).grants == v.grants[g := StampGrant(v.grants[g], at)]
    ensures RevokeGrants(v, {g}, at) ==
      v.(grants := RevokeGrants(v, {g}, at).grants, access := RevokeGrants(v, {g}, at).access,
         refresh := RevokeGrants(v, {g}, at).refresh)
  {
  }

  lemma SameTokens(v: Vault, w: Vault, gs: set<Id>, at: Time)
    ensures v.access == w.access ==> RevokeGrants(v, gs, at).access == RevokeGrants(w, gs, at).access
    ensures v.refresh == w.refresh ==> RevokeGrants(v, gs, at).refresh == RevokeGrants(w, gs, at).refresh
  {
  }

  lemma RevokeNone(v: Vault, at: Time)
    ensures RevokeGrants(v, {}, at) == v
  {
    var none := RevokeGrants(v, {}, at);
    assert none.grants == v.grants && none.access == v.access && none.refresh == v.refresh;
  }

  lemma FamilyAccess(v: Vault, familyId: Id, at: Time)
    ensures RevokeFamilyVault(v, familyId, at).access == RevokeGrants(v, FamilyGrants(v, familyId), at).access
  {
  }

  lemma SameUserTokens(v: Vault, w: Vault, userId: Id, workspaceId: Id, at: Time)
    ensures v.access == w.access ==>
      RevokeUserVault(v, userId, workspaceId, at).access == RevokeUserVault(w, userId, workspaceId, at).access
    ensures v.refresh == w.refresh ==>
      RevokeUserVault(v, userId, workspaceId, at).refresh == RevokeUserVault(w, userId, workspaceId, at).refresh
  {
  }

  class Store {
    var config: Config
    var grants: map<Id, Grant>
    var codes: map<Id, Code>
    var codeKeys: map<string, Id>
    var access: map<Id, AccessToken>
    var accessKeys: map<string, Id>
    var refresh: map<Id, RefreshToken>
    var refreshKeys: map<string, Id>

    function ViewVault(): Vault
      reads this
    {
      Vault(grants, codes, codeKeys, access, accessKeys, refresh, refreshKeys)
    }

    function View(): State
      reads this
    {
      State(config, ViewVault())
    }

    constructor ()
      ensures View() == EMPTY
    {
      config := EMPTY_CONFIG;
      grants := map[];
      codes, codeKeys := map[], map[];
      access, accessKeys := map[], map[];
      refresh, refreshKeys := map[], map[];
    }

    /** Puts every map back to a snapshot. */
    method Restore(previous: State)
      modifies this
      ensures View() == previous
    {
      var v := previous.vault;
      config := previous.config;
      grants := v.grants;
      codes, codeKeys := v.codes, v.codeKeys;
      access, accessKeys := v.access, v.accessKeys;
      refresh, refreshKeys := v.refresh, v.refreshKeys;
    }

    /** Runs the hook on the mutated state; a failing hook undoes the mutation. */
    method Finish(previous: State, commit: Commit) returns (reply: Reply)
      requires commit.auditable
      modifies this
      ensures reply == if commit.Passes() then Ok else Refused(CommitFailed)
      ensures View() == if commit.Passes() then old(View()) else previous
    {
      if !commit.hook {
        Restore(previous);
        return Refused(CommitFailed);
      }
      return Ok;
    }

    // ----- the stamping loops -----

    method StampAccessUnder(gs: set<Id>, at: Time)
      modifies this`access
      ensures access == RevokeGrants(old(ViewVault()), gs, at).access
    {
      ghost var spec := RevokeGrants(ViewVault(), gs, at).access;
      var todo := access.Keys;
      while todo != {}
        invariant todo <= access.Keys == old(access).Keys
        invariant forall id | id in access :: access[id] == if id in todo then old(access)[id] else spec[id]
      {
        var id :| id in todo;
        var token := access[id];
        if token.grantId in gs && token.revokedAt.None? {
          access := access[id := token.(revokedAt := Some(at))];
        }
        todo := todo - {id};
      }
    }

    method StampRefreshUnder(gs: set<Id>, at: Time)
      modifies this`refresh
      ensures refresh == RevokeGrants(old(ViewVault()), gs, at).refresh
    {
      ghost var spec := RevokeGrants(ViewVault(), gs, at).refresh;
      var todo := refresh.Keys;
      while todo != {}
        invariant todo <= refresh.Keys == old(refresh).Keys
        invariant forall id | id in refresh :: refresh[id] == if id in todo then old(refresh)[id] else spec[id]
      {
        var id :| id in todo;
        var token := refresh[id];
        if token.grantId in gs && token.revokedAt.None? {
          refresh := refresh[id := token.(revokedAt := Some(at))];
        }
        todo := todo - {id};
      }
    }

    /** A missing grant is left alone, tokens included. */
    method RevokeGrantLocked(grantId: Id, at: Time)
      modifies this`grants, this`access, this`refresh
      ensures ViewVault() ==
        if grantId in old(grants) then RevokeGrants(old(ViewVault()), {grantId}, at) else old(ViewVault())
    {
      if grantId !in grants {
        return;
      }
      ghost var before := ViewVault();
      StampOne(before, grantId, at);
      grants := grants[grantId := StampGrant(grants[grantId], at)];
      SameTokens(before, ViewVault(), {grantId}, at);
      StampAccessUnder({grantId}, at);
      SameTokens(before, ViewVault(), {grantId}, at);
      StampRefreshUnder({grantId}, at);
    }

    /** One iteration of a walk over the grants: `id` is visited, and `done` are revoked. */
    method VisitGrant(id: Id, chosen: bool, at: Time, ghost before: Vault, ghost done: set<Id>)
      requires id in before.grants && id !in done && ViewVault() == RevokeGrants(before, done, at)
      modifies this`grants, this`access, this`refresh
      ensures ViewVault() == RevokeGrants(before, if chosen then done + {id} else done, at)
    {
      RevokeOneMore(before, done, id, at);
      if chosen {
        RevokeGrantLocked(id, at);
      }
    }

    method RevokeGrantsOfIssuer(owner: Id, at: Time)
      modifies this`grants, this`access, this`refresh
      ensures ViewVault() == RevokeGrants(old(ViewVault()), GrantsOfIssuer(old(grants), owner), at)
    {
      ghost var before := ViewVault();
      var todo := grants.Keys;
      RevokeNone(before, at);
      assert GrantsOfIssuer(grants, owner) - todo == {};
      while todo != {}
        invariant todo <= before.grants.Keys == grants.Keys
        invariant ViewVault() == RevokeGrants(before, GrantsOfIssuer(before.grants, owner) - todo, at)
      {
        var id :| id in todo;
        ghost var done := GrantsOfIssuer(before.grants, owner) - todo;
        RevokeOneMore(before, done, id, at);
        VisitGrant(id, grants[id].issuerId == owner, at, before, done);
        todo := todo - {id};
        assert GrantsOfIssuer(before.grants, owner) - todo ==
          if before.grants[id].issuerId == owner then done + {id} else done;
      }
      assert GrantsOfIssuer(before.grants, owner) - {} == GrantsOfIssuer(before.grants, owner);
    }

    method RevokeGrantsOfResource(owner: Id, at: Time)
      modifies this`grants, this`access, this`refresh
      ensures ViewVault() == RevokeGrants(old(ViewVault()), GrantsOfResource(old(grants), owner), at)
    {
      ghost var before := ViewVault();
      var todo := grants.Keys;
      RevokeNone(before, at);
      assert GrantsOfResource(grants, owner) - todo == {};
      while todo != {}
        invariant todo <= before.grants.Keys == grants.Keys
        invariant ViewVault() == RevokeGrants(before, GrantsOfResource(before.grants, owner) - todo, at)
      {
        var id :| id in todo;
        ghost var done := GrantsOfResource(before.grants, owner) - todo;
        RevokeOneMore(before, done, id, at);
        VisitGrant(id, grants[id].resourceId == owner, at, before, done);
        todo := todo - {id};
        assert GrantsOfResource(before.grants, owner) - todo ==
          if before.grants[id].resourceId == owner then done + {id} else done;
      }
      assert GrantsOfResource(before.grants, owner) - {} == GrantsOfResource(before.grants, owner);
    }

    method RevokeGrantsOfClient(owner: Id, at: Time)
      modifies this`grants, this`access, this`refresh
      ensures ViewVault() == RevokeGrants(old(ViewVault()), GrantsOfClient(old(grants), owner), at)
    {
      ghost var before := ViewVault();
      var todo := grants.Keys;
      RevokeNone(before, at);
      assert GrantsOfClient(grants, owner) - todo == {};
      while todo != {}
        invariant todo <= before.grants.Keys == grants.Keys
        invariant ViewVault() == RevokeGrants(before, GrantsOfClient(before.grants, owner) - todo, at)
      {
        var id :| id in todo;
        ghost var done := GrantsOfClient(before.grants, owner) - todo;
        RevokeOneMore(before, done, id, at);
        VisitGrant(id, grants[id].clientRecordId == owner, at, before, done);
        todo := todo - {id};
        assert GrantsOfClient(before.grants, owner) - todo ==
          if before.grants[id].clientRecordId == owner then done + {id} else done;
      }
      assert GrantsOfClient(before.grants, owner) - {} == GrantsOfClient(before.grants, owner);
    }

    // ----- disabling -----

    method SetIssuerDisabled(id: Id, disabled: bool, at: Time, commit: Commit) returns (reply: Reply)
      modifies this
      ensures var spec := OAuthSpec.SetIssuerDisabled(old(View()), id, disabled, at, commit.Passes());
        reply == spec.reply && View() == spec.state
    {
      if id !in config.issuers {
        return Refused(NotFound);
      }
      if !commit.auditable {
        return Refused(CommitFailed);
      }
      var previous := View();
      var issuer := config.issuers[id].(disabledAt := if disabled then Some(at) else None, updatedAt := at);
      config := config.(issuers := config.issuers[id := issuer]);
      if disabled {
        RevokeGrantsOfIssuer(id, at);
      }
      reply := Finish(previous, commit);
    }

    method SetResourceDisabled(id: Id, disabled: bool, at: Time, commit: Commit) returns (reply: Reply)
      modifies this
      ensures var spec := OAuthSpec.SetResourceDisabled(old(View()), id, disabled, at, commit.Passes());
        reply == spec.reply && View() == spec.state
    {
      if id !in config.resources {
        return Refused(NotFound);
      }
      if !commit.auditable {
        return Refused(CommitFailed);
      }
      var previous := View();
      var resource := config.resources[id].(disabledAt := if disabled then Some(at) else None, updatedAt := at);
      config := config.(resources := config.resources[id := resource]);
      if disabled {
        RevokeGrantsOfResource(id, at);
      }
      reply := Finish(previous, commit);
    }

    method SetClientDisabled(id: Id, disabled: bool, at: Time, commit: Commit) returns (reply: Reply)
      modifies this
      ensures var spec := OAuthSpec.SetClientDisabled(old(View()), id, disabled, at, commit.Passes());
        reply == spec.reply && View() == spec.state
    {
      if id !in config.clients {
        return Refused(NotFound);
      }
      if !commit.auditable {
        return Refused(CommitFailed);
      }
      var previous := View();
      var client := config.clients[id].(disabledAt := if disabled then Some(at) else None, updatedAt := at);
      config := config.(clients := config.clients[id := client]);
      if disabled {
        RevokeGrantsOfClient(id, at);
      }
      reply := Finish(previous, commit);
    }

    // ----- clients -----

    method CountActiveDcr(issuerId: Id) returns (active: nat)
      ensures active == |ActiveDcrClients(config, issuerId)|
    {
      active := 0;
      ghost var counted: set<Id> := {};
      var todo := config.clients.Keys;
      while todo != {}
        invariant todo <= config.clients.Keys
        invariant counted == ActiveDcrClients(config, issuerId) - todo
        invariant active == |counted|
      {
        var id :| id in todo;
        var existing := config.clients[id];
        if existing.issuerId == issuerId && existing.source.Dcr? && existing.disabledAt.None? {
          active := active + 1;
          counted := counted + {id};
        }
        todo := todo - {id};
      }
      assert counted == ActiveDcrClients(config, issuerId);
    }

    method MayCreateClient(client: Client, initialId: Id, usedAt: Time) returns (reply: Reply)
      ensures reply == CheckCreateClient(config, client, initialId, usedAt)
    {
      if client.issuerId !in config.issuers {
        return Refused(NotFound);
      }
      var issuer := config.issuers[client.issuerId];
      if client.source.Dcr? && issuer.dcrMode.DcrOpen? {
        var active := CountActiveDcr(client.issuerId);
        if active >= issuer.dcrOpenLimit {
          return Refused(Conflict);
        }
      }
      if client.id in config.clients || ClientKey(client.issuerId, client.clientId) in config.clientKeys {
        return Refused(Conflict);
      }
      if initialId != NO_ID {
        if initialId !in config.initialTokens || config.initialTokens[initialId].issuerId != client.issuerId {
          return Refused(NotFound);
        }
        var initial := config.initialTokens[initialId];
        if initial.revokedAt.Some? || usedAt >= initial.expiresAt || initial.registrations >= initial.maxRegistrations {
          return Refused(Conflict);
        }
      }
      return Ok;
    }

    method CreateClient(client: Client, initialId: Id, usedAt: Time, commit: Commit) returns (reply: Reply)
      modifies this
      ensures var spec := OAuthSpec.CreateClient(old(View()), client, initialId, usedAt, commit.Passes());
        reply == spec.reply && View() == spec.state
    {
      var check := MayCreateClient(client, initialId, usedAt);
      if check.Refused? {
        return check;
      }
      if !commit.auditable {
        return Refused(CommitFailed);
      }
      var previous := View();
      var key := ClientKey(client.issuerId, client.clientId);
      config := config.(clients := config.clients[client.id := client], clientKeys := config.clientKeys[key := client.id]);
      if initialId != NO_ID {
        var initial := config.initialTokens[initialId];
        config := config.(
          initialTokens := config.initialTokens[initialId := initial.(registrations := initial.registrations + 1)]);
      }
      reply := Finish(previous, commit);
    }

    // ----- grants, codes and tokens -----

    method CreateGrantAndCode(grant: Grant, code: Code, commit: Commit) returns (reply: Reply)
      modifies this
      ensures var spec := OAuthSpec.CreateGrantAndCode(old(View()), grant, code, commit.Passes());
        reply == spec.reply && View() == spec.state
    {
      if grant.clientRecordId !in config.clients || grant.resourceId !in config.resources {
        return Refused(NotFound);
      }
      if grant.id in grants || code.id in codes || code.prefix in codeKeys {
        return Refused(Conflict);
      }
      if !commit.auditable {
        return Refused(CommitFailed);
      }
      var previous := View();
      grants := grants[grant.id := grant];
      codes, codeKeys := codes[code.id := code], codeKeys[code.prefix := code.id];
      reply := Finish(previous, commit);
    }

    method RevokeGrant(id: Id, at: Time, commit: Commit) returns (reply: Reply)
      modifies this
      ensures var spec := OAuthSpec.RevokeGrant(old(View()), id, at, commit.Passes());
        reply == spec.reply && View() == spec.state
    {
      if id !in grants {
        return Refused(NotFound);
      }
      if !commit.auditable {
        return Refused(CommitFailed);
      }
      var previous := View();
      RevokeGrantLocked(id, at);
      reply := Finish(previous, commit);
    }

    method ConsumeCode(codeId: Id, usedAt: Time, accessToken: AccessToken, refreshToken: Option<RefreshToken>,
                       commit: Commit) returns (reply: Reply)
      modifies this
      ensures var spec := OAuthSpec.ConsumeCode(old(View()), codeId, usedAt, accessToken, refreshToken, commit.Passes());
        reply == spec.reply && View() == spec.state
    {
      if codeId !in codes {
        return Refused(NotFound);
      }
      if codes[codeId].usedAt.Some? || usedAt >= codes[codeId].expiresAt {
        return Refused(Conflict);
      }
      if accessToken.prefix in accessKeys {
        return Refused(Conflict);
      }
      if refreshToken.Some? && refreshToken.value.prefix in refreshKeys {
        return Refused(Conflict);
      }
      if !commit.auditable {
        return Refused(CommitFailed);
      }
      var previous := View();
      codes := codes[codeId := codes[codeId].(usedAt := Some(usedAt))];
      access, accessKeys := access[accessToken.id := accessToken], accessKeys[accessToken.prefix := accessToken.id];
      if refreshToken.Some? {
        var token := refreshToken.value;
        refresh, refreshKeys := refresh[token.id := token], refreshKeys[token.prefix := token.id];
      }
      reply := Finish(previous, commit);
    }

    method RotateRefresh(previousId: Id, usedAt: Time, accessToken: AccessToken, refreshToken: RefreshToken,
                         commit: Commit) returns (reply: Reply)
      modifies this
      ensures var spec := OAuthSpec.RotateRefresh(old(View()), previousId, usedAt, accessToken, refreshToken, commit.Passes());
        reply == spec.reply && View() == spec.state
    {
      if previousId !in refresh {
        return Refused(NotFound);
      }
      var retired := refresh[previousId];
      if retired.usedAt.Some? || retired.revokedAt.Some? || usedAt >= retired.expiresAt {
        return Refused(Conflict);
      }
      if retired.familyId != refreshToken.familyId || retired.grantId != refreshToken.grantId {
        return Refused(Conflict);
      }
      if accessToken.prefix in accessKeys || refreshToken.prefix in refreshKeys {
        return Refused(Conflict);
      }
      if !commit.auditable {
        return Refused(CommitFailed);
      }
      var previous := View();
      refresh := refresh[previousId := retired.(usedAt := Some(usedAt), replacedById := refreshToken.id)];
      access, accessKeys := access[accessToken.id := accessToken], accessKeys[accessToken.prefix := accessToken.id];
      refresh, refreshKeys := refresh[refreshToken.id := refreshToken], refreshKeys[refreshToken.prefix := refreshToken.id];
      reply := Finish(previous, commit);
    }

    method RevokeAccess(id: Id, at: Time, commit: Commit) returns (reply: Reply)
      modifies this
      ensures var spec := OAuthSpec.RevokeAccess(old(View()), id, at, commit.Passes());
        reply == spec.reply && View() == spec.state
    {
      if id !in access {
        return Refused(NotFound);
      }
      if !commit.auditable {
        return Refused(CommitFailed);
      }
      var previous := View();
      if access[id].revokedAt.None? {
        access := access[id := access[id].(revokedAt := Some(at))];
      }
      reply := Finish(previous, commit);
    }

    method CollectFamilyGrants(familyId: Id) returns (found: set<Id>)
      ensures found == FamilyGrants(ViewVault(), familyId)
    {
      found := {};
      var todo := refresh.Keys;
      while todo != {}
        invariant todo <= refresh.Keys
        invariant found == set id | id in refresh && id !in todo && refresh[id].familyId == familyId :: refresh[id].grantId
      {
        var id :| id in todo;
        if refresh[id].familyId == familyId {
          found := found + {refresh[id].grantId};
        }
        todo := todo - {id};
      }
    }

    method StampFamily(familyId: Id, at: Time)
      modifies this`refresh
      ensures refresh == RevokeFamilyVault(old(ViewVault()), familyId, at).refresh
    {
      ghost var spec := RevokeFamilyVault(ViewVault(), familyId, at).refresh;
      var todo := refresh.Keys;
      while todo != {}
        invariant todo <= refresh.Keys == old(refresh).Keys
        invariant forall id | id in refresh :: refresh[id] == if id in todo then old(refresh)[id] else spec[id]
      {
        var id :| id in todo;
        var token := refresh[id];
        if token.familyId == familyId && token.revokedAt.None? {
          refresh := refresh[id := token.(revokedAt := Some(at))];
        }
        todo := todo - {id};
      }
    }

    method RevokeFamily(familyId: Id, at: Time, commit: Commit) returns (reply: Reply)
      modifies this
      ensures var spec := OAuthSpec.RevokeFamily(old(View()), familyId, at, commit.Passes());
        reply == spec.reply && View() == spec.state
    {
      var descended := CollectFamilyGrants(familyId);
      if descended == {} {
        return Refused(NotFound);
      }
      if !commit.auditable {
        return Refused(CommitFailed);
      }
      var previous := View();
      StampFamily(familyId, at);
      SameTokens(previous.vault, ViewVault(), descended, at);
      StampAccessUnder(descended, at);
      FamilyAccess(previous.vault, familyId, at);
      reply := Finish(previous, commit);
    }

    // ----- the cascade over one user's credentials -----

    method StampGrantsOf(userId: Id, workspaceId: Id, at: Time)
      modifies this`grants
      ensures grants == RevokeUserVault(old(ViewVault()), userId, workspaceId, at).grants
    {
      ghost var spec := RevokeUserVault(ViewVault(), userId, workspaceId, at).grants;
      var todo := grants.Keys;
      while todo != {}
        invariant todo <= grants.Keys == old(grants).Keys
        invariant forall id | id in grants :: grants[id] == if id in todo then old(grants)[id] else spec[id]
      {
        var id :| id in todo;
        var grant := grants[id];
        if grant.userId == userId && grant.revokedAt.None? && (workspaceId == NO_ID || grant.workspaceId == workspaceId) {
          grants := grants[id := grant.(revokedAt := Some(at))];
        }
        todo := todo - {id};
      }
    }

    method StampAccessOf(userId: Id, workspaceId: Id, at: Time)
      modifies this`access
      ensures access == RevokeUserVault(old(ViewVault()), userId, workspaceId, at).access
    {
      ghost var spec := RevokeUserVault(ViewVault(), userId, workspaceId, at).access;
      var todo := access.Keys;
      while todo != {}
        invariant todo <= access.Keys == old(access).Keys
        invariant forall id | id in access :: access[id] == if id in todo then old(access)[id] else spec[id]
      {
        var id :| id in todo;
        var token := access[id];
        if token.userId == userId && token.revokedAt.None? && (workspaceId == NO_ID || token.workspaceId == workspaceId) {
          access := access[id := token.(revokedAt := Some(at))];
        }
        todo := todo - {id};
      }
    }

    method StampRefreshOf(userId: Id, workspaceId: Id, at: Time)
      modifies this`refresh
      ensures refresh == RevokeUserVault(old(ViewVault()), userId, workspaceId, at).refresh
    {
      ghost var spec := RevokeUserVault(ViewVault(), userId, workspaceId, at).refresh;
      var todo := refresh.Keys;
      while todo != {}
        invariant todo <= refresh.Keys == old(refresh).Keys
        invariant forall id | id in refresh :: refresh[id] == if id in todo then old(refresh)[id] else spec[id]
      {
        var id :| id in todo;
        var token := refresh[id];
        if token.userId == userId && token.revokedAt.None? && (workspaceId == NO_ID || token.workspaceId == workspaceId) {
          refresh := refresh[id := token.(revokedAt := Some(at))];
        }
        todo := todo - {id};
      }
    }

    method RevokeUserCredentialsLocked(userId: Id, workspaceId: Id, at: Time)
      modifies this`grants, this`access, this`refresh
      ensures ViewVault() == RevokeUserVault(old(ViewVault()), userId, workspaceId, at)
    {
      ghost var before := ViewVault();
      StampGrantsOf(userId, workspaceId, at);
      SameUserTokens(before, ViewVault(), userId, workspaceId, at);
      StampAccessOf(userId, workspaceId, at);
      SameUserTokens(before, ViewVault(), userId, workspaceId, at);
      StampRefreshOf(userId, workspaceId, at);
    }
  }
}
