/** buildRoleCatalog as a whole, and what every accepted catalog guarantees. */
module RoleBuilder {
  import opened Common
  import opened RoleCatalog
  import opened RoleCompiler

  // ----- gathering the definitions -----

  function SetOf<T>(s: seq<T>): set<T> {
    set x | x in s
  }

  /** One more configured part only extends the role it names. */
  lemma PartExtends(configured: seq<RoleDefinition>, raw: RoleDefinition, r: Role)
    ensures var before, after := Part(configured, r), Part(configured + [raw], r);
      after == if r == raw.role
               then Definition(before.permissions + SetOf(raw.permissions), before.inherits + SetOf(raw.inherits))
               else before
  {
    var longer := configured + [raw];
    var before, after := Part(configured, r), Part(longer, r);
    assert longer[|configured|] == raw && forall i | 0 <= i < |configured| :: longer[i] == configured[i];
    if r == raw.role {
      assert after.permissions == before.permissions + SetOf(raw.permissions);
      assert after.inherits == before.inherits + SetOf(raw.inherits);
    } else {
      assert after.permissions == before.permissions;
      assert after.inherits == before.inherits;
    }
  }

  lemma RolesExtend(configured: seq<RoleDefinition>, raw: RoleDefinition)
    ensures DefinedRoles(configured + [raw]) == DefinedRoles(configured) + {raw.role}
  {
    var longer := configured + [raw];
    assert longer[|configured|] == raw && forall i | 0 <= i < |configured| :: longer[i] == configured[i];
  }

  /** A role no part names yet has nothing of its own. */
  lemma UndefinedPart(configured: seq<RoleDefinition>, r: Role)
    requires r !in DefinedRoles(configured)
    ensures Part(configured, r) == Builtin(r)
  {
    assert Part(configured, r).permissions == Builtin(r).permissions;
    assert Part(configured, r).inherits == Builtin(r).inherits;
  }

  lemma MemberIsInherited(configured: seq<RoleDefinition>, r: Role)
    requires r != MEMBER
    ensures MEMBER in Part(configured, r).inherits
  {
  }

  lemma PartsExtend(configured: seq<RoleDefinition>, raw: RoleDefinition)
    ensures Parts(configured + [raw]) == Parts(configured)[raw.role := Part(configured + [raw], raw.role)]
  {
    RolesExtend(configured, raw);
    forall r | r in DefinedRoles(configured) && r != raw.role ensures Part(configured + [raw], r) == Part(configured, r) {
      PartExtends(configured, raw, r);
    }
  }

  /** Merges the configured parts role by role, giving every other role `member`. */
  method GatherDefinitions(configured: seq<RoleDefinition>) returns (defs: Option<Definitions>)
    ensures defs.Some? <==> forall d | d in configured :: ValidRole(d.role)
    ensures defs.Some? ==> defs.value == Parts(configured)
  {
    var gathered: Definitions := map[MEMBER := Definition({WORKSPACE_ACCESS}, {}),
                                     ADMIN := Definition(ADMIN_PERMISSIONS, {MEMBER})];
    NoParts(gathered);
    for i := 0 to |configured|
      invariant gathered == Parts(configured[..i])
      invariant forall d | d in configured[..i] :: ValidRole(d.role)
    {
      var raw := configured[i];
      assert configured[..i + 1] == configured[..i] + [raw];
      if !ValidRole(raw.role) {
        assert raw in configured;
        return None;
      }
      var definition := if raw.role in gathered then gathered[raw.role] else Definition({}, {});
      definition := Definition(definition.permissions + SetOf(raw.permissions), definition.inherits + SetOf(raw.inherits));
      if raw.role != MEMBER && raw.role != ADMIN && MEMBER !in definition.inherits {
        definition := definition.(inherits := definition.inherits + {MEMBER});
      }
      OnePart(configured[..i], raw, definition);
      gathered := gathered[raw.role := definition];
    }
    assert configured[..|configured|] == configured;
    return Some(gathered);
  }

  lemma NoParts(builtin: Definitions)
    requires builtin == map[MEMBER := Definition({WORKSPACE_ACCESS}, {}), ADMIN := Definition(ADMIN_PERMISSIONS, {MEMBER})]
    ensures builtin == Parts([])
  {
    var none: seq<RoleDefinition> := [];
    forall r | r in builtin ensures Part(none, r) == builtin[r] {
      assert Part(none, r).permissions == builtin[r].permissions;
      assert Part(none, r).inherits == builtin[r].inherits;
    }
    assert DefinedRoles(none) == {MEMBER, ADMIN};
  }

  /** What one iteration writes is what the longer configuration says of the role. */
  lemma OnePart(configured: seq<RoleDefinition>, raw: RoleDefinition, definition: Definition)
    requires var known := raw.role in Parts(configured);
      var d := if known then Parts(configured)[raw.role] else Definition({}, {});
      && definition.permissions == d.permissions + SetOf(raw.permissions)
      && definition.inherits == d.inherits + SetOf(raw.inherits) +
           (if raw.role != MEMBER && raw.role != ADMIN && MEMBER !in d.inherits + SetOf(raw.inherits) then {MEMBER} else {})
    ensures Parts(configured + [raw]) == Parts(configured)[raw.role := definition]
  {
    PartsExtend(configured, raw);
    PartExtends(configured, raw, raw.role);
    if raw.role !in DefinedRoles(configured) {
      UndefinedPart(configured, raw.role);
    }
    assert Part(configured + [raw], raw.role).inherits == definition.inherits;
    assert Part(configured + [raw], raw.role).permissions == definition.permissions;
  }

  // ----- the whole build -----

  lemma AccessNamesValid()
    ensures ValidPermission("workspace.access") && ValidPermission("oauth.resource.manage")
  {
  }

  lemma UserNamesValid()
    ensures ValidPermission("workspace.users.read") && ValidPermission("workspace.users.write")
  {
  }

  lemma SettingsNamesValid()
    ensures ValidPermission("workspace.settings.write") && ValidPermission("workspace.rbac.write")
  {
  }

  lemma AuditNamesValid()
    ensures ValidPermission("workspace.audit.read") && ValidPermission("workspace.credentials.manage")
  {
  }

  lemma BuiltinNamesValid()
    ensures forall p | p in ADMIN_PERMISSIONS :: ValidPermission(p)
  {
    AccessNamesValid();
    UserNamesValid();
    SettingsNamesValid();
    AuditNamesValid();
  }

  /** The permissions of all parts are valid exactly when the configured ones are. */
  lemma PermissionNames(configured: seq<RoleDefinition>)
    ensures (forall p | p in AllPermissions(Parts(configured)) :: ValidPermission(p)) <==>
            (forall d | d in configured :: forall p | p in d.permissions :: ValidPermission(p))
  {
    BuiltinNamesValid();
    var parts := Parts(configured);
    forall d, p | d in configured && p in d.permissions ensures p in AllPermissions(parts) {
      assert d.role in parts && p in parts[d.role].permissions;
    }
    forall p | p in AllPermissions(parts)
      ensures p in ADMIN_PERMISSIONS || exists d | d in configured :: p in d.permissions
    {
      var r :| r in parts && p in parts[r].permissions;
      if p !in Builtin(r).permissions {
        var i :| 0 <= i < |configured| && p in configured[i].permissions && configured[i].role == r;
        assert configured[i] in configured;
      }
    }
  }

  /** Collects the permissions of every definition, refusing a malformed one. */
  method CollectPermissions(defs: Definitions) returns (all: Option<set<Permission>>)
    ensures all.Some? <==> forall p | p in AllPermissions(defs) :: ValidPermission(p)
    ensures all.Some? ==> all.value == AllPermissions(defs)
  {
    var collected: set<Permission> := {};
    var todo := defs.Keys;
    while todo != {}
      invariant todo <= defs.Keys
      invariant collected == set r, p | r in defs && r !in todo && p in defs[r].permissions :: p
      invariant forall p | p in collected :: ValidPermission(p)
      decreases |todo|
    {
      var role :| role in todo;
      if p :| p in defs[role].permissions && !ValidPermission(p) {
        assert p in AllPermissions(defs);
        return None;
      }
      collected := collected + defs[role].permissions;
      todo := todo - {role};
    }
    assert collected == AllPermissions(defs);
    return Some(collected);
  }

  /** The build succeeds exactly on well-named, acyclic configurations that define every
      role they inherit, and yields the catalog they determine. */
  method BuildRoleCatalog(configured: seq<RoleDefinition>) returns (catalog: Option<Catalog>)
    ensures catalog.Some? <==> Accepted(configured)
    ensures catalog.Some? ==> IsCatalog(configured, catalog.value)
  {
    var gathered := GatherDefinitions(configured);
    if gathered.None? {
      return None;
    }
    var parts := gathered.value;
    var permissions := CollectPermissions(parts);
    PermissionNames(configured);
    if permissions.None? {
      return None;
    }
    var admin := parts[ADMIN];
    var defs := parts[ADMIN := admin.(permissions := admin.permissions + permissions.value)];
    NormalisedPermissions(configured);
    var compiler := new Compiler(defs);
    var ok := compiler.CompileAll();
    if !ok {
      return None;
    }
    return Some(Catalog(compiler.memo, permissions.value));
  }

  lemma NormalisedPermissions(configured: seq<RoleDefinition>)
    ensures AllPermissions(Normalised(configured)) == AllPermissions(Parts(configured))
  {
    var parts, defs := Parts(configured), Normalised(configured);
    forall p | p in AllPermissions(parts) ensures p in AllPermissions(defs) {
      assert p in defs[ADMIN].permissions;
    }
    forall p | p in AllPermissions(defs) ensures p in AllPermissions(parts) {
      var r :| r in defs && p in defs[r].permissions;
    }
  }

  // ----- what an accepted catalog guarantees -----

  /** The configuration alone determines the catalog, whatever order the maps are iterated. */
  lemma CatalogIsUnique(configured: seq<RoleDefinition>, a: Catalog, b: Catalog)
    requires IsCatalog(configured, a) && IsCatalog(configured, b)
    ensures a == b
  {
    forall r | r in a.roles ensures a.roles[r] == b.roles[r] {
      assert CompiledOk(Normalised(configured), r, a.roles[r]) && CompiledOk(Normalised(configured), r, b.roles[r]);
      assert a.roles[r].roles == b.roles[r].roles;
    }
    assert a.roles == b.roles;
  }

  lemma EveryRoleIncludesMember(configured: seq<RoleDefinition>, catalog: Catalog, r: Role)
    requires IsCatalog(configured, catalog) && r in catalog.roles
    ensures Includes(catalog, r, MEMBER) && Allows(catalog, r, WORKSPACE_ACCESS)
  {
    var defs := Normalised(configured);
    if r != MEMBER {
      MemberIsInherited(configured, r);
      ReachesSelf(defs, MEMBER);
      ReachesThrough(defs, r, MEMBER, MEMBER);
    } else {
      ReachesSelf(defs, MEMBER);
    }
    assert CompiledOk(defs, r, catalog.roles[r]);
    assert WORKSPACE_ACCESS in defs[MEMBER].permissions;
  }

  /** The administrator is allowed exactly what any role is allowed. */
  lemma AdminAllowsEverything(configured: seq<RoleDefinition>, catalog: Catalog, p: Permission)
    requires IsCatalog(configured, catalog)
    ensures Allows(catalog, ADMIN, p) <==> p in catalog.permissions
    ensures Allows(catalog, ADMIN, p) <==> exists r :: Allows(catalog, r, p)
  {
    var defs := Normalised(configured);
    var admin := catalog.roles[ADMIN];
    assert CompiledOk(defs, ADMIN, admin);
    ReachesSelf(defs, ADMIN);
    NormalisedPermissions(configured);
    if p in catalog.permissions {
      assert ADMIN in admin.roles && p in defs[ADMIN].permissions;
    }
    forall r | Allows(catalog, r, p) ensures p in catalog.permissions {
      assert CompiledOk(defs, r, catalog.roles[r]);
    }
  }

  lemma ReachesGrows(small: Definitions, large: Definitions, r: Role, s: Role)
    requires forall t | t in small :: t in large && small[t].inherits <= large[t].inherits
    requires Reaches(small, r, s)
    ensures Reaches(large, r, s)
  {
    var path :| IsPath(small, path) && Joins(path, r, s);
    assert IsPath(large, path) by {
      forall i | 0 <= i < |path| - 1 ensures Edge(large, path[i], path[i + 1]) {
        assert Edge(small, path[i], path[i + 1]);
      }
    }
  }

  lemma DefinitionsGrow(configured: seq<RoleDefinition>, more: seq<RoleDefinition>, t: Role)
    requires t in Normalised(configured)
    ensures var small, large := Normalised(configured), Normalised(configured + more);
      t in large && small[t].inherits <= large[t].inherits && small[t].permissions <= large[t].permissions
  {
    var longer := configured + more;
    assert forall i | 0 <= i < |configured| :: longer[i] == configured[i];
    assert forall u | u in Parts(configured) ::
      u in Parts(longer) && Part(configured, u).permissions <= Part(longer, u).permissions
      && Part(configured, u).inherits <= Part(longer, u).inherits;
    assert AllPermissions(Parts(configured)) <= AllPermissions(Parts(longer));
  }

  /** Extending an accepted configuration by an accepted one never takes a permission or an
      included role away. */
  lemma ExtensionKeepsPermissions(configured: seq<RoleDefinition>, more: seq<RoleDefinition>, before: Catalog,
                                  after: Catalog, r: Role)
    requires IsCatalog(configured, before) && IsCatalog(configured + more, after) && r in before.roles
    ensures r in after.roles
    ensures before.roles[r].roles <= after.roles[r].roles && before.roles[r].permissions <= after.roles[r].permissions
  {
    var small, large := Normalised(configured), Normalised(configured + more);
    forall t | t in small
      ensures t in large && small[t].inherits <= large[t].inherits && small[t].permissions <= large[t].permissions
    {
      DefinitionsGrow(configured, more, t);
    }
    assert CompiledOk(small, r, before.roles[r]) && CompiledOk(large, r, after.roles[r]);
    forall s | s in before.roles[r].roles ensures s in after.roles[r].roles {
      ReachesGrows(small, large, r, s);
    }
  }

  // ----- the catalog, in the words of the configuration -----

  predicate Says(configured: seq<RoleDefinition>, r: Role, p: Permission) {
    exists i | 0 <= i < |configured| :: configured[i].role == r && p in configured[i].permissions
  }

  predicate SaysInherits(configured: seq<RoleDefinition>, r: Role, s: Role) {
    exists i | 0 <= i < |configured| :: configured[i].role == r && s in configured[i].inherits
  }

  /** What holds without being configured. */
  predicate Inborn(r: Role, p: Permission) {
    || (r == "member" && p == "workspace.access")
    || (r == "admin" && p in {"workspace.access", "workspace.users.read", "workspace.users.write", "workspace.settings.write",
                              "workspace.rbac.write", "workspace.audit.read", "workspace.credentials.manage",
                              "oauth.resource.manage"})
  }

  lemma PartsSay(configured: seq<RoleDefinition>, r: Role)
    requires r in Parts(configured)
    ensures forall p :: p in Parts(configured)[r].permissions <==> Says(configured, r, p) || Inborn(r, p)
    ensures forall s :: s in Parts(configured)[r].inherits <==> SaysInherits(configured, r, s) || (s == "member" && r != "member")
  {
  }

  /** The roles are `member`, `admin` and the configured ones. */
  lemma CatalogRolesIff(configured: seq<RoleDefinition>, catalog: Catalog, r: Role)
    requires IsCatalog(configured, catalog)
    ensures r in catalog.roles <==> r == "member" || r == "admin" || exists i | 0 <= i < |configured| :: configured[i].role == r
  {
  }

  /** A role includes itself and what the roles it inherits include: those the configuration
      names, and `member`. */
  lemma IncludesIff(configured: seq<RoleDefinition>, catalog: Catalog, r: Role, s: Role)
    requires IsCatalog(configured, catalog) && !Dangling(Normalised(configured)) && r in catalog.roles
    ensures Includes(catalog, r, s) <==>
      || r == s
      || exists t :: (SaysInherits(configured, r, t) || (t == "member" && r != "member")) && Includes(catalog, t, s)
  {
    var defs := Normalised(configured);
    PartsSay(configured, r);
    assert CompiledOk(defs, r, catalog.roles[r]);
    ReachesSelf(defs, r);
    if Includes(catalog, r, s) && r != s {
      var t := ReachesBy(defs, r, s);
      assert t in defs && CompiledOk(defs, t, catalog.roles[t]);
      assert Includes(catalog, t, s);
    }
    forall t | (SaysInherits(configured, r, t) || (t == "member" && r != "member")) && Includes(catalog, t, s)
      ensures Includes(catalog, r, s)
    {
      assert Edge(defs, r, t) && CompiledOk(defs, t, catalog.roles[t]);
      ReachesThrough(defs, r, t, s);
    }
  }

  lemma NormalisedSays(configured: seq<RoleDefinition>, s: Role, p: Permission)
    requires s in Normalised(configured)
    ensures p in Normalised(configured)[s].permissions <==>
      || Says(configured, s, p) || Inborn(s, p)
      || (s == "admin" && exists u :: Says(configured, u, p) || Inborn(u, p))
  {
    var parts := Parts(configured);
    PartsSay(configured, s);
    if p in AllPermissions(parts) {
      var u :| u in parts && p in parts[u].permissions;
      PartsSay(configured, u);
    }
    forall u | Says(configured, u, p) || Inborn(u, p) ensures p in AllPermissions(parts) {
      assert u in parts;
      PartsSay(configured, u);
      assert p in parts[u].permissions;
    }
  }

  /** A role is allowed what the configuration says of a role it includes, or what that role
      is born with; an administrator, what is said of any. */
  lemma AllowsIff(configured: seq<RoleDefinition>, catalog: Catalog, r: Role, p: Permission)
    requires IsCatalog(configured, catalog) && !Dangling(Normalised(configured)) && r in catalog.roles
    ensures Allows(catalog, r, p) <==>
      exists s :: Includes(catalog, r, s) &&
        (Says(configured, s, p) || Inborn(s, p) || (s == "admin" && exists u :: Says(configured, u, p) || Inborn(u, p)))
  {
    var defs := Normalised(configured);
    assert CompiledOk(defs, r, catalog.roles[r]);
    if Allows(catalog, r, p) {
      var s :| s in catalog.roles[r].roles && s in defs && p in defs[s].permissions;
      NormalisedSays(configured, s, p);
      assert Includes(catalog, r, s);
    }
    forall s | Includes(catalog, r, s) &&
        (Says(configured, s, p) || Inborn(s, p) || (s == "admin" && exists u :: Says(configured, u, p) || Inborn(u, p)))
      ensures Allows(catalog, r, p)
    {
      ReachedIsDefined(defs, r, s);
      NormalisedSays(configured, s, p);
    }
  }

  lemma ReachedIsDefined(defs: Definitions, r: Role, s: Role)
    requires !Dangling(defs) && r in defs && Reaches(defs, r, s)
    ensures s in defs
  {
    var path :| IsPath(defs, path) && Joins(path, r, s);
    if |path| > 1 {
      assert Edge(defs, path[|path| - 2], path[|path| - 1]);
    }
  }
}
