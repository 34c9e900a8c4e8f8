/** Workspace roles: the compiler that closes host-supplied inheritance. */
module RoleCatalog {
  type Role = string
  type Permission = string

  /** What the host configures; a role may be defined in several parts. */
  datatype RoleDefinition = RoleDefinition(role: Role, permissions: seq<Permission>, inherits: seq<Role>)

  /** A normalised definition: sorted without duplicates, that is, as sets. */
  datatype Definition = Definition(permissions: set<Permission>, inherits: set<Role>)

  type Definitions = map<Role, Definition>

  datatype Compiled = Compiled(roles: set<Role>, permissions: set<Permission>)

  datatype Catalog = Catalog(roles: map<Role, Compiled>, permissions: set<Permission>)

  const MEMBER: Role := "member"
  const ADMIN: Role := "admin"
  const WORKSPACE_ACCESS: Permission := "workspace.access"
  const ADMIN_PERMISSIONS: set<Permission> := {
    WORKSPACE_ACCESS, "workspace.users.read", "workspace.users.write", "workspace.settings.write",
    "workspace.rbac.write", "workspace.audit.read", "workspace.credentials.manage", "oauth.resource.manage"}

  // ----- names -----

  predicate NameChar(c: char) {
    'a' <= c <= 'z' || '0' <= c <= '9' || c == '.' || c == '_' || c == '-'
  }

  predicate ValidName(s: string, longest: nat) {
    && 1 <= |s| <= longest
    && 'a' <= s[0] <= 'z'
    && forall i | 1 <= i < |s| :: NameChar(s[i])
  }

  const LETTERS: string := "abcdefghijklmnopqrstuvwxyz"
  const NAME_CHARS: string := LETTERS + "0123456789._-"

  lemma LettersIff(c: char)
    ensures 'a' <= c <= 'z' <==> c in LETTERS
  {
    if 'a' <= c <= 'z' {
      assert LETTERS[c as int - 'a' as int] == c;
    }
  }

  lemma NameCharsIff(c: char)
    ensures NameChar(c) <==> c in NAME_CHARS
  {
    LettersIff(c);
    if '0' <= c <= '9' {
      assert "0123456789._-"[c as int - '0' as int] == c;
    }
    assert c in NAME_CHARS <==> c in LETTERS || c in "0123456789._-";
  }

  /** A role has a letter and up to 63, a permission up to 127, letters, digits, dots,
      underscores and hyphens. */
  lemma ValidNamesIff(s: string)
    ensures ValidRole(s) <==> 1 <= |s| <= 64 && s[0] in LETTERS && forall i | 0 <= i < |s| :: s[i] in NAME_CHARS
    ensures ValidPermission(s) <==> 1 <= |s| <= 128 && s[0] in LETTERS && forall i | 0 <= i < |s| :: s[i] in NAME_CHARS
  {
    forall i | 0 <= i < |s| ensures NameChar(s[i]) <==> s[i] in NAME_CHARS {
      NameCharsIff(s[i]);
    }
    if s != "" {
      LettersIff(s[0]);
    }
  }

  predicate ValidRole(r: Role) { ValidName(r, 64) }
  predicate ValidPermission(p: Permission) { ValidName(p, 128) }

  // ----- definitions -----

  /** What every catalog defines of a role before the host's configuration. */
  function Builtin(r: Role): Definition {
    if r == MEMBER then Definition({WORKSPACE_ACCESS}, {})
    else if r == ADMIN then Definition(ADMIN_PERMISSIONS, {MEMBER})
    else Definition({}, {MEMBER})
  }

  function DefinedRoles(configured: seq<RoleDefinition>): set<Role> {
    {MEMBER, ADMIN} + set i | 0 <= i < |configured| :: configured[i].role
  }

  /** Everything the configuration says of one role, in any number of parts. */
  function Part(configured: seq<RoleDefinition>, r: Role): Definition {
    Definition(
      Builtin(r).permissions +
        set i, p | 0 <= i < |configured| && p in configured[i].permissions && configured[i].role == r :: p,
      Builtin(r).inherits +
        set i, s | 0 <= i < |configured| && s in configured[i].inherits && configured[i].role == r :: s)
  }

  function Parts(configured: seq<RoleDefinition>): Definitions {
    map r | r in DefinedRoles(configured) :: Part(configured, r)
  }

  function AllPermissions(defs: Definitions): set<Permission> {
    set r, p | r in defs && p in defs[r].permissions :: p
  }

  /** The definitions that are compiled: the administrator also holds every permission. */
  function Normalised(configured: seq<RoleDefinition>): (defs: Definitions)
    ensures MEMBER in defs && ADMIN in defs
  {
    var parts := Parts(configured);
    parts[ADMIN := parts[ADMIN].(permissions := parts[ADMIN].permissions + AllPermissions(parts))]
  }

  // ----- the inheritance graph -----

  predicate Edge(defs: Definitions, r: Role, s: Role) {
    r in defs && s in defs[r].inherits
  }

  predicate IsPath(defs: Definitions, path: seq<Role>) {
    && path != []
    && forall i | 0 <= i < |path| - 1 :: Edge(defs, path[i], path[i + 1])
  }

  predicate Joins(path: seq<Role>, r: Role, s: Role) {
    path != [] && path[0] == r && path[|path| - 1] == s
  }

  /** `s` is `r` itself or is inherited by it, directly or not. */
  ghost predicate Reaches(defs: Definitions, r: Role, s: Role) {
    exists path :: IsPath(defs, path) && Joins(path, r, s)
  }

  ghost predicate Cyclic(defs: Definitions) {
    exists r, s :: Edge(defs, r, s) && Reaches(defs, s, r)
  }

  predicate Dangling(defs: Definitions) {
    exists r, s | r in defs && s in defs[r].inherits :: s !in defs
  }

  lemma ReachesSelf(defs: Definitions, r: Role)
    ensures Reaches(defs, r, r)
  {
    assert IsPath(defs, [r]) && Joins([r], r, r);
  }

  lemma ReachesThrough(defs: Definitions, r: Role, t: Role, s: Role)
    requires Edge(defs, r, t) && Reaches(defs, t, s)
    ensures Reaches(defs, r, s)
  {
    var path :| IsPath(defs, path) && Joins(path, t, s);
    var longer := [r] + path;
    assert forall i | 0 <= i < |longer| - 1 :: Edge(defs, longer[i], longer[i + 1]) by {
      forall i | 0 <= i < |longer| - 1 ensures Edge(defs, longer[i], longer[i + 1]) {
        if i > 0 {
          assert Edge(defs, path[i - 1], path[i]);
        }
      }
    }
    assert IsPath(defs, longer) && Joins(longer, r, s);
  }

  lemma ReachesThen(defs: Definitions, r: Role, t: Role, s: Role)
    requires Reaches(defs, r, t) && Edge(defs, t, s)
    ensures Reaches(defs, r, s)
  {
    var path :| IsPath(defs, path) && Joins(path, r, t);
    var longer := path + [s];
    assert IsPath(defs, longer) by {
      forall i | 0 <= i < |longer| - 1 ensures Edge(defs, longer[i], longer[i + 1]) {
        if i < |path| - 1 {
          assert Edge(defs, path[i], path[i + 1]);
        }
      }
    }
    assert Joins(longer, r, s);
  }

  /** A role other than `r` is reached through one of its parents. */
  lemma ReachesBy(defs: Definitions, r: Role, s: Role) returns (t: Role)
    requires Reaches(defs, r, s) && r != s
    ensures Edge(defs, r, t) && Reaches(defs, t, s)
  {
    var path :| IsPath(defs, path) && Joins(path, r, s);
    t := path[1];
    assert Edge(defs, path[0], path[1]);
    var rest := path[1..];
    assert IsPath(defs, rest) by {
      forall i | 0 <= i < |rest| - 1 ensures Edge(defs, rest[i], rest[i + 1]) {
        assert Edge(defs, path[i + 1], path[i + 2]);
      }
    }
    assert Joins(rest, t, s);
  }

  // ----- what compiling means -----

  function Union(defs: Definitions, roles: set<Role>): set<Permission> {
    set r, p | r in roles && r in defs && p in defs[r].permissions :: p
  }

  /** The compiled role set is what inheritance reaches, and the permissions are theirs. */
  ghost predicate CompiledOk(defs: Definitions, r: Role, c: Compiled) {
    && (forall s :: s in c.roles <==> Reaches(defs, r, s))
    && c.permissions == Union(defs, c.roles)
  }

  ghost predicate IsCatalog(configured: seq<RoleDefinition>, catalog: Catalog) {
    var defs := Normalised(configured);
    && catalog.roles.Keys == defs.Keys
    && (forall r | r in catalog.roles :: CompiledOk(defs, r, catalog.roles[r]))
    && catalog.permissions == AllPermissions(defs)
  }

  predicate WellNamed(configured: seq<RoleDefinition>) {
    && (forall d | d in configured :: ValidRole(d.role))
    && (forall d | d in configured :: forall p | p in d.permissions :: ValidPermission(p))
  }

  ghost predicate Accepted(configured: seq<RoleDefinition>) {
    WellNamed(configured) && !Dangling(Normalised(configured)) && !Cyclic(Normalised(configured))
  }

  predicate Includes(catalog: Catalog, r: Role, required: Role) {
    r in catalog.roles && required in catalog.roles[r].roles
  }

  predicate Allows(catalog: Catalog, r: Role, p: Permission) {
    r in catalog.roles && p in catalog.roles[r].permissions
  }
}
