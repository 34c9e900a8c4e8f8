/** Directory provisioning: the role a user gets from the groups that contain them. */
module ScimRoles {
  import opened Common
  import opened Uuid
  import RoleCatalog

  type Role = RoleCatalog.Role

  datatype Mapping = Mapping(externalId: string, role: Role, priority: int)

  datatype Group = Group(id: Id, externalId: string, members: seq<Id>, deletedAt: Option<Time>)

  datatype Configuration = Configuration(defaultRole: Role, mappings: seq<Mapping>)

  // ----- the mappings that apply -----

  predicate Contributes(g: Group, user: Id) {
    g.deletedAt.None? && user in g.members
  }

  /** The mappings of one group, in configuration order. */
  function Matching(mappings: seq<Mapping>, externalId: string): seq<Mapping> {
    if mappings == [] then []
    else (if mappings[0].externalId == externalId then [mappings[0]] else []) + Matching(mappings[1..], externalId)
  }

  /** Every mapping that applies to a user, in the order the groups are listed. */
  function Applicable(mappings: seq<Mapping>, groups: seq<Group>, user: Id): seq<Mapping> {
    if groups == [] then []
    else
      (if Contributes(groups[0], user) then Matching(mappings, groups[0].externalId) else []) +
      Applicable(mappings, groups[1..], user)
  }

  // ----- selecting one role -----

  datatype Selection = Undecided | Chosen(role: Role, priority: int) | Ambiguous

  function Consider(s: Selection, m: Mapping): Selection {
    if s.Ambiguous? then s
    else if s.Undecided? || m.priority > s.priority then Chosen(m.role, m.priority)
    else if m.priority == s.priority && m.role != s.role then Ambiguous
    else s
  }

  function Select(s: Selection, ms: seq<Mapping>): Selection
    decreases |ms|
  {
    if ms == [] then s else Select(Consider(s, ms[0]), ms[1..])
  }

  lemma {:induction false} SelectSplits(s: Selection, a: seq<Mapping>, b: seq<Mapping>)
    ensures Select(s, a + b) == Select(Select(s, a), b)
    decreases |a|
  {
    if a == [] {
      assert a + b == b;
    } else {
      assert (a + b)[1..] == a[1..] + b;
      SelectSplits(Consider(s, a[0]), a[1..], b);
    }
  }

  lemma SelectOne(s: Selection, m: Mapping)
    ensures Select(s, [m]) == Consider(s, m)
  {
    assert [m][1..] == [];
    assert Select(Consider(s, m), []) == Consider(s, m);
  }

  /** The role of a user, or none where the mappings are ambiguous. */
  function RoleFor(c: Configuration, groups: seq<Group>, user: Id): Option<Role> {
    match Select(Undecided, Applicable(c.mappings, groups, user))
    case Undecided => Some(c.defaultRole)
    case Chosen(role, _) => Some(role)
    case Ambiguous => None
  }

  /** The nested loops over groups and mappings. */
  method ScimRoleForUser(c: Configuration, groups: seq<Group>, user: Id) returns (role: Option<Role>)
    ensures role == RoleFor(c, groups, user)
  {
    var selectedRole, selectedPriority, selected := c.defaultRole, 0, false;
    ghost var whole := Applicable(c.mappings, groups, user);
    for i := 0 to |groups|
      invariant Select(Undecided, whole) ==
        Select(Held(selected, selectedRole, selectedPriority), Applicable(c.mappings, groups[i..], user))
      invariant !selected ==> selectedRole == c.defaultRole
    {
      var group := groups[i];
      ghost var rest := Applicable(c.mappings, groups[i + 1..], user);
      assert groups[i..][0] == group && groups[i..][1..] == groups[i + 1..];
      if group.deletedAt.Some? || user !in group.members {
        assert Applicable(c.mappings, groups[i..], user) == [] + rest == rest;
        continue;
      }
      assert Applicable(c.mappings, groups[i..], user) == Matching(c.mappings, group.externalId) + rest;
      assert c.mappings[0..] == c.mappings;
      for j := 0 to |c.mappings|
        invariant Select(Undecided, whole) ==
          Select(Held(selected, selectedRole, selectedPriority), Matching(c.mappings[j..], group.externalId) + rest)
        invariant !selected ==> selectedRole == c.defaultRole
      {
        var mapping := c.mappings[j];
        ghost var held := Held(selected, selectedRole, selectedPriority);
        ghost var later := Matching(c.mappings[j + 1..], group.externalId);
        assert c.mappings[j..][0] == mapping && c.mappings[j..][1..] == c.mappings[j + 1..];
        if mapping.externalId != group.externalId {
          assert Matching(c.mappings[j..], group.externalId) == [] + later == later;
          continue;
        }
        assert Matching(c.mappings[j..], group.externalId) + rest == [mapping] + (later + rest);
        SelectSplits(held, [mapping], later + rest);
        SelectOne(held, mapping);
        if !selected || mapping.priority > selectedPriority {
          selectedRole, selectedPriority, selected := mapping.role, mapping.priority, true;
        } else if mapping.priority == selectedPriority && mapping.role != selectedRole {
          AmbiguousStays(later + rest);
          return None;
        }
      }
      assert Matching(c.mappings[|c.mappings|..], group.externalId) + rest == rest;
    }
    assert Select(Undecided, whole) == Held(selected, selectedRole, selectedPriority);
    return Some(selectedRole);
  }

  function Held(selected: bool, role: Role, priority: int): Selection {
    if selected then Chosen(role, priority) else Undecided
  }

  lemma {:induction false} AmbiguousStays(ms: seq<Mapping>)
    ensures Select(Ambiguous, ms) == Ambiguous
  {
    if ms != [] {
      AmbiguousStays(ms[1..]);
    }
  }

  // ----- what the selection means -----

  /** No applicable mapping outranks `m`. */
  predicate Top(ms: seq<Mapping>, m: Mapping) {
    m in ms && forall n | n in ms :: n.priority <= m.priority
  }

  predicate SelectionOk(s: Selection, seen: seq<Mapping>) {
    match s
    case Undecided => seen == []
    case Chosen(role, priority) =>
      && (exists m :: m in seen && m.role == role && m.priority == priority)
      && (forall m | m in seen :: m.priority <= priority && (m.priority == priority ==> m.role == role))
    case Ambiguous => true
  }

  lemma {:induction false} SelectMeans(s: Selection, seen: seq<Mapping>, ms: seq<Mapping>)
    requires SelectionOk(s, seen)
    ensures SelectionOk(Select(s, ms), seen + ms)
    decreases |ms|
  {
    if ms == [] {
      assert seen + ms == seen;
    } else {
      ConsiderMeans(s, seen, ms[0]);
      assert seen + ms == (seen + [ms[0]]) + ms[1..];
      SelectMeans(Consider(s, ms[0]), seen + [ms[0]], ms[1..]);
    }
  }

  lemma ConsiderMeans(s: Selection, seen: seq<Mapping>, m: Mapping)
    requires SelectionOk(s, seen)
    ensures SelectionOk(Consider(s, m), seen + [m])
  {
    assert m in seen + [m];
    if s.Chosen? {
      var n :| n in seen && n.role == s.role && n.priority == s.priority;
      assert n in seen + [m];
    }
  }

  /** A role that is returned is the one shared by every applicable mapping of the highest
      priority, and the default exactly when none applies. */
  lemma RoleIsTop(c: Configuration, groups: seq<Group>, user: Id)
    requires RoleFor(c, groups, user).Some?
    ensures var ms, role := Applicable(c.mappings, groups, user), RoleFor(c, groups, user).value;
      && (ms == [] ==> role == c.defaultRole)
      && (ms != [] ==> exists m :: Top(ms, m) && m.role == role)
      && (forall m | Top(ms, m) :: m.role == role)
  {
    var ms := Applicable(c.mappings, groups, user);
    SelectMeans(Undecided, [], ms);
    assert [] + ms == ms;
    var s := Select(Undecided, ms);
    if s.Chosen? {
      var m :| m in ms && m.role == s.role && m.priority == s.priority;
      assert Top(ms, m);
    }
  }

  /** Two mappings tie below nothing seen so far. */
  predicate TieAt(ms: seq<Mapping>, i: int, j: int) {
    && 0 <= i < j < |ms| && ms[i].priority == ms[j].priority && ms[i].role != ms[j].role
    && forall k | 0 <= k < j :: ms[k].priority <= ms[j].priority
  }

  /** The selection is refused exactly when, somewhere along the list, the best priority met
      so far is claimed for two roles: also when a better mapping comes later. */
  lemma AmbiguousIff(ms: seq<Mapping>)
    ensures Select(Undecided, ms).Ambiguous? <==> exists i, j :: TieAt(ms, i, j)
  {
    assert ms == ms[..|ms|];
    AmbiguousPrefix(ms, |ms|);
  }

  lemma {:induction false} AmbiguousPrefix(ms: seq<Mapping>, n: nat)
    requires n <= |ms|
    ensures Select(Undecided, ms[..n]).Ambiguous? <==> exists i, j :: j < n && TieAt(ms, i, j)
  {
    if n > 0 {
      var s, m := Select(Undecided, ms[..n - 1]), ms[n - 1];
      AmbiguousPrefix(ms, n - 1);
      assert ms[..n] == ms[..n - 1] + [m];
      SelectSplits(Undecided, ms[..n - 1], [m]);
      SelectOne(s, m);
      if s.Ambiguous? {
        var i, j :| j < n - 1 && TieAt(ms, i, j);
        assert j < n;
      } else {
        SelectMeans(Undecided, [], ms[..n - 1]);
        assert [] + ms[..n - 1] == ms[..n - 1];
        TieAtEnd(ms, n, s);
      }
    }
  }

  lemma TieAtEnd(ms: seq<Mapping>, n: nat, s: Selection)
    requires 0 < n <= |ms| && SelectionOk(s, ms[..n - 1]) && !s.Ambiguous?
    requires !exists i, j :: j < n - 1 && TieAt(ms, i, j)
    ensures Consider(s, ms[n - 1]).Ambiguous? <==> exists i, j :: j < n && TieAt(ms, i, j)
  {
    var m, seen := ms[n - 1], ms[..n - 1];
    if Consider(s, m).Ambiguous? {
      var t :| t in seen && t.role == s.role && t.priority == s.priority;
      var i :| 0 <= i < |seen| && seen[i] == t;
      assert forall k | 0 <= k < n - 1 :: ms[k] in seen;
      assert TieAt(ms, i, n - 1);
    }
    if exists i, j :: j < n && TieAt(ms, i, j) {
      var i, j :| j < n && TieAt(ms, i, j);
      assert j == n - 1 && ms[i] in seen;
      var t :| t in seen && t.role == s.role && t.priority == s.priority;
      var k :| 0 <= k < |seen| && seen[k] == t;
      assert ms[k].priority <= ms[j].priority;
    }
  }

  // ----- the order of the groups -----

  lemma {:induction false} ApplicableIff(mappings: seq<Mapping>, groups: seq<Group>, user: Id, m: Mapping)
    ensures m in Applicable(mappings, groups, user) <==>
      exists g :: g in groups && Contributes(g, user) && m in Matching(mappings, g.externalId)
  {
    if groups != [] {
      ApplicableIff(mappings, groups[1..], user, m);
      assert groups == [groups[0]] + groups[1..];
    }
  }

  lemma {:induction false} MatchingIff(mappings: seq<Mapping>, externalId: string, m: Mapping)
    ensures m in Matching(mappings, externalId) <==> m in mappings && m.externalId == externalId
  {
    if mappings != [] {
      MatchingIff(mappings[1..], externalId, m);
      assert mappings == [mappings[0]] + mappings[1..];
    }
  }

  /** A mapping applies exactly if it is configured for a group that is listed, not deleted,
      and has the user as a member. */
  lemma AppliesIff(mappings: seq<Mapping>, groups: seq<Group>, user: Id, m: Mapping)
    ensures m in Applicable(mappings, groups, user) <==>
      m in mappings && exists g | g in groups :: g.deletedAt.None? && user in g.members && g.externalId == m.externalId
  {
    ApplicableIff(mappings, groups, user, m);
    forall g | g in groups ensures m in Matching(mappings, g.externalId) <==> m in mappings && m.externalId == g.externalId {
      MatchingIff(mappings, g.externalId, m);
    }
  }

  /** Any two listings of the same groups that both yield a role yield the same one. */
  lemma OrdersAgree(c: Configuration, groups: seq<Group>, other: seq<Group>, user: Id)
    requires forall g :: g in groups <==> g in other
    requires RoleFor(c, groups, user).Some? && RoleFor(c, other, user).Some?
    ensures RoleFor(c, groups, user) == RoleFor(c, other, user)
  {
    var a, b := Applicable(c.mappings, groups, user), Applicable(c.mappings, other, user);
    forall m ensures m in a <==> m in b {
      ApplicableIff(c.mappings, groups, user, m);
      ApplicableIff(c.mappings, other, user, m);
    }
    assert b != [] ==> b[0] in a;
    RoleIsTop(c, groups, user);
    RoleIsTop(c, other, user);
    if a != [] {
      var m :| Top(a, m) && m.role == RoleFor(c, groups, user).value;
      assert Top(b, m);
    }
  }

  /** Whether a role is found can depend on the order: a tie listed before a better mapping
      is refused, listed after it is not. */
  lemma OrderCanDecide(c: Configuration, f: Group, g: Group, h: Group, user: Id)
    requires Contributes(f, user) && Contributes(g, user) && Contributes(h, user) && |c.mappings| == 3
    requires f.externalId == c.mappings[0].externalId && g.externalId == c.mappings[1].externalId
    requires h.externalId == c.mappings[2].externalId
    requires f.externalId != g.externalId && g.externalId != h.externalId && f.externalId != h.externalId
    requires c.mappings[0].priority == c.mappings[1].priority < c.mappings[2].priority
    requires c.mappings[0].role != c.mappings[1].role
    ensures RoleFor(c, [f, g, h], user) == None && RoleFor(c, [h, f, g], user) == Some(c.mappings[2].role)
  {
    var l, m, n := c.mappings[0], c.mappings[1], c.mappings[2];
    assert c.mappings == [l, m, n];
    MatchingThree(l, m, n);
    ApplicableThree(c.mappings, f, g, h, user);
    ApplicableThree(c.mappings, h, f, g, user);
    SelectThree(l, m, n);
    SelectThree(n, l, m);
  }

  lemma MatchingThree(l: Mapping, m: Mapping, n: Mapping)
    requires l.externalId != m.externalId && m.externalId != n.externalId && l.externalId != n.externalId
    ensures Matching([l, m, n], l.externalId) == [l]
    ensures Matching([l, m, n], m.externalId) == [m]
    ensures Matching([l, m, n], n.externalId) == [n]
  {
    assert [l, m, n][1..] == [m, n] && [m, n][1..] == [n] && [n][1..] == [];
    assert forall e :: Matching([n], e) == if n.externalId == e then [n] else [];
    assert forall e :: Matching([m, n], e) == (if m.externalId == e then [m] else []) + Matching([n], e);
  }

  lemma ApplicableThree(ms: seq<Mapping>, f: Group, g: Group, h: Group, user: Id)
    requires Contributes(f, user) && Contributes(g, user) && Contributes(h, user)
    ensures Applicable(ms, [f, g, h], user) ==
      Matching(ms, f.externalId) + (Matching(ms, g.externalId) + Matching(ms, h.externalId))
  {
    assert [f, g, h][1..] == [g, h] && [g, h][1..] == [h] && [h][1..] == [];
    assert Applicable(ms, [h], user) == Matching(ms, h.externalId) + [];
    assert Applicable(ms, [g, h], user) == Matching(ms, g.externalId) + Matching(ms, h.externalId);
  }

  lemma SelectThree(l: Mapping, m: Mapping, n: Mapping)
    ensures Select(Undecided, [l] + ([m] + [n])) == Consider(Consider(Consider(Undecided, l), m), n)
  {
    SelectSplits(Undecided, [l], [m] + [n]);
    SelectOne(Undecided, l);
    SelectSplits(Consider(Undecided, l), [m], [n]);
    SelectOne(Consider(Undecided, l), m);
    SelectOne(Consider(Consider(Undecided, l), m), n);
  }

  // ----- every listing of the same groups -----

  /** No external identifier is mapped twice, as the configuration demands. */
  predicate MappedOnce(mappings: seq<Mapping>) {
    forall i, j | 0 <= i < j < |mappings| :: mappings[i].externalId != mappings[j].externalId
  }

  function TrimAll(mappings: seq<Mapping>, trim: string -> string): seq<Mapping> {
    seq(|mappings|, i requires 0 <= i < |mappings| => Trimmed(mappings[i], trim))
  }

  /** The validation of a role configuration: an absent default role is `member`, identifiers
      are trimmed, then must be non-empty, at most 255 long and mapped once, and every role
      is known. */
  method ValidateConfiguration(defaultRole: Role, mappings: seq<Mapping>, trim: string -> string, known: Role -> bool)
    returns (result: Option<Configuration>)
    ensures var trimmed := TrimAll(mappings, trim);
      && (result.Some? <==>
            && known(if defaultRole == "" then "member" else defaultRole)
            && MappedOnce(trimmed) && forall m | m in trimmed :: 0 < |m.externalId| <= 255 && known(m.role))
      && (result.Some? ==> result.value.mappings == trimmed)
      && (result.Some? ==> result.value.defaultRole == if defaultRole == "" then "member" else defaultRole)
  {
    var role := if defaultRole == "" then RoleCatalog.MEMBER else defaultRole;
    if !known(role) {
      return None;
    }
    ghost var trimmed := TrimAll(mappings, trim);
    var done: seq<Mapping> := [];
    var seen: set<string> := {};
    for index := 0 to |mappings|
      invariant done == trimmed[..index]
      invariant seen == set m | m in done :: m.externalId
      invariant MappedOnce(done) && forall m | m in done :: 0 < |m.externalId| <= 255 && known(m.role)
    {
      var m := Trimmed(mappings[index], trim);
      assert m == trimmed[index] && m in trimmed;
      if m.externalId == "" || |m.externalId| > 255 {
        return None;
      }
      if m.externalId in seen {
        var n :| n in done && n.externalId == m.externalId;
        var k :| 0 <= k < |done| && done[k] == n;
        assert trimmed[k].externalId == trimmed[index].externalId;
        return None;
      }
      if !known(m.role) {
        return None;
      }
      seen := seen + {m.externalId};
      done := done + [m];
      assert done == trimmed[..index + 1];
    }
    return Some(Configuration(role, done));
  }

  function Trimmed(m: Mapping, trim: string -> string): Mapping {
    m.(externalId := trim(m.externalId))
  }

  lemma {:induction false} MatchingOf(mappings: seq<Mapping>, externalId: string)
    ensures forall m | m in Matching(mappings, externalId) :: m in mappings && m.externalId == externalId
  {
    if mappings != [] {
      MatchingOf(mappings[1..], externalId);
    }
  }

  lemma {:induction false} MatchesOnce(mappings: seq<Mapping>, externalId: string)
    requires MappedOnce(mappings)
    ensures |Matching(mappings, externalId)| <= 1
  {
    if mappings != [] {
      var rest := mappings[1..];
      MatchesOnce(rest, externalId);
      MatchingOf(rest, externalId);
      assert forall k | 0 <= k < |rest| :: rest[k] == mappings[k + 1];
      assert forall m | m in rest :: m.externalId != mappings[0].externalId;
      assert mappings[0].externalId == externalId ==> Matching(rest, externalId) == [] by {
        assert forall m | m in Matching(rest, externalId) :: m in rest;
        assert Matching(rest, externalId) != [] ==> Matching(rest, externalId)[0] in rest;
      }
    }
  }

  predicate Relisted(groups: seq<Group>, other: seq<Group>) {
    multiset(groups) == multiset(other)
  }

  lemma RelistedApplies(mappings: seq<Mapping>, groups: seq<Group>, other: seq<Group>, user: Id, m: Mapping)
    requires Relisted(groups, other)
    ensures m in Applicable(mappings, groups, user) <==> m in Applicable(mappings, other, user)
  {
    ApplicableIff(mappings, groups, user, m);
    ApplicableIff(mappings, other, user, m);
    assert forall g :: g in groups <==> g in multiset(groups);
    assert forall g :: g in other <==> g in multiset(other);
  }

  /** The listing with its i-th group brought to the front. */
  function Front(groups: seq<Group>, i: nat): seq<Group>
    requires i < |groups|
  {
    [groups[i]] + (groups[..i] + groups[i + 1..])
  }

  lemma FrontRelists(groups: seq<Group>, i: nat)
    requires i < |groups|
    ensures Relisted(groups, Front(groups, i))
  {
    assert groups == groups[..i] + [groups[i]] + groups[i + 1..];
  }

  lemma FrontApplies(mappings: seq<Mapping>, groups: seq<Group>, i: nat, user: Id)
    requires i < |groups| && Contributes(groups[i], user)
    ensures Applicable(mappings, Front(groups, i), user) ==
      Matching(mappings, groups[i].externalId) + Applicable(mappings, groups[..i] + groups[i + 1..], user)
  {
    assert Front(groups, i)[1..] == groups[..i] + groups[i + 1..];
  }

  /** The place of a group whose mapping applies. */
  lemma AppliesFrom(mappings: seq<Mapping>, groups: seq<Group>, user: Id, m: Mapping) returns (i: nat)
    requires MappedOnce(mappings) && m in Applicable(mappings, groups, user)
    ensures i < |groups| && Contributes(groups[i], user) && Matching(mappings, groups[i].externalId) == [m]
  {
    var g := AppliesThrough(mappings, groups, user, m);
    i :| 0 <= i < |groups| && groups[i] == g;
    OnlyMatch(mappings, g.externalId, m);
  }

  lemma AppliesThrough(mappings: seq<Mapping>, groups: seq<Group>, user: Id, m: Mapping) returns (g: Group)
    requires m in Applicable(mappings, groups, user)
    ensures g in groups && Contributes(g, user) && m in Matching(mappings, g.externalId)
  {
    ApplicableIff(mappings, groups, user, m);
    g :| g in groups && Contributes(g, user) && m in Matching(mappings, g.externalId);
  }

  lemma OnlyMatch(mappings: seq<Mapping>, externalId: string, m: Mapping)
    requires MappedOnce(mappings) && m in Matching(mappings, externalId)
    ensures Matching(mappings, externalId) == [m]
  {
    MatchesOnce(mappings, externalId);
  }

  /** Two applicable mappings claim one priority for two roles. */
  predicate Tied(ms: seq<Mapping>, m: Mapping, n: Mapping) {
    m in ms && n in ms && m.priority == n.priority && m.role != n.role
  }

  ghost predicate AnyTie(ms: seq<Mapping>) {
    exists m, n :: Tied(ms, m, n)
  }

  /** Two of the highest-priority mappings disagree. */
  ghost predicate TopTie(ms: seq<Mapping>) {
    exists m, n :: Tied(ms, m, n) && Top(ms, m)
  }

  /** A listing that starts with a tie is refused. */
  lemma TieListsFirst(c: Configuration, groups: seq<Group>, user: Id, m: Mapping, n: Mapping) returns (other: seq<Group>)
    requires MappedOnce(c.mappings) && Tied(Applicable(c.mappings, groups, user), m, n)
    ensures Relisted(groups, other) && RoleFor(c, other, user).None?
  {
    var i := AppliesFrom(c.mappings, groups, user, n);
    FrontRelists(groups, i);
    RelistedApplies(c.mappings, groups, Front(groups, i), user, m);
    var j := AppliesFrom(c.mappings, Front(groups, i), user, m);
    other := Front(Front(groups, i), j);
    FrontRelists(Front(groups, i), j);
    FrontApplies(c.mappings, Front(groups, i), j, user);
    var middle := Front(groups, i)[..j] + Front(groups, i)[j + 1..];
    assert j != 0;
    assert middle[0] == groups[i];
    FirstApplies(c.mappings, middle, user);
    var ms := Applicable(c.mappings, other, user);
    assert ms[0] == m && ms[1] == n;
    assert TieAt(ms, 0, 1);
    AmbiguousIff(ms);
  }

  lemma FirstApplies(mappings: seq<Mapping>, groups: seq<Group>, user: Id)
    requires groups != [] && Contributes(groups[0], user)
    ensures Matching(mappings, groups[0].externalId) <= Applicable(mappings, groups, user)
  {
  }

  /** Every listing of the groups yields a role if and only if no two applicable mappings
      claim one priority for two roles. */
  lemma EveryListingSucceedsIff(c: Configuration, groups: seq<Group>, user: Id)
    requires MappedOnce(c.mappings)
    ensures (forall other :: Relisted(groups, other) ==> RoleFor(c, other, user).Some?) <==>
            !AnyTie(Applicable(c.mappings, groups, user))
  {
    var ms := Applicable(c.mappings, groups, user);
    if AnyTie(ms) {
      var m, n :| Tied(ms, m, n);
      var other := TieListsFirst(c, groups, user, m, n);
    } else {
      forall other | Relisted(groups, other) ensures RoleFor(c, other, user).Some? {
        var os := Applicable(c.mappings, other, user);
        AmbiguousIff(os);
        forall i, j ensures !TieAt(os, i, j) {
          if TieAt(os, i, j) {
            RelistedApplies(c.mappings, groups, other, user, os[i]);
            RelistedApplies(c.mappings, groups, other, user, os[j]);
            assert Tied(ms, os[i], os[j]);
          }
        }
      }
    }
  }

  lemma {:induction false} SomeTop(ms: seq<Mapping>) returns (m: Mapping)
    requires ms != []
    ensures Top(ms, m)
  {
    m := ms[0];
    if |ms| > 1 {
      var n := SomeTop(ms[1..]);
      m := if n.priority > m.priority then n else m;
      assert ms == [ms[0]] + ms[1..];
    }
  }

  /** A listing that starts with an untied highest-priority mapping is accepted. */
  lemma TopListsFirst(c: Configuration, groups: seq<Group>, user: Id, m: Mapping) returns (other: seq<Group>)
    requires MappedOnce(c.mappings) && Top(Applicable(c.mappings, groups, user), m)
    requires !TopTie(Applicable(c.mappings, groups, user))
    ensures Relisted(groups, other) && RoleFor(c, other, user).Some?
  {
    var ms := Applicable(c.mappings, groups, user);
    var i := AppliesFrom(c.mappings, groups, user, m);
    other := Front(groups, i);
    FrontRelists(groups, i);
    FrontApplies(c.mappings, groups, i, user);
    var os := Applicable(c.mappings, other, user);
    AmbiguousIff(os);
    forall a, b ensures !TieAt(os, a, b) {
      if TieAt(os, a, b) {
        RelistedApplies(c.mappings, groups, other, user, os[a]);
        RelistedApplies(c.mappings, groups, other, user, os[b]);
        assert os[0] == m && os[0].priority <= os[b].priority;
        assert Tied(ms, os[a], os[b]) && Top(ms, os[a]);
      }
    }
  }

  /** No listing of the groups yields a role if and only if the highest priority is claimed
      for two roles. In between, the order decides. */
  lemma NoListingSucceedsIff(c: Configuration, groups: seq<Group>, user: Id)
    requires MappedOnce(c.mappings)
    ensures (forall other :: Relisted(groups, other) ==> RoleFor(c, other, user).None?) <==>
            TopTie(Applicable(c.mappings, groups, user))
  {
    var ms := Applicable(c.mappings, groups, user);
    if TopTie(ms) {
      var m, n :| Tied(ms, m, n) && Top(ms, m);
      forall other | Relisted(groups, other) ensures RoleFor(c, other, user).None? {
        var os := Applicable(c.mappings, other, user);
        forall k ensures k in ms <==> k in os {
          RelistedApplies(c.mappings, groups, other, user, k);
        }
        assert Top(os, m) && Top(os, n);
        if RoleFor(c, other, user).Some? {
          RoleIsTop(c, other, user);
        }
      }
    } else if ms != [] {
      var m := SomeTop(ms);
      var other := TopListsFirst(c, groups, user, m);
    } else {
      assert Relisted(groups, groups) && RoleFor(c, groups, user).Some?;
    }
  }

  // ----- changing one group -----

  /** The listing after an upsert or a delete: the first entry with the identifier is
      replaced or dropped, and an unknown group is added. */
  function Changed(groups: seq<Group>, replacement: Group, deleted: bool): seq<Group> {
    if groups == [] then (if deleted then [] else [replacement])
    else if groups[0].id == replacement.id then (if deleted then [] else [replacement]) + groups[1..]
    else [groups[0]] + Changed(groups[1..], replacement, deleted)
  }

  lemma HeadAt(groups: seq<Group>, i: nat)
    requires i < |groups|
    ensures groups[i..] != [] && groups[i..][0] == groups[i] && groups[i..][1..] == groups[i + 1..]
  {
  }

  lemma Regroup(groups: seq<Group>, i: nat, rest: seq<Group>)
    requires i < |groups|
    ensures groups[..i] + ([groups[i]] + rest) == groups[..i + 1] + rest
  {
  }

  method ChangeGroups(groups: seq<Group>, replacement: Group, deleted: bool) returns (changed: seq<Group>)
    ensures changed == Changed(groups, replacement, deleted)
  {
    for index := 0 to |groups|
      invariant Changed(groups, replacement, deleted) == groups[..index] + Changed(groups[index..], replacement, deleted)
    {
      HeadAt(groups, index);
      if groups[index].id == replacement.id {
        return groups[..index] + ((if deleted then [] else [replacement]) + groups[index + 1..]);
      }
      Regroup(groups, index, Changed(groups[index + 1..], replacement, deleted));
    }
    assert groups[|groups|..] == [] && groups[..|groups|] == groups;
    return if deleted then groups else groups + [replacement];
  }

  /** The members a change can matter to: those before it and those after it. */
  predicate Affected(prior: seq<Id>, replacement: Group, user: Id) {
    user in prior || user in replacement.members
  }

  lemma ApplicableHead(mappings: seq<Mapping>, g: Group, rest: seq<Group>, user: Id)
    ensures Applicable(mappings, [g] + rest, user) ==
      (if Contributes(g, user) then Matching(mappings, g.externalId) else []) + Applicable(mappings, rest, user)
  {
    assert ([g] + rest)[1..] == rest;
  }

  /** A group without the user may be put in front. */
  lemma OutsideGroup(mappings: seq<Mapping>, g: Group, rest: seq<Group>, user: Id)
    requires user !in g.members
    ensures Applicable(mappings, [g] + rest, user) == Applicable(mappings, rest, user)
  {
    ApplicableHead(mappings, g, rest, user);
  }

  lemma {:induction false} OutsideGroupAnywhere(mappings: seq<Mapping>, before: seq<Group>, g: Group, after: seq<Group>, user: Id)
    requires g.deletedAt.Some? || user !in g.members
    ensures Applicable(mappings, before + ([g] + after), user) == Applicable(mappings, before + after, user)
  {
    if before == [] {
      assert before + ([g] + after) == [g] + after && before + after == after;
      ApplicableHead(mappings, g, after, user);
    } else {
      var rest := before[1..];
      assert before + ([g] + after) == [before[0]] + (rest + ([g] + after)) && before + after == [before[0]] + (rest + after);
      OutsideGroupAnywhere(mappings, rest, g, after, user);
      ApplicableHead(mappings, before[0], rest + ([g] + after), user);
      ApplicableHead(mappings, before[0], rest + after, user);
    }
  }

  /** A deleted group, or one without the user, has no say wherever it is listed. */
  lemma DeletedGroupHasNoSay(c: Configuration, before: seq<Group>, g: Group, after: seq<Group>, user: Id)
    requires g.deletedAt.Some? || user !in g.members
    ensures RoleFor(c, before + ([g] + after), user) == RoleFor(c, before + after, user)
  {
    OutsideGroupAnywhere(c.mappings, before, g, after, user);
  }

  predicate DistinctIds(groups: seq<Group>) {
    forall i, j | 0 <= i < j < |groups| :: groups[i].id != groups[j].id
  }

  /** With every group listed once, a change takes the old version of the group out, puts the
      new one in unless it was deleted, and keeps every other. */
  lemma {:induction false} ChangedIff(groups: seq<Group>, replacement: Group, deleted: bool, g: Group)
    requires DistinctIds(groups)
    ensures g in Changed(groups, replacement, deleted) <==>
      (g in groups && g.id != replacement.id) || (!deleted && g == replacement)
  {
    if groups != [] {
      var rest := groups[1..];
      assert groups == [groups[0]] + rest;
      assert forall h | h in rest :: h.id != groups[0].id;
      if groups[0].id != replacement.id {
        ChangedIff(rest, replacement, deleted, g);
      }
    }
  }

  /** A change leaves the applicable mappings of every other user as they were. */
  lemma {:induction false} OutsidersKeepMappings(mappings: seq<Mapping>, groups: seq<Group>, replacement: Group,
                                                 deleted: bool, user: Id)
    requires user !in replacement.members
    requires forall g | g in groups && g.id == replacement.id :: user !in g.members
    ensures Applicable(mappings, Changed(groups, replacement, deleted), user) == Applicable(mappings, groups, user)
  {
    if groups == [] {
      OutsideGroup(mappings, replacement, [], user);
      assert [replacement] + [] == [replacement];
    } else {
      var rest := groups[1..];
      assert groups == [groups[0]] + rest && [] + rest == rest;
      if groups[0].id == replacement.id {
        OutsideGroup(mappings, groups[0], rest, user);
        OutsideGroup(mappings, replacement, rest, user);
      } else {
        OutsidersKeepMappings(mappings, rest, replacement, deleted, user);
        ApplicableHead(mappings, groups[0], rest, user);
        ApplicableHead(mappings, groups[0], Changed(rest, replacement, deleted), user);
      }
    }
  }

  /** The stored group's members are all listed as prior. */
  predicate PriorComplete(groups: seq<Group>, replacement: Group, prior: seq<Id>) {
    forall g | g in groups && g.id == replacement.id :: Within(g.members, prior)
  }

  /** A change leaves the result of every other user, role or refusal, as it was. */
  lemma OutsidersKeepRole(c: Configuration, groups: seq<Group>, replacement: Group, deleted: bool, prior: seq<Id>,
                          user: Id)
    requires PriorComplete(groups, replacement, prior) && !Affected(prior, replacement, user)
    ensures RoleFor(c, Changed(groups, replacement, deleted), user) == RoleFor(c, groups, user)
  {
    OutsidersKeepMappings(c.mappings, groups, replacement, deleted, user);
  }

  /** The roles held by users, updated by a recomputation of some of them. */
  function Updated(held: map<Id, Role>, recomputed: map<Id, Role>): map<Id, Role> {
    map u | u in held.Keys + recomputed.Keys :: if u in recomputed then recomputed[u] else held[u]
  }

  predicate UpToDate(c: Configuration, groups: seq<Group>, held: map<Id, Role>) {
    forall u | u in held :: RoleFor(c, groups, u) == Some(held[u])
  }

  /** The recomputation a group change triggers: the roles of the affected members under
      the changed listing, or a refusal if one of them is ambiguous or is not managed, that
      is, has no link or no membership provisioned by this configuration. */
  method MembershipsForGroupChange(c: Configuration, groups: seq<Group>, replacement: Group, deleted: bool, prior: seq<Id>,
                                   managed: Id -> bool)
    returns (recomputed: Option<map<Id, Role>>)
    ensures var changed := Changed(groups, replacement, deleted);
      && (recomputed.None? <==>
            exists u | u in prior + replacement.members :: !managed(u) || RoleFor(c, changed, u).None?)
      && (recomputed.Some? ==> recomputed.value.Keys == (set u | u in prior + replacement.members)
                               && UpToDate(c, changed, recomputed.value))
  {
    var changed := ChangeGroups(groups, replacement, deleted);
    var affected := prior + replacement.members;
    var result: map<Id, Role> := map[];
    for i := 0 to |affected|
      invariant result.Keys == set u | u in affected[..i]
      invariant UpToDate(c, changed, result)
      invariant forall u | u in affected[..i] :: managed(u) && RoleFor(c, changed, u).Some?
    {
      var user := affected[i];
      if !managed(user) {
        assert user in affected;
        return None;
      }
      var role := ScimRoleForUser(c, changed, user);
      if role.None? {
        assert user in affected;
        return None;
      }
      assert affected[..i + 1] == affected[..i] + [user];
      result := result[user := role.value];
    }
    assert affected[..|affected|] == affected;
    return Some(result);
  }

  /** Recomputing only the affected members is recomputing everyone: if every held role was
      up to date before the change, every one is after it. */
  lemma IncrementalIsComplete(c: Configuration, groups: seq<Group>, replacement: Group, deleted: bool, prior: seq<Id>,
                            held: map<Id, Role>, recomputed: map<Id, Role>)
    requires PriorComplete(groups, replacement, prior) && UpToDate(c, groups, held)
    requires recomputed.Keys == set u | u in prior + replacement.members
    requires UpToDate(c, Changed(groups, replacement, deleted), recomputed)
    ensures UpToDate(c, Changed(groups, replacement, deleted), Updated(held, recomputed))
  {
    forall u | u in Updated(held, recomputed)
      ensures RoleFor(c, Changed(groups, replacement, deleted), u) == Some(Updated(held, recomputed)[u])
    {
      if u !in recomputed {
        OutsidersKeepRole(c, groups, replacement, deleted, prior, u);
      }
    }
  }
}
