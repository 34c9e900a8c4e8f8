/** The catalog builder: it gathers the definitions, then compiles every role by a memoised
    depth-first walk of the inheritance graph, in whatever order the maps are iterated. */
module RoleCompiler {
  import opened Common
  import opened RoleCatalog

  // ----- unions -----

  lemma UnionAdds(defs: Definitions, a: set<Role>, b: set<Role>)
    ensures Union(defs, a + b) == Union(defs, a) + Union(defs, b)
  {
  }

  lemma UnionOfOne(defs: Definitions, r: Role)
    requires r in defs
    ensures Union(defs, {r}) == defs[r].permissions
  {
  }

  /** The compiled roles so far: each complete, each below it already compiled, and none
      reaching itself. */
  ghost predicate MemoOk(defs: Definitions, memo: map<Role, Compiled>) {
    && memo.Keys <= defs.Keys
    && (forall r | r in memo :: CompiledOk(defs, r, memo[r]) && memo[r].roles <= memo.Keys)
    && (forall r, s | r in memo && s in defs[r].inherits :: s in memo && r !in memo[s].roles)
  }

  /** The walk stands at `role`, below every role on the stack. */
  ghost predicate StackOk(defs: Definitions, memo: map<Role, Compiled>, visiting: set<Role>, role: Role) {
    && visiting <= defs.Keys && visiting !! memo.Keys
    && forall v | v in visiting :: exists t :: Edge(defs, v, t) && Reaches(defs, t, role)
  }

  /** Meeting a role that is on the stack closes a cycle. */
  lemma StackCloses(defs: Definitions, memo: map<Role, Compiled>, visiting: set<Role>, role: Role)
    requires StackOk(defs, memo, visiting, role) && role in visiting
    ensures Cyclic(defs)
  {
  }

  lemma StackDeepens(defs: Definitions, memo: map<Role, Compiled>, visiting: set<Role>, role: Role, parent: Role)
    requires StackOk(defs, memo, visiting, role) && role !in memo && Edge(defs, role, parent)
    ensures StackOk(defs, memo, visiting + {role}, parent)
  {
    forall v | v in visiting + {role}
      ensures exists t :: Edge(defs, v, t) && Reaches(defs, t, parent)
    {
      if v == role {
        ReachesSelf(defs, parent);
      } else {
        var t :| Edge(defs, v, t) && Reaches(defs, t, role);
        ReachesThen(defs, t, role, parent);
      }
    }
  }

  function Merge(a: Compiled, b: Compiled): Compiled {
    Compiled(a.roles + b.roles, a.permissions + b.permissions)
  }

  /** What a role has merged once the parents `done` are walked. */
  ghost predicate Gathered(defs: Definitions, role: Role, done: set<Role>, c: Compiled) {
    && (forall s :: s in c.roles <==> s == role || exists t :: t in done && Reaches(defs, t, s))
    && c.permissions == Union(defs, c.roles)
  }

  lemma GatherOne(defs: Definitions, role: Role, done: set<Role>, c: Compiled, t: Role, inherited: Compiled)
    requires Gathered(defs, role, done, c) && CompiledOk(defs, t, inherited)
    ensures Gathered(defs, role, done + {t}, Merge(c, inherited))
  {
    var merged := Merge(c, inherited);
    UnionAdds(defs, c.roles, inherited.roles);
    forall s ensures s in merged.roles <==> s == role || exists u :: u in done + {t} && Reaches(defs, u, s) {
      if s in inherited.roles {
        assert t in done + {t} && Reaches(defs, t, s);
      } else if s in c.roles && s != role {
        var u :| u in done && Reaches(defs, u, s);
        assert u in done + {t};
      } else if exists u :: u in done + {t} && Reaches(defs, u, s) {
        var u :| u in done + {t} && Reaches(defs, u, s);
        assert u in done;
      }
    }
  }

  /** Having gathered every parent, the role is compiled. */
  lemma GatheredAll(defs: Definitions, role: Role, c: Compiled)
    requires role in defs && Gathered(defs, role, defs[role].inherits, c)
    ensures CompiledOk(defs, role, c)
  {
    forall s ensures s in c.roles <==> Reaches(defs, role, s) {
      if s == role {
        ReachesSelf(defs, role);
      } else {
        if s in c.roles {
          var t :| t in defs[role].inherits && Reaches(defs, t, s);
          ReachesThrough(defs, role, t, s);
        }
        if Reaches(defs, role, s) {
          var t := ReachesBy(defs, role, s);
        }
      }
    }
  }

  /** Adding a finished role keeps the memo: its parents were all there before it. */
  lemma MemoGrows(defs: Definitions, memo: map<Role, Compiled>, role: Role, c: Compiled)
    requires MemoOk(defs, memo) && role in defs && role !in memo && CompiledOk(defs, role, c)
    requires defs[role].inherits <= memo.Keys && c.roles <= memo.Keys + {role}
    ensures MemoOk(defs, memo[role := c])
  {
    var grown := memo[role := c];
    forall r, s | r in grown && s in defs[r].inherits ensures s in grown && r !in grown[s].roles {
      assert s in memo;
    }
  }

  lemma MoveOne(all: set<Role>, done: set<Role>, todo: set<Role>, r: Role)
    requires done + todo == all && r in todo
    ensures (done + {r}) + (todo - {r}) == all && |todo - {r}| < |todo|
  {
  }

  /** Between two parents: the memo has only grown, below the stack. */
  ghost predicate WalkOk(defs: Definitions, before: map<Role, Compiled>, memo: map<Role, Compiled>,
                         stack: set<Role>, role: Role, done: set<Role>, merged: Compiled)
  {
    && MemoOk(defs, memo) && StackOk(defs, memo, stack, role) && role !in memo
    && before.Keys <= memo.Keys && done <= memo.Keys
    && Gathered(defs, role, done, merged) && merged.roles <= memo.Keys + {role}
  }

  lemma WalkGrows(defs: Definitions, before: map<Role, Compiled>, memo: map<Role, Compiled>, stack: set<Role>,
                  role: Role, done: set<Role>, merged: Compiled, parent: Role, inherited: Compiled)
    requires Gathered(defs, role, done, merged) && done <= memo.Keys && merged.roles <= memo.Keys + {role}
    requires MemoOk(defs, memo) && StackOk(defs, memo, stack, role) && role !in memo && before.Keys <= memo.Keys
    requires parent in memo && memo[parent] == inherited
    ensures WalkOk(defs, before, memo, stack, role, done + {parent}, Merge(merged, inherited))
  {
    GatherOne(defs, role, done, merged, parent, inherited);
  }

  class Compiler {
    const defs: Definitions
    var memo: map<Role, Compiled>
    var visiting: set<Role>

    constructor (defs: Definitions)
      ensures this.defs == defs && memo == map[] && visiting == {}
    {
      this.defs, memo, visiting := defs, map[], {};
    }

    /** Compiles one role and everything below it. It fails only on a cycle or an undefined
        role, and on success the stack is as it was. */
    method Compile(role: Role) returns (result: Option<Compiled>)
      requires MemoOk(defs, memo) && StackOk(defs, memo, visiting, role)
      modifies this
      ensures result.None? ==> Cyclic(defs) || role !in defs || Dangling(defs)
      ensures result.Some? ==>
        && MemoOk(defs, memo) && visiting == old(visiting) && visiting !! memo.Keys
        && old(memo.Keys) <= memo.Keys
        && role in memo && memo[role] == result.value
      decreases |defs.Keys - visiting|, 0
    {
      if role in memo {
        return Some(memo[role]);
      }
      if role !in defs {
        return None;
      }
      if role in visiting {
        StackCloses(defs, memo, visiting, role);
        return None;
      }
      ghost var stack := visiting;
      visiting := visiting + {role};
      assert (defs.Keys - stack) - {role} == defs.Keys - visiting;
      result := GatherParents(role, stack);
      if result.Some? {
        MemoGrows(defs, memo, role, result.value);
        visiting := visiting - {role};
        assert visiting == stack;
        memo := memo[role := result.value];
      }
    }

    /** Walks the parents of the role on top of the stack, merging what they compile to. */
    method GatherParents(role: Role, ghost stack: set<Role>) returns (result: Option<Compiled>)
      requires MemoOk(defs, memo) && StackOk(defs, memo, stack, role)
      requires role in defs && role !in memo && role !in stack && visiting == stack + {role}
      modifies this
      ensures result.None? ==> Cyclic(defs) || Dangling(defs)
      ensures result.Some? ==>
        && MemoOk(defs, memo) && visiting == stack + {role} && StackOk(defs, memo, stack, role)
        && old(memo.Keys) <= memo.Keys && role !in memo
        && CompiledOk(defs, role, result.value)
        && defs[role].inherits <= memo.Keys && result.value.roles <= memo.Keys + {role}
      decreases |defs.Keys - visiting|, 1
    {
      var merged, todo := Compiled({role}, defs[role].permissions), defs[role].inherits;
      ghost var done: set<Role> := {};
      UnionOfOne(defs, role);
      while todo != {}
        invariant done + todo == defs[role].inherits
        invariant WalkOk(defs, old(memo), memo, stack, role, done, merged) && visiting == stack + {role}
        decreases |todo|
      {
        var parent :| parent in todo;
        StackDeepens(defs, memo, stack, role, parent);
        ghost var earlier := memo;
        var inherited := Compile(parent);
        if inherited.None? {
          return None;
        }
        StackAfterGrowth(defs, earlier, memo, stack, role);
        WalkGrows(defs, old(memo), memo, stack, role, done, merged, parent, inherited.value);
        merged := Merge(merged, inherited.value);
        MoveOne(defs[role].inherits, done, todo, parent);
        done, todo := done + {parent}, todo - {parent};
      }
      assert done + {} == done;
      GatheredAll(defs, role, merged);
      return Some(merged);
    }

    /** Compiles every defined role, in any order. */
    method CompileAll() returns (ok: bool)
      requires memo == map[] && visiting == {}
      modifies this
      ensures ok <==> !Dangling(defs) && !Cyclic(defs)
      ensures ok ==> MemoOk(defs, memo) && memo.Keys == defs.Keys
    {
      var todo := defs.Keys;
      while todo != {}
        invariant todo <= defs.Keys <= memo.Keys + todo
        invariant MemoOk(defs, memo) && visiting == {}
        decreases |todo|
      {
        var role :| role in todo;
        var result := Compile(role);
        if result.None? {
          return false;
        }
        todo := todo - {role};
      }
      CompleteIsSound(defs, memo);
      return true;
    }
  }

  lemma StackAfterGrowth(defs: Definitions, memo: map<Role, Compiled>, grown: map<Role, Compiled>,
                         visiting: set<Role>, role: Role)
    requires StackOk(defs, memo, visiting, role) && visiting !! grown.Keys
    ensures StackOk(defs, grown, visiting, role)
  {
  }

  /** Once every role is compiled, nothing is undefined and nothing inherits from itself. */
  lemma CompleteIsSound(defs: Definitions, memo: map<Role, Compiled>)
    requires MemoOk(defs, memo) && memo.Keys == defs.Keys
    ensures !Dangling(defs) && !Cyclic(defs)
  {
    forall r, s | Edge(defs, r, s) ensures s in defs && !Reaches(defs, s, r) {
      assert r in memo && s in memo && r !in memo[s].roles;
    }
  }
}
