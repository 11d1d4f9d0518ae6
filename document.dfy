/**
 * The `Yake` document (src/yake.rs:11-28, 109-285): the top-level target map
 * that `add_sub_yake` updates in place, and the queries and the executor
 * that read it. Every query of the source flattens the target tree afresh;
 * here each method flattens once and hands the flattened map to the loop
 * that works over it.
 */
module Document {
  import opened Wrappers
  import opened Targets
  import opened Unions
  import opened Flatten
  import opened Resolution
  import opened Environment
  import opened Execution

  /** `Yake`: document meta data, the document environment and the top-level targets. */
  class Yake {
    var meta: DocumentMeta
    var env: Option<Env>
    var targets: map<string, Target>

    constructor(meta: DocumentMeta, env: Option<Env>, targets: map<string, Target>)
      ensures this.meta == meta && this.env == env && this.targets == targets
    {
      this.meta := meta;
      this.env := env;
      this.targets := targets;
    }

    /**
     * `get_all_targets` (src/yake.rs:122-134): every top-level target under
     * its own name, whatever its type, extended by its Callable descendants.
     */
    method GetAllTargets() returns (all: map<string, Target>)
      requires Flattenable(targets)
      ensures all == AllTargets(targets)
    {
      all := map[];
      ghost var f := TopFamily(targets);
      UnionEmpty(f);
      var todo := targets.Keys;
      ghost var done: set<string> := {};
      while todo != {}
        invariant todo <= targets.Keys && done == targets.Keys - todo
        invariant all == Union(Restrict(f, done))
        decreases todo
      {
        var name :| name in todo;
        var target := targets[name];
        assert f[name] == TopLevelEntries(name, target);
        all := AddTopLevel(all, name, target);
        UnionAddMember(f, done, name);
        todo := todo - {name};
        done := done + {name};
      }
      UnionAll(f, done);
    }

    /** `get_target_names` (src/yake.rs:111-118): the flattened names of the Callable targets. */
    method GetTargetNames() returns (names: set<string>)
      requires Flattenable(targets)
      ensures forall k :: k in names <==> k in AllTargets(targets) && AllTargets(targets)[k].IsCallable()
    {
      var all := GetAllTargets();
      names := set k | k in all && all[k].IsCallable();
    }

    /** `get_target_by_name` (src/yake.rs:146-150): the flattened entry of a name, if any. */
    method GetTargetByName(name: string) returns (t: Option<Target>)
      requires Flattenable(targets)
      ensures t.Some? <==> name in AllTargets(targets)
      ensures t.Some? ==> t.value == AllTargets(targets)[name]
    {
      var all := GetAllTargets();
      t := if name in all then Some(all[name]) else None;
    }

    /**
     * `has_target_name` (src/yake.rs:136-143): succeeds for every flattened
     * name, Groups included; otherwise reports the Callable names.
     */
    method HasTargetName(name: string) returns (r: Result<(), set<string>>)
      requires Flattenable(targets)
      ensures r.Ok? <==> name in AllTargets(targets)
      ensures r.Err? ==> r.error == TargetNames(AllTargets(targets))
    {
      var t := GetTargetByName(name);
      if t.Some? {
        r := Ok(());
      } else {
        var names := GetTargetNames();
        r := Err(names);
      }
    }

    /**
     * `get_all_dependencies` (src/yake.rs:155-177): one list per Callable of
     * the targets its `depends` names, or the first unknown dependency met.
     */
    method GetAllDependencies() returns (r: Result<map<string, seq<Target>>, YakeError>)
      requires Flattenable(targets)
      ensures r.Ok? <==> DependenciesResolve(AllTargets(targets))
      ensures r.Ok? ==> r.value == DependencyMap(AllTargets(targets))
      ensures r.Err? ==> IsMissingDependency(AllTargets(targets), r.error)
    {
      var all := GetAllTargets();
      r := CollectDependencies(all);
    }

    /**
     * `get_dependencies_by_name` (src/yake.rs:180-185): the direct
     * dependencies of a Callable; any other name aborts.
     */
    method GetDependenciesByName(name: string) returns (r: Result<seq<Target>, YakeError>)
      requires Flattenable(targets)
      ensures !DependenciesResolve(AllTargets(targets)) ==> r.Err? && IsMissingDependency(AllTargets(targets), r.error)
      ensures DependenciesResolve(AllTargets(targets)) ==>
        if name in DependencyMap(AllTargets(targets)) then r == Ok(DependencyMap(AllTargets(targets))[name])
        else r == Err(NotCallable(name))
    {
      var all := GetAllDependencies();
      if all.Err? {
        return Err(all.error);
      }
      if name !in all.value {
        return Err(NotCallable(name));
      }
      r := Ok(all.value[name]);
    }

    /**
     * `add_sub_yake` (src/yake.rs:188-193): every flattened entry of `sub`
     * becomes a top-level target, replacing one of the same name; nothing
     * else changes.
     */
    method AddSubYake(sub: Yake)
      requires Flattenable(sub.targets)
      modifies this
      ensures targets == old(targets) + AllTargets(old(sub.targets))
      ensures meta == old(meta) && env == old(env)
    {
      var all := sub.GetAllTargets();
      InsertTargets(all);
    }

    /** The insertion loop of `add_sub_yake` (src/yake.rs:189-192). */
    method InsertTargets(entries: map<string, Target>)
      modifies this
      ensures forall k :: k in entries ==> k in targets && targets[k] == entries[k]
      ensures forall k :: k !in entries ==> (k in targets <==> k in old(targets))
      ensures forall k :: k in old(targets) && k !in entries ==> targets[k] == old(targets)[k]
      ensures targets == old(targets) + entries
      ensures meta == old(meta) && env == old(env)
    {
      var todo := entries.Keys;
      while todo != {}
        invariant todo <= entries.Keys
        invariant meta == old(meta) && env == old(env)
        invariant forall k :: k in targets <==> k in old(targets) || (k in entries && k !in todo)
        invariant forall k :: k in entries && k !in todo ==> targets[k] == entries[k]
        invariant forall k :: k in old(targets) && (k !in entries || k in todo) ==> targets[k] == old(targets)[k]
        decreases todo
      {
        var name :| name in todo;
        targets := targets[name := entries[name]];
        todo := todo - {name};
      }
      assert targets == old(targets) + entries;
    }

    /**
     * `get_target_env_vars` (src/yake.rs:196-230): the document environment,
     * overridden by the environment of each prefix of the name, shortest
     * first, then by the target's own; a reserved variable aborts.
     */
    method GetTargetEnvVars(name: string) returns (r: Result<Env, YakeError>)
      requires Flattenable(targets)
      ensures r == ResolveEnv(env, AllTargets(targets), name)
    {
      var all := GetAllTargets();
      r := ResolveTargetEnv(env, all, name);
    }

    /**
     * `execute` (src/yake.rs:233-285): an unknown name runs nothing; an
     * unresolvable dependency anywhere or a name without a dependency list
     * aborts; otherwise the direct dependencies run in declared order, then
     * the target, every command with the requested target's environment.
     */
    method Execute(name: string) returns (r: Result<seq<Invocation>, YakeError>)
      requires Flattenable(targets)
      ensures name !in AllTargets(targets) ==> r == Err(UnknownTarget(name))
      ensures name in AllTargets(targets) && !DependenciesResolve(AllTargets(targets)) ==>
        r.Err? && IsMissingDependency(AllTargets(targets), r.error)
      ensures DependenciesResolve(AllTargets(targets)) ==> r == ExecutionPlan(env, AllTargets(targets), name)
    {
      var all := GetAllTargets();
      r := Execution.Execute(env, all, name);
    }
  }

  /** A top-level Group has no dependency list, so executing it aborts. */
  lemma GroupTargetAborts(rootEnv: Option<Env>, targets: map<string, Target>, name: string)
    requires Flattenable(targets) && name in targets && targets[name].IsGroup()
    requires DependenciesResolve(AllTargets(targets))
    ensures ExecutionPlan(rootEnv, AllTargets(targets), name) == Err(NotCallable(name))
  {
    TopLevelKept(targets, name);
  }

  /**
   * After `add_sub_yake`, every entry taken from the sub document is a
   * top-level target of the root, so flattening the root keeps it under the
   * same name.
   */
  lemma AddedEntriesKept(targets: map<string, Target>, added: map<string, Target>, k: string)
    requires k in added
    ensures k in AllTargets(targets + added)
    ensures Flattenable(targets + added) ==> AllTargets(targets + added)[k] == added[k]
  {
    TopLevelKept(targets + added, k);
  }
}
