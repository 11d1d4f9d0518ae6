/**
 * Lookups over the flattened target map and direct-dependency resolution
 * (src/yake.rs:112-118, 137-150, 155-185), and the error kinds of the core.
 */
module Resolution {
  import opened Wrappers
  import opened Targets

  /**
   * The ways resolution fails. `UnknownTarget` is the `Err` that
   * `get_target_env_vars` and `execute` return; the others are panics in the
   * source (`expect`, `unwrap`, `panic!`), here returned as values.
   */
  datatype YakeError =
    | UnknownTarget(name: string)
    | UnknownDependency(dependency: string, target: string)
    | NotCallable(name: string)
    | UnknownParent(prefix: string)
    | ReservedVariables(keys: set<string>)

  /** `get_target_names` over a flattened map: the names of its Callable entries (src/yake.rs:112-118). */
  function TargetNames(all: map<string, Target>): (names: set<string>)
    ensures names <= all.Keys
    ensures forall k :: k in names <==> k in all && all[k].IsCallable()
  {
    set k | k in all && all[k].IsCallable()
  }

  /** `get_target_by_name` over a flattened map (src/yake.rs:146-150). */
  function TargetByName(all: map<string, Target>, name: string): (r: Option<Target>)
    ensures r.Some? <==> name in all
    ensures r.Some? ==> r.value == all[name]
  {
    if name in all then Some(all[name]) else None
  }

  /** `has_target_name` over a flattened map (src/yake.rs:137-143). */
  function HasTargetName(all: map<string, Target>, name: string): (r: Result<(), set<string>>)
    ensures r.Ok? <==> name in all
    ensures r.Err? ==> forall k :: k in r.error <==> k in all && all[k].IsCallable()
  {
    if TargetByName(all, name).Some? then Ok(()) else Err(TargetNames(all))
  }

  // ---------------------------------------------------------------------------
  // Direct dependencies

  /** Every dependency name of every Callable entry names an entry. */
  predicate DependenciesResolve(all: map<string, Target>)
  {
    forall k | k in all && all[k].IsCallable() :: NamesResolve(all, DependsOf(all[k]))
  }

  predicate NamesResolve(all: map<string, Target>, names: seq<string>)
  {
    forall i :: 0 <= i < |names| ==> names[i] in all
  }

  /** `e` names a dependency of a Callable entry that is not an entry. */
  predicate IsMissingDependency(all: map<string, Target>, e: YakeError)
  {
    && e.UnknownDependency?
    && e.target in all
    && all[e.target].IsCallable()
    && e.dependency in DependsOf(all[e.target])
    && e.dependency !in all
  }

  /** The entries named by `names`, in order. */
  function ResolveNames(all: map<string, Target>, names: seq<string>): seq<Target>
    requires NamesResolve(all, names)
  {
    seq(|names|, i requires 0 <= i < |names| => all[names[i]])
  }

  /**
   * Specification of `get_all_dependencies` when nothing is missing: one entry
   * per Callable, holding the targets its `depends` names, one level only.
   */
  function DependencyMap(all: map<string, Target>): map<string, seq<Target>>
    requires DependenciesResolve(all)
  {
    map k | k in all && all[k].IsCallable() :: ResolveNames(all, DependsOf(all[k]))
  }

  /** Either every dependency resolves, or some Callable names a missing one. */
  lemma MissingDependencyWitness(all: map<string, Target>)
    ensures !DependenciesResolve(all) <==> exists k, d :: IsMissingDependency(all, UnknownDependency(d, k))
  {
    if !DependenciesResolve(all) {
      var k :| k in all && all[k].IsCallable() && !NamesResolve(all, DependsOf(all[k]));
      var i :| 0 <= i < |DependsOf(all[k])| && DependsOf(all[k])[i] !in all;
      assert IsMissingDependency(all, UnknownDependency(DependsOf(all[k])[i], k));
    }
  }

  /**
   * The dependency list of a Callable has the length and order of its
   * `depends`, and its i-th element is the entry `depends[i]` names: a
   * dependency's own dependencies are not added.
   */
  lemma DependencyListShape(all: map<string, Target>, k: string, i: int)
    requires DependenciesResolve(all)
    requires k in all && all[k].IsCallable()
    requires 0 <= i < |DependsOf(all[k])|
    ensures k in DependencyMap(all)
    ensures |DependencyMap(all)[k]| == |DependsOf(all[k])|
    ensures DependencyMap(all)[k][i] == all[DependsOf(all[k])[i]]
  {
  }

  /** Only Callable entries have a dependency list. */
  lemma DependencyMapKeys(all: map<string, Target>)
    requires DependenciesResolve(all)
    ensures DependencyMap(all).Keys == TargetNames(all)
  {
  }

  /**
   * The inner loop of `get_all_dependencies` (src/yake.rs:162-174): the
   * targets `depends` names, in order, or the first name that is not an entry.
   */
  method ResolveDependsOf(all: map<string, Target>, owner: string, depends: seq<string>)
    returns (r: Result<seq<Target>, YakeError>)
    ensures r.Ok? <==> NamesResolve(all, depends)
    ensures r.Ok? ==> r.value == ResolveNames(all, depends)
    ensures r.Err? ==>
      && r.error.UnknownDependency? && r.error.target == owner
      && r.error.dependency in depends && r.error.dependency !in all
  {
    var deps: seq<Target> := [];
    var i := 0;
    while i < |depends|
      invariant 0 <= i <= |depends| && |deps| == i
      invariant forall j :: 0 <= j < i ==> depends[j] in all && deps[j] == all[depends[j]]
    {
      if depends[i] !in all {
        return Err(UnknownDependency(depends[i], owner));
      }
      deps := deps + [all[depends[i]]];
      i := i + 1;
    }
    r := Ok(deps);
  }

  /**
   * The loop of `get_all_dependencies` (src/yake.rs:157-176) over the
   * flattened map: a list for every Callable, or the first unknown
   * dependency met.
   */
  method CollectDependencies(all: map<string, Target>) returns (r: Result<map<string, seq<Target>>, YakeError>)
    ensures r.Ok? <==> DependenciesResolve(all)
    ensures r.Ok? ==> r.value == DependencyMap(all)
    ensures r.Err? ==> IsMissingDependency(all, r.error)
  {
    var ret: map<string, seq<Target>> := map[];
    var todo := all.Keys;
    while todo != {}
      invariant todo <= all.Keys
      invariant forall k :: k in ret <==> k in all && k !in todo && all[k].IsCallable()
      invariant forall k :: k in ret ==> NamesResolve(all, DependsOf(all[k])) && ret[k] == ResolveNames(all, DependsOf(all[k]))
      decreases todo
    {
      var name :| name in todo;
      todo := todo - {name};
      var target := all[name];
      if !target.IsCallable() {
        continue;
      }
      var deps := ResolveDependsOf(all, name, DependsOf(target));
      if deps.Err? {
        return Err(deps.error);
      }
      ret := ret[name := deps.value];
    }
    r := Ok(ret);
  }
}
