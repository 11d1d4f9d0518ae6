/**
 * What `execute` runs (src/yake.rs:233-288): the commands of every direct
 * dependency in declared order, then the target's own, each run with the
 * environment of the requested target. The model records the runs as a
 * trace of invocations instead of starting processes.
 */
module Execution {
  import opened Wrappers
  import opened Targets
  import opened Resolution
  import opened Environment

  /** One command handed to `bash -c`, with the environment it runs in. */
  datatype Invocation = Invocation(command: string, env: Env)

  /** The commands of `deps`, one target after the other. */
  function DependencyCommands(deps: seq<Target>): seq<string>
  {
    if |deps| == 0 then [] else DependencyCommands(deps[..|deps| - 1]) + CommandsOf(deps[|deps| - 1])
  }

  /** Every command of `commands` run in `env`. */
  function Invocations(commands: seq<string>, env: Env): (r: seq<Invocation>)
    ensures |r| == |commands|
  {
    seq(|commands|, i requires 0 <= i < |commands| => Invocation(commands[i], env))
  }

  /**
   * The environment each command gets (src/yake.rs:252): the requested
   * target's resolved environment, empty on a returned error; a panic of the
   * resolver aborts.
   */
  function CommandEnv(rootEnv: Option<Env>, all: map<string, Target>, name: string): (r: Result<Env, YakeError>)
    ensures name !in all ==> r == Ok(map[])
    ensures r.Ok? ==> forall k :: k in r.value ==> !IsReserved(k)
    ensures r.Err? <==> ResolveEnv(rootEnv, all, name).Err? && !ResolveEnv(rootEnv, all, name).error.UnknownTarget?
    ensures r.Err? ==> r == ResolveEnv(rootEnv, all, name)
  {
    match ResolveEnv(rootEnv, all, name)
    case Ok(env) => Ok(env)
    case Err(UnknownTarget(_)) => Ok(map[])
    case Err(e) => Err(e)
  }

  /**
   * The trace of `execute(name)` when every dependency in the flattened map
   * `all` resolves. The environment is resolved only when a command runs.
   */
  function ExecutionPlan(rootEnv: Option<Env>, all: map<string, Target>, name: string): Result<seq<Invocation>, YakeError>
    requires DependenciesResolve(all)
  {
    if HasTargetName(all, name).Err? then Err(UnknownTarget(name))
    else if name !in DependencyMap(all) then Err(NotCallable(name))
    else
      var commands := DependencyCommands(DependencyMap(all)[name]) + CommandsOf(all[name]);
      if commands == [] then Ok([])
      else
        match CommandEnv(rootEnv, all, name)
        case Err(e) => Err(e)
        case Ok(env) => Ok(Invocations(commands, env))
  }

  /** Where the commands of dependency `j` start in the trace. */
  function Offset(deps: seq<Target>, j: nat): nat
    requires j <= |deps|
  {
    |DependencyCommands(deps[..j])|
  }

  /** The commands of the first `j` dependencies are a prefix of the commands of all of them. */
  lemma {:induction false} DependencyCommandsGrow(deps: seq<Target>, j: nat)
    requires j <= |deps|
    ensures DependencyCommands(deps[..j]) <= DependencyCommands(deps)
    ensures Offset(deps, j) <= |DependencyCommands(deps)|
    decreases |deps|
  {
    if j < |deps| {
      var init := deps[..|deps| - 1];
      assert init[..j] == deps[..j];
      DependencyCommandsGrow(init, j);
    } else {
      assert deps[..j] == deps;
    }
  }

  /** The `m`-th command of dependency `j` sits at `Offset(deps, j) + m`. */
  lemma {:induction false} DependencyCommandsAt(deps: seq<Target>, j: nat, m: nat)
    requires j < |deps| && m < |CommandsOf(deps[j])|
    ensures Offset(deps, j) + m < |DependencyCommands(deps)|
    ensures DependencyCommands(deps)[Offset(deps, j) + m] == CommandsOf(deps[j])[m]
    decreases |deps|
  {
    var last := |deps| - 1;
    var init := deps[..last];
    assert init[..j] == deps[..j];
    if j < last {
      DependencyCommandsAt(init, j, m);
    }
  }

  /** Every command of a successful run gets the requested target's environment. */
  lemma RequesterEnv(rootEnv: Option<Env>, all: map<string, Target>, name: string, i: int)
    requires DependenciesResolve(all)
    requires ExecutionPlan(rootEnv, all, name).Ok?
    requires 0 <= i < |ExecutionPlan(rootEnv, all, name).value|
    ensures ResolveEnv(rootEnv, all, name).Ok?
    ensures ExecutionPlan(rootEnv, all, name).value[i].env == ResolveEnv(rootEnv, all, name).value
  {
  }

  /** The commands of a trace, in order. */
  function Commands(trace: seq<Invocation>): (r: seq<string>)
    ensures |r| == |trace|
  {
    seq(|trace|, i requires 0 <= i < |trace| => trace[i].command)
  }

  /**
   * A successful run issues the commands of the direct dependencies in
   * declared order, then the target's own; `DependencyCommandsAt` locates
   * each dependency's block.
   */
  lemma TraceCommands(rootEnv: Option<Env>, all: map<string, Target>, name: string)
    requires DependenciesResolve(all)
    requires ExecutionPlan(rootEnv, all, name).Ok?
    ensures name in all && name in DependencyMap(all)
    ensures Commands(ExecutionPlan(rootEnv, all, name).value)
      == DependencyCommands(DependencyMap(all)[name]) + CommandsOf(all[name])
  {
    var commands := DependencyCommands(DependencyMap(all)[name]) + CommandsOf(all[name]);
    var trace := ExecutionPlan(rootEnv, all, name).value;
    assert |trace| == |commands|;
    assert forall i :: 0 <= i < |commands| ==> Commands(trace)[i] == commands[i];
  }

  /** A target without commands, counting its dependencies', runs nothing and never resolves its environment. */
  lemma NothingToRun(rootEnv: Option<Env>, all: map<string, Target>, name: string)
    requires DependenciesResolve(all)
    requires name in all && all[name].IsCallable()
    requires DependencyCommands(DependencyMap(all)[name]) == [] && CommandsOf(all[name]) == []
    ensures ExecutionPlan(rootEnv, all, name) == Ok([])
  {
  }

  // ---------------------------------------------------------------------------
  // The executor

  /** `trace` is what running `commands` for the target `name` has issued so far. */
  ghost predicate IssuedSoFar(rootEnv: Option<Env>, all: map<string, Target>, name: string, commands: seq<string>, trace: seq<Invocation>)
  {
    if commands == [] then trace == []
    else CommandEnv(rootEnv, all, name).Ok? && trace == Invocations(commands, CommandEnv(rootEnv, all, name).value)
  }

  lemma InvocationsAppend(a: seq<string>, b: seq<string>, env: Env)
    ensures Invocations(a + b, env) == Invocations(a, env) + Invocations(b, env)
  {
  }

  lemma DependencyCommandsStep(deps: seq<Target>, i: nat)
    requires i < |deps|
    ensures DependencyCommands(deps[..i + 1]) == DependencyCommands(deps[..i]) + CommandsOf(deps[i])
  {
    assert deps[..i + 1][..i] == deps[..i];
  }

  /** A command environment that aborts while a dependency runs aborts the whole plan. */
  lemma DependencyAbortPlanned(rootEnv: Option<Env>, all: map<string, Target>, name: string, i: nat, e: YakeError)
    requires DependenciesResolve(all) && name in all && name in DependencyMap(all)
    requires i < |DependencyMap(all)[name]| && CommandsOf(DependencyMap(all)[name][i]) != []
    requires CommandEnv(rootEnv, all, name) == Err(e)
    ensures ExecutionPlan(rootEnv, all, name) == Err(e)
  {
    var deps := DependencyMap(all)[name];
    DependencyCommandsStep(deps, i);
    DependencyCommandsGrow(deps, i + 1);
  }

  /** Running the target's own commands after its dependencies completes the plan. */
  lemma TargetRunPlanned(rootEnv: Option<Env>, all: map<string, Target>, name: string, trace: seq<Invocation>,
                         r: Result<seq<Invocation>, YakeError>)
    requires DependenciesResolve(all) && name in all && name in DependencyMap(all)
    requires IssuedSoFar(rootEnv, all, name, DependencyCommands(DependencyMap(all)[name]), trace)
    requires CommandsOf(all[name]) == [] ==> r == Ok(trace)
    requires CommandsOf(all[name]) != [] ==>
      match CommandEnv(rootEnv, all, name)
      case Err(e) => r == Err(e)
      case Ok(env) => r == Ok(trace + Invocations(CommandsOf(all[name]), env))
    ensures r == ExecutionPlan(rootEnv, all, name)
  {
    var before := DependencyCommands(DependencyMap(all)[name]);
    var own := CommandsOf(all[name]);
    assert before + [] == before;
    assert [] + own == own;
    if own != [] && CommandEnv(rootEnv, all, name).Ok? {
      var env := CommandEnv(rootEnv, all, name).value;
      InvocationsAppend(before, own, env);
      assert Invocations([], env) == [];
    }
  }

  /**
   * The `run_target` closure of `execute` (src/yake.rs:243-272): each
   * command of `t`, appended to `trace` with the environment of the
   * requested target `name`, resolved afresh for every command.
   */
  method RunTarget(rootEnv: Option<Env>, all: map<string, Target>, name: string, t: Target, trace: seq<Invocation>)
    returns (r: Result<seq<Invocation>, YakeError>)
    ensures CommandsOf(t) == [] ==> r == Ok(trace)
    ensures CommandsOf(t) != [] ==>
      match CommandEnv(rootEnv, all, name)
      case Err(e) => r == Err(e)
      case Ok(env) => r == Ok(trace + Invocations(CommandsOf(t), env))
  {
    var commands := CommandsOf(t);
    var out := trace;
    var j := 0;
    while j < |commands|
      invariant 0 <= j <= |commands|
      invariant j == 0 ==> out == trace
      invariant j > 0 ==> CommandEnv(rootEnv, all, name).Ok?
      invariant j > 0 ==> out == trace + Invocations(commands[..j], CommandEnv(rootEnv, all, name).value)
    {
      var resolved := ResolveTargetEnv(rootEnv, all, name);
      var env: Env;
      if resolved.Ok? {
        env := resolved.value;
      } else if resolved.error.UnknownTarget? {
        env := map[];
      } else {
        return Err(resolved.error);
      }
      InvocationsAppend(commands[..j], [commands[j]], env);
      assert commands[..j + 1] == commands[..j] + [commands[j]];
      out := out + [Invocation(commands[j], env)];
      j := j + 1;
    }
    assert commands[..j] == commands;
    r := Ok(out);
  }

  /**
   * The body of `execute` (src/yake.rs:233-285) over the flattened map: an
   * unknown name runs nothing; an unresolvable dependency anywhere or a name
   * without a dependency list aborts; otherwise the direct dependencies run
   * in declared order, then the target.
   */
  method Execute(rootEnv: Option<Env>, all: map<string, Target>, name: string) returns (r: Result<seq<Invocation>, YakeError>)
    ensures name !in all ==> r == Err(UnknownTarget(name))
    ensures name in all && !DependenciesResolve(all) ==> r.Err? && IsMissingDependency(all, r.error)
    ensures DependenciesResolve(all) ==> r == ExecutionPlan(rootEnv, all, name)
  {
    if name !in all {
      return Err(UnknownTarget(name));
    }
    var target := all[name];
    var dependencies := CollectDependencies(all);
    if dependencies.Err? {
      return Err(dependencies.error);
    }
    if name !in dependencies.value {
      return Err(NotCallable(name));
    }
    var deps := dependencies.value[name];
    var trace: seq<Invocation> := [];
    var i := 0;
    while i < |deps|
      invariant 0 <= i <= |deps|
      invariant IssuedSoFar(rootEnv, all, name, DependencyCommands(deps[..i]), trace)
    {
      DependencyCommandsStep(deps, i);
      var next := RunTarget(rootEnv, all, name, deps[i], trace);
      if next.Err? {
        DependencyAbortPlanned(rootEnv, all, name, i, next.error);
        return next;
      }
      if DependencyCommands(deps[..i]) != [] && CommandsOf(deps[i]) != [] {
        InvocationsAppend(DependencyCommands(deps[..i]), CommandsOf(deps[i]), CommandEnv(rootEnv, all, name).value);
      }
      trace := next.value;
      i := i + 1;
    }
    assert deps[..i] == deps;
    r := RunTarget(rootEnv, all, name, target, trace);
    TargetRunPlanned(rootEnv, all, name, trace, r);
  }
}
