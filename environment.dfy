/**
 * Environment resolution for one target (src/yake.rs:195-230): the document
 * environment, overridden by the environment of every prefix of the target's
 * dotted name from the shortest on, then by the target's own, with the
 * reserved variables refused.
 */
module Environment {
  import opened Wrappers
  import opened Targets
  import opened QualifiedNames
  import opened Resolution

  type Env = map<string, string>

  /** The variables a command environment must not set (src/yake.rs:219-221). */
  predicate IsReserved(key: string)
  {
    key == "TERM" || key == "TZ" || key == "LANG" || key == "PATH" || key == "HOME"
  }

  /** The name made of the first `i + 1` segments. */
  function PrefixName(segments: seq<string>, i: nat): string
    requires i < |segments|
  {
    Join(segments[..i + 1])
  }

  /** The prefix loop (src/yake.rs:206-210) from segment `i` on. */
  function MergePrefixes(envs: Env, all: map<string, Target>, segments: seq<string>, i: nat): (r: Result<Env, YakeError>)
    requires i <= |segments|
    ensures r.Err? ==> r.error.UnknownParent? && r.error.prefix !in all
    decreases |segments| - i
  {
    if i == |segments| then Ok(envs)
    else
      var parent := PrefixName(segments, i);
      if parent !in all then Err(UnknownParent(parent))
      else MergePrefixes(envs + EnvOf(all[parent]), all, segments, i + 1)
  }

  /** The variables of `envs` that are reserved. */
  function ReservedKeys(envs: Env): set<string>
  {
    set k | k in envs && IsReserved(k)
  }

  /** `envs` without its reserved variables. */
  function Allowed(envs: Env): Env
  {
    map k | k in envs && !IsReserved(k) :: envs[k]
  }

  /**
   * `get_target_env_vars` of the target `name` over the flattened map `all`,
   * with `rootEnv` the document's own `env`.
   */
  function ResolveEnv(rootEnv: Option<Env>, all: map<string, Target>, name: string): (r: Result<Env, YakeError>)
    ensures name !in all ==> r == Err(UnknownTarget(name))
    ensures r.Ok? ==> forall k :: k in r.value ==> !IsReserved(k)
    ensures r.Err? && r.error.ReservedVariables? ==>
      r.error.keys != {} && forall k :: k in r.error.keys ==> IsReserved(k)
  {
    if HasTargetName(all, name).Err? then Err(UnknownTarget(name))
    else
      match MergePrefixes(MapOrEmpty(rootEnv), all, Split(name), 0)
      case Err(e) => Err(e)
      case Ok(envs) =>
        var merged := envs + EnvOf(all[name]);
        if ReservedKeys(merged) != {} then Err(ReservedVariables(ReservedKeys(merged)))
        else Ok(Allowed(merged))
  }

  // ---------------------------------------------------------------------------
  // Reference definition: layers, the later overriding the earlier

  /** The maps of `layers` merged from first to last, a later one winning. */
  function Override(layers: seq<Env>): Env
  {
    if |layers| == 0 then map[] else Override(layers[..|layers| - 1]) + layers[|layers| - 1]
  }

  /** A key is in the merge iff some layer has it. */
  lemma {:induction false} OverrideKeys(layers: seq<Env>, key: string)
    ensures key in Override(layers) <==> exists j :: 0 <= j < |layers| && key in layers[j]
  {
    if |layers| > 0 {
      var init := layers[..|layers| - 1];
      OverrideKeys(init, key);
      if key in Override(init) {
        var j :| 0 <= j < |init| && key in init[j];
        assert layers[j] == init[j];
      }
      forall j | 0 <= j < |layers| - 1 && key in layers[j]
        ensures key in Override(init)
      {
        assert init[j] == layers[j];
      }
    }
  }

  /** A key takes its value from the last layer that has it. */
  lemma {:induction false} OverrideDeepest(layers: seq<Env>, j: int, key: string)
    requires 0 <= j < |layers| && key in layers[j]
    requires forall j' :: j < j' < |layers| ==> key !in layers[j']
    ensures key in Override(layers) && Override(layers)[key] == layers[j][key]
  {
    var last := |layers| - 1;
    if j < last {
      var init := layers[..last];
      assert init[j] == layers[j];
      forall j' | j < j' < |init| ensures key !in init[j'] {
        assert init[j'] == layers[j'];
      }
      OverrideDeepest(init, j, key);
    }
  }

  /** Every prefix of the name is an entry. */
  predicate PrefixesKnown(all: map<string, Target>, name: string)
  {
    forall i :: 0 <= i < |Split(name)| ==> PrefixName(Split(name), i) in all
  }

  /** The environments of the prefixes, shortest first. */
  function PrefixEnvs(all: map<string, Target>, segments: seq<string>): seq<Env>
    requires forall i :: 0 <= i < |segments| ==> PrefixName(segments, i) in all
  {
    seq(|segments|, i requires 0 <= i < |segments| => EnvOf(all[PrefixName(segments, i)]))
  }

  /** The layers of a target's environment: document, prefixes, target. */
  function EnvLayers(rootEnv: Option<Env>, all: map<string, Target>, name: string): seq<Env>
    requires name in all && PrefixesKnown(all, name)
  {
    [MapOrEmpty(rootEnv)] + PrefixEnvs(all, Split(name)) + [EnvOf(all[name])]
  }

  lemma OverrideSingle(m: Env)
    ensures Override([m]) == m
  {
    assert [m][..0] == [];
    assert map[] + m == m;
  }

  /** The prefix loop folds `Override` over the remaining prefix layers. */
  lemma {:induction false} MergePrefixesOverride(layers: seq<Env>, all: map<string, Target>, segments: seq<string>, i: nat)
    requires i <= |segments|
    requires forall i :: 0 <= i < |segments| ==> PrefixName(segments, i) in all
    ensures MergePrefixes(Override(layers), all, segments, i) == Ok(Override(layers + PrefixEnvs(all, segments)[i..]))
    decreases |segments| - i
  {
    var rest := PrefixEnvs(all, segments)[i..];
    if i == |segments| {
      assert layers + rest == layers;
    } else {
      var next := layers + [rest[0]];
      assert next[..|next| - 1] == layers;
      assert Override(next) == Override(layers) + EnvOf(all[PrefixName(segments, i)]);
      MergePrefixesOverride(next, all, segments, i + 1);
      assert next + PrefixEnvs(all, segments)[i + 1..] == layers + rest;
    }
  }

  /**
   * A known target whose prefixes are all entries resolves to the override
   * merge of its layers, refused when that merge holds a reserved variable:
   * the deeper layer wins a shared key, disjoint keys accumulate.
   */
  lemma ResolveEnvLayers(rootEnv: Option<Env>, all: map<string, Target>, name: string)
    requires name in all && PrefixesKnown(all, name)
    ensures var merged := Override(EnvLayers(rootEnv, all, name));
      ResolveEnv(rootEnv, all, name)
      == if ReservedKeys(merged) != {} then Err(ReservedVariables(ReservedKeys(merged))) else Ok(merged)
  {
    var root := MapOrEmpty(rootEnv);
    var segments := Split(name);
    OverrideSingle(root);
    MergePrefixesOverride([root], all, segments, 0);
    var prefixed := [root] + PrefixEnvs(all, segments);
    assert PrefixEnvs(all, segments)[0..] == PrefixEnvs(all, segments);
    var layers := EnvLayers(rootEnv, all, name);
    assert layers[..|layers| - 1] == prefixed;
    var merged := Override(layers);
    if ReservedKeys(merged) == {} {
      forall k | k in merged ensures !IsReserved(k) {
        assert k !in ReservedKeys(merged);
      }
      assert Allowed(merged) == merged;
    }
  }

  /** Merging the same map twice in a row merges it once. */
  lemma OverrideRepeat(init: seq<Env>, m: Env)
    requires |init| > 0 && init[|init| - 1] == m
    ensures Override(init + [m]) == Override(init)
  {
    var layers := init + [m];
    assert layers[..|layers| - 1] == init;
    var before := Override(init[..|init| - 1]);
    assert (before + m) + m == before + m;
  }

  /**
   * The merge of the target's own environment after the prefix loop changes
   * nothing: the last prefix is the whole name.
   */
  lemma FinalMergeRedundant(rootEnv: Option<Env>, all: map<string, Target>, name: string)
    requires name in all && PrefixesKnown(all, name)
    ensures Override(EnvLayers(rootEnv, all, name)) == Override([MapOrEmpty(rootEnv)] + PrefixEnvs(all, Split(name)))
  {
    var segments := Split(name);
    JoinSplit(name);
    assert segments[..|segments|] == segments;
    var init := [MapOrEmpty(rootEnv)] + PrefixEnvs(all, segments);
    assert init[|init| - 1] == EnvOf(all[name]);
    OverrideRepeat(init, EnvOf(all[name]));
  }

  /** A missing prefix aborts resolution, naming the shortest missing prefix. */
  lemma {:induction false} MissingPrefixAborts(rootEnv: Option<Env>, all: map<string, Target>, name: string)
    requires name in all && !PrefixesKnown(all, name)
    ensures var r := ResolveEnv(rootEnv, all, name);
      && r.Err? && r.error.UnknownParent? && r.error.prefix !in all
      && exists i :: 0 <= i < |Split(name)| && r == Err(UnknownParent(PrefixName(Split(name), i)))
                     && forall j :: 0 <= j < i ==> PrefixName(Split(name), j) in all
  {
    var segments := Split(name);
    var i :| 0 <= i < |segments| && PrefixName(segments, i) !in all;
    while exists j :: 0 <= j < i && PrefixName(segments, j) !in all
      invariant 0 <= i < |segments| && PrefixName(segments, i) !in all
      decreases i
    {
      var j :| 0 <= j < i && PrefixName(segments, j) !in all;
      i := j;
    }
    MergeStopsAt(MapOrEmpty(rootEnv), all, segments, 0, i);
  }

  /** The prefix loop from `k` on stops at the first missing prefix `i`. */
  lemma {:induction false} MergeStopsAt(envs: Env, all: map<string, Target>, segments: seq<string>, k: nat, i: nat)
    requires k <= i < |segments|
    requires PrefixName(segments, i) !in all
    requires forall j :: k <= j < i ==> PrefixName(segments, j) in all
    ensures MergePrefixes(envs, all, segments, k) == Err(UnknownParent(PrefixName(segments, i)))
    decreases i - k
  {
    if k < i {
      MergeStopsAt(envs + EnvOf(all[PrefixName(segments, k)]), all, segments, k + 1, i);
    }
  }

  /**
   * The body of `get_target_env_vars` (src/yake.rs:196-230) over the
   * flattened map: the prefix loop, the target's own merge and the
   * partition into allowed and reserved variables.
   */
  method ResolveTargetEnv(rootEnv: Option<Env>, all: map<string, Target>, name: string) returns (r: Result<Env, YakeError>)
    ensures r == ResolveEnv(rootEnv, all, name)
  {
    if name !in all {
      return Err(UnknownTarget(name));
    }
    var envs := MapOrEmpty(rootEnv);
    var parents := Split(name);
    var i := 0;
    while i < |parents|
      invariant 0 <= i <= |parents|
      invariant MergePrefixes(envs, all, parents, i) == MergePrefixes(MapOrEmpty(rootEnv), all, parents, 0)
    {
      var parentName := Join(parents[..i + 1]);
      if parentName !in all {
        return Err(UnknownParent(parentName));
      }
      envs := envs + EnvOf(all[parentName]);
      i := i + 1;
    }
    envs := envs + EnvOf(all[name]);
    var invalid := set k | k in envs && IsReserved(k);
    var valid := map k | k in envs && !IsReserved(k) :: envs[k];
    if invalid != {} {
      return Err(ReservedVariables(invalid));
    }
    r := Ok(valid);
  }
}
