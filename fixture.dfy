/**
 * The test documents of src/yake.rs (lines 321-412 and the tests after
 * them), with the outcomes those tests expect stated as lemmas over the
 * specification functions.
 */
module Fixture {
  import opened Wrappers
  import opened Targets
  import opened QualifiedNames
  import opened Flatten
  import opened Resolution
  import opened Environment
  import opened Execution
  import opened Unions

  function Base(): Target
  {
    Target(TargetMeta("Base", Callable, None), NoSubTargets, None, None)
  }

  function Test(): Target
  {
    Target(TargetMeta("Huhu", Callable, Some(["base"])), NoSubTargets,
           Some(map["WEBAPP_PORT" := "6543", "POSTGRES_PORT" := "5432"]), None)
  }

  function Sub(): Target
  {
    Target(TargetMeta("Subtarget", Callable, Some(["base"])), NoSubTargets,
           Some(map["BASE" := "OVERWRITE", "DOCKER_PORT" := "1234", "POSTGRES_PORT" := "54322"]), None)
  }

  function GroupTarget(): Target
  {
    Target(TargetMeta("Grouptarget", Group, None), SubTargets(map["sub" := Sub()]), None, None)
  }

  /** The top-level targets of the test document. */
  function TestTargets(): map<string, Target>
  {
    map["base" := Base(), "test" := Test(), "group" := GroupTarget()]
  }

  /** The test document's own environment. */
  function RootEnv(): Option<Env>
  {
    Some(map["BASE" := "BASEVAL"])
  }

  /** What flattening the test document gives. */
  function Flat(): map<string, Target>
  {
    map["base" := Base(), "test" := Test(), "group" := GroupTarget(), "group.sub" := Sub()]
  }

  /** The qualified name of the Callable inside `group`. */
  lemma GroupSubName()
    ensures "group" + "." + Join(["sub"]) == "group.sub"
  {
    assert Join(["sub"]) == "sub";
    var k := "group" + "." + "sub";
    assert |k| == 9;
    assert forall i :: 0 <= i < 9 ==> k[i] == "group.sub"[i];
  }

  lemma GroupReaches(path: seq<string>, leaf: Target)
    requires Reaches(GroupTarget(), path, leaf)
    ensures path == ["sub"] && leaf == Sub()
  {
  }

  /** Every flattened entry of the test document is one of the four expected. */
  lemma FlatEntry(k: string)
    requires k in AllTargets(TestTargets())
    ensures k in Flat() && AllTargets(TestTargets())[k] == Flat()[k]
  {
    AllTargetsSound(TestTargets(), k);
    var v := AllTargets(TestTargets())[k];
    if !(k in TestTargets() && v == TestTargets()[k]) {
      var name, path :| name in TestTargets() && |path| > 0 && Reaches(TestTargets()[name], path, v)
                        && k == name + "." + Join(path);
      GroupReaches(path, v);
      assert Join(["sub"]) == "sub";
      GroupSubName();
    }
  }

  /** The four expected names are all flattened entries. */
  lemma FlatKeys()
    ensures "base" in AllTargets(TestTargets()) && "test" in AllTargets(TestTargets())
    ensures "group" in AllTargets(TestTargets()) && "group.sub" in AllTargets(TestTargets())
  {
    TopLevelKept(TestTargets(), "base");
    TopLevelKept(TestTargets(), "test");
    TopLevelKept(TestTargets(), "group");
    assert Reaches(GroupTarget(), ["sub"], Sub());
    NestedCallableKept(TestTargets(), "group", ["sub"], Sub());
    assert Join(["sub"]) == "sub";
    GroupSubName();
  }

  /** The test document flattens to four entries: base, test, group and group.sub. */
  lemma FlattenDocument()
    ensures AllTargets(TestTargets()) == Flat()
    ensures |AllTargets(TestTargets())| == 4
  {
    FlatKeys();
    forall k | k in AllTargets(TestTargets()) ensures k in Flat() && AllTargets(TestTargets())[k] == Flat()[k] {
      FlatEntry(k);
    }
    MapsEqual(AllTargets(TestTargets()), Flat());
    assert Flat().Keys == {"base", "test", "group", "group.sub"};
  }

  /** `get_target_names` of the test document: base, test and group.sub. */
  lemma TargetNamesOfDocument()
    ensures TargetNames(Flat()) == {"base", "test", "group.sub"}
    ensures |TargetNames(Flat())| == 3
  {
  }

  /** `has_target_name`: "group.sub" and "group" are known, "sub" is not and reports the three Callable names. */
  lemma HasTargetNameOfDocument()
    ensures HasTargetName(Flat(), "group.sub") == Ok(())
    ensures HasTargetName(Flat(), "group") == Ok(())
    ensures HasTargetName(Flat(), "sub") == Err({"base", "test", "group.sub"})
  {
    TargetNamesOfDocument();
  }

  /** Every `depends` of the test document names an entry. */
  lemma DocumentDependenciesResolve()
    ensures DependenciesResolve(Flat())
  {
    forall k | k in Flat() && Flat()[k].IsCallable()
      ensures NamesResolve(Flat(), DependsOf(Flat()[k]))
    {
      assert k == "base" || k == "test" || k == "group" || k == "group.sub";
    }
  }

  /** The dependency list of a Callable whose `depends` is one resolvable name. */
  lemma SingleDependency(all: map<string, Target>, k: string, d: string)
    requires DependenciesResolve(all) && k in all && all[k].IsCallable()
    requires DependsOf(all[k]) == [d] && d in all
    ensures k in DependencyMap(all) && DependencyMap(all)[k] == [all[d]]
  {
    DependencyListShape(all, k, 0);
  }

  /** `get_all_dependencies` of the test document: three lists, group.sub's holding base. */
  lemma DependenciesOfDocument()
    ensures DependenciesResolve(Flat())
    ensures DependencyMap(Flat()) == map["base" := [], "test" := [Base()], "group.sub" := [Base()]]
    ensures DependencyMap(Flat())["group.sub"][0].meta.doc == "Base"
  {
    DocumentDependenciesResolve();
    var deps := DependencyMap(Flat());
    DependencyMapKeys(Flat());
    TargetNamesOfDocument();
    SingleDependency(Flat(), "test", "base");
    SingleDependency(Flat(), "group.sub", "base");
    assert deps["base"] == [];
  }

  /** A one-segment name splits into itself. */
  lemma SplitSegmentName(s: string)
    requires IsSegment(s)
    ensures Split(s) == [s]
  {
    SplitJoin([s]);
  }

  /** The names the tests resolve, split at their dots. */
  lemma SplitNames()
    ensures Split("base") == ["base"] && Split("test") == ["test"] && Split("group") == ["group"]
    ensures Split("group.sub") == ["group", "sub"]
  {
    SplitSegmentName("base");
    SplitSegmentName("test");
    SplitSegmentName("group");
    assert IsSegment("sub");
    SplitJoin(["group", "sub"]);
    GroupSubName();
  }

  /** A one-segment name merges the document environment with its own. */
  lemma ResolveOneSegment(rootEnv: Option<Env>, all: map<string, Target>, name: string)
    requires name in all && Split(name) == [name]
    ensures var merged := MapOrEmpty(rootEnv) + EnvOf(all[name]);
      ResolveEnv(rootEnv, all, name)
      == if ReservedKeys(merged) != {} then Err(ReservedVariables(ReservedKeys(merged))) else Ok(Allowed(merged))
  {
    var root := MapOrEmpty(rootEnv);
    var own := EnvOf(all[name]);
    assert PrefixName([name], 0) == name;
    assert MergePrefixes(root, all, [name], 0) == MergePrefixes(root + own, all, [name], 1);
    assert (root + own) + own == root + own;
  }

  /** Without reserved variables, resolution gives the merge itself. */
  lemma AllowedUnchanged(merged: Env)
    requires ReservedKeys(merged) == {}
    ensures Allowed(merged) == merged
  {
    forall k | k in merged ensures !IsReserved(k) {
      assert k !in ReservedKeys(merged);
    }
  }

  /** A one-segment name without an environment of its own gets the document environment. */
  lemma ResolveToRoot(rootEnv: Option<Env>, all: map<string, Target>, name: string)
    requires name in all && Split(name) == [name] && all[name].env == None
    requires ReservedKeys(MapOrEmpty(rootEnv)) == {}
    ensures ResolveEnv(rootEnv, all, name) == Ok(MapOrEmpty(rootEnv))
  {
    ResolveOneSegment(rootEnv, all, name);
    assert MapOrEmpty(rootEnv) + map[] == MapOrEmpty(rootEnv);
    AllowedUnchanged(MapOrEmpty(rootEnv));
  }

  /** The reserved variables of the environments the tests use: none in the first document's, PATH in the others. */
  lemma ReservedKeysOfFixtures()
    ensures ReservedKeys(map["BASE" := "BASEVAL"]) == {}
    ensures ReservedKeys(PathEnv()) == {"PATH"}
    ensures ReservedKeys(PathOnlyEnv()) == {"PATH"}
  {
  }

  /** `get_target_env_vars("base")`: the document environment alone. */
  lemma EnvOfBase()
    ensures ResolveEnv(RootEnv(), Flat(), "base") == Ok(map["BASE" := "BASEVAL"])
  {
    SplitNames();
    ReservedKeysOfFixtures();
    ResolveToRoot(RootEnv(), Flat(), "base");
  }

  /** `get_target_env_vars("group")`: a top-level Group resolves too, to the document environment. */
  lemma EnvOfGroup()
    ensures ResolveEnv(RootEnv(), Flat(), "group") == Ok(map["BASE" := "BASEVAL"])
  {
    SplitNames();
    ReservedKeysOfFixtures();
    ResolveToRoot(RootEnv(), Flat(), "group");
  }

  /** A two-segment name merges the document, its first segment and itself. */
  lemma ResolveTwoSegments(root: Env, all: map<string, Target>, name: string, first: string, second: string)
    requires name in all && first in all && Split(name) == [first, second]
    ensures var merged := root + EnvOf(all[first]) + EnvOf(all[name]);
      ResolveEnv(Some(root), all, name)
      == if ReservedKeys(merged) != {} then Err(ReservedVariables(ReservedKeys(merged))) else Ok(Allowed(merged))
  {
    var segments := [first, second];
    JoinSplit(name);
    assert segments[..2] == segments;
    assert PrefixName(segments, 0) == first;
    assert PrefixName(segments, 1) == name;
    var merged := root + EnvOf(all[first]) + EnvOf(all[name]);
    var once := root + EnvOf(all[first]);
    assert MergePrefixes(root, all, segments, 0) == MergePrefixes(once, all, segments, 1);
    assert MergePrefixes(once, all, segments, 1) == MergePrefixes(merged, all, segments, 2);
    assert merged + EnvOf(all[name]) == merged;
  }

  /** A one-segment name without an environment of its own inherits the document's reserved variables. */
  lemma ResolveReservedRoot(root: Env, all: map<string, Target>, name: string)
    requires name in all && Split(name) == [name] && all[name].env == None
    requires ReservedKeys(root) != {}
    ensures ResolveEnv(Some(root), all, name) == Err(ReservedVariables(ReservedKeys(root)))
  {
    ResolveOneSegment(Some(root), all, name);
    assert root + map[] == root;
  }

  function TestEnv(): Env
  {
    map["BASE" := "BASEVAL", "WEBAPP_PORT" := "6543", "POSTGRES_PORT" := "5432"]
  }

  function GroupSubEnv(): Env
  {
    map["BASE" := "OVERWRITE", "DOCKER_PORT" := "1234", "POSTGRES_PORT" := "54322"]
  }

  lemma TestEnvMerge()
    ensures map["BASE" := "BASEVAL"] + EnvOf(Test()) == TestEnv()
    ensures ReservedKeys(TestEnv()) == {}
  {
  }

  lemma GroupSubEnvMerge()
    ensures map["BASE" := "BASEVAL"] + EnvOf(GroupTarget()) + EnvOf(Sub()) == GroupSubEnv()
    ensures ReservedKeys(GroupSubEnv()) == {}
  {
    assert map["BASE" := "BASEVAL"] + EnvOf(GroupTarget()) == map["BASE" := "BASEVAL"];
  }

  /** `get_target_env_vars("test")`: the document variable and the two of the target. */
  lemma EnvOfTest()
    ensures ResolveEnv(RootEnv(), Flat(), "test") == Ok(TestEnv())
  {
    SplitNames();
    ResolveOneSegment(RootEnv(), Flat(), "test");
    TestEnvMerge();
    AllowedUnchanged(TestEnv());
  }

  /** `get_target_env_vars("group.sub")`: the deeper BASE wins, the other keys accumulate. */
  lemma EnvOfGroupSub()
    ensures ResolveEnv(RootEnv(), Flat(), "group.sub") == Ok(GroupSubEnv())
  {
    SplitNames();
    ResolveTwoSegments(map["BASE" := "BASEVAL"], Flat(), "group.sub", "group", "sub");
    GroupSubEnvMerge();
    AllowedUnchanged(GroupSubEnv());
  }

  function PathEnv(): Env
  {
    map["WEBAPP_PORT" := "6543", "PATH" := "$HOME/bin:$PATH"]
  }

  /** A document environment setting PATH makes resolution abort, naming PATH (src/yake.rs:491-501). */
  lemma ReservedEnvAborts()
    ensures ResolveEnv(Some(PathEnv()), Flat(), "base") == Err(ReservedVariables({"PATH"}))
  {
    SplitNames();
    ReservedKeysOfFixtures();
    ResolveReservedRoot(PathEnv(), Flat(), "base");
  }

  // ---------------------------------------------------------------------------
  // A Group nested in a Group

  function Leaf(): Target
  {
    Target(TargetMeta("leaf", Callable, None), NoSubTargets, None, Some(["true"]))
  }

  function Inner(): Target
  {
    Target(TargetMeta("inner", Group, None), SubTargets(map["c" := Leaf()]), None, None)
  }

  function Outer(): Target
  {
    Target(TargetMeta("outer", Group, None), SubTargets(map["b" := Inner()]), None, None)
  }

  function NestedDocument(): map<string, Target>
  {
    map["a" := Outer()]
  }

  function NestedFlat(): map<string, Target>
  {
    map["a" := Outer(), "a.b.c" := Leaf()]
  }

  lemma OuterReaches(path: seq<string>, leaf: Target)
    requires Reaches(Outer(), path, leaf)
    ensures path == ["b", "c"] && leaf == Leaf()
  {
    assert Reaches(Inner(), path[1..], leaf);
    assert path[1..] == ["c"];
  }

  lemma NestedName()
    ensures "a" + "." + Join(["b", "c"]) == "a.b.c"
  {
    assert Join(["c"]) == "c";
    var k := "a" + "." + ("b" + "." + "c");
    assert |k| == 5;
    assert forall i :: 0 <= i < 5 ==> k[i] == "a.b.c"[i];
  }

  lemma NestedEntry(k: string)
    requires k in AllTargets(NestedDocument())
    ensures k in NestedFlat() && AllTargets(NestedDocument())[k] == NestedFlat()[k]
  {
    AllTargetsSound(NestedDocument(), k);
    var v := AllTargets(NestedDocument())[k];
    if !(k in NestedDocument() && v == NestedDocument()[k]) {
      var name, path :| name in NestedDocument() && |path| > 0 && Reaches(NestedDocument()[name], path, v)
                        && k == name + "." + Join(path);
      NestedPath(name, path, v);
    }
  }

  lemma NestedPath(name: string, path: seq<string>, v: Target)
    requires name in NestedDocument() && Reaches(NestedDocument()[name], path, v)
    ensures name + "." + Join(path) == "a.b.c" && v == Leaf()
  {
    OuterReaches(path, v);
    NestedName();
  }

  /**
   * The Callable below a Group below the top-level Group `a` is flattened to
   * "a.b.c", but the Group "a.b" is not an entry.
   */
  lemma FlattenNested()
    ensures AllTargets(NestedDocument()) == NestedFlat()
  {
    TopLevelKept(NestedDocument(), "a");
    assert Reaches(Outer(), ["b", "c"], Leaf()) by {
      assert ["b", "c"][1..] == ["c"];
    }
    NestedCallableKept(NestedDocument(), "a", ["b", "c"], Leaf());
    NestedName();
    forall k | k in AllTargets(NestedDocument()) ensures k in NestedFlat() && AllTargets(NestedDocument())[k] == NestedFlat()[k] {
      NestedEntry(k);
    }
    MapsEqual(AllTargets(NestedDocument()), NestedFlat());
  }

  lemma SplitNested()
    ensures Split("a.b.c") == ["a", "b", "c"]
    ensures PrefixName(["a", "b", "c"], 0) == "a"
    ensures PrefixName(["a", "b", "c"], 1) == "a.b"
  {
    assert IsSegment("a") && IsSegment("b") && IsSegment("c");
    NestedName();
    assert Join(["a", "b", "c"]) == "a" + "." + Join(["b", "c"]);
    SplitJoin(["a", "b", "c"]);
    assert ["a", "b", "c"][..1] == ["a"];
    assert ["a", "b", "c"][..2] == ["a", "b"];
    assert Join(["b"]) == "b";
    var p := "a" + "." + "b";
    assert |p| == 3;
    assert forall i :: 0 <= i < 3 ==> p[i] == "a.b"[i];
  }

  /**
   * Resolving the environment of "a.b.c" aborts at the prefix "a.b", so the
   * Callable below two Groups can never run a command.
   */
  lemma NestedEnvAborts()
    ensures ResolveEnv(None, NestedFlat(), "a.b.c") == Err(UnknownParent("a.b"))
  {
    SplitNested();
    MergeStopsAt(map[], NestedFlat(), ["a", "b", "c"], 0, 1);
  }

  // ---------------------------------------------------------------------------
  // Dependencies are direct only

  function Chain(): map<string, Target>
  {
    map[
      "first" := Target(TargetMeta("first", Callable, Some(["second"])), NoSubTargets, None, None),
      "second" := Target(TargetMeta("second", Callable, Some(["third"])), NoSubTargets, None, None),
      "third" := Target(TargetMeta("third", Callable, None), NoSubTargets, None, None)]
  }

  /** "first" depends on "second", which depends on "third": the list of "first" holds "second" only. */
  lemma DependenciesNotTransitive()
    ensures DependenciesResolve(Chain())
    ensures DependencyMap(Chain())["first"] == [Chain()["second"]]
  {
    assert DependencyMap(Chain())["first"] == ResolveNames(Chain(), ["second"]);
  }

  // ---------------------------------------------------------------------------
  // Merging a sub document, and running the result

  /** A Callable target running one command. */
  function Command(doc: string, command: string): Target
  {
    Target(TargetMeta(doc, Callable, None), NoSubTargets, None, Some([command]))
  }

  /** The targets of the root document of the merge test. */
  function MergeRootTargets(): map<string, Target>
  {
    map["base" := Command("Test command", "echo \"i'm base\""),
        "group" := Target(TargetMeta("Test command", Group, None), NoSubTargets, None, None)]
  }

  /** The targets of the sub document of the merge test. */
  function MergeSubTargets(): map<string, Target>
  {
    map["base" := Command("Test command overwritten", OverwrittenCommand()),
        "sub_base" := Command("Sub: Test command", "echo \"i'm sub base\"")]
  }

  /** The environment both documents of the merge test declare. */
  function PathOnlyEnv(): Env
  {
    map["PATH" := "$HOME/bin:$PATH"]
  }

  /** The root's targets after `add_sub_yake`. */
  function MergedTargets(): map<string, Target>
  {
    map["base" := Command("Test command overwritten", OverwrittenCommand()),
        "group" := Target(TargetMeta("Test command", Group, None), NoSubTargets, None, None),
        "sub_base" := Command("Sub: Test command", "echo \"i'm sub base\"")]
  }

  lemma SubFlat()
    ensures AllTargets(MergeSubTargets()) == MergeSubTargets()
  {
    ChildlessFlattensToItself(MergeSubTargets());
  }

  /** The merge of the two documents, sub entries replacing root entries. */
  lemma MergeResult()
    ensures MergeRootTargets() + MergeSubTargets() == MergedTargets()
  {
  }

  /**
   * `add_sub_yake` of the merge test: the sub document's base replaces the
   * root's, sub_base is added, group stays (src/yake.rs:535-610).
   */
  lemma AddSubYakeOverwrites()
    ensures MergeRootTargets() + AllTargets(MergeSubTargets()) == MergedTargets()
  {
    SubFlat();
    MergeResult();
  }

  /** After the merge, base is the sub document's Callable. */
  lemma MergedBaseOverwritten()
    ensures MergedTargets()["base"].meta.doc == "Test command overwritten"
    ensures MergedTargets()["base"].IsCallable()
  {
  }

  /** The merged document has no nested targets. */
  lemma MergedIsFlat()
    ensures AllTargets(MergedTargets()) == MergedTargets()
  {
    ChildlessFlattensToItself(MergedTargets());
  }

  /** The merged document has no dependencies. */
  lemma MergedDependencies()
    ensures DependenciesResolve(MergedTargets())
  {
  }

  /** A one-segment Callable with one command and no dependencies runs it in the document environment. */
  lemma PlanOneCommand(rootEnv: Option<Env>, all: map<string, Target>, name: string, doc: string, command: string)
    requires DependenciesResolve(all) && name in all && all[name] == Command(doc, command)
    requires Split(name) == [name] && ReservedKeys(MapOrEmpty(rootEnv)) == {}
    ensures ExecutionPlan(rootEnv, all, name) == Ok([Invocation(command, MapOrEmpty(rootEnv))])
  {
    ResolveToRoot(rootEnv, all, name);
    assert DependencyMap(all)[name] == [];
    assert DependencyCommands([]) + [command] == [command];
    assert Invocations([command], MapOrEmpty(rootEnv)) == [Invocation(command, MapOrEmpty(rootEnv))];
  }

  /** The same target aborts when the document environment holds a reserved variable. */
  lemma PlanOneCommandReserved(root: Env, all: map<string, Target>, name: string, doc: string, command: string)
    requires DependenciesResolve(all) && name in all && all[name] == Command(doc, command)
    requires Split(name) == [name] && ReservedKeys(root) != {}
    ensures ExecutionPlan(Some(root), all, name) == Err(ReservedVariables(ReservedKeys(root)))
  {
    ResolveReservedRoot(root, all, name);
    assert DependencyMap(all)[name] == [];
    assert DependencyCommands([]) + [command] != [];
  }

  function OverwrittenCommand(): string
  {
    "echo \"i'm base, but overwritten by a sub yake\""
  }

  lemma MergedBase()
    ensures "base" in MergedTargets()
    ensures MergedTargets()["base"] == Command("Test command overwritten", OverwrittenCommand())
  {
  }

  /** Without a document environment, the merged base runs its one command with no variables. */
  lemma ExecuteMergedBase()
    ensures ExecutionPlan(None, MergedTargets(), "base") == Ok([Invocation(OverwrittenCommand(), map[])])
  {
    MergedDependencies();
    MergedBase();
    SplitNames();
    PlanOneCommand(None, MergedTargets(), "base", "Test command overwritten", OverwrittenCommand());
  }

  /** With the PATH environment of the test documents, running base aborts before any command. */
  lemma ExecuteMergedBaseWithPath()
    ensures ExecutionPlan(Some(PathOnlyEnv()), MergedTargets(), "base") == Err(ReservedVariables({"PATH"}))
  {
    MergedDependencies();
    MergedBase();
    SplitNames();
    ReservedKeysOfFixtures();
    PlanOneCommandReserved(PathOnlyEnv(), MergedTargets(), "base", "Test command overwritten", OverwrittenCommand());
  }

  /** Executing the top-level Group aborts, and an unknown name is reported. */
  lemma ExecuteGroupOrUnknown()
    ensures ExecutionPlan(Some(PathOnlyEnv()), MergedTargets(), "group") == Err(NotCallable("group"))
    ensures ExecutionPlan(Some(PathOnlyEnv()), MergedTargets(), "sub") == Err(UnknownTarget("sub"))
  {
    MergedDependencies();
  }

  /** In the first test document nothing has commands, so executing test runs nothing. */
  lemma ExecuteTestRunsNothing()
    ensures ExecutionPlan(RootEnv(), Flat(), "test") == Ok([])
  {
    DependenciesOfDocument();
    assert DependencyCommands([Base()]) == [];
  }
}
