# yake: target-tree resolution, modelled in Dafny

yake is a task runner. A Yakefile describes a `Yake` document. The document holds its meta data, an optional environment, and a tree of named targets. A target is either a **Group** or a **Callable**. A Group only namespaces the targets below it. A Callable has an optional `depends` list of qualified names, an optional `env` map and an optional list of `exec` commands.

This project models the engine in `src/yake.rs` that resolves that tree:

- **Target types.** A target type is written as the string `"group"` or `"callable"` and read back from it (`targets.dfy`).
- **Flattening.** The engine flattens the tree into one map keyed by dot-joined qualified names:
  - Every top-level target is kept under its own name, whatever its type.
  - Every Callable reached through Groups only is added under its dotted path (`flatten.dfy`, `YakeTarget::get_sub_targets` and `Yake::get_all_targets`).
- **Lookups.** Lookups run over the flattened map (`resolution.dfy`):
  - the Callable names;
  - a target by name;
  - `has_target_name`.
- **Direct dependencies.** Every Callable gets a list of its direct dependencies, in declared order. A dependency that does not resolve aborts (`resolution.dfy`).
- **Environment resolution.** A target's environment is built in this order: the document environment, then the environment of each prefix of the dotted name (shortest first), then the target's own. The reserved names TERM, TZ, LANG, PATH and HOME are refused (`environment.dfy`).
- **Execution.** `execute` runs the commands of the direct dependencies, then the target's own. Every command gets the requested target's environment, resolved again for each command. Instead of starting `bash`, the model returns the trace of invocations (`execution.dfy`).
- **The `Yake` class.** A class holds the document fields (`document.dfy`). Its methods are the public operations of `impl Yake`. `add_sub_yake` updates the top-level `targets` map in place.
- **Test documents.** The test documents of the source are rebuilt, and the outcomes their tests expect are proved (`fixture.dfy`).

## How the model is organised

- **HashMap order.** A Rust `HashMap` iterates in an unspecified order. So flattening is specified without an order:
  - The specification is the union of what each entry contributes (`unions.dfy`).
  - The methods iterate by picking any remaining key.
  - The methods carry the precondition `Flattenable` (and `Unambiguous` for a subtree): two entries that produce the same qualified name must produce the same target. The source leaves such a collision undefined.
- **Panics.** The source panics in several places: `expect`, `unwrap` and `panic!`. The model returns these as `Err` values of one `YakeError` type:
  - `UnknownDependency` is a `depends` name that is not an entry.
  - `NotCallable` is a name without a dependency list: `unwrap` in `get_dependencies_by_name`.
  - `UnknownParent` is a prefix of a name that is not an entry.
  - `ReservedVariables` is a reserved environment variable.
  - `UnknownTarget` is the `Err` that the source itself returns.
- **One flattening per method.** Every query of the source flattens the tree again. Each method of the `Yake` class flattens once and hands the flattened map to a loop over it. The loop is a module-level method over a plain map. The flattening is deterministic, so the result is the same.
- **Specifications beside the loops.** Each loop is a method proved equal to a specification function:
  - `SubTargetMap` and `AllTargets` for flattening;
  - `DependencyMap` for the dependency lists;
  - `ResolveEnv` for the environment;
  - `ExecutionPlan` for execution.

  Lemmas then relate those functions to independent descriptions:
  - paths through the tree (`Reaches`);
  - the left-to-right override merge of a list of layers (`Override`);
  - the command sequence of the trace (`Commands`).

## Behaviour worth knowing

- **Top-level Groups are entries.** `get_all_targets` inserts every top-level target, Groups included (src/yake.rs:125-126). So a top-level Group:
  - is found by `has_target_name` (`Resolution.HasTargetName`);
  - has an environment (`Fixture.EnvOfGroup`);
  - aborts `execute`, because it has no dependency list (`Document.GroupTargetAborts`).
- **Nested Groups are not.** A Group below the top level is never an entry of the flattened map (`Flatten.GroupsOnlyAtTopLevel`).
- **Prefix lookup.** Prefixes are looked up with `get_target_by_name`, in the flattened map (src/yake.rs:207-208). So for a Callable below two Groups, resolution aborts at the inner Group's prefix (`Fixture.NestedEnvAborts`), and `execute` of such a Callable aborts at its first command.
- **Missing prefix.** The source panics with `Unknown Target` when a prefix is missing. The model returns `UnknownParent` with the shortest missing prefix (`Environment.MissingPrefixAborts`).

## Model

| member | source | states |
|---|---|---|
| Targets.TypeName | src/yake.rs:82-92 | A type serializes to "group" iff it is a Group, and to "callable" iff it is a Callable. |
| Targets.ParseTargetType | src/yake.rs:95-107 | Succeeds exactly for "group" and "callable". The parsed type serializes back to the input. Any other string is rejected with an error carrying it. |
| Targets.TypeNameRoundTrip | src/yake.rs:82-107 | Parsing the serialization of a type gives the type back. |
| Targets.TypeNameInjective | src/yake.rs:87-90 | The two types serialize to the same string iff they are equal. |
| QualifiedNames.JoinSplit | src/yake.rs:202-207 | Joining the dot-split segments of any name with "." gives the name back. |
| QualifiedNames.SplitSegments | src/yake.rs:202 | No segment produced by the split contains a dot. |
| QualifiedNames.SplitJoin | src/yake.rs:202-207 | Splitting the join of one or more dot-free segments gives the segments back. |
| Flatten.GetSubTargets | src/yake.rs:289-312 | Returns `SubTargetMap`, whatever the iteration order. A Callable child is inserted under the qualified name. A Group child contributes its own sub-targets under the extended prefix, or under no prefix when there is none. |
| Flatten.AddChild | src/yake.rs:294-306 | One step of the child loop extends the map by exactly what that child contributes. |
| Flatten.AddTopLevel | src/yake.rs:125-130 | One step of the top-level loop extends the map by the entry itself, then by its sub-targets under its name. |
| Flatten.QualifiedNameJoin | src/yake.rs:295-305 | Under a prefix p, the name given to the end of a path of children is p, ".", and the path joined with dots. |
| Flatten.ReachesCallable | src/yake.rs:294-305 | Descending through Groups only ever stops at a Callable. |
| Flatten.SubTargetMapSound | src/yake.rs:289-312 | Every entry of `get_sub_targets` is a Callable reached through Groups only, keyed by that path's qualified name. |
| Flatten.SubTargetMapComplete | src/yake.rs:289-312 | Every Callable reached through Groups only is an entry under its path's qualified name. Without a collision, that Callable is the entry's value. |
| Flatten.SubTargetKeysLonger | src/yake.rs:296-302 | Every key below a prefix is longer than the prefix, so a sub-target never replaces its top-level parent. |
| Flatten.TopLevelEntriesSelf | src/yake.rs:126-129 | A top-level entry contributes itself under its own name. |
| Flatten.TopLevelKept | src/yake.rs:125-126 | Every top-level target, Group or Callable, is a flattened entry under its own name. It is the value there when nothing collides. |
| Flatten.NestedCallableKept | src/yake.rs:127-130 | Every Callable reached from a top-level target through Groups is an entry under the dot-joined path. It is the value there when nothing collides. |
| Flatten.AllTargetsSound | src/yake.rs:122-134 | Every flattened entry is either a top-level target under its own name, or a Callable reached through Groups under the dot-joined path. |
| Flatten.GroupsOnlyAtTopLevel | src/yake.rs:122-134 | A Group in the flattened map is a top-level target. |
| Flatten.ChildlessFlattensToItself | src/yake.rs:125-131 | A document whose targets have no children flattens to its own target map. |
| Resolution.TargetNames | src/yake.rs:112-118 | The names are entries of the flattened map, and exactly those whose type is Callable. |
| Resolution.TargetByName | src/yake.rs:146-150 | Some iff the name is an entry of the flattened map, and then that entry. |
| Document.Yake.GetAllTargets | src/yake.rs:122-134 | Returns `AllTargets(targets)`, the order-free union of every top-level entry with its sub-targets. |
| Document.Yake.GetTargetNames | src/yake.rs:111-118 | A name is returned iff it is a flattened entry whose type is Callable. |
| Document.Yake.GetTargetByName | src/yake.rs:146-150 | Some iff the name is a flattened entry, and then that entry. |
| Document.Yake.HasTargetName | src/yake.rs:136-143 | Ok iff the name is a flattened entry, Groups included. Otherwise the error holds exactly the Callable names. |
| Resolution.HasTargetName | src/yake.rs:137-143 | Over a flattened map: Ok iff the name is an entry. Otherwise the error holds exactly the Callable entries. |
| Resolution.MissingDependencyWitness | src/yake.rs:162-170 | Some dependency fails to resolve iff some Callable names a dependency that is not an entry. |
| Resolution.DependencyListShape | src/yake.rs:161-173 | A Callable's dependency list has one element per `depends` name. Element i is the entry that name i denotes. |
| Resolution.DependencyMapKeys | src/yake.rs:157-161 | The dependency map has a list for exactly the Callable entries. |
| Resolution.ResolveDependsOf | src/yake.rs:162-174 | Ok iff every name resolves, and then the targets in declared order. Otherwise an `UnknownDependency` error names a missing dependency and the owning target. |
| Resolution.CollectDependencies | src/yake.rs:155-177 | Ok iff every dependency of every Callable resolves, and then `DependencyMap`. Otherwise the error names a missing dependency of some Callable. |
| Document.Yake.GetAllDependencies | src/yake.rs:155-177 | The same, over the document's flattened targets. |
| Document.Yake.GetDependenciesByName | src/yake.rs:180-185 | The direct dependencies of a Callable. A Group or unknown name aborts with `NotCallable`. A missing dependency anywhere aborts first. |
| Document.Yake.AddSubYake | src/yake.rs:188-193 | The new top-level map is the old one overridden by the sub document's flattened entries. Meta data and environment are unchanged. |
| Document.Yake.InsertTargets | src/yake.rs:189-192 | Every inserted entry overwrites a target of the same name. Every other target keeps its value, and no other name appears. |
| Document.AddedEntriesKept | src/yake.rs:188-193 | After the merge, every entry taken from the sub document is found under the same name in the root's flattened map. |
| Environment.MergePrefixes | src/yake.rs:206-210 | The prefix loop aborts only with `UnknownParent`, naming a prefix that is not an entry. |
| Environment.ResolveEnv | src/yake.rs:196-228 | An unknown name gives `UnknownTarget`. A success holds no reserved variable. A refusal names a non-empty set of reserved variables only. |
| Environment.OverrideKeys | src/yake.rs:201-213 | A key is in the layered merge iff some layer has it: keys accumulate. |
| Environment.OverrideDeepest | src/yake.rs:201-213 | A key takes its value from the last layer that has it: the deeper wins. |
| Environment.MergePrefixesOverride | src/yake.rs:206-210 | When every prefix is an entry, the prefix loop equals the override merge of the prefix environments, shortest first. |
| Environment.ResolveEnvLayers | src/yake.rs:196-228 | For a known name whose prefixes are all entries, the result is the override merge of document, prefixes and target. It is refused iff that merge holds a reserved variable. |
| Environment.OverrideRepeat | src/yake.rs:209-213 | Merging the same map twice in a row merges it once. |
| Environment.FinalMergeRedundant | src/yake.rs:206-213 | Merging the target's own environment after the prefix loop changes nothing: the last prefix is the full name. |
| Environment.MissingPrefixAborts | src/yake.rs:206-208 | When some prefix of a known name is not an entry, resolution aborts with `UnknownParent` naming the shortest missing prefix: every shorter prefix is an entry. |
| Environment.MergeStopsAt | src/yake.rs:206-208 | The prefix loop aborts at exactly the first missing prefix. |
| Environment.ResolveTargetEnv | src/yake.rs:196-228 | The loop computes `ResolveEnv`. |
| Document.Yake.GetTargetEnvVars | src/yake.rs:196-228 | The document's environment resolved over its flattened targets, as `ResolveEnv` states. |
| Execution.DependencyCommandsAt | src/yake.rs:274-277 | Command m of dependency j sits at that dependency's offset plus m in the concatenated dependency commands. |
| Execution.DependencyCommandsGrow | src/yake.rs:274-277 | The commands of the first j dependencies are a prefix of the commands of all of them, so their count is at most the total. |
| Execution.CommandEnv | src/yake.rs:250 | For an unknown name the environment is empty: the returned `Err` becomes the default. A result never holds a reserved variable. It fails iff the resolver aborts with anything other than `UnknownTarget`, and then with the resolver's error. |
| Execution.RequesterEnv | src/yake.rs:250 | Every command of a successful run has the environment resolved for the requested target, not for the dependency. |
| Execution.TraceCommands | src/yake.rs:274-280 | A successful run issues the dependencies' commands in declared order, then the target's own. |
| Execution.NothingToRun | src/yake.rs:239-271 | With no commands anywhere (`exec` absent), the run issues nothing and never resolves an environment. |
| Execution.DependencyAbortPlanned | src/yake.rs:250-252 | An environment that aborts at a dependency's command aborts the whole run. |
| Execution.TargetRunPlanned | src/yake.rs:279-282 | The target's own commands after the dependencies complete the planned trace. |
| Execution.RunTarget | src/yake.rs:239-272 | No commands leaves the trace unchanged. Otherwise every command is appended with the requested target's environment (empty on `UnknownTarget`), or the resolver's abort is returned. |
| Execution.Execute | src/yake.rs:231-283 | An unknown name gives `UnknownTarget`. A missing dependency anywhere aborts with it. Otherwise the result is `ExecutionPlan`. |
| Document.Yake.Execute | src/yake.rs:231-283 | The same, over the document's flattened targets and environment. |
| Document.GroupTargetAborts | src/yake.rs:236-237 | Executing a top-level Group aborts with `NotCallable`: it has no dependency list. |
| Fixture.FlatEntry | src/yake.rs:321-382 | Every flattened entry of the test document is one of base, test, group, group.sub with its target. |
| Fixture.FlatKeys | src/yake.rs:321-382 | base, test, group and group.sub are all flattened entries. |
| Fixture.FlattenDocument | src/yake.rs:414-420 | The test document flattens to exactly four entries. |
| Fixture.TargetNamesOfDocument | src/yake.rs:448-456 | The Callable names are base, test and group.sub: three names. |
| Fixture.HasTargetNameOfDocument | src/yake.rs:440-446 | group.sub and group are known. "sub" is not, and the error reports the three Callable names. |
| Fixture.DocumentDependenciesResolve | src/yake.rs:422-430 | Every `depends` of the test document resolves. |
| Fixture.SingleDependency | src/yake.rs:162-173 | A Callable with one resolvable dependency gets a list holding that target alone. |
| Fixture.DependenciesOfDocument | src/yake.rs:422-430 | Three lists: base empty, test and group.sub each holding base, whose doc is "Base". |
| Fixture.SplitNames | src/yake.rs:202 | The names of the tests split into one segment each, and group.sub into group and sub. |
| Fixture.ResolveOneSegment | src/yake.rs:201-227 | A one-segment name resolves to the document environment merged with its own, refused on reserved variables. |
| Fixture.AllowedUnchanged | src/yake.rs:217-227 | Without reserved variables, the allowed part is the whole merge. |
| Fixture.ResolveToRoot | src/yake.rs:201-227 | A one-segment name without an `env` gets the document environment. |
| Fixture.ResolveTwoSegments | src/yake.rs:201-227 | A two-segment name merges the document, the first segment and itself, in that order. |
| Fixture.ResolveReservedRoot | src/yake.rs:215-223 | A reserved variable in the document environment reaches every one-segment target without an `env` and aborts. |
| Fixture.EnvOfBase | src/yake.rs:470-472 | base resolves to BASE=BASEVAL. |
| Fixture.EnvOfTest | src/yake.rs:474-478 | test resolves to BASE, WEBAPP_PORT and POSTGRES_PORT with the test's values. |
| Fixture.EnvOfGroup | src/yake.rs:480-482 | The top-level Group resolves to BASE=BASEVAL. |
| Fixture.EnvOfGroupSub | src/yake.rs:484-488 | group.sub resolves to BASE=OVERWRITE, DOCKER_PORT and POSTGRES_PORT=54322: the deeper value wins. |
| Fixture.ReservedEnvAborts | src/yake.rs:491-501 | A document environment with PATH aborts resolution of base, naming PATH. |
| Fixture.FlattenNested | src/yake.rs:289-312 | A Callable c under Group b under top-level Group a is flattened to "a.b.c". "a.b" is not an entry. |
| Fixture.NestedEnvAborts | src/yake.rs:206-208 | Resolving "a.b.c" aborts at the prefix "a.b". |
| Fixture.DependenciesNotTransitive | src/yake.rs:162-173 | In a chain first → second → third, the list of first holds second only. |
| Fixture.AddSubYakeOverwrites | src/yake.rs:597-609 | After the merge, the top-level targets are the sub document's base and sub_base, plus the root's group. |
| Fixture.MergedBaseOverwritten | src/yake.rs:598-605 | The merged base is a Callable documented "Test command overwritten". |
| Fixture.MergedIsFlat | src/yake.rs:125-126 | The merged document flattens to its own targets. |
| Fixture.MergedDependencies | src/yake.rs:157-176 | Every dependency of the merged document resolves. |
| Fixture.PlanOneCommand | src/yake.rs:239-280 | A one-segment Callable with one command and no dependencies runs that command once, in the document environment. |
| Fixture.PlanOneCommandReserved | src/yake.rs:250-252 | The same target aborts with the reserved variables when the document environment holds one. |
| Fixture.ExecuteMergedBase | src/yake.rs:231-283 | Without a document environment, executing the merged base runs its one command with no variables. |
| Fixture.ExecuteMergedBaseWithPath | src/yake.rs:250-252 | With the test documents' PATH environment, executing the merged base aborts with PATH before any command. |
| Fixture.ExecuteGroupOrUnknown | src/yake.rs:232-237 | Executing the Group aborts with `NotCallable`. Executing "sub" gives `UnknownTarget`. |
| Fixture.ExecuteTestRunsNothing | src/yake.rs:239-271 | In the first test document no target has `exec`, so executing test runs nothing and succeeds. |

## Left out

- `src/yaml.rs` and `src/main.rs` are not part of this model. They cover reading Yakefiles, `include_recursively`, building the sub documents, command-line handling and printing the target list.
- serde: the derived (de)serialization of the document and target records is not modelled. Only the hand-written target-type mapping is.
- The `dependencies` and `all_targets` fields of `Yake` are not modelled. They are caches that the core never reads.
- Subprocesses are not modelled: `bash -c`, their output and the "↪ Executing" / "↪ Done" printing. The model records each command with its environment instead. A failure to start a process is not modelled.
- Document.Yake.Execute: returns the trace of invocations where the source returns the fixed string "All cool".
- Document.Yake.GetTargetNames: returns a set where the source returns a `Vec` in HashMap order. The names are distinct keys, so the two have the same members and the same size.
- Document.Yake.HasTargetName: its error holds the Callable names as a set, where the source holds a `Vec` in HashMap order, for the same reason.
- Document.Yake.GetAllTargets: requires `Flattenable`: two entries that produce one qualified name produce the same target. Without that, the source's result depends on HashMap iteration order, which is not modelled.
- Document.Yake.GetTargetNames, Document.Yake.GetTargetByName, Document.Yake.HasTargetName, Document.Yake.GetAllDependencies, Document.Yake.GetDependenciesByName, Document.Yake.GetTargetEnvVars, Document.Yake.Execute: require `Flattenable` of the document's targets, because each of them flattens the targets first.
- Flatten.GetSubTargets: requires `Unambiguous`, for the same reason.
- Document.Yake.AddSubYake: requires `Flattenable` of the sub document, for the same reason. Where the same name reaches the root more than once, the last insertion wins in HashMap order, which is not modelled.
- Panics are modelled as `Err` values, so the model does not distinguish a process abort from a returned error. Only `UnknownTarget` is an `Err` in the source.
- Each method of the `Yake` class flattens the targets once, where the source flattens them again in every query and in every lookup of a loop. The flattening is deterministic, so the results are the same.
