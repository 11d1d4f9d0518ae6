/**
 * Flattening of the target tree into one map keyed by dot-joined qualified
 * name: `YakeTarget::get_sub_targets` (src/yake.rs:289-312) and
 * `Yake::get_all_targets` (src/yake.rs:122-134).
 *
 * Both build a HashMap by inserting and extending while iterating another
 * HashMap, so the result depends on iteration order only when two entries
 * produce the same qualified name. The specification below is the order-free
 * union of what every entry contributes; the methods compute it under the
 * precondition that colliding contributions agree.
 */
module Flatten {
  import opened Wrappers
  import opened Targets
  import opened QualifiedNames

  import opened Unions

  type Contributions = Family<Target>

  /** The name a Callable child is inserted under (src/yake.rs:295-298). */
  function Qualify(prefix: Option<string>, name: string): string
  {
    match prefix
    case Some(p) => p + "." + name
    case None => name
  }

  /** The prefix a Group child is recursed into with (src/yake.rs:301-304). */
  function GroupPrefix(prefix: Option<string>, name: string): Option<string>
  {
    match prefix
    case Some(p) => Some(p + "." + name)
    case None => None
  }

  /** What one child adds to its parent's sub-target map (src/yake.rs:294-306). */
  ghost function ChildEntries(prefix: Option<string>, name: string, child: Target): map<string, Target>
    decreases child, 2
  {
    if child.IsCallable() then map[Qualify(prefix, name) := child]
    else SubTargetMap(child, GroupPrefix(prefix, name))
  }

  /** The contributions of all children of `t`, by child name. */
  ghost function ChildFamily(t: Target, prefix: Option<string>): Contributions
    decreases t, 0
  {
    match t.targets
    case NoSubTargets => map[]
    case SubTargets(children) => map n | n in children :: ChildEntries(prefix, n, children[n])
  }

  /** Specification of `get_sub_targets(prefix)`. */
  ghost function SubTargetMap(t: Target, prefix: Option<string>): map<string, Target>
    decreases t, 1
  {
    Union(ChildFamily(t, prefix))
  }

  /** No two children of any Group reached from `t` contribute different targets under one name. */
  ghost predicate Unambiguous(t: Target, prefix: Option<string>)
    decreases t
  {
    && Compatible(ChildFamily(t, prefix))
    && match t.targets
       case NoSubTargets => true
       case SubTargets(children) =>
         forall n | n in children && children[n].IsGroup() :: Unambiguous(children[n], GroupPrefix(prefix, n))
  }

  /** What one top-level entry adds to the flattened map (src/yake.rs:126-130). */
  ghost function TopLevelEntries(name: string, t: Target): map<string, Target>
  {
    if t.targets.SubTargets? then map[name := t] + SubTargetMap(t, Some(name)) else map[name := t]
  }

  ghost function TopFamily(targets: map<string, Target>): Contributions
  {
    map n | n in targets :: TopLevelEntries(n, targets[n])
  }

  /** Specification of `get_all_targets`: the flattened, normalized map of a document's targets. */
  ghost function AllTargets(targets: map<string, Target>): map<string, Target>
  {
    Union(TopFamily(targets))
  }

  /** The document's targets flatten without a collision between different targets. */
  ghost predicate Flattenable(targets: map<string, Target>)
  {
    && Compatible(TopFamily(targets))
    && forall n | n in targets :: Unambiguous(targets[n], Some(n))
  }

  // ---------------------------------------------------------------------------
  // Methods

  /** A Callable child contributes itself under its qualified name. */
  lemma CallableChildEntries(prefix: Option<string>, name: string, child: Target)
    requires child.IsCallable()
    ensures ChildEntries(prefix, name, child) == map[Qualify(prefix, name) := child]
  {
  }

  /** A Group child contributes what its own children contribute under the longer prefix. */
  lemma GroupChildEntries(prefix: Option<string>, name: string, child: Target)
    requires !child.IsCallable()
    ensures ChildEntries(prefix, name, child) == SubTargetMap(child, GroupPrefix(prefix, name))
  {
  }

  /** `YakeTarget::get_sub_targets`: the Callable descendants reached through Groups. */
  method GetSubTargets(t: Target, prefix: Option<string>) returns (r: map<string, Target>)
    requires Unambiguous(t, prefix)
    ensures r == SubTargetMap(t, prefix)
    decreases t, 0
  {
    r := map[];
    ghost var f := ChildFamily(t, prefix);
    UnionEmpty(f);
    match t.targets {
      case NoSubTargets =>
      case SubTargets(children) =>
        var todo := children.Keys;
        ghost var done: set<string> := {};
        while todo != {}
          invariant todo <= children.Keys && done == children.Keys - todo
          invariant r == Union(Restrict(f, done))
          decreases todo
        {
          var name :| name in todo;
          var child := children[name];
          assert child in children.Values;
          assert f[name] == ChildEntries(prefix, name, child);
          r := AddChild(r, prefix, name, child);
          UnionAddMember(f, done, name);
          todo := todo - {name};
          done := done + {name};
        }
        UnionAll(f, done);
    }
  }

  /** The body of the loop of `get_sub_targets`: insert a Callable child, or extend by a Group child's descendants. */
  method AddChild(r: map<string, Target>, prefix: Option<string>, name: string, child: Target)
    returns (r': map<string, Target>)
    requires child.IsGroup() ==> Unambiguous(child, GroupPrefix(prefix, name))
    ensures r' == r + ChildEntries(prefix, name, child)
    decreases child, 1
  {
    if child.IsCallable() {
      CallableChildEntries(prefix, name, child);
      InsertIsExtend(r, Qualify(prefix, name), child);
      r' := r[Qualify(prefix, name) := child];
    } else {
      GroupChildEntries(prefix, name, child);
      var sub := GetSubTargets(child, GroupPrefix(prefix, name));
      r' := r + sub;
    }
  }

  /** The body of the loop of `get_all_targets`: insert the entry, then extend by its descendants. */
  method AddTopLevel(all: map<string, Target>, name: string, target: Target) returns (all': map<string, Target>)
    requires Unambiguous(target, Some(name))
    ensures all' == all + TopLevelEntries(name, target)
  {
    all' := all[name := target];
    if target.targets.SubTargets? {
      var sub := GetSubTargets(target, Some(name));
      all' := all' + sub;
      InsertThenExtend(all, name, target, sub);
    } else {
      InsertIsExtend(all, name, target);
    }
  }

  // ---------------------------------------------------------------------------
  // What flattening produces, stated by paths through the tree

  /** `path` leads from `t` through Group children only to a Callable child `leaf`. */
  ghost predicate Reaches(t: Target, path: seq<string>, leaf: Target)
    decreases t
  {
    && t.targets.SubTargets?
    && |path| > 0
    && path[0] in t.targets.entries
    && var child := t.targets.entries[path[0]];
       assert child in t.targets.entries.Values;
       if child.IsCallable() then |path| == 1 && leaf == child
       else Reaches(child, path[1..], leaf)
  }

  /** The name `get_sub_targets(prefix)` gives the end of `path` (src/yake.rs:295-305). */
  function QualifiedName(prefix: Option<string>, path: seq<string>): string
    requires |path| > 0
    decreases |path|
  {
    if |path| == 1 then Qualify(prefix, path[0])
    else QualifiedName(GroupPrefix(prefix, path[0]), path[1..])
  }

  /** Under a prefix, the name of a path is the prefix and the path joined with dots. */
  lemma {:induction false} QualifiedNameJoin(p: string, path: seq<string>)
    requires |path| > 0
    ensures QualifiedName(Some(p), path) == p + "." + Join(path)
    decreases |path|
  {
    if |path| > 1 {
      QualifiedNameJoin(p + "." + path[0], path[1..]);
      assert (p + "." + path[0]) + "." + Join(path[1..]) == p + "." + (path[0] + "." + Join(path[1..]));
    }
  }

  /** Only Callable targets are reached. */
  lemma {:induction false} ReachesCallable(t: Target, path: seq<string>, leaf: Target)
    requires Reaches(t, path, leaf)
    ensures leaf.IsCallable()
    decreases t
  {
    var child := t.targets.entries[path[0]];
    assert child in t.targets.entries.Values;
    if !child.IsCallable() {
      ReachesCallable(child, path[1..], leaf);
    }
  }

  /**
   * Every entry of `get_sub_targets(prefix)` is a Callable reached through a
   * chain of Groups, under that chain's qualified name.
   */
  lemma {:induction false} SubTargetMapSound(t: Target, prefix: Option<string>, k: string)
    requires k in SubTargetMap(t, prefix)
    ensures exists path :: |path| > 0 && Reaches(t, path, SubTargetMap(t, prefix)[k]) && k == QualifiedName(prefix, path)
    decreases t
  {
    var f := ChildFamily(t, prefix);
    UnionPick(f, k);
    var n :| n in f && k in f[n] && SubTargetMap(t, prefix)[k] == f[n][k];
    var child := t.targets.entries[n];
    assert child in t.targets.entries.Values;
    assert f[n] == ChildEntries(prefix, n, child);
    if child.IsCallable() {
      var path := [n];
      assert Reaches(t, path, SubTargetMap(t, prefix)[k]);
    } else {
      var sub := SubTargetMap(child, GroupPrefix(prefix, n));
      SubTargetMapSound(child, GroupPrefix(prefix, n), k);
      var rest :| |rest| > 0 && Reaches(child, rest, sub[k]) && k == QualifiedName(GroupPrefix(prefix, n), rest);
      var path := [n] + rest;
      assert path[1..] == rest;
      assert Reaches(t, path, SubTargetMap(t, prefix)[k]);
    }
  }

  /**
   * Every Callable reached through a chain of Groups is an entry of
   * `get_sub_targets(prefix)`; without a collision it is the entry's value.
   */
  lemma {:induction false} SubTargetMapComplete(t: Target, prefix: Option<string>, path: seq<string>, leaf: Target)
    requires Reaches(t, path, leaf)
    ensures QualifiedName(prefix, path) in SubTargetMap(t, prefix)
    ensures Unambiguous(t, prefix) ==> SubTargetMap(t, prefix)[QualifiedName(prefix, path)] == leaf
    decreases t
  {
    var f := ChildFamily(t, prefix);
    var n := path[0];
    var child := t.targets.entries[n];
    var k := QualifiedName(prefix, path);
    assert child in t.targets.entries.Values;
    assert f[n] == ChildEntries(prefix, n, child);
    if !child.IsCallable() {
      SubTargetMapComplete(child, GroupPrefix(prefix, n), path[1..], leaf);
    }
    UnionMember(f, n, k);
    if Unambiguous(t, prefix) {
      UnionValue(f, n, k);
    }
  }

  /** Every key below a prefix is longer than the prefix, so it never equals it. */
  lemma SubTargetKeysLonger(t: Target, p: string, k: string)
    requires k in SubTargetMap(t, Some(p))
    ensures |k| > |p|
  {
    SubTargetMapSound(t, Some(p), k);
    var path :| |path| > 0 && Reaches(t, path, SubTargetMap(t, Some(p))[k]) && k == QualifiedName(Some(p), path);
    QualifiedNameJoin(p, path);
  }

  /** A top-level entry contributes itself under its own name. */
  lemma TopLevelEntriesSelf(name: string, t: Target)
    ensures name in TopLevelEntries(name, t) && TopLevelEntries(name, t)[name] == t
  {
    if t.targets.SubTargets? && name in SubTargetMap(t, Some(name)) {
      SubTargetKeysLonger(t, name, name);
    }
  }

  /**
   * Every top-level target is kept under its own name, whatever its type;
   * without a collision it is the value there (src/yake.rs:125-126).
   */
  lemma TopLevelKept(targets: map<string, Target>, name: string)
    requires name in targets
    ensures name in AllTargets(targets)
    ensures Flattenable(targets) ==> AllTargets(targets)[name] == targets[name]
  {
    var f := TopFamily(targets);
    TopLevelEntriesSelf(name, targets[name]);
    UnionMember(f, name, name);
    if Flattenable(targets) {
      UnionValue(f, name, name);
    }
  }

  /**
   * Every Callable reached from a top-level target through a chain of Groups
   * is kept under the dot-joined path; without a collision it is the value there
   * (src/yake.rs:127-130).
   */
  lemma NestedCallableKept(targets: map<string, Target>, name: string, path: seq<string>, leaf: Target)
    requires name in targets && Reaches(targets[name], path, leaf)
    ensures name + "." + Join(path) in AllTargets(targets)
    ensures Flattenable(targets) ==> AllTargets(targets)[name + "." + Join(path)] == leaf
  {
    var f := TopFamily(targets);
    var t := targets[name];
    var k := name + "." + Join(path);
    QualifiedNameJoin(name, path);
    SubTargetMapComplete(t, Some(name), path, leaf);
    assert k in f[name];
    UnionMember(f, name, k);
    if Flattenable(targets) {
      SubTargetKeysLonger(t, name, k);
      UnionValue(f, name, k);
    }
  }

  /**
   * Every entry of the flattened map is a top-level target under its own name,
   * or a Callable reached from a top-level target through Groups only, under
   * the dot-joined path: the children of a Callable below the top level are
   * never visited.
   */
  lemma AllTargetsSound(targets: map<string, Target>, k: string)
    requires k in AllTargets(targets)
    ensures || (k in targets && AllTargets(targets)[k] == targets[k])
            || exists name, path :: name in targets && |path| > 0 && Reaches(targets[name], path, AllTargets(targets)[k])
                                   && k == name + "." + Join(path)
  {
    var f := TopFamily(targets);
    UnionPick(f, k);
    var name :| name in f && k in f[name] && AllTargets(targets)[k] == f[name][k];
    var t := targets[name];
    TopLevelEntriesSelf(name, t);
    if k != name {
      var sub := SubTargetMap(t, Some(name));
      assert t.targets.SubTargets? && k in sub && f[name][k] == sub[k];
      SubTargetMapSound(t, Some(name), k);
      var path :| |path| > 0 && Reaches(t, path, sub[k]) && k == QualifiedName(Some(name), path);
      QualifiedNameJoin(name, path);
    }
  }

  /** The flattened map holds no Group except top-level ones. */
  lemma GroupsOnlyAtTopLevel(targets: map<string, Target>, k: string)
    requires k in AllTargets(targets) && AllTargets(targets)[k].IsGroup()
    ensures k in targets && AllTargets(targets)[k] == targets[k]
  {
    AllTargetsSound(targets, k);
    if !(k in targets && AllTargets(targets)[k] == targets[k]) {
      var name, path :| name in targets && |path| > 0 && Reaches(targets[name], path, AllTargets(targets)[k])
                        && k == name + "." + Join(path);
      ReachesCallable(targets[name], path, AllTargets(targets)[k]);
    }
  }

  /** A document whose targets have no children flattens to itself. */
  lemma ChildlessFlattensToItself(targets: map<string, Target>)
    requires forall n :: n in targets ==> targets[n].targets.NoSubTargets?
    ensures AllTargets(targets) == targets
  {
    forall k | k in AllTargets(targets) ensures k in targets && AllTargets(targets)[k] == targets[k] {
      AllTargetsSound(targets, k);
    }
    forall k | k in targets ensures k in AllTargets(targets) {
      TopLevelKept(targets, k);
    }
    MapsEqual(AllTargets(targets), targets);
  }
}
