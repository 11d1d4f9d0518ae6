/**
 * The target tree of one Yakefile (src/yake.rs:11-79) and the hand-written
 * string mapping of a target's type (src/yake.rs:81-107).
 */
module Targets {
  import opened Wrappers

  /** `YakeTargetType`: a Group only namespaces its children, a Callable runs commands. */
  datatype TargetType = Group | Callable

  /** The error the deserializer reports for a type string it does not know. */
  datatype TypeError = UnknownTargetType(text: string)

  /** Serialization of a target type (src/yake.rs:82-92). */
  function TypeName(t: TargetType): (s: string)
    ensures s == "group" <==> t == Group
    ensures s == "callable" <==> t == Callable
  {
    match t
    case Group => "group"
    case Callable => "callable"
  }

  /** Deserialization of a target type (src/yake.rs:95-107). */
  function ParseTargetType(s: string): (r: Result<TargetType, TypeError>)
    ensures r.Ok? <==> s == "group" || s == "callable"
    ensures r.Ok? ==> TypeName(r.value) == s
    ensures r.Err? ==> r.error == UnknownTargetType(s)
  {
    if s == "group" then Ok(Group)
    else if s == "callable" then Ok(Callable)
    else Err(UnknownTargetType(s))
  }

  /** Deserializing the serialization of a type gives the type back. */
  lemma TypeNameRoundTrip(t: TargetType)
    ensures ParseTargetType(TypeName(t)) == Ok(t)
  {
  }

  /** Serialization is injective: the two types never share a string. */
  lemma TypeNameInjective(t: TargetType, u: TargetType)
    ensures TypeName(t) == TypeName(u) <==> t == u
  {
  }

  /** `YakeMeta`: documentation, version and the include-subfolders switch. */
  datatype DocumentMeta = DocumentMeta(doc: string, version: string, includeRecursively: Option<bool>)

  /** `YakeTargetMeta`: documentation, type and the optional list of qualified dependency names. */
  datatype TargetMeta = TargetMeta(doc: string, targetType: TargetType, depends: Option<seq<string>>)

  /**
   * The optional children of a target (`Option<HashMap<String, YakeTarget>>`).
   * A datatype of its own rather than a generic Option, so that Dafny sees every
   * child as smaller than the target holding it.
   */
  datatype SubTargets = NoSubTargets | SubTargets(entries: map<string, Target>)

  /** `YakeTarget`: a node of the target tree. */
  datatype Target = Target(
    meta: TargetMeta,
    targets: SubTargets,
    env: Option<map<string, string>>,
    exec: Option<seq<string>>)
  {
    predicate IsCallable() { meta.targetType == Callable }
    predicate IsGroup() { meta.targetType == Group }
  }

  /** The dependency names of a target; an absent list is empty (src/yake.rs:162). */
  function DependsOf(t: Target): seq<string>
  {
    SeqOrEmpty(t.meta.depends)
  }

  /** The environment a target declares; an absent map is empty (src/yake.rs:209, 213). */
  function EnvOf(t: Target): map<string, string>
  {
    MapOrEmpty(t.env)
  }

  /** The commands a target runs; `exec = None` runs nothing (src/yake.rs:239-272). */
  function CommandsOf(t: Target): seq<string>
  {
    SeqOrEmpty(t.exec)
  }
}
