/**
 * Qualified names: `str::split(".")` and `[..].join(".")` as used by the
 * environment resolver (src/yake.rs:202, 207).
 */
module QualifiedNames {

  /** `s.split(".")`: the segments between dots, empty ones included; never empty. */
  function Split(s: string): (parts: seq<string>)
    ensures |parts| >= 1
  {
    if |s| == 0 then [""]
    else
      var rest := Split(s[1..]);
      if s[0] == '.' then [""] + rest
      else [[s[0]] + rest[0]] + rest[1..]
  }

  /** `parts.join(".")`. */
  function Join(parts: seq<string>): string
  {
    if |parts| == 0 then ""
    else if |parts| == 1 then parts[0]
    else parts[0] + "." + Join(parts[1..])
  }

  /** A name without dots is a single segment. */
  predicate IsSegment(s: string)
  {
    forall i :: 0 <= i < |s| ==> s[i] != '.'
  }

  /** Joining the segments of a name gives the name back. */
  lemma {:induction false} JoinSplit(s: string)
    ensures Join(Split(s)) == s
  {
    if |s| > 0 {
      var rest := Split(s[1..]);
      JoinSplit(s[1..]);
      if s[0] == '.' {
        assert Split(s) == [""] + rest;
        assert (([""] + rest)[1..]) == rest;
      } else {
        assert Split(s) == [[s[0]] + rest[0]] + rest[1..];
        if |rest| > 1 {
          assert Join(rest) == rest[0] + "." + Join(rest[1..]);
          assert ([[s[0]] + rest[0]] + rest[1..])[1..] == rest[1..];
          assert s == [s[0]] + s[1..];
        } else {
          assert s == [s[0]] + s[1..];
        }
      }
    }
  }

  /** No segment produced by Split contains a dot. */
  lemma {:induction false} SplitSegments(s: string)
    ensures forall i :: 0 <= i < |Split(s)| ==> IsSegment(Split(s)[i])
  {
    if |s| > 0 {
      SplitSegments(s[1..]);
    }
  }

  /** Splitting the join of dot-free segments gives the segments back. */
  lemma {:induction false} SplitJoin(parts: seq<string>)
    requires |parts| >= 1
    requires forall i :: 0 <= i < |parts| ==> IsSegment(parts[i])
    ensures Split(Join(parts)) == parts
  {
    if |parts| == 1 {
      SplitSegment(parts[0], []);
    } else {
      SplitJoin(parts[1..]);
      SplitSegment(parts[0], parts[1..]);
    }
  }

  /** Splitting `seg + "." + Join(rest)` peels off `seg`, and a lone segment splits to itself. */
  lemma {:induction false} SplitSegment(seg: string, rest: seq<string>)
    requires IsSegment(seg)
    requires |rest| >= 1 ==> Split(Join(rest)) == rest
    ensures |rest| == 0 ==> Split(seg) == [seg]
    ensures |rest| >= 1 ==> Split(seg + "." + Join(rest)) == [seg] + rest
  {
    if |seg| == 0 {
      if |rest| >= 1 {
        assert seg + "." + Join(rest) == "." + Join(rest);
        assert ("." + Join(rest))[1..] == Join(rest);
      }
    } else {
      SplitSegment(seg[1..], rest);
      if |rest| >= 1 {
        var s := seg + "." + Join(rest);
        assert s[0] == seg[0];
        assert s[1..] == seg[1..] + "." + Join(rest);
        assert [seg[0]] + seg[1..] == seg;
      } else {
        assert [seg[0]] + seg[1..] == seg;
      }
    }
  }
}
