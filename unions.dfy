/**
 * Order-free union of a family of maps, the shape of a HashMap built by
 * `insert`/`extend` while iterating another HashMap: whatever the iteration
 * order, the result is this union as long as members that share a key agree
 * on its value.
 */
module Unions {

  /** Maps indexed by the name of the entry that contributed them. */
  type Family<V> = map<string, map<string, V>>

  /** Every key some member of the family holds. */
  ghost function Members<V>(f: Family<V>): set<string>
  {
    set n, k | n in f && k in f[n] :: k
  }

  /** The union of a family of maps; a key held by several members takes one of their values. */
  ghost function Union<V>(f: Family<V>): map<string, V>
  {
    map k | k in Members(f) :: Pick(f, k)
  }

  /** The value of `k` in one member that holds it. */
  ghost function Pick<V>(f: Family<V>, k: string): V
    requires k in Members(f)
  {
    var n :| n in f && k in f[n]; f[n][k]
  }

  /** Members that share a key agree on its value, so the union does not depend on order. */
  ghost predicate Compatible<V>(f: Family<V>)
  {
    forall n1, n2 :: n1 in f && n2 in f ==> Agree(f[n1], f[n2])
  }

  /** Two maps give the same value to every key they share. */
  ghost predicate Agree<V>(a: map<string, V>, b: map<string, V>)
  {
    forall k :: k in a && k in b ==> a[k] == b[k]
  }

  /** The members of the family whose names are in `names`. */
  ghost function Restrict<V>(f: Family<V>, names: set<string>): Family<V>
  {
    map n | n in f && n in names :: f[n]
  }

  lemma UnionPick<V>(f: Family<V>, k: string)
    requires k in Union(f)
    ensures exists n :: n in f && k in f[n] && Union(f)[k] == f[n][k]
  {
  }

  lemma UnionValue<V>(f: Family<V>, n: string, k: string)
    requires Compatible(f)
    requires n in f && k in f[n]
    ensures k in Union(f) && Union(f)[k] == f[n][k]
  {
    assert k in Members(f);
  }

  lemma RestrictCompatible<V>(f: Family<V>, names: set<string>)
    requires Compatible(f)
    ensures Compatible(Restrict(f, names))
  {
    var g := Restrict(f, names);
    forall n1, n2 | n1 in g && n2 in g
      ensures Agree(g[n1], g[n2])
    {
      assert g[n1] == f[n1] && g[n2] == f[n2];
    }
  }

  /** A key of the union of `done + {n}` that `f[n]` holds takes `f[n]`'s value. */
  lemma UnionAddKeyNew<V>(f: Family<V>, done: set<string>, n: string, k: string)
    requires Compatible(f)
    requires n in f && n !in done && k in f[n]
    requires k in Union(Restrict(f, done + {n}))
    ensures Union(Restrict(f, done + {n}))[k] == f[n][k]
  {
    var after := Restrict(f, done + {n});
    UnionPick(after, k);
    var m :| m in after && k in after[m] && Union(after)[k] == after[m][k];
    assert after[m] == f[m];
    assert f[m][k] == f[n][k];
  }

  /** A key of the union of `done + {n}` that `f[n]` lacks comes from the smaller union. */
  lemma UnionAddKeyOld<V>(f: Family<V>, done: set<string>, n: string, k: string)
    requires Compatible(f)
    requires n in f && n !in done && k !in f[n]
    requires k in Union(Restrict(f, done + {n}))
    ensures k in Union(Restrict(f, done))
    ensures Union(Restrict(f, done + {n}))[k] == Union(Restrict(f, done))[k]
  {
    var before, after := Restrict(f, done), Restrict(f, done + {n});
    UnionPick(after, k);
    var m :| m in after && k in after[m] && Union(after)[k] == after[m][k];
    assert m in before && before[m] == f[m] && after[m] == f[m];
    RestrictCompatible(f, done);
    UnionValue(before, m, k);
    assert Union(after)[k] == Union(before)[k];
  }

  /** One key of the smaller union or of `f[n]` is a key of the union of `done + {n}`. */
  lemma UnionKeepKey<V>(f: Family<V>, done: set<string>, n: string, k: string)
    requires Compatible(f)
    requires n in f && n !in done
    requires k in Union(Restrict(f, done)) + f[n]
    ensures k in Union(Restrict(f, done + {n}))
  {
    var before, after := Restrict(f, done), Restrict(f, done + {n});
    RestrictCompatible(f, done + {n});
    if k in f[n] {
      assert after[n] == f[n];
      UnionValue(after, n, k);
    } else {
      UnionPick(before, k);
      var m :| m in before && k in before[m];
      assert after[m] == before[m];
      UnionValue(after, m, k);
    }
  }

  /** Adding one more member to a compatible union extends the map by that member. */
  lemma UnionAddMember<V>(f: Family<V>, done: set<string>, n: string)
    requires Compatible(f)
    requires n in f && n !in done
    ensures Union(Restrict(f, done + {n})) == Union(Restrict(f, done)) + f[n]
  {
    var lhs, rhs := Union(Restrict(f, done + {n})), Union(Restrict(f, done)) + f[n];
    forall k | k in lhs
      ensures k in rhs && lhs[k] == rhs[k]
    {
      if k in f[n] {
        UnionAddKeyNew(f, done, n, k);
      } else {
        UnionAddKeyOld(f, done, n, k);
      }
    }
    forall k | k in rhs
      ensures k in lhs
    {
      UnionKeepKey(f, done, n, k);
    }
    MapsEqual(lhs, rhs);
  }

  /** Inserting then extending is extending by the insertion followed by the extension. */
  lemma InsertThenExtend<V>(m: map<string, V>, k: string, v: V, extra: map<string, V>)
    ensures m[k := v] + extra == m + (map[k := v] + extra)
  {
    MapsEqual(m[k := v] + extra, m + (map[k := v] + extra));
  }

  /** Every key of every member is a key of the union. */
  lemma UnionMember<V>(f: Family<V>, n: string, k: string)
    requires n in f && k in f[n]
    ensures k in Union(f)
  {
    assert k in Members(f);
  }

  /** Inserting one key is extending by the one-entry map. */
  lemma InsertIsExtend<V>(m: map<string, V>, k: string, v: V)
    ensures m[k := v] == m + map[k := v]
  {
    MapsEqual(m[k := v], m + map[k := v]);
  }

  lemma MapsEqual<V>(a: map<string, V>, b: map<string, V>)
    requires forall k :: k in a ==> k in b && a[k] == b[k]
    requires forall k :: k in b ==> k in a
    ensures a == b
  {
  }

  lemma UnionEmpty<V>(f: Family<V>)
    ensures Union(Restrict(f, {})) == map[]
  {
    assert Members(Restrict(f, {})) == {};
  }

  /** Restricting to every member is no restriction. */
  lemma UnionAll<V>(f: Family<V>, names: set<string>)
    requires names == f.Keys
    ensures Union(Restrict(f, names)) == Union(f)
  {
    assert Restrict(f, names) == f;
  }

}
