/** The relational expressions the serving SQL is made of, over tables keyed by primary key. */
module Relational {
  import opened Common

  /** The key values of `GROUP BY key`. */
  function GroupKeys<I, R, K(==)>(t: map<I, R>, key: R -> K): set<K>
  {
    set i | i in t :: key(t[i])
  }

  /** The rows of one group. */
  function Group<I, R, K(==)>(t: map<I, R>, key: R -> K, k: K): map<I, R>
  {
    map i | i in t && key(t[i]) == k :: t[i]
  }

  /** `SELECT key, agg FROM t GROUP BY key`. */
  function GroupBy<I, R, K(==), V>(t: map<I, R>, key: R -> K, agg: map<I, R> -> V): map<K, V>
  {
    map k | k in GroupKeys(t, key) :: agg(Group(t, key, k))
  }

  /** The rows of t outside partition p. */
  function Outside<I, R, P(==)>(t: map<I, R>, part: R -> P, p: P): map<I, R>
  {
    map i | i in t && part(t[i]) != p :: t[i]
  }

  /** `DELETE FROM summary WHERE part = p`, then `INSERT INTO summary SELECT .. FROM t WHERE part = p GROUP BY key`. */
  function Rebuild<I, R, K(==), V, P(==)>(summary: map<K, V>, t: map<I, R>, key: R -> K, agg: map<I, R> -> V,
                                          part: R -> P, partOfKey: K -> P, p: P): map<K, V>
  {
    (map k | k in summary && partOfKey(k) != p :: summary[k]) + GroupBy(Group(t, part, p), key, agg)
  }

  /** Whether the partition of a row can be read off its group key, for the rows of t. */
  ghost predicate KeyFixesPartition<I, R, K, P>(t: map<I, R>, key: R -> K, part: R -> P, partOfKey: K -> P)
  {
    forall i :: i in t ==> partOfKey(key(t[i])) == part(t[i])
  }

  lemma GroupOutside<I, R, K, P>(t: map<I, R>, key: R -> K, part: R -> P, partOfKey: K -> P, p: P, k: K)
    requires KeyFixesPartition(t, key, part, partOfKey)
    ensures partOfKey(k) != p ==> Group(Outside(t, part, p), key, k) == Group(t, key, k)
    ensures partOfKey(k) == p ==> Group(Group(t, part, p), key, k) == Group(t, key, k)
  {
  }

  /** Rebuilding one partition refreshes the whole summary when no row outside that partition changed. */
  lemma RebuildRefreshes<I, R, K, V, P>(t0: map<I, R>, t1: map<I, R>, key: R -> K, agg: map<I, R> -> V,
                                        part: R -> P, partOfKey: K -> P, p: P)
    requires KeyFixesPartition(t0, key, part, partOfKey) && KeyFixesPartition(t1, key, part, partOfKey)
    requires Outside(t0, part, p) == Outside(t1, part, p)
    ensures Rebuild(GroupBy(t0, key, agg), t1, key, agg, part, partOfKey, p) == GroupBy(t1, key, agg)
  {
    var rebuilt := Rebuild(GroupBy(t0, key, agg), t1, key, agg, part, partOfKey, p);
    var recomputed := GroupBy(t1, key, agg);
    forall k | k in rebuilt.Keys + recomputed.Keys
      ensures k in rebuilt.Keys && k in recomputed.Keys && rebuilt[k] == recomputed[k]
    {
      GroupOutside(t0, key, part, partOfKey, p, k);
      GroupOutside(t1, key, part, partOfKey, p, k);
      KeyHasGroup(t0, key, k);
      KeyHasGroup(t1, key, k);
      KeyHasGroup(Group(t1, part, p), key, k);
    }
    assert rebuilt.Keys == recomputed.Keys;
  }

  lemma KeyHasGroup<I, R, K>(t: map<I, R>, key: R -> K, k: K)
    ensures k in GroupKeys(t, key) <==> Group(t, key, k) != map[]
  {
    if k in GroupKeys(t, key) {
      var i :| i in t && key(t[i]) == k;
      assert i in Group(t, key, k);
    } else {
      assert Group(t, key, k) == map[];
    }
  }

  /** A summary rebuilt for p only is stale when the detail table gained a row outside p, if agg sees group sizes. */
  lemma RebuildGoesStale<I, R, K, V, P>(t0: map<I, R>, t1: map<I, R>, key: R -> K, agg: map<I, R> -> V,
                                        part: R -> P, partOfKey: K -> P, p: P, i: I)
    requires KeyFixesPartition(t0, key, part, partOfKey) && KeyFixesPartition(t1, key, part, partOfKey)
    requires forall j :: j in t0 ==> j in t1 && t1[j] == t0[j]
    requires i in t1 && i !in t0 && part(t1[i]) != p
    requires agg(Group(t1, key, key(t1[i]))) != agg(Group(t0, key, key(t1[i])))
    ensures Rebuild(GroupBy(t0, key, agg), t1, key, agg, part, partOfKey, p) != GroupBy(t1, key, agg)
  {
    var k := key(t1[i]);
    var rebuilt := Rebuild(GroupBy(t0, key, agg), t1, key, agg, part, partOfKey, p);
    assert k !in GroupKeys(Group(t1, part, p), key);
    assert k in GroupBy(t1, key, agg);
    assert k in rebuilt ==> rebuilt[k] == agg(Group(t0, key, k));
  }

  /** The rows outside group k keep all their other groups. */
  lemma WithoutGroup<I, R, K>(t: map<I, R>, key: R -> K, k: K)
    ensures GroupKeys(Outside(t, key, k), key) == GroupKeys(t, key) - {k}
    ensures forall j :: j in GroupKeys(t, key) - {k} ==> Group(Outside(t, key, k), key, j) == Group(t, key, j)
  {
    var rest := Outside(t, key, k);
    forall j | j in GroupKeys(t, key) - {k}
      ensures j in GroupKeys(rest, key) && Group(rest, key, j) == Group(t, key, j)
    {
      var i :| i in t && key(t[i]) == j;
      assert i in rest;
    }
  }

  lemma SplitGroup<I, R, K>(t: map<I, R>, key: R -> K, k: K, keep: set<I>)
    ensures |t.Keys * keep| == |Group(t, key, k).Keys * keep| + |Outside(t, key, k).Keys * keep|
  {
    var inside, outside := Group(t, key, k).Keys * keep, Outside(t, key, k).Keys * keep;
    assert t.Keys * keep == inside + outside;
    assert inside !! outside;
  }

  /** How many rows of group k are in keep (`count(*) FILTER` of one group). */
  ghost function Kept<I, R, K>(t: map<I, R>, key: R -> K, keep: set<I>): K -> nat
  {
    k => |Group(t, key, k).Keys * keep|
  }

  /** The groups of a table partition its rows, so per-group row counts sum to the table's row count. */
  lemma {:induction false} GroupSizesSum<I, R, K(!new)>(t: map<I, R>, key: R -> K, keep: set<I>)
    ensures SumOver(GroupKeys(t, key), Kept(t, key, keep)) == |t.Keys * keep|
    decreases |GroupKeys(t, key)|
  {
    var keys := GroupKeys(t, key);
    assert forall i :: i in t ==> key(t[i]) in keys;
    if k :| k in keys {
      var rest := Outside(t, key, k);
      WithoutGroup(t, key, k);
      SplitGroup(t, key, k, keep);
      GroupSizesSum(rest, key, keep);
      SumOverRemove(keys, Kept(t, key, keep), k);
      SumOverAgrees(keys - {k}, Kept(t, key, keep), Kept(rest, key, keep));
    } else {
      assert keys == {};
      assert t.Keys * keep == {};
    }
  }
}
