/**
 * java.util.HashMap / LinkedHashMap as an association list in insertion
 * order. `Put` overwrites in place (a re-put key keeps its position, as in
 * LinkedHashMap), `PutIfAbsent` treats a key mapped to null as absent, and
 * `MergeFirst` is `merge(k, v, (a, b) -> a)` as `Collectors.toMap` uses it.
 * For a HashMap the order of the list carries no meaning; only `Lookup` does.
 */
module LinkedMaps {
  import opened Wrappers

  type LinkedMap<K, V> = seq<(K, V)>

  function Keys<K, V>(m: LinkedMap<K, V>): (ks: seq<K>)
    ensures |ks| == |m| && forall i | 0 <= i < |m| :: ks[i] == m[i].0
  {
    seq(|m|, i requires 0 <= i < |m| => m[i].0)
  }

  /** No key appears twice, as in any java.util.Map. */
  predicate KeysUnique<K(==), V>(m: LinkedMap<K, V>) {
    forall i, j | 0 <= i < j < |m| :: m[i].0 != m[j].0
  }

  /** Position of the first entry for `k`, or -1. */
  function IndexOf<K(==), V>(m: LinkedMap<K, V>, k: K): (i: int)
    ensures -1 <= i < |m|
    ensures i >= 0 ==> m[i].0 == k && forall j | 0 <= j < i :: m[j].0 != k
    ensures i == -1 <==> k !in Keys(m)
  {
    if m == [] then -1
    else if m[0].0 == k then 0
    else
      var i := IndexOf(m[1..], k);
      assert Keys(m) == [m[0].0] + Keys(m[1..]);
      if i == -1 then -1 else i + 1
  }

  /** `get`, with None for a key that is not there. */
  function Lookup<K(==), V>(m: LinkedMap<K, V>, k: K): Option<V> {
    var i := IndexOf(m, k);
    if i == -1 then None else Some(m[i].1)
  }

  /** `put(k, v)`. */
  function Put<K(==), V>(m: LinkedMap<K, V>, k: K, v: V): LinkedMap<K, V> {
    var i := IndexOf(m, k);
    if i == -1 then m + [(k, v)] else m[i := (k, v)]
  }

  /** `putIfAbsent(k, v)`: writes when `k` is missing or mapped to null. */
  function PutIfAbsent<K(==), X>(m: LinkedMap<K, Option<X>>, k: K, v: Option<X>): LinkedMap<K, Option<X>> {
    var cur := Lookup(m, k);
    if cur.None? || cur.value.None? then Put(m, k, v) else m
  }

  /** `merge(k, v, (a, b) -> a)` with a non-null value: the first value stays. */
  function MergeFirst<K(==), V>(m: LinkedMap<K, V>, k: K, v: V): LinkedMap<K, V> {
    if IndexOf(m, k) == -1 then m + [(k, v)] else m
  }

  /** Successive `put`s of the entries, in order, into an empty map. */
  function PutAll<K(==), V>(es: seq<(K, V)>): LinkedMap<K, V> {
    if es == [] then [] else Put(PutAll(es[..|es| - 1]), es[|es| - 1].0, es[|es| - 1].1)
  }

  /** Successive first-wins merges of the entries, in order, into an empty map. */
  function MergeFirstAll<K(==), V>(es: seq<(K, V)>): LinkedMap<K, V> {
    if es == [] then [] else MergeFirst(MergeFirstAll(es[..|es| - 1]), es[|es| - 1].0, es[|es| - 1].1)
  }

  /** The first entry for `k` is the one at `j`. */
  lemma IndexOfAt<K, V>(m: LinkedMap<K, V>, k: K, j: nat)
    requires j < |m| && m[j].0 == k
    requires forall l | 0 <= l < j :: m[l].0 != k
    ensures IndexOf(m, k) == j
  {
    assert Keys(m)[j] == k;
  }

  /** After `put(k, v)`, `get(k)` is `v` and every other key reads as before. */
  lemma PutLookup<K, V>(m: LinkedMap<K, V>, k: K, v: V, k': K)
    ensures Lookup(Put(m, k, v), k') == if k' == k then Some(v) else Lookup(m, k')
  {
    var i := IndexOf(m, k);
    var r := Put(m, k, v);
    if i == -1 {
      assert Keys(r) == Keys(m) + [k];
      if k' != k {
        var j := IndexOf(m, k');
        if j == -1 {
          assert k' !in Keys(r);
        } else {
          IndexOfAt(r, k', j);
        }
      } else {
        assert IndexOf(r, k) == |m|;
      }
    } else {
      if k' != k {
        var j := IndexOf(m, k');
        if j == -1 {
          assert k' !in Keys(r) by {
            forall l | 0 <= l < |r| ensures r[l].0 != k' {
              assert l != i ==> r[l] == m[l] && m[l].0 == Keys(m)[l];
            }
          }
        } else {
          IndexOfAt(r, k', j);
        }
      } else {
        IndexOfAt(r, k, i);
      }
    }
  }

  /** A re-put key keeps its position; a new key goes last. */
  lemma PutKeys<K, V>(m: LinkedMap<K, V>, k: K, v: V)
    ensures Keys(Put(m, k, v)) == if k in Keys(m) then Keys(m) else Keys(m) + [k]
  {
  }

  /** A first-wins merge leaves a present key alone and appends a new one. */
  lemma MergeFirstLookup<K, V>(m: LinkedMap<K, V>, k: K, v: V, k': K)
    ensures Lookup(MergeFirst(m, k, v), k') == if k' == k && k !in Keys(m) then Some(v) else Lookup(m, k')
    ensures Keys(MergeFirst(m, k, v)) == if k in Keys(m) then Keys(m) else Keys(m) + [k]
  {
    var r := MergeFirst(m, k, v);
    if k !in Keys(m) {
      assert Keys(r) == Keys(m) + [k];
      var j := IndexOf(m, k');
      if j != -1 {
        IndexOfAt(r, k', j);
      } else if k' == k {
        assert IndexOf(r, k) == |m|;
      } else {
        assert k' !in Keys(r);
      }
    }
  }

  /** A `put` keeps keys unique. */
  lemma PutKeepsUnique<K, V>(m: LinkedMap<K, V>, k: K, v: V)
    requires KeysUnique(m)
    ensures KeysUnique(Put(m, k, v))
  {
    if IndexOf(m, k) == -1 {
      assert forall i | 0 <= i < |m| :: m[i].0 == Keys(m)[i];
    }
  }

  /** A first-wins merge keeps keys unique. */
  lemma MergeFirstKeepsUnique<K, V>(m: LinkedMap<K, V>, k: K, v: V)
    requires KeysUnique(m)
    ensures KeysUnique(MergeFirst(m, k, v))
  {
    if IndexOf(m, k) == -1 {
      assert forall i | 0 <= i < |m| :: m[i].0 == Keys(m)[i];
    }
  }

  /** Both folds build maps whose keys are unique. */
  lemma {:induction false} FoldsKeysUnique<K, V>(es: seq<(K, V)>)
    ensures KeysUnique(PutAll(es)) && KeysUnique(MergeFirstAll(es))
  {
    if es != [] {
      var init := es[..|es| - 1];
      FoldsKeysUnique(init);
      PutKeepsUnique(PutAll(init), es[|es| - 1].0, es[|es| - 1].1);
      MergeFirstKeepsUnique(MergeFirstAll(init), es[|es| - 1].0, es[|es| - 1].1);
    }
  }

  /** The key of every entry ends up in the map, and nothing else does. */
  lemma {:induction false} FoldsKeySet<K, V>(es: seq<(K, V)>, k: K)
    ensures k in Keys(PutAll(es)) <==> exists i :: 0 <= i < |es| && es[i].0 == k
    ensures k in Keys(MergeFirstAll(es)) <==> exists i :: 0 <= i < |es| && es[i].0 == k
  {
    if es != [] {
      var init := es[..|es| - 1];
      FoldsKeySet(init, k);
      PutKeys(PutAll(init), es[|es| - 1].0, es[|es| - 1].1);
      MergeFirstLookup(MergeFirstAll(init), es[|es| - 1].0, es[|es| - 1].1, k);
      if exists i :: 0 <= i < |es| && es[i].0 == k {
        var i :| 0 <= i < |es| && es[i].0 == k;
        if i < |init| {
          assert init[i].0 == k;
        }
      }
      if exists i :: 0 <= i < |init| && init[i].0 == k {
        var i :| 0 <= i < |init| && init[i].0 == k;
        assert es[i].0 == k;
      }
    }
  }

  /** Both folds list the keys in order of first appearance: overwriting
      and first-wins merging differ only in the values they keep. */
  lemma {:induction false} FoldsSameKeys<K, V>(es: seq<(K, V)>)
    ensures Keys(PutAll(es)) == Keys(MergeFirstAll(es))
  {
    if es != [] {
      var init := es[..|es| - 1];
      var (k, v) := es[|es| - 1];
      FoldsSameKeys(init);
      PutKeys(PutAll(init), k, v);
      MergeFirstLookup(MergeFirstAll(init), k, v, k);
    }
  }

  /** With successive puts the last entry for a key decides its value. */
  lemma {:induction false} PutAllLastWins<K, V>(es: seq<(K, V)>, i: nat)
    requires i < |es|
    requires forall j | i < j < |es| :: es[j].0 != es[i].0
    ensures Lookup(PutAll(es), es[i].0) == Some(es[i].1)
  {
    var init := es[..|es| - 1];
    var (k, v) := es[|es| - 1];
    PutLookup(PutAll(init), k, v, es[i].0);
    if i < |es| - 1 {
      PutAllLastWins(init, i);
    }
  }

  /** With first-wins merges the first entry for a key decides its value. */
  lemma {:induction false} MergeFirstAllFirstWins<K, V>(es: seq<(K, V)>, i: nat)
    requires i < |es|
    requires forall j | 0 <= j < i :: es[j].0 != es[i].0
    ensures Lookup(MergeFirstAll(es), es[i].0) == Some(es[i].1)
    decreases |es|
  {
    var init := es[..|es| - 1];
    var (k, v) := es[|es| - 1];
    MergeFirstLookup(MergeFirstAll(init), k, v, es[i].0);
    if i < |es| - 1 {
      MergeFirstAllFirstWins(init, i);
    } else {
      FoldsKeySet(init, k);
      assert k !in Keys(MergeFirstAll(init));
    }
  }
}
