/**
 * A Python dict built by a comprehension `{k: v for ... in items}`:
 * every pair is inserted in order, so a later duplicate key overrides
 * an earlier one.
 */
module Dicts {

  import opened Wrappers

  function ToMap<K, V>(pairs: seq<(K, V)>): (m: map<K, V>)
    ensures m.Keys == set i | 0 <= i < |pairs| :: pairs[i].0
    decreases |pairs|
  {
    if pairs == [] then map[]
    else ToMap(pairs[..|pairs| - 1])[pairs[|pairs| - 1].0 := pairs[|pairs| - 1].1]
  }

  /** `d.get(k)` */
  function Get<K, V>(m: map<K, V>, k: K): Option<V> {
    if k in m then Some(m[k]) else None
  }

  /** The entry a key ends up with is the value of its LAST occurrence. */
  lemma {:induction false} ToMapLastWins<K, V>(pairs: seq<(K, V)>, i: nat)
    requires i < |pairs|
    requires forall j :: i < j < |pairs| ==> pairs[j].0 != pairs[i].0
    ensures pairs[i].0 in ToMap(pairs) && ToMap(pairs)[pairs[i].0] == pairs[i].1
  {
    if i < |pairs| - 1 {
      ToMapLastWins(pairs[..|pairs| - 1], i);
    }
  }

  /** No key occurs twice. */
  predicate DistinctKeys<K(==), V>(pairs: seq<(K, V)>) {
    forall i, j :: 0 <= i < j < |pairs| ==> pairs[i].0 != pairs[j].0
  }

  /** With distinct keys no entry is lost: the map has one key per pair. */
  lemma {:induction false} ToMapSize<K, V>(pairs: seq<(K, V)>)
    requires DistinctKeys(pairs)
    ensures |ToMap(pairs).Keys| == |pairs|
    decreases |pairs|
  {
    if pairs != [] {
      var n := |pairs| - 1;
      var init := pairs[..n];
      assert DistinctKeys(init);
      ToMapSize(init);
      var before := ToMap(init).Keys;
      assert pairs[n].0 !in before;
      assert ToMap(pairs).Keys == before + {pairs[n].0};
      CardinalityGrows(before, pairs[n].0);
    }
  }

  /** Adding a new element grows a set by one. */
  lemma CardinalityGrows<T>(a: set<T>, x: T)
    requires x !in a
    ensures |a + {x}| == |a| + 1
  {
  }
}
