/** A JavaScript `Map`: entries kept in insertion order, at most one entry per key.
    `set` on a present key replaces the value in place; `delete` removes the entry. */
module JsMap {
  import opened Wrappers
  import Lists

  function Keys<K, V>(m: seq<(K, V)>): (r: seq<K>)
    ensures |r| == |m|
    ensures forall i :: 0 <= i < |m| ==> r[i] == m[i].0
  {
    if m == [] then [] else [m[0].0] + Keys(m[1..])
  }

  predicate DistinctKeys<K(==), V>(m: seq<(K, V)>) {
    forall i, j :: 0 <= i < j < |m| ==> m[i].0 != m[j].0
  }

  predicate Has<K(==), V>(m: seq<(K, V)>, k: K) {
    k in Keys(m)
  }

  /** `map.get(k)`: the value of the entry with key `k`. */
  function Get<K(==), V>(m: seq<(K, V)>, k: K): (r: Option<V>)
    ensures r.None? <==> !Has(m, k)
    ensures r.Some? ==> exists i :: 0 <= i < |m| && m[i] == (k, r.value)
  {
    if m == [] then None
    else if m[0].0 == k then Some(m[0].1)
    else Get(m[1..], k)
  }

  /** `map.set(k, v)`. */
  function Set<K(==), V>(m: seq<(K, V)>, k: K, v: V): (r: seq<(K, V)>)
    ensures Has(m, k) ==> Keys(r) == Keys(m)
    ensures !Has(m, k) ==> Keys(r) == Keys(m) + [k]
    ensures DistinctKeys(m) ==> DistinctKeys(r)
  {
    if m == [] then [(k, v)]
    else if m[0].0 == k then [(k, v)] + m[1..]
    else [m[0]] + Set(m[1..], k, v)
  }

  /** `map.delete(k)`. */
  function Delete<K(==,!new), V(!new)>(m: seq<(K, V)>, k: K): (r: seq<(K, V)>)
    ensures !Has(r, k)
    ensures |r| <= |m|
    ensures DistinctKeys(m) ==> DistinctKeys(r)
    ensures forall e :: e in r <==> e in m && e.0 != k
  {
    if m == [] then []
    else if m[0].0 == k then Delete(m[1..], k)
    else [m[0]] + Delete(m[1..], k)
  }

  lemma {:induction false} GetSet<K, V>(m: seq<(K, V)>, k: K, v: V, k': K)
    ensures Get(Set(m, k, v), k') == if k' == k then Some(v) else Get(m, k')
  {
    if m != [] && m[0].0 != k {
      GetSet(m[1..], k, v, k');
    }
  }

  lemma {:induction false} GetDelete<K(!new), V(!new)>(m: seq<(K, V)>, k: K, k': K)
    requires DistinctKeys(m)
    ensures Get(Delete(m, k), k') == if k' == k then None else Get(m, k')
  {
    if m != [] {
      GetDelete(m[1..], k, k');
    }
  }

  /** The keys of a map are distinct, so `Array.from(map.keys())` has no repeats. */
  lemma KeysDistinct<K, V>(m: seq<(K, V)>)
    requires DistinctKeys(m)
    ensures Lists.Distinct(Keys(m))
  {
  }

  /** Deleting a key keeps the other keys in their insertion order. */
  lemma {:induction false} KeysDelete<K(!new), V(!new)>(m: seq<(K, V)>, k: K)
    ensures Keys(Delete(m, k)) == Lists.Without(Keys(m), k)
  {
    if m != [] {
      KeysDelete(m[1..], k);
      assert Keys(m)[1..] == Keys(m[1..]);
    }
  }
}
