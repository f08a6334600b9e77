/**
 * Python's `dict` as the pipeline uses it: an insertion-ordered list of
 * key/value pairs with distinct keys. Assigning to a present key keeps its
 * place; assigning to a new key appends; `del` removes the pair.
 */
module Dicts {
  import opened Wrappers

  type Dict<K, V> = seq<(K, V)>

  function Keys<K(==), V>(d: Dict<K, V>): set<K>
  {
    if d == [] then {} else {d[0].0} + Keys(d[1..])
  }

  /** No key occurs twice, which every dict value satisfies. */
  predicate UniqueKeys<K(==), V>(d: Dict<K, V>)
  {
    d == [] || (d[0].0 !in Keys(d[1..]) && UniqueKeys(d[1..]))
  }

  /** `d.get(k)`: the value stored under `k`, if any. */
  function Get<K(==), V>(d: Dict<K, V>, k: K): (r: Option<V>)
    ensures r.Some? <==> k in Keys(d)
  {
    if d == [] then None
    else if d[0].0 == k then Some(d[0].1)
    else Get(d[1..], k)
  }

  /**
   * `d[k] = v`: afterwards `k` maps to `v` and every other key to what it
   * mapped to before; a present key keeps its place, a new one goes last.
   */
  function Put<K(==, !new), V>(d: Dict<K, V>, k: K, v: V): (r: Dict<K, V>)
    ensures Keys(r) == Keys(d) + {k}
    ensures Get(r, k) == Some(v)
    ensures forall k' :: k' != k ==> Get(r, k') == Get(d, k')
    ensures UniqueKeys(d) ==> UniqueKeys(r)
    ensures k in Keys(d) ==> |r| == |d| && forall i :: 0 <= i < |d| ==> r[i].0 == d[i].0
    ensures k !in Keys(d) ==> r == d + [(k, v)]
  {
    if d == [] then [(k, v)]
    else if d[0].0 == k then [(k, v)] + d[1..]
    else [d[0]] + Put(d[1..], k, v)
  }

  /**
   * `del d[k]` when `k` is present (nothing otherwise): afterwards `k` is
   * absent and every other key maps to what it mapped to before.
   */
  function Remove<K(==, !new), V>(d: Dict<K, V>, k: K): (r: Dict<K, V>)
    ensures Keys(r) == Keys(d) - {k}
    ensures Get(r, k) == None
    ensures forall k' :: k' != k ==> Get(r, k') == Get(d, k')
    ensures UniqueKeys(d) ==> UniqueKeys(r)
  {
    if d == [] then []
    else if d[0].0 == k then Remove(d[1..], k)
    else [d[0]] + Remove(d[1..], k)
  }

  /** `d.get(k, default)`: the value `d.setdefault(k, default)` reads. */
  function GetOr<K(==), V>(d: Dict<K, V>, k: K, default: V): (v: V)
    ensures k in Keys(d) ==> Get(d, k) == Some(v)
    ensures k !in Keys(d) ==> v == default
  {
    match Get(d, k)
    case Some(v) => v
    case None => default
  }
}
