/** Python's insertion-ordered `dict` with string keys, as a list of entries
    whose keys are pairwise distinct. */
module Dict {
  import opened Wrappers

  type Entries<V> = seq<(string, V)>

  /** The keys in dict order (Python's `list(d)`). */
  function Keys<V>(d: Entries<V>): (ks: seq<string>)
    ensures |ks| == |d|
    ensures forall i :: 0 <= i < |d| ==> ks[i] == d[i].0
  {
    if d == [] then [] else [d[0].0] + Keys(d[1..])
  }

  predicate Distinct(ks: seq<string>) {
    forall i, j :: 0 <= i < j < |ks| ==> ks[i] != ks[j]
  }

  predicate DistinctKeys<V>(d: Entries<V>) {
    Distinct(Keys(d))
  }

  /** Python's `d.get(k)`. */
  function Get<V>(d: Entries<V>, k: string): (r: Option<V>)
    ensures r.None? <==> k !in Keys(d)
  {
    if d == [] then None
    else if d[0].0 == k then Some(d[0].1)
    else Get(d[1..], k)
  }

  /** Python's `d[k] = v`: a new key goes last, an existing key keeps its place. */
  function Put<V>(d: Entries<V>, k: string, v: V): (r: Entries<V>)
    requires DistinctKeys(d)
    ensures Keys(r) == if k in Keys(d) then Keys(d) else Keys(d) + [k]
    ensures DistinctKeys(r)
  {
    if d == [] then [(k, v)]
    else if d[0].0 == k then
      assert Keys(d) == [k] + Keys(d[1..]);
      assert Keys([(k, v)] + d[1..]) == [k] + Keys(d[1..]);
      [(k, v)] + d[1..]
    else
      assert Keys(d) == [d[0].0] + Keys(d[1..]);
      var tail := Put(d[1..], k, v);
      assert Keys([d[0]] + tail) == [d[0].0] + Keys(tail);
      [d[0]] + tail
  }

  /** After `d[k] = v`, looking up `k` gives `v` and every other key is unchanged. */
  lemma {:induction false} PutGet<V>(d: Entries<V>, k: string, v: V, j: string)
    requires DistinctKeys(d)
    ensures Get(Put(d, k, v), j) == if j == k then Some(v) else Get(d, j)
  {
    if d != [] && d[0].0 != k {
      assert Keys(d) == [d[0].0] + Keys(d[1..]);
      PutGet(d[1..], k, v, j);
    }
  }
}
