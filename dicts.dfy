/**
 * A Python `dict` with string keys: an association list in insertion order.
 * Assigning to a present key replaces its value where it stands; assigning to
 * a new key appends it.
 */
module Dicts {
  import opened Wrappers

  type Dict<V> = seq<(string, V)>

  function Keys<V>(d: Dict<V>): seq<string>
  {
    if d == [] then [] else [d[0].0] + Keys(d[1..])
  }

  /** Keys are distinct, as in every Python dict. */
  predicate Valid<V>(d: Dict<V>)
  {
    d == [] || (d[0].0 !in Keys(d[1..]) && Valid(d[1..]))
  }

  /** `d.get(k)` */
  function Get<V>(d: Dict<V>, k: string): (r: Option<V>)
    ensures r.None? <==> k !in Keys(d)
  {
    if d == [] then None
    else if d[0].0 == k then Some(d[0].1)
    else Get(d[1..], k)
  }

  /** `d[k] = v` */
  function Set<V>(d: Dict<V>, k: string, v: V): (r: Dict<V>)
    ensures Get(r, k) == Some(v)
    ensures forall k' :: k' != k ==> Get(r, k') == Get(d, k')
    ensures k in Keys(d) ==> Keys(r) == Keys(d)
    ensures k !in Keys(d) ==> r == d + [(k, v)]
    ensures Valid(d) ==> Valid(r)
  {
    if d == [] then [(k, v)]
    else if d[0].0 == k then [(k, v)] + d[1..]
    else
      var rest := Set(d[1..], k, v);
      ConsUnfolds(d[0], rest);
      ConsUnfolds(d[0], d[1..]);
      assert [d[0]] + d[1..] == d;
      KeysAppend(d[1..], k, v);
      [d[0]] + rest
  }

  /** Keys, lookups and validity of a dict with one more entry in front. */
  lemma ConsUnfolds<V>(p: (string, V), e: Dict<V>)
    ensures Keys([p] + e) == [p.0] + Keys(e)
    ensures forall k :: Get([p] + e, k) == if p.0 == k then Some(p.1) else Get(e, k)
    ensures Valid([p] + e) == (p.0 !in Keys(e) && Valid(e))
  {
    assert ([p] + e)[1..] == e;
  }

  lemma {:induction false} KeysAppend<V>(d: Dict<V>, k: string, v: V)
    ensures Keys(d + [(k, v)]) == Keys(d) + [k]
  {
    if d != [] {
      assert (d + [(k, v)])[1..] == d[1..] + [(k, v)];
      KeysAppend(d[1..], k, v);
    }
  }
}
