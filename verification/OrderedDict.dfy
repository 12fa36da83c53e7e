/** Python's `OrderedDict` as far as the bounded tables use it: keys in order of last use, the oldest first. */
module OrderedDict {

  datatype Dict<K(==), V> = Dict(order: seq<K>, entries: map<K, V>)

  function Without<K(==)>(order: seq<K>, k: K): (rest: seq<K>)
    ensures forall x :: x in rest ==> x in order
    ensures forall x :: x in order && x != k ==> x in rest
    ensures |rest| <= |order|
  {
    if order == [] then [] else if order[0] == k then order[1..] else [order[0]] + Without(order[1..], k)
  }

  /** Set an entry and move it to the end. */
  function Put<K(==), V>(d: Dict<K, V>, k: K, v: V): Dict<K, V> {
    Dict(Without(d.order, k) + [k], d.entries[k := v])
  }

  function Remove<K(==), V>(d: Dict<K, V>, k: K): Dict<K, V> {
    Dict(Without(d.order, k), d.entries - {k})
  }

  /** `popitem(last=False)` until at most `n` entries remain. */
  function Trim<K(==), V>(d: Dict<K, V>, n: nat): Dict<K, V>
    decreases |d.order|
  {
    if |d.order| > n then Trim(Dict(d.order[1..], d.entries - {d.order[0]}), n) else d
  }

  ghost predicate Distinct<K>(order: seq<K>) {
    forall i, j :: 0 <= i < j < |order| ==> order[i] != order[j]
  }

  /** The order lists exactly the keys of the mapping, each once. */
  ghost predicate Indexed<K(!new), V>(d: Dict<K, V>) {
    Distinct(d.order) && forall k :: k in d.order <==> k in d.entries
  }

  lemma {:induction false} WithoutDistinct<K>(order: seq<K>, k: K)
    requires Distinct(order)
    ensures k !in Without(order, k) && Distinct(Without(order, k))
  {
    if order != [] && order[0] != k {
      WithoutDistinct(order[1..], k);
      assert order[0] !in order[1..];
    }
  }

  lemma PutIndexed<K(!new), V>(d: Dict<K, V>, k: K, v: V)
    requires Indexed(d)
    ensures Indexed(Put(d, k, v)) && Indexed(Remove(d, k))
  {
    WithoutDistinct(d.order, k);
  }

  /** Trimming removes entries but changes none, and only when there are too many. */
  lemma {:induction false} TrimKeeps<K, V>(d: Dict<K, V>, n: nat, k: K)
    ensures k in Trim(d, n).entries ==> k in d.entries && Trim(d, n).entries[k] == d.entries[k]
    ensures |d.order| <= n ==> Trim(d, n) == d
    decreases |d.order|
  {
    if |d.order| > n {
      TrimKeeps(Dict(d.order[1..], d.entries - {d.order[0]}), n, k);
    }
  }

  /** The newest entry survives trimming, unless nothing may stay at all. */
  lemma {:induction false} TrimIndexed<K(!new), V>(d: Dict<K, V>, n: nat)
    requires Indexed(d)
    ensures Indexed(Trim(d, n)) && |Trim(d, n).order| <= n
    ensures n > 0 && d.order != [] ==> d.order[|d.order| - 1] in Trim(d, n).entries
    decreases |d.order|
  {
    if |d.order| > n {
      assert d.order == [d.order[0]] + d.order[1..];
      TrimIndexed(Dict(d.order[1..], d.entries - {d.order[0]}), n);
    }
  }

  lemma {:induction false} AsManyKeys<K>(order: seq<K>)
    requires Distinct(order)
    ensures |set k | k in order| == |order|
  {
    if order != [] {
      AsManyKeys(order[1..]);
      assert order == [order[0]] + order[1..];
      assert (set k | k in order) == (set k | k in order[1..]) + {order[0]};
    }
  }
}
