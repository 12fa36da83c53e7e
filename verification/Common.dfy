/** Vocabulary shared by the models: optional values and cardinality facts. */
module Common {

  datatype Option<+T> = None | Some(value: T)

  /** An account or address as the admission code sees it: an opaque dictionary key. */
  datatype Key = Key(name: string)

  /** Python's `mapping.get(key, default)`. */
  function GetOr<K, V>(m: map<K, V>, k: K, default: V): V {
    if k in m then m[k] else default
  }

  lemma Pick<T>(s: set<T>) returns (x: T)
    requires s != {}
    ensures x in s
  {
    x :| x in s;
  }

  lemma {:induction false} SubsetCardinality<T>(a: set<T>, b: set<T>)
    requires a <= b
    ensures |a| <= |b|
    ensures a != b ==> |a| < |b|
    decreases b
  {
    if a != b {
      assert !(b <= a);
      var x :| x in b && x !in a;
      SubsetCardinality(a, b - {x});
      assert |b - {x}| == |b| - 1;
    }
  }

  /** A number above all those of a set, and with it a key that is not in a set of keys. */
  lemma {:induction false} Above(numbers: set<int>) returns (bound: nat)
    ensures forall n :: n in numbers ==> n < bound
    decreases numbers
  {
    bound := 0;
    if numbers != {} {
      var n := Pick(numbers);
      var rest := Above(numbers - {n});
      bound := if n < rest then rest else n + 1;
      forall m | m in numbers
        ensures m < bound
      {
        assert m == n || m in numbers - {n};
      }
    }
  }

  function Letters(n: nat): (text: string)
    ensures |text| == n
  {
    seq(n, _ => 'x')
  }

  lemma NewKey(keys: set<Key>) returns (key: Key)
    ensures key !in keys
  {
    var lengths := set k | k in keys :: |k.name|;
    var length := Above(lengths);
    key := Key(Letters(length));
    forall k | k in keys
      ensures k != key
    {
      assert |k.name| in lengths;
    }
  }

  /** The sum of a map's values. */
  ghost function Sum<K(!new)>(m: map<K, nat>): nat
    decreases |m|
  {
    if m == map[] then 0
    else
      var k :| k in m;
      assert (m - {k}).Keys == m.Keys - {k};
      m[k] + Sum(m - {k})
  }

  /** The sum does not depend on which key is taken out first. */
  lemma {:induction false} SumWithout<K(!new)>(m: map<K, nat>, k: K)
    requires k in m
    ensures Sum(m) == m[k] + Sum(m - {k})
    decreases |m|
  {
    var first :| first in m && Sum(m) == m[first] + Sum(m - {first});
    if first != k {
      assert (m - {k}).Keys == m.Keys - {k} && (m - {first}).Keys == m.Keys - {first};
      SumWithout(m - {first}, k);
      SumWithout(m - {k}, first);
      assert (m - {first}) - {k} == (m - {k}) - {first};
    }
  }

  lemma SumUpdate<K(!new)>(m: map<K, nat>, k: K, v: nat)
    ensures Sum(m[k := v]) == Sum(m) - GetOr(m, k, 0) + v
    ensures k in m ==> Sum(m - {k}) == Sum(m) - m[k]
  {
    SumWithout(m[k := v], k);
    if k in m {
      SumWithout(m, k);
      assert m[k := v] - {k} == m - {k};
    } else {
      assert m[k := v] - {k} == m;
    }
  }
}
