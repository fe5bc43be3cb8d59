/** Bags of values held under the keys of a map. */
module Bags {

  /** Everything the entries of `m` hold, with multiplicity. */
  ghost function Union<K, V>(m: map<K, multiset<V>>): multiset<V>
    decreases |m|
  {
    if m == map[] then multiset{} else
      var k :| k in m;
      assert |(m - {k}).Keys| < |m.Keys| by { assert (m - {k}).Keys == m.Keys - {k}; }
      m[k] + Union(m - {k})
  }

  /** Any entry can be counted first. */
  lemma {:induction false} UnionTakeOut<K, V>(m: map<K, multiset<V>>, k: K)
    requires k in m
    ensures Union(m) == m[k] + Union(m - {k})
    decreases |m|
  {
    var first :| first in m && Union(m) == m[first] + Union(m - {first});
    if first != k {
      assert (m - {first}).Keys == m.Keys - {first};
      UnionTakeOut(m - {first}, k);
      assert (m - {k}).Keys == m.Keys - {k};
      UnionTakeOut(m - {k}, first);
      assert m - {first} - {k} == m - {k} - {first};
    }
  }

  lemma UnionPut<K, V>(m: map<K, multiset<V>>, k: K, bag: multiset<V>)
    ensures Union(m[k := bag]) == bag + Union(m - {k})
    ensures k !in m ==> m - {k} == m
  {
    UnionTakeOut(m[k := bag], k);
    assert m[k := bag] - {k} == m - {k};
  }

  // ----- maps whose entries stand for bags -----

  ghost function BagsOf<K, V, E>(m: map<K, V>, bag: V -> multiset<E>): map<K, multiset<E>> {
    map k | k in m :: bag(m[k])
  }

  /** Everything the entries of `m` stand for. */
  ghost function Gather<K, V, E>(m: map<K, V>, bag: V -> multiset<E>): multiset<E> {
    Union(BagsOf(m, bag))
  }

  lemma GatherPut<K, V, E>(m: map<K, V>, bag: V -> multiset<E>, k: K, v: V)
    requires k !in m
    ensures Gather(m[k := v], bag) == Gather(m, bag) + bag(v)
  {
    assert BagsOf(m[k := v], bag) == BagsOf(m, bag)[k := bag(v)];
    UnionPut(BagsOf(m, bag), k, bag(v));
  }

  lemma GatherDrop<K, V, E>(m: map<K, V>, bag: V -> multiset<E>, k: K)
    requires k in m
    ensures Gather(m, bag) == Gather(m - {k}, bag) + bag(m[k])
  {
    GatherPut(m - {k}, bag, k, m[k]);
    assert m == (m - {k})[k := m[k]];
  }

  lemma GatherNothing<K, V, E>(m: map<K, V>, bag: V -> multiset<E>)
    requires m == map[]
    ensures Gather(m, bag) == multiset{}
  {
    assert BagsOf(m, bag).Keys == {};
  }

  /** When only the entry of `k` can hold `v`, it alone decides the count. */
  lemma {:induction false} CountOne<K, V>(m: map<K, multiset<V>>, k: K, v: V)
    requires forall other :: other in m && other != k ==> v !in m[other]
    ensures Union(m)[v] == if k in m then m[k][v] else 0
    decreases |m|
  {
    if m != map[] {
      var first :| first in m && Union(m) == m[first] + Union(m - {first});
      assert (m - {first}).Keys == m.Keys - {first};
      CountOne(m - {first}, k, v);
    }
  }

  lemma Cancel<V>(x: multiset<V>, y: multiset<V>, common: multiset<V>)
    requires x + common == y + common
    ensures x == y
  {
    forall v ensures x[v] == y[v] {
      assert (x + common)[v] == (y + common)[v];
    }
  }
}
