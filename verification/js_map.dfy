/** An option type, and JavaScript's `Map`: a finite map that remembers the order in which keys were first
    inserted. Setting an existing key keeps its place; a deleted key that is set again goes to the end. */
module JsMaps {
  datatype Option<+T> = None | Some(value: T)

  datatype OrderedMap<K(==, !new), V> = OrderedMap(order: seq<K>, values: map<K, V>)
  {
    ghost predicate Valid() {
      && (forall i, j :: 0 <= i < j < |order| ==> order[i] != order[j])
      && (forall k :: k in order <==> k in values)
    }

    predicate Has(k: K) {
      k in values
    }

    function Size(): nat {
      |order|
    }

    function Put(k: K, v: V): OrderedMap<K, V> {
      OrderedMap(if k in values then order else order + [k], values[k := v])
    }

    function Delete(k: K): OrderedMap<K, V> {
      OrderedMap(Without(order, k), values - {k})
    }
  }

  type JsMap<K(==, !new), V> = m: OrderedMap<K, V> | m.Valid() ghost witness OrderedMap([], map[])

  function Without<K(==, !new)>(ks: seq<K>, k: K): (r: seq<K>)
    ensures forall x :: x in r <==> x in ks && x != k
  {
    if ks == [] then []
    else if ks[0] == k then Without(ks[1..], k)
    else [ks[0]] + Without(ks[1..], k)
  }

  lemma {:induction false} WithoutAbsent<K(!new)>(ks: seq<K>, k: K)
    requires k !in ks
    ensures Without(ks, k) == ks
  {
    if ks != [] {
      WithoutAbsent(ks[1..], k);
    }
  }

  ghost predicate Distinct<K(!new)>(ks: seq<K>) {
    forall i, j :: 0 <= i < j < |ks| ==> ks[i] != ks[j]
  }

  lemma {:induction false} WithoutDistinct<K(!new)>(ks: seq<K>, k: K)
    requires Distinct(ks)
    ensures Distinct(Without(ks, k))
    ensures |Without(ks, k)| == |ks| - (if k in ks then 1 else 0)
  {
    if ks != [] {
      assert Distinct(ks[1..]);
      WithoutDistinct(ks[1..], k);
      if ks[0] == k {
        WithoutAbsent(ks[1..], k);
      } else {
        assert forall x :: x in Without(ks[1..], k) ==> x in ks[1..];
        assert ks[0] !in ks[1..];
      }
    }
  }

  lemma PutValid<K(!new), V>(m: JsMap<K, V>, k: K, v: V)
    ensures m.Put(k, v).Valid()
    ensures m.Put(k, v).Size() == m.Size() + (if m.Has(k) then 0 else 1)
  {
    assert k in m.order <==> k in m.values;
  }

  lemma DeleteValid<K(!new), V>(m: JsMap<K, V>, k: K)
    ensures m.Delete(k).Valid()
    ensures m.Delete(k).Size() == m.Size() - (if m.Has(k) then 1 else 0)
  {
    WithoutDistinct(m.order, k);
    assert k in m.order <==> k in m.values;
  }

  /** What `map.set(k, v)` leaves. */
  function Set<K(==, !new), V>(m: JsMap<K, V>, k: K, v: V): (r: JsMap<K, V>)
    ensures r.values == m.values[k := v]
    ensures r.Size() == m.Size() + (if m.Has(k) then 0 else 1)
    ensures m.order <= r.order
  {
    PutValid(m, k, v);
    m.Put(k, v)
  }

  /** What `map.delete(k)` leaves. */
  function Remove<K(==, !new), V>(m: JsMap<K, V>, k: K): (r: JsMap<K, V>)
    ensures r.values == m.values - {k}
    ensures r.Size() == m.Size() - (if m.Has(k) then 1 else 0)
    ensures forall x :: x in r.order <==> x in m.order && x != k
  {
    DeleteValid(m, k);
    m.Delete(k)
  }

  function Empty<K(==, !new), V>(): (r: JsMap<K, V>) {
    OrderedMap([], map[])
  }

  /** The entries whose value satisfies `keep`, in the same order. */
  function Filter<K(==, !new), V>(m: JsMap<K, V>, keep: V -> bool): (r: JsMap<K, V>)
    ensures r.values == map k | k in m.values && keep(m.values[k]) :: m.values[k]
    ensures r.Size() <= m.Size()
  {
    FilterDistinct(m.order, m.values, keep);
    var values := map k | k in m.values && keep(m.values[k]) :: m.values[k];
    assert forall k :: k in FilterKeys(m.order, m.values, keep) <==> k in values;
    OrderedMap(FilterKeys(m.order, m.values, keep), values)
  }

  function FilterKeys<K(==, !new), V>(ks: seq<K>, values: map<K, V>, keep: V -> bool): (r: seq<K>)
    requires forall k :: k in ks ==> k in values
    ensures forall k :: k in r <==> k in ks && keep(values[k])
  {
    if ks == [] then []
    else (if keep(values[ks[0]]) then [ks[0]] else []) + FilterKeys(ks[1..], values, keep)
  }

  lemma {:induction false} FilterDistinct<K(!new), V>(ks: seq<K>, values: map<K, V>, keep: V -> bool)
    requires Distinct(ks) && forall k :: k in ks ==> k in values
    ensures Distinct(FilterKeys(ks, values, keep))
    ensures |FilterKeys(ks, values, keep)| <= |ks|
  {
    if ks != [] {
      assert Distinct(ks[1..]);
      FilterDistinct(ks[1..], values, keep);
      assert ks[0] !in ks[1..];
    }
  }
}
