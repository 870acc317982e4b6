/** An ordered map as the list of its entries in key order: what `std::map` iterates over. */
module OrderedMap {

  import opened Options

  datatype Entry<K, V> = Entry(key: K, value: V)

  ghost predicate StrictOrder<K(!new)>(less: (K, K) -> bool) {
    && (forall a, b :: less(a, b) ==> !less(b, a))
    && (forall a, b, c :: less(a, b) && less(b, c) ==> less(a, c))
    && (forall a, b :: a != b ==> less(a, b) || less(b, a))
  }

  ghost predicate Sorted<K, V>(m: seq<Entry<K, V>>, less: (K, K) -> bool) {
    forall i, j :: 0 <= i < j < |m| ==> less(m[i].key, m[j].key)
  }

  function Find<K(==), V>(m: seq<Entry<K, V>>, k: K): Option<V> {
    if m == [] then None else if m[0].key == k then Some(m[0].value) else Find(m[1..], k)
  }

  /** Inserts a binding or replaces the one that is there. */
  function Put<K(==), V>(m: seq<Entry<K, V>>, k: K, v: V, less: (K, K) -> bool): seq<Entry<K, V>> {
    if m == [] then [Entry(k, v)]
    else if m[0].key == k then [Entry(k, v)] + m[1..]
    else if less(k, m[0].key) then [Entry(k, v)] + m
    else [m[0]] + Put(m[1..], k, v, less)
  }

  lemma {:induction false} AbsentBelow<K, V>(m: seq<Entry<K, V>>, k: K)
    requires forall i :: 0 <= i < |m| ==> m[i].key != k
    ensures Find(m, k) == None
  {
    if m != [] { AbsentBelow(m[1..], k); }
  }

  lemma {:induction false} PutKeys<K, V>(m: seq<Entry<K, V>>, k: K, v: V, less: (K, K) -> bool)
    ensures forall e :: e in Put(m, k, v, less) ==> e == Entry(k, v) || e in m
  {
    if m != [] { PutKeys(m[1..], k, v, less); }
  }

  lemma {:induction false} PutSorts<K(!new), V>(m: seq<Entry<K, V>>, k: K, v: V, less: (K, K) -> bool)
    requires StrictOrder(less) && Sorted(m, less)
    ensures Sorted(Put(m, k, v, less), less)
  {
    if m != [] && m[0].key != k && !less(k, m[0].key) {
      var rest := Put(m[1..], k, v, less);
      PutSorts(m[1..], k, v, less);
      PutKeys(m[1..], k, v, less);
      forall j | 0 <= j < |rest| ensures less(m[0].key, rest[j].key) {
        assert rest[j] in rest;
        if rest[j] in m[1..] {
          var i :| 0 <= i < |m[1..]| && m[1..][i] == rest[j];
          assert m[i + 1] == rest[j];
        }
      }
    }
  }

  /** The laws of a map. */
  lemma {:induction false} FindAfterPut<K(!new), V>(m: seq<Entry<K, V>>, k: K, v: V, less: (K, K) -> bool, q: K)
    requires StrictOrder(less) && Sorted(m, less)
    ensures Find(Put(m, k, v, less), q) == if q == k then Some(v) else Find(m, q)
  {
    if m != [] {
      if m[0].key == k {
        assert Put(m, k, v, less)[1..] == m[1..];
      } else if less(k, m[0].key) {
        assert Put(m, k, v, less)[1..] == m;
      } else {
        assert Put(m, k, v, less)[1..] == Put(m[1..], k, v, less);
        FindAfterPut(m[1..], k, v, less, q);
      }
    }
  }
}
