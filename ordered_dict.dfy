/** Python's `dict`, which remembers insertion order: a sequence of key/value
    pairs. Assigning to a key that is present keeps its position; a new key
    goes to the end. Lookups see the first pair with the key. */
module OrderedDict {
  import opened Wrappers

  type Dict<K, V> = seq<(K, V)>

  function Keys<K, V>(d: Dict<K, V>): (ks: seq<K>)
    ensures |ks| == |d| && forall i :: 0 <= i < |d| ==> ks[i] == d[i].0
  {
    seq(|d|, i requires 0 <= i < |d| => d[i].0)
  }

  predicate DistinctKeys<K(==,!new), V>(d: Dict<K, V>)
  {
    forall i, j :: 0 <= i < j < |d| ==> d[i].0 != d[j].0
  }

  /** `d.get(k)`. */
  function Get<K(==,!new), V>(d: Dict<K, V>, k: K): (r: Option<V>)
    ensures r.None? <==> k !in Keys(d)
    ensures r.Some? ==> (k, r.value) in d
  {
    if d == [] then None
    else if d[0].0 == k then Some(d[0].1)
    else
      assert Keys(d) == [d[0].0] + Keys(d[1..]);
      Get(d[1..], k)
  }

  /** `d[k] = v`. */
  function Put<K(==,!new), V>(d: Dict<K, V>, k: K, v: V): (r: Dict<K, V>)
    ensures Get(r, k) == Some(v)
    ensures forall k' :: k' != k ==> Get(r, k') == Get(d, k')
    ensures k in Keys(d) ==> Keys(r) == Keys(d)
    ensures k !in Keys(d) ==> Keys(r) == Keys(d) + [k]
  {
    PutLookup(d, k, v);
    PutKeys(d, k, v);
    Assign(d, k, v)
  }

  /** The pair for `k` replaced in place, or appended. */
  function Assign<K(==), V>(d: Dict<K, V>, k: K, v: V): Dict<K, V>
  {
    if d == [] then [(k, v)]
    else if d[0].0 == k then [(k, v)] + d[1..]
    else [d[0]] + Assign(d[1..], k, v)
  }

  lemma PutLookup<K(!new), V>(d: Dict<K, V>, k: K, v: V)
    ensures forall k' :: Get(Assign(d, k, v), k') == if k' == k then Some(v) else Get(d, k')
  {
    forall k' ensures Get(Assign(d, k, v), k') == if k' == k then Some(v) else Get(d, k') {
      AssignLookup(d, k, v, k');
    }
  }

  lemma {:induction false} AssignLookup<K(!new), V>(d: Dict<K, V>, k: K, v: V, k': K)
    ensures Get(Assign(d, k, v), k') == if k' == k then Some(v) else Get(d, k')
  {
    if d == [] {
      ConsGet((k, v), [], k');
    } else {
      ConsGet(d[0], d[1..], k');
      assert d == [d[0]] + d[1..];
      if d[0].0 == k {
        ConsGet((k, v), d[1..], k');
      } else {
        AssignLookup(d[1..], k, v, k');
        ConsGet(d[0], Assign(d[1..], k, v), k');
      }
    }
  }

  lemma {:induction false} PutKeys<K(!new), V>(d: Dict<K, V>, k: K, v: V)
    ensures k in Keys(d) ==> Keys(Assign(d, k, v)) == Keys(d)
    ensures k !in Keys(d) ==> Keys(Assign(d, k, v)) == Keys(d) + [k]
  {
    if d == [] {
      ConsKeys((k, v), []);
    } else {
      ConsKeys(d[0], d[1..]);
      assert d == [d[0]] + d[1..];
      if d[0].0 == k {
        ConsKeys((k, v), d[1..]);
      } else {
        PutKeys(d[1..], k, v);
        ConsKeys(d[0], Assign(d[1..], k, v));
      }
    }
  }

  /** Keys of a dict with one pair in front. */
  lemma ConsKeys<K, V>(p: (K, V), d: Dict<K, V>)
    ensures Keys([p] + d) == [p.0] + Keys(d)
  {
    var l, r := Keys([p] + d), [p.0] + Keys(d);
    forall i | 0 <= i < |l| ensures l[i] == r[i] {
      if i > 0 {
        assert ([p] + d)[i] == d[i - 1];
      }
    }
  }

  /** Lookup in a dict with one pair in front. */
  lemma ConsGet<K(!new), V>(p: (K, V), d: Dict<K, V>, k: K)
    ensures Get([p] + d, k) == if p.0 == k then Some(p.1) else Get(d, k)
  {
    assert ([p] + d)[0] == p;
    assert ([p] + d)[1..] == d;
  }

  /** `d.update(e)`: assigns the pairs of `e` one after the other. */
  function Update<K(==,!new), V>(d: Dict<K, V>, e: Dict<K, V>): Dict<K, V>
    decreases |e|
  {
    if e == [] then d else Update(Put(d, e[0].0, e[0].1), e[1..])
  }

  /** `update` leaves the keys that `e` does not mention alone. */
  lemma {:induction false} UpdateOther<K(!new), V>(d: Dict<K, V>, e: Dict<K, V>, k: K)
    requires k !in Keys(e)
    ensures Get(Update(d, e), k) == Get(d, k)
    decreases |e|
  {
    if e != [] {
      assert Keys(e) == [e[0].0] + Keys(e[1..]);
      UpdateOther(Put(d, e[0].0, e[0].1), e[1..], k);
    }
  }

  /** `update` keeps the order of the keys already present and appends the
      new ones. */
  lemma {:induction false} UpdateKeys<K(!new), V>(d: Dict<K, V>, e: Dict<K, V>)
    ensures |Update(d, e)| >= |d| && Keys(Update(d, e))[..|d|] == Keys(d)
    decreases |e|
  {
    if e != [] {
      var d' := Put(d, e[0].0, e[0].1);
      var r := Update(d', e[1..]);
      assert r == Update(d, e);
      UpdateKeys(d', e[1..]);
      PrefixOfPrefix(Keys(r), Keys(d'), Keys(d));
    }
  }

  lemma PrefixOfPrefix<T>(a: seq<T>, b: seq<T>, c: seq<T>)
    requires |c| <= |b| <= |a| && a[..|b|] == b && b[..|c|] == c
    ensures a[..|c|] == c
  {
    assert a[..|c|] == a[..|b|][..|c|];
  }

  /** The keys after `update` are the keys of both dicts. */
  lemma {:induction false} UpdateKeySet<K(!new), V>(d: Dict<K, V>, e: Dict<K, V>, k: K)
    ensures k in Keys(Update(d, e)) <==> k in Keys(d) || k in Keys(e)
    decreases |e|
  {
    if e != [] {
      var d' := Put(d, e[0].0, e[0].1);
      assert Update(d, e) == Update(d', e[1..]);
      UpdateKeySet(d', e[1..], k);
      assert Keys(e) == [e[0].0] + Keys(e[1..]);
      assert k in Keys(d') <==> k in Keys(d) || k == e[0].0;
    }
  }

  /** `dict(zip(ks, vs))` for sequences of equal length. */
  function Zip<K, V>(ks: seq<K>, vs: seq<V>): (r: Dict<K, V>)
    requires |ks| == |vs|
    ensures |r| == |ks| && Keys(r) == ks
    ensures forall i :: 0 <= i < |r| ==> r[i].1 == vs[i]
  {
    seq(|ks|, i requires 0 <= i < |ks| => (ks[i], vs[i]))
  }

  /** Python's `a == b` on dicts: the same keys with the same values,
      whatever the order. */
  predicate SameItems<K(==,!new), V(==)>(a: Dict<K, V>, b: Dict<K, V>)
  {
    && (forall i :: 0 <= i < |a| ==> Get(b, a[i].0) == Get(a, a[i].0))
    && (forall i :: 0 <= i < |b| ==> Get(a, b[i].0) == Get(b, b[i].0))
  }

  /** After `d.update(e)` with `e` a real dict, every key of `e` holds its value in `e`. */
  lemma {:induction false} UpdateGet<K(!new), V>(d: Dict<K, V>, e: Dict<K, V>, k: K)
    requires DistinctKeys(e) && k in Keys(e)
    ensures Get(Update(d, e), k) == Get(e, k)
    decreases |e|
  {
    if e[0].0 == k {
      assert k !in Keys(e[1..]);
      UpdateOther(Put(d, e[0].0, e[0].1), e[1..], k);
    } else {
      assert Keys(e) == [e[0].0] + Keys(e[1..]);
      UpdateGet(Put(d, e[0].0, e[0].1), e[1..], k);
    }
  }

  lemma {:induction false} PutDistinct<K(!new), V>(d: Dict<K, V>, k: K, v: V)
    requires DistinctKeys(d)
    ensures DistinctKeys(Put(d, k, v))
  {
    var r := Put(d, k, v);
    assert Keys(r) == Keys(d) || Keys(r) == Keys(d) + [k];
    forall i, j | 0 <= i < j < |r| ensures r[i].0 != r[j].0 {
      assert r[i].0 == Keys(r)[i] && r[j].0 == Keys(r)[j];
    }
  }

  lemma {:induction false} UpdateDistinct<K(!new), V>(d: Dict<K, V>, e: Dict<K, V>)
    requires DistinctKeys(d)
    ensures DistinctKeys(Update(d, e))
    decreases |e|
  {
    if e != [] {
      PutDistinct(d, e[0].0, e[0].1);
      UpdateDistinct(Put(d, e[0].0, e[0].1), e[1..]);
    }
  }

  /** Dict equality is equality of the key-to-value mappings. */
  lemma SameItemsMeansSameMapping<K(!new), V>(a: Dict<K, V>, b: Dict<K, V>)
    ensures SameItems(a, b) ==> forall k :: Get(a, k) == Get(b, k)
    ensures (forall k :: Get(a, k) == Get(b, k)) ==> SameItems(a, b)
  {
    if SameItems(a, b) {
      forall k ensures Get(a, k) == Get(b, k) {
        if k in Keys(a) {
          var i :| 0 <= i < |a| && Keys(a)[i] == k;
          assert Get(b, a[i].0) == Get(a, a[i].0);
        } else if k in Keys(b) {
          var i :| 0 <= i < |b| && Keys(b)[i] == k;
          assert Get(a, b[i].0) == Get(b, b[i].0);
        }
      }
    }
  }

  /** Appending a pair changes only the lookup of a key not yet present. */
  lemma {:induction false} GetSnoc<K(!new), V>(d: Dict<K, V>, p: (K, V), k: K)
    ensures Get(d + [p], k) == if Get(d, k).Some? then Get(d, k) else if p.0 == k then Some(p.1) else None
  {
    if d != [] {
      assert (d + [p])[1..] == d[1..] + [p];
      GetSnoc(d[1..], p, k);
    }
  }

  /** In `dict(zip(ks, vs))` with distinct keys, each key holds its partner. */
  lemma ZipGet<K(!new), V>(ks: seq<K>, vs: seq<V>, i: nat)
    requires |ks| == |vs| && i < |ks|
    requires forall a, b :: 0 <= a < b < |ks| ==> ks[a] != ks[b]
    ensures DistinctKeys(Zip(ks, vs))
    ensures Get(Zip(ks, vs), ks[i]) == Some(vs[i])
  {
    var z := Zip(ks, vs);
    var r := Get(z, ks[i]);
    assert (ks[i], vs[i]) in z by {
      assert z[i] == (ks[i], vs[i]);
    }
    var j :| 0 <= j < |z| && z[j] == (ks[i], r.value);
    assert ks[j] == ks[i];
  }

  /** `{}.update(e)` for a dict `e` maps every key as `e` does. */
  lemma FromEmpty<K(!new), V>(e: Dict<K, V>, k: K)
    requires DistinctKeys(e)
    ensures Get(Update([], e), k) == Get(e, k)
  {
    if k in Keys(e) {
      UpdateGet([], e, k);
    } else {
      UpdateOther([], e, k);
    }
  }
}
