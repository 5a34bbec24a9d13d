/**
 * A Rust `BTreeMap` as the sequence of its entries in ascending key order,
 * which is the order in which the source iterates over it.
 */
module SortedMaps {
  import opened Wrappers
  import opened Orders

  type Entries<K, V> = seq<(K, V)>

  /** Keys strictly ascend, hence are distinct. */
  predicate Sorted<K, V>(lt: (K, K) -> bool, xs: Entries<K, V>)
  {
    forall i, j :: 0 <= i < j < |xs| ==> lt(xs[i].0, xs[j].0)
  }

  function Keys<K, V>(xs: Entries<K, V>): (ks: seq<K>)
    ensures |ks| == |xs| && forall i :: 0 <= i < |xs| ==> ks[i] == xs[i].0
  {
    if xs == [] then [] else [xs[0].0] + Keys(xs[1..])
  }

  function Values<K, V>(xs: Entries<K, V>): (vs: seq<V>)
    ensures |vs| == |xs| && forall i :: 0 <= i < |xs| ==> vs[i] == xs[i].1
  {
    if xs == [] then [] else [xs[0].1] + Values(xs[1..])
  }

  predicate HasKey<K(==), V>(xs: Entries<K, V>, k: K)
  {
    exists i :: 0 <= i < |xs| && xs[i].0 == k
  }

  /** The value stored under `k`: `BTreeMap::get`. */
  function Get<K(==), V>(xs: Entries<K, V>, k: K): (r: Option<V>)
    ensures r.None? <==> !HasKey(xs, k)
    ensures r.Some? ==> exists i :: 0 <= i < |xs| && xs[i] == (k, r.value)
  {
    if xs == [] then None
    else if xs[0].0 == k then Some(xs[0].1)
    else
      var r := Get(xs[1..], k);
      assert forall i :: 0 <= i < |xs| - 1 ==> xs[1..][i] == xs[i + 1];
      r
  }

  lemma GetAt<K(!new), V>(lt: (K, K) -> bool, xs: Entries<K, V>, i: nat)
    requires StrictTotalOrder(lt) && Sorted(lt, xs) && i < |xs|
    ensures Get(xs, xs[i].0) == Some(xs[i].1)
  {
    forall j | 0 <= j < |xs| && j != i ensures xs[j].0 != xs[i].0 {
      if j < i { assert lt(xs[j].0, xs[i].0); } else { assert lt(xs[i].0, xs[j].0); }
    }
  }

  /** Insertion that replaces the value of an existing key: `BTreeMap::insert`. */
  function Put<K(==), V>(lt: (K, K) -> bool, xs: Entries<K, V>, k: K, v: V): Entries<K, V>
  {
    if xs == [] then [(k, v)]
    else if xs[0].0 == k then [(k, v)] + xs[1..]
    else if lt(k, xs[0].0) then [(k, v)] + xs
    else [xs[0]] + Put(lt, xs[1..], k, v)
  }

  /** `GetAt` for maps keyed by name. */
  lemma GetAtByName<V>(xs: Entries<string, V>, i: nat)
    requires Sorted(StrLt, xs) && i < |xs|
    ensures Get(xs, xs[i].0) == Some(xs[i].1)
  {
    StrLtIsStrictTotalOrder();
    GetAt(StrLt, xs, i);
  }

  /** `PutSpec` for maps keyed by name, kept apart so that callers do not see the order's axioms. */
  lemma PutByName<V>(xs: Entries<string, V>, k: string, v: V)
    requires Sorted(StrLt, xs)
    ensures Sorted(StrLt, Put(StrLt, xs, k, v))
    ensures Get(Put(StrLt, xs, k, v), k) == Some(v)
    ensures forall k' :: k' != k ==> Get(Put(StrLt, xs, k, v), k') == Get(xs, k')
    ensures |Put(StrLt, xs, k, v)| == if HasKey(xs, k) then |xs| else |xs| + 1
    ensures forall e :: e in Put(StrLt, xs, k, v) <==> e == (k, v) || (e in xs && e.0 != k)
  {
    StrLtIsStrictTotalOrder();
    PutSpec(StrLt, xs, k, v);
  }

  lemma {:induction false} PutSpec<K(!new), V>(lt: (K, K) -> bool, xs: Entries<K, V>, k: K, v: V)
    requires StrictTotalOrder(lt) && Sorted(lt, xs)
    ensures Sorted(lt, Put(lt, xs, k, v))
    ensures Get(Put(lt, xs, k, v), k) == Some(v)
    ensures forall k' :: k' != k ==> Get(Put(lt, xs, k, v), k') == Get(xs, k')
    ensures |Put(lt, xs, k, v)| == if HasKey(xs, k) then |xs| else |xs| + 1
    ensures forall e :: e in Put(lt, xs, k, v) <==> e == (k, v) || (e in xs && e.0 != k)
  {
    PutShape(lt, xs, k, v);
    PutSorted(lt, xs, k, v);
    PutGet(lt, xs, k, v);
    var r := Put(lt, xs, k, v);
    forall e | e in r && e.0 == k ensures e == (k, v) {
      var i :| 0 <= i < |r| && r[i] == e;
      GetAt(lt, r, i);
    }
  }

  /** Which entries `Put` keeps, adds and drops, before sortedness is known. */
  lemma {:induction false} PutShape<K(!new), V>(lt: (K, K) -> bool, xs: Entries<K, V>, k: K, v: V)
    requires StrictTotalOrder(lt) && Sorted(lt, xs)
    ensures (k, v) in Put(lt, xs, k, v)
    ensures forall e :: e in Put(lt, xs, k, v) ==> e == (k, v) || e in xs
    ensures forall e :: e in xs && e.0 != k ==> e in Put(lt, xs, k, v)
  {
    if xs != [] && xs[0].0 != k && !lt(k, xs[0].0) {
      assert Sorted(lt, xs[1..]);
      PutShape(lt, xs[1..], k, v);
      assert xs == [xs[0]] + xs[1..];
    }
  }

  lemma {:induction false} PutSorted<K(!new), V>(lt: (K, K) -> bool, xs: Entries<K, V>, k: K, v: V)
    requires StrictTotalOrder(lt) && Sorted(lt, xs)
    ensures Sorted(lt, Put(lt, xs, k, v))
  {
    var r := Put(lt, xs, k, v);
    if xs != [] && xs[0].0 != k && !lt(k, xs[0].0) {
      var tail := xs[1..];
      assert Sorted(lt, tail);
      PutSorted(lt, tail, k, v);
      PutShape(lt, tail, k, v);
      assert r == [xs[0]] + Put(lt, tail, k, v);
      assert lt(xs[0].0, k);
      forall i, j | 0 <= i < j < |r| ensures lt(r[i].0, r[j].0) {
        if i == 0 {
          assert r[j] in Put(lt, tail, k, v);
          assert r[j] == (k, v) || r[j] in tail;
        }
      }
    } else if xs != [] && xs[0].0 != k {
      forall i, j | 0 <= i < j < |r| ensures lt(r[i].0, r[j].0) {
        if i == 0 && j > 1 { assert lt(xs[0].0, xs[j - 1].0); }
      }
    }
  }

  lemma {:induction false} PutGet<K(!new), V>(lt: (K, K) -> bool, xs: Entries<K, V>, k: K, v: V)
    requires StrictTotalOrder(lt) && Sorted(lt, xs)
    ensures Get(Put(lt, xs, k, v), k) == Some(v)
    ensures forall k' :: k' != k ==> Get(Put(lt, xs, k, v), k') == Get(xs, k')
    ensures |Put(lt, xs, k, v)| == if HasKey(xs, k) then |xs| else |xs| + 1
  {
    var r := Put(lt, xs, k, v);
    if xs != [] && xs[0].0 != k && !lt(k, xs[0].0) {
      var tail := xs[1..];
      assert Sorted(lt, tail);
      PutGet(lt, tail, k, v);
      assert r == [xs[0]] + Put(lt, tail, k, v);
      assert HasKey(xs, k) <==> HasKey(tail, k) by {
        if HasKey(xs, k) {
          var i :| 0 <= i < |xs| && xs[i].0 == k;
          assert tail[i - 1].0 == k;
        }
        if HasKey(tail, k) {
          var i :| 0 <= i < |tail| && tail[i].0 == k;
          assert xs[i + 1].0 == k;
        }
      }
    } else if xs != [] && xs[0].0 != k {
      assert !HasKey(xs, k) by {
        forall i | 0 <= i < |xs| ensures xs[i].0 != k {
          if i > 0 { assert lt(xs[0].0, xs[i].0); }
        }
      }
    } else if xs != [] {
      assert forall i :: 1 <= i < |r| ==> r[i] == xs[i];
      forall k' | k' != k ensures Get(r, k') == Get(xs, k') {
        assert Get(r, k') == Get(r[1..], k') && Get(xs, k') == Get(xs[1..], k');
        assert r[1..] == xs[1..];
      }
    }
  }

  /** No value is stored under two keys. */
  predicate DistinctValues<K, V(==)>(xs: Entries<K, V>)
  {
    forall i, j :: 0 <= i < j < |xs| ==> xs[i].1 != xs[j].1
  }

  /** Inserting a new key with a value stored nowhere else keeps the values distinct. */
  lemma {:induction false} PutDistinctValues<K(!new), V>(lt: (K, K) -> bool, xs: Entries<K, V>, k: K, v: V)
    requires StrictTotalOrder(lt) && Sorted(lt, xs) && !HasKey(xs, k) && DistinctValues(xs)
    requires forall e :: e in xs ==> e.1 != v
    ensures DistinctValues(Put(lt, xs, k, v))
  {
    var r := Put(lt, xs, k, v);
    if xs != [] && !lt(k, xs[0].0) {
      assert xs[0].0 != k;
      var tail := xs[1..];
      assert Sorted(lt, tail) && DistinctValues(tail);
      assert forall i :: 0 <= i < |tail| ==> tail[i] == xs[i + 1];
      PutDistinctValues(lt, tail, k, v);
      PutShape(lt, tail, k, v);
      assert r == [xs[0]] + Put(lt, tail, k, v);
      forall i, j | 0 <= i < j < |r| ensures r[i].1 != r[j].1 {
        if i == 0 {
          assert r[j] in Put(lt, tail, k, v);
          if r[j] != (k, v) {
            var m :| 0 <= m < |tail| && tail[m] == r[j];
            assert xs[m + 1] == r[j];
          }
        }
      }
    } else if xs != [] {
      assert xs[0].0 != k;
      assert r == [(k, v)] + xs;
      forall i, j | 0 <= i < j < |r| ensures r[i].1 != r[j].1 {
        if i == 0 { assert r[j] == xs[j - 1] && xs[j - 1] in xs; }
        else { assert r[i] == xs[i - 1] && r[j] == xs[j - 1]; }
      }
    }
  }

  /** Removal of a key with the value it had: `BTreeMap::remove`. */
  function Remove<K(==), V>(xs: Entries<K, V>, k: K): (r: Entries<K, V>)
    ensures forall e :: e in r ==> e in xs && e.0 != k
    ensures forall e :: e in xs && e.0 != k ==> e in r
  {
    if xs == [] then []
    else if xs[0].0 == k then Remove(xs[1..], k)
    else [xs[0]] + Remove(xs[1..], k)
  }

  lemma {:induction false} RemoveSpec<K(!new), V>(lt: (K, K) -> bool, xs: Entries<K, V>, k: K)
    requires StrictTotalOrder(lt) && Sorted(lt, xs)
    ensures Sorted(lt, Remove(xs, k))
    ensures Get(Remove(xs, k), k) == None
    ensures forall k' :: k' != k ==> Get(Remove(xs, k), k') == Get(xs, k')
  {
    if xs != [] {
      var tail := xs[1..];
      assert Sorted(lt, tail);
      RemoveSpec(lt, tail, k);
      var r := Remove(xs, k);
      if xs[0].0 != k {
        forall i, j | 0 <= i < j < |r| ensures lt(r[i].0, r[j].0) {
          if i == 0 { assert r[j] in Remove(tail, k); assert r[j] in tail; }
        }
      } else {
        forall k' | k' != k ensures Get(r, k') == Get(xs, k') {
        }
      }
    }
  }
}
