/**
 * `StringDictionary<K>` of arrow_util: an append-only interner that maps
 * each distinct string to a dense integer key, the string's index in the
 * packed storage.
 *
 * The hash-keyed `dedup` table is modelled by its content, a map from each
 * stored string to its key. The key type `K` is modelled by its largest
 * value `maxKey` and its width in bytes `keyBytes`.
 */
module Dictionary {
  import opened Wrappers

  /** Position of the first occurrence of `s` in `xs`. */
  function IndexOf(xs: seq<string>, s: string): (r: Option<nat>)
    ensures r.None? <==> s !in xs
    ensures r.Some? ==> r.value < |xs| && xs[r.value] == s && s !in xs[..r.value]
  {
    if xs == [] then None
    else if xs[0] == s then Some(0)
    else match IndexOf(xs[1..], s)
      case None => None
      case Some(i) => assert xs[1..][..i] == xs[1..i + 1]; Some(i + 1)
  }

  /** No string is stored twice. */
  ghost predicate Distinct(xs: seq<string>)
  {
    forall i, j :: 0 <= i < j < |xs| ==> xs[i] != xs[j]
  }

  class StringDictionary {
    const maxKey: nat
    const keyBytes: nat
    var storage: seq<string>
    var dedup: map<string, nat>

    ghost predicate Valid()
      reads this
    {
      && Distinct(storage)
      && (forall s :: s in dedup ==> dedup[s] < |storage| && storage[dedup[s]] == s)
      && (forall i :: 0 <= i < |storage| ==> storage[i] in dedup)
      && (|storage| == 0 || |storage| - 1 <= maxKey)
    }

    /** `StringDictionary::new`: no strings. */
    constructor (maxKey: nat, keyBytes: nat)
      ensures Valid() && storage == [] && dedup == map[]
      ensures this.maxKey == maxKey && this.keyBytes == keyBytes
    {
      this.maxKey := maxKey;
      this.keyBytes := keyBytes;
      storage := [];
      dedup := map[];
    }

    /**
     * Interning `s` would need a key for index `|storage|`, which does not
     * fit in `K`: `K::from_usize(index).expect(..)` panics.
     */
    predicate InsertWouldPanic(s: string)
      reads this
    {
      s !in dedup && |storage| > maxKey
    }

    /**
     * `lookup_value_or_insert`: the key of a stored string, or the key of
     * the newly appended string, which is its index.
     */
    method LookupValueOrInsert(s: string) returns (id: nat)
      requires Valid() && !InsertWouldPanic(s)
      modifies this
      ensures Valid()
      ensures storage == if s in old(storage) then old(storage) else old(storage) + [s]
      ensures Some(id) == IndexOf(storage, s)
      ensures s in old(storage) ==> id == old(IndexOf(storage, s)).value
      ensures s !in old(storage) ==> id == old(|storage|)
    {
      if s in dedup {
        id := dedup[s];
        assert storage[id] == s;
        DistinctIndex(storage, id);
      } else {
        assert s !in storage;
        id := |storage|;
        storage := storage + [s];
        dedup := dedup[s := id];
        DistinctIndex(storage, id);
      }
    }

    /** `id` and `lookup_value`: the key of `s` if it was ever inserted. */
    function Id(s: string): (r: Option<nat>)
      reads this
      requires Valid()
      ensures r == IndexOf(storage, s)
    {
      if s in dedup then
        DistinctIndex(storage, dedup[s]);
        Some(dedup[s])
      else None
    }

    /** `lookup_id`: the string stored under `id`; no string for an id never issued. */
    function LookupId(id: int): (r: Option<string>)
      reads this
      ensures r.Some? <==> 0 <= id < |storage|
      ensures r.Some? ==> r.value == storage[id]
    {
      if 0 <= id < |storage| then Some(storage[id]) else None
    }

    /**
     * `size`: the packed storage's size (`packedSize`, computed by code
     * that is not part of this model) plus one key per stored string.
     */
    function Size(packedSize: nat): (r: nat)
      reads this
      requires Valid()
      ensures r == packedSize + |storage| * keyBytes
    {
      KeyCount(this);
      packedSize + |dedup| * keyBytes
    }

    /** `values`: the stored strings in insertion order, the i-th under key i. */
    function Values(): (r: seq<string>)
      reads this
      ensures |r| == |storage| && forall i :: 0 <= i < |r| ==> LookupId(i) == Some(r[i])
      ensures Valid() ==> forall s :: s in r <==> Id(s).Some?
    {
      storage
    }
  }

  lemma DistinctIndex(xs: seq<string>, i: nat)
    requires Distinct(xs) && i < |xs|
    ensures IndexOf(xs, xs[i]) == Some(i)
  {
    var r := IndexOf(xs, xs[i]);
    assert xs[r.value] == xs[i];
  }

  /** The dedup table holds exactly one key per stored string. */
  lemma KeyCount(d: StringDictionary)
    requires d.Valid()
    ensures |d.dedup| == |d.storage|
  {
    var keys := d.dedup.Keys;
    var stored := set i | 0 <= i < |d.storage| :: d.storage[i];
    assert keys == stored;
    CountDistinct(d.storage);
  }

  lemma {:induction false} CountDistinct(xs: seq<string>)
    requires Distinct(xs)
    ensures |set i | 0 <= i < |xs| :: xs[i]| == |xs|
  {
    if xs != [] {
      var init := xs[..|xs| - 1];
      CountDistinct(init);
      var a := set i | 0 <= i < |init| :: init[i];
      var b := set i | 0 <= i < |xs| :: xs[i];
      assert b == a + {xs[|xs| - 1]};
      assert xs[|xs| - 1] !in a;
    }
  }

  /** Interning the same string twice gives the same key and stores it once. */
  lemma InternTwice(d: StringDictionary, s: string, first: nat)
    requires d.Valid() && first < |d.storage| && d.storage[first] == s
    ensures d.Id(s) == Some(first) && d.LookupId(first) == Some(s)
  {
    DistinctIndex(d.storage, first);
  }

  /** Distinct stored strings have distinct keys. */
  lemma DistinctKeys(d: StringDictionary, s: string, t: string)
    requires d.Valid() && s != t && d.Id(s).Some? && d.Id(t).Some?
    ensures d.Id(s).value != d.Id(t).value
  {
  }

  /** `lookup_id` inverts `lookup_value` and `lookup_value` inverts `lookup_id`. */
  lemma {:induction false} LookupRoundTrip(d: StringDictionary, s: string, id: int)
    requires d.Valid()
    ensures d.Id(s).Some? ==> d.LookupId(d.Id(s).value) == Some(s)
    ensures d.LookupId(id).Some? ==> d.Id(d.LookupId(id).value) == Some(id)
  {
    if 0 <= id < |d.storage| { DistinctIndex(d.storage, id); }
  }
}
