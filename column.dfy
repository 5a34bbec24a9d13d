/**
 * The typed column of the mutable buffer (mutable_buffer/src/column.rs): a
 * validity bitset, one backing store of the column's type and a running
 * count of the non-null values it received. Entry columns are appended in
 * place; the store of a row that is not valid holds the type's default.
 */
module MutableColumn {
  import opened Wrappers
  import opened Rows
  import opened EntryNullMask
  import opened EntryColumns
  import opened EntryIterators
  import opened Dictionary

  /**
   * The id stored for a tag row that has no value (`INVALID_DID`, padding
   * rows at mutable_buffer/src/column.rs:86, 217 and 249). Its definition in
   * mutable_buffer/src/dictionary.rs is not part of this model; any value no
   * issued id takes serves, and ids are issued from 0, so -1 is used.
   */
  const InvalidDid: int := -1

  /**
   * The dictionary ids of a tag column are 32-bit signed integers (the
   * column is exported as an Arrow dictionary keyed by `Int32`).
   */
  const DidMax: nat := 0x7FFF_FFFF
  const DidBytes: nat := 4

  datatype ColumnError =
    | TypeMismatch(existing: InfluxColumnType, inserted: InfluxColumnType)
    | InvalidNullMask(expectedBytes: nat, actualBytes: nat)

  /** The backing store, one variant per `ColumnData` arm. */
  datatype ColumnData =
    | F64Data(floats: seq<real>)
    | I64Data(ints: seq<int>)
    | U64Data(uints: seq<nat>)
    | StringData(strings: seq<string>)
    | BoolData(bools: seq<bool>)
    | TagData(ids: seq<int>)

  /** The statistics summary `stats` reports; only the value count is modelled. */
  datatype Statistics =
    | F64Stats(count: nat)
    | I64Stats(count: nat)
    | U64Stats(count: nat)
    | BoolStats(count: nat)
    | StringStats(count: nat)

  function DataLen(d: ColumnData): nat
  {
    match d
    case F64Data(c) => |c|
    case I64Data(c) => |c|
    case U64Data(c) => |c|
    case StringData(c) => |c|
    case BoolData(c) => |c|
    case TagData(c) => |c|
  }

  /** The backing store a column of influx type `t` uses. */
  predicate Matches(t: InfluxColumnType, d: ColumnData)
  {
    match t
    case Tag => d.TagData?
    case Timestamp => d.I64Data?
    case Field(Float) => d.F64Data?
    case Field(Integer) => d.I64Data?
    case Field(UInteger) => d.U64Data?
    case Field(StringField) => d.StringData?
    case Field(Boolean) => d.BoolData?
  }

  /** The entry payload a backing store takes. */
  predicate Carries(d: ColumnData, v: Values)
  {
    match d
    case F64Data(_) => v.F64Values?
    case I64Data(_) => v.I64Values?
    case U64Data(_) => v.U64Values?
    case StringData(_) => v.StringValues?
    case BoolData(_) => v.BoolValues?
    case TagData(_) => v.StringValues?
  }

  /** Every row that is not valid holds `d`. */
  predicate NullsDefault<T(==)>(valid: seq<bool>, col: seq<T>, d: T)
  {
    |col| == |valid| && forall i :: 0 <= i < |valid| && !valid[i] ==> col[i] == d
  }

  /** The rows of a store hold the type's default wherever `valid` is unset. */
  predicate DefaultsAtNulls(valid: seq<bool>, data: ColumnData)
  {
    match data
    case F64Data(c) => NullsDefault(valid, c, 0.0)
    case I64Data(c) => NullsDefault(valid, c, 0)
    case U64Data(c) => NullsDefault(valid, c, 0)
    case StringData(c) => NullsDefault(valid, c, "")
    case BoolData(c) => NullsDefault(valid, c, false)
    case TagData(c) => NullsDefault(valid, c, InvalidDid)
  }

  /** A tag id is either the invalid id or one the dictionary issued. */
  predicate IdsIssued(ids: seq<int>, issued: nat)
  {
    forall i :: 0 <= i < |ids| ==> ids[i] == InvalidDid || 0 <= ids[i] < issued
  }

  /** The store of a new column of type `t` with `n` rows, all defaults. */
  function DefaultData(t: InfluxColumnType, n: nat): (r: ColumnData)
    ensures Matches(t, r) && DataLen(r) == n
    ensures DefaultsAtNulls(seq(n, i => false), r)
  {
    match t
    case Tag => TagData(seq(n, i => InvalidDid))
    case Timestamp => I64Data(seq(n, i => 0))
    case Field(Float) => F64Data(seq(n, i => 0.0))
    case Field(Integer) => I64Data(seq(n, i => 0))
    case Field(UInteger) => U64Data(seq(n, i => 0))
    case Field(StringField) => StringData(seq(n, i => ""))
    case Field(Boolean) => BoolData(seq(n, i => false))
  }

  /** `d` with `delta` default rows appended. */
  function PadData(d: ColumnData, delta: nat): (r: ColumnData)
    ensures DataLen(r) == DataLen(d) + delta
  {
    match d
    case F64Data(c) => F64Data(c + seq(delta, i => 0.0))
    case I64Data(c) => I64Data(c + seq(delta, i => 0))
    case U64Data(c) => U64Data(c + seq(delta, i => 0))
    case StringData(c) => StringData(c + seq(delta, i => ""))
    case BoolData(c) => BoolData(c + seq(delta, i => false))
    case TagData(c) => TagData(c + seq(delta, i => InvalidDid))
  }

  /**
   * `validate_schema`: an entry column whose influx type differs from the
   * column's is refused with both types named.
   */
  function ValidateSchema(existing: InfluxColumnType, entry: EntryColumn): (r: Result<(), ColumnError>)
    requires InfluxType(entry.column).Some?
    ensures r.Ok? <==> InfluxType(entry.column).value == existing
    ensures r.Err? ==> r.error == TypeMismatch(existing, InfluxType(entry.column).value)
  {
    var inserted := InfluxType(entry.column).value;
    if inserted == existing then Ok(()) else Err(TypeMismatch(existing, inserted))
  }

  /** Bit `j` of a byte, counting from the least significant bit (Arrow's order). */
  predicate LsbBit(b: bv8, j: nat)
    requires j < 8
  {
    b & (1 << j) != 0
  }

  /** `u8::reverse_bits`: the most significant bit becomes the least significant. */
  function ReverseBits(x: bv8): (r: bv8)
    ensures forall j :: 0 <= j < 8 ==> (LsbBit(r, j) <==> MsbBit(x, j))
    ensures forall j :: 0 <= j < 8 ==> (LsbBit(!r, j) <==> !MsbBit(x, j))
  {
    ((x & 1) << 7) | ((x & 2) << 5) | ((x & 4) << 3) | ((x & 8) << 1)
    | ((x & 16) >> 1) | ((x & 32) >> 3) | ((x & 64) >> 5) | ((x & 128) >> 7)
  }

  /** Reversing the bits of a byte twice gives the byte back. */
  lemma ReverseBitsInvolution(x: bv8)
    ensures ReverseBits(ReverseBits(x)) == x
  {
  }

  /** Bytes holding `n` bits: `(n + 7) >> 3`. */
  function BufLen(n: nat): nat
  {
    (n + 7) / 8
  }

  /** The first `n` bits of a byte mask in Arrow's order. */
  function SetBits(mask: seq<bv8>, n: nat): (r: seq<bool>)
    requires n <= 8 * |mask|
    ensures |r| == n
  {
    seq(n, i requires 0 <= i < n => LsbBit(mask[i / 8], i % 8))
  }

  lemma BufLenBound(n: nat, i: nat)
    requires i < n
    ensures i / 8 < BufLen(n) && n <= 8 * BufLen(n)
  {
  }

  /**
   * `construct_valid_mask`: the validity bytes of an entry column. A null
   * mask of the wrong length is refused; otherwise each byte is the bitwise
   * negation of the mask byte with its bit order reversed, and without a
   * null mask every row is valid. Validity bit `i` is therefore exactly
   * the negation of `is_null_value(i + 1)`.
   */
  function ConstructValidMask(nullMask: Option<seq<bv8>>, rowCount: nat): (r: Result<seq<bv8>, ColumnError>)
    ensures r.Err? <==> nullMask.Some? && |nullMask.value| != BufLen(rowCount)
    ensures r.Err? ==> r.error == InvalidNullMask(BufLen(rowCount), |nullMask.value|)
    ensures r.Ok? ==> |r.value| == BufLen(rowCount) && rowCount <= 8 * |r.value|
    ensures r.Ok? ==> SetBits(r.value, rowCount) == ValidRows(nullMask, rowCount)
  {
    var bufLen := BufLen(rowCount);
    match nullMask
    case Some(data) =>
      if |data| != bufLen then Err(InvalidNullMask(bufLen, |data|))
      else
        var m := seq(|data|, k requires 0 <= k < |data| => !ReverseBits(data[k]));
        assert rowCount <= 8 * |m| by { if rowCount > 0 { BufLenBound(rowCount, 0); } }
        assert forall i :: 0 <= i < rowCount ==> SetBits(m, rowCount)[i] == ValidRows(nullMask, rowCount)[i] by {
          forall i | 0 <= i < rowCount
            ensures SetBits(m, rowCount)[i] == ValidRows(nullMask, rowCount)[i]
          {
            BufLenBound(rowCount, i);
          }
        }
        Ok(m)
    case None =>
      var m := seq(bufLen, k => 0xFF as bv8);
      assert rowCount <= 8 * |m| by { if rowCount > 0 { BufLenBound(rowCount, 0); } }
      assert forall i :: 0 <= i < rowCount ==> SetBits(m, rowCount)[i] == ValidRows(nullMask, rowCount)[i] by {
        forall i | 0 <= i < rowCount
          ensures SetBits(m, rowCount)[i] == ValidRows(nullMask, rowCount)[i]
        {
          BufLenBound(rowCount, i);
          var b: bv8 := 0xFF;
          assert forall j :: 0 <= j < 8 ==> LsbBit(b, j);
        }
      }
      Ok(m)
  }

  /**
   * The state of a scatter loop after `idx` rows: `out` is `col` followed
   * by the segment, whose first `idx` rows are placed, the rest still the
   * default, and `added` values have been placed.
   */
  ghost predicate ScatterInv<T>(col: seq<T>, bits: seq<bool>, values: seq<T>, d: T, idx: nat, added: nat, out: seq<T>)
  {
    && idx <= |bits|
    && added == Min(Rank(bits, idx), |values|)
    && |out| == |col| + |bits| && out[..|col|] == col
    && (forall j :: 0 <= j < idx ==> out[|col| + j] == ScatterAt(bits, values, d, j))
    && (forall k :: |col| + idx <= k < |col| + |bits| ==> out[k] == d)
  }

  lemma ScatterStart<T>(col: seq<T>, bits: seq<bool>, values: seq<T>, d: T)
    ensures ScatterInv(col, bits, values, d, 0, 0, col + seq(|bits|, i => d))
  {
    assert (col + seq(|bits|, i => d))[..|col|] == col;
  }

  /** One row of a scatter loop: a set row takes the next value, any other row keeps the default. */
  lemma ScatterStep<T>(col: seq<T>, bits: seq<bool>, values: seq<T>, d: T, idx: nat, added: nat, out: seq<T>)
    requires ScatterInv(col, bits, values, d, idx, added, out)
    requires idx < |bits| && added < |values|
    ensures bits[idx] ==> ScatterInv(col, bits, values, d, idx + 1, added + 1, out[|col| + idx := values[added]])
    ensures !bits[idx] ==> ScatterInv(col, bits, values, d, idx + 1, added, out)
  {
    RankStep(bits, idx);
    if bits[idx] {
      var out' := out[|col| + idx := values[added]];
      assert out'[..|col|] == out[..|col|];
    }
  }

  /**
   * A scatter loop that stopped at row `idx`, either at the last row or
   * with every value placed, has produced the whole scattered segment.
   */
  lemma ScatterDone<T>(col: seq<T>, bits: seq<bool>, values: seq<T>, d: T, idx: nat, added: nat, out: seq<T>)
    requires ScatterInv(col, bits, values, d, idx, added, out)
    requires |values| <= CountTrue(bits)
    requires idx == |bits| || added == |values|
    ensures out == col + Scatter(bits, values, d)
    ensures added == |values|
  {
    RankAll(bits);
    forall k | 0 <= k < |out|
      ensures out[k] == (col + Scatter(bits, values, d))[k]
    {
      ScatterDoneAt(col, bits, values, d, idx, added, out, k);
    }
  }

  /** One slot of a finished scatter loop. */
  lemma ScatterDoneAt<T>(col: seq<T>, bits: seq<bool>, values: seq<T>, d: T, idx: nat, added: nat, out: seq<T>, k: nat)
    requires ScatterInv(col, bits, values, d, idx, added, out)
    requires |values| <= CountTrue(bits) && Rank(bits, |bits|) == CountTrue(bits)
    requires idx == |bits| || added == |values|
    requires k < |out|
    ensures out[k] == (col + Scatter(bits, values, d))[k]
  {
    var n := |col|;
    if k < n {
      assert out[..n][k] == col[k];
    } else {
      var j := k - n;
      ScatterSlot(col, bits, values, d, j);
      if j >= idx {
        assert out[k] == d;
        ScatterPastEnd(bits, values, d, idx, j);
      }
    }
  }

  /** Once the rows before `i` have used every value, no later row takes one. */
  lemma ScatterPastEnd<T>(bits: seq<bool>, values: seq<T>, d: T, i: nat, j: nat)
    requires i <= j < |bits| && |values| <= Rank(bits, i)
    ensures ScatterAt(bits, values, d, j) == d
  {
    RankMonotone(bits, i, j);
  }

  /** The slot `j` past `col` of a store extended by a scatter. */
  lemma ScatterSlot<T>(col: seq<T>, bits: seq<bool>, values: seq<T>, d: T, j: nat)
    requires j < |bits|
    ensures (col + Scatter(bits, values, d))[|col| + j] == ScatterAt(bits, values, d, j)
  {
  }

  /**
   * `handle_write`: extends `colData` by `rowCount` default rows and places
   * the k-th value on the k-th set position of `validMask`, counting each
   * value written into the statistics. More values than set positions
   * make the source panic (an index past the new rows, or the count
   * assertion), hence the precondition.
   */
  method HandleWrite<T>(rowCount: nat, validMask: seq<bv8>, values: seq<T>, colData: seq<T>, default: T)
    returns (out: seq<T>, added: nat)
    requires rowCount <= 8 * |validMask|
    requires |values| <= CountTrue(SetBits(validMask, rowCount))
    ensures out == colData + Scatter(SetBits(validMask, rowCount), values, default)
    ensures added == |values|
  {
    ghost var bits := SetBits(validMask, rowCount);
    var offset := |colData|;
    out := colData + seq(rowCount, i => default);
    added := 0;
    var idx := 0;
    ScatterStart(colData, bits, values, default);
    while idx < rowCount && added < |values|
      invariant ScatterInv(colData, bits, values, default, idx, added, out)
      decreases rowCount - idx
    {
      ScatterStep(colData, bits, values, default, idx, added, out);
      if LsbBit(validMask[idx / 8], idx % 8) {
        out := out[offset + idx := values[added]];
        added := added + 1;
      }
      idx := idx + 1;
    }
    ScatterDone(colData, bits, values, default, idx, added, out);
  }

  /** The strings of a dictionary after interning `values` one after another. */
  function Interned(storage: seq<string>, values: seq<string>): (r: seq<string>)
    ensures |storage| <= |r| && r[..|storage|] == storage
    ensures forall i :: 0 <= i < |values| ==> values[i] in r
  {
    if values == [] then storage
    else
      var init := values[..|values| - 1];
      var prev := Interned(storage, init);
      var s := values[|values| - 1];
      assert forall i :: 0 <= i < |values| - 1 ==> values[i] == init[i];
      if s in prev then prev else prev + [s]
  }

  /** Interning a prefix of the values gives a prefix of the final strings. */
  lemma {:induction false} InternedPrefix(storage: seq<string>, values: seq<string>, k: nat)
    requires k <= |values|
    ensures |Interned(storage, values[..k])| <= |Interned(storage, values)|
    ensures Interned(storage, values) [..|Interned(storage, values[..k])|] == Interned(storage, values[..k])
    decreases |values| - k
  {
    if k < |values| {
      var n := |values|;
      assert values[..n][..n - 1] == values[..n - 1];
      if k == n - 1 {
      } else {
        InternedPrefix(storage, values[..n - 1], k);
        assert values[..n - 1][..k] == values[..k];
      }
      assert values[..n] == values;
    } else {
      assert values[..k] == values;
    }
  }

  /** Interning one more value appends it unless it is already stored. */
  lemma InternedStep(storage: seq<string>, values: seq<string>, k: nat)
    requires k < |values|
    ensures Interned(storage, values[..k + 1])
            == (var prev := Interned(storage, values[..k]); if values[k] in prev then prev else prev + [values[k]])
  {
    var vs := values[..k + 1];
    assert vs[..|vs| - 1] == values[..k];
  }

  /** Every interned string is stored. */
  lemma {:induction false} InternedHas(storage: seq<string>, values: seq<string>, i: nat)
    requires i < |values|
    ensures values[i] in Interned(storage, values)
  {
    var n := |values|;
    if i < n - 1 {
      InternedHas(storage, values[..n - 1], i);
      var prev := Interned(storage, values[..n - 1]);
      assert values[i] in prev;
      assert prev == Interned(storage, values)[..|prev|];
    }
  }

  /** The id a string has among `storage`; the invalid id if it is absent. */
  function IdOf(storage: seq<string>, s: string): (r: int)
    ensures r == InvalidDid || 0 <= r < |storage|
    ensures s in storage ==> 0 <= r < |storage| && storage[r] == s
  {
    match IndexOf(storage, s)
    case None => InvalidDid
    case Some(i) => i
  }

  /** The ids of `values` among `storage`. */
  function IdsOf(storage: seq<string>, values: seq<string>): (r: seq<int>)
    ensures |r| == |values|
  {
    seq(|values|, i requires 0 <= i < |values| => IdOf(storage, values[i]))
  }

  /** A string keeps its id when more strings are appended after it. */
  lemma {:induction false} IdOfExtend(xs: seq<string>, ys: seq<string>, s: string)
    requires s in xs
    ensures IdOf(xs + ys, s) == IdOf(xs, s)
  {
    if xs[0] != s {
      assert (xs + ys)[1..] == xs[1..] + ys;
      IdOfExtend(xs[1..], ys, s);
    }
  }

  /** A stored string keeps its id in any storage that extends the one it is in. */
  lemma IdOfPrefix(xs: seq<string>, zs: seq<string>, s: string)
    requires s in xs && |xs| <= |zs| && zs[..|xs|] == xs
    ensures s in zs && IdOf(zs, s) == IdOf(xs, s)
  {
    assert zs == xs + zs[|xs|..];
    IdOfExtend(xs, zs[|xs|..], s);
  }

  /** The id a string gets once all of `values` are interned is the id it has as soon as it is stored. */
  lemma InternedStable(storage: seq<string>, values: seq<string>, k: nat, s: string)
    requires k <= |values| && s in Interned(storage, values[..k])
    ensures IdOf(Interned(storage, values), s) == IdOf(Interned(storage, values[..k]), s)
  {
    var prefix := Interned(storage, values[..k]);
    var all := Interned(storage, values);
    InternedPrefix(storage, values, k);
    assert all == prefix + all[|prefix|..];
    IdOfExtend(prefix, all[|prefix|..], s);
  }

  /** A value not yet stored still has room below the final size. */
  lemma InternedRoom(storage: seq<string>, values: seq<string>, k: nat)
    requires k < |values|
    ensures values[k] !in Interned(storage, values[..k]) ==>
              |Interned(storage, values[..k])| + 1 <= |Interned(storage, values)|
  {
    InternedPrefix(storage, values, k + 1);
    InternedStep(storage, values, k);
  }

  /**
   * After interning the k-th value the dictionary holds the strings of the
   * first k + 1 values, and the id handed out is the value's final id.
   */
  lemma InternedId(storage: seq<string>, values: seq<string>, k: nat, after: seq<string>, id: nat)
    requires k < |values|
    requires after == (var prev := Interned(storage, values[..k]); if values[k] in prev then prev else prev + [values[k]])
    requires Some(id) == IndexOf(after, values[k])
    ensures after == Interned(storage, values[..k + 1])
    ensures id == IdsOf(Interned(storage, values), values)[k]
  {
    InternedStep(storage, values, k);
    assert values[..k + 1][k] == values[k];
    InternedHas(storage, values[..k + 1], k);
    InternedStable(storage, values, k + 1, values[k]);
  }

  /** `lookup_value_or_insert` of the k-th value, while the first k are interned. */
  method InternNext(dictionary: StringDictionary, ghost start: seq<string>, values: seq<string>, k: nat) returns (id: nat)
    requires dictionary.Valid() && k < |values|
    requires dictionary.storage == Interned(start, values[..k])
    requires |Interned(start, values)| <= dictionary.maxKey + 1
    modifies dictionary
    ensures dictionary.Valid()
    ensures dictionary.storage == Interned(start, values[..k + 1])
    ensures id == IdsOf(Interned(start, values), values)[k]
    ensures id < |dictionary.storage| && |old(dictionary.storage)| <= |dictionary.storage|
  {
    var s := values[k];
    InternedRoom(start, values, k);
    assert s in dictionary.dedup <==> s in dictionary.storage;
    id := dictionary.LookupValueOrInsert(s);
    InternedId(start, values, k, dictionary.storage, id);
  }

  /** One row of the tag arm: a set row interns the next value and takes its id. */
  method WriteTagRow(dictionary: StringDictionary, ghost start: seq<string>, rowCount: nat, validMask: seq<bv8>,
                     values: seq<string>, ids: seq<int>, idx: nat, added: nat, out: seq<int>)
    returns (out': seq<int>, added': nat)
    requires rowCount <= 8 * |validMask| && idx < rowCount && added < |values|
    requires ScatterInv(ids, SetBits(validMask, rowCount), IdsOf(Interned(start, values), values), InvalidDid, idx, added, out)
    requires dictionary.Valid() && dictionary.storage == Interned(start, values[..added])
    requires |Interned(start, values)| <= dictionary.maxKey + 1
    modifies dictionary
    ensures ScatterInv(ids, SetBits(validMask, rowCount), IdsOf(Interned(start, values), values), InvalidDid, idx + 1, added', out')
    ensures dictionary.Valid() && dictionary.storage == Interned(start, values[..added'])
  {
    ghost var bits := SetBits(validMask, rowCount);
    ghost var finalIds := IdsOf(Interned(start, values), values);
    ScatterStep(ids, bits, finalIds, InvalidDid, idx, added, out);
    assert bits[idx] == LsbBit(validMask[idx / 8], idx % 8);
    out', added' := out, added;
    if LsbBit(validMask[idx / 8], idx % 8) {
      var id := InternNext(dictionary, start, values, added);
      out' := out[|ids| + idx := id];
      added' := added + 1;
    }
  }

  /**
   * The tag arm of `append`: extends `ids` by `rowCount` invalid ids,
   * interns the k-th value and stores its id on the k-th set position of
   * `validMask`, counting each value into the statistics.
   */
  method WriteTags(dictionary: StringDictionary, rowCount: nat, validMask: seq<bv8>, values: seq<string>, ids: seq<int>)
    returns (out: seq<int>, added: nat)
    requires dictionary.Valid()
    requires rowCount <= 8 * |validMask|
    requires |values| <= CountTrue(SetBits(validMask, rowCount))
    requires |Interned(dictionary.storage, values)| <= dictionary.maxKey + 1
    modifies dictionary
    ensures dictionary.Valid()
    ensures dictionary.storage == Interned(old(dictionary.storage), values)
    ensures out == ids + Scatter(SetBits(validMask, rowCount), IdsOf(dictionary.storage, values), InvalidDid)
    ensures added == |values|
  {
    ghost var bits := SetBits(validMask, rowCount);
    ghost var start := dictionary.storage;
    ghost var final := Interned(start, values);
    ghost var finalIds := IdsOf(final, values);
    out := ids + seq(rowCount, i => InvalidDid);
    added := 0;
    var idx := 0;
    assert values[..0] == [];
    ScatterStart(ids, bits, finalIds, InvalidDid);
    while idx < rowCount && added < |values|
      invariant ScatterInv(ids, bits, finalIds, InvalidDid, idx, added, out)
      invariant dictionary.Valid()
      invariant dictionary.storage == Interned(start, values[..added])
      decreases rowCount - idx
    {
      out, added := WriteTagRow(dictionary, start, rowCount, validMask, values, ids, idx, added, out);
      idx := idx + 1;
    }
    ScatterDone(ids, bits, finalIds, InvalidDid, idx, added, out);
    assert values[..added] == values;
  }

  /**
   * The store after a successful append of `values` on the rows flagged in
   * `bits`, with tag ids taken from the dictionary's strings `storage`.
   */
  function Appended(data: ColumnData, values: Values, bits: seq<bool>, storage: seq<string>): (r: ColumnData)
    requires Carries(data, values)
    ensures DataLen(r) == DataLen(data) + |bits|
  {
    match data
    case F64Data(c) => F64Data(c + Scatter(bits, values.floats, 0.0))
    case I64Data(c) => I64Data(c + Scatter(bits, values.ints, 0))
    case U64Data(c) => U64Data(c + Scatter(bits, values.uints, 0))
    case StringData(c) => StringData(c + Scatter(bits, values.strings, ""))
    case BoolData(c) => BoolData(c + Scatter(bits, values.bools, false))
    case TagData(c) => TagData(c + Scatter(bits, IdsOf(storage, values.strings), InvalidDid))
  }

  /**
   * The non-tag arms of `append`: each hands its store to `handle_write`
   * with the type's default; the bool arm, which only sets the bits of
   * true values on fresh unset bits, leaves the same bits.
   */
  method WriteFieldData(data: ColumnData, values: Values, validMask: seq<bv8>, rowCount: nat)
    returns (out: ColumnData, added: nat)
    requires !data.TagData? && Carries(data, values)
    requires rowCount <= 8 * |validMask|
    requires ValuesLen(values) <= CountTrue(SetBits(validMask, rowCount))
    ensures out == Appended(data, values, SetBits(validMask, rowCount), [])
    ensures added == ValuesLen(values)
  {
    match data {
      case BoolData(col) =>
        var c;
        c, added := HandleWrite(rowCount, validMask, values.bools, col, false);
        out := BoolData(c);
      case U64Data(col) =>
        var c;
        c, added := HandleWrite(rowCount, validMask, values.uints, col, 0);
        out := U64Data(c);
      case F64Data(col) =>
        var c;
        c, added := HandleWrite(rowCount, validMask, values.floats, col, 0.0);
        out := F64Data(c);
      case I64Data(col) =>
        var c;
        c, added := HandleWrite(rowCount, validMask, values.ints, col, 0);
        out := I64Data(c);
      case StringData(col) =>
        var c;
        c, added := HandleWrite(rowCount, validMask, values.strings, col, "");
        out := StringData(c);
    }
  }

  /** An append keeps every invalid row at the type's default. */
  lemma AppendedDefaults(valid: seq<bool>, data: ColumnData, values: Values, bits: seq<bool>, storage: seq<string>)
    requires DefaultsAtNulls(valid, data) && Carries(data, values)
    ensures DefaultsAtNulls(valid + bits, Appended(data, values, bits, storage))
  {
    match data
    case F64Data(c) => NullsDefaultAppend(valid, c, bits, values.floats, 0.0);
    case I64Data(c) => NullsDefaultAppend(valid, c, bits, values.ints, 0);
    case U64Data(c) => NullsDefaultAppend(valid, c, bits, values.uints, 0);
    case StringData(c) => NullsDefaultAppend(valid, c, bits, values.strings, "");
    case BoolData(c) => NullsDefaultAppend(valid, c, bits, values.bools, false);
    case TagData(c) => NullsDefaultAppend(valid, c, bits, IdsOf(storage, values.strings), InvalidDid);
  }

  /** Appended tag ids are ids of the grown dictionary, or the invalid id. */
  lemma AppendedIds(ids: seq<int>, bits: seq<bool>, strings: seq<string>, storage: seq<string>, issued: nat)
    requires IdsIssued(ids, issued) && issued <= |storage|
    ensures IdsIssued(ids + Scatter(bits, IdsOf(storage, strings), InvalidDid), |storage|)
  {
    var out := ids + Scatter(bits, IdsOf(storage, strings), InvalidDid);
    forall i | 0 <= i < |out| ensures out[i] == InvalidDid || 0 <= out[i] < |storage| {
      if i >= |ids| {
        assert out[i] == Scatter(bits, IdsOf(storage, strings), InvalidDid)[i - |ids|];
      }
    }
  }

  /** Rows appended on unset flags hold the default. */
  lemma NullsDefaultAppend<T>(valid: seq<bool>, col: seq<T>, bits: seq<bool>, values: seq<T>, d: T)
    requires NullsDefault(valid, col, d)
    ensures NullsDefault(valid + bits, col + Scatter(bits, values, d), d)
  {
    var v := valid + bits;
    var c := col + Scatter(bits, values, d);
    forall i | 0 <= i < |v| && !v[i] ensures c[i] == d {
      if i >= |valid| {
        assert v[i] == bits[i - |valid|];
      }
    }
  }

  lemma NullsDefaultPad<T>(valid: seq<bool>, col: seq<T>, delta: nat, d: T)
    requires NullsDefault(valid, col, d)
    ensures NullsDefault(valid + seq(delta, i => false), col + seq(delta, i => d), d)
  {
  }

  /**
   * When an entry column has exactly one value per valid row, the rows the
   * column stores for it are the rows the entry reader reads: a row read
   * as a value is valid and holds that value, and a row read as null is
   * not valid.
   */
  lemma {:induction false} StoredRowsAreReadRows<T>(values: seq<T>, mask: Option<seq<bv8>>, rowCount: nat, d: T)
    requires |values| == CountTrue(ValidRows(mask, rowCount))
    ensures forall i :: 0 <= i < rowCount ==>
              ReadRows(values, mask, rowCount)[i]
              == if ValidRows(mask, rowCount)[i] then Some(Scatter(ValidRows(mask, rowCount), values, d)[i]) else None
  {
    forall i | 0 <= i < rowCount
      ensures ReadRows(values, mask, rowCount)[i]
              == if ValidRows(mask, rowCount)[i] then Some(Scatter(ValidRows(mask, rowCount), values, d)[i]) else None
    {
      StoredRowIsReadRow(values, mask, rowCount, d, i);
    }
  }

  /** One row of `StoredRowsAreReadRows`. */
  lemma StoredRowIsReadRow<T>(values: seq<T>, mask: Option<seq<bv8>>, rowCount: nat, d: T, i: nat)
    requires |values| == CountTrue(ValidRows(mask, rowCount)) && i < rowCount
    ensures ReadRows(values, mask, rowCount)[i]
            == if ValidRows(mask, rowCount)[i] then Some(Scatter(ValidRows(mask, rowCount), values, d)[i]) else None
  {
    var bits := ValidRows(mask, rowCount);
    RankAll(bits);
    RankStep(bits, i);
    RankMonotone(bits, i + 1, rowCount);
  }

  /**
   * The valid rows of a store appended with one value per valid row give
   * the appended values back, in order.
   */
  lemma AppendedReadsBack<T>(col: seq<T>, bits: seq<bool>, values: seq<T>, d: T)
    requires |values| == CountTrue(bits)
    ensures Gather(bits, (col + Scatter(bits, values, d))[|col|..]) == values
  {
    assert (col + Scatter(bits, values, d))[|col|..] == Scatter(bits, values, d);
    GatherScatter(bits, values, d);
  }

  class Column {
    const influxType: InfluxColumnType
    var valid: seq<bool>
    var data: ColumnData
    var statsCount: nat
    /** The dictionary of a tag column; the other types leave it empty. */
    const dictionary: StringDictionary

    ghost predicate Valid()
      reads this, dictionary
    {
      && Matches(influxType, data)
      && DataLen(data) == |valid|
      && DefaultsAtNulls(valid, data)
      && dictionary.Valid()
      && dictionary.maxKey == DidMax
      && (data.TagData? ==> IdsIssued(data.ids, |dictionary.storage|))
    }

    /**
     * `Column::new`: `rowCount` rows, none valid, every store row the
     * type's default.
     */
    constructor (rowCount: nat, columnType: InfluxColumnType)
      ensures Valid() && fresh(dictionary)
      ensures influxType == columnType
      ensures valid == seq(rowCount, i => false)
      ensures data == DefaultData(columnType, rowCount)
      ensures statsCount == 0 && dictionary.storage == []
    {
      influxType := columnType;
      valid := seq(rowCount, i => false);
      data := DefaultData(columnType, rowCount);
      statsCount := 0;
      dictionary := new StringDictionary(DidMax, DidBytes);
    }

    /** `len`: the number of rows, which is also the length of the store. */
    function Len(): (r: nat)
      reads this, dictionary
      requires Valid()
      ensures r == DataLen(data)
    {
      |valid|
    }

    /** `stats`: string and tag columns both report string statistics. */
    function Stats(): (r: Statistics)
      reads this
      ensures r.count == statsCount
      ensures r.StringStats? <==> data.StringData? || data.TagData?
      ensures r.BoolStats? <==> data.BoolData?
    {
      match data
      case F64Data(_) => F64Stats(statsCount)
      case I64Data(_) => I64Stats(statsCount)
      case U64Data(_) => U64Stats(statsCount)
      case BoolData(_) => BoolStats(statsCount)
      case StringData(_) => StringStats(statsCount)
      case TagData(_) => StringStats(statsCount)
    }

    /**
     * What `append` demands of an entry it goes on to write, past the type
     * and mask checks: no more values than valid rows, and room in the
     * dictionary for the new tag values.
     */
    ghost predicate AppendFits(entry: EntryColumn)
      reads this, dictionary
    {
      && ValuesLen(entry.column.values) <= CountTrue(ValidRows(entry.column.nullMask, entry.rowCount))
      && (data.TagData? && entry.column.values.StringValues? ==>
            |Interned(dictionary.storage, entry.column.values.strings)| <= dictionary.maxKey + 1)
    }

    /**
     * `append`: a type mismatch or a null mask of the wrong length is
     * refused before anything changes; an entry without rows changes
     * nothing; otherwise the validity bits of the entry are appended and
     * the k-th value lands on the k-th valid row of the new rows.
     */
    method Append(entry: EntryColumn) returns (r: Result<(), ColumnError>)
      requires Valid()
      requires InfluxType(entry.column).Some?
      requires (InfluxType(entry.column).value == influxType && entry.rowCount > 0
                && ConstructValidMask(entry.column.nullMask, entry.rowCount).Ok?) ==> AppendFits(entry)
      modifies this, dictionary
      ensures Valid()
      ensures r.Err? <==> InfluxType(entry.column).value != influxType
                          || (entry.rowCount > 0 && ConstructValidMask(entry.column.nullMask, entry.rowCount).Err?)
      ensures InfluxType(entry.column).value != influxType ==>
                r == Err(TypeMismatch(influxType, InfluxType(entry.column).value))
      ensures InfluxType(entry.column).value == influxType && entry.rowCount > 0 && r.Err? ==>
                r == Err(ConstructValidMask(entry.column.nullMask, entry.rowCount).error)
      ensures r.Err? || entry.rowCount == 0 ==>
                valid == old(valid) && data == old(data) && statsCount == old(statsCount)
                && dictionary.storage == old(dictionary.storage)
      ensures r.Ok? && entry.rowCount > 0 ==>
                && Carries(old(data), entry.column.values)
                && valid == old(valid) + ValidRows(entry.column.nullMask, entry.rowCount)
                && data == Appended(old(data), entry.column.values,
                                    ValidRows(entry.column.nullMask, entry.rowCount), dictionary.storage)
                && statsCount == old(statsCount) + ValuesLen(entry.column.values)
                && dictionary.storage == (if data.TagData? then Interned(old(dictionary.storage), entry.column.values.strings)
                                          else old(dictionary.storage))
    {
      var schema := ValidateSchema(influxType, entry);
      if schema.Err? {
        return Err(schema.error);
      }
      var rowCount := entry.rowCount;
      if rowCount == 0 {
        return Ok(());
      }
      var maskResult := ConstructValidMask(entry.column.nullMask, rowCount);
      if maskResult.Err? {
        return Err(maskResult.error);
      }
      var mask := maskResult.value;
      ghost var bits := ValidRows(entry.column.nullMask, rowCount);
      var values := entry.column.values;
      if data.TagData? {
        ghost var issued := |dictionary.storage|;
        var out, added := WriteTags(dictionary, rowCount, mask, values.strings, data.ids);
        AppendedIds(data.ids, bits, values.strings, dictionary.storage, issued);
        AppendedDefaults(valid, data, values, bits, dictionary.storage);
        data := TagData(out);
        statsCount := statsCount + added;
      } else {
        var out, added := WriteFieldData(data, values, mask, rowCount);
        AppendedDefaults(valid, data, values, bits, dictionary.storage);
        data := out;
        statsCount := statsCount + added;
      }
      valid := valid + SetBits(mask, rowCount);
      r := Ok(());
    }

    /**
     * `push_nulls_to_len`: pads the column with invalid default rows up to
     * `len`; nothing changes when it already has `len` rows. Shrinking
     * panics ("cannot shrink column"), hence the precondition.
     */
    method PushNullsToLen(len: nat)
      requires Valid()
      requires len >= |valid|
      modifies this
      ensures Valid()
      ensures |valid| == len
      ensures valid == old(valid) + seq(len - old(|valid|), i => false)
      ensures data == PadData(old(data), len - old(|valid|))
      ensures statsCount == old(statsCount)
    {
      if |valid| == len {
        assert valid + [] == valid;
        match data {
          case F64Data(c) => assert c + [] == c;
          case I64Data(c) => assert c + [] == c;
          case U64Data(c) => assert c + [] == c;
          case StringData(c) => assert c + [] == c;
          case BoolData(c) => assert c + [] == c;
          case TagData(c) => assert c + [] == c;
        }
        return;
      }
      var delta := len - |valid|;
      match data {
        case F64Data(c) => NullsDefaultPad(valid, c, delta, 0.0);
        case I64Data(c) => NullsDefaultPad(valid, c, delta, 0);
        case U64Data(c) => NullsDefaultPad(valid, c, delta, 0);
        case StringData(c) => NullsDefaultPad(valid, c, delta, "");
        case BoolData(c) => NullsDefaultPad(valid, c, delta, false);
        case TagData(c) => NullsDefaultPad(valid, c, delta, InvalidDid);
      }
      valid := valid + seq(delta, i => false);
      data := PadData(data, delta);
    }
  }
}
