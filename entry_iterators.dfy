/**
 * The readers of an entry column (internal_types/src/entry.rs): iterators
 * that walk the rows of a column, consult the null mask for each row and
 * hand out the next stored value for every row that is not null.
 */
module EntryIterators {
  import opened Wrappers
  import opened Rows
  import opened EntryNullMask
  import opened EntryColumns

  /** Which of the first `rowCount` rows carry a value according to `mask`. */
  function ValidRows(mask: Option<seq<bv8>>, rowCount: nat): (r: seq<bool>)
    ensures |r| == rowCount
    ensures forall i :: 0 <= i < rowCount ==> r[i] == !IsNullValue(i + 1, mask)
  {
    seq(rowCount, i requires 0 <= i => !IsNullValue(i + 1, mask))
  }

  /**
   * The rows a column reads as: the k-th stored value on the k-th non-null
   * row, `None` on null rows and on non-null rows left without a value.
   */
  function ReadRows<T>(values: seq<T>, mask: Option<seq<bv8>>, rowCount: nat): (r: seq<Option<T>>)
    ensures |r| == rowCount
  {
    Scatter(ValidRows(mask, rowCount), Wrap(values), None)
  }

  /** Row `p` as a reader sees it. */
  lemma ReadRowsAt<T>(values: seq<T>, mask: Option<seq<bv8>>, rowCount: nat, p: nat)
    requires p < rowCount
    ensures var k := Rank(ValidRows(mask, rowCount), p);
            ReadRows(values, mask, rowCount)[p] == if !IsNullValue(p + 1, mask) && k < |values| then Some(values[k]) else None
  {
  }

  /** Row `p` read after the rows before it: a null row leaves the rank alone, a valid one reads the next stored value. */
  lemma ReadNext<T>(values: seq<T>, mask: Option<seq<bv8>>, rowCount: nat, p: nat)
    requires p < rowCount
    ensures var bits := ValidRows(mask, rowCount);
            var k := Rank(bits, p);
            && (IsNullValue(p + 1, mask) ==> Rank(bits, p + 1) == k && ReadRows(values, mask, rowCount)[p] == None)
            && (!IsNullValue(p + 1, mask) ==>
                  && Rank(bits, p + 1) == k + 1
                  && ReadRows(values, mask, rowCount)[p] == if k < |values| then Some(values[k]) else None)
  {
    RankStep(ValidRows(mask, rowCount), p);
    ReadRowsAt(values, mask, rowCount, p);
  }

  /**
   * `ValIterator` (and `StringIterator`, which behaves identically): yields
   * one item per row until `row_count` rows have been read. The position of
   * the underlying flatbuffers vector iterator is `valuePosition`; that
   * iterator yields nothing once exhausted.
   */
  class ValIterator<T> {
    const rowCount: nat
    const nullMask: Option<seq<bv8>>
    const values: seq<T>
    var position: nat
    var valuePosition: nat

    ghost predicate Valid()
      reads this
    {
      && position <= rowCount
      && valuePosition == Min(Rank(ValidRows(nullMask, rowCount), position), |values|)
    }

    constructor(rowCount: nat, nullMask: Option<seq<bv8>>, values: seq<T>)
      ensures Valid() && position == 0
      ensures this.rowCount == rowCount && this.nullMask == nullMask && this.values == values
    {
      this.rowCount := rowCount;
      this.nullMask := nullMask;
      this.values := values;
      position := 0;
      valuePosition := 0;
    }

    /** `Iterator::next`. */
    method Next() returns (item: Option<Option<T>>)
      requires Valid()
      modifies this
      ensures Valid()
      ensures old(position) >= rowCount ==> item.None? && position == old(position)
      ensures old(position) < rowCount ==>
                item == Some(ReadRows(values, nullMask, rowCount)[old(position)]) && position == old(position) + 1
    {
      if position >= rowCount {
        return None;
      }
      ReadNext(values, nullMask, rowCount, position);
      position := position + 1;
      if IsNullValue(position, nullMask) {
        return Some(None);
      }
      if valuePosition < |values| {
        item := Some(Some(values[valuePosition]));
        valuePosition := valuePosition + 1;
      } else {
        item := Some(None);
      }
    }

    /** `Iterator::collect`: the remaining rows. */
    method Collect() returns (r: seq<Option<T>>)
      requires Valid()
      modifies this
      ensures r == ReadRows(values, nullMask, rowCount)[old(position)..]
    {
      ghost var start := position;
      ghost var rows := ReadRows(values, nullMask, rowCount);
      r := [];
      while true
        invariant Valid() && start <= position
        invariant r == rows[start..position]
        decreases rowCount - position
      {
        ghost var p := position;
        var item := Next();
        if item.None? {
          break;
        }
        SliceSnoc(rows, start, p);
        r := r + [item.value];
      }
    }
  }

  /**
   * Where `BoolIterator` stops, scanning from row `p`: at the first row
   * reached after all rows, or after as many non-null rows as there are
   * stored values.
   */
  function BoolStop(bits: seq<bool>, n: nat, p: nat): (m: nat)
    requires p <= |bits|
    ensures p <= m <= |bits|
    ensures m == |bits| || Rank(bits, m) >= n
    ensures forall q :: p <= q < m ==> Rank(bits, q) < n
    decreases |bits| - p
  {
    if p == |bits| || Rank(bits, p) >= n then p else BoolStop(bits, n, p + 1)
  }

  /** The rows `BoolIterator` yields as written: the rows read before it stops. */
  function BoolRowsAsWritten(values: seq<bool>, mask: Option<seq<bv8>>, rowCount: nat): seq<Option<bool>>
  {
    ReadRows(values, mask, rowCount)[..BoolStop(ValidRows(mask, rowCount), |values|, 0)]
  }

  /**
   * `BoolIterator` as written: besides the row count it also stops as soon
   * as every stored value has been handed out, before looking at the mask.
   */
  class BoolIterator {
    const rowCount: nat
    const nullMask: Option<seq<bv8>>
    const values: seq<bool>
    var position: nat
    var valuePosition: nat

    ghost predicate Valid()
      reads this
    {
      && position <= rowCount
      && valuePosition == Rank(ValidRows(nullMask, rowCount), position)
      && valuePosition <= |values|
      && (position > 0 ==> Rank(ValidRows(nullMask, rowCount), position - 1) < |values|)
    }

    constructor(rowCount: nat, nullMask: Option<seq<bv8>>, values: seq<bool>)
      ensures Valid() && position == 0
      ensures this.rowCount == rowCount && this.nullMask == nullMask && this.values == values
    {
      this.rowCount := rowCount;
      this.nullMask := nullMask;
      this.values := values;
      position := 0;
      valuePosition := 0;
    }

    /** `Iterator::next`. */
    method Next() returns (item: Option<Option<bool>>)
      requires Valid()
      modifies this
      ensures Valid()
      ensures item.None? <==> old(position) >= rowCount || old(valuePosition) >= |values|
      ensures item.None? ==> position == old(position)
      ensures item.Some? ==>
                item.value == ReadRows(values, nullMask, rowCount)[old(position)] && position == old(position) + 1
    {
      if position >= rowCount || valuePosition >= |values| {
        return None;
      }
      ReadNext(values, nullMask, rowCount, position);
      position := position + 1;
      if IsNullValue(position, nullMask) {
        return Some(None);
      }
      var val := Some(values[valuePosition]);
      valuePosition := valuePosition + 1;
      item := Some(val);
    }

    /** `Iterator::collect` from a fresh iterator. */
    method Collect() returns (r: seq<Option<bool>>)
      requires Valid() && position == 0
      modifies this
      ensures r == BoolRowsAsWritten(values, nullMask, rowCount)
    {
      ghost var bits := ValidRows(nullMask, rowCount);
      ghost var rows := ReadRows(values, nullMask, rowCount);
      r := [];
      while true
        invariant Valid()
        invariant r == rows[..position]
        decreases rowCount - position
      {
        ghost var p := position;
        var item := Next();
        if item.None? {
          break;
        }
        SliceSnoc(rows, 0, p);
        r := r + [item.value];
      }
      forall q | 0 <= q < position ensures Rank(bits, q) < |values| {
        RankMonotone(bits, q, position - 1);
      }
      BoolStopIsFirst(bits, |values|, position);
    }
  }

  lemma SliceSnoc<T>(s: seq<T>, i: nat, j: nat)
    requires i <= j < |s|
    ensures s[i..j + 1] == s[i..j] + [s[j]]
  {
  }

  /** The first stopping row is the only row meeting `BoolStop`'s characterisation. */
  lemma BoolStopIsFirst(bits: seq<bool>, n: nat, m: nat)
    requires m <= |bits|
    requires m == |bits| || Rank(bits, m) >= n
    requires forall q :: 0 <= q < m ==> Rank(bits, q) < n
    ensures BoolStop(bits, n, 0) == m
  {
    var s := BoolStop(bits, n, 0);
  }

  /** The payload of a column read back as rows, per value type: `TypedValuesIterator` collected. */
  datatype TypedRows =
    | BoolRows(bools: seq<Option<bool>>)
    | I64Rows(ints: seq<Option<int>>)
    | U64Rows(uints: seq<Option<nat>>)
    | F64Rows(floats: seq<Option<real>>)
    | StringRows(strings: seq<Option<string>>)

  /** `Column::values` followed by collecting the iterator it returns. */
  method ColumnValues(c: EntryColumn) returns (r: TypedRows)
    ensures r == match c.column.values
      case BoolValues(v) => BoolRows(BoolRowsAsWritten(v, c.column.nullMask, c.rowCount))
      case I64Values(v) => I64Rows(ReadRows(v, c.column.nullMask, c.rowCount))
      case U64Values(v) => U64Rows(ReadRows(v, c.column.nullMask, c.rowCount))
      case F64Values(v) => F64Rows(ReadRows(v, c.column.nullMask, c.rowCount))
      case StringValues(v) => StringRows(ReadRows(v, c.column.nullMask, c.rowCount))
  {
    match c.column.values
    case BoolValues(v) =>
      var it := new BoolIterator(c.rowCount, c.column.nullMask, v);
      var rows := it.Collect();
      r := BoolRows(rows);
    case I64Values(v) =>
      var it := new ValIterator(c.rowCount, c.column.nullMask, v);
      var rows := it.Collect();
      r := I64Rows(rows);
    case U64Values(v) =>
      var it := new ValIterator(c.rowCount, c.column.nullMask, v);
      var rows := it.Collect();
      r := U64Rows(rows);
    case F64Values(v) =>
      var it := new ValIterator(c.rowCount, c.column.nullMask, v);
      var rows := it.Collect();
      r := F64Rows(rows);
    case StringValues(v) =>
      var it := new ValIterator(c.rowCount, c.column.nullMask, v);
      var rows := it.Collect();
      r := StringRows(rows);
  }

  /** The valid rows read from the mask a builder records are the rows it did not null. */
  lemma ValidRowsOfMask(nulls: seq<bool>)
    ensures ValidRows(MaskOf(nulls), |nulls|) == Negate(nulls)
  {
    forall i | 0 <= i < |nulls| ensures ValidRows(MaskOf(nulls), |nulls|)[i] == !nulls[i] {
      if true in nulls { PackNullMaskReads(nulls, i); }
    }
  }

  /**
   * Round trip of the write and read paths: the rows a reader yields from a
   * column recorded with `nulls` and one value per non-null row are null
   * exactly where `nulls` says so, and the non-null rows hold the values in
   * order.
   */
  lemma ReadBack<T>(nulls: seq<bool>, values: seq<T>)
    requires |values| + CountTrue(nulls) == |nulls|
    ensures forall i :: 0 <= i < |nulls| ==> (ReadRows(values, MaskOf(nulls), |nulls|)[i].None? <==> nulls[i])
    ensures Gather(Negate(nulls), ReadRows(values, MaskOf(nulls), |nulls|)) == Wrap(values)
  {
    var bits := Negate(nulls);
    ValidRowsOfMask(nulls);
    CountNegate(nulls);
    assert ReadRows(values, MaskOf(nulls), |nulls|) == Scatter(bits, Wrap(values), None);
    ScatterFillsSetRows(bits, Wrap(values));
    GatherScatter(bits, Wrap(values), None);
  }

  /** With one value per set row, exactly the rows that are not set stay empty. */
  lemma ScatterFillsSetRows<T>(bits: seq<bool>, values: seq<Option<T>>)
    requires |values| == CountTrue(bits)
    requires forall k :: 0 <= k < |values| ==> values[k].Some?
    ensures forall i :: 0 <= i < |bits| ==> (Scatter(bits, values, None)[i].None? <==> !bits[i])
  {
    forall i | 0 <= i < |bits| ensures Scatter(bits, values, None)[i].None? <==> !bits[i] {
      if bits[i] { EnoughValues(bits, |values|, i); }
    }
  }

  /**
   * The stored values of a batch column, each as the push that wrote it,
   * as its logical type and payload tell; none for a combination no
   * builder records.
   */
  function BatchRawValues(c: BatchColumn): seq<RawValue>
  {
    match (c.logicalType, c.values)
    case (TagColumn, StringValues(v)) => seq(|v|, k requires 0 <= k < |v| => TagValue(v[k]))
    case (TimeColumn, I64Values(v)) => seq(|v|, k requires 0 <= k < |v| => TimeValue(v[k]))
    case (FieldColumn, StringValues(v)) => seq(|v|, k requires 0 <= k < |v| => StringValue(v[k]))
    case (FieldColumn, I64Values(v)) => seq(|v|, k requires 0 <= k < |v| => I64Value(v[k]))
    case (FieldColumn, U64Values(v)) => seq(|v|, k requires 0 <= k < |v| => U64Value(v[k]))
    case (FieldColumn, F64Values(v)) => seq(|v|, k requires 0 <= k < |v| => F64Value(v[k]))
    case (FieldColumn, BoolValues(v)) => seq(|v|, k requires 0 <= k < |v| => BoolValue(v[k]))
    case _ => []
  }

  /** The rows a reader yields from a batch column of `rowCount` rows, each value as the push that wrote it. */
  function ColumnCells(c: BatchColumn, rowCount: nat): (r: seq<Option<RawValue>>)
    ensures |r| == rowCount
  {
    ReadRows(BatchRawValues(c), c.nullMask, rowCount)
  }

  /** A column recorded from a builder reads back as the builder's rows. */
  lemma RecordedCells(name: string, b: ColumnBuilder)
    ensures ColumnCells(ToBatchColumn(name, b), |b.nulls|) == Cells(b)
  {
    var c := ToBatchColumn(name, b);
    RecordedValues(name, b);
    assert c.nullMask == MaskOf(b.nulls);
    ValidRowsOfMask(b.nulls);
    calc {
      ColumnCells(c, |b.nulls|);
      ReadRows(RawValues(b.values), MaskOf(b.nulls), |b.nulls|);
      Scatter(Negate(b.nulls), Wrap(RawValues(b.values)), None);
    }
  }

  lemma RecordedValues(name: string, b: ColumnBuilder)
    ensures BatchRawValues(ToBatchColumn(name, b)) == RawValues(b.values)
    ensures ToBatchColumn(name, b).nullMask == MaskOf(b.nulls)
  {
    match b.values
    case RawTag(v) =>
    case RawTime(v) =>
    case RawI64(v) =>
    case RawF64(v) =>
    case RawU64(v) =>
    case RawString(v) =>
    case RawBool(v) =>
  }

  /**
   * Corrected `BoolIterator`: reading booleans the way the other value
   * types are read yields one item per row, the trailing nulls included.
   */
  lemma BoolReadBack(nulls: seq<bool>, values: seq<bool>)
    requires |values| + CountTrue(nulls) == |nulls|
    ensures |ReadRows(values, MaskOf(nulls), |nulls|)| == |nulls|
    ensures forall i :: 0 <= i < |nulls| ==> (ReadRows(values, MaskOf(nulls), |nulls|)[i].None? <==> nulls[i])
  {
    ReadBack(nulls, values);
  }

  /**
   * `BoolIterator` as written drops trailing null rows: a column whose first
   * row holds `true` and whose second row is null reads as one row.
   */
  lemma BoolIteratorDropsTrailingNull()
    ensures MaskOf([false, true]) == Some([64])
    ensures BoolRowsAsWritten([true], Some([64]), 2) == [Some(true)]
    ensures ReadRows([true], Some([64]), 2) == [Some(true), None]
  {
    var mask: Option<seq<bv8>> := Some([64]);
    var bits := ValidRows(mask, 2);
    assert PackByte([false, true], 0) == 64;
    assert PackNullMask([false, true]) == [64];
    assert !IsNullValue(1, mask) && IsNullValue(2, mask);
    assert bits == [true, false];
    assert Rank(bits, 0) == 0 && Rank(bits, 1) == 1 by {
      assert bits[..0] == [] && bits[..1] == [true];
      assert [true][..0] == [];
    }
    BoolStopIsFirst(bits, 1, 1);
  }
}
