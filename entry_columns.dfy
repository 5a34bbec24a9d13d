/**
 * The column side of an entry (internal_types/src/entry.rs): the
 * type-checked `ColumnBuilder` that collects one column of a table batch,
 * the column records a batch carries (name, logical type, values, null
 * mask), and `TableBatch::row_count`.
 */
module EntryColumns {
  import opened Wrappers
  import opened Rows
  import opened EntryNullMask

  /** The values collected for one column, by raw type (`ColumnRaw`). */
  datatype ColumnRaw =
    | RawTag(tags: seq<string>)
    | RawTime(times: seq<int>)
    | RawI64(ints: seq<int>)
    | RawF64(floats: seq<real>)
    | RawU64(uints: seq<nat>)
    | RawString(strings: seq<string>)
    | RawBool(bools: seq<bool>)

  /** One value offered to a builder; each constructor is one `push_*` method. */
  datatype RawValue =
    | TagValue(tag: string)
    | StringValue(s: string)
    | TimeValue(time: int)
    | BoolValue(b: bool)
    | U64Value(u: nat)
    | F64Value(f: real)
    | I64Value(i: int)

  datatype ColumnError = ColumnTypeMismatch(newType: string, expectedType: string)

  /**
   * A column builder. `nulls` is the sequence of flags pushed into its
   * `NullMaskBuilder`, whose packed bytes are `PackNullMask(nulls)`.
   */
  datatype ColumnBuilder = ColumnBuilder(nulls: seq<bool>, values: ColumnRaw)

  function ValueCount(raw: ColumnRaw): nat
  {
    match raw
    case RawTag(v) => |v|
    case RawTime(v) => |v|
    case RawI64(v) => |v|
    case RawF64(v) => |v|
    case RawU64(v) => |v|
    case RawString(v) => |v|
    case RawBool(v) => |v|
  }

  /** The builder's row count, `NullMaskBuilder::row_count`. */
  function RowCountOf(b: ColumnBuilder): nat { |b.nulls| }

  /** Every row is either null or holds the next stored value. */
  predicate Consistent(b: ColumnBuilder)
  {
    ValueCount(b.values) + CountTrue(b.nulls) == |b.nulls|
  }

  /** The seven `new_*_column` constructors: no rows. */
  function NewBuilder(v: RawValue): (b: ColumnBuilder)
    ensures b.nulls == [] && ValueCount(b.values) == 0 && Consistent(b)
    ensures SameKind(b.values, v)
  {
    var raw := match v
      case TagValue(_) => RawTag([])
      case StringValue(_) => RawString([])
      case TimeValue(_) => RawTime([])
      case BoolValue(_) => RawBool([])
      case U64Value(_) => RawU64([])
      case F64Value(_) => RawF64([])
      case I64Value(_) => RawI64([]);
    ColumnBuilder([], raw)
  }

  /** `type_description`. */
  function TypeDescription(raw: ColumnRaw): string
  {
    match raw
    case RawString(_) => "string"
    case RawI64(_) => "i64"
    case RawF64(_) => "f64"
    case RawU64(_) => "u64"
    case RawTime(_) => "time"
    case RawTag(_) => "tag"
    case RawBool(_) => "bool"
  }

  /** The `new_type` each `push_*` method reports on a mismatch. */
  function NewTypeName(v: RawValue): string
  {
    match v
    case TagValue(_) => "tag"
    case StringValue(_) => "string"
    case TimeValue(_) => "time"
    case BoolValue(_) => "bool"
    case U64Value(_) => "u64"
    case F64Value(_) => "f64"
    case I64Value(_) => "i64"
  }

  predicate SameKind(raw: ColumnRaw, v: RawValue)
  {
    match (raw, v)
    case (RawTag(_), TagValue(_)) => true
    case (RawString(_), StringValue(_)) => true
    case (RawTime(_), TimeValue(_)) => true
    case (RawBool(_), BoolValue(_)) => true
    case (RawU64(_), U64Value(_)) => true
    case (RawF64(_), F64Value(_)) => true
    case (RawI64(_), I64Value(_)) => true
    case _ => false
  }

  /**
   * The names in mismatch errors tell the seven raw types apart, and a
   * builder's own description is the name its own `push_*` uses.
   */
  lemma TypeNamesAgree(raw: ColumnRaw, v: RawValue)
    ensures SameKind(raw, v) <==> TypeDescription(raw) == NewTypeName(v)
  {
  }

  /** The builder's values with `v` appended. */
  function AppendValue(raw: ColumnRaw, v: RawValue): ColumnRaw
    requires SameKind(raw, v)
  {
    match (raw, v)
    case (RawTag(xs), TagValue(x)) => RawTag(xs + [x])
    case (RawString(xs), StringValue(x)) => RawString(xs + [x])
    case (RawTime(xs), TimeValue(x)) => RawTime(xs + [x])
    case (RawBool(xs), BoolValue(x)) => RawBool(xs + [x])
    case (RawU64(xs), U64Value(x)) => RawU64(xs + [x])
    case (RawF64(xs), F64Value(x)) => RawF64(xs + [x])
    case (RawI64(xs), I64Value(x)) => RawI64(xs + [x])
  }

  /** The values a builder stores, each as the push that stored it. */
  function RawValues(raw: ColumnRaw): (r: seq<RawValue>)
    ensures |r| == ValueCount(raw)
    ensures forall k :: 0 <= k < |r| ==> SameKind(raw, r[k])
  {
    match raw
    case RawTag(v) => seq(|v|, k requires 0 <= k < |v| => TagValue(v[k]))
    case RawTime(v) => seq(|v|, k requires 0 <= k < |v| => TimeValue(v[k]))
    case RawI64(v) => seq(|v|, k requires 0 <= k < |v| => I64Value(v[k]))
    case RawF64(v) => seq(|v|, k requires 0 <= k < |v| => F64Value(v[k]))
    case RawU64(v) => seq(|v|, k requires 0 <= k < |v| => U64Value(v[k]))
    case RawString(v) => seq(|v|, k requires 0 <= k < |v| => StringValue(v[k]))
    case RawBool(v) => seq(|v|, k requires 0 <= k < |v| => BoolValue(v[k]))
  }

  /** The rows of a builder: nothing on a null row, the next stored value on every other row. */
  function Cells(b: ColumnBuilder): (r: seq<Option<RawValue>>)
    ensures |r| == |b.nulls|
  {
    Scatter(Negate(b.nulls), Wrap(RawValues(b.values)), None)
  }

  /** `n` null rows. */
  function NoCells(n: nat): (r: seq<Option<RawValue>>)
    ensures |r| == n && forall i :: 0 <= i < n ==> r[i].None?
  {
    seq(n, _ => None)
  }

  /**
   * `push_tag`, `push_string`, `push_time`, `push_bool`, `push_u64`,
   * `push_f64` and `push_i64`: a value of the builder's own type is stored
   * with a non-null flag; any other type fails naming both types and
   * leaves the builder as it was.
   */
  function Push(b: ColumnBuilder, v: RawValue): (r: Result<ColumnBuilder, ColumnError>)
    ensures r.Ok? <==> SameKind(b.values, v)
    ensures r.Ok? ==> (r.value.nulls == b.nulls + [false]
                       && RawValues(r.value.values) == RawValues(b.values) + [v]
                       && SameKind(r.value.values, v))
    ensures r.Ok? && Consistent(b) ==> Consistent(r.value)
    ensures r.Err? ==> (r.error == ColumnTypeMismatch(NewTypeName(v), TypeDescription(b.values))
                        && r.error.newType != r.error.expectedType)
  {
    if SameKind(b.values, v) then
      assert b.nulls + [false] == (b.nulls + [false])[..|b.nulls|] + [false];
      assert (b.nulls + [false])[..|b.nulls|] == b.nulls;
      var pushed := ColumnBuilder(b.nulls + [false], AppendValue(b.values, v));
      assert RawValues(pushed.values) == RawValues(b.values) + [v];
      Ok(pushed)
    else
      TypeNamesAgree(b.values, v);
      Err(ColumnTypeMismatch(NewTypeName(v), TypeDescription(b.values)))
  }

  /** A successful push adds a row holding `v`. */
  lemma CellsPush(b: ColumnBuilder, v: RawValue)
    requires Consistent(b) && SameKind(b.values, v)
    ensures Cells(Push(b, v).value) == Cells(b) + [Some(v)]
  {
    var pushed := Push(b, v).value;
    CountNegate(b.nulls);
    assert Negate(pushed.nulls) == Negate(b.nulls) + [true];
    assert Wrap(RawValues(pushed.values)) == Wrap(RawValues(b.values)) + [Some(v)];
    ScatterSnoc(Negate(b.nulls), Wrap(RawValues(b.values)), true, [Some(v)], None);
  }

  /** A string field cannot go into a tag column, nor a float into an integer column. */
  lemma KindConflicts(nulls: seq<bool>, tags: seq<string>, ints: seq<int>, s: string, f: real)
    ensures Push(ColumnBuilder(nulls, RawTag(tags)), StringValue(s)) == Err(ColumnTypeMismatch("string", "tag"))
    ensures Push(ColumnBuilder(nulls, RawI64(ints)), F64Value(f)) == Err(ColumnTypeMismatch("f64", "i64"))
  {
  }

  /**
   * `null_to_row`: pushes null flags until the builder has at least
   * `rowNumber - 1` rows; values and existing rows are untouched.
   */
  method NullToRow(b: ColumnBuilder, rowNumber: nat) returns (r: ColumnBuilder)
    requires rowNumber >= 1
    ensures r.values == b.values
    ensures |r.nulls| == if |b.nulls| < rowNumber - 1 then rowNumber - 1 else |b.nulls|
    ensures r.nulls[..|b.nulls|] == b.nulls
    ensures forall i :: |b.nulls| <= i < |r.nulls| ==> r.nulls[i]
    ensures Consistent(b) ==> Consistent(r)
    ensures Consistent(b) ==> Cells(r) == Cells(b) + NoCells(|r.nulls| - |b.nulls|)
  {
    var nulls := b.nulls;
    var rowCount := |nulls|;
    while rowCount < rowNumber - 1
      invariant rowCount == |nulls| >= |b.nulls|
      invariant rowCount <= if |b.nulls| < rowNumber - 1 then rowNumber - 1 else |b.nulls|
      invariant nulls[..|b.nulls|] == b.nulls
      invariant forall i :: |b.nulls| <= i < |nulls| ==> nulls[i]
      invariant CountTrue(nulls) == CountTrue(b.nulls) + (|nulls| - |b.nulls|)
    {
      assert (nulls + [true])[..|nulls|] == nulls;
      nulls := nulls + [true];
      rowCount := rowCount + 1;
    }
    r := ColumnBuilder(nulls, b.values);
    if Consistent(b) {
      CellsPadded(b, r);
    }
  }

  /** Null rows appended to a builder read as empty rows after the ones it had. */
  lemma CellsPadded(b: ColumnBuilder, r: ColumnBuilder)
    requires Consistent(b) && r.values == b.values && |b.nulls| <= |r.nulls| && r.nulls[..|b.nulls|] == b.nulls
    requires forall i :: |b.nulls| <= i < |r.nulls| ==> r.nulls[i]
    ensures Cells(r) == Cells(b) + NoCells(|r.nulls| - |b.nulls|)
  {
    var n := |r.nulls| - |b.nulls|;
    assert Negate(r.nulls) == Negate(b.nulls) + seq(n, _ => false);
    CountNegate(b.nulls);
    ScatterPad(Negate(b.nulls), n, Wrap(RawValues(b.values)), None);
  }

  /** How a batch column is to be read: `entry_fb::LogicalColumnType`. */
  datatype LogicalType = TagColumn | FieldColumn | TimeColumn

  /** The payload of a batch column: the `ColumnValues` union. */
  datatype Values =
    | BoolValues(bools: seq<bool>)
    | I64Values(ints: seq<int>)
    | U64Values(uints: seq<nat>)
    | F64Values(floats: seq<real>)
    | StringValues(strings: seq<string>)

  function ValuesLen(v: Values): nat
  {
    match v
    case BoolValues(x) => |x|
    case I64Values(x) => |x|
    case U64Values(x) => |x|
    case F64Values(x) => |x|
    case StringValues(x) => |x|
  }

  /** One column of a table batch as the flatbuffer records it. */
  datatype BatchColumn = BatchColumn(name: string, logicalType: LogicalType, values: Values, nullMask: Option<seq<bv8>>)

  /** A table batch: its table name and its columns in name order. */
  datatype TableBatch = TableBatch(name: string, columns: seq<BatchColumn>)

  /**
   * The column `ColumnBuilder::build_flatbuffer` records: the mask is
   * written only when some row is null.
   */
  function ToBatchColumn(name: string, b: ColumnBuilder): (c: BatchColumn)
    ensures c.name == name
    ensures ValuesLen(c.values) == ValueCount(b.values)
    ensures c.nullMask.Some? <==> true in b.nulls
  {
    var mask := MaskOf(b.nulls);
    match b.values
    case RawTag(v) => BatchColumn(name, TagColumn, StringValues(v), mask)
    case RawString(v) => BatchColumn(name, FieldColumn, StringValues(v), mask)
    case RawTime(v) => BatchColumn(name, TimeColumn, I64Values(v), mask)
    case RawI64(v) => BatchColumn(name, FieldColumn, I64Values(v), mask)
    case RawBool(v) => BatchColumn(name, FieldColumn, BoolValues(v), mask)
    case RawF64(v) => BatchColumn(name, FieldColumn, F64Values(v), mask)
    case RawU64(v) => BatchColumn(name, FieldColumn, U64Values(v), mask)
  }

  /** The null mask a builder records: present only when some row is null. */
  function MaskOf(nulls: seq<bool>): (m: Option<seq<bv8>>)
    ensures m.Some? <==> true in nulls
  {
    if true in nulls then Some(PackNullMask(nulls)) else None
  }

  /** The rows a column accounts for: its values plus the set bits of its mask. */
  function ColumnRows(c: BatchColumn): nat
  {
    ValuesLen(c.values) + (match c.nullMask case None => 0 case Some(m) => CountOnes(m))
  }

  /** A column recorded from a consistent builder accounts for exactly its rows. */
  lemma ColumnRowsOfBuilder(name: string, b: ColumnBuilder)
    requires Consistent(b)
    ensures ColumnRows(ToBatchColumn(name, b)) == RowCountOf(b)
  {
    CountOnesPack(b.nulls);
    if true !in b.nulls { NoTrueCount(b.nulls); }
  }

  /**
   * `TableBatch::row_count`: the rows the first column accounts for; zero
   * for a batch without columns.
   */
  function RowCount(batch: TableBatch): nat
  {
    if batch.columns == [] then 0 else ColumnRows(batch.columns[0])
  }

  /**
   * The row count read back from a batch whose first column was recorded
   * from a consistent builder is that builder's row count.
   */
  lemma RowCountOfBuilder(name: string, table: string, b: ColumnBuilder, rest: seq<BatchColumn>)
    requires Consistent(b)
    ensures RowCount(TableBatch(table, [ToBatchColumn(name, b)] + rest)) == RowCountOf(b)
  {
    ColumnRowsOfBuilder(name, b);
  }

  lemma {:induction false} NoTrueCount(bits: seq<bool>)
    requires true !in bits
    ensures CountTrue(bits) == 0
  {
    if bits != [] { NoTrueCount(bits[..|bits| - 1]); }
  }

  /** The schema type of a column as the mutable buffer sees it. */
  datatype InfluxFieldType = Float | Integer | UInteger | StringField | Boolean
  datatype InfluxColumnType = Tag | Field(fieldType: InfluxFieldType) | Timestamp

  /**
   * The influx type of a batch column, from its logical type and payload;
   * `None` for a combination no builder produces.
   */
  function InfluxType(c: BatchColumn): Option<InfluxColumnType>
  {
    match (c.logicalType, c.values)
    case (TagColumn, StringValues(_)) => Some(Tag)
    case (TimeColumn, I64Values(_)) => Some(Timestamp)
    case (FieldColumn, StringValues(_)) => Some(Field(StringField))
    case (FieldColumn, I64Values(_)) => Some(Field(Integer))
    case (FieldColumn, U64Values(_)) => Some(Field(UInteger))
    case (FieldColumn, F64Values(_)) => Some(Field(Float))
    case (FieldColumn, BoolValues(_)) => Some(Field(Boolean))
    case _ => None
  }

  /** Every column a builder records has an influx type. */
  lemma BuiltColumnsAreTyped(name: string, b: ColumnBuilder)
    ensures InfluxType(ToBatchColumn(name, b)).Some?
  {
  }

  /** `entry::Column`: a batch column together with its batch's row count. */
  datatype EntryColumn = EntryColumn(column: BatchColumn, rowCount: nat)

  /** `TableBatch::columns`. */
  function Columns(batch: TableBatch): (r: seq<EntryColumn>)
    ensures |r| == |batch.columns|
    ensures forall i :: 0 <= i < |r| ==> r[i] == EntryColumn(batch.columns[i], RowCount(batch))
  {
    seq(|batch.columns|, i requires 0 <= i < |batch.columns| => EntryColumn(batch.columns[i], RowCount(batch)))
  }
}
