/**
 * Building table write batches from parsed line protocol
 * (internal_types/src/entry.rs, `build_table_write_batch`): one column
 * builder per column name, each line adding one row to every column, the
 * columns a line does not mention being null on that row, and every line
 * getting a timestamp.
 */
module EntryBatches {
  import opened Wrappers
  import opened Orders
  import opened SortedMaps
  import opened Rows
  import opened EntryColumns
  import opened EntryIterators

  const TimeColumnName: string := "time"

  /** A field value of a parsed line. */
  datatype FieldValue = Boolean(b: bool) | U64(u: nat) | F64(f: real) | I64(i: int) | Str(s: string)

  /** A parsed line of line protocol: measurement, tag set, field set and optional timestamp. */
  datatype ParsedLine = ParsedLine(
    measurement: string,
    tagSet: Option<seq<(string, string)>>,
    fieldSet: seq<(string, FieldValue)>,
    timestamp: Option<int>)

  /** An error reported by a sharder or a partitioner. */
  datatype DataError = DataError(message: string)

  datatype Error =
    | GeneratingPartitionKey(source: DataError)
    | GeneratingShardId(source: DataError)
    | TableColumnTypeMismatch(table: string, column: string, lineNumber: nat, columnError: ColumnError)

  /** The `push_*` call a field value selects. */
  function FieldRaw(v: FieldValue): (r: RawValue)
    ensures !r.TimeValue? && !r.TagValue?
  {
    match v
    case Boolean(b) => BoolValue(b)
    case U64(u) => U64Value(u)
    case F64(f) => F64Value(f)
    case I64(i) => I64Value(i)
    case Str(s) => StringValue(s)
  }

  function Tags(line: ParsedLine): seq<(string, string)>
  {
    match line.tagSet
    case None => []
    case Some(ts) => ts
  }

  /** The columns a line writes and the values it writes, tags first, each set in its own order. */
  function LineValues(line: ParsedLine): (r: seq<(string, RawValue)>)
    ensures forall k :: 0 <= k < |r| ==> !r[k].1.TimeValue?
  {
    var tags := Tags(line);
    seq(|tags|, i requires 0 <= i < |tags| => (tags[i].0, TagValue(tags[i].1))) +
    seq(|line.fieldSet|, i requires 0 <= i < |line.fieldSet| => (line.fieldSet[i].0, FieldRaw(line.fieldSet[i].1)))
  }

  /** The column names among the first `n` pairs. */
  function KeysOf(vals: seq<(string, RawValue)>, n: nat): set<string>
    requires n <= |vals|
  {
    set k | 0 <= k < n :: vals[k].0
  }

  /** One more pair adds its name to the names seen; with distinct names, a name not seen before. */
  lemma KeysOfStep(vals: seq<(string, RawValue)>, j: nat)
    requires j < |vals|
    ensures KeysOf(vals, j + 1) == KeysOf(vals, j) + {vals[j].0}
    ensures DistinctKeys(vals) ==> vals[j].0 !in KeysOf(vals, j)
  {
    forall x | x in KeysOf(vals, j + 1)
      ensures x in KeysOf(vals, j) + {vals[j].0}
    {
      var k :| 0 <= k < j + 1 && vals[k].0 == x;
      if k < j { assert x in KeysOf(vals, j); }
    }
    assert vals[j].0 in KeysOf(vals, j + 1);
  }

  predicate DistinctKeys(vals: seq<(string, RawValue)>)
  {
    forall a, b :: 0 <= a < b < |vals| ==> vals[a].0 != vals[b].0
  }

  /** No line names a column twice. */
  predicate WellKeyed(lines: seq<ParsedLine>)
  {
    forall l :: l in lines ==> DistinctKeys(LineValues(l))
  }

  /** The timestamp a line is written with. */
  function LineTime(line: ParsedLine, defaultTime: int): int
  {
    match line.timestamp
    case None => defaultTime
    case Some(t) => t
  }

  function Times(lines: seq<ParsedLine>, defaultTime: int): (r: seq<int>)
    ensures |r| == |lines| && forall i :: 0 <= i < |lines| ==> r[i] == LineTime(lines[i], defaultTime)
  {
    seq(|lines|, i requires 0 <= i < |lines| => LineTime(lines[i], defaultTime))
  }

  /** The time column's builder after `lines`: no null rows, one timestamp per line. */
  function TimeBuilder(lines: seq<ParsedLine>, defaultTime: int): ColumnBuilder
  {
    ColumnBuilder(seq(|lines|, _ => false), RawTime(Times(lines, defaultTime)))
  }

  /** The time column a batch of `lines` records. */
  function TimeBatchColumn(lines: seq<ParsedLine>, defaultTime: int): BatchColumn
  {
    BatchColumn(TimeColumnName, TimeColumn, I64Values(Times(lines, defaultTime)), None)
  }

  function Max(a: nat, b: nat): nat { if a < b then b else a }

  /** The value of a pair named `key`, the first one if there are several. */
  function FindValue(vals: seq<(string, RawValue)>, key: string): (r: Option<RawValue>)
    ensures r.None? ==> forall k :: 0 <= k < |vals| ==> vals[k].0 != key
    ensures r.Some? ==> exists k :: 0 <= k < |vals| && vals[k] == (key, r.value)
  {
    if vals == [] then None
    else if vals[0].0 == key then Some(vals[0].1)
    else
      var r := FindValue(vals[1..], key);
      assert forall k :: 0 <= k < |vals| - 1 ==> vals[1..][k] == vals[k + 1];
      r
  }

  /** With distinct names, the value found under a name is the one paired with it. */
  lemma FindDistinct(vals: seq<(string, RawValue)>, j: nat)
    requires DistinctKeys(vals) && j < |vals|
    ensures FindValue(vals, vals[j].0) == Some(vals[j].1)
  {
  }

  lemma FindAbsent(vals: seq<(string, RawValue)>, key: string)
    requires key !in KeysOf(vals, |vals|)
    ensures FindValue(vals, key) == None
  {
  }

  /** What a line writes to column `key`: its timestamp for `time`, otherwise its tag or field of that name, if any. */
  function LineCell(line: ParsedLine, key: string, defaultTime: int): Option<RawValue>
  {
    if key == TimeColumnName then Some(TimeValue(LineTime(line, defaultTime)))
    else FindValue(LineValues(line), key)
  }

  /** Column `key` as the lines write it, one row per line. */
  function ColumnOf(lines: seq<ParsedLine>, key: string, defaultTime: int): (r: seq<Option<RawValue>>)
    ensures |r| == |lines| && forall m :: 0 <= m < |lines| ==> r[m] == LineCell(lines[m], key, defaultTime)
  {
    seq(|lines|, m requires 0 <= m < |lines| => LineCell(lines[m], key, defaultTime))
  }

  lemma ColumnOfStep(lines: seq<ParsedLine>, i: nat, key: string, defaultTime: int)
    requires i < |lines|
    ensures ColumnOf(lines[..i + 1], key, defaultTime) == ColumnOf(lines[..i], key, defaultTime) + [LineCell(lines[i], key, defaultTime)]
  {
  }

  /** Every (column, value) push a line makes, in order: its tags, its fields, then its timestamp into `time`. */
  function LinePushes(line: ParsedLine, defaultTime: int): seq<(string, RawValue)>
  {
    LineValues(line) + [(TimeColumnName, TimeValue(LineTime(line, defaultTime)))]
  }

  /** Every push the lines make, line after line. */
  function Pushes(lines: seq<ParsedLine>, defaultTime: int): seq<(string, RawValue)>
  {
    if lines == [] then [] else Pushes(lines[..|lines| - 1], defaultTime) + LinePushes(lines[|lines| - 1], defaultTime)
  }

  lemma PushesStep(lines: seq<ParsedLine>, i: nat, defaultTime: int)
    requires i < |lines|
    ensures Pushes(lines[..i + 1], defaultTime) == Pushes(lines[..i], defaultTime) + LinePushes(lines[i], defaultTime)
  {
    assert lines[..i + 1][..i] == lines[..i];
  }

  /** The pushes of the first `m` lines begin the pushes of all of them. */
  lemma {:induction false} PushesPrefix(lines: seq<ParsedLine>, m: nat, defaultTime: int)
    requires m <= |lines|
    ensures |Pushes(lines[..m], defaultTime)| <= |Pushes(lines, defaultTime)|
    ensures Pushes(lines[..m], defaultTime) == Pushes(lines, defaultTime)[..|Pushes(lines[..m], defaultTime)|]
    decreases |lines|
  {
    if m == |lines| {
      assert lines[..m] == lines;
    } else {
      var n := |lines| - 1;
      PushesPrefix(lines[..n], m, defaultTime);
      assert lines[..n][..m] == lines[..m];
    }
  }

  /** No column is given values of two types. */
  predicate Uniform(ps: seq<(string, RawValue)>)
  {
    forall a, b :: 0 <= a < b < |ps| && ps[a].0 == ps[b].0 ==> NewTypeName(ps[a].1) == NewTypeName(ps[b].1)
  }

  /**
   * Push `q` is the first to give `column` a second type: the pushes before
   * it agree, it has type `e.newType`, and an earlier push of the column
   * had type `e.expectedType`.
   */
  ghost predicate FirstClashAt(ps: seq<(string, RawValue)>, q: nat, column: string, e: ColumnError)
  {
    && q < |ps| && Uniform(ps[..q])
    && ps[q].0 == column && NewTypeName(ps[q].1) == e.newType && e.newType != e.expectedType
    && exists p :: 0 <= p < q && ps[p].0 == column && NewTypeName(ps[p].1) == e.expectedType
  }

  /** Some push from `lo` on is the first clash, naming `column` and the two types of `e`. */
  ghost predicate ClashFrom(ps: seq<(string, RawValue)>, lo: nat, column: string, e: ColumnError)
  {
    exists q :: lo <= q < |ps| && FirstClashAt(ps, q, column, e)
  }

  lemma ClashExtends(ps: seq<(string, RawValue)>, more: seq<(string, RawValue)>, q: nat, column: string, e: ColumnError)
    requires FirstClashAt(ps, q, column, e)
    ensures FirstClashAt(ps + more, q, column, e)
  {
    var p :| 0 <= p < q && ps[p].0 == column && NewTypeName(ps[p].1) == e.expectedType;
    assert (ps + more)[p] == ps[p];
    assert (ps + more)[..q] == ps[..q];
  }

  /** Once the pushes of some lines disagree, so do the pushes of all of them. */
  lemma NotUniformOnward(lines: seq<ParsedLine>, m: nat, defaultTime: int)
    requires m <= |lines| && !Uniform(Pushes(lines[..m], defaultTime))
    ensures !Uniform(Pushes(lines, defaultTime))
  {
    PushesPrefix(lines, m, defaultTime);
    var ps := Pushes(lines[..m], defaultTime);
    var a, b :| 0 <= a < b < |ps| && ps[a].0 == ps[b].0 && NewTypeName(ps[a].1) != NewTypeName(ps[b].1);
    assert Pushes(lines, defaultTime)[a] == ps[a] && Pushes(lines, defaultTime)[b] == ps[b];
  }

  /** Every tag and field name the lines use. */
  function ValueNames(lines: seq<ParsedLine>): set<string>
  {
    set m, k | 0 <= m < |lines| && 0 <= k < |LineValues(lines[m])| :: LineValues(lines[m])[k].0
  }

  /** The names the lines use: every tag and field name, and `time` once there is a line. */
  function ColumnNames(lines: seq<ParsedLine>): set<string>
  {
    ValueNames(lines) + (if lines == [] then {} else {TimeColumnName})
  }

  lemma ValueNamesStep(lines: seq<ParsedLine>)
    requires lines != []
    ensures var vals := LineValues(lines[|lines| - 1]);
            ValueNames(lines) == ValueNames(lines[..|lines| - 1]) + KeysOf(vals, |vals|)
  {
    var n := |lines| - 1;
    var prefix := lines[..n];
    var vals := LineValues(lines[n]);
    forall x | x in ValueNames(lines) ensures x in ValueNames(prefix) + KeysOf(vals, |vals|) {
      var m, k :| 0 <= m < |lines| && 0 <= k < |LineValues(lines[m])| && LineValues(lines[m])[k].0 == x;
      if m < n { assert prefix[m] == lines[m]; } else { assert vals[k].0 == x; }
    }
    forall x | x in ValueNames(prefix) + KeysOf(vals, |vals|) ensures x in ValueNames(lines) {
      if x in ValueNames(prefix) {
        var m, k :| 0 <= m < |prefix| && 0 <= k < |LineValues(prefix[m])| && LineValues(prefix[m])[k].0 == x;
        assert prefix[m] == lines[m];
      } else {
        var k :| 0 <= k < |vals| && vals[k].0 == x;
        assert LineValues(lines[n])[k].0 == x;
      }
    }
  }

  lemma KeysOfConcat(xs: seq<(string, RawValue)>, ys: seq<(string, RawValue)>)
    ensures KeysOf(xs + ys, |xs + ys|) == KeysOf(xs, |xs|) + KeysOf(ys, |ys|)
  {
    forall x | x in KeysOf(xs, |xs|) ensures x in KeysOf(xs + ys, |xs + ys|) {
      var k :| 0 <= k < |xs| && xs[k].0 == x;
      assert (xs + ys)[k] == xs[k];
    }
    forall x | x in KeysOf(ys, |ys|) ensures x in KeysOf(xs + ys, |xs + ys|) {
      var k :| 0 <= k < |ys| && ys[k].0 == x;
      assert (xs + ys)[|xs| + k] == ys[k];
    }
    forall x | x in KeysOf(xs + ys, |xs + ys|) ensures x in KeysOf(xs, |xs|) + KeysOf(ys, |ys|) {
      var k :| 0 <= k < |xs + ys| && (xs + ys)[k].0 == x;
      if k < |xs| { assert xs[k].0 == x; } else { assert ys[k - |xs|].0 == x; }
    }
  }

  /** The names pushed are the lines' tag and field names, plus `time`. */
  lemma {:induction false} NamesOfPushes(lines: seq<ParsedLine>, defaultTime: int)
    ensures KeysOf(Pushes(lines, defaultTime), |Pushes(lines, defaultTime)|) == ColumnNames(lines)
    decreases |lines|
  {
    if lines != [] {
      var n := |lines| - 1;
      var prefix := lines[..n];
      var vals := LineValues(lines[n]);
      NamesOfPushes(prefix, defaultTime);
      KeysOfConcat(Pushes(prefix, defaultTime), LinePushes(lines[n], defaultTime));
      var timePush := [(TimeColumnName, TimeValue(LineTime(lines[n], defaultTime)))];
      KeysOfConcat(vals, timePush);
      assert timePush[0].0 == TimeColumnName;
      assert KeysOf(timePush, 1) == {TimeColumnName};
      ValueNamesStep(lines);
    }
  }

  type Builders = Entries<string, ColumnBuilder>

  /** The rows the builder of `key` has, zero if there is none yet. */
  function Prior(columns: Builders, key: string): nat
  {
    match Get(columns, key)
    case None => 0
    case Some(b) => |b.nulls|
  }

  /** Sorted by name, every builder consistent and at least `rows` rows long. */
  ghost predicate WellFormed(columns: Builders, rows: nat)
  {
    && Sorted(StrLt, columns)
    && (forall k :: HasKey(columns, k) ==> Consistent(Get(columns, k).value) && |Get(columns, k).value.nulls| >= rows)
  }


  /** The type of the builder of `key`; empty when there is none. */
  function TypeOf(columns: Builders, key: string): string
  {
    match Get(columns, key)
    case Some(b) => TypeDescription(b.values)
    case None => ""
  }

  /**
   * The builders agree with the pushes `ps`: a name has a builder only if
   * it was pushed, and every pushed value has its builder's type, so every
   * pushed name has a builder.
   */
  ghost predicate Typed(columns: Builders, ps: seq<(string, RawValue)>)
  {
    && (forall k :: HasKey(columns, k) ==> k in KeysOf(ps, |ps|))
    && (forall m :: 0 <= m < |ps| ==> TypeOf(columns, ps[m].0) == NewTypeName(ps[m].1))
  }

  /** The cells of the builder of `key`, or `n` null rows when there is none. */
  function CellsOf(columns: Builders, key: string, n: nat): seq<Option<RawValue>>
  {
    match Get(columns, key)
    case Some(b) => Cells(b)
    case None => NoCells(n)
  }

  /** Every column reads as `lines` write it: a builder holds exactly those cells, and a name without one has none. */
  ghost predicate Filled(columns: Builders, lines: seq<ParsedLine>, defaultTime: int)
  {
    forall k :: CellsOf(columns, k, |lines|) == ColumnOf(lines, k, defaultTime)
  }

  /** Part way through `line`: the columns of `keys` have builders that also hold the line's cell, the others hold those of `prior` only. */
  ghost predicate PartlyFilled(columns: Builders, prior: seq<ParsedLine>, line: ParsedLine, keys: set<string>, defaultTime: int)
  {
    forall k :: && (k in keys ==> HasKey(columns, k))
                && CellsOf(columns, k, |prior|) ==
                     ColumnOf(prior, k, defaultTime) + (if k in keys then [LineCell(line, k, defaultTime)] else [])
  }

  /** The builder of `key`, or a fresh one for the type of `v`. */
  function Existing(columns: Builders, key: string, v: RawValue): (b: ColumnBuilder)
    ensures |b.nulls| == Prior(columns, key)
  {
    match Get(columns, key)
    case Some(b) => b
    case None => NewBuilder(v)
  }

  /** The builder of `key` is replaced by one of the type of `v`; every other builder is kept. */
  ghost predicate Replaced(columns: Builders, key: string, v: RawValue, out: Builders)
  {
    && HasKey(out, key)
    && SameKind(Get(out, key).value.values, v)
    && (HasKey(columns, key) ==> SameKind(Get(columns, key).value.values, v))
    && (forall k :: k != key ==> Get(out, k) == Get(columns, k))
  }

  /**
   * What a successful `PushColumn` guarantees: the builder of `key` holds
   * its earlier cells, nulls up to the row before `rowNumber`, then `v`.
   */
  ghost predicate Pushed(columns: Builders, key: string, v: RawValue, rowNumber: nat, out: Builders)
  {
    && rowNumber >= 1
    && WellFormed(out, 0)
    && Replaced(columns, key, v, out)
    && |Get(out, key).value.nulls| == Max(Prior(columns, key), rowNumber - 1) + 1
    && Cells(Get(out, key).value) ==
         Cells(Existing(columns, key, v)) + NoCells(Max(Prior(columns, key), rowNumber - 1) - Prior(columns, key)) + [Some(v)]
  }

  /**
   * One tag or field of a line: the builder of `key`, created empty on
   * first use, is padded with nulls up to the row before `rowNumber` and
   * then receives `v`. It fails when the column already holds another type.
   */
  method PushColumn(columns: Builders, key: string, v: RawValue, rowNumber: nat) returns (r: Result<Builders, ColumnError>)
    requires rowNumber >= 1 && WellFormed(columns, 0)
    ensures r.Err? <==> HasKey(columns, key) && !SameKind(Get(columns, key).value.values, v)
    ensures r.Err? ==> r.error == ColumnTypeMismatch(NewTypeName(v), TypeDescription(Get(columns, key).value.values))
    ensures r.Ok? ==> Pushed(columns, key, v, rowNumber, r.value)
  {
    var b0 := Existing(columns, key, v);
    assert SameKind(b0.values, v) <==> !(HasKey(columns, key) && !SameKind(Get(columns, key).value.values, v));
    var b := NullToRow(b0, rowNumber);
    var pushed := Push(b, v);
    if pushed.Err? {
      r := Err(pushed.error);
    } else {
      var nb := pushed.value;
      CellsPush(b, v);
      assert Cells(nb) == Cells(Existing(columns, key, v)) + NoCells(Max(Prior(columns, key), rowNumber - 1) - Prior(columns, key)) + [Some(v)];
      PushedByPut(columns, key, v, rowNumber, nb);
      r := Ok(Put(StrLt, columns, key, nb));
    }
  }

  /** Storing the pushed builder under `key` is a successful push. */
  lemma PushedByPut(columns: Builders, key: string, v: RawValue, rowNumber: nat, nb: ColumnBuilder)
    requires rowNumber >= 1 && WellFormed(columns, 0) && Consistent(nb) && SameKind(nb.values, v)
    requires HasKey(columns, key) ==> SameKind(Get(columns, key).value.values, v)
    requires |nb.nulls| == Max(Prior(columns, key), rowNumber - 1) + 1
    requires Cells(nb) == Cells(Existing(columns, key, v)) + NoCells(Max(Prior(columns, key), rowNumber - 1) - Prior(columns, key)) + [Some(v)]
    ensures Pushed(columns, key, v, rowNumber, Put(StrLt, columns, key, nb))
  {
    PutByName(columns, key, nb);
    var out := Put(StrLt, columns, key, nb);
    forall k | HasKey(out, k) ensures Consistent(Get(out, k).value) {
      if k != key { assert Get(out, k) == Get(columns, k); }
    }
  }

  lemma StepWellFormed(columns: Builders, key: string, v: RawValue, rowNumber: nat, out: Builders)
    requires rowNumber >= 1 && WellFormed(columns, rowNumber - 1) && Pushed(columns, key, v, rowNumber, out)
    ensures WellFormed(out, rowNumber - 1)
  {
    forall k | HasKey(out, k) ensures |Get(out, k).value.nulls| >= rowNumber - 1 {
      if k != key { assert Get(out, k) == Get(columns, k); }
    }
  }

  /** A push that succeeds keeps the pushes uniform and the builders typed by them. */
  lemma StepKinds(columns: Builders, ps: seq<(string, RawValue)>, key: string, v: RawValue, out: Builders)
    requires Uniform(ps) && Typed(columns, ps) && Replaced(columns, key, v, out)
    ensures Uniform(ps + [(key, v)]) && Typed(out, ps + [(key, v)])
  {
    if HasKey(columns, key) {
      TypeNamesAgree(Get(columns, key).value.values, v);
    }
    StepUniform(columns, ps, key, v);
    TypeNamesAgree(Get(out, key).value.values, v);
    StepTyped(columns, ps, key, v, out);
  }

  lemma StepUniform(columns: Builders, ps: seq<(string, RawValue)>, key: string, v: RawValue)
    requires Uniform(ps) && Typed(columns, ps)
    requires HasKey(columns, key) ==> TypeOf(columns, key) == NewTypeName(v)
    ensures Uniform(ps + [(key, v)])
  {
    var ps' := ps + [(key, v)];
    forall a, b | 0 <= a < b < |ps'| && ps'[a].0 == ps'[b].0 ensures NewTypeName(ps'[a].1) == NewTypeName(ps'[b].1) {
      assert ps'[a] == ps[a];
      if b < |ps| {
        assert ps'[b] == ps[b];
      } else {
        assert TypeOf(columns, key) == NewTypeName(ps[a].1) != "";
      }
    }
  }

  lemma StepTyped(columns: Builders, ps: seq<(string, RawValue)>, key: string, v: RawValue, out: Builders)
    requires Typed(columns, ps) && TypeOf(out, key) == NewTypeName(v)
    requires HasKey(columns, key) ==> TypeOf(columns, key) == NewTypeName(v)
    requires forall k :: k != key ==> Get(out, k) == Get(columns, k)
    ensures Typed(out, ps + [(key, v)])
  {
    var ps' := ps + [(key, v)];
    forall k | HasKey(out, k) ensures k in KeysOf(ps', |ps'|) {
      if k == key {
        assert ps'[|ps|].0 == key;
      } else {
        assert Get(out, k) == Get(columns, k);
        var m :| 0 <= m < |ps| && ps[m].0 == k;
        assert ps'[m] == ps[m];
      }
    }
    forall m | 0 <= m < |ps'| ensures TypeOf(out, ps'[m].0) == NewTypeName(ps'[m].1) {
      if m < |ps| {
        assert ps'[m] == ps[m];
        if ps[m].0 != key {
          assert Get(out, ps[m].0) == Get(columns, ps[m].0);
        } else {
          assert TypeOf(columns, key) == NewTypeName(ps[m].1) != "";
        }
      }
    }
  }

  /** A push that fails is the first clash among the pushes. */
  lemma ClashAt(columns: Builders, ps: seq<(string, RawValue)>, key: string, v: RawValue, e: ColumnError)
    requires Uniform(ps) && Typed(columns, ps)
    requires HasKey(columns, key) && !SameKind(Get(columns, key).value.values, v)
    requires e == ColumnTypeMismatch(NewTypeName(v), TypeDescription(Get(columns, key).value.values))
    ensures FirstClashAt(ps + [(key, v)], |ps|, key, e)
  {
    TypeNamesAgree(Get(columns, key).value.values, v);
    assert key in KeysOf(ps, |ps|);
    var p :| 0 <= p < |ps| && ps[p].0 == key;
    assert (ps + [(key, v)])[p] == ps[p];
    assert (ps + [(key, v)])[..|ps|] == ps;
  }

  /** A push of the line's cell to a column that lacked it adds that cell, after nulls for the rows it missed. */
  lemma StepCells(columns: Builders, prior: seq<ParsedLine>, line: ParsedLine, keys: set<string>,
                  key: string, v: RawValue, pad: nat, out: Builders, defaultTime: int)
    requires PartlyFilled(columns, prior, line, keys, defaultTime) && key !in keys
    requires LineCell(line, key, defaultTime) == Some(v) && Replaced(columns, key, v, out)
    requires Cells(Get(out, key).value) == Cells(Existing(columns, key, v)) + NoCells(pad) + [Some(v)]
    requires pad == Max(Prior(columns, key), |prior|) - Prior(columns, key)
    ensures PartlyFilled(out, prior, line, keys + {key}, defaultTime)
  {
    assert CellsOf(out, key, |prior|) == ColumnOf(prior, key, defaultTime) + [Some(v)] by {
      assert CellsOf(columns, key, |prior|) == ColumnOf(prior, key, defaultTime);
      if HasKey(columns, key) {
        assert NoCells(pad) == [];
      } else {
        assert Cells(Existing(columns, key, v)) == [];
      }
    }
    forall k
      ensures && (k in keys + {key} ==> HasKey(out, k))
              && CellsOf(out, k, |prior|) ==
                   ColumnOf(prior, k, defaultTime) + (if k in keys + {key} then [LineCell(line, k, defaultTime)] else [])
    {
      if k != key { assert Get(out, k) == Get(columns, k); }
    }
  }

  /**
   * The time column's builder is left alone by a push to another column,
   * and is no longer a time column after a push of a tag or field into it.
   */
  lemma StepTime(columns: Builders, key: string, v: RawValue, rowNumber: nat, out: Builders)
    requires Sorted(StrLt, columns) && Pushed(columns, key, v, rowNumber, out) && !v.TimeValue?
    ensures key == TimeColumnName ==> !Get(out, TimeColumnName).value.values.RawTime?
    ensures key != TimeColumnName ==> Get(out, TimeColumnName) == Get(columns, TimeColumnName)
  {
  }

  /** Every tag and field of line `i`, in order; the first failure names its column. */
  method PushLineValues(lines: seq<ParsedLine>, i: nat, defaultTime: int, columns: Builders)
    returns (r: Result<Builders, (string, ColumnError)>)
    requires i < |lines| && WellFormed(columns, i)
    requires Uniform(Pushes(lines[..i], defaultTime)) && Typed(columns, Pushes(lines[..i], defaultTime))
    ensures r.Ok? ==> LineInv(lines, i, defaultTime, columns, |LineValues(lines[i])|, r.value)
    ensures r.Err? ==> ClashFrom(Pushes(lines[..i + 1], defaultTime), |Pushes(lines[..i], defaultTime)|, r.error.0, r.error.1)
  {
    var vals := LineValues(lines[i]);
    LineStart(lines, i, defaultTime, columns);
    var current := columns;
    var j := 0;
    while j < |vals|
      invariant 0 <= j <= |vals|
      invariant LineInv(lines, i, defaultTime, columns, j, current)
    {
      var (key, v) := vals[j];
      var pushed := PushColumn(current, key, v, i + 1);
      if pushed.Err? {
        ClashAt(current, Pushes(lines[..i], defaultTime) + vals[..j], key, v, pushed.error);
        ClashInLine(lines, i, defaultTime, j, pushed.error);
        return Err((key, pushed.error));
      }
      LineStep(lines, i, defaultTime, columns, j, current, pushed.value);
      current := pushed.value;
      j := j + 1;
    }
    r := Ok(current);
  }

  /** What holds of the builders after the first `j` values of line `i`. */
  ghost predicate LineInv(lines: seq<ParsedLine>, i: nat, defaultTime: int, columns: Builders, j: nat, current: Builders)
    requires i < |lines| && j <= |LineValues(lines[i])|
  {
    var vals := LineValues(lines[i]);
    var ps := Pushes(lines[..i], defaultTime) + vals[..j];
    && WellFormed(current, i)
    && (TimeColumnName in KeysOf(vals, j) ==>
          HasKey(current, TimeColumnName) && !Get(current, TimeColumnName).value.values.RawTime?)
    && (TimeColumnName !in KeysOf(vals, j) ==>
          Get(current, TimeColumnName) == Get(columns, TimeColumnName))
    && Uniform(ps) && Typed(current, ps)
    && (DistinctKeys(vals) && TimeColumnName !in KeysOf(vals, |vals|) && Filled(columns, lines[..i], defaultTime) ==>
          PartlyFilled(current, lines[..i], lines[i], KeysOf(vals, j), defaultTime))
  }

  /** `LineInv` holds before the first value of a line. */
  lemma LineStart(lines: seq<ParsedLine>, i: nat, defaultTime: int, columns: Builders)
    requires i < |lines| && WellFormed(columns, i)
    requires Uniform(Pushes(lines[..i], defaultTime)) && Typed(columns, Pushes(lines[..i], defaultTime))
    ensures LineInv(lines, i, defaultTime, columns, 0, columns)
  {
    var before := Pushes(lines[..i], defaultTime);
    assert before + LineValues(lines[i])[..0] == before;
  }

  /** Pushing the `j`th value of line `i` keeps `LineInv`. */
  lemma LineStep(lines: seq<ParsedLine>, i: nat, defaultTime: int, columns: Builders, j: nat, prev: Builders, current: Builders)
    requires i < |lines| && j < |LineValues(lines[i])|
    requires LineInv(lines, i, defaultTime, columns, j, prev)
    requires Pushed(prev, LineValues(lines[i])[j].0, LineValues(lines[i])[j].1, i + 1, current)
    ensures LineInv(lines, i, defaultTime, columns, j + 1, current)
  {
    var vals := LineValues(lines[i]);
    var (key, v) := vals[j];
    var before := Pushes(lines[..i], defaultTime);
    KeysOfStep(vals, j);
    StepWellFormed(prev, key, v, i + 1, current);
    StepTime(prev, key, v, i + 1, current);
    PrefixStep(before, vals, j);
    StepKinds(prev, before + vals[..j], key, v, current);
    if DistinctKeys(vals) && TimeColumnName !in KeysOf(vals, |vals|) && Filled(columns, lines[..i], defaultTime) {
      assert key in KeysOf(vals, |vals|);
      FindDistinct(vals, j);
      StepCells(prev, lines[..i], lines[i], KeysOf(vals, j), key, v,
                Max(Prior(prev, key), i) - Prior(prev, key), current, defaultTime);
    }
  }

  /** A clash at the `j`th value of line `i` is the first clash among the pushes of the lines so far, and it lies in that line. */
  lemma ClashInLine(lines: seq<ParsedLine>, i: nat, defaultTime: int, j: nat, e: ColumnError)
    requires i < |lines| && j < |LineValues(lines[i])|
    requires var ps := Pushes(lines[..i], defaultTime) + LineValues(lines[i])[..j];
             FirstClashAt(ps + [LineValues(lines[i])[j]], |ps|, LineValues(lines[i])[j].0, e)
    ensures ClashFrom(Pushes(lines[..i + 1], defaultTime), |Pushes(lines[..i], defaultTime)|, LineValues(lines[i])[j].0, e)
  {
    var vals := LineValues(lines[i]);
    var before := Pushes(lines[..i], defaultTime);
    var last := (TimeColumnName, TimeValue(LineTime(lines[i], defaultTime)));
    PushesStep(lines, i, defaultTime);
    assert LinePushes(lines[i], defaultTime) == vals + [last];
    SplitAt(before, vals, j, last);
    ClashExtends(before + vals[..j] + [vals[j]], vals[j + 1..] + [last], |before| + j, vals[j].0, e);
  }

  lemma PrefixStep<T>(before: seq<T>, vals: seq<T>, j: nat)
    requires j < |vals|
    ensures before + vals[..j + 1] == (before + vals[..j]) + [vals[j]]
  {
    assert vals[..j + 1] == vals[..j] + [vals[j]];
  }

  lemma SplitAt<T>(before: seq<T>, vals: seq<T>, j: nat, last: T)
    requires j < |vals|
    ensures before + (vals + [last]) == (before + vals[..j] + [vals[j]]) + (vals[j + 1..] + [last])
  {
    assert vals[..j] + [vals[j]] + vals[j + 1..] == vals;
  }

  /** The index of an element known to be present. */
  function IndexOf<T(==)>(xs: seq<T>, x: T): (i: nat)
    requires x in xs
    ensures i < |xs| && xs[i] == x
  {
    if xs[0] == x then 0 else 1 + IndexOf(xs[1..], x)
  }

  /**
   * `out` is `columns` with every builder, in place and under its name,
   * brought up to at least `rows` rows by null rows at its end.
   */
  predicate Padded(columns: Builders, out: Builders, rows: nat)
  {
    && |out| == |columns|
    && (forall k :: 0 <= k < |out| ==> out[k].0 == columns[k].0 && out[k].1.values == columns[k].1.values)
    && (forall k :: 0 <= k < |out| ==>
          && |out[k].1.nulls| == Max(|columns[k].1.nulls|, rows)
          && out[k].1.nulls[..|columns[k].1.nulls|] == columns[k].1.nulls
          && (Consistent(columns[k].1) ==>
                Consistent(out[k].1) && Cells(out[k].1) == Cells(columns[k].1) + NoCells(|out[k].1.nulls| - |columns[k].1.nulls|)))
  }

  /**
   * The padding after each line, `null_to_row(row_number + 1)` on every
   * builder: each builder is brought up to `rowNumber - 1` rows with nulls.
   */
  method PadAll(columns: Builders, rowNumber: nat) returns (r: Builders)
    requires rowNumber >= 1
    ensures Padded(columns, r, rowNumber - 1)
  {
    r := [];
    var k := 0;
    while k < |columns|
      invariant 0 <= k <= |columns| && |r| == k
      invariant forall m :: 0 <= m < k ==> r[m].0 == columns[m].0 && r[m].1.values == columns[m].1.values
      invariant forall m :: 0 <= m < k ==>
                  && |r[m].1.nulls| == Max(|columns[m].1.nulls|, rowNumber - 1)
                  && r[m].1.nulls[..|columns[m].1.nulls|] == columns[m].1.nulls
                  && (Consistent(columns[m].1) ==>
                        Consistent(r[m].1) && Cells(r[m].1) == Cells(columns[m].1) + NoCells(|r[m].1.nulls| - |columns[m].1.nulls|))
    {
      var nb := NullToRow(columns[k].1, rowNumber);
      r := r + [(columns[k].0, nb)];
      k := k + 1;
    }
  }

  /** Only a time column takes a timestamp. */
  lemma TimeKind(raw: ColumnRaw, t: int)
    ensures SameKind(raw, TimeValue(t)) <==> raw.RawTime?
  {
  }

  /**
   * The timestamp of a line goes into the `time` column, created on first
   * use, without padding: it fails when `time` names a column of another type.
   */
  method PushTime(columns: Builders, t: int) returns (r: Result<Builders, ColumnError>)
    requires WellFormed(columns, 0)
    ensures r.Err? <==> HasKey(columns, TimeColumnName) && !Get(columns, TimeColumnName).value.values.RawTime?
    ensures r.Err? ==> r.error == ColumnTypeMismatch(NewTypeName(TimeValue(t)), TypeDescription(Get(columns, TimeColumnName).value.values))
    ensures r.Ok? ==> Sorted(StrLt, r.value) && Replaced(columns, TimeColumnName, TimeValue(t), r.value)
    ensures r.Ok? ==> Cells(Get(r.value, TimeColumnName).value) ==
                        Cells(Existing(columns, TimeColumnName, TimeValue(t))) + [Some(TimeValue(t))]
    ensures r.Ok? ==> (var b0 := match Get(columns, TimeColumnName) case Some(b) => b case None => ColumnBuilder([], RawTime([]));
                       Get(r.value, TimeColumnName) == Some(ColumnBuilder(b0.nulls + [false], RawTime(b0.values.times + [t]))))
  {
    var tb := Existing(columns, TimeColumnName, TimeValue(t));
    var pushed := Push(tb, TimeValue(t));
    TimeKind(tb.values, t);
    if pushed.Err? {
      r := Err(pushed.error);
    } else {
      CellsPush(tb, TimeValue(t));
      PutByName(columns, TimeColumnName, pushed.value);
      r := Ok(Put(StrLt, columns, TimeColumnName, pushed.value));
    }
  }

  lemma TimeBuilderStep(lines: seq<ParsedLine>, i: nat, defaultTime: int)
    requires i < |lines|
    ensures TimeBuilder(lines[..i + 1], defaultTime) ==
              ColumnBuilder(TimeBuilder(lines[..i], defaultTime).nulls + [false],
                            RawTime(TimeBuilder(lines[..i], defaultTime).values.times + [LineTime(lines[i], defaultTime)]))
  {
    var before := TimeBuilder(lines[..i], defaultTime);
    assert seq(i + 1, _ => false) == before.nulls + [false];
    assert Times(lines[..i + 1], defaultTime) == before.values.times + [LineTime(lines[i], defaultTime)];
  }

  /** The time builder after line `i` is the one before it with the line's timestamp appended. */
  lemma TimeAppended(lines: seq<ParsedLine>, i: nat, defaultTime: int, before: Builders, afterValues: Builders)
    requires i < |lines|
    requires WellFormed(afterValues, i)
    requires i == 0 ==> before == []
    requires i > 0 ==> Get(before, TimeColumnName) == Some(TimeBuilder(lines[..i], defaultTime))
    requires Get(afterValues, TimeColumnName) == Get(before, TimeColumnName)
    ensures var b0 := match Get(afterValues, TimeColumnName) case Some(b) => b case None => ColumnBuilder([], RawTime([]));
            var nb := ColumnBuilder(b0.nulls + [false], RawTime(b0.values.times + [LineTime(lines[i], defaultTime)]));
            && nb == TimeBuilder(lines[..i + 1], defaultTime)
            && Consistent(nb) && |nb.nulls| == i + 1
  {
    var b0 := match Get(afterValues, TimeColumnName) case Some(b) => b case None => ColumnBuilder([], RawTime([]));
    var nb := ColumnBuilder(b0.nulls + [false], RawTime(b0.values.times + [LineTime(lines[i], defaultTime)]));
    TimeBuilderStep(lines, i, defaultTime);
    if i > 0 {
      NoTrueCount(b0.nulls);
      assert nb.nulls[..|b0.nulls|] == b0.nulls;
    } else {
      assert nb == TimeBuilder(lines[..1], defaultTime);
    }
  }

  /**
   * After a line's tags, fields and timestamp: every builder has at least
   * one row per earlier line, and the time column one non-null timestamp
   * per line so far.
   */
  lemma TimeStep(lines: seq<ParsedLine>, i: nat, defaultTime: int, before: Builders, afterValues: Builders, out: Builders)
    requires i < |lines|
    requires Sorted(StrLt, before) && WellFormed(afterValues, i) && Sorted(StrLt, out)
    requires i == 0 ==> before == []
    requires i > 0 ==> Get(before, TimeColumnName) == Some(TimeBuilder(lines[..i], defaultTime))
    requires var vals := LineValues(lines[i]);
             && (TimeColumnName !in KeysOf(vals, |vals|) ==> Get(afterValues, TimeColumnName) == Get(before, TimeColumnName))
             && (TimeColumnName in KeysOf(vals, |vals|) ==>
                   HasKey(afterValues, TimeColumnName) && !Get(afterValues, TimeColumnName).value.values.RawTime?)
    requires !(HasKey(afterValues, TimeColumnName) && !Get(afterValues, TimeColumnName).value.values.RawTime?)
    requires var b0 := match Get(afterValues, TimeColumnName) case Some(b) => b case None => ColumnBuilder([], RawTime([]));
             Get(out, TimeColumnName) == Some(ColumnBuilder(b0.nulls + [false], RawTime(b0.values.times + [LineTime(lines[i], defaultTime)])))
    requires forall k :: k != TimeColumnName ==> Get(out, k) == Get(afterValues, k)
    ensures WellFormed(out, i)
    ensures Get(out, TimeColumnName) == Some(TimeBuilder(lines[..i + 1], defaultTime))
  {
    var vals := LineValues(lines[i]);
    assert TimeColumnName !in KeysOf(vals, |vals|);
    var b0 := match Get(afterValues, TimeColumnName) case Some(b) => b case None => ColumnBuilder([], RawTime([]));
    var nb := ColumnBuilder(b0.nulls + [false], RawTime(b0.values.times + [LineTime(lines[i], defaultTime)]));
    TimeAppended(lines, i, defaultTime, before, afterValues);
    ReplacedWellFormed(afterValues, TimeColumnName, nb, i, out);
  }

  /** Replacing one builder by a consistent one at least `rows` long keeps the builders well formed. */
  lemma ReplacedWellFormed(columns: Builders, key: string, nb: ColumnBuilder, rows: nat, out: Builders)
    requires WellFormed(columns, rows) && Sorted(StrLt, out) && Consistent(nb) && |nb.nulls| >= rows
    requires Get(out, key) == Some(nb) && forall k :: k != key ==> Get(out, k) == Get(columns, k)
    ensures WellFormed(out, rows)
  {
    forall k | HasKey(out, k) ensures Consistent(Get(out, k).value) && |Get(out, k).value.nulls| >= rows {
      if k != key { assert Get(out, k) == Get(columns, k); }
    }
  }

  /** The timestamp push completes the line's pushes and keeps them uniform and the builders typed. */
  lemma TimeKinds(lines: seq<ParsedLine>, i: nat, defaultTime: int, afterValues: Builders, out: Builders)
    requires i < |lines|
    requires var ps := Pushes(lines[..i], defaultTime) + LineValues(lines[i]);
             Uniform(ps) && Typed(afterValues, ps)
    requires Replaced(afterValues, TimeColumnName, TimeValue(LineTime(lines[i], defaultTime)), out)
    ensures Uniform(Pushes(lines[..i + 1], defaultTime)) && Typed(out, Pushes(lines[..i + 1], defaultTime))
  {
    var vals := LineValues(lines[i]);
    var last := (TimeColumnName, TimeValue(LineTime(lines[i], defaultTime)));
    var before := Pushes(lines[..i], defaultTime);
    PushesStep(lines, i, defaultTime);
    assert Pushes(lines[..i + 1], defaultTime) == (before + vals) + [last];
    StepKinds(afterValues, before + vals, last.0, last.1, out);
  }

  /**
   * With distinct names in the line and no tag or field named `time`, the
   * time column now holds the line's timestamp too.
   */
  lemma TimeCells(lines: seq<ParsedLine>, i: nat, defaultTime: int, afterValues: Builders, out: Builders)
    requires i < |lines| && WellFormed(afterValues, i)
    requires var vals := LineValues(lines[i]);
             PartlyFilled(afterValues, lines[..i], lines[i], KeysOf(vals, |vals|), defaultTime) && TimeColumnName !in KeysOf(vals, |vals|)
    requires var t := TimeValue(LineTime(lines[i], defaultTime));
             && Replaced(afterValues, TimeColumnName, t, out)
             && Cells(Get(out, TimeColumnName).value) == Cells(Existing(afterValues, TimeColumnName, t)) + [Some(t)]
    ensures PartlyFilled(out, lines[..i], lines[i], KeysOf(LineValues(lines[i]), |LineValues(lines[i])|) + {TimeColumnName}, defaultTime)
  {
    var vals := LineValues(lines[i]);
    var t := TimeValue(LineTime(lines[i], defaultTime));
    if i > 0 {
      assert ColumnOf(lines[..i], TimeColumnName, defaultTime)[0].Some?;
      assert CellsOf(afterValues, TimeColumnName, i)[0].Some?;
    }
    assert Prior(afterValues, TimeColumnName) >= i by {
      if HasKey(afterValues, TimeColumnName) {
        assert |Get(afterValues, TimeColumnName).value.nulls| >= i;
      }
    }
    assert Cells(Existing(afterValues, TimeColumnName, t)) + NoCells(0) + [Some(t)] ==
           Cells(Existing(afterValues, TimeColumnName, t)) + [Some(t)];
    StepCells(afterValues, lines[..i], lines[i], KeysOf(vals, |vals|), TimeColumnName, t, 0, out, defaultTime);
  }

  /** A failed timestamp push is the first clash among the pushes, the last push of line `i`. */
  lemma TimeClash(lines: seq<ParsedLine>, i: nat, defaultTime: int, afterValues: Builders, e: ColumnError)
    requires i < |lines|
    requires var ps := Pushes(lines[..i], defaultTime) + LineValues(lines[i]);
             Uniform(ps) && Typed(afterValues, ps)
    requires HasKey(afterValues, TimeColumnName) && !Get(afterValues, TimeColumnName).value.values.RawTime?
    requires e == ColumnTypeMismatch(NewTypeName(TimeValue(LineTime(lines[i], defaultTime))),
                                     TypeDescription(Get(afterValues, TimeColumnName).value.values))
    ensures ClashFrom(Pushes(lines[..i + 1], defaultTime), |Pushes(lines[..i], defaultTime)|, TimeColumnName, e)
  {
    var vals := LineValues(lines[i]);
    var t := LineTime(lines[i], defaultTime);
    var before := Pushes(lines[..i], defaultTime);
    TimeKind(Get(afterValues, TimeColumnName).value.values, t);
    ClashAt(afterValues, before + vals, TimeColumnName, TimeValue(t), e);
    PushesStep(lines, i, defaultTime);
    var all := Pushes(lines[..i + 1], defaultTime);
    assert all == (before + vals) + [(TimeColumnName, TimeValue(t))];
    assert FirstClashAt(all, |before + vals|, TimeColumnName, e);
  }

  /**
   * After the padding every builder has one row per line read so far, the
   * time column, already that long, is unchanged, and the builders keep
   * their names and types.
   */
  lemma PadStep(lines: seq<ParsedLine>, i: nat, defaultTime: int, before: Builders, out: Builders)
    requires i < |lines|
    requires WellFormed(before, i) && Get(before, TimeColumnName) == Some(TimeBuilder(lines[..i + 1], defaultTime))
    requires Typed(before, Pushes(lines[..i + 1], defaultTime)) && Padded(before, out, i + 1)
    ensures WellFormed(out, i + 1)
    ensures Get(out, TimeColumnName) == Some(TimeBuilder(lines[..i + 1], defaultTime))
    ensures Typed(out, Pushes(lines[..i + 1], defaultTime))
  {
    SortedKeysKept(before, out);
    PaddedWellFormed(before, out, i + 1);
    var tb := TimeBuilder(lines[..i + 1], defaultTime);
    GetAligned(before, out, TimeColumnName);
    var k :| 0 <= k < |before| && before[k] == (TimeColumnName, tb) && out[k] == (TimeColumnName, Get(out, TimeColumnName).value);
    assert out[k].1.nulls == out[k].1.nulls[..|tb.nulls|];
    PadKinds(Pushes(lines[..i + 1], defaultTime), before, out);
  }

  /** Padding brings every builder up to `rows` rows and keeps it consistent. */
  lemma PaddedWellFormed(before: Builders, out: Builders, rows: nat)
    requires WellFormed(before, 0) && Sorted(StrLt, out) && Padded(before, out, rows)
    ensures WellFormed(out, rows)
  {
    forall x | HasKey(out, x) ensures Consistent(Get(out, x).value) && |Get(out, x).value.nulls| >= rows {
      GetAligned(before, out, x);
      var m :| 0 <= m < |before| && before[m] == (x, Get(before, x).value) && out[m] == (x, Get(out, x).value);
      assert Consistent(before[m].1);
    }
  }

  /** Padding keeps every builder's name and type, so the builders stay typed by the same pushes. */
  lemma PadKinds(ps: seq<(string, RawValue)>, before: Builders, out: Builders)
    requires Sorted(StrLt, before) && Sorted(StrLt, out) && |out| == |before|
    requires forall k :: 0 <= k < |out| ==> out[k].0 == before[k].0 && out[k].1.values == before[k].1.values
    requires Typed(before, ps)
    ensures Typed(out, ps)
  {
    forall k | HasKey(out, k) ensures k in KeysOf(ps, |ps|) {
      GetAligned(before, out, k);
    }
    forall m | 0 <= m < |ps| ensures TypeOf(out, ps[m].0) == NewTypeName(ps[m].1) {
      GetAligned(before, out, ps[m].0);
      assert TypeOf(before, ps[m].0) == NewTypeName(ps[m].1) != "";
    }
  }

  /** Builders that keep their names in place are found at the same position under the same name. */
  lemma GetAligned(xs: Builders, ys: Builders, key: string)
    requires Sorted(StrLt, xs) && Sorted(StrLt, ys) && |ys| == |xs|
    requires forall k :: 0 <= k < |xs| ==> ys[k].0 == xs[k].0
    ensures HasKey(ys, key) <==> HasKey(xs, key)
    ensures HasKey(xs, key) ==>
              exists m :: 0 <= m < |xs| && xs[m] == (key, Get(xs, key).value) && ys[m] == (key, Get(ys, key).value)
  {
    if HasKey(xs, key) {
      var m :| 0 <= m < |xs| && xs[m].0 == key;
      GetAtByName(xs, m);
      GetAtByName(ys, m);
    }
    if HasKey(ys, key) {
      var m :| 0 <= m < |ys| && ys[m].0 == key;
      assert xs[m].0 == key;
    }
  }

  /** After the padding, every builder holds exactly the cells the lines so far give its column. */
  lemma PadCells(lines: seq<ParsedLine>, i: nat, defaultTime: int, before: Builders, out: Builders)
    requires i < |lines| && WellFormed(before, i) && Sorted(StrLt, out)
    requires var vals := LineValues(lines[i]);
             PartlyFilled(before, lines[..i], lines[i], KeysOf(vals, |vals|) + {TimeColumnName}, defaultTime)
    requires Padded(before, out, i + 1)
    ensures Filled(out, lines[..i + 1], defaultTime)
  {
    var vals := LineValues(lines[i]);
    var keys := KeysOf(vals, |vals|) + {TimeColumnName};
    var upto := lines[..i + 1];
    forall k ensures CellsOf(out, k, |upto|) == ColumnOf(upto, k, defaultTime) {
      ColumnOfStep(lines, i, k, defaultTime);
      if k !in keys {
        FindAbsent(vals, k);
      }
      PadColumn(before, out, i, k, ColumnOf(lines[..i], k, defaultTime), LineCell(lines[i], k, defaultTime), k in keys);
    }
  }

  /** One column after the padding: its cells so far, then the line's cell or a null. */
  lemma PadColumn(before: Builders, out: Builders, n: nat, k: string, prior: seq<Option<RawValue>>, cell: Option<RawValue>, filled: bool)
    requires WellFormed(before, n) && Sorted(StrLt, out) && Padded(before, out, n + 1)
    requires |prior| == n && (filled ==> HasKey(before, k)) && (!filled ==> cell.None?)
    requires CellsOf(before, k, n) == prior + (if filled then [cell] else [])
    ensures CellsOf(out, k, n + 1) == prior + [cell]
  {
    GetAligned(before, out, k);
    if HasKey(before, k) {
      var m :| 0 <= m < |before| && before[m] == (k, Get(before, k).value) && out[m] == (k, Get(out, k).value);
      var b, nb := before[m].1, out[m].1;
      assert Consistent(b);
      assert Cells(nb) == Cells(b) + NoCells(|nb.nulls| - |b.nulls|);
      assert Cells(b) == CellsOf(before, k, n);
      PadBuilder(b, nb, n, prior, cell, filled);
    } else {
      NoCellsStep(n);
    }
  }

  /** A builder holding the cells of the lines so far, with or without the current line's, padded to one row more. */
  lemma PadBuilder(b: ColumnBuilder, nb: ColumnBuilder, n: nat, prior: seq<Option<RawValue>>, cell: Option<RawValue>, filled: bool)
    requires |nb.nulls| == Max(|b.nulls|, n + 1) && Cells(nb) == Cells(b) + NoCells(|nb.nulls| - |b.nulls|)
    requires |prior| == n && (!filled ==> cell.None?)
    requires Cells(b) == prior + (if filled then [cell] else [])
    ensures Cells(nb) == prior + [cell]
  {
    if filled {
      assert NoCells(0) == [];
    } else {
      assert NoCells(1) == [cell];
    }
  }

  lemma NoCellsStep(n: nat)
    ensures NoCells(n + 1) == NoCells(n) + [None]
  {
  }

  /** What holds of the builders after the first `i` lines. */
  ghost predicate Built(lines: seq<ParsedLine>, i: nat, defaultTime: int, columns: Builders)
    requires i <= |lines|
  {
    && WellFormed(columns, i)
    && (i == 0 ==> columns == [])
    && (i > 0 ==> Get(columns, TimeColumnName) == Some(TimeBuilder(lines[..i], defaultTime)))
    && Uniform(Pushes(lines[..i], defaultTime)) && Typed(columns, Pushes(lines[..i], defaultTime))
    && (WellKeyed(lines) ==> Filled(columns, lines[..i], defaultTime))
  }

  /**
   * One pass of the line loop of `build_table_write_batch`: the line's
   * values, then its timestamp, then padding every column to the line's
   * row; a value whose type differs from its column's fails, naming the
   * table, the column and the line.
   */
  method AddLine(tableName: string, lines: seq<ParsedLine>, i: nat, defaultTime: int, columns: Builders)
    returns (r: Result<Builders, Error>)
    requires i < |lines| && Built(lines, i, defaultTime, columns)
    ensures r.Ok? ==> Built(lines, i + 1, defaultTime, r.value)
    ensures r.Err? ==> r.error.TableColumnTypeMismatch? && r.error.table == tableName && r.error.lineNumber == i
    ensures r.Err? ==> Rejected(lines, defaultTime, r.error)
  {
    var line := lines[i];
    var pushed := PushLineValues(lines, i, defaultTime, columns);
    if pushed.Err? {
      ClashRejects(tableName, lines, i, defaultTime, pushed.error.0, pushed.error.1);
      return Err(TableColumnTypeMismatch(tableName, pushed.error.0, i, pushed.error.1));
    }
    assert LineValues(line)[..|LineValues(line)|] == LineValues(line);
    var timed := PushTime(pushed.value, LineTime(line, defaultTime));
    if timed.Err? {
      TimeClash(lines, i, defaultTime, pushed.value, timed.error);
      ClashRejects(tableName, lines, i, defaultTime, TimeColumnName, timed.error);
      return Err(TableColumnTypeMismatch(tableName, TimeColumnName, i, timed.error));
    }
    TimeStep(lines, i, defaultTime, columns, pushed.value, timed.value);
    TimeKinds(lines, i, defaultTime, pushed.value, timed.value);
    if WellKeyed(lines) {
      assert lines[i] in lines;
      TimeCells(lines, i, defaultTime, pushed.value, timed.value);
    }
    var padded := PadAll(timed.value, i + 2);
    assert Padded(timed.value, padded, i + 1);
    PadStep(lines, i, defaultTime, timed.value, padded);
    if WellKeyed(lines) {
      PadCells(lines, i, defaultTime, timed.value, padded);
    }
    r := Ok(padded);
  }

  /**
   * What `build_table_write_batch` promises about a batch built from
   * `lines`: its columns, in name order, are named by exactly the lines'
   * tags, fields and `time`; every column accounts for at least one row per
   * line; the time column holds every line's timestamp without nulls; and
   * when no line names a column twice, every column has exactly one row
   * per line, row `m` holding line `m`'s value for it, or null.
   */
  ghost predicate BatchOf(batch: TableBatch, lines: seq<ParsedLine>, defaultTime: int)
  {
    && (forall a, b :: 0 <= a < b < |batch.columns| ==> StrLt(batch.columns[a].name, batch.columns[b].name))
    && NamesOf(batch.columns) == ColumnNames(lines)
    && (forall c :: c in batch.columns ==> ColumnRows(c) >= |lines|)
    && (|lines| > 0 ==> TimeBatchColumn(lines, defaultTime) in batch.columns)
    && (WellKeyed(lines) ==> RowCount(batch) == |lines|)
    && (WellKeyed(lines) ==> forall c :: c in batch.columns ==>
          ColumnRows(c) == |lines| && ColumnCells(c, |lines|) == ColumnOf(lines, c.name, defaultTime))
  }

  /**
   * `build_table_write_batch`: the batch of `lines` described by
   * `BatchOf`. It fails exactly when some column would be given values of
   * two types, naming the table, the column, both types and the 0-based
   * line of the first such value.
   */
  method BuildTableWriteBatch(tableName: string, lines: seq<ParsedLine>, defaultTime: int) returns (r: Result<TableBatch, Error>)
    ensures r.Ok? ==> r.value.name == tableName && BatchOf(r.value, lines, defaultTime)
    ensures r.Err? <==> !Uniform(Pushes(lines, defaultTime))
    ensures r.Err? ==> r.error.TableColumnTypeMismatch? && r.error.table == tableName && r.error.lineNumber < |lines|
    ensures r.Err? ==> ClashFrom(Pushes(lines[..r.error.lineNumber + 1], defaultTime), |Pushes(lines[..r.error.lineNumber], defaultTime)|,
                                 r.error.column, r.error.columnError)
  {
    var built := AddLines(tableName, lines, defaultTime);
    if built.Err? {
      return Err(built.error);
    }
    var columns := built.value;
    BuiltAll(lines, defaultTime, columns);
    FinishedColumns(lines, defaultTime, columns);
    NamesOfPushes(lines, defaultTime);
    BatchNames(columns, Pushes(lines, defaultTime));
    FinishedTime(lines, defaultTime, columns);
    FinishedBatch(tableName, lines, defaultTime, columns);
    r := Ok(TableBatch(tableName, BatchColumns(built.value)));
  }

  /** The line loop of `build_table_write_batch`, stopping at the first failing line. */
  method AddLines(tableName: string, lines: seq<ParsedLine>, defaultTime: int) returns (r: Result<Builders, Error>)
    ensures r.Ok? ==> Built(lines, |lines|, defaultTime, r.value)
    ensures r.Err? ==> r.error.TableColumnTypeMismatch? && r.error.table == tableName && Rejected(lines, defaultTime, r.error)
  {
    var columns: Builders := [];
    var i := 0;
    BuiltStart(lines, defaultTime);
    while i < |lines|
      invariant 0 <= i <= |lines|
      invariant Built(lines, i, defaultTime, columns)
    {
      var added := AddLine(tableName, lines, i, defaultTime, columns);
      if added.Err? {
        return added;
      }
      columns := added.value;
      i := i + 1;
    }
    r := Ok(columns);
  }

  /**
   * A failure of the line loop: the first clash among the pushes lies in
   * line `e.lineNumber`, so the pushes of all the lines disagree.
   */
  ghost predicate Rejected(lines: seq<ParsedLine>, defaultTime: int, e: Error)
  {
    && e.TableColumnTypeMismatch? && e.lineNumber < |lines|
    && ClashFrom(Pushes(lines[..e.lineNumber + 1], defaultTime), |Pushes(lines[..e.lineNumber], defaultTime)|, e.column, e.columnError)
    && !Uniform(Pushes(lines, defaultTime))
  }

  /** Before the first line there are no builders. */
  lemma BuiltStart(lines: seq<ParsedLine>, defaultTime: int)
    ensures Built(lines, 0, defaultTime, [])
  {
    assert lines[..0] == [];
  }

  /** `Built` after every line, restated about `lines` itself. */
  lemma BuiltAll(lines: seq<ParsedLine>, defaultTime: int, columns: Builders)
    requires Built(lines, |lines|, defaultTime, columns)
    ensures WellFormed(columns, |lines|) && Uniform(Pushes(lines, defaultTime)) && Typed(columns, Pushes(lines, defaultTime))
    ensures |lines| > 0 ==> Get(columns, TimeColumnName) == Some(TimeBuilder(lines, defaultTime))
    ensures WellKeyed(lines) ==> Filled(columns, lines, defaultTime)
  {
    assert lines[..|lines|] == lines;
  }

  /** A clash first met in line `i` rejects the lines, naming that line. */
  lemma ClashRejects(tableName: string, lines: seq<ParsedLine>, i: nat, defaultTime: int, column: string, e: ColumnError)
    requires i < |lines|
    requires ClashFrom(Pushes(lines[..i + 1], defaultTime), |Pushes(lines[..i], defaultTime)|, column, e)
    ensures Rejected(lines, defaultTime, TableColumnTypeMismatch(tableName, column, i, e))
  {
    var ps := Pushes(lines[..i + 1], defaultTime);
    var q :| |Pushes(lines[..i], defaultTime)| <= q < |ps| && FirstClashAt(ps, q, column, e);
    var p :| 0 <= p < q && ps[p].0 == column && NewTypeName(ps[p].1) == e.expectedType;
    assert !Uniform(ps);
    NotUniformOnward(lines, i + 1, defaultTime);
  }

  /** The names of the columns `cs`. */
  function NamesOf(cs: seq<BatchColumn>): set<string>
  {
    set c | c in cs :: c.name
  }

  /** Each builder turned into its batch column, in the builders' order. */
  function BatchColumns(columns: Builders): (r: seq<BatchColumn>)
    ensures |r| == |columns| && forall k :: 0 <= k < |columns| ==> r[k] == ToBatchColumn(columns[k].0, columns[k].1)
  {
    seq(|columns|, k requires 0 <= k < |columns| => ToBatchColumn(columns[k].0, columns[k].1))
  }

  /** The batch built from the builders left by every line of `lines`. */
  lemma FinishedBatch(tableName: string, lines: seq<ParsedLine>, defaultTime: int, columns: Builders)
    requires Sorted(StrLt, columns)
    requires forall c :: c in BatchColumns(columns) ==>
               && ColumnRows(c) >= |lines|
               && (WellKeyed(lines) ==> ColumnRows(c) == |lines| && ColumnCells(c, |lines|) == ColumnOf(lines, c.name, defaultTime))
    requires NamesOf(BatchColumns(columns)) == ColumnNames(lines)
    requires |lines| > 0 ==> TimeBatchColumn(lines, defaultTime) in BatchColumns(columns)
    ensures BatchOf(TableBatch(tableName, BatchColumns(columns)), lines, defaultTime)
  {
    var batchColumns := BatchColumns(columns);
    if WellKeyed(lines) && batchColumns != [] {
      assert batchColumns[0] in batchColumns;
    }
  }

  /** The finished time column holds every line's timestamp. */
  lemma FinishedTime(lines: seq<ParsedLine>, defaultTime: int, columns: Builders)
    requires Sorted(StrLt, columns)
    requires |lines| > 0 ==> Get(columns, TimeColumnName) == Some(TimeBuilder(lines, defaultTime))
    ensures |lines| > 0 ==> TimeBatchColumn(lines, defaultTime) in BatchColumns(columns)
  {
    if |lines| > 0 {
      var k :| 0 <= k < |columns| && columns[k].0 == TimeColumnName;
      GetAtByName(columns, k);
      assert BatchColumns(columns)[k] == TimeBatchColumn(lines, defaultTime);
    }
  }

  /** Every finished column has a row per line, and exactly the lines' cells when no line names a column twice. */
  lemma FinishedColumns(lines: seq<ParsedLine>, defaultTime: int, columns: Builders)
    requires WellFormed(columns, |lines|) && (WellKeyed(lines) ==> Filled(columns, lines, defaultTime))
    ensures forall c :: c in BatchColumns(columns) ==>
              && ColumnRows(c) >= |lines|
              && (WellKeyed(lines) ==> ColumnRows(c) == |lines| && ColumnCells(c, |lines|) == ColumnOf(lines, c.name, defaultTime))
  {
    var batchColumns := BatchColumns(columns);
    forall c | c in batchColumns
      ensures ColumnRows(c) >= |lines|
      ensures WellKeyed(lines) ==> ColumnRows(c) == |lines| && ColumnCells(c, |lines|) == ColumnOf(lines, c.name, defaultTime)
    {
      var k := IndexOf(batchColumns, c);
      GetAtByName(columns, k);
      assert CellsOf(columns, c.name, |lines|) == Cells(columns[k].1);
      ColumnRowsOfBuilder(columns[k].0, columns[k].1);
      RecordedCells(columns[k].0, columns[k].1);
    }
  }

  /** The finished columns are named by exactly the names pushed. */
  lemma BatchNames(columns: Builders, ps: seq<(string, RawValue)>)
    requires Typed(columns, ps)
    ensures NamesOf(BatchColumns(columns)) == KeysOf(ps, |ps|)
  {
    var batchColumns := BatchColumns(columns);
    forall c | c in batchColumns ensures c.name in KeysOf(ps, |ps|) {
      var k := IndexOf(batchColumns, c);
      assert HasKey(columns, columns[k].0);
    }
    forall x | x in KeysOf(ps, |ps|) ensures exists c :: c in batchColumns && c.name == x {
      var k :| 0 <= k < |ps| && ps[k].0 == x;
      assert TypeOf(columns, x) == NewTypeName(ps[k].1) != "";
      var m :| 0 <= m < |columns| && columns[m].0 == x;
      assert batchColumns[m] in batchColumns;
    }
  }

  lemma SortedKeysKept(xs: Builders, ys: Builders)
    requires Sorted(StrLt, xs) && |ys| == |xs|
    requires forall k :: 0 <= k < |xs| ==> ys[k].0 == xs[k].0
    ensures Sorted(StrLt, ys)
  {
  }
}
