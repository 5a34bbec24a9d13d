/**
 * A table of a chunk persisted as a parquet file (parquet_file/src/table.rs):
 * its summary, path and schema, and the time range read off the summary's
 * time column, which decides whether the table can match a query's time
 * range.
 *
 * `TimestampRange::disjoint` is not part of this model: it is a parameter.
 * The schema is the list of its field names.
 */
module ParquetTable {
  import opened Wrappers
  import opened Pruning
  import opened ObjectPaths

  const TimeColumnName := "time"

  datatype TimestampRange = TimestampRange(start: int, end: int)

  /** `Selection`: all columns, or the listed ones. */
  datatype Selection = All | Columns(columns: seq<string>)

  datatype Table = Table(
    summary: TableSummary,
    path: ObjectPath,
    schemaFields: seq<string>,
    timestampRange: Option<TimestampRange>)

  /**
   * `extract_range`: the range from the minimum to the maximum of the time
   * column, when the summary has a time column with integer statistics
   * holding both bounds.
   */
  function ExtractRange(summary: TableSummary): (r: Option<TimestampRange>)
    ensures r.Some? <==> && ColumnSummaryOf(summary, TimeColumnName).Some?
                         && ColumnSummaryOf(summary, TimeColumnName).value.stats.I64?
                         && ColumnSummaryOf(summary, TimeColumnName).value.stats.i64Stats.min.Some?
                         && ColumnSummaryOf(summary, TimeColumnName).value.stats.i64Stats.max.Some?
    ensures r.Some? ==> var c := ColumnSummaryOf(summary, TimeColumnName).value;
                        && c in summary.columns
                        && r.value == TimestampRange(c.stats.i64Stats.min.value, c.stats.i64Stats.max.value)
  {
    match ColumnSummaryOf(summary, TimeColumnName)
    case None => None
    case Some(c) =>
      if c.stats.I64? && c.stats.i64Stats.min.Some? && c.stats.i64Stats.max.Some? then
        Some(TimestampRange(c.stats.i64Stats.min.value, c.stats.i64Stats.max.value))
      else None
  }

  /** `Table::new`: the time range is extracted from the summary once. */
  function NewTable(summary: TableSummary, path: ObjectPath, schemaFields: seq<string>): (t: Table)
    ensures t.summary == summary && t.path == path && t.schemaFields == schemaFields
    ensures t.timestampRange == ExtractRange(summary)
  {
    Table(summary, path, schemaFields, ExtractRange(summary))
  }

  /**
   * `matches_predicate`: a query without a time range matches every table;
   * with one, the table matches when it has a time range not disjoint from
   * the query's.
   */
  function MatchesPredicate(table: Table, range: Option<TimestampRange>,
                            disjoint: (TimestampRange, TimestampRange) -> bool): (r: bool)
    ensures r <==> range.None? || (table.timestampRange.Some? && !disjoint(table.timestampRange.value, range.value))
  {
    match (table.timestampRange, range)
    case (Some(a), Some(b)) => !disjoint(a, b)
    case (None, Some(_)) => false
    case (_, None) => true
  }

  /** A table whose summary has no usable time column never matches a query that has a time range. */
  lemma NoTimeNeverMatches(summary: TableSummary, path: ObjectPath, schemaFields: seq<string>,
                           range: TimestampRange, disjoint: (TimestampRange, TimestampRange) -> bool)
    requires forall c :: c in summary.columns ==> c.name != TimeColumnName
    ensures !MatchesPredicate(NewTable(summary, path, schemaFields), Some(range), disjoint)
  {
  }

  /**
   * `column_names`: the names of the schema's fields, all of them or those
   * the selection lists.
   */
  function ColumnNames(table: Table, selection: Selection): (r: set<string>)
    ensures selection.All? ==> forall name :: name in r <==> name in table.schemaFields
    ensures selection.Columns? ==> forall name :: name in r <==> name in table.schemaFields && name in selection.columns
  {
    match selection
    case All => set name | name in table.schemaFields
    case Columns(cols) => set name | name in table.schemaFields && name in cols
  }

  /** Selecting columns only narrows the names. */
  lemma ColumnNamesNarrow(table: Table, cols: seq<string>)
    ensures ColumnNames(table, Columns(cols)) <= ColumnNames(table, All)
    ensures ColumnNames(table, Columns(cols)) == ColumnNames(table, All) * set c | c in cols
  {
  }

  /** The count of a column's statistics. */
  function Count(stats: Statistics): nat
  {
    match stats
    case I64(v) => v.count
    case U64(v) => v.count
    case F64(v) => v.count
    case Bool(v) => v.count
    case String(v) => v.count
  }

  /** Every column of the table's summary counts the same number of rows. */
  predicate SameRowCounts(table: Table)
  {
    forall i, j :: 0 <= i < j < |table.summary.columns| ==>
      Count(table.summary.columns[i].stats) == Count(table.summary.columns[j].stats)
  }

  /**
   * `rows`: the row count of one of the table's columns; the first
   * column's, which is every column's since all columns have the same rows.
   * The source indexes the first column, and panics on a table without
   * columns.
   */
  function Rows(table: Table): (r: nat)
    requires |table.summary.columns| > 0
    ensures exists c :: c in table.summary.columns && Count(c.stats) == r
  {
    Count(table.summary.columns[0].stats)
  }

  /** When the columns agree, as a table's columns do, `rows` is the row count of each of them. */
  lemma {:induction false} RowsOfEveryColumn(table: Table, i: nat)
    requires SameRowCounts(table) && i < |table.summary.columns|
    ensures Rows(table) == Count(table.summary.columns[i].stats)
  {
    if i > 0 {
      assert Count(table.summary.columns[0].stats) == Count(table.summary.columns[i].stats);
    }
  }
}
