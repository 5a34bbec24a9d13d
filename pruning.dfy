/**
 * Statistics-based chunk pruning (query/src/pruning.rs): each chunk of a
 * query is kept or skipped by evaluating the query's filter expression
 * against the chunk's summary statistics, and an observer is told what
 * was decided.
 *
 * The pruning predicate of the query engine is not part of this model: it
 * is the `PruningOracle`, whose `tryNew` builds a predicate for a filter
 * expression and a chunk's schema, and whose `evaluate` answers, from the
 * chunk's statistics, whether the chunk's single container may hold
 * matching rows. The observer's callbacks are the returned event list.
 */
module Pruning {
  import opened Wrappers

  /** Minimum, maximum and count of a column; floats are carried, not compared. */
  datatype StatValues<T> = StatValues(min: Option<T>, max: Option<T>, count: nat)

  datatype Statistics =
    | I64(i64Stats: StatValues<int>)
    | U64(u64Stats: StatValues<nat>)
    | F64(f64Stats: StatValues<real>)
    | Bool(boolStats: StatValues<bool>)
    | String(stringStats: StatValues<string>)

  datatype ColumnSummary = ColumnSummary(name: string, stats: Statistics)

  datatype TableSummary = TableSummary(name: string, columns: seq<ColumnSummary>)

  /** The scalar values statistics convert to. */
  datatype ScalarValue =
    | Int64(i: int)
    | UInt64(u: nat)
    | Float64(f: real)
    | Boolean(b: bool)
    | Utf8(s: string)

  /** A chunk as pruning sees it: an identity, its summary and its schema. */
  datatype Prunable<Id, Schema> = Prunable(id: Id, summary: TableSummary, schema: Schema)

  /** A `PruningObserver` callback. */
  datatype Event<Id> =
    | WasPruned(chunk: Id)
    | CouldNotPrune(reason: string)
    | CouldNotPruneChunk(chunk: Id, reason: string)

  /** The query engine's pruning predicate: `PruningPredicate::try_new` and `prune`. */
  datatype PruningOracle<!Expr, !Schema, !Predicate, BuildError, EvalError> = PruningOracle(
    tryNew: (Expr, Schema) -> Result<Predicate, BuildError>,
    evaluate: (Predicate, TableSummary) -> Result<bool, EvalError>)

  const NoExpression := "No expression on predicate"
  const CannotCreate := "Can not create pruning predicate"
  const CannotEvaluate := "Can not evaluate pruning predicate"

  /** Whether a chunk is kept, with the events its decision raised. */
  datatype Decision<Id> = Decision(keep: bool, events: seq<Event<Id>>)

  /**
   * `must_keep`: a chunk whose predicate cannot be built, or cannot be
   * evaluated against its statistics, is kept with a reason; otherwise the
   * evaluation decides, and a pruned chunk is reported as such.
   */
  function MustKeep<Id, Schema, Expr, Predicate, BuildError, EvalError>(
    oracle: PruningOracle<Expr, Schema, Predicate, BuildError, EvalError>, chunk: Prunable<Id, Schema>, expr: Expr)
    : (d: Decision<Id>)
    ensures oracle.tryNew(expr, chunk.schema).Err? ==>
              d == Decision(true, [CouldNotPruneChunk(chunk.id, CannotCreate)])
    ensures oracle.tryNew(expr, chunk.schema).Ok? ==>
              match oracle.evaluate(oracle.tryNew(expr, chunk.schema).value, chunk.summary)
              case Err(_) => d == Decision(true, [CouldNotPruneChunk(chunk.id, CannotEvaluate)])
              case Ok(b) => d.keep == b
    ensures !d.keep <==> d.events == [WasPruned(chunk.id)]
    ensures d.keep ==> forall e :: e in d.events ==> e.CouldNotPruneChunk? && e.chunk == chunk.id
  {
    match oracle.tryNew(expr, chunk.schema)
    case Err(_) => Decision(true, [CouldNotPruneChunk(chunk.id, CannotCreate)])
    case Ok(built) =>
      match oracle.evaluate(built, chunk.summary)
      case Err(_) => Decision(true, [CouldNotPruneChunk(chunk.id, CannotEvaluate)])
      case Ok(keep) => if keep then Decision(true, []) else Decision(false, [WasPruned(chunk.id)])
  }

  /** The chunks that survive, in input order, and every event raised, chunk by chunk. */
  datatype Pruned<Id, Schema> = Pruned(chunks: seq<Prunable<Id, Schema>>, events: seq<Event<Id>>)

  /** The filter over chunks that `prune_chunks` runs once it has an expression. */
  function FilterChunks<Id, Schema, Expr, Predicate, BuildError, EvalError>(
    oracle: PruningOracle<Expr, Schema, Predicate, BuildError, EvalError>, chunks: seq<Prunable<Id, Schema>>, expr: Expr)
    : (r: Pruned<Id, Schema>)
    ensures |r.chunks| <= |chunks|
  {
    if chunks == [] then Pruned([], [])
    else
      var d := MustKeep(oracle, chunks[0], expr);
      var rest := FilterChunks(oracle, chunks[1..], expr);
      Pruned(if d.keep then [chunks[0]] + rest.chunks else rest.chunks, d.events + rest.events)
  }

  /** A chunk is returned exactly when it is one of the input chunks that `must_keep` keeps. */
  lemma {:induction false} FilterKeeps<Id, Schema, Expr, Predicate, BuildError, EvalError>(
    oracle: PruningOracle<Expr, Schema, Predicate, BuildError, EvalError>, chunks: seq<Prunable<Id, Schema>>, expr: Expr)
    ensures forall c :: c in FilterChunks(oracle, chunks, expr).chunks <==> c in chunks && MustKeep(oracle, c, expr).keep
  {
    if chunks != [] {
      FilterKeeps(oracle, chunks[1..], expr);
      assert forall c :: c in chunks <==> c == chunks[0] || c in chunks[1..];
    }
  }

  /**
   * `prune_chunks`: without a filter expression every chunk is returned,
   * and the only event says so; otherwise the chunks are filtered.
   */
  function PruneChunks<Id, Schema, Expr, Predicate, BuildError, EvalError>(
    oracle: PruningOracle<Expr, Schema, Predicate, BuildError, EvalError>, chunks: seq<Prunable<Id, Schema>>,
    filterExpr: Option<Expr>)
    : (r: Pruned<Id, Schema>)
    ensures filterExpr.None? ==> r == Pruned(chunks, [CouldNotPrune(NoExpression)])
    ensures filterExpr.Some? ==> forall e :: e in r.events ==> !e.CouldNotPrune?
  {
    match filterExpr
    case None => Pruned(chunks, [CouldNotPrune(NoExpression)])
    case Some(expr) =>
      var r := FilterChunks(oracle, chunks, expr);
      FilterEvents(oracle, chunks, expr);
      r
  }

  /** Every event of a filter run concerns one of the chunks. */
  lemma {:induction false} FilterEvents<Id, Schema, Expr, Predicate, BuildError, EvalError>(
    oracle: PruningOracle<Expr, Schema, Predicate, BuildError, EvalError>, chunks: seq<Prunable<Id, Schema>>, expr: Expr)
    ensures forall e :: e in FilterChunks(oracle, chunks, expr).events ==>
              (e.WasPruned? || e.CouldNotPruneChunk?) && exists c :: c in chunks && c.id == e.chunk
  {
    if chunks != [] {
      FilterEvents(oracle, chunks[1..], expr);
      var d := MustKeep(oracle, chunks[0], expr);
      forall e | e in FilterChunks(oracle, chunks, expr).events
        ensures (e.WasPruned? || e.CouldNotPruneChunk?) && exists c :: c in chunks && c.id == e.chunk
      {
        if e in d.events {
          assert chunks[0] in chunks;
        } else {
          var c :| c in chunks[1..] && c.id == e.chunk;
          assert c in chunks;
        }
      }
    }
  }

  /**
   * Chunks are decided one by one: filtering a concatenation is filtering
   * each part, so no chunk's outcome depends on another chunk.
   */
  lemma {:induction false} FilterAppend<Id, Schema, Expr, Predicate, BuildError, EvalError>(
    oracle: PruningOracle<Expr, Schema, Predicate, BuildError, EvalError>,
    a: seq<Prunable<Id, Schema>>, b: seq<Prunable<Id, Schema>>, expr: Expr)
    ensures FilterChunks(oracle, a + b, expr).chunks ==
            FilterChunks(oracle, a, expr).chunks + FilterChunks(oracle, b, expr).chunks
    ensures FilterChunks(oracle, a + b, expr).events ==
            FilterChunks(oracle, a, expr).events + FilterChunks(oracle, b, expr).events
  {
    if a != [] {
      var ab := a + b;
      assert ab[0] == a[0] && ab[1..] == a[1..] + b;
      FilterAppend(oracle, a[1..], b, expr);
      var d := MustKeep(oracle, a[0], expr);
      var restA := FilterChunks(oracle, a[1..], expr);
      var restB := FilterChunks(oracle, b, expr);
      FilterUnfold(oracle, ab, expr);
      FilterUnfold(oracle, a, expr);
      if d.keep {
        assert [a[0]] + (restA.chunks + restB.chunks) == ([a[0]] + restA.chunks) + restB.chunks;
      }
      assert d.events + (restA.events + restB.events) == (d.events + restA.events) + restB.events;
    } else {
      assert a + b == b;
      assert FilterChunks(oracle, a, expr) == Pruned([], []);
    }
  }

  /** The first step of the filter over a non-empty sequence of chunks. */
  lemma FilterUnfold<Id, Schema, Expr, Predicate, BuildError, EvalError>(
    oracle: PruningOracle<Expr, Schema, Predicate, BuildError, EvalError>, chunks: seq<Prunable<Id, Schema>>, expr: Expr)
    requires chunks != []
    ensures var d := MustKeep(oracle, chunks[0], expr);
            var rest := FilterChunks(oracle, chunks[1..], expr);
            && FilterChunks(oracle, chunks, expr).chunks == (if d.keep then [chunks[0]] else []) + rest.chunks
            && FilterChunks(oracle, chunks, expr).events == d.events + rest.events
  {
  }

  /**
   * A single chunk is returned exactly when `must_keep` keeps it, and its
   * decision's events are the events; with `FilterAppend` this makes the
   * output the kept chunks in input order.
   */
  lemma FilterOne<Id, Schema, Expr, Predicate, BuildError, EvalError>(
    oracle: PruningOracle<Expr, Schema, Predicate, BuildError, EvalError>, chunk: Prunable<Id, Schema>, expr: Expr)
    ensures FilterChunks(oracle, [chunk], expr) ==
            Pruned(if MustKeep(oracle, chunk, expr).keep then [chunk] else [], MustKeep(oracle, chunk, expr).events)
  {
    assert [chunk][1..] == [];
  }

  /**
   * Pruning is only as sound as the predicate: if the predicate never
   * rules out a chunk that may hold a matching row, such a chunk is
   * always returned.
   */
  lemma PruneChunksSound<Id, Schema, Expr, Predicate, BuildError, EvalError>(
    oracle: PruningOracle<Expr, Schema, Predicate, BuildError, EvalError>, chunks: seq<Prunable<Id, Schema>>,
    filterExpr: Option<Expr>, mayMatch: Prunable<Id, Schema> -> bool)
    requires filterExpr.Some? ==>
               forall c :: c in chunks && mayMatch(c) && oracle.tryNew(filterExpr.value, c.schema).Ok? ==>
                 oracle.evaluate(oracle.tryNew(filterExpr.value, c.schema).value, c.summary) != Ok(false)
    ensures forall c :: c in chunks && mayMatch(c) ==> c in PruneChunks(oracle, chunks, filterExpr).chunks
  {
    if filterExpr.Some? {
      FilterKeeps(oracle, chunks, filterExpr.value);
      forall c | c in chunks && mayMatch(c) ensures MustKeep(oracle, c, filterExpr.value).keep {
        var built := oracle.tryNew(filterExpr.value, c.schema);
        if built.Ok? {
          assert oracle.evaluate(built.value, c.summary) != Ok(false);
        }
      }
    }
  }

  /** Every pruned chunk is reported exactly once, through its own decision. */
  lemma PrunedReported<Id, Schema, Expr, Predicate, BuildError, EvalError>(
    oracle: PruningOracle<Expr, Schema, Predicate, BuildError, EvalError>, chunks: seq<Prunable<Id, Schema>>, expr: Expr, i: nat)
    requires i < |chunks| && chunks[i] !in FilterChunks(oracle, chunks, expr).chunks
    ensures MustKeep(oracle, chunks[i], expr).events == [WasPruned(chunks[i].id)]
  {
    FilterKeeps(oracle, chunks, expr);
    assert chunks[i] in chunks;
  }

  /** `PrunableStats::column_summary`: the first column of that name. */
  function ColumnSummaryOf(summary: TableSummary, column: string): (r: Option<ColumnSummary>)
    ensures r.None? <==> forall c :: c in summary.columns ==> c.name != column
    ensures r.Some? ==> exists i :: && 0 <= i < |summary.columns| && summary.columns[i] == r.value
                                    && r.value.name == column
                                    && forall j :: 0 <= j < i ==> summary.columns[j].name != column
  {
    FindColumn(summary.columns, column)
  }

  function FindColumn(columns: seq<ColumnSummary>, column: string): (r: Option<ColumnSummary>)
    ensures r.None? <==> forall c :: c in columns ==> c.name != column
    ensures r.Some? ==> exists i :: && 0 <= i < |columns| && columns[i] == r.value && r.value.name == column
                                    && forall j :: 0 <= j < i ==> columns[j].name != column
  {
    if columns == [] then None
    else if columns[0].name == column then Some(columns[0])
    else
      var r := FindColumn(columns[1..], column);
      assert forall c :: c in columns ==> c == columns[0] || c in columns[1..];
      if r.Some? then
        var i :| && 0 <= i < |columns[1..]| && columns[1..][i] == r.value && r.value.name == column
                 && forall j :: 0 <= j < i ==> columns[1..][j].name != column;
        assert columns[i + 1] == r.value;
        assert forall j :: 1 <= j < i + 1 ==> columns[j] == columns[1..][j - 1];
        r
      else r
  }

  /** The minimum of a statistic as a scalar of the matching type. */
  function MinToScalar(stats: Statistics): (r: Option<ScalarValue>)
    ensures r.None? <==> match stats
                         case I64(v) => v.min.None?
                         case U64(v) => v.min.None?
                         case F64(v) => v.min.None?
                         case Bool(v) => v.min.None?
                         case String(v) => v.min.None?
    ensures r.Some? ==> SameType(stats, r.value)
  {
    match stats
    case I64(v) => if v.min.Some? then Some(Int64(v.min.value)) else None
    case U64(v) => if v.min.Some? then Some(UInt64(v.min.value)) else None
    case F64(v) => if v.min.Some? then Some(Float64(v.min.value)) else None
    case Bool(v) => if v.min.Some? then Some(Boolean(v.min.value)) else None
    case String(v) => if v.min.Some? then Some(Utf8(v.min.value)) else None
  }

  /** The maximum of a statistic as a scalar of the matching type. */
  function MaxToScalar(stats: Statistics): (r: Option<ScalarValue>)
    ensures r.None? <==> match stats
                         case I64(v) => v.max.None?
                         case U64(v) => v.max.None?
                         case F64(v) => v.max.None?
                         case Bool(v) => v.max.None?
                         case String(v) => v.max.None?
    ensures r.Some? ==> SameType(stats, r.value)
  {
    match stats
    case I64(v) => if v.max.Some? then Some(Int64(v.max.value)) else None
    case U64(v) => if v.max.Some? then Some(UInt64(v.max.value)) else None
    case F64(v) => if v.max.Some? then Some(Float64(v.max.value)) else None
    case Bool(v) => if v.max.Some? then Some(Boolean(v.max.value)) else None
    case String(v) => if v.max.Some? then Some(Utf8(v.max.value)) else None
  }

  /** A scalar has the type of a statistic. */
  predicate SameType(stats: Statistics, s: ScalarValue)
  {
    match stats
    case I64(_) => s.Int64?
    case U64(_) => s.UInt64?
    case F64(_) => s.Float64?
    case Bool(_) => s.Boolean?
    case String(_) => s.Utf8?
  }

  /**
   * `min_values`: an array of one scalar, the column's minimum; nothing
   * when the column has no summary or no minimum.
   */
  function MinValues(summary: TableSummary, column: string): (r: Option<seq<ScalarValue>>)
    ensures r.None? <==> ColumnSummaryOf(summary, column).None? || MinToScalar(ColumnSummaryOf(summary, column).value.stats).None?
    ensures r.Some? ==> |r.value| == NumContainers() && r.value[0] == MinToScalar(ColumnSummaryOf(summary, column).value.stats).value
  {
    match ColumnSummaryOf(summary, column)
    case None => None
    case Some(c) =>
      match MinToScalar(c.stats)
      case None => None
      case Some(s) => Some(seq(NumContainers(), _ => s))
  }

  /**
   * `max_values`: an array of one scalar, the column's maximum; nothing
   * when the column has no summary or no maximum.
   */
  function MaxValues(summary: TableSummary, column: string): (r: Option<seq<ScalarValue>>)
    ensures r.None? <==> ColumnSummaryOf(summary, column).None? || MaxToScalar(ColumnSummaryOf(summary, column).value.stats).None?
    ensures r.Some? ==> |r.value| == NumContainers() && r.value[0] == MaxToScalar(ColumnSummaryOf(summary, column).value.stats).value
  {
    match ColumnSummaryOf(summary, column)
    case None => None
    case Some(c) =>
      match MaxToScalar(c.stats)
      case None => None
      case Some(s) => Some(seq(NumContainers(), _ => s))
  }

  /** `num_containers`: one summary is one container. */
  function NumContainers(): (n: nat)
    ensures n == 1
  {
    1
  }
}
