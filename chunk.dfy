/**
 * A chunk of the mutable buffer (mutable_buffer/src/chunk.rs): a registry
 * of tables keyed by the dictionary id of their name, one string
 * dictionary shared by the chunk, and a cached snapshot that a read fills
 * and a successful write clears.
 *
 * The mutable buffer's `Table` is not part of this model: the chunk reaches
 * it only through `TableOps`, whose functions stand for `Table::new`,
 * `write_columns`, `size` and `stats`.
 */
module MutableChunk {
  import opened Wrappers
  import opened EntryColumns
  import opened Dictionary
  import opened MutableColumn

  /**
   * What `Table::write_columns` leaves: the table as written, the strings
   * it interned into the chunk's dictionary, in order, and its error, if
   * any. A failing write may have changed the table and the dictionary
   * before it failed.
   */
  datatype ColumnsWritten<Table, TableError> = ColumnsWritten(table: Table, interned: seq<string>, error: Option<TableError>)

  /**
   * The table operations a chunk relies on. A table write reads the
   * dictionary's strings, to find the ids of the column names and tag
   * values it interns.
   */
  datatype TableOps<!Table, Summary, TableError> = TableOps(
    newTable: int -> Table,
    writeColumns: (Table, seq<string>, nat, nat, seq<EntryColumn>) -> ColumnsWritten<Table, TableError>,
    tableSize: Table -> nat,
    stats: (Table, seq<string>) -> Summary,
    packedSize: seq<string> -> nat)

  datatype ChunkError<TableError> =
    | TableWrite(tableName: string, source: TableError)
    | TableNotFoundInChunk(table: int, chunk: nat)

  /**
   * What a run of `write_table_batches` leaves: the tables, the
   * dictionary's strings, how many batches it wrote and its error.
   */
  datatype Outcome<Table, TableError> = Outcome(tables: map<int, Table>, storage: seq<string>, processed: nat,
                                                failure: Option<ChunkError<TableError>>)

  /** The dictionary's strings after interning `s`: appended unless already stored. */
  function Intern(storage: seq<string>, s: string): (r: seq<string>)
    ensures s in r && |storage| <= |r| && r[..|storage|] == storage
  {
    if s in storage then storage else storage + [s]
  }

  /**
   * The state after writing `batches` in order: each batch's table name is
   * interned, its table looked up by the name's id and created when absent,
   * and its columns written, interning what the write interns; the first
   * failing write stops the run, leaving its table and strings in place.
   */
  function WriteFrom<Table, Summary, TableError>(ops: TableOps<Table, Summary, TableError>, tables: map<int, Table>,
                                                 storage: seq<string>, clock: nat, writer: nat, batches: seq<TableBatch>)
    : (r: Outcome<Table, TableError>)
    ensures 1 <= r.processed <= |batches| || (r.processed == 0 && batches == [])
    ensures r.failure.None? ==> r.processed == |batches|
    ensures |storage| <= |r.storage| && r.storage[..|storage|] == storage
    decreases |batches|
  {
    if batches == [] then Outcome(tables, storage, 0, None)
    else
      var named := Intern(storage, batches[0].name);
      var tid := IdOf(named, batches[0].name);
      var table := if tid in tables then tables[tid] else ops.newTable(tid);
      var w := ops.writeColumns(table, named, clock, writer, Columns(batches[0]));
      var after := Interned(named, w.interned);
      if w.error.Some? then Outcome(tables[tid := w.table], after, 1, Some(TableWrite(batches[0].name, w.error.value)))
      else
        var rest := WriteFrom(ops, tables[tid := w.table], after, clock, writer, batches[1..]);
        rest.(processed := rest.processed + 1)
  }

  /** The first step of a write run from batch `i`. */
  lemma WriteFromUnfold<Table, Summary, TableError>(ops: TableOps<Table, Summary, TableError>, tables: map<int, Table>,
                                                    storage: seq<string>, clock: nat, writer: nat,
                                                    batches: seq<TableBatch>, i: nat)
    requires i < |batches|
    ensures var named := Intern(storage, batches[i].name);
            var tid := IdOf(named, batches[i].name);
            var table := if tid in tables then tables[tid] else ops.newTable(tid);
            var w := ops.writeColumns(table, named, clock, writer, Columns(batches[i]));
            var after := Interned(named, w.interned);
            WriteFrom(ops, tables, storage, clock, writer, batches[i..])
            == if w.error.Some? then Outcome(tables[tid := w.table], after, 1, Some(TableWrite(batches[i].name, w.error.value)))
               else
                 var rest := WriteFrom(ops, tables[tid := w.table], after, clock, writer, batches[i + 1..]);
                 rest.(processed := rest.processed + 1)
  {
    assert batches[i..][0] == batches[i];
    assert batches[i..][1..] == batches[i + 1..];
  }

  /**
   * Batch `i` of a write run on its way to `whole`: the run goes on from
   * the written table and the strings interned so far, or stops there with
   * its error.
   */
  lemma BatchOutcome<Table, Summary, TableError>(ops: TableOps<Table, Summary, TableError>, current: map<int, Table>,
                                                 storage: seq<string>, clock: nat, writer: nat,
                                                 batches: seq<TableBatch>, whole: Outcome<Table, TableError>, i: nat)
    requires i < |batches|
    requires var rest := WriteFrom(ops, current, storage, clock, writer, batches[i..]);
             whole == rest.(processed := rest.processed + i)
    ensures var named := Intern(storage, batches[i].name);
            var tid := IdOf(named, batches[i].name);
            var table := if tid in current then current[tid] else ops.newTable(tid);
            var w := ops.writeColumns(table, named, clock, writer, Columns(batches[i]));
            var after := Interned(named, w.interned);
            && |after| <= |whole.storage|
            && if w.error.Some? then whole == Outcome(current[tid := w.table], after, i + 1, Some(TableWrite(batches[i].name, w.error.value)))
               else
                 var rest := WriteFrom(ops, current[tid := w.table], after, clock, writer, batches[i + 1..]);
                 whole == rest.(processed := rest.processed + i + 1)
  {
    WriteFromUnfold(ops, current, storage, clock, writer, batches, i);
  }

  /** A batch written without error leaves a run whose rest is the run from the next batch. */
  lemma NextProgress<Table, Summary, TableError>(ops: TableOps<Table, Summary, TableError>, current: map<int, Table>,
                                                 storage: seq<string>, clock: nat, writer: nat,
                                                 batches: seq<TableBatch>, whole: Outcome<Table, TableError>, i: nat,
                                                 tid: int, tables: map<int, Table>, after: seq<string>)
    requires i < |batches|
    requires var rest := WriteFrom(ops, current, storage, clock, writer, batches[i..]);
             whole == rest.(processed := rest.processed + i)
    requires tid == IdOf(Intern(storage, batches[i].name), batches[i].name)
    requires var table := if tid in current then current[tid] else ops.newTable(tid);
             var w := ops.writeColumns(table, Intern(storage, batches[i].name), clock, writer, Columns(batches[i]));
             && w.error.None? && tables == current[tid := w.table] && after == Interned(Intern(storage, batches[i].name), w.interned)
    ensures var rest := WriteFrom(ops, tables, after, clock, writer, batches[i + 1..]);
            whole == rest.(processed := rest.processed + i + 1)
  {
    BatchOutcome(ops, current, storage, clock, writer, batches, whole, i);
  }

  /** The ids among `storage` of the names of the first `n` batches. */
  function TableIds(storage: seq<string>, batches: seq<TableBatch>, n: nat): set<int>
    requires n <= |batches|
  {
    if n == 0 then {} else {IdOf(storage, batches[0].name)} + TableIds(storage, batches[1..], n - 1)
  }

  lemma TableIdsFirst(storage: seq<string>, batches: seq<TableBatch>, n: nat)
    requires 1 <= n <= |batches|
    ensures TableIds(storage, batches, n) == {IdOf(storage, batches[0].name)} + TableIds(storage, batches[1..], n - 1)
  {
  }

  /** The first batch's name is in the dictionary a run leaves, under the id it got when interned. */
  lemma FirstNameKept<Table, Summary, TableError>(ops: TableOps<Table, Summary, TableError>, tables: map<int, Table>,
                                                  storage: seq<string>, clock: nat, writer: nat, batches: seq<TableBatch>)
    requires batches != []
    ensures var named := Intern(storage, batches[0].name);
            var final := WriteFrom(ops, tables, storage, clock, writer, batches).storage;
            && batches[0].name in final
            && IdOf(final, batches[0].name) == IdOf(named, batches[0].name)
  {
    var name := batches[0].name;
    var named := Intern(storage, name);
    var final := WriteFrom(ops, tables, storage, clock, writer, batches).storage;
    var tid := IdOf(named, name);
    var table := if tid in tables then tables[tid] else ops.newTable(tid);
    var w := ops.writeColumns(table, named, clock, writer, Columns(batches[0]));
    var after := Interned(named, w.interned);
    if w.error.None? {
      var rest := WriteFrom(ops, tables[tid := w.table], after, clock, writer, batches[1..]);
      assert final == rest.storage;
    }
    assert |after| <= |final| && final[..|after|] == after;
    assert final[..|named|] == after[..|named|];
    IdOfPrefix(named, final, name);
  }

  /**
   * A write run keeps every table it found and adds only the tables under
   * the ids of the names of the batches it wrote.
   */
  lemma {:induction false} WriteFromKeys<Table, Summary, TableError>(ops: TableOps<Table, Summary, TableError>,
                                                                  tables: map<int, Table>, storage: seq<string>,
                                                                  clock: nat, writer: nat, batches: seq<TableBatch>)
    ensures var r := WriteFrom(ops, tables, storage, clock, writer, batches);
            r.tables.Keys == tables.Keys + TableIds(r.storage, batches, r.processed)
    decreases |batches|
  {
    if batches != [] {
      var name := batches[0].name;
      var named := Intern(storage, name);
      var tid := IdOf(named, name);
      var table := if tid in tables then tables[tid] else ops.newTable(tid);
      var w := ops.writeColumns(table, named, clock, writer, Columns(batches[0]));
      var after := Interned(named, w.interned);
      var r := WriteFrom(ops, tables, storage, clock, writer, batches);
      FirstNameKept(ops, tables, storage, clock, writer, batches);
      if w.error.Some? {
        assert r == Outcome(tables[tid := w.table], after, 1, Some(TableWrite(name, w.error.value)));
        TableIdsFirst(r.storage, batches, 1);
        assert TableIds(r.storage, batches, 1) == {tid};
      } else {
        var rest := WriteFrom(ops, tables[tid := w.table], after, clock, writer, batches[1..]);
        assert r == rest.(processed := rest.processed + 1);
        WriteFromKeys(ops, tables[tid := w.table], after, clock, writer, batches[1..]);
        KeysCons(tables, tid, w.table, batches, rest, r);
      }
    }
  }

  /** The keys a run adds, from those its tail adds after the first batch's table. */
  lemma KeysCons<Table, TableError>(tables: map<int, Table>, tid: int, t: Table, batches: seq<TableBatch>,
                                    rest: Outcome<Table, TableError>, r: Outcome<Table, TableError>)
    requires batches != [] && r == rest.(processed := rest.processed + 1) && r.processed <= |batches|
    requires rest.tables.Keys == tables[tid := t].Keys + TableIds(rest.storage, batches[1..], rest.processed)
    requires IdOf(r.storage, batches[0].name) == tid
    ensures r.tables.Keys == tables.Keys + TableIds(r.storage, batches, r.processed)
  {
    TableIdsFirst(r.storage, batches, r.processed);
  }

  /** Every batch a write run wrote has its name interned in the dictionary it leaves. */
  lemma {:induction false} WriteFromInterns<Table, Summary, TableError>(ops: TableOps<Table, Summary, TableError>,
                                                                     tables: map<int, Table>, storage: seq<string>,
                                                                     clock: nat, writer: nat, batches: seq<TableBatch>, i: nat)
    requires i < WriteFrom(ops, tables, storage, clock, writer, batches).processed
    ensures batches[i].name in WriteFrom(ops, tables, storage, clock, writer, batches).storage
    decreases |batches|
  {
    FirstNameKept(ops, tables, storage, clock, writer, batches);
    if i > 0 {
      var name := batches[0].name;
      var named := Intern(storage, name);
      var tid := IdOf(named, name);
      var table := if tid in tables then tables[tid] else ops.newTable(tid);
      var w := ops.writeColumns(table, named, clock, writer, Columns(batches[0]));
      var after := Interned(named, w.interned);
      WriteFromInterns(ops, tables[tid := w.table], after, clock, writer, batches[1..], i - 1);
    }
  }

  /** The strings of `values` interned one after another, as a table write interns them. */
  method InternAll(dictionary: StringDictionary, values: seq<string>)
    requires dictionary.Valid() && |Interned(dictionary.storage, values)| <= dictionary.maxKey + 1
    modifies dictionary
    ensures dictionary.Valid() && dictionary.storage == Interned(old(dictionary.storage), values)
  {
    ghost var start := dictionary.storage;
    assert values[..0] == [];
    for k := 0 to |values|
      invariant dictionary.Valid() && dictionary.storage == Interned(start, values[..k])
    {
      var _ := InternNext(dictionary, start, values, k);
    }
    assert values[..|values|] == values;
  }

  /** Σ of the sizes of the tables whose id is below `n`. */
  function SizeBelow<Table, Summary, TableError>(ops: TableOps<Table, Summary, TableError>, tables: map<int, Table>, n: nat): nat
  {
    if n == 0 then 0
    else SizeBelow(ops, tables, n - 1) + (if n - 1 in tables then ops.tableSize(tables[n - 1]) else 0)
  }

  /** Replacing one table changes the total by the difference of its sizes. */
  lemma {:induction false} SizeBelowUpdate<Table, Summary, TableError>(ops: TableOps<Table, Summary, TableError>,
                                                                    tables: map<int, Table>, n: nat, tid: nat, t: Table)
    requires tid < n
    ensures SizeBelow(ops, tables[tid := t], n) + (if tid in tables then ops.tableSize(tables[tid]) else 0)
            == SizeBelow(ops, tables, n) + ops.tableSize(t)
  {
    if tid < n - 1 {
      SizeBelowUpdate(ops, tables, n - 1, tid, t);
    } else {
      SizeBelowSame(ops, tables, n - 1, tid, t);
    }
  }

  lemma {:induction false} SizeBelowSame<Table, Summary, TableError>(ops: TableOps<Table, Summary, TableError>,
                                                                  tables: map<int, Table>, n: nat, tid: nat, t: Table)
    requires n <= tid
    ensures SizeBelow(ops, tables[tid := t], n) == SizeBelow(ops, tables, n)
  {
    if n > 0 { SizeBelowSame(ops, tables, n - 1, tid, t); }
  }

  /** What `ChunkSnapshot::new` captures: the chunk's tables and table names. */
  class ChunkSnapshot<Table> {
    const tables: map<int, Table>
    const names: seq<string>

    constructor (tables: map<int, Table>, names: seq<string>)
      ensures this.tables == tables && this.names == names
    {
      this.tables := tables;
      this.names := names;
    }
  }

  class Chunk<Table, Summary, TableError> {
    const id: nat
    const ops: TableOps<Table, Summary, TableError>
    const dictionary: StringDictionary
    var tables: map<int, Table>
    var snapshot: Option<ChunkSnapshot<Table>>
    /** The bytes reported to the memory tracker. */
    var trackedBytes: nat

    ghost predicate Valid()
      reads this, dictionary
    {
      && dictionary.Valid()
      && dictionary.maxKey == DidMax
      && (forall tid :: tid in tables ==> 0 <= tid < |dictionary.storage|)
    }

    /** The cached snapshot, if any, shows the chunk's current tables. */
    ghost predicate Coherent()
      reads this
    {
      snapshot.Some? ==> snapshot.value.tables == tables
    }

    /** `size`: the tables' sizes plus the dictionary's. */
    function Size(): nat
      reads this, dictionary
      requires Valid()
    {
      SizeBelow(ops, tables, |dictionary.storage|) + dictionary.Size(ops.packedSize(dictionary.storage))
    }

    /** `Chunk::new`: no tables, an empty dictionary and no cached snapshot. */
    constructor (id: nat, ops: TableOps<Table, Summary, TableError>)
      ensures Valid() && Coherent() && fresh(dictionary)
      ensures this.id == id && this.ops == ops
      ensures tables == map[] && snapshot.None? && dictionary.storage == []
      ensures trackedBytes == Size()
    {
      this.id := id;
      this.ops := ops;
      dictionary := new StringDictionary(DidMax, DidBytes);
      tables := map[];
      snapshot := None;
      new;
      trackedBytes := Size();
    }

    /**
     * `write_table_batches` as written: each batch's table name is
     * interned and its table written, created on first sight. A failing
     * write returns at once, before the cached snapshot is cleared and
     * the memory tracker updated, keeping the batches written before it.
     * The dictionary must have room for every string the run interns.
     */
    method WriteTableBatches(clock: nat, writer: nat, batches: seq<TableBatch>)
      returns (r: Result<(), ChunkError<TableError>>)
      requires Valid()
      requires |WriteFrom(ops, tables, dictionary.storage, clock, writer, batches).storage| <= dictionary.maxKey + 1
      modifies this, dictionary
      ensures Valid()
      ensures var o := WriteFrom(ops, old(tables), old(dictionary.storage), clock, writer, batches);
              && tables == o.tables
              && dictionary.storage == o.storage
              && (r.Err? <==> o.failure.Some?)
              && (r.Err? ==> r.error == o.failure.value)
      ensures r.Ok? ==> snapshot.None? && trackedBytes == Size()
      ensures r.Err? ==> snapshot == old(snapshot) && trackedBytes == old(trackedBytes)
    {
      ghost var whole := WriteFrom(ops, tables, dictionary.storage, clock, writer, batches);
      var failure := WriteRun(clock, writer, batches, whole);
      if failure.Some? {
        return Err(failure.value);
      }
      snapshot := None;
      trackedBytes := Size();
      r := Ok(());
    }

    /** The batches of a write run in order, up to the first failing one; the snapshot and the tracker are left alone. */
    method WriteRun(clock: nat, writer: nat, batches: seq<TableBatch>, ghost whole: Outcome<Table, TableError>)
      returns (failure: Option<ChunkError<TableError>>)
      requires |whole.storage| <= dictionary.maxKey + 1
      requires Progress(clock, writer, batches, whole, 0)
      modifies this, dictionary
      ensures snapshot == old(snapshot) && trackedBytes == old(trackedBytes)
      ensures Valid() && tables == whole.tables && dictionary.storage == whole.storage && failure == whole.failure
    {
      var i := 0;
      while i < |batches|
        invariant Progress(clock, writer, batches, whole, i)
        invariant snapshot == old(snapshot) && trackedBytes == old(trackedBytes)
      {
        var written := WriteBatch(clock, writer, batches, whole, i);
        if written.Err? {
          return Some(TableWrite(batches[i].name, written.error));
        }
        i := i + 1;
      }
      assert batches[i..] == [];
      failure := None;
    }

    /** The state of a write run after its first `i` batches, on its way to `whole`. */
    ghost predicate Progress(clock: nat, writer: nat, batches: seq<TableBatch>, whole: Outcome<Table, TableError>, i: nat)
      reads this, dictionary
    {
      && i <= |batches|
      && Valid()
      && var rest := WriteFrom(ops, tables, dictionary.storage, clock, writer, batches[i..]);
         whole == rest.(processed := rest.processed + i)
    }

    /**
     * Batch `i` of a write run: its name interned and its table written;
     * the run goes on after it or stops with its error.
     */
    method WriteBatch(clock: nat, writer: nat, batches: seq<TableBatch>, ghost whole: Outcome<Table, TableError>, i: nat)
      returns (r: Result<(), TableError>)
      requires |whole.storage| <= dictionary.maxKey + 1
      requires i < |batches| && Progress(clock, writer, batches, whole, i)
      modifies this, dictionary
      ensures snapshot == old(snapshot) && trackedBytes == old(trackedBytes)
      ensures r.Ok? ==> Progress(clock, writer, batches, whole, i + 1)
      ensures r.Err? ==> && Valid()
                         && tables == whole.tables
                         && dictionary.storage == whole.storage
                         && whole.failure == Some(TableWrite(batches[i].name, r.error))
    {
      ghost var current := tables;
      ghost var storage := dictionary.storage;
      BatchOutcome(ops, current, storage, clock, writer, batches, whole, i);
      assert batches[i].name in dictionary.dedup <==> batches[i].name in storage;
      var tid := dictionary.LookupValueOrInsert(batches[i].name);
      r := WriteTable(tid, clock, writer, batches[i]);
      if r.Ok? {
        NextProgress(ops, current, storage, clock, writer, batches, whole, i, tid, tables, dictionary.storage);
      }
    }

    /**
     * One batch of `write_table_batches`: the table of id `tid`, created
     * and registered first if absent, is written the batch's columns,
     * which may intern strings into the dictionary; a failing write leaves
     * the table as the write left it.
     */
    method WriteTable(tid: int, clock: nat, writer: nat, batch: TableBatch) returns (r: Result<(), TableError>)
      requires Valid() && 0 <= tid < |dictionary.storage|
      requires var table := if tid in tables then tables[tid] else ops.newTable(tid);
               var w := ops.writeColumns(table, dictionary.storage, clock, writer, Columns(batch));
               |Interned(dictionary.storage, w.interned)| <= dictionary.maxKey + 1
      modifies this, dictionary
      ensures Valid()
      ensures var table := if tid in old(tables) then old(tables)[tid] else ops.newTable(tid);
              var w := ops.writeColumns(table, old(dictionary.storage), clock, writer, Columns(batch));
              && tables == old(tables)[tid := w.table]
              && dictionary.storage == Interned(old(dictionary.storage), w.interned)
              && (r.Err? <==> w.error.Some?)
              && (r.Err? ==> r.error == w.error.value)
      ensures snapshot == old(snapshot) && trackedBytes == old(trackedBytes)
    {
      var table := if tid in tables then tables[tid] else ops.newTable(tid);
      tables := tables[tid := table];
      var w := ops.writeColumns(table, dictionary.storage, clock, writer, Columns(batch));
      InternAll(dictionary, w.interned);
      tables := tables[tid := w.table];
      if w.error.Some? {
        return Err(w.error.value);
      }
      r := Ok(());
    }

    /**
     * `write_table_batches` with the snapshot cleared on every exit, the
     * error exit included: the cached snapshot never outlives a change of
     * the tables.
     */
    method WriteTableBatchesInvalidating(clock: nat, writer: nat, batches: seq<TableBatch>)
      returns (r: Result<(), ChunkError<TableError>>)
      requires Valid()
      requires |WriteFrom(ops, tables, dictionary.storage, clock, writer, batches).storage| <= dictionary.maxKey + 1
      modifies this, dictionary
      ensures Valid() && Coherent() && snapshot.None?
      ensures var o := WriteFrom(ops, old(tables), old(dictionary.storage), clock, writer, batches);
              && tables == o.tables
              && dictionary.storage == o.storage
              && (r.Err? <==> o.failure.Some?)
              && (r.Err? ==> r.error == o.failure.value)
    {
      r := WriteTableBatches(clock, writer, batches);
      snapshot := None;
    }

    /**
     * `snapshot`: the cached snapshot when there is one, else a new one
     * that is cached from then on.
     */
    method Snapshot() returns (s: ChunkSnapshot<Table>)
      modifies this
      ensures old(snapshot).Some? ==> s == old(snapshot).value && snapshot == old(snapshot)
      ensures old(snapshot).None? ==> fresh(s) && s.tables == tables && snapshot == Some(s)
      ensures tables == old(tables) && trackedBytes == old(trackedBytes)
      ensures old(Coherent()) ==> Coherent() && s.tables == tables
    {
      if snapshot.Some? {
        return snapshot.value;
      }
      var names := dictionary.storage;
      s := new ChunkSnapshot(tables, names);
      snapshot := Some(s);
    }

    /** `is_empty`: no table has been created. */
    function IsEmpty(): (r: bool)
      reads this
      ensures r <==> tables == map[]
    {
      |tables| == 0
    }

    /** The names of the chunk's tables. */
    ghost function TableNames(): set<string>
      reads this, dictionary
      requires Valid()
    {
      set tid | tid in tables :: dictionary.storage[tid]
    }

    /**
     * `all_table_names`: `names` with the name of every table of the chunk
     * added; names already present stay.
     */
    method AllTableNames(names: set<string>) returns (r: set<string>)
      requires Valid()
      ensures r == names + TableNames()
    {
      r := names;
      for tid := 0 to |dictionary.storage|
        invariant r == names + set t | t in tables && t < tid :: dictionary.storage[t]
      {
        if tid in tables {
          var name := dictionary.LookupId(tid).value;
          if name !in r {
            r := r + {name};
          }
        }
      }
    }

    /**
     * `table_summaries`: every table's statistics under its name. The
     * order of the source's hash-map iteration is not modelled.
     */
    function TableSummaries(): (r: map<string, Summary>)
      reads this, dictionary
      requires Valid()
      ensures r.Keys == TableNames()
      ensures forall tid :: tid in tables ==> r[dictionary.storage[tid]] == ops.stats(tables[tid], dictionary.storage)
    {
      map tid | tid in tables :: dictionary.storage[tid] := ops.stats(tables[tid], dictionary.storage)
    }

    /**
     * `table`: nothing for a name the dictionary never saw; an error for an
     * interned name without a table; otherwise that name's table.
     */
    function Table(name: string): (r: Result<Option<Table>, ChunkError<TableError>>)
      reads this, dictionary
      requires Valid()
      ensures r == Ok(None) <==> name !in dictionary.storage
      ensures r.Err? <==> name in dictionary.storage && IdOf(dictionary.storage, name) !in tables
      ensures r.Err? ==> r.error == TableNotFoundInChunk(IdOf(dictionary.storage, name), id)
      ensures r.Ok? && r.value.Some? ==>
                exists tid :: tid in tables && dictionary.storage[tid] == name && r.value.value == tables[tid]
    {
      match dictionary.Id(name)
      case None => Ok(None)
      case Some(tid) =>
        if tid in tables then Ok(Some(tables[tid]))
        else Err(TableNotFoundInChunk(tid, id))
    }

    /** `has_table`: the chunk holds a table of this name. */
    function HasTable(name: string): (r: bool)
      reads this, dictionary
      requires Valid()
      ensures r <==> name in TableNames()
    {
      var t := Table(name);
      assert name in TableNames() ==> t.Ok? && t.value.Some? by {
        if name in TableNames() {
          var tid :| tid in tables && dictionary.storage[tid] == name;
          DistinctIndex(dictionary.storage, tid);
        }
      }
      t.Ok? && t.value.Some?
    }
  }

  /**
   * As in the source's snapshot test: two snapshots without a write in
   * between are the same object, and a successful write makes the next
   * snapshot a new one.
   */
  method SnapshotCaching<Table, Summary, TableError>(c: Chunk<Table, Summary, TableError>, clock: nat, writer: nat,
                                                     batches: seq<TableBatch>)
    returns (s1: ChunkSnapshot<Table>, s2: ChunkSnapshot<Table>, s3: ChunkSnapshot<Table>, s4: ChunkSnapshot<Table>)
    requires c.Valid()
    requires |WriteFrom(c.ops, c.tables, c.dictionary.storage, clock, writer, batches).storage| <= c.dictionary.maxKey + 1
    modifies c, c.dictionary
    ensures s1 == s2 && s3 == s4
    ensures s3 != s1 || WriteFrom(c.ops, old(c.tables), old(c.dictionary.storage), clock, writer, batches).failure.Some?
  {
    s1 := c.Snapshot();
    s2 := c.Snapshot();
    var r := c.WriteTableBatches(clock, writer, batches);
    s3 := c.Snapshot();
    s4 := c.Snapshot();
  }

  /** Table writes over counters that fail on a batch without columns and intern nothing. */
  function FailOnEmpty(): TableOps<int, int, string>
  {
    TableOps(
      (tid: int) => 0,
      (t: int, strings: seq<string>, clock: nat, writer: nat, columns: seq<EntryColumn>) =>
        if columns == [] then ColumnsWritten(t, [], Some("no columns")) else ColumnsWritten(t + 1, [], None),
      (t: int) => 0,
      (t: int, strings: seq<string>) => t,
      (strings: seq<string>) => 0)
  }

  function CpuBatch(): TableBatch
  {
    TableBatch("cpu", [BatchColumn("time", TimeColumn, I64Values([1]), None)])
  }

  /** Writing "cpu" then an empty "mem" creates both tables and fails on the second. */
  lemma GoodThenBad()
    ensures WriteFrom(FailOnEmpty(), map[], [], 0, 0, [CpuBatch(), TableBatch("mem", [])])
            == Outcome(map[0 := 1, 1 := 0], ["cpu", "mem"], 2, Some(TableWrite("mem", "no columns")))
  {
    var ops := FailOnEmpty();
    var bad := TableBatch("mem", []);
    assert WriteFrom(ops, map[0 := 1], ["cpu"], 0, 0, [bad])
           == Outcome(map[0 := 1, 1 := 0], ["cpu", "mem"], 1, Some(TableWrite("mem", "no columns"))) by {
      assert IdOf(["cpu", "mem"], "mem") == 1 by { assert IndexOf(["cpu", "mem"][1..], "mem") == Some(0); }
    }
    assert [CpuBatch(), bad][1..] == [bad];
    assert IdOf(["cpu"], "cpu") == 0;
    assert Interned(["cpu"], []) == ["cpu"];
  }

  /**
   * A failing write leaves a stale cached snapshot behind: a chunk whose
   * table writes fail on a batch without columns is snapshotted, then
   * written a good batch followed by a failing one. The good batch's table
   * is in the chunk, but the next snapshot is the old one, without it.
   */
  method StaleSnapshotAfterFailedWrite() returns (c: Chunk<int, int, string>, s: ChunkSnapshot<int>)
    ensures c.tables != s.tables
  {
    c := new Chunk(1, FailOnEmpty());
    var before := c.Snapshot();
    GoodThenBad();
    var r := c.WriteTableBatches(0, 0, [CpuBatch(), TableBatch("mem", [])]);
    s := c.Snapshot();
    assert s == before && s.tables == map[];
  }

  /** Table writes that intern the tag name "host". */
  function InternsHost(): TableOps<int, int, string>
  {
    TableOps(
      (tid: int) => 0,
      (t: int, strings: seq<string>, clock: nat, writer: nat, columns: seq<EntryColumn>) => ColumnsWritten(t, ["host"], None),
      (t: int) => 0,
      (t: int, strings: seq<string>) => t,
      (strings: seq<string>) => 0)
  }

  /** Writing "cpu" interns "cpu", then "host". */
  lemma CpuThenHost()
    ensures WriteFrom(InternsHost(), map[], [], 0, 0, [CpuBatch()]) == Outcome(map[0 := 0], ["cpu", "host"], 1, None)
  {
    assert IdOf(["cpu"], "cpu") == 0;
    assert Interned(["cpu"], ["host"]) == ["cpu", "host"] by { assert ["host"][..0] == []; }
    assert [CpuBatch()][1..] == [];
  }

  /**
   * Column names (tag names among them) share the dictionary with table
   * names; tag values go to each tag column's own dictionary. A
   * write to table "cpu" whose table write interns the tag name "host"
   * leaves "host" interned without a table, and asking for table "host"
   * is an error rather than no table.
   */
  method TagNameIsNoTable() returns (c: Chunk<int, int, string>)
    ensures c.Valid() && c.Table("host") == Err(TableNotFoundInChunk(1, 7))
  {
    c := new Chunk(7, InternsHost());
    CpuThenHost();
    var r := c.WriteTableBatches(0, 0, [CpuBatch()]);
    assert IndexOf(["cpu", "host"], "host") == Some(1);
  }
}
