/**
 * `lines_to_sharded_entries` (internal_types/src/entry.rs): lines are
 * grouped by shard, then partition key, then table, each level kept in key
 * order as the source's nested `BTreeMap`s keep it, and every group becomes
 * one table write batch. The sharder, the partitioner and the clock are
 * outside the model and are given as parameters.
 */
module EntrySharding {
  import opened Wrappers
  import opened Orders
  import opened SortedMaps
  import opened EntryColumns
  import opened EntryBatches

  type Shard = Option<nat>
  type Key = (Shard, string, string)
  type TableLines = Entries<string, seq<ParsedLine>>
  type PartitionLines = Entries<string, TableLines>
  type ShardLines = Entries<Shard, PartitionLines>

  /** `PartitionWrite`: a partition key and its table batches. */
  datatype PartitionWrite = PartitionWrite(key: string, tableBatches: seq<TableBatch>)

  /** `ShardedEntry`: an optional shard id and the partition writes of its entry. */
  datatype ShardedEntry = ShardedEntry(shardId: Shard, partitionWrites: seq<PartitionWrite>)

  /**
   * What decides a line's group: the optional sharder, the partitioner, and
   * the time the partitioner is given (the first clock reading of the call).
   */
  datatype Grouping = Grouping(
    sharder: Option<ParsedLine -> Result<nat, DataError>>,
    partitioner: (ParsedLine, int) -> Result<string, DataError>,
    partitionTime: int)

  /**
   * The group of a line: its shard (none without a sharder), its partition
   * key and its measurement. A sharder failure is reported before a
   * partitioner failure.
   */
  function KeyOf(gr: Grouping, line: ParsedLine): (r: Result<Key, Error>)
    ensures r.Err? ==> r.error.GeneratingShardId? || r.error.GeneratingPartitionKey?
    ensures r.Ok? ==> r.value.2 == line.measurement
    ensures r.Ok? && gr.sharder.None? ==> r.value.0.None?
  {
    var shard: Result<Shard, Error> :=
      match gr.sharder
      case None => Ok(None)
      case Some(s) => (match s(line) case Ok(id) => Ok(Some(id)) case Err(e) => Err(GeneratingShardId(e)));
    if shard.Err? then Err(shard.error)
    else match gr.partitioner(line, gr.partitionTime)
      case Err(e) => Err(GeneratingPartitionKey(e))
      case Ok(p) => Ok((shard.value, p, line.measurement))
  }

  /** The lines of group `key`, in input order. */
  function LinesFor(gr: Grouping, lines: seq<ParsedLine>, key: Key): (r: seq<ParsedLine>)
    ensures forall l :: l in r ==> l in lines && KeyOf(gr, l) == Ok(key)
  {
    if lines == [] then []
    else
      var n := |lines| - 1;
      LinesFor(gr, lines[..n], key) + (if KeyOf(gr, lines[n]) == Ok(key) then [lines[n]] else [])
  }

  /** A line is among the lines of its own group. */
  lemma {:induction false} LinesForHas(gr: Grouping, lines: seq<ParsedLine>, l: ParsedLine)
    requires l in lines && KeyOf(gr, l).Ok?
    ensures l in LinesFor(gr, lines, KeyOf(gr, l).value)
  {
    var n := |lines| - 1;
    if lines[n] != l {
      assert l in lines[..n];
      LinesForHas(gr, lines[..n], l);
    }
  }

  /** The lines filed under a key, if any. */
  function Lookup(g: ShardLines, key: Key): Option<seq<ParsedLine>>
  {
    match Get(g, key.0)
    case None => None
    case Some(parts) =>
      match Get(parts, key.1)
      case None => None
      case Some(tables) => Get(tables, key.2)
  }

  /** A table level: in name order, no empty group. */
  predicate TablesOk(t: TableLines)
  {
    Sorted(StrLt, t) && forall e :: e in t ==> e.1 != []
  }

  /** A partition level: in key order, no empty table level. */
  predicate PartsOk(p: PartitionLines)
  {
    Sorted(StrLt, p) && forall e :: e in p ==> e.1 != [] && TablesOk(e.1)
  }

  /** Every level in key order, and no empty map or group at any level. */
  predicate Nested(g: ShardLines)
  {
    Sorted(OptLt, g) && forall e :: e in g ==> e.1 != [] && PartsOk(e.1)
  }

  function GetOr<K(==), V>(xs: Entries<K, V>, k: K, d: V): V
  {
    match Get(xs, k)
    case None => d
    case Some(v) => v
  }

  /** Inserting a value with property `ok` into a sorted map whose values all have it. */
  lemma PutKeeps<K(!new), V>(lt: (K, K) -> bool, xs: Entries<K, V>, k: K, v: V, ok: V -> bool)
    requires StrictTotalOrder(lt) && Sorted(lt, xs) && ok(v)
    requires forall e :: e in xs ==> ok(e.1)
    ensures Sorted(lt, Put(lt, xs, k, v)) && (k, v) in Put(lt, xs, k, v)
    ensures forall e :: e in Put(lt, xs, k, v) ==> ok(e.1)
  {
    PutSpec(lt, xs, k, v);
    EntriesKeep(xs, k, v, ok, Put(lt, xs, k, v));
  }

  /** The entries of a map after an insertion all have `ok` when the old ones and the new value have it. */
  lemma EntriesKeep<K, V>(xs: Entries<K, V>, k: K, v: V, ok: V -> bool, r: Entries<K, V>)
    requires ok(v) && forall e :: e in xs ==> ok(e.1)
    requires forall e :: e in r <==> e == (k, v) || (e in xs && e.0 != k)
    ensures (k, v) in r && forall e :: e in r ==> ok(e.1)
  {
  }

  /** The three nested `entry(..).or_insert_with(..)` calls followed by `push(line)`. */
  function File(g: ShardLines, key: Key, line: ParsedLine): ShardLines
  {
    var parts := GetOr(g, key.0, []);
    var tables := GetOr(parts, key.1, []);
    var group := GetOr(tables, key.2, []);
    Put(OptLt, g, key.0, Put(StrLt, parts, key.1, Put(StrLt, tables, key.2, group + [line])))
  }

  /** Filing a line extends its own group by the line and leaves every other group alone. */
  lemma FileSpec(g: ShardLines, key: Key, line: ParsedLine)
    requires Nested(g)
    ensures Nested(File(g, key, line))
    ensures forall k :: Lookup(File(g, key, line), k) ==
              if k == key then Some(GetOr3(g, key) + [line]) else Lookup(g, k)
  {
    FileNested(g, key, line);
    forall k ensures Lookup(File(g, key, line), k) == if k == key then Some(GetOr3(g, key) + [line]) else Lookup(g, k) {
      FileLookupAt(g, key, line, k);
    }
  }

  /** The partition and table levels a line is filed into are well formed. */
  lemma FileLevelsOk(g: ShardLines, key: Key)
    requires Nested(g)
    ensures PartsOk(GetOr(g, key.0, []))
    ensures TablesOk(GetOr(GetOr(g, key.0, []), key.1, []))
  {
    var parts := GetOr(g, key.0, []);
    if Get(g, key.0).Some? { assert (key.0, parts) in g; }
    var tables := GetOr(parts, key.1, []);
    if Get(parts, key.1).Some? { assert (key.1, tables) in parts; }
  }

  /** Filing a line keeps every level in key order and free of empty maps and groups. */
  lemma FileNested(g: ShardLines, key: Key, line: ParsedLine)
    requires Nested(g)
    ensures Nested(File(g, key, line))
  {
    StrLtIsStrictTotalOrder();
    OptLtIsStrictTotalOrder();
    FileLevelsOk(g, key);
    var parts := GetOr(g, key.0, []);
    var tables := GetOr(parts, key.1, []);
    var group := GetOr(tables, key.2, []);
    var tables' := Put(StrLt, tables, key.2, group + [line]);
    PutKeeps(StrLt, tables, key.2, group + [line], ls => ls != []);
    var parts' := Put(StrLt, parts, key.1, tables');
    PutKeeps(StrLt, parts, key.1, tables', t => t != [] && TablesOk(t));
    PutKeeps(OptLt, g, key.0, parts', p => p != [] && PartsOk(p));
  }

  /** Looking a key up in a sorted map after a `Put`. */
  lemma PutGets<K(!new), V>(lt: (K, K) -> bool, xs: Entries<K, V>, k: K, v: V)
    requires StrictTotalOrder(lt) && Sorted(lt, xs)
    ensures Get(Put(lt, xs, k, v), k) == Some(v)
    ensures forall k' :: k' != k ==> Get(Put(lt, xs, k, v), k') == Get(xs, k')
  {
    PutSpec(lt, xs, k, v);
  }

  /** What `k` looks up after filing a line under `key`. */
  lemma FileLookupAt(g: ShardLines, key: Key, line: ParsedLine, k: Key)
    requires Nested(g)
    ensures Lookup(File(g, key, line), k) == if k == key then Some(GetOr3(g, key) + [line]) else Lookup(g, k)
  {
    StrLtIsStrictTotalOrder();
    OptLtIsStrictTotalOrder();
    FileLevelsOk(g, key);
    var parts := GetOr(g, key.0, []);
    var tables := GetOr(parts, key.1, []);
    var group := GetOr(tables, key.2, []);
    var tables' := Put(StrLt, tables, key.2, group + [line]);
    var parts' := Put(StrLt, parts, key.1, tables');
    PutGets(StrLt, tables, key.2, group + [line]);
    PutGets(StrLt, parts, key.1, tables');
    PutGets(OptLt, g, key.0, parts');
    if k.0 == key.0 && k.1 == key.1 {
      assert Get(parts', k.1) == Some(tables');
    } else if k.0 == key.0 {
      assert Get(parts', k.1) == Get(parts, k.1);
    }
  }

  /** The lines filed under `key` so far, empty if none. */
  function GetOr3(g: ShardLines, key: Key): seq<ParsedLine>
  {
    match Lookup(g, key)
    case None => []
    case Some(ls) => ls
  }

  /** `g` files exactly the lines of each group, and nothing under a key no line has. */
  ghost predicate Groups(gr: Grouping, lines: seq<ParsedLine>, g: ShardLines)
  {
    forall k :: Lookup(g, k) == if LinesFor(gr, lines, k) == [] then None else Some(LinesFor(gr, lines, k))
  }

  lemma GroupStep(gr: Grouping, lines: seq<ParsedLine>, i: nat, g: ShardLines)
    requires i < |lines| && Nested(g) && Groups(gr, lines[..i], g) && KeyOf(gr, lines[i]).Ok?
    ensures Nested(File(g, KeyOf(gr, lines[i]).value, lines[i]))
    ensures Groups(gr, lines[..i + 1], File(g, KeyOf(gr, lines[i]).value, lines[i]))
  {
    var key := KeyOf(gr, lines[i]).value;
    FileSpec(g, key, lines[i]);
    var g' := File(g, key, lines[i]);
    forall k ensures Lookup(g', k) == if LinesFor(gr, lines[..i + 1], k) == [] then None else Some(LinesFor(gr, lines[..i + 1], k)) {
      GroupStepAt(gr, lines, i, g, g', k);
    }
  }

  lemma GroupStepAt(gr: Grouping, lines: seq<ParsedLine>, i: nat, g: ShardLines, g': ShardLines, k: Key)
    requires i < |lines| && KeyOf(gr, lines[i]).Ok?
    requires Lookup(g, k) == if LinesFor(gr, lines[..i], k) == [] then None else Some(LinesFor(gr, lines[..i], k))
    requires Lookup(g', k) == if k == KeyOf(gr, lines[i]).value then Some(GetOr3(g, k) + [lines[i]]) else Lookup(g, k)
    ensures Lookup(g', k) == if LinesFor(gr, lines[..i + 1], k) == [] then None else Some(LinesFor(gr, lines[..i + 1], k))
  {
    assert lines[..i + 1][..i] == lines[..i];
    var before := LinesFor(gr, lines[..i], k);
    if k == KeyOf(gr, lines[i]).value {
      assert LinesFor(gr, lines[..i + 1], k) == before + [lines[i]];
      assert GetOr3(g, k) == before;
    } else {
      assert LinesFor(gr, lines[..i + 1], k) == before + [];
      assert before + [] == before;
    }
  }

  /**
   * The grouping loop of `lines_to_sharded_entries`: each line is filed
   * under its group; the first line whose shard or partition key cannot be
   * computed ends the call with that error.
   */
  method GroupLines(gr: Grouping, lines: seq<ParsedLine>) returns (r: Result<ShardLines, Error>)
    ensures r.Ok? ==> Nested(r.value)
    ensures r.Ok? ==> forall l :: l in lines ==> KeyOf(gr, l).Ok?
    ensures r.Ok? ==> forall k :: Lookup(r.value, k) == if LinesFor(gr, lines, k) == [] then None else Some(LinesFor(gr, lines, k))
    ensures r.Err? ==> exists i :: 0 <= i < |lines| && KeyOf(gr, lines[i]) == Err(r.error) &&
                                   forall j :: 0 <= j < i ==> KeyOf(gr, lines[j]).Ok?
  {
    var g: ShardLines := [];
    var i := 0;
    while i < |lines|
      invariant 0 <= i <= |lines|
      invariant Nested(g)
      invariant forall j :: 0 <= j < i ==> KeyOf(gr, lines[j]).Ok?
      invariant Groups(gr, lines[..i], g)
    {
      var line := lines[i];
      var key := KeyOf(gr, line);
      if key.Err? {
        return Err(key.error);
      }
      GroupStep(gr, lines, i, g);
      g := File(g, key.value, line);
      i := i + 1;
    }
    assert lines[..i] == lines;
    r := Ok(g);
    forall l | l in lines ensures KeyOf(gr, l).Ok? {
      var j :| 0 <= j < |lines| && lines[j] == l;
    }
  }

  /**
   * A partition write of `key` holding, in table order, the batch of each
   * table's lines; no table's lines give a column two types.
   */
  ghost predicate WriteOf(w: PartitionWrite, key: string, tables: TableLines, defaultTime: int)
  {
    && w.key == key
    && |w.tableBatches| == |tables|
    && forall c :: 0 <= c < |tables| ==>
         && w.tableBatches[c].name == tables[c].0 && BatchOf(w.tableBatches[c], tables[c].1, defaultTime)
         && Uniform(Pushes(tables[c].1, defaultTime))
  }

  /** `build_partition_write`: one table batch per table, in table order. */
  method BuildPartitionWrite(key: string, tables: TableLines, defaultTime: int) returns (r: Result<PartitionWrite, Error>)
    ensures r.Ok? ==> WriteOf(r.value, key, tables, defaultTime)
    ensures r.Err? ==> r.error.TableColumnTypeMismatch?
    ensures r.Err? <==> exists c :: 0 <= c < |tables| && !Uniform(Pushes(tables[c].1, defaultTime))
  {
    var batches: seq<TableBatch> := [];
    var c := 0;
    while c < |tables|
      invariant 0 <= c <= |tables| && |batches| == c
      invariant forall m :: 0 <= m < c ==>
                  && batches[m].name == tables[m].0 && BatchOf(batches[m], tables[m].1, defaultTime)
                  && Uniform(Pushes(tables[m].1, defaultTime))
    {
      var built := BuildTableWriteBatch(tables[c].0, tables[c].1, defaultTime);
      if built.Err? {
        return Err(built.error);
      }
      batches := batches + [built.value];
      c := c + 1;
    }
    r := Ok(PartitionWrite(key, batches));
  }

  /** The partition writes of one shard mirror its partitions and tables. */
  ghost predicate EntryOf(e: ShardedEntry, shard: Shard, parts: PartitionLines, defaultTime: int)
  {
    && e.shardId == shard
    && |e.partitionWrites| == |parts|
    && forall b :: 0 <= b < |parts| ==> WriteOf(e.partitionWrites[b], parts[b].0, parts[b].1, defaultTime)
  }

  /** One more partition write extends the entry by the next partition. */
  lemma EntryStep(shard: Shard, writes: seq<PartitionWrite>, w: PartitionWrite, parts: PartitionLines, b: nat, defaultTime: int)
    requires b < |parts| && EntryOf(ShardedEntry(shard, writes), shard, parts[..b], defaultTime)
    requires WriteOf(w, parts[b].0, parts[b].1, defaultTime)
    ensures EntryOf(ShardedEntry(shard, writes + [w]), shard, parts[..b + 1], defaultTime)
  {
    var next := writes + [w];
    forall m | 0 <= m < b + 1 ensures WriteOf(next[m], parts[..b + 1][m].0, parts[..b + 1][m].1, defaultTime) {
      if m < b {
        assert next[m] == writes[m] && parts[..b + 1][m] == parts[..b][m];
      }
    }
  }

  /** `build_sharded_entry`: one partition write per partition, in key order. */
  method BuildShardedEntry(shard: Shard, parts: PartitionLines, defaultTime: int) returns (r: Result<ShardedEntry, Error>)
    ensures r.Ok? ==> EntryOf(r.value, shard, parts, defaultTime)
    ensures r.Err? ==> r.error.TableColumnTypeMismatch?
    ensures r.Err? <==> exists b, c :: 0 <= b < |parts| && 0 <= c < |parts[b].1| && !Uniform(Pushes(parts[b].1[c].1, defaultTime))
  {
    var writes: seq<PartitionWrite> := [];
    var b := 0;
    while b < |parts|
      invariant 0 <= b <= |parts| && |writes| == b
      invariant EntryOf(ShardedEntry(shard, writes), shard, parts[..b], defaultTime)
    {
      var pw := BuildPartitionWrite(parts[b].0, parts[b].1, defaultTime);
      if pw.Err? {
        return Err(pw.error);
      }
      EntryStep(shard, writes, pw.value, parts, b, defaultTime);
      writes := writes + [pw.value];
      b := b + 1;
    }
    assert parts[..b] == parts;
    r := Ok(ShardedEntry(shard, writes));
  }

  /** The group a position of the nested map stands for holds exactly that group's lines. */
  lemma LookupAt(gr: Grouping, lines: seq<ParsedLine>, g: ShardLines, a: nat, b: nat, c: nat)
    requires Nested(g) && Groups(gr, lines, g)
    requires a < |g| && b < |g[a].1| && c < |g[a].1[b].1|
    ensures g[a].1[b].1[c].1 == LinesFor(gr, lines, (g[a].0, g[a].1[b].0, g[a].1[b].1[c].0))
    ensures g[a].1[b].1[c].1 != []
  {
    StrLtIsStrictTotalOrder();
    OptLtIsStrictTotalOrder();
    assert g[a] in g;
    GetAt(OptLt, g, a);
    var parts := g[a].1;
    assert parts[b] in parts;
    GetAt(StrLt, parts, b);
    var tables := parts[b].1;
    assert tables[c] in tables;
    GetAt(StrLt, tables, c);
    assert Lookup(g, (g[a].0, parts[b].0, tables[c].0)) == Some(tables[c].1);
  }

  /** Every group with lines has a position in the nested map. */
  lemma PositionOf(gr: Grouping, lines: seq<ParsedLine>, g: ShardLines, key: Key) returns (a: nat, b: nat, c: nat)
    requires Groups(gr, lines, g) && LinesFor(gr, lines, key) != []
    ensures a < |g| && b < |g[a].1| && c < |g[a].1[b].1|
    ensures (g[a].0, g[a].1[b].0, g[a].1[b].1[c].0) == key
  {
    assert Lookup(g, key).Some?;
    var parts := Get(g, key.0).value;
    a :| 0 <= a < |g| && g[a] == (key.0, parts);
    var tables := Get(parts, key.1).value;
    b :| 0 <= b < |parts| && parts[b] == (key.1, tables);
    var group := Get(tables, key.2).value;
    c :| 0 <= c < |tables| && tables[c] == (key.2, group);
  }

  /**
   * `lines_to_sharded_entries`: the lines are grouped by shard, partition
   * key and table, and each group becomes one table batch; the batches are
   * built with `batchTime` as the default timestamp, a second clock reading
   * taken after the grouping. Entries are in shard order, partition writes
   * in key order, table batches in name order; every batch holds exactly
   * its group's lines, and every line lands in the batch of its group.
   * Without a sharder there is at most one entry. The first line whose
   * shard or partition key cannot be computed decides the error; when every
   * key can be computed, the result is a type mismatch exactly when the
   * lines of some group give a column two types.
   */
  method LinesToShardedEntries(gr: Grouping, lines: seq<ParsedLine>, batchTime: int) returns (r: Result<seq<ShardedEntry>, Error>)
    ensures r.Ok? ==> forall a, a' :: 0 <= a < a' < |r.value| ==> OptLt(r.value[a].shardId, r.value[a'].shardId)
    ensures r.Ok? ==> forall a, b, b' :: 0 <= a < |r.value| && 0 <= b < b' < |r.value[a].partitionWrites| ==>
              StrLt(r.value[a].partitionWrites[b].key, r.value[a].partitionWrites[b'].key)
    ensures r.Ok? ==> forall a, b, c, c' :: (0 <= a < |r.value| && 0 <= b < |r.value[a].partitionWrites| &&
                                            0 <= c < c' < |r.value[a].partitionWrites[b].tableBatches|) ==>
              StrLt(r.value[a].partitionWrites[b].tableBatches[c].name, r.value[a].partitionWrites[b].tableBatches[c'].name)
    ensures r.Ok? ==> forall a, b, c :: 0 <= a < |r.value| && 0 <= b < |r.value[a].partitionWrites| &&
                                        0 <= c < |r.value[a].partitionWrites[b].tableBatches| ==>
              (var key := (r.value[a].shardId, r.value[a].partitionWrites[b].key, r.value[a].partitionWrites[b].tableBatches[c].name);
               LinesFor(gr, lines, key) != [] && BatchOf(r.value[a].partitionWrites[b].tableBatches[c], LinesFor(gr, lines, key), batchTime))
    ensures r.Ok? ==> forall l :: l in lines ==> KeyOf(gr, l).Ok? && InEntries(r.value, KeyOf(gr, l).value)
    ensures r.Ok? && gr.sharder.None? ==> |r.value| <= 1
    ensures r.Err? && !r.error.TableColumnTypeMismatch? ==>
              exists i :: 0 <= i < |lines| && KeyOf(gr, lines[i]) == Err(r.error) &&
                          forall j :: 0 <= j < i ==> KeyOf(gr, lines[j]).Ok?
    ensures r.Ok? ==> forall key :: LinesFor(gr, lines, key) != [] ==> Uniform(Pushes(LinesFor(gr, lines, key), batchTime))
    ensures r.Err? && r.error.TableColumnTypeMismatch? ==>
              && (forall l :: l in lines ==> KeyOf(gr, l).Ok?)
              && exists key :: LinesFor(gr, lines, key) != [] && !Uniform(Pushes(LinesFor(gr, lines, key), batchTime))
  {
    var grouped := GroupLines(gr, lines);
    if grouped.Err? {
      return Err(grouped.error);
    }
    var g := grouped.value;
    var entries: seq<ShardedEntry> := [];
    var a := 0;
    while a < |g|
      invariant 0 <= a <= |g| && |entries| == a
      invariant forall m :: 0 <= m < a ==> EntryOf(entries[m], g[m].0, g[m].1, batchTime)
    {
      var e := BuildShardedEntry(g[a].0, g[a].1, batchTime);
      if e.Err? {
        var b, c :| 0 <= b < |g[a].1| && 0 <= c < |g[a].1[b].1| && !Uniform(Pushes(g[a].1[b].1[c].1, batchTime));
        LookupAt(gr, lines, g, a, b, c);
        return Err(e.error);
      }
      entries := entries + [e.value];
      a := a + 1;
    }
    r := Ok(entries);
    EntriesMirror(gr, lines, g, entries, batchTime);
    EntriesUniform(gr, lines, g, entries, batchTime);
  }

  /** Entries built from every group leave no group whose lines clash. */
  lemma EntriesUniform(gr: Grouping, lines: seq<ParsedLine>, g: ShardLines, entries: seq<ShardedEntry>, batchTime: int)
    requires Nested(g) && Groups(gr, lines, g)
    requires |entries| == |g| && forall m :: 0 <= m < |g| ==> EntryOf(entries[m], g[m].0, g[m].1, batchTime)
    ensures forall key :: LinesFor(gr, lines, key) != [] ==> Uniform(Pushes(LinesFor(gr, lines, key), batchTime))
  {
    forall key | LinesFor(gr, lines, key) != [] ensures Uniform(Pushes(LinesFor(gr, lines, key), batchTime)) {
      var a, b, c := PositionOf(gr, lines, g, key);
      LookupAt(gr, lines, g, a, b, c);
      assert WriteOf(entries[a].partitionWrites[b], g[a].1[b].0, g[a].1[b].1, batchTime);
    }
  }

  /** Some batch of some partition write of some entry stands for group `key`. */
  ghost predicate InEntries(entries: seq<ShardedEntry>, key: Key)
  {
    exists a, b, c :: 0 <= a < |entries| && 0 <= b < |entries[a].partitionWrites| &&
                      0 <= c < |entries[a].partitionWrites[b].tableBatches| &&
                      key == (entries[a].shardId, entries[a].partitionWrites[b].key, entries[a].partitionWrites[b].tableBatches[c].name)
  }

  lemma EntriesMirror(gr: Grouping, lines: seq<ParsedLine>, g: ShardLines, entries: seq<ShardedEntry>, batchTime: int)
    requires Nested(g) && Groups(gr, lines, g)
    requires forall l :: l in lines ==> KeyOf(gr, l).Ok?
    requires |entries| == |g| && forall m :: 0 <= m < |g| ==> EntryOf(entries[m], g[m].0, g[m].1, batchTime)
    ensures forall a, a' :: 0 <= a < a' < |entries| ==> OptLt(entries[a].shardId, entries[a'].shardId)
    ensures forall a, b, b' :: 0 <= a < |entries| && 0 <= b < b' < |entries[a].partitionWrites| ==>
              StrLt(entries[a].partitionWrites[b].key, entries[a].partitionWrites[b'].key)
    ensures forall a, b, c, c' :: 0 <= a < |entries| && 0 <= b < |entries[a].partitionWrites| &&
                                  0 <= c < c' < |entries[a].partitionWrites[b].tableBatches| ==>
              StrLt(entries[a].partitionWrites[b].tableBatches[c].name, entries[a].partitionWrites[b].tableBatches[c'].name)
    ensures forall a, b, c :: 0 <= a < |entries| && 0 <= b < |entries[a].partitionWrites| &&
                              0 <= c < |entries[a].partitionWrites[b].tableBatches| ==>
              (var key := (entries[a].shardId, entries[a].partitionWrites[b].key, entries[a].partitionWrites[b].tableBatches[c].name);
               LinesFor(gr, lines, key) != [] && BatchOf(entries[a].partitionWrites[b].tableBatches[c], LinesFor(gr, lines, key), batchTime))
    ensures forall l :: l in lines ==> InEntries(entries, KeyOf(gr, l).value)
    ensures gr.sharder.None? ==> |entries| <= 1
  {
    forall a, b, b' | 0 <= a < |entries| && 0 <= b < b' < |entries[a].partitionWrites|
      ensures StrLt(entries[a].partitionWrites[b].key, entries[a].partitionWrites[b'].key)
    {
      assert g[a] in g;
    }
    forall a, b, c, c' | 0 <= a < |entries| && 0 <= b < |entries[a].partitionWrites| &&
                         0 <= c < c' < |entries[a].partitionWrites[b].tableBatches|
      ensures StrLt(entries[a].partitionWrites[b].tableBatches[c].name, entries[a].partitionWrites[b].tableBatches[c'].name)
    {
      assert g[a] in g;
      assert g[a].1[b] in g[a].1;
    }
    forall a, b, c | 0 <= a < |entries| && 0 <= b < |entries[a].partitionWrites| &&
                     0 <= c < |entries[a].partitionWrites[b].tableBatches|
      ensures var key := (entries[a].shardId, entries[a].partitionWrites[b].key, entries[a].partitionWrites[b].tableBatches[c].name);
              LinesFor(gr, lines, key) != [] && BatchOf(entries[a].partitionWrites[b].tableBatches[c], LinesFor(gr, lines, key), batchTime)
    {
      LookupAt(gr, lines, g, a, b, c);
    }
    forall l | l in lines ensures InEntries(entries, KeyOf(gr, l).value) {
      LinesForHas(gr, lines, l);
      var a, b, c := PositionOf(gr, lines, g, KeyOf(gr, l).value);
    }
    if gr.sharder.None? {
      forall a | 0 <= a < |entries| ensures entries[a].shardId.None? {
        NoShardKeys(gr, lines, g, a);
      }
      AtMostOneUnsharded(g);
    }
  }

  /** Strictly ascending shards, all of them none: at most one. */
  lemma AtMostOneUnsharded(g: ShardLines)
    requires Sorted(OptLt, g) && forall a :: 0 <= a < |g| ==> g[a].0.None?
    ensures |g| <= 1
  {
    ShardCount(g);
    var shards := ShardSet(g);
    if None in shards {
      assert shards == {None};
    } else {
      assert shards == {};
    }
  }

  function ShardSet(g: ShardLines): set<Shard>
  {
    set a | 0 <= a < |g| :: g[a].0
  }

  /** Strictly ascending shards are as many as the entries. */
  lemma {:induction false} ShardCount(g: ShardLines)
    requires Sorted(OptLt, g)
    ensures |ShardSet(g)| == |g|
  {
    if g != [] {
      var tail := g[1..];
      assert Sorted(OptLt, tail);
      ShardCount(tail);
      ShardSetCons(g);
    }
  }

  lemma ShardSetCons(g: ShardLines)
    requires Sorted(OptLt, g) && g != []
    ensures ShardSet(g) == {g[0].0} + ShardSet(g[1..])
    ensures g[0].0 !in ShardSet(g[1..])
  {
    var tail := g[1..];
    forall x | x in ShardSet(g) ensures x in {g[0].0} + ShardSet(tail) {
      var a :| 0 <= a < |g| && g[a].0 == x;
      if a > 0 { assert tail[a - 1].0 == x; }
    }
    forall x | x in ShardSet(tail) ensures x in ShardSet(g) && x != g[0].0 {
      var a :| 0 <= a < |tail| && tail[a].0 == x;
      assert g[a + 1].0 == x;
      assert OptLt(g[0].0, g[a + 1].0);
    }
  }

  /** Without a sharder every filed group is under no shard. */
  lemma NoShardKeys(gr: Grouping, lines: seq<ParsedLine>, g: ShardLines, a: nat)
    requires Nested(g) && Groups(gr, lines, g) && gr.sharder.None? && a < |g|
    ensures g[a].0.None?
  {
    assert g[a] in g;
    assert g[a].1[0] in g[a].1;
    LookupAt(gr, lines, g, a, 0, 0);
    var key := (g[a].0, g[a].1[0].0, g[a].1[0].1[0].0);
    var l := LinesFor(gr, lines, key)[0];
    assert KeyOf(gr, l) == Ok(key);
  }
}
