# InfluxDB IOx core, modelled in Dafny

This project models the write and read paths at the core of InfluxDB IOx.
It covers ten components:

- The mutable buffer's columns: validity bits, typed backing stores and tag ids
  interned in a string dictionary.
- The string dictionary.
- Mutable-buffer chunks: tables by interned name and a cached snapshot.
- The entry builders and readers: null masks, column builders, table write
  batches, and the grouping of lines into sharded entries.
- Chunk pruning by statistics.
- The server's in-memory write buffer, with segments, rollover policies and
  the since-queries.
- The server configuration: database name reservation, commit, rollback and
  the remotes.
- Parquet tables: time range and column selection.
- Conversion of job descriptions and long-running operations.
- The parsing of the tracing and logging options, with the choice of
  verbosity and tracer.

Stateful parts are classes: `StringDictionary`, `Column`, `Chunk`,
`NullMaskBuilder`, the value iterators, `Segment`, `Buffer`, `Config` and
`CreateDatabaseHandle`. Their methods are specified against functions of
their state. The pure parts are functions over datatypes. Code that is not
part of this model is passed in as a parameter: table writes and sizes, the
pruning predicate, the sharder and partitioner, protobuf decoding,
`TimestampRange::disjoint` and the clock. Rust's `BTreeMap` is a sorted
association list (`SortedMaps`) and `BTreeSet` a `set`.

Modules: `Wrappers`, `Orders`, `SortedMaps`, `Rows` (scatter/gather of values
over flagged rows), `ObjectPaths`, `Dictionary`, `MutableColumn`,
`MutableChunk`, `EntryNullMask`, `EntryColumns`, `EntryIterators`,
`EntryBatches`, `EntrySharding`, `Pruning`, `WriteBuffer`, `ServerConfig`,
`ParquetTable`, `JobConversion`, `Tracing`.

`server/src/config.rs:142` passes `server_id` to `Db::new`, but the
enclosing `commit` only has a parameter named `writer_id`. The model gives
the committed database the id passed to `commit`, which is what
`CreateDatabaseHandle::commit` evidently intends.

## Model

| member | source | states |
|---|---|---|
| Dictionary.StringDictionary.constructor | arrow_util/src/dictionary.rs:36-38 | a new dictionary holds no strings |
| Dictionary.StringDictionary.LookupValueOrInsert | arrow_util/src/dictionary.rs:42-68 | a stored string gets its existing key and nothing changes; a new string is appended and gets its index as its key |
| Dictionary.StringDictionary.Id | arrow_util/src/dictionary.rs:73-86 | `id`/`lookup_value` never insert; the key of a stored string, `None` for one never inserted |
| Dictionary.StringDictionary.LookupId | arrow_util/src/dictionary.rs:89-91 | the string stored under an issued key; `None` for any other id, -1 included |
| Dictionary.StringDictionary.Size | arrow_util/src/dictionary.rs:93-95 | the packed storage's size plus one key's bytes per stored string |
| Dictionary.StringDictionary.Values | arrow_util/src/dictionary.rs:97-99 | the stored strings in insertion order: the i-th is the string under key i, and a string is among them exactly when it has a key |
| Dictionary.InternTwice | arrow_util/src/dictionary.rs:42-55 | interning the same string twice gives the same key and stores it once |
| Dictionary.DistinctKeys | arrow_util/src/dictionary.rs:56-66 | distinct stored strings have distinct keys |
| Dictionary.LookupRoundTrip | arrow_util/src/dictionary.rs:73-91 | `lookup_id` and `lookup_value` are inverse on stored strings and issued keys |
| Dictionary.KeyCount | arrow_util/src/dictionary.rs:56-66 | the dedup table holds exactly one key per stored string |
| MutableColumn.Column.constructor | mutable_buffer/src/column.rs:62-97 | `len() == n`, no row valid, and every store row holds the type's default (0, 0.0, the invalid id, empty string, unset bit) |
| MutableColumn.ValidateSchema | mutable_buffer/src/column.rs:99-111 | an entry of another influx type is refused with `TypeMismatch` naming both types |
| MutableColumn.ConstructValidMask | mutable_buffer/src/column.rs:363-390 | a null mask of the wrong byte length is refused; otherwise validity bit i is the negation of the entry's null bit i, and without a mask every row is valid |
| MutableColumn.ReverseBitsInvolution | mutable_buffer/src/column.rs:375-388 | reversing a byte's bit order twice gives the byte back |
| MutableColumn.HandleWrite | mutable_buffer/src/column.rs:393-415 | the store grows by `row_count` default rows, the k-th value lands on the k-th set validity position, and the statistics count grows by the number of values |
| MutableColumn.WriteTags | mutable_buffer/src/column.rs:207-226 | the tag arm: each value is interned and its id placed on its valid row; other rows hold the invalid id |
| MutableColumn.WriteFieldData | mutable_buffer/src/column.rs:128-206 | the field arms: the new store is the old one followed by the values scattered over the valid rows |
| MutableColumn.Column.Append | mutable_buffer/src/column.rs:117-233 | type mismatch and a bad null mask fail before anything changes; zero rows change nothing; otherwise `len` grows by `row_count`, validity bits and values are appended, every store keeps length `len` and defaults at invalid rows |
| MutableColumn.AppendedDefaults | mutable_buffer/src/column.rs:128-231 | after an append every invalid row still holds the type's default |
| MutableColumn.AppendedIds | mutable_buffer/src/column.rs:207-226 | every stored tag id is the invalid id or one the dictionary issued |
| MutableColumn.AppendedReadsBack | mutable_buffer/src/column.rs:117-233 | reading the valid rows of an appended store gives the appended values back, in order |
| MutableColumn.StoredRowsAreReadRows | mutable_buffer/src/column.rs:363-415 | the rows a column stores for an entry are the rows the entry reader yields: valid rows hold the read values, null rows are invalid |
| MutableColumn.Column.PushNullsToLen | mutable_buffer/src/column.rs:235-251 | no change when `len` is already `n`; otherwise `len() == n` and the added rows are invalid defaults |
| MutableColumn.Column.Len | mutable_buffer/src/column.rs:253-255 | the row count, which is also the length of the backing store |
| MutableColumn.Column.Stats | mutable_buffer/src/column.rs:257-267 | the statistics of the store's kind; tag and string columns both give string statistics |
| MutableChunk.Chunk.constructor | mutable_buffer/src/chunk.rs:88-98 | no tables, an empty dictionary and no cached snapshot |
| MutableChunk.WriteFromKeys | mutable_buffer/src/chunk.rs:106-113 | a run of batch writes keeps every table it found and adds tables only under ids of names it interned |
| MutableChunk.WriteFromInterns | mutable_buffer/src/chunk.rs:106-108 | every batch a run wrote has its table name in the dictionary the run leaves |
| MutableChunk.TagNameIsNoTable | mutable_buffer/src/chunk.rs:66-68 | one dictionary holds table, tag and column names: after a write whose table interns the tag name `host`, `table("host")` is `TableNotFoundInChunk`, not `Ok(None)` |
| MutableChunk.Chunk.WriteTableBatches | mutable_buffer/src/chunk.rs:100-130 | the tables and the dictionary after the call are those of `WriteFrom`: each batch's name interned, its table written, then the strings the write interned appended in order; on success the snapshot is cleared and the tracker holds `size()`; on failure the earlier batches stay written |
| MutableChunk.Chunk.WriteTable | mutable_buffer/src/chunk.rs:109-118 | a table is created only the first time its id is seen, then written; the strings the write interns are appended to the shared dictionary; a failed write leaves the table as the write left it |
| MutableChunk.Chunk.Snapshot | mutable_buffer/src/chunk.rs:144-154 | the cached snapshot if there is one; otherwise a fresh snapshot of the current tables, which is cached |
| MutableChunk.SnapshotCaching | mutable_buffer/src/chunk.rs:144-154 | two snapshots without a write between them are the same object, and after a successful write the next one is new |
| MutableChunk.Chunk.IsEmpty | mutable_buffer/src/chunk.rs:163-165 | true exactly when the chunk has no table |
| MutableChunk.Chunk.AllTableNames | mutable_buffer/src/chunk.rs:133-140 | the set gains every table name of the chunk and keeps its entries |
| MutableChunk.Chunk.TableSummaries | mutable_buffer/src/chunk.rs:191-206 | one summary per table, under the table's name |
| MutableChunk.Chunk.Table | mutable_buffer/src/chunk.rs:209-220 | `Ok(None)` for a name never interned; `TableNotFoundInChunk` for an interned name without a table; otherwise that table |
| MutableChunk.Chunk.HasTable | mutable_buffer/src/chunk.rs:230-232 | true exactly when the chunk has a table of that name |
| MutableChunk.SizeBelowUpdate | mutable_buffer/src/chunk.rs:224-227 | replacing one table changes the chunk's size by the difference of the two tables' sizes |
| EntryNullMask.IsNullValue | internal_types/src/entry.rs:749-768 | no mask: not null; past the mask: null; otherwise bit `128 >> ((row-1)%8)` of byte `(row-1)/8` |
| EntryNullMask.NullMaskBuilder.constructor | internal_types/src/entry.rs:686-691 | no rows, one empty byte |
| EntryNullMask.NullMaskBuilder.Push | internal_types/src/entry.rs:693-706 | one more row; the bytes are the packed form of all pushed flags, across byte boundaries |
| EntryNullMask.NullMaskBuilder.RowCount | internal_types/src/entry.rs:715-717 | the number of flags pushed |
| EntryNullMask.NullMaskBuilder.ToBoolVec | internal_types/src/entry.rs:709-713 | exactly the pushed flags, in order |
| EntryNullMask.NullMaskBuilder.HasNulls | internal_types/src/entry.rs:719-727 | true exactly when some pushed flag is set |
| EntryNullMask.PackNullMaskReads | internal_types/src/entry.rs:693-768 | reading a packed mask with `is_null_value` gives back the pushed flags |
| EntryNullMask.CountOnesPack | internal_types/src/entry.rs:392-427 | the set bits of a packed mask count exactly the null rows |
| EntryColumns.NewBuilder | internal_types/src/entry.rs:777-824 | each `new_*_column` builder has no rows and no values of its type |
| EntryColumns.Push | internal_types/src/entry.rs:836-960 | a value of the builder's type is appended: the stored values become the old ones followed by `v`, with a non-null flag; any other type fails with `ColumnTypeMismatch` naming both types and leaves the builder unchanged |
| EntryColumns.CellsPush | internal_types/src/entry.rs:836-960 | read row by row, a pushed builder holds its old rows and then `v` |
| EntryColumns.TypeNamesAgree | internal_types/src/entry.rs:1102-1112 | the seven type names differ, and a builder's description is the name its own `push_*` uses |
| EntryColumns.KindConflicts | internal_types/src/entry.rs:836-960 | a string cannot go into a tag column, nor an f64 into an i64 column |
| EntryColumns.NullToRow | internal_types/src/entry.rs:827-834 | null flags are pushed until the builder has at least `row - 1` rows; values and existing rows are untouched |
| EntryColumns.ToBatchColumn | internal_types/src/entry.rs:962-1100 | the recorded column holds the builder's values, and a null mask only when some row is null |
| EntryIterators.RecordedCells | internal_types/src/entry.rs:962-1100 | a column recorded from a builder reads back, row by row, as the builder's rows: its values on the non-null rows, in order, and nulls elsewhere |
| EntryColumns.RowCountOfBuilder | internal_types/src/entry.rs:392-427 | `TableBatch::row_count` (`EntryColumns.RowCount`) of a batch whose first column came from a builder is that builder's row count |
| EntryColumns.ColumnRowsOfBuilder | internal_types/src/entry.rs:392-427 | a recorded column's values plus its mask's set bits equal its rows |
| EntryColumns.BuiltColumnsAreTyped | internal_types/src/entry.rs:461-542 | every column a builder records has an influx type |
| EntryIterators.ValIterator.Next | internal_types/src/entry.rs:637-648 | `None` past the rows; a null row reads `Some(None)`; a valid row reads the next stored value |
| EntryIterators.ValIterator.Collect | internal_types/src/entry.rs:627-674 | collecting gives `ReadRows`: the k-th value on the k-th non-null row, `None` on null rows |
| EntryIterators.BoolIterator.Next | internal_types/src/entry.rs:608-622 | as written: iteration ends once all values are used, even on a null row |
| EntryIterators.BoolIterator.Collect | internal_types/src/entry.rs:597-622 | collecting gives the rows read before the first `BoolStop` |
| EntryIterators.ColumnValues | internal_types/src/entry.rs:461-542 | `Column::values` followed by collect: the typed rows of the column |
| EntryIterators.ReadBack | internal_types/src/entry.rs:693-768 | a column written with given nulls and one value per non-null row reads back null exactly there, with the values in order |
| EntryIterators.BoolIteratorDropsTrailingNull | internal_types/src/entry.rs:608-622 | as written, a bool column `[true, null]` reads as one row |
| EntryIterators.BoolReadBack | internal_types/src/entry.rs:608-622 | reading booleans like the other value types yields one item per row, trailing nulls included |
| EntryBatches.LineValues | internal_types/src/entry.rs:169-248 | a line writes its tags, then its fields, each with the `push_*` its value selects |
| EntryBatches.PushColumn | internal_types/src/entry.rs:169-248 | the column's builder, created on first use, is padded with nulls to the row before `rowNumber` and then given `v`: its rows are its old ones, the nulls, then `v`; no other column changes; it fails exactly when the column holds another type, naming both types |
| EntryBatches.PushTime | internal_types/src/entry.rs:250-262 | the line's timestamp, or the default time, goes into `time`; a `time` column of another type fails |
| EntryBatches.PushLineValues | internal_types/src/entry.rs:169-248 | a line's tags, then its fields: on success each pushed column holds the lines' rows so far, this line's value included; a failure names the line's first value whose type clashes with its column |
| EntryBatches.PadAll | internal_types/src/entry.rs:264-266 | every builder keeps its name and values and is padded with null rows up to the current row; its rows read as before, followed by those nulls |
| EntryBatches.AddLine | internal_types/src/entry.rs:166-266 | one line: its values, its timestamp, then the padding; the builders stay typed by every push so far, `time` holds every timestamp, and without repeated columns each column's rows are the lines' values or nulls; a clash fails with `TableColumnTypeMismatch` naming the table, the column and this line |
| EntryBatches.AddLines | internal_types/src/entry.rs:166-267 | the line loop: after every line the builders are as `AddLine` keeps them, or the first failing line's error, whose clash makes the pushes of all the lines disagree |
| EntryBatches.NamesOfPushes | internal_types/src/entry.rs:166-262 | the columns the lines push to are exactly their tag and field names, plus `time` once there is a line |
| EntryBatches.NotUniformOnward | internal_types/src/entry.rs:166-262 | once the pushes of some lines give a column two types, so do the pushes of any longer run of lines |
| EntryBatches.BuildTableWriteBatch | internal_types/src/entry.rs:159-284 | the batch has one column per name, in name order, named by exactly the lines' tag and field names plus `time`; each column has at least one row per line and, when no line repeats a column, row m of column c is line m's value for c or null; `time` holds every line's timestamp or the default, without nulls; it fails exactly when some column would get values of two types, naming the first line whose value clashes |
| EntrySharding.KeyOf | internal_types/src/entry.rs:68-75 | a line's group is its shard (none without a sharder), partition key and table; a sharder error comes before a partitioner error |
| EntrySharding.GroupLines | internal_types/src/entry.rs:60-86 | every line is filed under its own group, in input order; the first line whose shard or key fails ends the call with that error |
| EntrySharding.BuildPartitionWrite | internal_types/src/entry.rs:136-157 | one table batch per table, in table order, each built from that table's lines; a type-mismatch error exactly when some table's lines give a column two types |
| EntrySharding.BuildShardedEntry | internal_types/src/entry.rs:98-134 | one partition write per partition, in key order; a type-mismatch error exactly when the lines of some table of some partition give a column two types |
| EntrySharding.LinesToShardedEntries | internal_types/src/entry.rs:60-96 | entries in ascending shard order, partition writes by key, table batches by name, each batch built from its group's lines; a key error is the first line's whose key fails; once every key is computed, a type mismatch is returned exactly when some group's lines give a column two types |
| EntrySharding.EntriesMirror | internal_types/src/entry.rs:60-96 | every group of lines has a batch, and every batch stands for a group |
| EntrySharding.AtMostOneUnsharded | internal_types/src/entry.rs:60-96 | without a sharder there is at most one entry, with no shard id |
| EntrySharding.ShardCount | internal_types/src/entry.rs:60-96 | there are exactly as many entries as distinct shards |
| Pruning.MustKeep | query/src/pruning.rs:74-110 | a predicate that cannot be built or evaluated keeps the chunk with that reason; otherwise the evaluation decides, and a dropped chunk is reported once as pruned |
| Pruning.FilterKeeps | query/src/pruning.rs:58-70 | a chunk is in the output exactly when it is an input chunk that `must_keep` keeps |
| Pruning.PruneChunks | query/src/pruning.rs:39-71 | no filter expression: the input unchanged and the single event "No expression on predicate"; otherwise the filter |
| Pruning.FilterAppend | query/src/pruning.rs:58-70 | filtering a concatenation filters each part, so each chunk is decided on its own |
| Pruning.FilterOne | query/src/pruning.rs:58-70 | a single chunk is kept exactly when `must_keep` keeps it, with that decision's events |
| Pruning.FilterEvents | query/src/pruning.rs:58-70 | every event concerns one of the input chunks |
| Pruning.PruneChunksSound | query/src/pruning.rs:39-110 | with a predicate that never rules out a matching chunk, a matching chunk is always returned |
| Pruning.PrunedReported | query/src/pruning.rs:94-102 | every pruned chunk is reported exactly once |
| Pruning.ColumnSummaryOf | query/src/pruning.rs:117-119 | the first column of that name, `None` if there is none |
| Pruning.MinToScalar | query/src/pruning.rs:123-131 | the minimum as a scalar of the statistic's type, `None` without one |
| Pruning.MaxToScalar | query/src/pruning.rs:134-142 | the maximum as a scalar of the statistic's type, `None` without one |
| Pruning.MinValues | query/src/pruning.rs:145-149 | a one-element array of the column's minimum; `None` without a column summary or a minimum |
| Pruning.MaxValues | query/src/pruning.rs:151-155 | a one-element array of the column's maximum; `None` without a column summary or a maximum |
| Pruning.NumContainers | query/src/pruning.rs:157-162 | always 1 |
| WriteBuffer.Buffer.constructor | server/src/buffer.rs:105-122 | size 0, open segment id 1, no closed segments |
| WriteBuffer.Buffer.Size | server/src/buffer.rs:211-213 | the open segment's size plus every closed segment's |
| WriteBuffer.Evict | server/src/buffer.rs:154-188 | the size loop: a persisted oldest segment is dropped under any policy; a non-persisted one is dropped, refused or skipped by the policy |
| WriteBuffer.EvictStoreFits | server/src/buffer.rs:154-192 | a stored write fits: size after the drops plus the write is at most `max_size` |
| WriteBuffer.EvictDropsOnlyPersisted | server/src/buffer.rs:154-188 | except under `DropOldSegment`, only persisted segments are dropped, and the loop stops at the first that is not |
| WriteBuffer.EvictDropOldNeverRefuses | server/src/buffer.rs:173-180 | under `DropOldSegment` a write is stored unless the loop panics |
| WriteBuffer.EvictPanics | server/src/buffer.rs:154-180 | the loop panics exactly when the policy is `DropOldSegment` and the write does not fit beside the open segment alone |
| WriteBuffer.Buffer.Append | server/src/buffer.rs:147-208 | the outcome is `Evict`'s: error, write dropped, or stored with `size()` grown by the write; a segment over `segment_size` is closed, returned and replaced by id + 1 |
| WriteBuffer.Buffer.MakeRoom | server/src/buffer.rs:154-188 | drops exactly the segments `Evict` says, oldest first, and reports its outcome |
| WriteBuffer.Buffer.StoreWrite | server/src/buffer.rs:190-207 | the write goes into the open segment; one over the segment size is closed and replaced by the next id |
| WriteBuffer.Buffer.RemoveOldestSegment | server/src/buffer.rs:295-299 | the oldest closed segment and its size go |
| WriteBuffer.Segment.constructor | server/src/buffer.rs:317-326 | empty, size 0, not persisted |
| WriteBuffer.Segment.Append | server/src/buffer.rs:338-350 | the write is stored under its writer sequence and its size is added |
| WriteBuffer.Segment.SetPersisted | server/src/buffer.rs:353-356 | the persistence becomes the given one; the writes and the size are unchanged |
| WriteBuffer.Segment.MinClockValue | server/src/buffer.rs:328-330 | the smallest clock value of the writes, 0 without writes |
| WriteBuffer.Segment.MaxClockValue | server/src/buffer.rs:332-334 | the largest clock value of the writes, 0 without writes |
| WriteBuffer.Segment.Summary | server/src/buffer.rs:442-450 | the size, the persistence and the writer sequences in ascending order |
| WriteBuffer.SkipNewest | server/src/buffer.rs:287-292 | `segments` (`WriteBuffer.Buffer.Segments` is this function of the open and closed segments' summaries): the open segment's summary, then the closed ones newest first, without the first `offset`; past the end nothing is left |
| WriteBuffer.Buffer.WritesSince | server/src/buffer.rs:254-284 | the result is `Since` of the buffer's writes for the writer query |
| WriteBuffer.WritesSinceSound | server/src/buffer.rs:254-284 | only writes by `since`'s writer with a later clock value are returned |
| WriteBuffer.WritesSinceComplete | server/src/buffer.rs:254-284 | when each writer's clocks rise, all of that writer's later writes are returned, oldest first |
| WriteBuffer.SinceAppend | server/src/buffer.rs:220-284 | a query over older and newer runs reads the newer run first, and the older only if the scan did not stop |
| WriteBuffer.ScanBack | server/src/buffer.rs:226-246 | one segment read from its newest write back: the scan stops exactly when one of its writes stops it, and what it kept is `Since` of the segment, oldest first, in front of what was collected before |
| WriteBuffer.RunsScanSince | server/src/buffer.rs:220-284 | reading the segments one at a time, newest first, gives the same writes and the same stop as reading all their writes joined in order |
| WriteBuffer.ScanSegments | server/src/buffer.rs:220-284 | the open segment and then the closed ones, newest first, until one stops the scan: the result is `Since` of all the writes, oldest first |
| WriteBuffer.Buffer.AllWritesSince | server/src/buffer.rs:220-248 | as written: the writes after the newest one at or after `since` |
| WriteBuffer.AllWritesSinceReturnsOlder | server/src/buffer.rs:220-248 | as written, every returned write is strictly before `since` |
| WriteBuffer.AllWritesSinceMissesNewer | server/src/buffer.rs:220-248 | as written, a buffer with one write newer than `since` returns nothing |
| WriteBuffer.Buffer.AllWritesSinceFixed | server/src/buffer.rs:220-248 | the scan stops at `since` itself: the writes after `since` |
| WriteBuffer.AllWritesSinceFixedComplete | server/src/buffer.rs:220-248 | in sequence order, the fixed query returns exactly the writes after `since` |
| WriteBuffer.ObjectStorePathForSegment | server/src/buffer.rs:525-546 | ids outside 1..=999,999,998 are refused; otherwise `wb/<millions:03>/<thousands:03>/<rest:03>.segment` |
| WriteBuffer.SegmentPathRoundTrip | server/src/buffer.rs:525-546 | the path names its segment's id, so distinct segments get distinct paths |
| WriteBuffer.SegmentPathExample | server/src/buffer.rs:525-546 | id 45,010,105 is stored at `wb/045/010/105.segment` |
| ServerConfig.Config.constructor | server/src/config.rs:49-55 | nothing reserved, no database, no remote |
| ServerConfig.Config.CreateDb | server/src/config.rs:57-70 | a reserved name or an existing database fails with `DatabaseAlreadyExists`; otherwise the name is reserved and a handle holds the rules |
| ServerConfig.Config.Database | server/src/config.rs:72-75 | the committed database of that name, if any |
| ServerConfig.Config.DbNamesSorted | server/src/config.rs:77-80 | exactly the committed names, strictly ascending |
| ServerConfig.Config.UpdateDbRules | server/src/config.rs:82-101 | unknown name: `DatabaseNotFound`; a failing closure: `Closure` error with rules unchanged; otherwise the stored rules are the returned ones; other databases unchanged |
| ServerConfig.Config.Commit | server/src/config.rs:118-172 | the reservation is removed; during shutdown nothing is inserted; otherwise a new database with these rules is inserted under a name that was not a database |
| ServerConfig.Config.Rollback | server/src/config.rs:174-177 | the reservation is released; nothing else changes |
| ServerConfig.Config.RemotesSorted | server/src/config.rs:103-106 | the remotes in strictly ascending id order, each with its address |
| ServerConfig.Config.UpdateRemote | server/src/config.rs:108-111 | the id gets the address; other ids keep theirs |
| ServerConfig.Config.DeleteRemote | server/src/config.rs:113-116 | the previous address, or `None`, is returned and the id has none afterwards |
| ServerConfig.CreateDatabaseHandle.Commit | server/src/config.rs:267-275 | the rules are taken from the handle and committed |
| ServerConfig.CreateDatabaseHandle.Drop | server/src/config.rs:283-287 | a handle that still holds rules releases their reservation |
| ServerConfig.ObjectStorePathForDatabaseConfig | server/src/config.rs:203-211 | the root's directories, the database name, and the file `rules.pb` |
| ServerConfig.DatabaseConfigPathsDistinct | server/src/config.rs:203-211 | distinct databases keep their rules in distinct files |
| ParquetTable.ExtractRange | parquet_file/src/table.rs:160-172 | `Some(min..max)` exactly when the time column exists with I64 statistics having both min and max |
| ParquetTable.NewTable | parquet_file/src/table.rs:53-68 | the table keeps its summary, path and schema, and its range is `extract_range` of the summary |
| ParquetTable.MatchesPredicate | parquet_file/src/table.rs:108-115 | true without a query range; false without a table range; otherwise `!disjoint` |
| ParquetTable.NoTimeNeverMatches | parquet_file/src/table.rs:108-172 | a table without a time column never matches a query that has a time range |
| ParquetTable.ColumnNames | parquet_file/src/table.rs:118-133 | all the schema's field names, or those also in the selection |
| ParquetTable.ColumnNamesNarrow | parquet_file/src/table.rs:118-133 | a selection gives the intersection of all names with the selected ones |
| ParquetTable.Rows | parquet_file/src/table.rs:152-156 | the row count of one of the table's columns |
| ParquetTable.RowsOfEveryColumn | parquet_file/src/table.rs:152-156 | when all columns have the same row count, as the table's columns do, `rows()` is the row count of each of them |
| JobConversion.ToManagement | generated_types/src/job.rs:7-38 | each job becomes the management message of the same kind |
| JobConversion.FromManagement | generated_types/src/job.rs:40-72 | each management message becomes the job of the same kind |
| JobConversion.JobRoundTrip | generated_types/src/job.rs:7-72 | a job survives the trip through its message, every field kept |
| JobConversion.ManagementRoundTrip | generated_types/src/job.rs:7-72 | a message survives the trip through its job, every field kept |
| JobConversion.ToManagementInjective | generated_types/src/job.rs:7-38 | distinct jobs give distinct messages |
| JobConversion.StatusOf | generated_types/src/job.rs:92-102 | no result: Running; a response: Complete; an error with the cancelled code: Cancelled; any other error: Errored |
| JobConversion.TryFromOperation | generated_types/src/job.rs:74-113 | missing metadata fails on "metadata", a wrong type URL on "metadata.type_url"; it succeeds exactly when metadata and name decode, copying counts, times and job; otherwise a decode failure fails on "metadata.value" and a name that does not parse on "name", each carrying the underlying error |
| Tracing.Lower | src/commands/tracing.rs:210-211 | ASCII lower case, one character for one |
| Tracing.LowerIdempotent | src/commands/tracing.rs:210-211 | lower-casing twice is lower-casing once |
| Tracing.LogFormatName | src/commands/tracing.rs:224-232 | the displayed name has no upper case |
| Tracing.ParseLogFormat | src/commands/tracing.rs:207-221 | accepts exactly the four names, case-insensitively; otherwise an error naming the input and the options |
| Tracing.LogFormatRoundTrip | src/commands/tracing.rs:207-232 | parsing the displayed name gives the format back |
| Tracing.LogFormatCaseInsensitive | src/commands/tracing.rs:210-211 | an input parses as its lower case does |
| Tracing.LogDestinationName | src/commands/tracing.rs:256-262 | the displayed name has no upper case |
| Tracing.ParseLogDestination | src/commands/tracing.rs:241-253 | accepts exactly `stdout` and `stderr`, case-insensitively; otherwise an error naming the input and the options |
| Tracing.LogDestinationRoundTrip | src/commands/tracing.rs:241-262 | parsing the displayed name gives the destination back |
| Tracing.LogDestinationCaseInsensitive | src/commands/tracing.rs:244-245 | an input parses as its lower case does |
| Tracing.TracesExporterName | src/commands/tracing.rs:288-295 | the displayed name has no upper case |
| Tracing.ParseTracesExporter | src/commands/tracing.rs:272-285 | accepts exactly `none`, `jaeger` and `otlp`, case-insensitively; otherwise an error naming the input and the options |
| Tracing.TracesExporterRoundTrip | src/commands/tracing.rs:272-295 | parsing the displayed name gives the exporter back |
| Tracing.TracesExporterCaseInsensitive | src/commands/tracing.rs:275-276 | an input parses as its lower case does |
| Tracing.TracesSamplerName | src/commands/tracing.rs:324-334 | the displayed name has no upper case |
| Tracing.ParseTracesSampler | src/commands/tracing.rs:308-321 | accepts exactly the six sampler names, case-insensitively; otherwise an error naming the input and the options |
| Tracing.TracesSamplerRoundTrip | src/commands/tracing.rs:308-334 | parsing the displayed name gives the sampler back |
| Tracing.TracesSamplerCaseInsensitive | src/commands/tracing.rs:311-312 | an input parses as its lower case does |
| Tracing.EffectiveVerbosity | src/commands/tracing.rs:42-46 | the larger of the global and the command's `-v` counts |
| Tracing.SimpleLogFilter | src/commands/tracing.rs:19-33 | 0: `warn`; 1: `info`; 2: the debug directives; 3 or more: the trace directives |
| Tracing.LogsAndTracingFilter | src/commands/tracing.rs:91-96 | at effective verbosity 0 the configured `log_filter`; 1: `info`; 2: the debug directives; 3 or more: the trace directives |
| Tracing.VerbosityMonotone | src/commands/tracing.rs:20-25 | more `-v` never selects a quieter filter, and from three on the filter is fixed |
| Tracing.SamplerFor | src/commands/tracing.rs:128-145 | no sampler, hence no tracer, for `always_off`; the parent-based options give parent-based samplers |
| Tracing.ConstructTracer | src/commands/tracing.rs:126-188 | no tracer exactly when sampling is always off or no exporter is chosen; otherwise the chosen exporter's pipeline with the sampler |
| Tracing.TracesLayer | src/commands/tracing.rs:48-60 | the layer has a tracer exactly when one is constructed, and a filter only with both a tracer and a configured traces filter |

## Left out

- Floating point: `f64` values are carried as `real`; NaN and float min/max statistics are not modelled.
- `StatValues::update` is not part of this model: statistics keep only the count that the source's assertions guarantee.
- Sizes built on `mem::size_of` and the packed storage's size come from code that is not part of this model; they are parameters.
- MutableChunk.Chunk.Size: stated as its definition, the tables' sizes plus the dictionary's, since table sizes come from code that is not part of this model.
- Arrow export (`to_arrow`, `table_to_arrow`) and the flatbuffers encoding (`build_flatbuffer`, `Entry`, `SequencedEntry`, `TryFrom<Vec<u8>>`) are foreign code; batches are explicit records of values, null mask and rows.
- Table writes (`Table::write_columns`, `Table::new`, the table's statistics) are not part of this model: `MutableChunk.TableOps` passes them in, and a write returns the table as written, the strings it interned, in order, and its error; the chunk appends those strings to its dictionary.
- Locking (the chunk snapshot's `Mutex`, the configuration's `RwLock`, the segment's persistence `Mutex`), `Config::drain`, background workers, join handles and cancellation tokens are left out; shutdown is a boolean field.
- `Config::commit` builds a write buffer from the rules and a `Db` that are not part of this model; a database holds its rules and server id.
- The pruning predicate (DataFusion's `PruningPredicate`) is an oracle; its semantics are not modelled.
- Protobuf decoding, type-URL comparison and operation-name parsing in `TryFrom<Operation>` are parameters.
- `EnvFilter`, the Jaeger and OTLP pipeline builders (endpoints, ports, service names) and subscriber installation are left out; a tracer is described by its exporter and sampler.
- The dictionary's `ahash` hashing is left out: strings are found by equality.
- `TimestampRange::disjoint`, `Schema::select` and the parquet `read_filter` are not part of this model; `schema`, `size`, `name`, `path`, `has_table` and `table_summary` of the parquet table are plain accessors with no behaviour of their own to state.
- The line-protocol parser, sharder, partitioner and clock are parameters of `EntrySharding`; `TableBatch::columns` reads the recorded columns directly.
- `StringIterator` reads like `ValIterator` and is covered by it.
- Dictionary.StringDictionary.LookupValueOrInsert: the panic when the new index does not fit in the key type is a precondition (`!InsertWouldPanic`), not a modelled panic.
- MutableColumn.Column.Append: for the integer, float and string arms, the panic when an entry of the column's type, with rows and a null mask of the right length, carries more values than valid rows is a precondition (`AppendFits`, required only of such entries), as is room in the dictionary for new tag values.
- MutableColumn.Column.Append: the Bool arm does not panic on more values than valid rows. It pairs values with every set bit of the valid mask, including the padding bits of its last byte (mutable_buffer/src/column.rs:140-151, 376-388). An extra `false` value only raises the statistics count. `AppendFits` is required of Bool entries too, so the model leaves these entries out and does not state their outcome.
- MutableColumn.Column.Append: `EntryColumn::influx_type` is not part of this model; entries whose logical type and payload give no influx type are excluded by a precondition.
- MutableColumn.HandleWrite: the same panic is a precondition.
- MutableColumn.Column.PushNullsToLen: the "cannot shrink column" panic is a precondition `len >= Len()`.
- EntryNullMask.IsNullValue: row 0, which underflows in the source, is excluded by a precondition.
- ServerConfig.Config.Commit: the "reservation doesn't exist" panic is a precondition that the name is reserved.
- WriteBuffer.Buffer.Append: the panic of `DropOldSegment` with no closed segment left is a precondition of `Buffer.Append`; `Evict` and `EvictPanics` characterise the panicking inputs.
- ParquetTable.Rows: the panic on a table summary without columns (`columns[0]`) is a precondition.

## Findings

| source | as written | input that shows it | evidently intended | confidence | as-written member | corrected member |
|---|---|---|---|---|---|---|
| server/src/buffer.rs:220-248 | the scan back from the newest write stops at the first write with `since <= writer_sequence`, so it returns the writes before `since` only when no newer write exists | one write at clock 2 (writer 1) and `since` at clock 1 (writer 1): nothing is returned | the writes after `since`, stopping at `since` itself | high, not executed | WriteBuffer.AllWritesSinceMissesNewer | WriteBuffer.AllWritesSinceFixedComplete |
| internal_types/src/entry.rs:608-622 | `BoolIterator::next` ends once every stored value is used, even when null rows remain | a bool column whose rows are `true` and then null reads as one row | one item per row, trailing nulls included, as `ValIterator` does | high, not executed | EntryIterators.BoolIteratorDropsTrailingNull | EntryIterators.BoolReadBack |
| mutable_buffer/src/chunk.rs:100-130 | a failing batch returns before the cached snapshot is cleared, though earlier batches of the call changed the tables | a snapshot is taken, then a good batch is written followed by a failing one: the next snapshot lacks the good batch's table | the cache cleared on every exit once the tables changed | medium, not executed | MutableChunk.StaleSnapshotAfterFailedWrite | MutableChunk.Chunk.WriteTableBatchesInvalidating |
