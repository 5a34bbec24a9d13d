/**
 * The server's in-memory write buffer (server/src/buffer.rs): writes are
 * appended to an open segment, which is closed and replaced once it
 * outgrows the segment size; when the buffer's size limit would be passed,
 * closed segments are dropped oldest first according to the rollover
 * policy. Writes are read back newest first by the since-queries.
 *
 * A sequenced entry is reduced to its writer sequence and its size; its
 * payload is not part of this model.
 */
module WriteBuffer {
  import opened Wrappers
  import opened Orders
  import opened SortedMaps
  import opened ObjectPaths

  /** `WriterSequence`, ordered by clock value first and writer id second. */
  datatype WriterSequence = WriterSequence(clockValue: nat, writerId: nat)

  predicate SeqLt(a: WriterSequence, b: WriterSequence)
  {
    a.clockValue < b.clockValue || (a.clockValue == b.clockValue && a.writerId < b.writerId)
  }

  lemma SeqLtIsStrictTotalOrder()
    ensures StrictTotalOrder(SeqLt)
  {
  }

  datatype SequencedEntry = SequencedEntry(clockValue: nat, writerId: nat, size: nat)

  function KeyOf(e: SequencedEntry): WriterSequence
  {
    WriterSequence(e.clockValue, e.writerId)
  }

  datatype SegmentPersistence = SegmentPersistence(location: string, time: int)

  datatype SegmentSummary = SegmentSummary(size: nat, persisted: Option<SegmentPersistence>,
                                           sequencedEntries: seq<WriterSequence>)

  datatype WriteBufferRollover = DropOldSegment | DropIncoming | ReturnError

  datatype BufferError =
    | UnableToDropSegment(size: nat, segmentCount: nat)
    | SegmentIdOutOfBounds

  // ---------------------------------------------------------------------
  // Making room for a write
  // ---------------------------------------------------------------------

  /** What the size loop of `Buffer::append` reads of a closed segment. */
  datatype SegmentInfo = SegmentInfo(size: nat, persisted: bool)

  function Total(infos: seq<SegmentInfo>): nat
  {
    if infos == [] then 0 else infos[0].size + Total(infos[1..])
  }

  lemma {:induction false} TotalAppend(a: seq<SegmentInfo>, b: seq<SegmentInfo>)
    ensures Total(a + b) == Total(a) + Total(b)
  {
    if a == [] {
      assert a + b == b;
    } else {
      assert (a + b)[0] == a[0] && (a + b)[1..] == a[1..] + b;
      TotalAppend(a[1..], b);
    }
  }

  /**
   * How the size loop of `Buffer::append` ends and how many of the oldest
   * closed segments it dropped on the way: the write is stored, dropped,
   * refused with an error, or the loop panics removing from an empty list.
   */
  datatype Eviction = Store(dropped: nat) | SkipWrite(dropped: nat) | Refuse(dropped: nat) | Panic(dropped: nat)

  function DropOne(e: Eviction): Eviction
  {
    e.(dropped := e.dropped + 1)
  }

  function Evict(closed: seq<SegmentInfo>, current: int, writeSize: nat, maxSize: nat, rollover: WriteBufferRollover)
    : (e: Eviction)
    ensures e.dropped <= |closed|
    decreases |closed|
  {
    if current + writeSize <= maxSize then Store(0)
    else if closed != [] && closed[0].persisted then
      DropOne(Evict(closed[1..], current - closed[0].size, writeSize, maxSize, rollover))
    else
      match rollover
      case DropIncoming => SkipWrite(0)
      case ReturnError => Refuse(0)
      case DropOldSegment =>
        if closed == [] then Panic(0)
        else DropOne(Evict(closed[1..], current - closed[0].size, writeSize, maxSize, rollover))
  }

  /** A stored write fits: the size after the drops plus the write stays within the limit. */
  lemma {:induction false} EvictStoreFits(closed: seq<SegmentInfo>, current: int, writeSize: nat, maxSize: nat,
                                          rollover: WriteBufferRollover)
    ensures var e := Evict(closed, current, writeSize, maxSize, rollover);
            e.Store? ==> current - Total(closed[..e.dropped]) + writeSize <= maxSize
    decreases |closed|
  {
    var e := Evict(closed, current, writeSize, maxSize, rollover);
    if e.Store? && e.dropped > 0 {
      EvictStoreFits(closed[1..], current - closed[0].size, writeSize, maxSize, rollover);
      assert closed[..e.dropped] == [closed[0]] + closed[1..][..e.dropped - 1];
      TotalAppend([closed[0]], closed[1..][..e.dropped - 1]);
    }
  }

  /** Dropping closed segment `k` after the `k` before it. */
  lemma DropStep(infos: seq<SegmentInfo>, k: nat)
    requires k < |infos|
    ensures infos[k..][0] == infos[k] && infos[k..][1..] == infos[k + 1..]
    ensures Total(infos[..k + 1]) == Total(infos[..k]) + infos[k].size
  {
    assert infos[..k + 1] == infos[..k] + [infos[k]];
    TotalAppend(infos[..k], [infos[k]]);
  }

  /**
   * Unless the policy is `DropOldSegment`, only persisted segments are
   * dropped, and the loop stops dropping at the first one that is not.
   */
  lemma {:induction false} EvictDropsOnlyPersisted(closed: seq<SegmentInfo>, current: int, writeSize: nat,
                                                   maxSize: nat, rollover: WriteBufferRollover)
    requires rollover != DropOldSegment
    ensures var e := Evict(closed, current, writeSize, maxSize, rollover);
            && (forall i :: 0 <= i < e.dropped ==> closed[i].persisted)
            && (!e.Store? ==> e.dropped == |closed| || !closed[e.dropped].persisted)
    decreases |closed|
  {
    var e := Evict(closed, current, writeSize, maxSize, rollover);
    if e.dropped > 0 {
      EvictDropsOnlyPersisted(closed[1..], current - closed[0].size, writeSize, maxSize, rollover);
    }
  }

  /** Under `DropOldSegment` the write is always stored, unless the loop panics. */
  lemma {:induction false} EvictDropOldNeverRefuses(closed: seq<SegmentInfo>, current: int, writeSize: nat, maxSize: nat)
    ensures var e := Evict(closed, current, writeSize, maxSize, DropOldSegment);
            e.Store? || e.Panic?
    decreases |closed|
  {
    if current + writeSize > maxSize && closed != [] {
      EvictDropOldNeverRefuses(closed[1..], current - closed[0].size, writeSize, maxSize);
    }
  }

  /**
   * When the buffer's size is the open segment's plus the closed ones',
   * the loop panics exactly when the policy is `DropOldSegment` and the
   * write does not fit beside the open segment alone.
   */
  lemma {:induction false} EvictPanics(closed: seq<SegmentInfo>, openSize: nat, writeSize: nat, maxSize: nat,
                                       rollover: WriteBufferRollover)
    ensures Evict(closed, openSize + Total(closed), writeSize, maxSize, rollover).Panic?
            <==> rollover == DropOldSegment && openSize + writeSize > maxSize
    decreases |closed|
  {
    if closed != [] {
      EvictPanics(closed[1..], openSize, writeSize, maxSize, rollover);
      if rollover == DropOldSegment {
        EvictDropOldNeverRefuses(closed, openSize + Total(closed), writeSize, maxSize);
        EvictStoreFits(closed, openSize + Total(closed), writeSize, maxSize, rollover);
        var e := Evict(closed, openSize + Total(closed), writeSize, maxSize, rollover);
        assert closed == closed[..e.dropped] + closed[e.dropped..];
        TotalAppend(closed[..e.dropped], closed[e.dropped..]);
      }
    }
  }

  // ---------------------------------------------------------------------
  // Reading writes back
  // ---------------------------------------------------------------------

  /**
   * The since-queries: `AllAsWritten` is `all_writes_since` as written,
   * `AllFixed` the same query stopping at the requested sequence instead
   * of before it, `OneWriter` is `writes_since`.
   */
  datatype SinceQuery = AllAsWritten | AllFixed | OneWriter

  /** The scan, going from the newest write back, ends at `e`. */
  predicate Stops(e: SequencedEntry, since: WriterSequence, q: SinceQuery)
  {
    match q
    case AllAsWritten => !SeqLt(KeyOf(e), since)
    case AllFixed => !SeqLt(since, KeyOf(e))
    case OneWriter => e.writerId == since.writerId && e.clockValue <= since.clockValue
  }

  /** The scan collects `e` when it passes it. */
  predicate Keeps(e: SequencedEntry, since: WriterSequence, q: SinceQuery)
  {
    q == OneWriter ==> e.writerId == since.writerId
  }

  /** The writes a since-query returns from `xs` (oldest first), oldest first. */
  function Since(xs: seq<SequencedEntry>, since: WriterSequence, q: SinceQuery): seq<SequencedEntry>
    decreases |xs|
  {
    if xs == [] then []
    else
      var e := xs[|xs| - 1];
      if Stops(e, since, q) then []
      else Since(xs[..|xs| - 1], since, q) + (if Keeps(e, since, q) then [e] else [])
  }

  predicate StopsIn(xs: seq<SequencedEntry>, since: WriterSequence, q: SinceQuery)
  {
    exists i :: 0 <= i < |xs| && Stops(xs[i], since, q)
  }

  /** The since-query of writes followed by one newer write `e`. */
  lemma SinceSnoc(xs: seq<SequencedEntry>, e: SequencedEntry, since: WriterSequence, q: SinceQuery)
    ensures Since(xs + [e], since, q) == if Stops(e, since, q) then []
                                          else Since(xs, since, q) + (if Keeps(e, since, q) then [e] else [])
  {
    assert (xs + [e])[..|xs + [e]| - 1] == xs;
  }

  /** A query over two runs of writes reads the newer run first, and the older one only if it did not stop. */
  lemma {:induction false} SinceAppend(xs: seq<SequencedEntry>, ys: seq<SequencedEntry>, since: WriterSequence,
                                       q: SinceQuery)
    ensures Since(xs + ys, since, q) == if StopsIn(ys, since, q) then Since(ys, since, q)
                                        else Since(xs, since, q) + Since(ys, since, q)
    decreases |ys|
  {
    if ys == [] {
      assert xs + ys == xs;
    } else {
      var e := ys[|ys| - 1];
      var init := ys[..|ys| - 1];
      assert ys == init + [e];
      assert xs + ys == (xs + init) + [e];
      SinceSnoc(xs + init, e, since, q);
      SinceSnoc(init, e, since, q);
      StopsInAppend(init, [e], since, q);
      assert StopsIn([e], since, q) <==> Stops(e, since, q) by {
        assert [e][0] == e;
      }
      if !Stops(e, since, q) {
        var kept := if Keeps(e, since, q) then [e] else [];
        SinceAppend(xs, init, since, q);
        if !StopsIn(init, since, q) {
          assert (Since(xs, since, q) + Since(init, since, q)) + kept
                 == Since(xs, since, q) + (Since(init, since, q) + kept);
        }
      }
    }
  }

  /** Every write a since-query returns is one of `xs`, is kept, and does not stop the scan. */
  lemma {:induction false} SinceSound(xs: seq<SequencedEntry>, since: WriterSequence, q: SinceQuery)
    ensures forall e :: e in Since(xs, since, q) ==> e in xs && Keeps(e, since, q) && !Stops(e, since, q)
    decreases |xs|
  {
    if xs != [] {
      SinceSound(xs[..|xs| - 1], since, q);
    }
  }

  /** `writes_since` returns only the given writer's writes, and only those after the given clock value. */
  lemma WritesSinceSound(xs: seq<SequencedEntry>, since: WriterSequence)
    ensures forall e :: e in Since(xs, since, OneWriter) ==>
              e in xs && e.writerId == since.writerId && e.clockValue > since.clockValue
  {
    SinceSound(xs, since, OneWriter);
  }

  /** The writes of `xs` by `since`'s writer with a later clock value, oldest first. */
  function NewerOfWriter(xs: seq<SequencedEntry>, since: WriterSequence): seq<SequencedEntry>
    decreases |xs|
  {
    if xs == [] then []
    else
      var e := xs[|xs| - 1];
      NewerOfWriter(xs[..|xs| - 1], since)
        + (if e.writerId == since.writerId && e.clockValue > since.clockValue then [e] else [])
  }

  /** Each writer's clock values rise from older to newer writes. */
  predicate WriterClocksRise(xs: seq<SequencedEntry>)
  {
    forall i, j :: 0 <= i < j < |xs| && xs[i].writerId == xs[j].writerId ==> xs[i].clockValue < xs[j].clockValue
  }

  /**
   * When each writer's clock values rise, `writes_since` returns all of
   * the writer's later writes and nothing else.
   */
  lemma {:induction false} WritesSinceComplete(xs: seq<SequencedEntry>, since: WriterSequence)
    requires WriterClocksRise(xs)
    ensures Since(xs, since, OneWriter) == NewerOfWriter(xs, since)
    decreases |xs|
  {
    if xs != [] {
      var e := xs[|xs| - 1];
      var init := xs[..|xs| - 1];
      if Stops(e, since, OneWriter) {
        NoNewerBefore(init, since, e);
      } else {
        WritesSinceComplete(init, since);
      }
    }
  }

  lemma {:induction false} NoNewerBefore(xs: seq<SequencedEntry>, since: WriterSequence, last: SequencedEntry)
    requires WriterClocksRise(xs + [last])
    requires last.writerId == since.writerId && last.clockValue <= since.clockValue
    ensures NewerOfWriter(xs, since) == []
    decreases |xs|
  {
    if xs != [] {
      var init := xs[..|xs| - 1];
      var e := xs[|xs| - 1];
      assert (xs + [last])[|xs| - 1] == e && (xs + [last])[|xs|] == last;
      assert WriterClocksRise(init + [last]) by {
        forall i, j | 0 <= i < j < |init + [last]| && (init + [last])[i].writerId == (init + [last])[j].writerId
          ensures (init + [last])[i].clockValue < (init + [last])[j].clockValue
        {
          var j' := if j == |init| then |xs| else j;
          assert (init + [last])[i] == (xs + [last])[i];
          assert (init + [last])[j] == (xs + [last])[j'];
        }
      }
      NoNewerBefore(init, since, last);
    }
  }

  /**
   * `all_writes_since` as written stops at the first write, from the
   * newest back, that is at or after `since`: everything it returns comes
   * strictly before `since`.
   */
  lemma AllWritesSinceReturnsOlder(xs: seq<SequencedEntry>, since: WriterSequence)
    ensures forall e :: e in Since(xs, since, AllAsWritten) ==> e in xs && SeqLt(KeyOf(e), since)
  {
    SinceSound(xs, since, AllAsWritten);
  }

  /**
   * A buffer holding a single write newer than `since` answers
   * `all_writes_since(since)` with nothing.
   */
  lemma AllWritesSinceMissesNewer()
    ensures var newer := SequencedEntry(2, 1, 10);
            var since := WriterSequence(1, 1);
            && SeqLt(since, KeyOf(newer))
            && Since([newer], since, AllAsWritten) == []
            && Since([newer], since, AllFixed) == [newer]
  {
  }

  /** The writes of `xs` after `since`, oldest first. */
  function NewerThan(xs: seq<SequencedEntry>, since: WriterSequence): seq<SequencedEntry>
    decreases |xs|
  {
    if xs == [] then []
    else
      var e := xs[|xs| - 1];
      NewerThan(xs[..|xs| - 1], since) + (if SeqLt(since, KeyOf(e)) then [e] else [])
  }

  predicate KeysRise(xs: seq<SequencedEntry>)
  {
    forall i, j :: 0 <= i < j < |xs| ==> SeqLt(KeyOf(xs[i]), KeyOf(xs[j]))
  }

  /** With the scan stopping at `since` itself, a buffer in sequence order returns every later write. */
  lemma {:induction false} AllWritesSinceFixedComplete(xs: seq<SequencedEntry>, since: WriterSequence)
    requires KeysRise(xs)
    ensures Since(xs, since, AllFixed) == NewerThan(xs, since)
    decreases |xs|
  {
    if xs != [] {
      var e := xs[|xs| - 1];
      var init := xs[..|xs| - 1];
      if Stops(e, since, AllFixed) {
        NoneNewerBefore(init, since, e);
      } else {
        AllWritesSinceFixedComplete(init, since);
      }
    }
  }

  lemma {:induction false} NoneNewerBefore(xs: seq<SequencedEntry>, since: WriterSequence, last: SequencedEntry)
    requires forall i :: 0 <= i < |xs| ==> SeqLt(KeyOf(xs[i]), KeyOf(last))
    requires !SeqLt(since, KeyOf(last))
    ensures NewerThan(xs, since) == []
    decreases |xs|
  {
    if xs != [] {
      NoneNewerBefore(xs[..|xs| - 1], since, last);
    }
  }

  // ---------------------------------------------------------------------
  // Segments
  // ---------------------------------------------------------------------

  /** Storing a write under its own writer sequence keeps entries sorted and keyed by their writes. */
  lemma PutKeyed(entries: Entries<WriterSequence, SequencedEntry>, write: SequencedEntry)
    requires Sorted(SeqLt, entries) && forall i :: 0 <= i < |entries| ==> entries[i].0 == KeyOf(entries[i].1)
    ensures var r := Put(SeqLt, entries, KeyOf(write), write);
            && Sorted(SeqLt, r) && forall i :: 0 <= i < |r| ==> r[i].0 == KeyOf(r[i].1)
  {
    SeqLtIsStrictTotalOrder();
    PutSpec(SeqLt, entries, KeyOf(write), write);
    var r := Put(SeqLt, entries, KeyOf(write), write);
    forall i | 0 <= i < |r|
      ensures r[i].0 == KeyOf(r[i].1)
    {
      assert r[i] in r;
    }
  }

  class Segment {
    const id: nat
    const writerId: nat
    var size: nat
    var entries: Entries<WriterSequence, SequencedEntry>
    var persisted: Option<SegmentPersistence>

    /** The entries are keyed by their own writer sequence, in ascending order. */
    ghost predicate Valid()
      reads this
    {
      && Sorted(SeqLt, entries)
      && forall i :: 0 <= i < |entries| ==> entries[i].0 == KeyOf(entries[i].1)
    }

    /** `Segment::new`: empty and not persisted. */
    constructor (id: nat, writerId: nat)
      ensures Valid() && this.id == id && this.writerId == writerId
      ensures size == 0 && entries == [] && persisted == None
    {
      this.id := id;
      this.writerId := writerId;
      size := 0;
      entries := [];
      persisted := None;
    }

    /**
     * `append`: the write is stored under its writer sequence, replacing a
     * write of the same sequence, and its size is added in either case.
     */
    method Append(write: SequencedEntry)
      requires Valid()
      modifies this
      ensures Valid()
      ensures size == old(size) + write.size
      ensures entries == Put(SeqLt, old(entries), KeyOf(write), write)
      ensures persisted == old(persisted)
    {
      PutKeyed(entries, write);
      size := size + write.size;
      entries := Put(SeqLt, entries, KeyOf(write), write);
    }

    /** `set_persisted`. */
    method SetPersisted(p: SegmentPersistence)
      modifies this
      ensures persisted == Some(p) && size == old(size) && entries == old(entries)
    {
      persisted := Some(p);
    }

    /** `min_clock_value`: the smallest clock value of the segment's writes, 0 when it has none. */
    function MinClockValue(): (r: nat)
      reads this
      requires Valid()
      ensures entries == [] ==> r == 0
      ensures forall i :: 0 <= i < |entries| ==> r <= entries[i].0.clockValue
      ensures entries != [] ==> exists i :: 0 <= i < |entries| && entries[i].0.clockValue == r
    {
      if entries == [] then 0
      else
        assert forall i :: 0 < i < |entries| ==> SeqLt(entries[0].0, entries[i].0);
        entries[0].0.clockValue
    }

    /** `max_clock_value`: the largest clock value of the segment's writes, 0 when it has none. */
    function MaxClockValue(): (r: nat)
      reads this
      requires Valid()
      ensures entries == [] ==> r == 0
      ensures forall i :: 0 <= i < |entries| ==> entries[i].0.clockValue <= r
      ensures entries != [] ==> exists i :: 0 <= i < |entries| && entries[i].0.clockValue == r
    {
      if entries == [] then 0
      else
        assert forall i :: 0 <= i < |entries| - 1 ==> SeqLt(entries[i].0, entries[|entries| - 1].0);
        entries[|entries| - 1].0.clockValue
    }

    /** `summary`: the size, the persistence and the writer sequences, in ascending order. */
    function Summary(): (r: SegmentSummary)
      reads this
      requires Valid()
      ensures r.size == size && r.persisted == persisted
      ensures |r.sequencedEntries| == |entries|
      ensures forall i :: 0 <= i < |entries| ==> r.sequencedEntries[i] == KeyOf(entries[i].1)
      ensures forall i, j :: 0 <= i < j < |entries| ==> SeqLt(r.sequencedEntries[i], r.sequencedEntries[j])
    {
      SegmentSummary(size, persisted, Keys(entries))
    }

    /** The segment's writes, oldest first. */
    function Writes(): (r: seq<SequencedEntry>)
      reads this
    {
      Values(entries)
    }
  }

  /** A segment's writes are in ascending order of their writer sequences. */
  lemma SegmentWritesRise(segment: Segment)
    requires segment.Valid()
    ensures KeysRise(segment.Writes())
  {
  }

  ghost function Infos(segs: seq<Segment>): (r: seq<SegmentInfo>)
    reads segs
    ensures |r| == |segs|
    ensures forall i :: 0 <= i < |segs| ==> r[i] == SegmentInfo(segs[i].size, segs[i].persisted.Some?)
  {
    if segs == [] then [] else [SegmentInfo(segs[0].size, segs[0].persisted.Some?)] + Infos(segs[1..])
  }

  /** A well-formed segment closed after `segs` keeps every closed segment well formed and adds its size to theirs. */
  lemma ClosedAppend(segs: seq<Segment>, segment: Segment)
    requires forall i :: 0 <= i < |segs| ==> segs[i].Valid()
    requires segment.Valid()
    ensures forall i :: 0 <= i < |segs + [segment]| ==> (segs + [segment])[i].Valid()
    ensures Total(Infos(segs + [segment])) == Total(Infos(segs)) + segment.size
  {
    var info := SegmentInfo(segment.size, segment.persisted.Some?);
    assert Infos(segs + [segment]) == Infos(segs) + [info];
    TotalAppend(Infos(segs), [info]);
    assert Total([info]) == segment.size;
  }

  /** Each segment's writes, oldest first. */
  function WritesOf(segs: seq<Segment>): (r: seq<seq<SequencedEntry>>)
    reads segs
    ensures |r| == |segs| && forall i :: 0 <= i < |segs| ==> r[i] == segs[i].Writes()
  {
    if segs == [] then [] else [segs[0].Writes()] + WritesOf(segs[1..])
  }

  /** The summaries of `segs`, in their order. */
  function Summaries(segs: seq<Segment>): (r: seq<SegmentSummary>)
    reads segs
    requires forall i :: 0 <= i < |segs| ==> segs[i].Valid()
    ensures |r| == |segs| && forall i :: 0 <= i < |segs| ==> r[i] == segs[i].Summary()
  {
    if segs == [] then [] else [segs[0].Summary()] + Summaries(segs[1..])
  }

  function Concat(ws: seq<seq<SequencedEntry>>): seq<SequencedEntry>
  {
    if ws == [] then [] else ws[0] + Concat(ws[1..])
  }

  /** The runs from `j` on are run `j` followed by the runs after it. */
  lemma ConcatFront(ws: seq<seq<SequencedEntry>>, j: nat)
    requires j < |ws|
    ensures Concat(ws[j..]) == ws[j] + Concat(ws[j + 1..])
  {
    assert ws[j..][1..] == ws[j + 1..];
  }

  /**
   * The since-scan run by run, newest first: the open segment's writes
   * `open`, then the runs `ws[|ws| - 1]` down to `ws[j]`, until a run stops
   * the scan; the writes collected and whether the scan stopped.
   */
  ghost function RunsScan(ws: seq<seq<SequencedEntry>>, j: nat, open: seq<SequencedEntry>, since: WriterSequence,
                          q: SinceQuery): (seq<SequencedEntry>, bool)
    requires j <= |ws|
    decreases |ws| - j
  {
    if j == |ws| then (Since(open, since, q), StopsIn(open, since, q))
    else
      var newer := RunsScan(ws, j + 1, open, since, q);
      if newer.1 then newer
      else (Since(ws[j], since, q) + newer.0, StopsIn(ws[j], since, q))
  }

  /** Scanning run by run reads what scanning the runs joined together reads. */
  lemma {:induction false} RunsScanSince(ws: seq<seq<SequencedEntry>>, j: nat, open: seq<SequencedEntry>,
                                         since: WriterSequence, q: SinceQuery)
    requires j <= |ws|
    ensures RunsScan(ws, j, open, since, q)
            == (Since(Concat(ws[j..]) + open, since, q), StopsIn(Concat(ws[j..]) + open, since, q))
    decreases |ws| - j
  {
    if j == |ws| {
      assert ws[j..] == [];
      assert Concat(ws[j..]) + open == open;
    } else {
      RunsScanSince(ws, j + 1, open, since, q);
      var newer := Concat(ws[j + 1..]) + open;
      ConcatFront(ws, j);
      assert Concat(ws[j..]) + open == ws[j] + newer;
      SinceAppend(ws[j], newer, since, q);
      StopsInAppend(ws[j], newer, since, q);
    }
  }

  /** Once a run stops the scan, the older runs are not read. */
  lemma {:induction false} RunsScanStopped(ws: seq<seq<SequencedEntry>>, i: nat, j: nat, open: seq<SequencedEntry>,
                                           since: WriterSequence, q: SinceQuery)
    requires i <= j <= |ws| && RunsScan(ws, j, open, since, q).1
    ensures RunsScan(ws, i, open, since, q) == RunsScan(ws, j, open, since, q)
    decreases j - i
  {
    if i < j {
      RunsScanStopped(ws, i + 1, j, open, since, q);
    }
  }

  /** A scan that stopped at run `j`, or read every run, has read the since-query of all the writes. */
  lemma ScanFinished(ws: seq<seq<SequencedEntry>>, j: nat, open: seq<SequencedEntry>, since: WriterSequence,
                     q: SinceQuery)
    requires j <= |ws| && (j == 0 || RunsScan(ws, j, open, since, q).1)
    ensures RunsScan(ws, j, open, since, q).0 == Since(Concat(ws) + open, since, q)
  {
    if j > 0 {
      RunsScanStopped(ws, 0, j, open, since, q);
    }
    RunsScanSince(ws, 0, open, since, q);
    assert ws[0..] == ws;
  }

  // ---------------------------------------------------------------------
  // The buffer
  // ---------------------------------------------------------------------

  class Buffer {
    const writerId: nat
    const maxSize: nat
    const segmentSize: nat
    var persist: bool
    const rollover: WriteBufferRollover
    var currentSize: nat
    var openSegment: Segment
    var closedSegments: seq<Segment>

    /** Every segment is well formed, the open one is not closed, and the size counts every segment. */
    ghost predicate Valid()
      reads this, openSegment, closedSegments
    {
      && openSegment.Valid()
      && openSegment !in closedSegments
      && (forall i :: 0 <= i < |closedSegments| ==> closedSegments[i].Valid())
      && currentSize == openSegment.size + Total(Infos(closedSegments))
    }

    /** `Buffer::new`: size 0, open segment 1 and no closed segments. */
    constructor (writerId: nat, maxSize: nat, segmentSize: nat, rollover: WriteBufferRollover, persist: bool)
      ensures Valid() && fresh(openSegment)
      ensures this.writerId == writerId && this.maxSize == maxSize && this.segmentSize == segmentSize
      ensures this.rollover == rollover && this.persist == persist
      ensures currentSize == 0 && closedSegments == []
      ensures openSegment.id == 1 && openSegment.writerId == writerId && openSegment.entries == []
      ensures openSegment.size == 0 && openSegment.persisted.None?
    {
      this.writerId := writerId;
      this.maxSize := maxSize;
      this.segmentSize := segmentSize;
      this.rollover := rollover;
      this.persist := persist;
      openSegment := new Segment(1, writerId);
      currentSize := 0;
      closedSegments := [];
    }

    /** `size`. */
    function Size(): (r: nat)
      reads this, openSegment, closedSegments
      requires Valid()
      ensures r == openSegment.size + Total(Infos(closedSegments))
    {
      currentSize
    }

    /** `remove_oldest_segment`: the oldest closed segment goes, and its size with it. */
    method RemoveOldestSegment() returns (id: nat)
      requires Valid() && closedSegments != []
      modifies this
      ensures Valid()
      ensures closedSegments == old(closedSegments)[1..] && id == old(closedSegments)[0].id
      ensures currentSize == old(currentSize) - old(closedSegments)[0].size
      ensures openSegment == old(openSegment)
    {
      var removed := closedSegments[0];
      assert Infos(closedSegments) == [Infos(closedSegments)[0]] + Infos(closedSegments[1..]);
      closedSegments := closedSegments[1..];
      currentSize := currentSize - removed.size;
      id := removed.id;
    }

    /**
     * `append`: closed segments are dropped, oldest first, while the write
     * does not fit, as `Evict` says; then the write is refused, dropped, or
     * stored in the open segment, which is closed and returned when it has
     * outgrown the segment size.
     */
    method Append(write: SequencedEntry) returns (r: Result<Option<Segment>, BufferError>)
      requires Valid()
      requires !Evict(Infos(closedSegments), currentSize, write.size, maxSize, rollover).Panic?
      modifies this, openSegment
      ensures Valid()
      ensures var e := Evict(old(Infos(closedSegments)), old(currentSize), write.size, maxSize, rollover);
              var kept := old(closedSegments)[e.dropped..];
              var left := old(currentSize) - Total(old(Infos(closedSegments))[..e.dropped]);
              && (e.Refuse? ==> && r == Err(UnableToDropSegment(currentSize, |closedSegments|))
                                && closedSegments == kept && currentSize == left)
              && (e.SkipWrite? ==> r == Ok(None) && closedSegments == kept && currentSize == left)
              && (!e.Store? ==> openSegment == old(openSegment) && unchanged(openSegment))
              && (e.Store? ==>
                    && currentSize == left + write.size <= maxSize
                    && old(openSegment).size == old(openSegment.size) + write.size
                    && old(openSegment).entries == Put(SeqLt, old(openSegment.entries), KeyOf(write), write)
                    && (old(openSegment).size > segmentSize ==>
                          && r == Ok(Some(old(openSegment)))
                          && closedSegments == kept + [old(openSegment)]
                          && fresh(openSegment) && openSegment.id == old(openSegment).id + 1
                          && openSegment.entries == [] && openSegment.size == 0)
                    && (old(openSegment).size <= segmentSize ==>
                          r == Ok(None) && closedSegments == kept && openSegment == old(openSegment)))
    {
      var room := MakeRoom(write.size);
      match room
      case SkipWrite(_) =>
        r := Ok(None);
      case Refuse(_) =>
        r := Err(UnableToDropSegment(currentSize, |closedSegments|));
      case Store(_) =>
        r := StoreWrite(write);
      case Panic(_) =>
        assert false;
    }

    /**
     * The size loop of `append`: while the write does not fit, the oldest
     * closed segment is dropped if it is persisted, and otherwise the
     * rollover policy decides between dropping it anyway, dropping the
     * write and refusing it.
     */
    method MakeRoom(writeSize: nat) returns (e: Eviction)
      requires Valid()
      requires !Evict(Infos(closedSegments), currentSize, writeSize, maxSize, rollover).Panic?
      modifies this
      ensures Valid() && openSegment == old(openSegment)
      ensures e == Evict(old(Infos(closedSegments)), old(currentSize), writeSize, maxSize, rollover)
      ensures closedSegments == old(closedSegments)[e.dropped..]
      ensures currentSize == old(currentSize) - Total(old(Infos(closedSegments))[..e.dropped])
      ensures e.Store? ==> currentSize + writeSize <= maxSize
    {
      ghost var infos := Infos(closedSegments);
      ghost var whole := Evict(infos, currentSize, writeSize, maxSize, rollover);
      var k := 0;
      while currentSize + writeSize > maxSize
        invariant RoomInv(infos, whole, k, writeSize)
        invariant closedSegments == old(closedSegments)[k..] && openSegment == old(openSegment)
        invariant currentSize == old(currentSize) - Total(infos[..k])
        decreases |closedSegments|
      {
        var oldestIsPersisted := if closedSegments != [] then closedSegments[0].persisted.Some? else false;
        if oldestIsPersisted {
          DropForRoom(infos, whole, k, writeSize);
          k := k + 1;
          continue;
        }
        match rollover
        case DropIncoming =>
          return SkipWrite(k);
        case DropOldSegment =>
          DropForRoom(infos, whole, k, writeSize);
          k := k + 1;
        case ReturnError =>
          return Refuse(k);
      }
      return Store(k);
    }

    /** Where the size loop of `append` stands after dropping `k` segments, on its way to `whole`. */
    ghost predicate RoomInv(infos: seq<SegmentInfo>, whole: Eviction, k: nat, writeSize: nat)
      reads this, openSegment, closedSegments
    {
      && Valid()
      && k <= |infos| && Infos(closedSegments) == infos[k..]
      && !whole.Panic?
      && var rest := Evict(infos[k..], currentSize, writeSize, maxSize, rollover);
         whole == rest.(dropped := rest.dropped + k)
    }

    /** One pass of the size loop that drops the oldest closed segment. */
    method DropForRoom(ghost infos: seq<SegmentInfo>, ghost whole: Eviction, ghost k: nat, writeSize: nat)
      requires RoomInv(infos, whole, k, writeSize) && currentSize + writeSize > maxSize
      requires closedSegments != [] ==> closedSegments[0].persisted.None? ==> rollover == DropOldSegment
      requires closedSegments == [] ==> rollover == DropOldSegment
      modifies this
      ensures RoomInv(infos, whole, k + 1, writeSize)
      ensures closedSegments == old(closedSegments)[1..] && openSegment == old(openSegment)
      ensures k < |infos| && currentSize == old(currentSize) - infos[k].size
      ensures Total(infos[..k + 1]) == Total(infos[..k]) + infos[k].size
    {
      DropStep(infos, k);
      var _ := RemoveOldestSegment();
    }

    /**
     * The storing half of `append`: the write goes into the open segment,
     * which is closed and replaced by a new one with the next id when it
     * outgrows the segment size.
     */
    method StoreWrite(write: SequencedEntry) returns (r: Result<Option<Segment>, BufferError>)
      requires Valid()
      modifies this, openSegment
      ensures Valid()
      ensures currentSize == old(currentSize) + write.size
      ensures old(openSegment).size == old(openSegment.size) + write.size
      ensures old(openSegment).entries == Put(SeqLt, old(openSegment.entries), KeyOf(write), write)
      ensures old(openSegment).size > segmentSize ==>
                && r == Ok(Some(old(openSegment)))
                && closedSegments == old(closedSegments) + [old(openSegment)]
                && fresh(openSegment) && openSegment.id == old(openSegment).id + 1
                && openSegment.entries == [] && openSegment.size == 0
      ensures old(openSegment).size <= segmentSize ==>
                r == Ok(None) && closedSegments == old(closedSegments) && openSegment == old(openSegment)
    {
      currentSize := currentSize + write.size;
      openSegment.Append(write);
      if openSegment.size > segmentSize {
        var segment := CloseOpenSegment();
        r := Ok(Some(segment));
      } else {
        r := Ok(None);
      }
    }

    /** The open segment joins the closed ones and a new, empty one with the next id takes its place. */
    method CloseOpenSegment() returns (segment: Segment)
      requires Valid()
      modifies this
      ensures Valid()
      ensures segment == old(openSegment) && closedSegments == old(closedSegments) + [segment]
      ensures fresh(openSegment) && openSegment.id == segment.id + 1
      ensures openSegment.entries == [] && openSegment.size == 0
      ensures currentSize == old(currentSize)
    {
      var nextId := openSegment.id + 1;
      segment := openSegment;
      ClosedAppend(closedSegments, segment);
      openSegment := new Segment(nextId, writerId);
      closedSegments := closedSegments + [segment];
    }

    /** The buffer's writes, oldest first: the closed segments' and then the open segment's. */
    ghost function Stream(): seq<SequencedEntry>
      reads this, openSegment, closedSegments
    {
      Concat(WritesOf(closedSegments)) + openSegment.Writes()
    }

    /**
     * The scan shared by the since-queries: the open segment's writes and
     * then each closed segment's, newest first, until one stops the scan.
     */
    method CollectSince(since: WriterSequence, q: SinceQuery) returns (writes: seq<SequencedEntry>)
      ensures writes == Since(Stream(), since, q)
    {
      writes := ScanSegments(WritesOf(closedSegments), openSegment.Writes(), since, q);
    }

    /**
     * `all_writes_since` as written: the writes after the newest one that
     * is at or after `since`.
     */
    method AllWritesSince(since: WriterSequence) returns (writes: seq<SequencedEntry>)
      requires Valid()
      ensures writes == Since(Stream(), since, AllAsWritten)
      ensures forall e :: e in writes ==> e in Stream() && SeqLt(KeyOf(e), since)
    {
      writes := CollectSince(since, AllAsWritten);
      AllWritesSinceReturnsOlder(Stream(), since);
    }

    /** `all_writes_since` stopping at `since` itself: the writes after `since`. */
    method AllWritesSinceFixed(since: WriterSequence) returns (writes: seq<SequencedEntry>)
      requires Valid()
      ensures writes == Since(Stream(), since, AllFixed)
      ensures forall e :: e in writes ==> e in Stream() && SeqLt(since, KeyOf(e))
      ensures KeysRise(Stream()) ==> writes == NewerThan(Stream(), since)
    {
      writes := CollectSince(since, AllFixed);
      SinceSound(Stream(), since, AllFixed);
      if KeysRise(Stream()) {
        AllWritesSinceFixedComplete(Stream(), since);
      }
    }

    /** `writes_since`: the writes of `since`'s writer after its clock value. */
    method WritesSince(since: WriterSequence) returns (writes: seq<SequencedEntry>)
      requires Valid()
      ensures writes == Since(Stream(), since, OneWriter)
      ensures forall e :: e in writes ==> e in Stream() && e.writerId == since.writerId && e.clockValue > since.clockValue
      ensures WriterClocksRise(Stream()) ==> writes == NewerOfWriter(Stream(), since)
    {
      writes := CollectSince(since, OneWriter);
      WritesSinceSound(Stream(), since);
      if WriterClocksRise(Stream()) {
        WritesSinceComplete(Stream(), since);
      }
    }

    /**
     * `segments`: the summaries of the open segment and then of the closed
     * ones, newest first, without the first `offset`, as `SkipNewest` says.
     */
    function Segments(offset: Option<nat>): seq<SegmentSummary>
      reads this, openSegment, closedSegments
      requires Valid()
    {
      SkipNewest(openSegment.Summary(), Summaries(closedSegments), if offset.Some? then offset.value else 0)
    }
  }

  /**
   * `newest` and then the items of `older`, which is oldest first, newest
   * first, without the first `skip`: for `segments`, the open segment's
   * summary and then the closed segments'.
   */
  function SkipNewest<T>(newest: T, older: seq<T>, skip: nat): (r: seq<T>)
    ensures |r| == (if skip <= |older| then |older| + 1 - skip else 0)
    ensures skip == 0 ==> r[0] == newest
    ensures forall i :: 0 <= i < |r| && 0 < i + skip ==> r[i] == older[|older| - (i + skip)]
  {
    var all := [newest] + Reverse(older);
    if skip <= |all| then all[skip..] else []
  }

  function Reverse<T>(xs: seq<T>): (r: seq<T>)
    ensures |r| == |xs| && forall i :: 0 <= i < |xs| ==> r[i] == xs[|xs| - 1 - i]
  {
    if xs == [] then [] else Reverse(xs[1..]) + [xs[0]]
  }

  /**
   * The since-scan over the writes of the closed segments `ws`, oldest
   * first, and of the open segment: the open segment's and then each
   * closed segment's, newest first, until one stops the scan.
   */
  method ScanSegments(ws: seq<seq<SequencedEntry>>, open: seq<SequencedEntry>, since: WriterSequence, q: SinceQuery)
    returns (writes: seq<SequencedEntry>)
    ensures writes == Since(Concat(ws) + open, since, q)
  {
    var stopped;
    writes, stopped := ScanBack(open, since, q, []);
    assert Since(open, since, q) + [] == Since(open, since, q);
    var j := |ws|;
    while j > 0 && !stopped
      invariant 0 <= j <= |ws|
      invariant RunsScan(ws, j, open, since, q) == (writes, stopped)
    {
      j := j - 1;
      writes, stopped := ScanBack(ws[j], since, q, writes);
    }
    ScanFinished(ws, j, open, since, q);
  }

  /** Scans `xs` from its newest write back, collecting in front of `acc` until a write stops the scan. */
  method ScanBack(xs: seq<SequencedEntry>, since: WriterSequence, q: SinceQuery, acc: seq<SequencedEntry>)
    returns (out: seq<SequencedEntry>, stopped: bool)
    ensures stopped <==> StopsIn(xs, since, q)
    ensures out == Since(xs, since, q) + acc
  {
    out := acc;
    var i := |xs|;
    while i > 0
      invariant 0 <= i <= |xs|
      invariant !StopsIn(xs[i..], since, q)
      invariant out == Since(xs[i..], since, q) + acc
    {
      var e := xs[i - 1];
      ScanStep(xs, i, since, q, acc);
      if Stops(e, since, q) {
        return out, true;
      }
      if Keeps(e, since, q) {
        out := [e] + out;
      }
      i := i - 1;
    }
    assert xs[0..] == xs;
    stopped := false;
  }

  /** One write of the since-scan of `xs`, read after the newer writes `xs[i..]`, none of which stopped the scan. */
  lemma ScanStep(xs: seq<SequencedEntry>, i: nat, since: WriterSequence, q: SinceQuery, acc: seq<SequencedEntry>)
    requires 0 < i <= |xs| && !StopsIn(xs[i..], since, q)
    ensures var e := xs[i - 1];
            && (Stops(e, since, q) ==> StopsIn(xs, since, q) && Since(xs, since, q) + acc == Since(xs[i..], since, q) + acc)
            && (!Stops(e, since, q) ==>
                  && !StopsIn(xs[i - 1..], since, q)
                  && Since(xs[i - 1..], since, q) + acc
                     == if Keeps(e, since, q) then [e] + (Since(xs[i..], since, q) + acc) else Since(xs[i..], since, q) + acc)
  {
    if Stops(xs[i - 1], since, q) {
      ScanStops(xs, i, since, q);
    } else {
      ScanPasses(xs, i, since, q);
      var e := xs[i - 1];
      if Keeps(e, since, q) {
        assert ([e] + Since(xs[i..], since, q)) + acc == [e] + (Since(xs[i..], since, q) + acc);
      }
    }
  }

  lemma ScanStops(xs: seq<SequencedEntry>, i: nat, since: WriterSequence, q: SinceQuery)
    requires 0 < i <= |xs| && !StopsIn(xs[i..], since, q) && Stops(xs[i - 1], since, q)
    ensures StopsIn(xs, since, q) && Since(xs, since, q) == Since(xs[i..], since, q)
  {
    assert xs == xs[..i] + xs[i..];
    SinceAppend(xs[..i], xs[i..], since, q);
    assert xs[..i][i - 1] == xs[i - 1];
    assert Since(xs[..i], since, q) == [];
  }

  lemma ScanPasses(xs: seq<SequencedEntry>, i: nat, since: WriterSequence, q: SinceQuery)
    requires 0 < i <= |xs| && !StopsIn(xs[i..], since, q) && !Stops(xs[i - 1], since, q)
    ensures !StopsIn(xs[i - 1..], since, q)
    ensures Since(xs[i - 1..], since, q) == (if Keeps(xs[i - 1], since, q) then [xs[i - 1]] else []) + Since(xs[i..], since, q)
  {
    var e := xs[i - 1];
    assert xs[i - 1..] == [e] + xs[i..];
    SinceSingle(e, since, q);
    SinceAppend([e], xs[i..], since, q);
    StopsInAppend([e], xs[i..], since, q);
  }

  /** The since-scan of a single write. */
  lemma SinceSingle(e: SequencedEntry, since: WriterSequence, q: SinceQuery)
    ensures StopsIn([e], since, q) <==> Stops(e, since, q)
    ensures Since([e], since, q) == if Stops(e, since, q) || !Keeps(e, since, q) then [] else [e]
  {
    assert [e][..0] == [];
    assert [e][0] == e;
  }

  lemma StopsInAppend(xs: seq<SequencedEntry>, ys: seq<SequencedEntry>, since: WriterSequence, q: SinceQuery)
    ensures StopsIn(xs + ys, since, q) <==> StopsIn(xs, since, q) || StopsIn(ys, since, q)
  {
    if StopsIn(xs, since, q) {
      var i :| 0 <= i < |xs| && Stops(xs[i], since, q);
      assert (xs + ys)[i] == xs[i];
    }
    if StopsIn(xs + ys, since, q) {
      var i :| 0 <= i < |xs + ys| && Stops((xs + ys)[i], since, q);
      if i >= |xs| { assert ys[i - |xs|] == (xs + ys)[i]; }
    }
    if StopsIn(ys, since, q) {
      var i :| 0 <= i < |ys| && Stops(ys[i], since, q);
      assert (xs + ys)[|xs| + i] == ys[i];
    }
  }

  // ---------------------------------------------------------------------
  // Segment paths
  // ---------------------------------------------------------------------

  const WriteBufferDir := "wb"
  const MaxSegmentId := 999_999_999
  const SegmentFileExtension := ".segment"

  /**
   * `object_store_path_for_segment`: below `root`, the directory `wb`,
   * then the millions and the thousands of the id as three-digit
   * directories, and a file named by the last three digits.
   */
  function ObjectStorePathForSegment(root: ObjectPath, segmentId: nat): (r: Result<ObjectPath, BufferError>)
    ensures r.Err? <==> segmentId == 0 || segmentId >= MaxSegmentId
    ensures r.Err? ==> r.error == SegmentIdOutOfBounds
    ensures r.Ok? ==> exists millions: nat, thousands: nat, hundreds: nat ::
              && millions < 1000 && thousands < 1000 && hundreds < 1000
              && millions * 1_000_000 + thousands * 1_000 + hundreds == segmentId
              && r.value == ObjectPath(root.dirs + [WriteBufferDir, Pad3(millions), Pad3(thousands)],
                                       Some(Pad3(hundreds) + SegmentFileExtension))
  {
    if !(segmentId < MaxSegmentId && segmentId > 0) then Err(SegmentIdOutOfBounds)
    else
      var millionsPlace := segmentId / 1_000_000;
      var millions := millionsPlace * 1_000_000;
      var thousandsPlace := (segmentId - millions) / 1_000;
      var thousands := thousandsPlace * 1_000;
      var hundredsPlace := segmentId - millions - thousands;
      var path := PushAllDirs(root, [WriteBufferDir, Pad3(millionsPlace), Pad3(thousandsPlace)]);
      Ok(SetFileName(path, Pad3(hundredsPlace) + SegmentFileExtension))
  }

  /** The segment id a segment path below `root` names, if it names one. */
  function SegmentIdOfPath(root: ObjectPath, path: ObjectPath): Option<nat>
  {
    if |path.dirs| != |root.dirs| + 3 || path.dirs[..|root.dirs|] != root.dirs
       || path.dirs[|root.dirs|] != WriteBufferDir || path.fileName.None? then None
    else
      var name := path.fileName.value;
      if |name| != 3 + |SegmentFileExtension| || name[3..] != SegmentFileExtension then None
      else
        match (Parse3(path.dirs[|root.dirs| + 1]), Parse3(path.dirs[|root.dirs| + 2]), Parse3(name[..3]))
        case (Some(m), Some(t), Some(h)) => Some(m * 1_000_000 + t * 1_000 + h)
        case _ => None
  }

  /** The path of a segment names that segment: distinct segments get distinct paths. */
  lemma SegmentPathRoundTrip(root: ObjectPath, segmentId: nat)
    requires ObjectStorePathForSegment(root, segmentId).Ok?
    ensures SegmentIdOfPath(root, ObjectStorePathForSegment(root, segmentId).value) == Some(segmentId)
  {
    var path := ObjectStorePathForSegment(root, segmentId).value;
    var m: nat, t: nat, h: nat :| && m < 1000 && t < 1000 && h < 1000
                                  && m * 1_000_000 + t * 1_000 + h == segmentId
                                  && path == ObjectPath(root.dirs + [WriteBufferDir, Pad3(m), Pad3(t)],
                                                        Some(Pad3(h) + SegmentFileExtension));
    PlacesName(root, segmentId, path, m, t, h);
  }

  /** A path built from the three places of an id parses back to that id. */
  lemma PlacesName(root: ObjectPath, segmentId: nat, path: ObjectPath, m: nat, t: nat, h: nat)
    requires m < 1000 && t < 1000 && h < 1000 && m * 1_000_000 + t * 1_000 + h == segmentId
    requires path == ObjectPath(root.dirs + [WriteBufferDir, Pad3(m), Pad3(t)], Some(Pad3(h) + SegmentFileExtension))
    ensures SegmentIdOfPath(root, path) == Some(segmentId)
  {
    PlacesParse(root, m, t, h);
  }

  /** A path built from three places below 1000 parses back to the id they make up. */
  lemma PlacesParse(root: ObjectPath, m: nat, t: nat, h: nat)
    requires m < 1000 && t < 1000 && h < 1000
    ensures SegmentIdOfPath(root, ObjectPath(root.dirs + [WriteBufferDir, Pad3(m), Pad3(t)],
                                             Some(Pad3(h) + SegmentFileExtension)))
            == Some(m * 1_000_000 + t * 1_000 + h)
  {
    var name := Pad3(h) + SegmentFileExtension;
    var path := ObjectPath(root.dirs + [WriteBufferDir, Pad3(m), Pad3(t)], Some(name));
    Parse3Pad3(m);
    Parse3Pad3(t);
    Parse3Pad3(h);
    assert path.dirs[..|root.dirs|] == root.dirs;
    assert path.dirs[|root.dirs|] == WriteBufferDir;
    assert path.dirs[|root.dirs| + 1] == Pad3(m) && path.dirs[|root.dirs| + 2] == Pad3(t);
    assert name[..3] == Pad3(h) && name[3..] == SegmentFileExtension;
  }

  /** The segment id 45,010,105 lives at `wb/045/010/105.segment`. */
  lemma SegmentPathExample(root: ObjectPath)
    ensures ObjectStorePathForSegment(root, 45_010_105)
            == Ok(ObjectPath(root.dirs + ["wb", "045", "010"], Some("105.segment")))
  {
    assert 45_010_105 / 1_000_000 == 45;
    assert (45_010_105 - 45_000_000) / 1_000 == 10;
    assert Pad3(45) == "045" && Pad3(10) == "010" && Pad3(105) == "105";
    assert Pad3(105) + SegmentFileExtension == "105.segment";
  }
}
