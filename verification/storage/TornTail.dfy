/**
 Writes on a reopened disk. Opening leaves the log as a crash left it, so the next record goes behind
 whatever could not be read; it is delivered by the opening after that only if nothing unreadable was there.
 */
module StorageTornTail {
  import opened StorageBytes
  import opened StorageCrc32
  import opened StorageTables
  import opened StorageWal
  import opened StorageSSTable
  import opened StorageEngineModel
  import opened StorageRecovery
  import opened StorageRuns
  import StorageEngines

  // ------------------------------------------------------------------------------------------
  // Where reading ends
  // ------------------------------------------------------------------------------------------

  /** The position behind the last record the replay loop delivers. */
  function ReadEnd(file: string, pos: nat): nat
    decreases |file| - pos
  {
    match ReadRecord(file, pos)
    case None => pos
    case Some(next) => ReadEnd(file, next.1)
  }

  /** The log ends with its last readable record. */
  predicate WholeLog(file: string) { ReadEnd(file, 0) == |file| }

  lemma SameU32(file: string, rest: string, at: nat)
    requires at + 4 <= |file|
    ensures GetU32(file + rest, at) == GetU32(file, at)
  {
    hide FromLittleEndian;
    assert (file + rest)[at..at + 4] == file[at..at + 4];
  }

  /** What was read is read again, whatever follows it. */
  lemma ReadsAgain(file: string, rest: string, pos: nat)
    requires ReadRecord(file, pos).Some?
    ensures ReadRecord(file + rest, pos) == ReadRecord(file, pos)
  {
    hide Checksum, Body, GetU32;
    SameU32(file, rest, pos);
    SameU32(file, rest, pos + 4);
    SameU32(file, rest, pos + 8);
    var start, keyEnd, end := pos + HEADER_SIZE, pos + HEADER_SIZE + GetU32(file, pos + 4), ReadRecord(file, pos).value.1;
    assert (file + rest)[start..keyEnd] == file[start..keyEnd] && (file + rest)[keyEnd..end] == file[keyEnd..end];
  }

  /** Replay of a longer log goes on where it ended. */
  lemma {:induction false} ReplayGoesOn(file: string, rest: string, pos: nat)
    requires pos <= |file|
    ensures ReadEnd(file, pos) <= |file|
    ensures ReplayFrom(file + rest, pos) == ReplayFrom(file, pos) + ReplayFrom(file + rest, ReadEnd(file, pos))
    decreases |file| - pos
  {
    hide ReadRecord, ReplayFrom;
    ReplayUnfolds(file, pos);
    if ReadRecord(file, pos).Some? {
      var next := ReadRecord(file, pos).value;
      ReadsAgain(file, rest, pos);
      ReplayUnfolds(file + rest, pos);
      ReplayGoesOn(file, rest, next.1);
    } else {
      assert [] + ReplayFrom(file + rest, pos) == ReplayFrom(file + rest, pos);
    }
  }

  lemma {:induction false} ReadEndOf(file: string, pos: nat, records: seq<Record>)
    requires HoldsAt(file, pos, Log(records)) && forall i :: 0 <= i < |records| ==> Writable(records[i])
    requires ReadRecord(file, pos + |Log(records)|).None?
    ensures ReadEnd(file, pos) == pos + |Log(records)|
    decreases |records|
  {
    hide ReadRecord, EncodeRecord, Writable, HoldsAt;
    if records != [] {
      HoldsSplit(file, pos, EncodeRecord(records[0]), Log(records[1..]));
      ReadEncoded(file, pos, records[0]);
      ReadEndOf(file, pos + |EncodeRecord(records[0])|, records[1..]);
    }
  }

  lemma TornEnd(records: seq<Record>, torn: Record, n: nat)
    requires (forall i :: 0 <= i < |records| ==> Writable(records[i])) && Writable(torn) && n < |EncodeRecord(torn)|
    ensures ReadEnd(Log(records) + EncodeRecord(torn)[..n], 0) == |Log(records)|
  {
    hide ReadRecord, EncodeRecord, Writable, Log, HoldsAt, ReadEnd;
    TornUnreadable(Log(records), torn, n);
    HoldsFirst(Log(records), EncodeRecord(torn)[..n]);
    ReadEndOf(Log(records) + EncodeRecord(torn)[..n], 0, records);
  }

  /** The log of a running engine is whole; cut off in an append it is not. */
  lemma WholeUntilTorn(records: seq<Record>, r: Record, n: nat)
    requires (forall i :: 0 <= i < |records| ==> Writable(records[i])) && Writable(r) && n < |EncodeRecord(r)|
    ensures WholeLog(Log(records) + EncodeRecord(r)[..n]) <==> n == 0
  {
    hide EncodeRecord, Writable, Log, ReadEnd;
    TornEnd(records, r, n);
  }

  // ------------------------------------------------------------------------------------------
  // A write on a disk that was opened
  // ------------------------------------------------------------------------------------------

  /** The record a disk was opened without: appended behind a whole log it is delivered, behind bytes it
      does not make readable it is not. */
  lemma OpenedAppend(d: Disk, e: Engine, r: Record)
    requires Opens(d, e) && Writable(r)
    ensures var d' := Perform(d, AppendWal(EncodeRecord(r)));
            && (WholeLog(d.wal) ==> Opens(d', Logged(e, r)))
            && (ReadRecord(d'.wal, ReadEnd(d.wal, 0)).None? ==> Opens(d', e))
  {
    hide Valid, Stores, ReadRecord, ReplayFrom, ReplayTable, ReadEnd, EncodeRecord, ApplyRecord, Writable;
    var bytes := EncodeRecord(r);
    ReplayGoesOn(d.wal, bytes, 0);
    ReplayUnfolds(d.wal + bytes, ReadEnd(d.wal, 0));
    if WholeLog(d.wal) {
      AppendedReads(d.wal, r);
      LoggedValid(e, r);
      ReplayOneMore(e.records, r);
    }
    assert e.records + [] == e.records;
  }

  lemma AppendedReads(file: string, r: Record)
    requires Writable(r)
    ensures ReplayFrom(file + EncodeRecord(r), |file|) == [r]
  {
    hide ReadRecord, EncodeRecord, Writable, HoldsAt, ReplayFrom;
    var whole := file + EncodeRecord(r);
    HoldsLast(file, EncodeRecord(r));
    ReadEncoded(whole, |file|, r);
    ReplayUnfolds(whole, |file|);
    EndUnreadable(whole);
    ReplayUnfolds(whole, |whole|);
  }

  /** A flush forgets the log, readable or not. */
  lemma FlushForgetsLog(d: Disk, e: Engine)
    requires Valid(e) && Stores(d.tables, e.levels) && e.memtable != [] && Encodable(e.memtable)
    ensures Running(PerformAll(d, FlushEffects(e)), Flushed(e))
  {
    hide Stores, Encodable, FileOf, PerformAll, ReplayFrom, Ascending, Perform, Sorted, Running, Opens;
    var empty, bare := d.(wal := ""), e.(records := [], memtable := []);
    var head := [WriteTemp(e.next, FileOf(e.memtable)), Publish(e.next)];
    BareOpens(empty, e, bare);
    PublishedOpens(empty, bare, e.memtable);
    EmptyLogRuns(PerformAll(empty, head), Flushed(e));
    SameFlush(d, e);
  }

  lemma BareOpens(d: Disk, e: Engine, bare: Engine)
    requires Valid(e) && bare == e.(records := [], memtable := []) && d.wal == ""
    ensures Valid(bare) && bare.records == ReplayFrom(d.wal, 0) && bare.memtable == ReplayTable([], bare.records)
  {
    hide Sorted;
  }

  lemma SameFlush(d: Disk, e: Engine)
    ensures PerformAll(d, FlushEffects(e))
         == PerformAll(d.(wal := ""), [WriteTemp(e.next, FileOf(e.memtable)), Publish(e.next)]).(wal := "")
  {
    hide FileOf;
    var write, publish := WriteTemp(e.next, FileOf(e.memtable)), Publish(e.next);
    TwoEffects(d, write, publish);
    TwoEffects(d.(wal := ""), write, publish);
    assert [write, publish] + [ResetWal] == FlushEffects(e);
    PerformConcat(d, [write, publish], [ResetWal]);
    CrashOne(PerformAll(d, [write, publish]), ResetWal, d);
  }

  /** What a write behind this log is worth: the log is whole, or the write flushes it away. */
  predicate Kept(d: Disk, e: Engine, r: Record) { WholeLog(d.wal) || FlushDue(Logged(e, r)) }

  lemma OpenedWriteKept(d: Disk, e: Engine, r: Record, m: Contents)
    requires Opens(d, e) && Shows(Layers(e), m) && Roomy(e, r) && Kept(d, e, r)
    ensures Recovers(PerformAll(d, WriteEffects(e, r)), AfterRecord(m, r))
  {
    hide Opens, Valid, Shows, Layers, Perform, Encodable, Writable, EncodeRecord, ApplyRecord, Compacted, AfterRecord, Recovers, Running,
         FlushEffects, CompactEffects, WholeLog, Stores, ReplayFrom, ReplayTable;
    var e1 := Logged(e, r);
    var append := [AppendWal(EncodeRecord(r))];
    var d1 := PerformAll(d, append);
    CrashOne(d, append[0], d);
    OpensParts(d, e);
    WrittenShows(e, r, m);
    if FlushDue(e1) {
      PerformConcat(d, append, FlushEffects(e1) + CompactEffects(Flushed(e1)));
      PerformConcat(d1, FlushEffects(e1), CompactEffects(Flushed(e1)));
      LoggedValid(e, r);
      AppendKeepsTables(d, r);
      FlushForgetsLog(d1, e1);
      CompactedDisk(PerformAll(d1, FlushEffects(e1)), Flushed(e1));
      RunningRecovers(PerformAll(d, WriteEffects(e, r)), Written(e, r), AfterRecord(m, r));
    } else {
      assert append + [] == append;
      OpenedAppend(d, e, r);
      OpenRecovers(d1, e1, AfterRecord(m, r));
    }
  }

  lemma AppendKeepsTables(d: Disk, r: Record)
    ensures Perform(d, AppendWal(EncodeRecord(r))).tables == d.tables
  {
  }

  /** The appended bytes do not happen to complete the unreadable ones to a record. */
  predicate StaysUnreadable(file: string, r: Record) { ReadRecord(file + EncodeRecord(r), ReadEnd(file, 0)).None? }

  /** A write on any disk the engine opens is found by the next opening if and only if the log was whole or
      the write flushed it away; otherwise, unless chance makes the bytes behind the last record readable,
      that opening shows the map from before the write. */
  lemma OpenedWriteIff(d: Disk, e: Engine, r: Record, m: Contents)
    requires Opens(d, e) && Shows(Layers(e), m) && Roomy(e, r)
    requires !WholeLog(d.wal) ==> StaysUnreadable(d.wal, r)
    ensures var d' := PerformAll(d, WriteEffects(e, r));
            && Recovers(d', if Kept(d, e, r) then AfterRecord(m, r) else m)
            && (AfterRecord(m, r) != m ==> (Recovers(d', AfterRecord(m, r)) <==> Kept(d, e, r)))
  {
    hide Opens, Shows, Layers, Perform, EncodeRecord, AfterRecord, Recovers, WholeLog, FlushEffects, CompactEffects, Encodable, Writable,
         ReadRecord, Compacted, PerformAll, ApplyRecord;
    var d' := PerformAll(d, WriteEffects(e, r));
    if Kept(d, e, r) {
      OpenedWriteKept(d, e, r, m);
    } else {
      var append := [AppendWal(EncodeRecord(r))];
      assert append + [] == append;
      CrashOne(d, append[0], d);
      AppendedLog(d, r);
      OpenedAppend(d, e, r);
      OpenRecovers(d', e, m);
      if Recovers(d', AfterRecord(m, r)) { RecoversOneMap(d', AfterRecord(m, r), m); }
    }
  }

  lemma AppendedLog(d: Disk, r: Record)
    ensures Perform(d, AppendWal(EncodeRecord(r))).wal == d.wal + EncodeRecord(r)
  {
  }

  // ------------------------------------------------------------------------------------------
  // Torn records that swallow the next
  // ------------------------------------------------------------------------------------------

  /** A record cut off behind its header, with less than it lacks written after it. */
  lemma TornSwallows(before: string, r: Record, n: nat, next: string)
    requires Writable(r) && HEADER_SIZE <= n && n + |next| < |EncodeRecord(r)|
    ensures ReadRecord(before + EncodeRecord(r)[..n] + next, |before|).None?
  {
    hide Checksum, Body, GetU32, EncodeHeader;
    var file := before + EncodeRecord(r)[..n] + next;
    assert file[|before|..|before| + HEADER_SIZE] == EncodeHeader(r);
    ReadHeader(file, |before|, r);
  }

  /** A crash in an append that got past the header leaves a disk on which any acknowledged write is lost
      that is shorter than what the torn record lacks and sets off no flush. */
  lemma AcknowledgedWriteLost(d: Disk, e: Engine, torn: Record, n: nat, r: Record, m: Contents) returns (d': Disk)
    requires Running(d, e) && Shows(Layers(e), m) && Writable(torn) && Roomy(e, r) && !FlushDue(Logged(e, r))
    requires HEADER_SIZE <= n && n + |EncodeRecord(r)| < |EncodeRecord(torn)|
    ensures CrashIn(d, WriteEffects(e, torn), d') && Opens(d', e)
    ensures Recovers(PerformAll(d', WriteEffects(e, r)), m)
    ensures AfterRecord(m, r) != m ==> !Recovers(PerformAll(d', WriteEffects(e, r)), AfterRecord(m, r))
  {
    hide Valid, Shows, Layers, Stores, EncodeRecord, AfterRecord, Recovers, Writable, ReadRecord, ReadEnd, Log, ReplayFrom, ReplayTable, Logged,
         FlushEffects, CompactEffects, Encodable, Compacted, PerformAll, Flushed, CrashIn, FlushDue;
    d' := d.(wal := d.wal + EncodeRecord(torn)[..n]);
    TornIsCrash(d, e, torn, n);
    TornAppend(e.records, torn, n);
    TornEnd(e.records, torn, n);
    TornSwallows(Log(e.records), torn, n, EncodeRecord(r));
    WholeUntilTorn(e.records, torn, n);
    OpenedWriteIff(d', e, r, m);
  }

  lemma TornIsCrash(d: Disk, e: Engine, r: Record, n: nat)
    requires n <= |EncodeRecord(r)|
    ensures CrashIn(d, WriteEffects(e, r), d.(wal := d.wal + EncodeRecord(r)[..n]))
  {
    hide EncodeRecord, FlushEffects, CompactEffects, Logged, Flushed, FlushDue;
    var effects := WriteEffects(e, r);
    assert effects[0] == AppendWal(EncodeRecord(r));
    assert CrashDuring(d, effects[0], d.(wal := d.wal + EncodeRecord(r)[..n]));
  }

  const LONG: Record := PutRecord("aaaaaaaaaaaaaaaaaaaaaaaaaaaaaaaaaaaaaaaa", "")
  const NEXT: Record := PutRecord("b", "v")

  /** From the empty directory: a put torn behind its header, a reopening, an acknowledged put of "b"; and
      after the next reopening there is no "b". */
  lemma PutLostBehindTornLog() returns (d': Disk)
    ensures CrashIn(NOTHING, WriteEffects(EMPTY, LONG), d') && Opens(d', EMPTY)
    ensures Recovers(PerformAll(d', WriteEffects(EMPTY, NEXT)), map[])
    ensures !Recovers(PerformAll(d', WriteEffects(EMPTY, NEXT)), AfterRecord(map[], NEXT)) && "b" in AfterRecord(map[], NEXT)
  {
    hide Running, Shows, Layers, Opens, WriteEffects, Recovers, CrashIn, PerformAll, EncodeHeader;
    StorageEngines.EmptyRuns(NOTHING);
    StorageEngines.EmptyShows();
    var after := AfterRecord(map[], NEXT);
    assert "b" in after;
    assert after != map[];
    d' := AcknowledgedWriteLost(NOTHING, EMPTY, LONG, HEADER_SIZE, NEXT, map[]);
  }
}
