/**
 A run of the engine, from the empty directory, at whose last write a crash brings a deleted key back:
 the compaction drops the tombstone, and the removal of the old tables stops between the one holding
 the tombstone and the older one holding the value.
 */
module StorageResurrection {
  import opened Options
  import opened Strings
  import opened StorageTables
  import opened StorageWal
  import opened StorageSSTable
  import opened StorageEngineModel
  import opened StorageRecovery
  import opened StorageRuns
  import StorageEngines

  // ------------------------------------------------------------------------------------------
  // Filling and flushing a memtable
  // ------------------------------------------------------------------------------------------

  function RecordFor(entry: Entry): Record {
    if entry.value.Some? then PutRecord(entry.key, entry.value.value) else DeleteRecord(entry.key)
  }

  function RecordsFor(t: Table): (records: seq<Record>)
    ensures |records| == |t|
  {
    seq(|t|, i requires 0 <= i < |t| => RecordFor(t[i]))
  }

  lemma AssignLast(t: Table, i: nat)
    requires Ascending(t) && i < |t|
    ensures ApplyRecord(t[..i], RecordFor(t[i])) == t[..i + 1]
  {
    LowerBoundUnique(t[..i], t[i].key, i);
    assert t[..i] + [t[i]] == t[..i + 1];
  }

  /** Short tables whose entries hold short strings. */
  predicate Small(t: Table) {
    && |t| <= 4
    && forall i {:trigger t[i]} | 0 <= i < |t| :: |t[i].key| <= 1 && (t[i].value.Some? ==> |t[i].value.value| <= 1)
  }

  lemma {:induction false} SmallData(t: Table, i: nat)
    requires Small(t) && i <= |t|
    ensures |Data(t[..i])| <= 10 * i
    decreases i
  {
    if i > 0 {
      SmallData(t, i - 1);
      assert t[..i][..i - 1] == t[..i - 1];
    }
  }

  lemma SmallEncodable(t: Table)
    requires Small(t)
    ensures Encodable(t)
  {
    SmallData(t, |t|);
    assert t[..|t|] == t;
  }

  lemma SmallWritable(entry: Entry)
    requires |entry.key| <= 1 && (entry.value.Some? ==> |entry.value.value| <= 1)
    ensures Writable(RecordFor(entry))
  {
  }

  ghost predicate Fresh(e: Engine) { e.records == [] && e.memtable == [] }

  /** One write while the memtable fills. */
  lemma FillOne(e: Engine, t: Table, i: nat)
    requires Fresh(e) && Ascending(t) && Small(t) && |t| == 4 && i < 3
    ensures var e1 := e.(records := RecordsFor(t)[..i], memtable := t[..i]);
            && Written(e1, RecordsFor(t)[i]) == e.(records := RecordsFor(t)[..i + 1], memtable := t[..i + 1])
            && Roomy(e1, RecordsFor(t)[i])
  {
    hide Ascending, ApplyRecord, Writable, RecordFor, Encodable, Compacted;
    AssignLast(t, i);
    SmallWritable(t[i]);
    assert RecordsFor(t)[..i] + [RecordsFor(t)[i]] == RecordsFor(t)[..i + 1];
  }

  lemma {:induction false} Fill(e: Engine, t: Table, i: nat)
    requires Fresh(e) && Ascending(t) && Small(t) && |t| == 4 && i <= 3
    ensures AllRoomy(e, RecordsFor(t)[..i])
    ensures EngineAfter(e, RecordsFor(t)[..i]) == e.(records := RecordsFor(t)[..i], memtable := t[..i])
    decreases i
  {
    hide Ascending, Small, Written, Roomy, RecordsFor;
    if i > 0 {
      Fill(e, t, i - 1);
      FillOne(e, t, i - 1);
      var one := [RecordsFor(t)[i - 1]];
      assert one[1..] == [];
      RunConcat(e, RecordsFor(t)[..i - 1], one);
      assert RecordsFor(t)[..i - 1] + one == RecordsFor(t)[..i];
    }
  }

  /** The fourth record fills the memtable. */
  lemma Full(e: Engine, t: Table)
    requires Fresh(e) && Ascending(t) && Small(t) && |t| == 4
    ensures var e1 := EngineAfter(e, RecordsFor(t)[..3]);
            && Logged(e1, RecordsFor(t)[3]) == e.(records := RecordsFor(t), memtable := t)
            && FlushDue(Logged(e1, RecordsFor(t)[3])) && Writable(RecordsFor(t)[3]) && Encodable(t)
  {
    hide Ascending, ApplyRecord, Writable, RecordFor, Encodable;
    Fill(e, t, 3);
    AssignLast(t, 3);
    SmallWritable(t[3]);
    SmallEncodable(t);
    assert RecordsFor(t)[..3] + [RecordsFor(t)[3]] == RecordsFor(t) && t[..4] == t;
  }

  /** Four writes put one table on top of fewer than three. */
  lemma Round(e: Engine, t: Table)
    requires Fresh(e) && Ascending(t) && Small(t) && |t| == 4 && |e.levels| < 3
    ensures AllRoomy(e, RecordsFor(t))
    ensures EngineAfter(e, RecordsFor(t)) == Engine([], [], [Level(e.next, t)] + e.levels, e.next + 1)
  {
    hide Ascending, Small, Writable, RecordFor, Encodable, Compacted, Logged;
    Fill(e, t, 3);
    Full(e, t);
    var last := [RecordsFor(t)[3]];
    assert last[1..] == [];
    RunConcat(e, RecordsFor(t)[..3], last);
    assert RecordsFor(t)[..3] + last == RecordsFor(t);
  }

  // ------------------------------------------------------------------------------------------
  // The tables
  // ------------------------------------------------------------------------------------------

  /** Three keys that fill up a memtable, and a fourth entry behind them. */
  function Filled(last: Entry): Table { [Entry("a", Some("v")), Entry("b", Some("v")), Entry("c", Some("v")), last] }

  /** Holds the value of "k", holds its tombstone, does not mention it. */
  const VALUE: Table := Filled(Entry("k", Some("v")))
  const TOMB: Table := Filled(Entry("k", None))
  const PLAIN: Table := Filled(Entry("d", Some("v")))

  lemma FilledShape(last: Entry)
    requires last.key == "d" || last.key == "k"
    requires last.value.Some? ==> |last.value.value| <= 1
    ensures Ascending(Filled(last)) && Small(Filled(last))
  {
  }

  lemma FilledFind(last: Entry, q: string)
    requires last.key == "d" || last.key == "k"
    requires last.value.Some? ==> |last.value.value| <= 1
    ensures Find(Filled(last), q)
         == if q == last.key then Answer(last.value) else if q == "a" || q == "b" || q == "c" then Found("v") else NotFound
  {
    hide Find, Ascending, Small, Less;
    FilledShape(last);
    var t := Filled(last);
    if q == "a" { KeyAt(t, 0); }
    else if q == "b" { KeyAt(t, 1); }
    else if q == "c" { KeyAt(t, 2); }
    else if q == last.key { KeyAt(t, 3); }
    else { Absent(t, q); }
  }

  const OLD: seq<Level> := [Level(3, PLAIN), Level(2, TOMB), Level(1, VALUE)]
  const FULL: seq<Level> := [Level(4, PLAIN)] + OLD

  lemma OldFind(q: string)
    ensures FindIn(Tables(OLD), q)
         == if Find(PLAIN, q).NotFound? then (if Find(TOMB, q).NotFound? then Find(VALUE, q) else Find(TOMB, q)) else Find(PLAIN, q)
  {
    hide Find;
    assert OLD[1..] == [Level(2, TOMB), Level(1, VALUE)] && OLD[1..][1..] == [Level(1, VALUE)] && OLD[1..][1..][1..] == [];
    assert Tables(OLD[1..][1..]) == [VALUE];
    assert Tables(OLD[1..]) == [TOMB, VALUE];
    assert Tables(OLD) == [PLAIN, TOMB, VALUE];
    ThreeFind(PLAIN, TOMB, VALUE, q);
  }

  lemma ThreeFind(a: Table, b: Table, c: Table, q: string)
    ensures FindIn([a, b, c], q)
         == if Find(a, q).NotFound? then (if Find(b, q).NotFound? then Find(c, q) else Find(b, q)) else Find(a, q)
  {
    hide Find;
    assert [a, b, c][1..] == [b, c] && [b, c][1..] == [c] && [c][1..] == [];
    assert FindIn([c], q) == Find(c, q);
    assert FindIn([b, c], q) == if Find(b, q).NotFound? then Find(c, q) else Find(b, q);
  }

  lemma FullFind(q: string)
    ensures FindIn(Tables(FULL), q) == if Find(PLAIN, q).NotFound? then FindIn(Tables(OLD), q) else Find(PLAIN, q)
  {
    hide Find;
    assert FULL[1..] == OLD;
    assert Tables(FULL)[1..] == Tables(OLD);
  }

  lemma FullSorted()
    ensures Sorted(FULL)
  {
    hide Ascending;
    FilledShape(Entry("d", Some("v")));
    FilledShape(Entry("k", Some("v")));
    FilledShape(Entry("k", None));
  }

  /** The compaction keeps what the newest table says and drops "k" with its tombstone. */
  lemma FullCompacted()
    ensures Compacted(FULL) == PLAIN
  {
    hide Find, FindIn, Tables, Compacted, Ascending, Sorted;
    FullSorted();
    CompactedFind(FULL, "");
    FilledShape(Entry("d", Some("v")));
    forall q ensures Find(Compacted(FULL), q) == Find(PLAIN, q) {
      CompactedFind(FULL, q);
      FullFind(q);
      OldFind(q);
      FilledFind(Entry("d", Some("v")), q);
      FilledFind(Entry("k", None), q);
      FilledFind(Entry("k", Some("v")), q);
    }
    TableDetermined(Compacted(FULL), PLAIN);
  }

  // ------------------------------------------------------------------------------------------
  // The run
  // ------------------------------------------------------------------------------------------

  /** Put "k", delete it four writes later, and go on with other keys. */
  function Writes(): seq<Record> { RecordsFor(VALUE) + RecordsFor(TOMB) + RecordsFor(PLAIN) + RecordsFor(PLAIN)[..3] }

  /** The write that fills the fourth table. */
  function LastWrite(): Record { RecordsFor(PLAIN)[3] }

  /** One more round of four writes. */
  lemma NextRound(run: seq<Record>, e: Engine, t: Table)
    requires AllRoomy(EMPTY, run) && EngineAfter(EMPTY, run) == e
    requires Fresh(e) && Ascending(t) && Small(t) && |t| == 4 && |e.levels| < 3
    ensures AllRoomy(EMPTY, run + RecordsFor(t))
    ensures EngineAfter(EMPTY, run + RecordsFor(t)) == Engine([], [], [Level(e.next, t)] + e.levels, e.next + 1)
  {
    hide Ascending, Small, RecordsFor, AllRoomy, EngineAfter;
    Round(e, t);
    RunConcat(EMPTY, run, RecordsFor(t));
  }

  lemma RunReaches()
    ensures AllRoomy(EMPTY, Writes())
    ensures EngineAfter(EMPTY, Writes()) == Engine(RecordsFor(PLAIN)[..3], PLAIN[..3], OLD, 4)
  {
    hide Ascending, Small, AllRoomy, EngineAfter, RecordsFor;
    FilledShape(Entry("d", Some("v")));
    FilledShape(Entry("k", Some("v")));
    FilledShape(Entry("k", None));
    EmptyRun(EMPTY);
    NextRound([], EMPTY, VALUE);
    assert [] + RecordsFor(VALUE) == RecordsFor(VALUE);
    NextRound(RecordsFor(VALUE), Engine([], [], OLD[2..], 2), TOMB);
    NextRound(RecordsFor(VALUE) + RecordsFor(TOMB), Engine([], [], OLD[1..], 3), PLAIN);
    assert [Level(3, PLAIN)] + OLD[1..] == OLD && [Level(2, TOMB)] + OLD[2..] == OLD[1..] && [Level(1, VALUE)] + [] == OLD[2..];
    Fill(Engine([], [], OLD, 4), PLAIN, 3);
    RunConcat(EMPTY, RecordsFor(VALUE) + RecordsFor(TOMB) + RecordsFor(PLAIN), RecordsFor(PLAIN)[..3]);
  }

  /** The last write flushes the fourth table and sets off the compaction. */
  lemma LastWriteFills()
    ensures var e1 := Logged(EngineAfter(EMPTY, Writes()), LastWrite());
            && FlushDue(e1) && e1.memtable == PLAIN && Encodable(PLAIN) && Flushed(e1) == Engine([], [], FULL, 5)
    ensures Roomy(EngineAfter(EMPTY, Writes()), LastWrite())
  {
    hide Ascending, Small, Writable, RecordsFor, Encodable, Compacted, ApplyRecord, AllRoomy, EngineAfter;
    RunReaches();
    FilledShape(Entry("d", Some("v")));
    var e3 := Engine([], [], OLD, 4);
    Fill(e3, PLAIN, 3);
    Full(e3, PLAIN);
    FullCompacted();
  }

  // ------------------------------------------------------------------------------------------
  // The crash
  // ------------------------------------------------------------------------------------------

  /** A crash in the second half of a sequence of effects. */
  lemma {:induction false} CrashLater(d: Disk, a: seq<Effect>, b: seq<Effect>, d': Disk)
    requires CrashIn(PerformAll(d, a), b, d')
    ensures CrashIn(d, a + b, d')
    decreases |a|
  {
    hide Perform, CrashDuring;
    if a == [] {
      assert a + b == b;
    } else {
      CrashLater(Perform(d, a[0]), a[1..], b, d');
      assert (a + b)[1..] == a[1..] + b;
    }
  }

  lemma {:induction false} CrashEarlier(d: Disk, a: seq<Effect>, b: seq<Effect>)
    ensures CrashIn(d, a + b, PerformAll(d, a))
    decreases |a|
  {
    hide Perform;
    if a == [] {
      assert a + b == b;
      if b != [] { NotYet(d, b[0]); }
    } else {
      CrashEarlier(Perform(d, a[0]), a[1..], b);
      assert (a + b)[1..] == a[1..] + b;
    }
  }

  /** A crash before an effect has begun. */
  lemma NotYet(d: Disk, e: Effect)
    ensures CrashDuring(d, e, d)
  {
    if e.AppendWal? { assert d.wal + e.bytes[..0] == d.wal; }
  }

  lemma {:induction false} RemovalsSplit(levels: seq<Level>, j: nat)
    requires j <= |levels|
    ensures Removals(levels) == Removals(levels[..j]) + Removals(levels[j..])
    decreases j
  {
    if j == 0 {
      assert levels[0..] == levels && levels[..0] == [];
    } else {
      RemovalsOf(levels);
      RemovalsOf(levels[..j]);
      RemovalsSplit(levels[1..], j - 1);
      assert levels[..j][1..] == levels[1..][..j - 1] && levels[1..][j - 1..] == levels[j..];
    }
  }

  /** A crash of a flushing write that hits its compaction after j removals. */
  lemma RemovedIsCrash(d: Disk, e: Engine, r: Record, j: nat)
    requires FlushDue(Logged(e, r))
    requires |Flushed(Logged(e, r)).levels| >= COMPACTION_TRIGGER_COUNT && j <= |Flushed(Logged(e, r)).levels|
    ensures var d1 := PerformAll(d, [AppendWal(EncodeRecord(r))] + FlushEffects(Logged(e, r)));
            CrashIn(d, WriteEffects(e, r), Removed(d1, Flushed(Logged(e, r)), j))
  {
    hide PerformAll, CrashIn, FlushEffects, PublishMerged, Removals, Logged, Flushed, FlushDue, EncodeRecord;
    var f := Flushed(Logged(e, r));
    var before := [AppendWal(EncodeRecord(r))] + FlushEffects(Logged(e, r));
    var d1 := PerformAll(d, before);
    var left, right := Removals(f.levels[..j]), Removals(f.levels[j..]);
    RemovalsSplit(f.levels, j);
    CrashEarlier(PerformAll(d1, PublishMerged(f)), left, right);
    CrashLater(d1, PublishMerged(f), Removals(f.levels), Removed(d1, f, j));
    CrashLater(d, before, CompactEffects(f), Removed(d1, f, j));
    assert before + CompactEffects(f) == WriteEffects(e, r);
  }

  /** Where the run stands before its last write, and after that write's flush. */
  lemma RunStands() returns (e: Engine, d: Disk, m: Contents)
    ensures e == EngineAfter(EMPTY, Writes()) && d == DiskAfter(NOTHING, EMPTY, Writes()) && m == ContentsAfter(map[], Writes())
    ensures Running(d, e) && Shows(Layers(e), m) && Roomy(e, LastWrite())
    ensures var d1 := PerformAll(d, [AppendWal(EncodeRecord(LastWrite()))] + FlushEffects(Logged(e, LastWrite())));
            && Running(d1, Engine([], [], FULL, 5))
            && Shows(Layers(Engine([], [], FULL, 5)), AfterRecord(m, LastWrite()))
  {
    hide Running, Shows, Layers, Writes, EngineAfter, DiskAfter, ContentsAfter, AfterRecord, Logged, Flushed, EncodeRecord, PerformAll,
         FlushEffects, Encodable, Writable, Compacted, FlushDue, AllRoomy;
    e, d, m := EngineAfter(EMPTY, Writes()), DiskAfter(NOTHING, EMPTY, Writes()), ContentsAfter(map[], Writes());
    RunReaches();
    FromNothing(Writes());
    LastWriteFills();
    var r := LastWrite();
    var e1 := Logged(e, r);
    PerformConcat(d, [AppendWal(EncodeRecord(r))], FlushEffects(e1));
    CrashOne(d, AppendWal(EncodeRecord(r)), d);
    LoggedRunning(d, e, r);
    FlushedDisk(PerformAll(d, [AppendWal(EncodeRecord(r))]), e1);
    RunningParts(d, e);
    LoggedShows(e, r, m);
    FlushedShows(e1, AfterRecord(m, r));
  }

  lemma FullValid()
    ensures Valid(Engine([], [], FULL, 5))
  {
    hide Sorted;
    FullSorted();
  }

  /** "k" is deleted, and back once the table with its tombstone is gone. */
  lemma KeyReturns(m: Contents, m': Contents)
    requires var f := Engine([], [], FULL, 5); Shows(Layers(f), m) && Shows(Layers(Left(f, 3)), m')
    ensures "k" !in m && "k" in m' && m'["k"] == "v"
  {
    hide Find, FindIn, Tables, Ascending, Sorted, Compacted, Layers;
    var f := Engine([], [], FULL, 5);
    FullValid();
    FullCompacted();
    FilledFind(Entry("d", Some("v")), "k");
    FilledFind(Entry("k", None), "k");
    FilledFind(Entry("k", Some("v")), "k");
    FullFind("k");
    OldFind("k");
    Absent([], "k");
    LayersFind(f, "k");
    LeftLayers(f, 3);
    LeftFind(f, 3, "k");
    assert FULL[3..] == [Level(1, VALUE)];
    OneTable(Level(1, VALUE), "k");
  }

  /** A run from the empty directory at whose last write a crash brings a deleted key back: the disk it
      leaves opens as a map with "k", which neither the map before the write nor the one after it has. */
  lemma DeletedKeyReturns() returns (d': Disk, m': Contents)
    ensures var d, m := DiskAfter(NOTHING, EMPTY, Writes()), ContentsAfter(map[], Writes());
            && Running(d, EngineAfter(EMPTY, Writes())) && Recovers(d, m)
            && Roomy(EngineAfter(EMPTY, Writes()), LastWrite())
            && CrashIn(d, WriteEffects(EngineAfter(EMPTY, Writes()), LastWrite()), d')
            && Recovers(d', m') && "k" in m' && m'["k"] == "v"
            && "k" !in m && "k" !in AfterRecord(m, LastWrite())
            && !Recovers(d', m) && !Recovers(d', AfterRecord(m, LastWrite()))
  {
    hide Running, Shows, Layers, Writes, EngineAfter, DiskAfter, ContentsAfter, Logged, Flushed, EncodeRecord, PerformAll, Opens,
         FlushEffects, Encodable, Writable, Compacted, FlushDue, WriteEffects, CrashIn, Removed, Left, Valid, Roomy;
    var e, d, m := RunStands();
    LastWriteFills();
    FullCompacted();
    var f := Engine([], [], FULL, 5);
    var d1 := PerformAll(d, [AppendWal(EncodeRecord(LastWrite()))] + FlushEffects(Logged(e, LastWrite())));
    RemovedIsCrash(d, e, LastWrite(), 3);
    LeftOpens(d1, f, 3);
    d' := Removed(d1, f, 3);
    OpensParts(d', Left(f, 3));
    StorageEngines.LayersAscending(Left(f, 3));
    StorageEngines.ContentsShown(Layers(Left(f, 3)));
    m' := StorageEngines.ContentsOf(Layers(Left(f, 3)));
    RunningRecovers(d, e, m);
    KeyReturns(AfterRecord(m, LastWrite()), m');
    if Recovers(d', m) { RecoversOneMap(d', m, m'); }
    if Recovers(d', AfterRecord(m, LastWrite())) { RecoversOneMap(d', AfterRecord(m, LastWrite()), m'); }
  }
}
