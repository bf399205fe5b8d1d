/**
 Crashes and recovery. An operation performs a sequence of durable effects; a crash leaves the disk
 as some prefix of them, the one in progress possibly cut off at any byte, and reopening must then
 show the map from before or from after the operation.
 */
module StorageRecovery {
  import opened Options
  import opened StorageTables
  import opened StorageWal
  import opened StorageSSTable
  import opened StorageEngineModel

  /** The directory: the log, the published tables and leftover temporary files, by sequence number. */
  datatype Disk = Disk(wal: string, tables: map<nat, string>, temps: map<nat, string>)

  datatype Effect =
    | AppendWal(bytes: string)
    | WriteTemp(seqNo: nat, bytes: string)
    | Publish(seqNo: nat)
    | ResetWal
    | RemoveTable(seqNo: nat)

  function Perform(d: Disk, e: Effect): Disk {
    match e
    case AppendWal(bytes) => d.(wal := d.wal + bytes)
    case WriteTemp(n, bytes) => d.(temps := d.temps[n := bytes])
    case Publish(n) => d.(tables := d.tables[n := if n in d.temps then d.temps[n] else ""], temps := d.temps - {n})
    case ResetWal => d.(wal := "")
    case RemoveTable(n) => d.(tables := d.tables - {n})
  }

  function PerformAll(d: Disk, effects: seq<Effect>): Disk
    decreases |effects|
  {
    if effects == [] then d else PerformAll(Perform(d, effects[0]), effects[1..])
  }

  /** What a crash during one effect can leave. Writes stop at any byte, renames and removals are atomic. */
  ghost predicate CrashDuring(d: Disk, e: Effect, d': Disk) {
    match e
    case AppendWal(bytes) => exists k {:trigger bytes[..k]} :: 0 <= k <= |bytes| && d' == d.(wal := d.wal + bytes[..k])
    case WriteTemp(n, bytes) => d' == d || exists k {:trigger bytes[..k]} :: 0 <= k <= |bytes| && d' == d.(temps := d.temps[n := bytes[..k]])
    case _ => d' == d || d' == Perform(d, e)
  }

  /** What a crash somewhere in a sequence of effects can leave. */
  ghost predicate CrashIn(d: Disk, effects: seq<Effect>, d': Disk)
    decreases |effects|
  {
    if effects == [] then d' == d
    else CrashDuring(d, effects[0], d') || CrashIn(Perform(d, effects[0]), effects[1..], d')
  }

  // ------------------------------------------------------------------------------------------
  // Effects of the operations
  // ------------------------------------------------------------------------------------------

  function FlushEffects(e: Engine): seq<Effect> {
    [WriteTemp(e.next, FileOf(e.memtable)), Publish(e.next), ResetWal]
  }

  function PublishMerged(e: Engine): seq<Effect> {
    [WriteTemp(e.next, FileOf(Compacted(e.levels))), Publish(e.next)]
  }

  function Removals(levels: seq<Level>): seq<Effect>
    decreases |levels|
  {
    if levels == [] then [] else [RemoveTable(levels[0].seqNo)] + Removals(levels[1..])
  }

  function CompactEffects(e: Engine): seq<Effect> {
    if |e.levels| < COMPACTION_TRIGGER_COUNT then [] else PublishMerged(e) + Removals(e.levels)
  }

  function WriteEffects(e: Engine, r: Record): seq<Effect> {
    var e1 := Logged(e, r);
    [AppendWal(EncodeRecord(r))] + if FlushDue(e1) then FlushEffects(e1) + CompactEffects(Flushed(e1)) else []
  }

  // ------------------------------------------------------------------------------------------
  // Opening a disk
  // ------------------------------------------------------------------------------------------

  /** The tables on disk are these levels. */
  ghost predicate Stores(files: map<nat, string>, levels: seq<Level>) {
    && (forall i {:trigger levels[i]} | 0 <= i < |levels| ::
          levels[i].seqNo in files && files[levels[i].seqNo] == FileOf(levels[i].table) && Encodable(levels[i].table))
    && (forall n {:trigger n in files} | n in files :: exists i :: 0 <= i < |levels| && levels[i].seqNo == n)
  }

  /** What Open makes of a disk: temporary files vanish, tables line up newest first, and the
      memtable is rebuilt from whatever the log still delivers. */
  ghost predicate Opens(d: Disk, e: Engine) {
    && Valid(e) && Stores(d.tables, e.levels)
    && e.records == ReplayFrom(d.wal, 0) && e.memtable == ReplayTable([], e.records)
  }

  /** A running engine on its disk: the log holds exactly its records, whole. */
  ghost predicate Running(d: Disk, e: Engine) {
    && Valid(e) && Stores(d.tables, e.levels)
    && d.wal == Log(e.records) && e.memtable == ReplayTable([], e.records)
    && forall i :: 0 <= i < |e.records| ==> Writable(e.records[i])
  }

  /** The files a write may create stay within the format's limits. */
  ghost predicate Roomy(e: Engine, r: Record) {
    var e1 := Logged(e, r);
    && Writable(r)
    && (FlushDue(e1) ==> Encodable(e1.memtable))
    && (FlushDue(e1) && |Flushed(e1).levels| >= COMPACTION_TRIGGER_COUNT ==> Encodable(Compacted(Flushed(e1).levels)))
  }

  lemma RunningOpens(d: Disk, e: Engine)
    requires Running(d, e)
    ensures Opens(d, e)
  {
    hide Valid, Stores, Log, ReplayFrom, ReplayTable, Writable;
    WholeLogReplays(e.records);
  }

  // ------------------------------------------------------------------------------------------
  // Opening is a function of the disk
  // ------------------------------------------------------------------------------------------

  lemma SameNewest(files: map<nat, string>, a: seq<Level>, b: seq<Level>)
    requires Sorted(a) && Sorted(b) && Stores(files, a) && Stores(files, b) && a != [] && b != []
    ensures a[0] == b[0]
  {
    hide FileOf, Encodable, Ascending;
    assert a[0].seqNo in files;
    var j :| 0 <= j < |b| && b[j].seqNo == a[0].seqNo;
    assert b[0].seqNo in files;
    var i :| 0 <= i < |a| && a[i].seqNo == b[0].seqNo;
    FileInjective(a[0].table, b[0].table);
  }

  lemma {:induction false} SameLevels(files: map<nat, string>, a: seq<Level>, b: seq<Level>)
    requires Sorted(a) && Sorted(b) && Stores(files, a) && Stores(files, b)
    ensures a == b
    decreases |a|
  {
    hide FileOf, Encodable, Sorted;
    assert a != [] ==> a[0].seqNo in files;
    assert b != [] ==> b[0].seqNo in files;
    if a != [] {
      SameNewest(files, a, b);
      RestStores(files, a);
      RestStores(files, b);
      SameLevels(files - {a[0].seqNo}, a[1..], b[1..]);
      assert a == [a[0]] + a[1..] && b == [b[0]] + b[1..];
    }
  }

  lemma RestStores(files: map<nat, string>, levels: seq<Level>)
    requires Sorted(levels) && Stores(files, levels) && levels != []
    ensures Sorted(levels[1..]) && Stores(files - {levels[0].seqNo}, levels[1..])
  {
    hide FileOf, Encodable;
    var rest := files - {levels[0].seqNo};
    forall n | n in rest ensures exists i :: 0 <= i < |levels[1..]| && levels[1..][i].seqNo == n {
      assert n in files;
      var i :| 0 <= i < |levels| && levels[i].seqNo == n;
      assert levels[1..][i - 1].seqNo == n;
    }
  }

  /** A disk opens in one way only. */
  lemma OpensUnique(d: Disk, a: Engine, b: Engine)
    requires Opens(d, a) && Opens(d, b)
    ensures a == b
  {
    hide Stores, ReplayFrom, ReplayTable, Sorted, Ascending;
    SameLevels(d.tables, a.levels, b.levels);
  }

  // ------------------------------------------------------------------------------------------
  // Running through the effects
  // ------------------------------------------------------------------------------------------

  lemma {:induction false} ReplayTableConcat(t: Table, a: seq<Record>, b: seq<Record>)
    ensures ReplayTable(t, a + b) == ReplayTable(ReplayTable(t, a), b)
    decreases |a|
  {
    hide ApplyRecord;
    if a == [] {
      assert a + b == b;
    } else {
      ReplayTableConcat(ApplyRecord(t, a[0]), a[1..], b);
      assert (a + b)[1..] == a[1..] + b;
    }
  }

  lemma ReplayOneMore(records: seq<Record>, r: Record)
    ensures ReplayTable([], records + [r]) == ApplyRecord(ReplayTable([], records), r)
  {
    hide ApplyRecord;
    ReplayTableConcat([], records, [r]);
    assert [r][1..] == [];
  }

  lemma LogOneMore(records: seq<Record>, r: Record)
    ensures Log(records + [r]) == Log(records) + EncodeRecord(r)
  {
    hide Log, EncodeRecord;
    LogConcat(records, [r]);
    LogOne(r);
  }

  lemma LoggedValid(e: Engine, r: Record)
    requires Valid(e)
    ensures Valid(Logged(e, r))
  {
    AssignAscending(e.memtable, r.key, if r.kind == PUT then Some(r.value) else None);
  }

  lemma LoggedRunning(d: Disk, e: Engine, r: Record)
    requires Running(d, e) && Writable(r)
    ensures Running(Perform(d, AppendWal(EncodeRecord(r))), Logged(e, r))
  {
    hide Valid, Stores, Log, EncodeRecord, ReplayTable, ApplyRecord, Writable;
    LoggedValid(e, r);
    LogOneMore(e.records, r);
    ReplayOneMore(e.records, r);
  }

  lemma StoresMore(files: map<nat, string>, levels: seq<Level>, l: Level)
    requires Stores(files, levels) && Encodable(l.table)
    requires forall i {:trigger levels[i]} | 0 <= i < |levels| :: levels[i].seqNo < l.seqNo
    ensures Stores(files[l.seqNo := FileOf(l.table)], [l] + levels)
  {
    hide FileOf, Encodable;
    var files' := files[l.seqNo := FileOf(l.table)];
    forall n | n in files' ensures exists i :: 0 <= i < |[l] + levels| && ([l] + levels)[i].seqNo == n {
      if n == l.seqNo {
        assert ([l] + levels)[0].seqNo == n;
      } else {
        var i :| 0 <= i < |levels| && levels[i].seqNo == n;
        assert ([l] + levels)[i + 1].seqNo == n;
      }
    }
  }

  lemma NextIsNew(e: Engine)
    requires Valid(e)
    ensures forall i {:trigger e.levels[i]} | 0 <= i < |e.levels| :: e.levels[i].seqNo < e.next
  {
  }

  /** The disk of an engine with one more table, already published, on top of its own. */
  lemma PublishedOpens(d: Disk, e: Engine, t: Table)
    requires Valid(e) && Stores(d.tables, e.levels) && Encodable(t) && Ascending(t)
    requires e.memtable == ReplayTable([], e.records) && e.records == ReplayFrom(d.wal, 0)
    ensures var d' := PerformAll(d, [WriteTemp(e.next, FileOf(t)), Publish(e.next)]);
            && d' == d.(tables := d.tables[e.next := FileOf(t)], temps := d.temps - {e.next})
            && Opens(d', e.(levels := [Level(e.next, t)] + e.levels, next := e.next + 1))
  {
    hide FileOf, Encodable, Stores, ReplayTable, ReplayFrom, Ascending;
    TwoEffects(d, WriteTemp(e.next, FileOf(t)), Publish(e.next));
    NextIsNew(e);
    StoresMore(d.tables, e.levels, Level(e.next, t));
  }

  lemma TwoEffects(d: Disk, a: Effect, b: Effect)
    ensures PerformAll(d, [a, b]) == Perform(Perform(d, a), b)
  {
    hide Perform;
    assert [a, b][1..] == [b] && [b][1..] == [];
    assert PerformAll(d, [a, b]) == PerformAll(Perform(d, a), [b]);
    assert PerformAll(Perform(d, a), [b]) == PerformAll(Perform(Perform(d, a), b), []);
  }

  lemma {:induction false} PerformConcat(d: Disk, a: seq<Effect>, b: seq<Effect>)
    ensures PerformAll(d, a + b) == PerformAll(PerformAll(d, a), b)
    decreases |a|
  {
    hide Perform;
    if a == [] {
      assert a + b == b;
    } else {
      PerformConcat(Perform(d, a[0]), a[1..], b);
      assert (a + b)[1..] == a[1..] + b;
    }
  }

  lemma {:induction false} CrashConcat(d: Disk, a: seq<Effect>, b: seq<Effect>, d': Disk)
    requires CrashIn(d, a + b, d')
    ensures CrashIn(d, a, d') || CrashIn(PerformAll(d, a), b, d')
    decreases |a|
  {
    hide Perform, CrashDuring;
    if a == [] {
      assert a + b == b;
    } else {
      assert (a + b)[1..] == a[1..] + b;
      if !CrashDuring(d, a[0], d') { CrashConcat(Perform(d, a[0]), a[1..], b, d'); }
    }
  }

  lemma CrashOne(d: Disk, e: Effect, d': Disk)
    ensures CrashIn(d, [e], d') ==> CrashDuring(d, e, d') || d' == Perform(d, e)
    ensures PerformAll(d, [e]) == Perform(d, e)
  {
    hide Perform, CrashDuring;
    assert [e][1..] == [];
    assert PerformAll(Perform(d, e), []) == Perform(d, e);
    assert CrashIn(Perform(d, e), [], d') <==> d' == Perform(d, e);
  }

  lemma CrashTwo(d: Disk, a: Effect, b: Effect, d': Disk)
    requires CrashIn(d, [a, b], d')
    ensures CrashDuring(d, a, d') || d' == Perform(d, a) || CrashDuring(Perform(d, a), b, d') || d' == Perform(Perform(d, a), b)
  {
    hide Perform, CrashDuring, CrashIn;
    assert [a] + [b] == [a, b];
    CrashConcat(d, [a], [b], d');
    CrashOne(d, a, d');
    CrashOne(Perform(d, a), b, d');
  }

  // ------------------------------------------------------------------------------------------
  // Crash safety
  // ------------------------------------------------------------------------------------------

  /** Reopening the disk shows this map. */
  ghost predicate Recovers(d: Disk, m: Contents) { exists e :: Opens(d, e) && Shows(Layers(e), m) }

  lemma ShowsOneMap(layers: seq<Table>, a: Contents, b: Contents)
    requires Shows(layers, a) && Shows(layers, b)
    ensures a == b
  {
    hide FindIn;
    forall q ensures q in a <==> q in b {
      assert q in a ==> FindIn(layers, q).Found?;
      assert q in b ==> FindIn(layers, q).Found?;
    }
    forall q | q in a ensures a[q] == b[q] {
      assert FindIn(layers, q) == Found(a[q]) == Found(b[q]);
    }
  }

  /** A disk recovers at most one map, so to recover a map is to recover nothing else. */
  lemma RecoversOneMap(d: Disk, a: Contents, b: Contents)
    requires Recovers(d, a) && Recovers(d, b)
    ensures a == b
  {
    hide Opens, Shows, Layers;
    var e :| Opens(d, e) && Shows(Layers(e), a);
    var f :| Opens(d, f) && Shows(Layers(f), b);
    OpensUnique(d, e, f);
    ShowsOneMap(Layers(e), a, b);
  }

  lemma SameTables(d: Disk, d': Disk, m: Contents)
    requires Recovers(d, m) && d'.wal == d.wal && d'.tables == d.tables
    ensures Recovers(d', m)
  {
    hide Valid, Stores, ReplayFrom, ReplayTable, Shows;
    var e :| Opens(d, e) && Shows(Layers(e), m);
    assert Opens(d', e);
  }

  lemma RunningRecovers(d: Disk, e: Engine, m: Contents)
    requires Running(d, e) && Shows(Layers(e), m)
    ensures Recovers(d, m)
  {
    hide Running, Opens, Shows;
    RunningOpens(d, e);
  }

  /** A crash at any byte of the append. */
  lemma AppendCrash(d: Disk, e: Engine, r: Record, m: Contents, d': Disk)
    requires Running(d, e) && Shows(Layers(e), m) && Writable(r) && CrashIn(d, [AppendWal(EncodeRecord(r))], d')
    ensures Recovers(d', m) || Recovers(d', AfterRecord(m, r))
  {
    hide Shows, Log, EncodeRecord, Stores, Writable, ReplayTable, ReplayFrom, Layers, CrashIn;
    CrashOne(d, AppendWal(EncodeRecord(r)), d');
    var bytes := EncodeRecord(r);
    assert bytes[..|bytes|] == bytes;
    var k :| 0 <= k <= |bytes| && d' == d.(wal := d.wal + bytes[..k]);
    TornAppend(e.records, r, k);
    if k == |bytes| {
      LoggedRunning(d, e, r);
      LoggedShows(e, r, m);
      RunningRecovers(d', Logged(e, r), AfterRecord(m, r));
    } else {
      assert Opens(d', e);
    }
  }

  /** Between the rename and the truncation of the log, the new table and the log say the same. */
  lemma DoubledShows(e: Engine, m: Contents)
    requires Shows(Layers(e), m)
    ensures Shows(Layers(e.(levels := [Level(e.next, e.memtable)] + e.levels, next := e.next + 1)), m)
  {
    hide Find, FindIn, Layers;
    var e' := e.(levels := [Level(e.next, e.memtable)] + e.levels, next := e.next + 1);
    forall q ensures FindIn(Layers(e'), q) == FindIn(Layers(e), q) {
      LayersFind(e, q);
      LayersFind(e', q);
      FrontTable(Level(e.next, e.memtable), e.levels, q);
    }
  }

  lemma FrontTable(l: Level, levels: seq<Level>, q: string)
    ensures FindIn(Tables([l] + levels), q) == if Find(l.table, q).NotFound? then FindIn(Tables(levels), q) else Find(l.table, q)
  {
    hide Find;
    assert ([l] + levels)[1..] == levels;
    assert Tables([l] + levels)[1..] == Tables(levels);
  }

  /** Before the first removal the merged table lies in front of the tables it was merged from. */
  lemma MergedInFrontShows(e: Engine, m: Contents)
    requires Valid(e) && e.memtable == [] && Shows(Layers(e), m)
    ensures Shows(Layers(e.(levels := [Level(e.next, Compacted(e.levels))] + e.levels, next := e.next + 1)), m)
  {
    hide Find, FindIn, Layers, Compacted;
    var l := Level(e.next, Compacted(e.levels));
    var e' := e.(levels := [l] + e.levels, next := e.next + 1);
    forall q ensures FindIn(Layers(e'), q) == FindIn(Layers(e), q) {
      Absent([], q);
      LayersFind(e, q);
      LayersFind(e', q);
      FrontTable(l, e.levels, q);
      CompactedFind(e.levels, q);
    }
  }

  /** Any step of writing a new table, whatever it holds, up to and including its rename. */
  lemma PublishCrash(d: Disk, e: Engine, t: Table, m: Contents, d': Disk)
    requires Opens(d, e) && Shows(Layers(e), m) && Encodable(t) && Ascending(t)
    requires Shows(Layers(e.(levels := [Level(e.next, t)] + e.levels, next := e.next + 1)), m)
    requires CrashIn(d, [WriteTemp(e.next, FileOf(t)), Publish(e.next)], d')
    ensures Recovers(d', m)
  {
    hide Shows, Opens, Layers, FileOf, Encodable, Ascending, CrashIn, CrashDuring, PerformAll, Perform, Recovers, Valid, Stores,
         ReplayFrom, ReplayTable;
    var write, publish := WriteTemp(e.next, FileOf(t)), Publish(e.next);
    CrashTwo(d, write, publish, d');
    OpensParts(d, e);
    PublishedOpens(d, e, t);
    TwoEffects(d, write, publish);
    PublishSteps(d, e.next, FileOf(t), d');
    OpenRecovers(d, e, m);
    OpenRecovers(PerformAll(d, [write, publish]), e.(levels := [Level(e.next, t)] + e.levels, next := e.next + 1), m);
    if d'.tables == d.tables && d'.wal == d.wal { SameTables(d, d', m); }
  }

  lemma OpenRecovers(d: Disk, e: Engine, m: Contents)
    ensures Opens(d, e) && Shows(Layers(e), m) ==> Recovers(d, m)
  {
    hide Opens, Shows;
  }

  lemma PublishSteps(d: Disk, n: nat, bytes: string, d': Disk)
    ensures CrashDuring(d, WriteTemp(n, bytes), d') || d' == Perform(d, WriteTemp(n, bytes)) ==> d'.wal == d.wal && d'.tables == d.tables
    ensures CrashDuring(Perform(d, WriteTemp(n, bytes)), Publish(n), d') ==>
              (d'.wal == d.wal && d'.tables == d.tables) || d' == Perform(Perform(d, WriteTemp(n, bytes)), Publish(n))
  {
  }

  lemma OpensParts(d: Disk, e: Engine)
    requires Opens(d, e)
    ensures Valid(e) && Stores(d.tables, e.levels) && e.records == ReplayFrom(d.wal, 0) && e.memtable == ReplayTable([], e.records)
  {
  }

  lemma FlushedDisk(d: Disk, e: Engine)
    requires Running(d, e) && e.memtable != [] && Encodable(e.memtable)
    ensures var published := PerformAll(d, [WriteTemp(e.next, FileOf(e.memtable)), Publish(e.next)]);
            && PerformAll(d, FlushEffects(e)) == published.(wal := "")
            && Running(published.(wal := ""), Flushed(e))
  {
    hide Running, Opens, Valid, Stores, Encodable, FileOf, Ascending, PerformAll, ReplayTable, ReplayFrom;
    var head := [WriteTemp(e.next, FileOf(e.memtable)), Publish(e.next)];
    assert head + [ResetWal] == FlushEffects(e);
    PerformConcat(d, head, [ResetWal]);
    CrashOne(PerformAll(d, head), ResetWal, d);
    RunningOpens(d, e);
    RunningParts(d, e);
    OpensParts(d, e);
    PublishedOpens(d, e, e.memtable);
    EmptyLogRuns(PerformAll(d, head), e.(levels := [Level(e.next, e.memtable)] + e.levels, next := e.next + 1));
  }

  lemma EmptyLogRuns(d: Disk, e: Engine)
    requires Opens(d, e)
    ensures Running(d.(wal := ""), e.(records := [], memtable := []))
  {
    hide Stores, ReplayFrom;
  }

  /** Any step of a flush. */
  lemma FlushCrash(d: Disk, e: Engine, m: Contents, d': Disk)
    requires Running(d, e) && Shows(Layers(e), m) && e.memtable != [] && Encodable(e.memtable)
    requires CrashIn(d, FlushEffects(e), d')
    ensures Recovers(d', m)
  {
    hide Running, Opens, Shows, Layers, Encodable, FileOf, CrashIn, PerformAll;
    var head := [WriteTemp(e.next, FileOf(e.memtable)), Publish(e.next)];
    assert head + [ResetWal] == FlushEffects(e);
    RunningParts(d, e);
    RunningOpens(d, e);
    DoubledShows(e, m);
    CrashConcat(d, head, [ResetWal], d');
    FlushedDisk(d, e);
    if CrashIn(d, head, d') {
      PublishCrash(d, e, e.memtable, m, d');
    } else {
      CrashOne(PerformAll(d, head), ResetWal, d');
      PublishedIsCrash(d, e.next, FileOf(e.memtable));
      PublishCrash(d, e, e.memtable, m, PerformAll(d, head));
      FlushedShows(e, m);
      RunningRecovers(PerformAll(d, head).(wal := ""), Flushed(e), m);
    }
  }

  lemma RunningParts(d: Disk, e: Engine)
    requires Running(d, e)
    ensures Valid(e) && Ascending(e.memtable)
  {
  }

  lemma PublishedIsCrash(d: Disk, n: nat, bytes: string)
    ensures CrashIn(d, [WriteTemp(n, bytes), Publish(n)], PerformAll(d, [WriteTemp(n, bytes), Publish(n)]))
  {
    hide Perform, CrashDuring;
    FullRunIsCrash(d, [WriteTemp(n, bytes), Publish(n)]);
  }

  lemma {:induction false} FullRunIsCrash(d: Disk, effects: seq<Effect>)
    ensures CrashIn(d, effects, PerformAll(d, effects))
    decreases |effects|
  {
    hide Perform, CrashDuring;
    if effects != [] { FullRunIsCrash(Perform(d, effects[0]), effects[1..]); }
  }

  /** Any step of a compaction before it removes the first of the old tables. */
  lemma CompactCrash(d: Disk, e: Engine, m: Contents, d': Disk)
    requires Running(d, e) && Shows(Layers(e), m) && e.memtable == [] && Encodable(Compacted(e.levels))
    requires CrashIn(d, PublishMerged(e), d')
    ensures Recovers(d', m)
  {
    hide Running, Opens, Shows, Layers, Encodable, FileOf, CrashIn, Compacted, Ascending;
    RunningParts(d, e);
    RunningOpens(d, e);
    CompactedFind(e.levels, "");
    MergedInFrontShows(e, m);
    PublishCrash(d, e, Compacted(e.levels), m, d');
  }

  // ------------------------------------------------------------------------------------------
  // Removals
  // ------------------------------------------------------------------------------------------

  lemma RemovalsOf(levels: seq<Level>)
    requires levels != []
    ensures Removals(levels) == [RemoveTable(levels[0].seqNo)] + Removals(levels[1..])
  {
  }

  /** Removing the newest old table, behind a table in front. */
  lemma RemoveOne(files: map<nat, string>, front: Level, levels: seq<Level>)
    requires Sorted([front] + levels) && Stores(files, [front] + levels) && levels != []
    ensures Sorted([front] + levels[1..]) && Stores(files - {levels[0].seqNo}, [front] + levels[1..])
  {
    hide FileOf, Encodable, Sorted, Stores;
    var all, rest := [front] + levels, [front] + levels[1..];
    forall i | 0 <= i < |rest| ensures rest[i] == all[if i == 0 then 0 else i + 1] {}
    LeaveOut(files, all, rest);
  }

  /** The second of some tables is left out. */
  lemma LeaveOut(files: map<nat, string>, all: seq<Level>, rest: seq<Level>)
    requires Sorted(all) && Stores(files, all) && |all| == |rest| + 1 >= 2
    requires forall i :: 0 <= i < |rest| ==> rest[i] == all[if i == 0 then 0 else i + 1]
    ensures Sorted(rest) && Stores(files - {all[1].seqNo}, rest)
  {
    hide FileOf, Encodable, Ascending;
    forall i | 0 <= i < |rest| ensures rest[i].seqNo != all[1].seqNo { assert rest[i] == all[if i == 0 then 0 else i + 1]; }
    forall n | n in files - {all[1].seqNo} ensures exists i :: 0 <= i < |rest| && rest[i].seqNo == n {
      assert n in files;
      var i :| 0 <= i < |all| && all[i].seqNo == n;
      assert rest[if i == 0 then 0 else i - 1].seqNo == n;
    }
  }

  lemma {:induction false} RemoveAll(d: Disk, front: Level, levels: seq<Level>)
    requires Sorted([front] + levels) && Stores(d.tables, [front] + levels)
    ensures var d' := PerformAll(d, Removals(levels));
            d'.wal == d.wal && d'.temps == d.temps && Stores(d'.tables, [front]) && Sorted([front])
    decreases |levels|
  {
    hide Sorted, Stores;
    if levels == [] {
      assert [front] + levels == [front];
    } else {
      RemovalsOf(levels);
      RemoveOne(d.tables, front, levels);
      RemoveAll(Perform(d, RemoveTable(levels[0].seqNo)), front, levels[1..]);
    }
  }

  lemma CompactedDisk(d: Disk, e: Engine)
    requires Running(d, e) && e.memtable == [] && e.records == [] && (|e.levels| >= COMPACTION_TRIGGER_COUNT ==> Encodable(Compacted(e.levels)))
    ensures Running(PerformAll(d, CompactEffects(e)), MaybeCompacted(e))
  {
    hide Stores, Encodable, FileOf, Ascending, Compacted, Sorted, Log, Writable;
    if |e.levels| >= COMPACTION_TRIGGER_COUNT {
      var front := Level(e.next, Compacted(e.levels));
      CompactedFind(e.levels, "");
      WholeLogReplays(e.records);
      PublishedOpens(d, e, front.table);
      PerformConcat(d, PublishMerged(e), Removals(e.levels));
      RemoveAll(PerformAll(d, PublishMerged(e)), front, e.levels);
    }
  }

  // ------------------------------------------------------------------------------------------
  // A whole write
  // ------------------------------------------------------------------------------------------

  /** After a write the disk is the one its new state runs on. */
  lemma WrittenDisk(d: Disk, e: Engine, r: Record)
    requires Running(d, e) && Roomy(e, r)
    ensures Running(PerformAll(d, WriteEffects(e, r)), Written(e, r))
  {
    hide Running, Perform, Encodable, FlushEffects, CompactEffects, Writable, EncodeRecord, ApplyRecord, Compacted;
    var e1 := Logged(e, r);
    var append := [AppendWal(EncodeRecord(r))];
    CrashOne(d, append[0], d);
    LoggedRunning(d, e, r);
    if FlushDue(e1) {
      var d1 := PerformAll(d, append);
      PerformConcat(d, append, FlushEffects(e1) + CompactEffects(Flushed(e1)));
      PerformConcat(d1, FlushEffects(e1), CompactEffects(Flushed(e1)));
      FlushedDisk(d1, e1);
      CompactedDisk(PerformAll(d1, FlushEffects(e1)), Flushed(e1));
    } else {
      assert append + [] == append;
    }
  }

  /** Every disk a crash can leave before a write has removed any table. */
  ghost predicate CrashBeforeRemovals(d: Disk, e: Engine, r: Record, d': Disk) {
    var e1 := Logged(e, r);
    var append := [AppendWal(EncodeRecord(r))];
    var d1 := PerformAll(d, append);
    var d2 := PerformAll(d1, FlushEffects(e1));
    || CrashIn(d, append, d')
    || (FlushDue(e1) && CrashIn(d1, FlushEffects(e1), d'))
    || (FlushDue(e1) && |Flushed(e1).levels| >= COMPACTION_TRIGGER_COUNT && CrashIn(d2, PublishMerged(Flushed(e1)), d'))
  }

  /** Crash recovery: whatever byte of the append, whatever step of the flush, whatever step of the
      compaction up to its first removal a crash hits, reopening shows the map from before the
      write or from after it. */
  lemma WriteCrashSafe(d: Disk, e: Engine, r: Record, m: Contents, d': Disk)
    requires Running(d, e) && Shows(Layers(e), m) && Roomy(e, r) && CrashBeforeRemovals(d, e, r, d')
    ensures Recovers(d', m) || Recovers(d', AfterRecord(m, r))
  {
    hide Running, Shows, Layers, Perform, Encodable, Writable, EncodeRecord, ApplyRecord, Compacted, CrashIn, AfterRecord,
         Recovers, FlushEffects, PublishMerged;
    var e1 := Logged(e, r);
    var append := [AppendWal(EncodeRecord(r))];
    if CrashIn(d, append, d') {
      AppendCrash(d, e, r, m, d');
    } else {
      var d1 := PerformAll(d, append);
      CrashOne(d, append[0], d);
      LoggedRunning(d, e, r);
      RunningParts(d, e);
      LoggedShows(e, r, m);
      if CrashIn(d1, FlushEffects(e1), d') {
        FlushCrash(d1, e1, AfterRecord(m, r), d');
      } else {
        FlushedDisk(d1, e1);
        FlushedShows(e1, AfterRecord(m, r));
        CompactCrash(PerformAll(d1, FlushEffects(e1)), Flushed(e1), AfterRecord(m, r), d');
      }
    }
  }

  /** ... and once everything is done, the map from after it. */
  lemma WriteDurable(d: Disk, e: Engine, r: Record, m: Contents)
    requires Running(d, e) && Shows(Layers(e), m) && Roomy(e, r)
    ensures Recovers(PerformAll(d, WriteEffects(e, r)), AfterRecord(m, r))
  {
    hide Running, Shows, Layers, Roomy, WriteEffects, Written, Recovers, AfterRecord, PerformAll;
    WrittenDisk(d, e, r);
    RunningParts(d, e);
    WrittenShows(e, r, m);
    RunningRecovers(PerformAll(d, WriteEffects(e, r)), Written(e, r), AfterRecord(m, r));
  }

  // ------------------------------------------------------------------------------------------
  // Between the removals
  // ------------------------------------------------------------------------------------------

  lemma LeftShowsIff(e: Engine, m: Contents, j: nat)
    requires Valid(e) && e.memtable == [] && Shows(Layers(e), m) && j <= |e.levels|
    ensures Shows([[]] + Tables([Level(e.next, Compacted(e.levels))] + e.levels[j..]), m) <==> NothingReturns(e, j)
  {
    hide Find, FindIn, Tables, Compacted;
    var left := [[]] + Tables([Level(e.next, Compacted(e.levels))] + e.levels[j..]);
    forall q
      ensures FindIn(left, q) == if Find(Compacted(e.levels), q).NotFound? then FindIn(Tables(e.levels[j..]), q) else Find(Compacted(e.levels), q)
      ensures Find(Compacted(e.levels), q) == if q in m then Found(m[q]) else NotFound
    {
      LeftFind(e, j, q);
    }
  }

  /** No key the compaction dropped still has a value in the tables left once the j newest are gone. */
  ghost predicate NothingReturns(e: Engine, j: nat)
    requires j <= |e.levels|
  {
    forall q :: Find(Compacted(e.levels), q).NotFound? ==> !FindIn(Tables(e.levels[j..]), q).Found?
  }

  /** The engine a disk opens as after the merged table is published and the j newest old ones are gone. */
  function Left(e: Engine, j: nat): Engine
    requires j <= |e.levels|
  {
    e.(levels := [Level(e.next, Compacted(e.levels))] + e.levels[j..], next := e.next + 1)
  }

  /** The disk after the merged table is published and the j newest old ones are removed. */
  function Removed(d: Disk, e: Engine, j: nat): Disk
    requires j <= |e.levels|
  {
    PerformAll(PerformAll(d, PublishMerged(e)), Removals(e.levels[..j]))
  }

  lemma {:induction false} RemoveSome(d: Disk, front: Level, levels: seq<Level>, j: nat)
    requires Sorted([front] + levels) && Stores(d.tables, [front] + levels) && j <= |levels|
    ensures var d' := PerformAll(d, Removals(levels[..j]));
            d'.wal == d.wal && Stores(d'.tables, [front] + levels[j..]) && Sorted([front] + levels[j..])
    decreases j
  {
    hide Sorted, Stores;
    if j == 0 {
      assert levels[0..] == levels && levels[..0] == [];
    } else {
      RemovalsOf(levels[..j]);
      RemoveOne(d.tables, front, levels);
      RemoveSome(Perform(d, RemoveTable(levels[0].seqNo)), front, levels[1..], j - 1);
      assert levels[..j][1..] == levels[1..][..j - 1] && levels[1..][j - 1..] == levels[j..];
    }
  }

  lemma LeftOpens(d: Disk, e: Engine, j: nat)
    requires Running(d, e) && e.memtable == [] && e.records == [] && Encodable(Compacted(e.levels)) && j <= |e.levels|
    ensures Opens(Removed(d, e, j), Left(e, j))
  {
    hide Stores, Encodable, FileOf, Ascending, Compacted, Sorted, Log, Writable, PerformAll, ReplayFrom, ReplayTable, Removals;
    var front := Level(e.next, Compacted(e.levels));
    CompactedFind(e.levels, "");
    WholeLogReplays(e.records);
    PublishedOpens(d, e, front.table);
    RemoveSome(PerformAll(d, PublishMerged(e)), front, e.levels, j);
    LeftValid(e, j);
  }

  lemma LeftValid(e: Engine, j: nat)
    requires Valid(e) && e.memtable == [] && j <= |e.levels| && Sorted(Left(e, j).levels)
    ensures Valid(Left(e, j))
  {
    hide Compacted, Ascending;
  }

  lemma {:induction false} CrashInRemovals(d: Disk, levels: seq<Level>, d': Disk) returns (j: nat)
    requires CrashIn(d, Removals(levels), d')
    ensures j <= |levels| && d' == PerformAll(d, Removals(levels[..j]))
    decreases |levels|
  {
    if levels == [] || d' == d {
      j := 0;
      assert levels[..0] == [];
    } else {
      RemovalsOf(levels);
      var first := RemoveTable(levels[0].seqNo);
      var rest := 0;
      if d' == Perform(d, first) {
        assert levels[1..][..0] == [];
      } else {
        rest := CrashInRemovals(Perform(d, first), levels[1..], d');
      }
      j := rest + 1;
      RemovalsOf(levels[..j]);
      assert levels[..j][1..] == levels[1..][..rest];
    }
  }

  /** A crash between the removals leaves the j newest old tables removed, for some j; and reopening then
      shows the map exactly if nothing the compaction dropped returns from the tables that are left. */
  lemma MidRemoval(d: Disk, e: Engine, m: Contents, d': Disk) returns (j: nat)
    requires Running(d, e) && e.memtable == [] && e.records == [] && Shows(Layers(e), m) && Encodable(Compacted(e.levels))
    requires CrashIn(PerformAll(d, PublishMerged(e)), Removals(e.levels), d')
    ensures j <= |e.levels| && d' == Removed(d, e, j)
    ensures Recovers(d', m) <==> NothingReturns(e, j)
  {
    hide Running, Opens, Shows, Layers, Removals, PerformAll, PublishMerged, Compacted, NothingReturns, CrashIn, Encodable;
    j := CrashInRemovals(PerformAll(d, PublishMerged(e)), e.levels, d');
    RemovedRecoversIff(d, e, m, j);
  }

  lemma RemovedRecoversIff(d: Disk, e: Engine, m: Contents, j: nat)
    requires Running(d, e) && e.memtable == [] && e.records == [] && Shows(Layers(e), m) && Encodable(Compacted(e.levels))
    requires j <= |e.levels|
    ensures Recovers(Removed(d, e, j), m) <==> NothingReturns(e, j)
  {
    hide Running, Opens, Shows, Layers, Removed, Compacted, NothingReturns, Encodable;
    RunningParts(d, e);
    LeftOpens(d, e, j);
    LeftShowsIff(e, m, j);
    LeftLayers(e, j);
    if Recovers(Removed(d, e, j), m) {
      var e' :| Opens(Removed(d, e, j), e') && Shows(Layers(e'), m);
      OpensUnique(Removed(d, e, j), e', Left(e, j));
    }
  }

  lemma LeftLayers(e: Engine, j: nat)
    requires e.memtable == [] && j <= |e.levels|
    ensures Layers(Left(e, j)) == [[]] + Tables([Level(e.next, Compacted(e.levels))] + e.levels[j..])
  {
    hide Tables, Compacted;
  }

  lemma LeftFind(e: Engine, j: nat, q: string)
    requires Valid(e) && e.memtable == [] && j <= |e.levels|
    ensures FindIn([[]] + Tables([Level(e.next, Compacted(e.levels))] + e.levels[j..]), q)
         == if Find(Compacted(e.levels), q).NotFound? then FindIn(Tables(e.levels[j..]), q) else Find(Compacted(e.levels), q)
    ensures Find(Compacted(e.levels), q) == if FindIn(Layers(e), q).Found? then FindIn(Layers(e), q) else NotFound
  {
    hide Find, Tables, Compacted;
    Absent([], q);
    var front := Level(e.next, Compacted(e.levels));
    assert ([[]] + Tables([front] + e.levels[j..]))[1..] == Tables([front] + e.levels[j..]);
    FrontTable(front, e.levels[j..], q);
    LayersFind(e, q);
    CompactedFind(e.levels, q);
  }

  // ------------------------------------------------------------------------------------------
  // Every crash point
  // ------------------------------------------------------------------------------------------

  /** A crash in a compaction that has published its table has removed some of the old ones. */
  lemma CompactPoints(d: Disk, e: Engine, d': Disk) returns (j: nat)
    requires |e.levels| >= COMPACTION_TRIGGER_COUNT && CrashIn(d, CompactEffects(e), d') && !CrashIn(d, PublishMerged(e), d')
    ensures 0 < j <= |e.levels| && d' == Removed(d, e, j)
  {
    hide PublishMerged, CrashDuring, Perform;
    CrashConcat(d, PublishMerged(e), Removals(e.levels), d');
    j := CrashInRemovals(PerformAll(d, PublishMerged(e)), e.levels, d');
    if j == 0 { FullRunIsCrash(d, PublishMerged(e)); }
  }

  /** The disk and the engine between the flush and the compaction of a write. */
  function BeforeCompaction(d: Disk, e: Engine, r: Record): (Disk, Engine) {
    (PerformAll(PerformAll(d, [AppendWal(EncodeRecord(r))]), FlushEffects(Logged(e, r))), Flushed(Logged(e, r)))
  }

  lemma CompactingRuns(d: Disk, e: Engine, r: Record, m: Contents)
    requires Running(d, e) && Shows(Layers(e), m) && Roomy(e, r) && FlushDue(Logged(e, r))
    ensures var (d2, f) := BeforeCompaction(d, e, r);
            Running(d2, f) && f.memtable == [] && f.records == [] && Shows(Layers(f), AfterRecord(m, r))
  {
    hide Running, Shows, Layers, Perform, Encodable, Writable, EncodeRecord, ApplyRecord, Compacted, AfterRecord, FlushEffects;
    CrashOne(d, AppendWal(EncodeRecord(r)), d);
    LoggedRunning(d, e, r);
    RunningParts(d, e);
    LoggedShows(e, r, m);
    FlushedDisk(PerformAll(d, [AppendWal(EncodeRecord(r))]), Logged(e, r));
    FlushedShows(Logged(e, r), AfterRecord(m, r));
  }

  /** The crash points of a write are those before its first removal, and j removals of old tables for some j. */
  lemma CrashPoints(d: Disk, e: Engine, r: Record, d': Disk) returns (j: nat)
    requires CrashIn(d, WriteEffects(e, r), d') && !CrashBeforeRemovals(d, e, r, d')
    ensures FlushDue(Logged(e, r))
    ensures var (d2, f) := BeforeCompaction(d, e, r);
            |f.levels| >= COMPACTION_TRIGGER_COUNT && 0 < j <= |f.levels| && d' == Removed(d2, f, j)
  {
    hide Logged, Flushed, CrashDuring, Perform, EncodeRecord, FlushEffects, PublishMerged, FlushDue, Removed;
    var e1 := Logged(e, r);
    var append := [AppendWal(EncodeRecord(r))];
    var d1 := PerformAll(d, append);
    var f := Flushed(e1);
    CrashConcat(d, append, FlushEffects(e1) + CompactEffects(f), d');
    CrashConcat(d1, FlushEffects(e1), CompactEffects(f), d');
    if |f.levels| < COMPACTION_TRIGGER_COUNT {
      FullRunIsCrash(d1, FlushEffects(e1));
    }
    j := CompactPoints(PerformAll(d1, FlushEffects(e1)), f, d');
  }

  /** Wherever a crash hits a write, the disk opens as the map from before it or after it; except that once
      old tables are gone, it opens as the latter exactly if nothing returns from those left. */
  lemma EveryCrashPoint(d: Disk, e: Engine, r: Record, m: Contents, d': Disk)
    requires Running(d, e) && Shows(Layers(e), m) && Roomy(e, r) && CrashIn(d, WriteEffects(e, r), d')
    ensures var (d2, f) := BeforeCompaction(d, e, r);
            || Recovers(d', m) || Recovers(d', AfterRecord(m, r))
            || exists j :: 0 < j <= |f.levels| && d' == Removed(d2, f, j) && !NothingReturns(f, j)
  {
    hide Running, Shows, Layers, Encodable, Writable, EncodeRecord, ApplyRecord, Compacted, CrashIn, AfterRecord, Recovers, WriteEffects,
         FlushEffects, NothingReturns, Removed, CrashBeforeRemovals, PerformAll, Logged, Flushed, FlushDue;
    if CrashBeforeRemovals(d, e, r, d') {
      WriteCrashSafe(d, e, r, m, d');
    } else {
      var (d2, f) := BeforeCompaction(d, e, r);
      var j := CrashPoints(d, e, r, d');
      CompactingRuns(d, e, r, m);
      RemovedRecoversIff(d2, f, AfterRecord(m, r), j);
    }
  }
}
