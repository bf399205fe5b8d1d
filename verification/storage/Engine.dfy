/** The storage engine object: a log, a memtable and sorted files that together behave as a map. */
module StorageEngines {
  import opened Options
  import opened StorageTables
  import opened StorageWal
  import opened StorageMemtable
  import opened StorageSSTable
  import opened StorageEngineModel
  import opened StorageRecovery

  // ------------------------------------------------------------------------------------------
  // Readers and the levels they stand for
  // ------------------------------------------------------------------------------------------

  ghost function LevelsOf(readers: seq<SSTableReader>): (levels: seq<Level>)
    reads readers
    ensures |levels| == |readers|
    decreases |readers|
  {
    if readers == [] then [] else [Level(readers[0].path, readers[0].table)] + LevelsOf(readers[1..])
  }

  ghost predicate AllValid(readers: seq<SSTableReader>)
    reads readers
  {
    forall i :: 0 <= i < |readers| ==> readers[i].Valid()
  }

  lemma {:induction false} LevelsAt(readers: seq<SSTableReader>, i: nat)
    requires i < |readers|
    ensures LevelsOf(readers)[i] == Level(readers[i].path, readers[i].table)
    decreases |readers|
  {
    if i > 0 { LevelsAt(readers[1..], i - 1); }
  }

  lemma {:induction false} LevelsConcat(a: seq<SSTableReader>, b: seq<SSTableReader>)
    ensures LevelsOf(a + b) == LevelsOf(a) + LevelsOf(b)
    decreases |a|
  {
    if a == [] {
      assert a + b == b;
    } else {
      LevelsConcat(a[1..], b);
      assert (a + b)[1..] == a[1..] + b;
    }
  }

  // ------------------------------------------------------------------------------------------
  // The map behind some layers
  // ------------------------------------------------------------------------------------------

  function KeySet(t: Table): set<string> { set i | 0 <= i < |t| :: t[i].key }

  ghost function MapOf(t: Table): Contents {
    map q | q in KeySet(t) && Find(t, q).Found? :: Find(t, q).value
  }

  ghost function ContentsOf(layers: seq<Table>): Contents { MapOf(MergeAll([], layers)) }

  lemma ContentsShown(layers: seq<Table>)
    requires AllAscending(layers)
    ensures Shows(layers, ContentsOf(layers))
  {
    hide Find, FindIn, MergeAll, AllAscending, Ascending;
    var t := MergeAll([], layers);
    forall q ensures FindIn(layers, q) == Find(t, q) && (Find(t, q).Found? ==> q in KeySet(t)) {
      MergedFind(layers, q);
      if Find(t, q).Found? { var i := Present(t, q); }
    }
  }

  // ------------------------------------------------------------------------------------------
  // Directory listing
  // ------------------------------------------------------------------------------------------

  ghost predicate Descends(s: seq<nat>) { forall i, j :: 0 <= i < j < |s| ==> s[i] > s[j] }

  method SortedNewestFirst(keys: set<nat>) returns (found: seq<nat>)
    ensures Descends(found) && forall n :: n in found <==> n in keys
  {
    found := [];
    var todo := keys;
    while todo != {}
      invariant todo <= keys && Descends(found)
      invariant forall n :: n in found <==> n in keys && n !in todo
      decreases |todo|
    {
      var n :| n in todo;
      var at := 0;
      while at < |found| && found[at] > n
        invariant 0 <= at <= |found| && forall j :: 0 <= j < at ==> found[j] > n
      {
        at := at + 1;
      }
      assert at < |found| ==> found[at] in found && found[at] != n;
      InsertDescending(found, at, n);
      found := found[..at] + [n] + found[at..];
      todo := todo - {n};
    }
  }

  lemma InsertDescending(s: seq<nat>, at: nat, n: nat)
    requires Descends(s) && at <= |s| && (forall j :: 0 <= j < at ==> s[j] > n) && (at < |s| ==> s[at] < n)
    ensures Descends(s[..at] + [n] + s[at..])
    ensures forall k :: k in s[..at] + [n] + s[at..] <==> k in s || k == n
  {
    var r := s[..at] + [n] + s[at..];
    assert s == s[..at] + s[at..];
    forall i, j | 0 <= i < j < |r| ensures r[i] > r[j] {
      assert r[i] == if i < at then s[i] else if i == at then n else s[i - 1];
      assert r[j] == if j < at then s[j] else if j == at then n else s[j - 1];
    }
  }

  lemma {:induction false} SameDescending(a: seq<nat>, b: seq<nat>)
    requires Descends(a) && Descends(b) && forall n :: n in a <==> n in b
    ensures a == b
    decreases |a|
  {
    assert b != [] ==> b[0] in a;
    if a != [] {
      assert a[0] in b;
      var j :| 0 <= j < |b| && b[j] == a[0];
      var i :| 0 <= i < |a| && a[i] == b[0];
      assert i == 0 && j == 0;
      forall n ensures n in a[1..] <==> n in b[1..] {
        assert n in a[1..] <==> n in a && n != a[0];
        assert n in b[1..] <==> n in b && n != b[0];
      }
      SameDescending(a[1..], b[1..]);
      assert a == [a[0]] + a[1..] && b == [b[0]] + b[1..];
    }
  }

  // ------------------------------------------------------------------------------------------
  // The engine
  // ------------------------------------------------------------------------------------------

  /** Rows as the scan returns them, seen as live table entries. */
  function AsTable(rows: seq<(string, string)>): (t: Table)
    ensures |t| == |rows|
    decreases |rows|
  {
    if rows == [] then [] else AsTable(rows[..|rows| - 1]) + [Entry(rows[|rows| - 1].0, Some(rows[|rows| - 1].1))]
  }

  class StorageEngine {
    const wal: WriteAheadLog
    const memtable: Memtable
    /** Newest first. */
    var sstables: seq<SSTableReader>
    var nextSstableSeq: nat
    /** The files in the directory beside the log, by sequence number. */
    var tables: map<nat, string>
    var temps: map<nat, string>
    /** The map this engine is indistinguishable from. */
    ghost var contents: Contents
    /** What has been logged since the log was last empty, and every durable effect so far. */
    ghost var records: seq<Record>
    ghost var effects: seq<Effect>

    ghost function View(): Engine
      reads this, memtable, sstables
    {
      Engine(records, memtable.entries, LevelsOf(sstables), nextSstableSeq)
    }

    ghost function Directory(): Disk
      reads this, wal
    {
      Disk(wal.file, tables, temps)
    }

    /** Everything the operations need; the log may still end in a torn record. */
    ghost predicate Valid()
      reads this, wal, memtable, sstables
    {
      && wal.Valid() && memtable.Valid() && AllValid(sstables)
      && StorageEngineModel.Valid(View()) && Shows(Layers(View()), contents)
    }

    /** The disk holds this very engine, and its log holds whole records only. */
    ghost predicate Durable()
      reads this, wal, memtable, sstables
    {
      Running(Directory(), View())
    }

    /** An engine object for a directory; nothing is read before Open. */
    constructor (onDisk: Disk)
      ensures Valid() && fresh(wal) && fresh(memtable)
      ensures View() == Engine([], [], [], 1) && Directory() == onDisk
      ensures sstables == [] && effects == [] && contents == map[]
    {
      wal := new WriteAheadLog(onDisk.wal);
      memtable := new Memtable();
      sstables, nextSstableSeq := [], 1;
      tables, temps := onDisk.tables, onDisk.temps;
      contents, records, effects := map[], [], [];
    }

    // ----------------------------------------------------------------------------------------
    // Reading
    // ----------------------------------------------------------------------------------------

    method Get(key: string) returns (result: Option<string>)
      requires Valid()
      ensures result == if key in contents then Some(contents[key]) else None
    {
      hide Find, FindIn, Tables, LevelsOf, Ascending, Sorted, AllValid;
      LayersFind(View(), key);
      assert FindIn(Layers(View()), key).Found? <==> key in contents;
      var answer := memtable.Lookup(key);
      if answer.NotFound? { answer := SearchTables(key); }
      return if answer.Found? then Some(answer.value) else None;
    }

    /** The tables from newest to oldest, up to the first that knows the key. */
    method SearchTables(key: string) returns (answer: LookupResult)
      requires AllValid(sstables)
      ensures answer == FindIn(Tables(LevelsOf(sstables)), key)
    {
      hide Find, FindIn, Tables, LevelsOf;
      ghost var levels := LevelsOf(sstables);
      LevelsCount(sstables);
      assert levels[0..] == levels;
      var i := 0;
      while i < |sstables|
        invariant 0 <= i <= |sstables| == |levels|
        invariant FindIn(Tables(levels), key) == FindIn(Tables(levels[i..]), key)
      {
        LevelsAt(sstables, i);
        NextLevel(levels, i, key);
        answer := sstables[i].Lookup(key);
        if !answer.NotFound? { return; }
        i := i + 1;
      }
      NoLevel(levels[i..], key);
      return NotFound;
    }

    method Scan(prefix: string) returns (rows: seq<(string, string)>)
      requires Valid()
      ensures IsScan(AsTable(rows), contents, prefix)
    {
      hide Shows, IsScan, Ascending, WithPrefix, Live, Sorted, MergeAll, MergeInto, LevelsOf, AllValid, Prefixed, Tables, AsTable;
      ghost var layers := Layers(View());
      var part := memtable.Scan(prefix);
      var merged := EmplaceAll([], part);
      PrefixedSplit(memtable.entries, Tables(LevelsOf(sstables)), prefix);
      merged := ScanTables(merged, prefix);
      rows := LiveRows(merged);
      LayersAscending(View());
      ScanExact(layers, contents, prefix);
    }

    method ScanTables(start: Table, prefix: string) returns (merged: Table)
      requires AllValid(sstables)
      ensures merged == MergeAll(start, Prefixed(Tables(LevelsOf(sstables)), prefix))
    {
      hide WithPrefix, MergeAll, MergeInto, LevelsOf, Prefixed, Tables;
      merged := start;
      ghost var levels := LevelsOf(sstables);
      LevelsCount(sstables);
      assert levels[0..] == levels;
      var i := 0;
      while i < |sstables|
        invariant 0 <= i <= |sstables| == |levels|
        invariant MergeAll(merged, Prefixed(Tables(levels[i..]), prefix)) == MergeAll(start, Prefixed(Tables(levels), prefix))
      {
        LevelsAt(sstables, i);
        NextPrefixed(merged, levels, i, prefix);
        var part := sstables[i].Scan(prefix);
        merged := EmplaceAll(merged, part);
        i := i + 1;
      }
      NoPrefixed(merged, levels[i..], prefix);
    }

    // ----------------------------------------------------------------------------------------
    // Writing
    // ----------------------------------------------------------------------------------------

    /** The writer's file becomes visible under its final name. */
    method PublishTable(writer: SSTableWriter, seqNo: nat) returns (reader: SSTableReader)
      requires writer.Valid() && Encodable(writer.added) && Ascending(writer.added)
      modifies `tables, `temps, `effects, writer`temp
      ensures fresh(reader) && reader.Valid() && reader.path == seqNo && reader.table == old(writer.added)
      ensures var file := FileOf(old(writer.added));
              && effects == old(effects) + [WriteTemp(seqNo, file), Publish(seqNo)]
              && Directory() == PerformAll(old(Directory()), [WriteTemp(seqNo, file), Publish(seqNo)])
    {
      hide FileOf, Encodable, Ascending, PerformAll;
      ghost var before := Directory();
      ghost var written := writer.added;
      var file := writer.Finish();
      temps := temps[seqNo := file];
      tables, temps := tables[seqNo := temps[seqNo]], temps - {seqNo};
      effects := effects + [WriteTemp(seqNo, file), Publish(seqNo)];
      TwoEffects(before, WriteTemp(seqNo, file), Publish(seqNo));
      reader := new SSTableReader(seqNo, tables[seqNo]);
      var ok := reader.Open(written);
    }

    /** The memtable's entries as a new SSTable in front of the others. */
    method DumpMemtable()
      requires memtable.Valid() && AllValid(sstables) && Encodable(memtable.entries)
      modifies `sstables, `nextSstableSeq, `tables, `temps, `effects
      ensures AllValid(sstables)
      ensures LevelsOf(sstables) == [Level(old(nextSstableSeq), memtable.entries)] + LevelsOf(old(sstables))
      ensures nextSstableSeq == old(nextSstableSeq) + 1
      ensures var head := [WriteTemp(old(nextSstableSeq), FileOf(memtable.entries)), Publish(old(nextSstableSeq))];
              effects == old(effects) + head && Directory() == PerformAll(old(Directory()), head)
    {
      hide FileOf, Encodable, Ascending, Data, IndexOf, PerformAll, LevelsOf;
      var seqNo := nextSstableSeq;
      nextSstableSeq := nextSstableSeq + 1;
      var writer := new SSTableWriter();
      WriteAll(writer, memtable.entries);
      var reader := PublishTable(writer, seqNo);
      LevelsFront(reader, sstables);
      sstables := [reader] + sstables;
    }

    method FlushMemtable()
      requires wal.Valid() && memtable.Valid() && AllValid(sstables) && StorageEngineModel.Valid(View())
      requires Encodable(memtable.entries)
      requires memtable.entries != [] && |sstables| + 1 >= COMPACTION_TRIGGER_COUNT ==> Encodable(Compacted(Flushed(View()).levels))
      modifies this, wal, memtable
      ensures wal.Valid() && memtable.Valid() && AllValid(sstables)
      ensures View() == if old(memtable.entries) == [] then old(View()) else MaybeCompacted(Flushed(old(View())))
      ensures var e := old(View()); var all := if e.memtable == [] then [] else FlushEffects(e) + CompactEffects(Flushed(e));
              effects == old(effects) + all && Directory() == PerformAll(old(Directory()), all)
      ensures contents == old(contents)
    {
      hide FileOf, Encodable, Compacted, Sorted, PerformAll, LevelsOf, CompactEffects, AllValid, MaybeCompacted;
      if |memtable.entries| == 0 { NoEffects(Directory(), effects); return; }
      ghost var d, e := Directory(), View();
      FlushParts(d, e, effects);
      FlushedValid(e);
      LevelsCount(sstables);
      DumpMemtable();
      LevelsCount(sstables);
      memtable.Clear();
      wal.Reset();
      records := [];
      effects := effects + [ResetWal];
      assert View() == Flushed(e);
      MaybeCompact();
    }

    method MaybeCompact()
      requires AllValid(sstables) && StorageEngineModel.Valid(View())
      requires |sstables| >= COMPACTION_TRIGGER_COUNT ==> Encodable(Compacted(LevelsOf(sstables)))
      modifies this
      ensures AllValid(sstables) && contents == old(contents)
      ensures View() == MaybeCompacted(old(View()))
      ensures var all := CompactEffects(old(View())); effects == old(effects) + all && Directory() == PerformAll(old(Directory()), all)
    {
      hide FileOf, Encodable, Sorted, PerformAll, LevelsOf, Compacted, Removals, AllValid;
      LevelsCount(sstables);
      if |sstables| < COMPACTION_TRIGGER_COUNT { NoEffects(Directory(), effects); return; }
      ghost var d, e := Directory(), View();
      CompactParts(d, e, effects);
      var stale := sstables;
      ReplaceTables();
      RemoveFiles(stale);
    }

    /** The merged table, without tombstones, as the only one. */
    method ReplaceTables()
      requires AllValid(sstables) && Sorted(LevelsOf(sstables)) && Encodable(Compacted(LevelsOf(sstables)))
      modifies `sstables, `nextSstableSeq, `tables, `temps, `effects
      ensures AllValid(sstables)
      ensures LevelsOf(sstables) == [Level(old(nextSstableSeq), Compacted(old(LevelsOf(sstables))))]
      ensures nextSstableSeq == old(nextSstableSeq) + 1
      ensures var head := [WriteTemp(old(nextSstableSeq), FileOf(Compacted(old(LevelsOf(sstables))))), Publish(old(nextSstableSeq))];
              effects == old(effects) + head && Directory() == PerformAll(old(Directory()), head)
    {
      hide FileOf, Encodable, Ascending, Sorted, Data, IndexOf, PerformAll, LevelsOf, MergeAll, Live, Tables;
      CompactedFind(LevelsOf(sstables), "");
      var merged := ReadTables();
      var seqNo := nextSstableSeq;
      nextSstableSeq := nextSstableSeq + 1;
      var writer := new SSTableWriter();
      WriteLive(writer, merged);
      var reader := PublishTable(writer, seqNo);
      LevelsFront(reader, []);
      LevelsNone();
      assert [reader] + [] == [reader];
      sstables := [reader];
    }

    /** All tables merged, the first value seen for a key winning. */
    method ReadTables() returns (merged: Table)
      requires AllValid(sstables)
      ensures merged == MergeAll([], Tables(LevelsOf(sstables)))
    {
      hide MergeAll, MergeInto, LevelsOf, Tables;
      merged := [];
      ghost var levels := LevelsOf(sstables);
      LevelsCount(sstables);
      assert levels[0..] == levels;
      var i := 0;
      while i < |sstables|
        invariant 0 <= i <= |sstables| == |levels|
        invariant MergeAll(merged, Tables(levels[i..])) == MergeAll([], Tables(levels))
      {
        LevelsAt(sstables, i);
        NextMerged(merged, levels, i);
        var part := sstables[i].ReadAll();
        merged := EmplaceAll(merged, part);
        i := i + 1;
      }
      NoTables(merged, levels[i..]);
    }

    method RemoveFiles(stale: seq<SSTableReader>)
      modifies `tables, `effects
      ensures effects == old(effects) + Removals(LevelsOf(stale))
      ensures Directory() == PerformAll(old(Directory()), Removals(LevelsOf(stale)))
    {
      hide LevelsOf, PerformAll, Removals;
      ghost var levels := LevelsOf(stale);
      LevelsCount(stale);
      assert levels[0..] == levels;
      var i := 0;
      while i < |stale|
        invariant 0 <= i <= |stale| == |levels|
        invariant effects + Removals(levels[i..]) == old(effects) + Removals(levels)
        invariant PerformAll(Directory(), Removals(levels[i..])) == PerformAll(old(Directory()), Removals(levels))
      {
        LevelsAt(stale, i);
        RemovalStep(Directory(), levels, i);
        ghost var rest := Removals(levels[i + 1..]);
        assert effects + ([RemoveTable(stale[i].path)] + rest) == effects + [RemoveTable(stale[i].path)] + rest;
        tables := tables - {stale[i].path};
        effects := effects + [RemoveTable(stale[i].path)];
        i := i + 1;
      }
      NoRemovals(Directory(), levels[i..]);
    }

    method Put(key: string, value: string)
      requires Valid() && Roomy(View(), PutRecord(key, value))
      modifies this, wal, memtable
      ensures Valid() && contents == old(contents)[key := value]
      ensures View() == Written(old(View()), PutRecord(key, value))
      ensures var all := WriteEffects(old(View()), PutRecord(key, value));
              effects == old(effects) + all && Directory() == PerformAll(old(Directory()), all)
      ensures old(Durable()) ==> Durable()
    {
      hide Shows, Encodable, Compacted, Sorted, Ascending, LevelsOf, PerformAll, Layers, EncodeRecord, FlushEffects, CompactEffects,
           MaybeCompacted, AllValid, Running;
      ghost var r := PutRecord(key, value);
      ghost var d, e := Directory(), View();
      wal.AppendPut(key, value);
      memtable.Put(key, value);
      LogEffect(d, e, r, contents);
      records, effects := records + [r], effects + [AppendWal(EncodeRecord(r))];
      contents := contents[key := value];
      LevelsCount(sstables);
      if |memtable.entries| >= MEMTABLE_FLUSH_THRESHOLD { FlushMemtable(); }
      WrittenParts(d, e, r, old(effects));
      if Running(d, e) { WrittenDisk(d, e, r); }
      WrittenShows(e, r, old(contents));
    }

    method Delete(key: string)
      requires Valid() && Roomy(View(), DeleteRecord(key))
      modifies this, wal, memtable
      ensures Valid() && contents == old(contents) - {key}
      ensures View() == Written(old(View()), DeleteRecord(key))
      ensures var all := WriteEffects(old(View()), DeleteRecord(key));
              effects == old(effects) + all && Directory() == PerformAll(old(Directory()), all)
      ensures old(Durable()) ==> Durable()
    {
      hide Shows, Encodable, Compacted, Sorted, Ascending, LevelsOf, PerformAll, Layers, EncodeRecord, FlushEffects, CompactEffects,
           MaybeCompacted, AllValid, Running;
      ghost var r := DeleteRecord(key);
      ghost var d, e := Directory(), View();
      wal.AppendDelete(key);
      memtable.Delete(key);
      LogEffect(d, e, r, contents);
      records, effects := records + [r], effects + [AppendWal(EncodeRecord(r))];
      contents := contents - {key};
      LevelsCount(sstables);
      if |memtable.entries| >= MEMTABLE_FLUSH_THRESHOLD { FlushMemtable(); }
      WrittenParts(d, e, r, old(effects));
      if Running(d, e) { WrittenDisk(d, e, r); }
      WrittenShows(e, r, old(contents));
    }

    // ----------------------------------------------------------------------------------------
    // Opening and resetting
    // ----------------------------------------------------------------------------------------

    /** One reader per table file, newest first. False stands for the exception of a bad file. `e` is
        any engine the disk may hold. */
    method OpenTables(ghost e: Engine) returns (ok: bool)
      requires sstables == [] && nextSstableSeq == 1
      modifies `sstables, `nextSstableSeq
      ensures StorageEngineModel.Valid(e) && Stores(tables, e.levels) ==>
                ok && AllValid(sstables) && LevelsOf(sstables) == e.levels && nextSstableSeq == e.next
      ensures (exists n :: n in tables && |tables[n]| < FOOTER_SIZE) ==> !ok
    {
      hide FileOf, Encodable, Ascending, LevelsOf, AllValid, Descends, Stores, SSTableReader.Valid;
      NoneValid();
      var found := SortedNewestFirst(tables.Keys);
      ghost var known := StorageEngineModel.Valid(e) && Stores(tables, e.levels);
      if known { FoundLevels(tables, e.levels, found); }
      DescendsFromFirst(found);
      LevelsNone();
      assert e.levels[..0] == [];
      var i := 0;
      while i < |found|
        invariant 0 <= i <= |found|
        invariant known ==> |found| == |e.levels| && AllValid(sstables) && LevelsOf(sstables) == e.levels[..i]
        invariant nextSstableSeq == if i == 0 then 1 else found[0] + 1
        invariant forall j :: 0 <= j < i ==> |tables[found[j]]| >= FOOTER_SIZE
      {
        assert found[i] in tables;
        var reader := new SSTableReader(found[i], tables[found[i]]);
        ghost var written: Table := if known then e.levels[i].table else [];
        if known { StoredFile(tables, e.levels, i); }
        ok := reader.Open(written);
        if !ok { return; }
        LevelsBack(sstables, reader);
        if known { OneMoreValid(sstables, reader); }
        sstables := sstables + [reader];
        if found[i] + 1 > nextSstableSeq { nextSstableSeq := found[i] + 1; }
        OneMoreLevel(e.levels, i);
        i := i + 1;
      }
      if known { assert e.levels[..i] == e.levels; }
      return true;
    }

    method ReplayWal()
      requires wal.Valid() && memtable.entries == []
      modifies wal`pos, memtable, `records
      ensures wal.Valid() && memtable.Valid()
      ensures records == ReplayFrom(wal.file, 0) && memtable.entries == ReplayTable([], records)
    {
      hide ReplayFrom, Ascending, Assign;
      var delivered := wal.Replay();
      NothingAscending();
      assert delivered[0..] == delivered;
      var i := 0;
      while i < |delivered|
        invariant 0 <= i <= |delivered| && wal.Valid() && memtable.Valid()
        invariant ReplayTable(memtable.entries, delivered[i..]) == ReplayTable([], delivered)
      {
        assert delivered[i..][1..] == delivered[i + 1..];
        if delivered[i].kind == PUT {
          memtable.Put(delivered[i].key, delivered[i].value);
        } else {
          memtable.Delete(delivered[i].key);
        }
        i := i + 1;
      }
      records := delivered;
    }

    /** Opening a disk that holds some engine brings that engine back. False stands for an exception. */
    method Open(ghost e: Engine) returns (ok: bool)
      requires Valid() && View() == Engine([], [], [], 1) && sstables == []
      modifies this, wal, memtable
      ensures Opens(old(Directory()), e) ==>
                ok && Valid() && View() == e && Opens(Directory(), e) && Directory() == old(Directory()).(temps := map[])
      ensures Running(old(Directory()), e) ==> Durable() && View() == e
      ensures (exists n :: n in old(tables) && |old(tables)[n]| < FOOTER_SIZE) ==> !ok
    {
      hide LevelsOf, AllValid, ReplayFrom, ReplayTable, Shows, Layers, Sorted, Ascending, Stores, Writable, Log;
      ghost var d := Directory();
      if Running(d, e) { RunningOpens(d, e); }
      temps := map[];
      ok := OpenTables(e);
      if !ok { return; }
      ReplayWal();
      contents := ContentsOf(Layers(View()));
      if Opens(d, e) {
        LayersAscending(e);
        ContentsShown(Layers(e));
      }
    }

    /** Wipes everything durable and starts over as an empty database. */
    method Reset()
      requires Valid()
      modifies this, wal, memtable
      ensures Valid() && contents == map[] && View() == Engine([], [], [], 1)
      ensures effects == old(effects) + (Removals(LevelsOf(old(sstables))) + [ResetWal])
      ensures Directory() == PerformAll(old(Directory()), Removals(old(View()).levels)).(wal := "")
      ensures Stores(old(tables), old(View()).levels) ==> Directory() == Disk("", map[], old(temps)) && Durable()
      ensures old(Durable()) ==> Durable()
    {
      hide Shows, Layers, Removals, PerformAll, LevelsOf, AllValid, Stores, Log, ReplayTable, Writable, Running, Ascending, Sorted;
      ghost var d, e := Directory(), View();
      memtable.Clear();
      var stale := sstables;
      sstables := [];
      RemoveFiles(stale);
      nextSstableSeq := 1;
      wal.Reset();
      effects := effects + [ResetWal];
      records := [];
      contents := map[];
      EmptyShows();
      NoneValid();
      EmptyValid();
      RemovalsLeave(d, e.levels);
      if Running(d, e) { RunningStores(d, e); }
      if Stores(d.tables, e.levels) {
        AllRemoved(d, e.levels);
        EmptyRuns(Directory());
      }
    }
  }

  lemma LevelsCount(readers: seq<SSTableReader>)
    ensures |LevelsOf(readers)| == |readers|
  {
  }

  lemma NextLevel(levels: seq<Level>, i: nat, key: string)
    requires i < |levels|
    ensures FindIn(Tables(levels[i..]), key) ==
            if Find(levels[i].table, key).NotFound? then FindIn(Tables(levels[i + 1..]), key) else Find(levels[i].table, key)
  {
    hide Find;
    assert levels[i..] == [levels[i]] + levels[i + 1..];
    FrontTable(levels[i], levels[i + 1..], key);
  }

  lemma NoLevel(levels: seq<Level>, key: string)
    requires levels == []
    ensures FindIn(Tables(levels), key) == NotFound
  {
  }

  lemma MergeStep(acc: Table, front: Table, layers: seq<Table>)
    ensures MergeAll(acc, [front] + layers) == MergeAll(MergeInto(acc, front), layers)
  {
    hide MergeInto;
    assert ([front] + layers)[1..] == layers;
  }

  lemma PrefixedStep(front: Table, layers: seq<Table>, prefix: string)
    ensures Prefixed([front] + layers, prefix) == [WithPrefix(front, prefix)] + Prefixed(layers, prefix)
  {
    hide WithPrefix;
    assert ([front] + layers)[1..] == layers;
  }

  lemma TablesStep(front: Level, levels: seq<Level>)
    ensures Tables([front] + levels) == [front.table] + Tables(levels)
  {
    assert ([front] + levels)[1..] == levels;
  }

  lemma PrefixedSplit(t: Table, layers: seq<Table>, prefix: string)
    ensures MergeAll([], Prefixed([t] + layers, prefix)) == MergeAll(MergeInto([], WithPrefix(t, prefix)), Prefixed(layers, prefix))
  {
    hide WithPrefix, MergeInto, MergeAll, Prefixed;
    PrefixedStep(t, layers, prefix);
    MergeStep([], WithPrefix(t, prefix), Prefixed(layers, prefix));
  }

  lemma NextPrefixed(merged: Table, levels: seq<Level>, i: nat, prefix: string)
    requires i < |levels|
    ensures MergeAll(merged, Prefixed(Tables(levels[i..]), prefix))
         == MergeAll(MergeInto(merged, WithPrefix(levels[i].table, prefix)), Prefixed(Tables(levels[i + 1..]), prefix))
  {
    hide WithPrefix, MergeInto, MergeAll, Prefixed, Tables;
    assert levels[i..] == [levels[i]] + levels[i + 1..];
    TablesStep(levels[i], levels[i + 1..]);
    PrefixedStep(levels[i].table, Tables(levels[i + 1..]), prefix);
    MergeStep(merged, WithPrefix(levels[i].table, prefix), Prefixed(Tables(levels[i + 1..]), prefix));
  }

  lemma NextMerged(merged: Table, levels: seq<Level>, i: nat)
    requires i < |levels|
    ensures MergeAll(merged, Tables(levels[i..])) == MergeAll(MergeInto(merged, levels[i].table), Tables(levels[i + 1..]))
  {
    hide MergeInto, MergeAll, Tables;
    assert levels[i..] == [levels[i]] + levels[i + 1..];
    TablesStep(levels[i], levels[i + 1..]);
    MergeStep(merged, levels[i].table, Tables(levels[i + 1..]));
  }

  lemma NoPrefixed(merged: Table, levels: seq<Level>, prefix: string)
    requires levels == []
    ensures MergeAll(merged, Prefixed(Tables(levels), prefix)) == merged
  {
  }

  lemma LayersAscending(e: Engine)
    requires StorageEngineModel.Valid(e)
    ensures AllAscending(Layers(e))
  {
    hide Ascending, Sorted, Tables;
    TablesAscending(e.levels);
  }

  /** std::map::emplace for every entry in turn. */
  method EmplaceAll(acc: Table, layer: Table) returns (merged: Table)
    ensures merged == MergeInto(acc, layer)
  {
    hide Emplace;
    merged := acc;
    var i := 0;
    assert layer[0..] == layer;
    while i < |layer|
      invariant 0 <= i <= |layer|
      invariant MergeInto(merged, layer[i..]) == MergeInto(acc, layer)
    {
      assert layer[i..][1..] == layer[i + 1..];
      merged := Emplace(merged, layer[i].key, layer[i].value);
      i := i + 1;
    }
  }

  lemma {:induction false} LiveConcat(a: Table, b: Table)
    ensures Live(a + b) == Live(a) + Live(b)
    decreases |a|
  {
    if a == [] {
      assert a + b == b && [] + Live(b) == Live(b);
    } else {
      LiveConcat(a[1..], b);
      assert (a + b)[1..] == a[1..] + b;
      var head := if a[0].value.Some? then [a[0]] else [];
      assert head + (Live(a[1..]) + Live(b)) == head + Live(a[1..]) + Live(b);
    }
  }

  lemma LiveOne(e: Entry)
    ensures Live([e]) == if e.value.Some? then [e] else []
  {
    assert [e][1..] == [];
  }

  method LiveRows(merged: Table) returns (rows: seq<(string, string)>)
    ensures AsTable(rows) == Live(merged)
  {
    hide Live;
    rows := [];
    var i := 0;
    LiveNone();
    while i < |merged|
      invariant 0 <= i <= |merged|
      invariant AsTable(rows) == Live(merged[..i])
    {
      assert merged[..i + 1] == merged[..i] + [merged[i]];
      LiveConcat(merged[..i], [merged[i]]);
      LiveOne(merged[i]);
      if merged[i].value.Some? {
        ghost var before := rows;
        rows := rows + [(merged[i].key, merged[i].value.value)];
        assert rows[..|rows| - 1] == before;
      }
      i := i + 1;
    }
    assert merged[..i] == merged;
  }

  lemma LiveNone()
    ensures Live([]) == []
  {
  }

  lemma NoEffects(d: Disk, effects: seq<StorageRecovery.Effect>)
    ensures PerformAll(d, []) == d && effects + [] == effects
  {
  }

  lemma LevelsFront(reader: SSTableReader, readers: seq<SSTableReader>)
    ensures LevelsOf([reader] + readers) == [Level(reader.path, reader.table)] + LevelsOf(readers)
  {
    assert ([reader] + readers)[1..] == readers;
  }

  lemma LevelsNone()
    ensures LevelsOf([]) == []
  {
  }

  lemma NoTables(merged: Table, levels: seq<Level>)
    requires levels == []
    ensures MergeAll(merged, Tables(levels)) == merged
  {
  }

  lemma RemovalStep(d: Disk, levels: seq<Level>, i: nat)
    requires i < |levels|
    ensures Removals(levels[i..]) == [RemoveTable(levels[i].seqNo)] + Removals(levels[i + 1..])
    ensures PerformAll(d, Removals(levels[i..])) == PerformAll(Perform(d, RemoveTable(levels[i].seqNo)), Removals(levels[i + 1..]))
  {
    assert levels[i..][1..] == levels[i + 1..];
  }

  lemma NoRemovals(d: Disk, levels: seq<Level>)
    requires levels == []
    ensures Removals(levels) == [] && PerformAll(d, Removals(levels)) == d
  {
  }

  lemma FlushParts(d: Disk, e: Engine, sofar: seq<StorageRecovery.Effect>)
    ensures var head := [WriteTemp(e.next, FileOf(e.memtable)), Publish(e.next)];
            var flush := FlushEffects(e); var compact := CompactEffects(Flushed(e));
            && PerformAll(d, flush) == PerformAll(d, head).(wal := "")
            && PerformAll(d, flush + compact) == PerformAll(PerformAll(d, flush), compact)
            && sofar + head + [ResetWal] + compact == sofar + (flush + compact)
  {
    hide FileOf, CompactEffects, PerformAll;
    var head := [WriteTemp(e.next, FileOf(e.memtable)), Publish(e.next)];
    assert head + [ResetWal] == FlushEffects(e);
    PerformConcat(d, head, [ResetWal]);
    CrashOne(PerformAll(d, head), ResetWal, d);
    PerformConcat(d, FlushEffects(e), CompactEffects(Flushed(e)));
  }

  lemma CompactParts(d: Disk, e: Engine, sofar: seq<StorageRecovery.Effect>)
    requires |e.levels| >= COMPACTION_TRIGGER_COUNT
    ensures PerformAll(d, CompactEffects(e)) == PerformAll(PerformAll(d, PublishMerged(e)), Removals(e.levels))
    ensures sofar + PublishMerged(e) + Removals(e.levels) == sofar + CompactEffects(e)
  {
    hide PerformAll, PublishMerged, Removals;
    PerformConcat(d, PublishMerged(e), Removals(e.levels));
  }

  /** What holds once the record is in the log and the memtable. */
  lemma LogEffect(d: Disk, e: Engine, r: Record, m: Contents)
    requires StorageEngineModel.Valid(e) && Shows(Layers(e), m)
    ensures StorageEngineModel.Valid(Logged(e, r)) && Shows(Layers(Logged(e, r)), AfterRecord(m, r))
    ensures PerformAll(d, [AppendWal(EncodeRecord(r))]) == d.(wal := d.wal + EncodeRecord(r))
  {
    hide Shows, Sorted, Ascending, EncodeRecord, PerformAll, Layers;
    LoggedShows(e, r, m);
    CrashOne(d, AppendWal(EncodeRecord(r)), d);
  }

  lemma WrittenParts(d: Disk, e: Engine, r: Record, sofar: seq<StorageRecovery.Effect>)
    ensures var e1 := Logged(e, r); var append := [AppendWal(EncodeRecord(r))];
            && (FlushDue(e1) ==>
                  var flush := FlushEffects(e1) + CompactEffects(Flushed(e1));
                  && PerformAll(d, WriteEffects(e, r)) == PerformAll(PerformAll(d, append), flush)
                  && sofar + WriteEffects(e, r) == sofar + append + flush)
            && (!FlushDue(e1) ==> WriteEffects(e, r) == append)
  {
    hide EncodeRecord, FlushEffects, CompactEffects, PerformAll;
    var e1 := Logged(e, r);
    var append := [AppendWal(EncodeRecord(r))];
    if FlushDue(e1) { PerformConcat(d, append, FlushEffects(e1) + CompactEffects(Flushed(e1))); }
  }

  method WriteAll(writer: SSTableWriter, entries: Table)
    requires writer.Valid() && writer.added == []
    modifies writer
    ensures writer.Valid() && writer.added == entries
  {
    hide Data, IndexOf;
    var i := 0;
    while i < |entries|
      invariant 0 <= i <= |entries| && writer.Valid() && writer.added == entries[..i]
    {
      writer.Add(entries[i].key, entries[i].value);
      i := i + 1;
    }
  }

  /** Tombstones are skipped. */
  method WriteLive(writer: SSTableWriter, merged: Table)
    requires writer.Valid() && writer.added == []
    modifies writer
    ensures writer.Valid() && writer.added == Live(merged)
  {
    hide Data, IndexOf, Live;
    var i := 0;
    LiveNone();
    while i < |merged|
      invariant 0 <= i <= |merged| && writer.Valid() && writer.added == Live(merged[..i])
    {
      assert merged[..i + 1] == merged[..i] + [merged[i]];
      LiveConcat(merged[..i], [merged[i]]);
      LiveOne(merged[i]);
      if merged[i].value.Some? { writer.Add(merged[i].key, merged[i].value); }
      i := i + 1;
    }
    assert merged[..i] == merged;
  }

  lemma LevelsBack(readers: seq<SSTableReader>, reader: SSTableReader)
    ensures LevelsOf(readers + [reader]) == LevelsOf(readers) + [Level(reader.path, reader.table)]
  {
    LevelsConcat(readers, [reader]);
    LevelsFront(reader, []);
    assert [reader] + [] == [reader];
  }

  lemma OneMoreLevel(levels: seq<Level>, i: nat)
    ensures i < |levels| ==> levels[..i + 1] == levels[..i] + [levels[i]]
  {
  }

  lemma StoredFile(files: map<nat, string>, levels: seq<Level>, i: nat)
    requires Sorted(levels) && Stores(files, levels) && i < |levels|
    ensures levels[i].seqNo in files && files[levels[i].seqNo] == FileOf(levels[i].table)
    ensures Encodable(levels[i].table) && Ascending(levels[i].table)
  {
  }

  lemma DescendsFromFirst(s: seq<nat>)
    requires Descends(s)
    ensures forall j :: 0 <= j < |s| ==> s[j] <= s[0]
  {
  }

  lemma NoneValid()
    ensures AllValid([])
  {
  }

  lemma OneMoreValid(readers: seq<SSTableReader>, reader: SSTableReader)
    requires AllValid(readers) && reader.Valid()
    ensures AllValid(readers + [reader])
  {
  }

  lemma EmptyValid()
    ensures StorageEngineModel.Valid(Engine([], [], [], 1))
  {
  }

  /** The empty engine runs on an empty directory. */
  lemma EmptyRuns(d: Disk)
    requires d.tables == map[] && d.wal == ""
    ensures Running(d, Engine([], [], [], 1))
  {
    hide StorageEngineModel.Valid, Writable, FileOf, Encodable;
    EmptyValid();
  }

  lemma RunningStores(d: Disk, e: Engine)
    requires Running(d, e)
    ensures Stores(d.tables, e.levels)
  {
    hide Stores, Log, ReplayTable, Writable, StorageEngineModel.Valid;
  }

  lemma NothingAscending()
    ensures Ascending([])
  {
  }

  lemma EmptyShows()
    ensures LevelsOf([]) == [] && Shows(Layers(Engine([], [], [], 1)), map[])
  {
    forall q ensures FindIn([[]] + [], q) == NotFound {
      Absent([], q);
    }
  }

  function SeqNos(levels: seq<Level>): (s: seq<nat>)
    ensures |s| == |levels| && forall i :: 0 <= i < |s| ==> s[i] == levels[i].seqNo
    decreases |levels|
  {
    if levels == [] then [] else [levels[0].seqNo] + SeqNos(levels[1..])
  }

  /** The sorted directory listing names the levels in order. */
  lemma FoundLevels(files: map<nat, string>, levels: seq<Level>, found: seq<nat>)
    requires Sorted(levels) && Stores(files, levels) && Descends(found) && forall n :: n in found <==> n in files
    ensures |found| == |levels| && forall i :: 0 <= i < |found| ==> found[i] == levels[i].seqNo
  {
    hide FileOf, Encodable, Ascending;
    var s := SeqNos(levels);
    assert Descends(s);
    forall n ensures n in found <==> n in s {
      if n in files {
        var i :| 0 <= i < |levels| && levels[i].seqNo == n;
        assert s[i] == n;
      }
      if n in s {
        var i :| 0 <= i < |s| && s[i] == n;
        assert levels[i].seqNo in files;
      }
    }
    SameDescending(found, s);
  }

  lemma {:induction false} TablesAfterRemovals(d: Disk, levels: seq<Level>, n: nat)
    ensures n in PerformAll(d, Removals(levels)).tables <==> n in d.tables && forall i {:trigger levels[i]} :: 0 <= i < |levels| ==> levels[i].seqNo != n
    decreases |levels|
  {
    if levels != [] {
      TablesAfterRemovals(Perform(d, RemoveTable(levels[0].seqNo)), levels[1..], n);
      assert forall i {:trigger levels[i]} :: 0 < i < |levels| ==> levels[i] == levels[1..][i - 1];
    }
  }

  lemma {:induction false} RemovalsLeave(d: Disk, levels: seq<Level>)
    ensures var d' := PerformAll(d, Removals(levels)); d'.wal == d.wal && d'.temps == d.temps
    decreases |levels|
  {
    if levels != [] { RemovalsLeave(Perform(d, RemoveTable(levels[0].seqNo)), levels[1..]); }
  }

  /** Removing every table a directory stores empties it. */
  lemma AllRemoved(d: Disk, levels: seq<Level>)
    requires Stores(d.tables, levels)
    ensures PerformAll(d, Removals(levels)) == d.(tables := map[])
  {
    hide PerformAll, Removals, FileOf, Encodable;
    RemovalsLeave(d, levels);
    forall n ensures n !in PerformAll(d, Removals(levels)).tables {
      TablesAfterRemovals(d, levels, n);
      if n in d.tables { var i :| 0 <= i < |levels| && levels[i].seqNo == n; }
    }
  }
}
