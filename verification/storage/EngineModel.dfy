/**
 What the storage engine does to its layers, and why nobody can tell it from a plain map: flushes
 and tombstone-dropping compactions change no answer.
 */
module StorageEngineModel {
  import opened Options
  import opened Strings
  import opened StorageTables
  import opened StorageWal
  import opened StorageSSTable

  const MEMTABLE_FLUSH_THRESHOLD: nat := 4
  const COMPACTION_TRIGGER_COUNT: nat := 4

  /** An SSTable on disk, under its sequence number. */
  datatype Level = Level(seqNo: nat, table: Table)

  /** `records` are those in the log; `levels` are newest first. */
  datatype Engine = Engine(records: seq<Record>, memtable: Table, levels: seq<Level>, next: nat)

  // ------------------------------------------------------------------------------------------
  // Operations
  // ------------------------------------------------------------------------------------------

  function ApplyRecord(t: Table, r: Record): Table {
    Assign(t, r.key, if r.kind == PUT then Some(r.value) else None)
  }

  function ReplayTable(t: Table, records: seq<Record>): Table
    decreases |records|
  {
    if records == [] then t else ReplayTable(ApplyRecord(t, records[0]), records[1..])
  }

  function Tables(levels: seq<Level>): (tables: seq<Table>)
    ensures |tables| == |levels|
    decreases |levels|
  {
    if levels == [] then [] else [levels[0].table] + Tables(levels[1..])
  }

  function Layers(e: Engine): seq<Table> { [e.memtable] + Tables(e.levels) }

  function Logged(e: Engine, r: Record): Engine {
    e.(records := e.records + [r], memtable := ApplyRecord(e.memtable, r))
  }

  function Flushed(e: Engine): Engine {
    if e.memtable == [] then e
    else Engine([], [], [Level(e.next, e.memtable)] + e.levels, e.next + 1)
  }

  function Compacted(levels: seq<Level>): Table { Live(MergeAll([], Tables(levels))) }

  function MaybeCompacted(e: Engine): Engine {
    if |e.levels| < COMPACTION_TRIGGER_COUNT then e
    else e.(levels := [Level(e.next, Compacted(e.levels))], next := e.next + 1)
  }

  predicate FlushDue(e: Engine) { |e.memtable| >= MEMTABLE_FLUSH_THRESHOLD }

  /** A put or a delete, with the flush and the compaction it may set off. */
  function Written(e: Engine, r: Record): Engine {
    var e1 := Logged(e, r);
    if FlushDue(e1) then MaybeCompacted(Flushed(e1)) else e1
  }

  function PutRecord(key: string, value: string): Record { Record(PUT, key, value) }

  function DeleteRecord(key: string): Record { Record(DELETE, key, "") }

  // ------------------------------------------------------------------------------------------
  // The plain map
  // ------------------------------------------------------------------------------------------

  type Contents = map<string, string>

  /** The layers answer like the map. */
  ghost predicate Shows(layers: seq<Table>, m: Contents) {
    && (forall q :: q in m ==> FindIn(layers, q) == Found(m[q]))
    && (forall q :: q !in m ==> !FindIn(layers, q).Found?)
  }

  ghost predicate Sorted(levels: seq<Level>) {
    && (forall i {:trigger levels[i]} | 0 <= i < |levels| :: Ascending(levels[i].table))
    && (forall i, j {:trigger levels[i], levels[j]} | 0 <= i < j < |levels| :: levels[i].seqNo > levels[j].seqNo)
  }

  ghost predicate Valid(e: Engine) {
    && Ascending(e.memtable) && Sorted(e.levels)
    && e.next == if e.levels == [] then 1 else e.levels[0].seqNo + 1
  }

  function AfterRecord(m: Contents, r: Record): Contents {
    if r.kind == PUT then m[r.key := r.value] else m - {r.key}
  }

  lemma {:induction false} TablesAt(levels: seq<Level>, i: nat)
    requires i < |levels|
    ensures Tables(levels)[i] == levels[i].table
    decreases |levels|
  {
    if i > 0 { TablesAt(levels[1..], i - 1); }
  }

  lemma TablesAscending(levels: seq<Level>)
    requires Sorted(levels)
    ensures AllAscending(Tables(levels))
  {
    forall i | 0 <= i < |levels| ensures Ascending(Tables(levels)[i]) { TablesAt(levels, i); }
  }

  lemma LayersFind(e: Engine, q: string)
    ensures FindIn(Layers(e), q) == if Find(e.memtable, q).NotFound? then FindIn(Tables(e.levels), q) else Find(e.memtable, q)
  {
    hide Find, Tables;
    assert Layers(e)[1..] == Tables(e.levels);
  }

  /** Logging a record changes the answer for its key and for no other. */
  lemma LoggedShows(e: Engine, r: Record, m: Contents)
    requires Valid(e) && Shows(Layers(e), m)
    ensures Valid(Logged(e, r)) && Shows(Layers(Logged(e, r)), AfterRecord(m, r))
  {
    hide Assign, Find, FindIn, Layers, Ascending, Sorted;
    var value := if r.kind == PUT then Some(r.value) else None;
    AssignAscending(e.memtable, r.key, value);
    forall q ensures FindIn(Layers(Logged(e, r)), q) == if q == r.key then Answer(value) else FindIn(Layers(e), q) {
      AssignFind(e.memtable, r.key, value, q);
      LayersFind(e, q);
      LayersFind(Logged(e, r), q);
    }
  }

  lemma FlushedValid(e: Engine)
    requires Valid(e)
    ensures Valid(Flushed(e))
  {
  }

  /** A flush moves entries between layers and changes no answer. */
  lemma FlushedShows(e: Engine, m: Contents)
    requires Valid(e) && Shows(Layers(e), m)
    ensures Valid(Flushed(e)) && Shows(Layers(Flushed(e)), m)
  {
    hide Find, FindIn, Layers, Valid;
    FlushedValid(e);
    forall q ensures FindIn(Layers(Flushed(e)), q) == FindIn(Layers(e), q) { FlushedFind(e, q); }
  }

  lemma FlushedFind(e: Engine, q: string)
    ensures FindIn(Layers(Flushed(e)), q) == FindIn(Layers(e), q)
  {
    hide Find;
    if e.memtable != [] {
      var f := Flushed(e);
      Absent([], q);
      LayersFind(f, q);
      assert f.levels[1..] == e.levels;
      assert Tables(f.levels) == [e.memtable] + Tables(e.levels);
    }
  }

  lemma CompactedFind(levels: seq<Level>, q: string)
    requires Sorted(levels)
    ensures Ascending(Compacted(levels))
    ensures Find(Compacted(levels), q) == if FindIn(Tables(levels), q).Found? then FindIn(Tables(levels), q) else NotFound
  {
    hide Find, FindIn, Ascending, MergeAll, Live, AllAscending, Sorted;
    TablesAscending(levels);
    MergedFind(Tables(levels), q);
    LiveFind(MergeAll([], Tables(levels)), q);
  }

  lemma OneTable(l: Level, q: string)
    ensures FindIn(Tables([l]), q) == Find(l.table, q)
  {
    hide Find;
    assert Tables([l]) == [l.table];
    assert [l.table][1..] == [];
  }

  /** Compaction may forget tombstones because it merges every table there is. */
  lemma CompactedShows(e: Engine, m: Contents)
    requires Valid(e) && Shows(Layers(e), m)
    ensures Valid(MaybeCompacted(e)) && Shows(Layers(MaybeCompacted(e)), m)
  {
    hide Find, FindIn, Layers, Ascending, Compacted;
    CompactedFind(e.levels, "");
    var l := Level(e.next, Compacted(e.levels));
    forall q ensures FindIn(Layers(MaybeCompacted(e)), q).Found? == FindIn(Layers(e), q).Found?
             ensures FindIn(Layers(e), q).Found? ==> FindIn(Layers(MaybeCompacted(e)), q) == FindIn(Layers(e), q)
    {
      CompactedFind(e.levels, q);
      OneTable(l, q);
      LayersFind(e, q);
      LayersFind(MaybeCompacted(e), q);
    }
  }

  /** Every write, with whatever flush and compaction follows, does to the map what the record says. */
  lemma WrittenShows(e: Engine, r: Record, m: Contents)
    requires Valid(e) && Shows(Layers(e), m)
    ensures Valid(Written(e, r)) && Shows(Layers(Written(e, r)), AfterRecord(m, r))
  {
    hide Valid, Shows, Layers, Logged, Flushed, MaybeCompacted, AfterRecord, FlushDue;
    var e1 := Logged(e, r);
    LoggedShows(e, r, m);
    FlushedShows(e1, AfterRecord(m, r));
    CompactedShows(Flushed(e1), AfterRecord(m, r));
  }

  // ------------------------------------------------------------------------------------------
  // Scans
  // ------------------------------------------------------------------------------------------

  function Prefixed(layers: seq<Table>, prefix: string): (part: seq<Table>)
    ensures |part| == |layers|
    decreases |layers|
  {
    if layers == [] then [] else [WithPrefix(layers[0], prefix)] + Prefixed(layers[1..], prefix)
  }

  lemma {:induction false} PrefixedFind(layers: seq<Table>, prefix: string, q: string)
    requires AllAscending(layers)
    ensures AllAscending(Prefixed(layers, prefix))
    ensures FindIn(Prefixed(layers, prefix), q) == if StartsWith(q, prefix) then FindIn(layers, q) else NotFound
    decreases |layers|
  {
    hide Find, WithPrefix, Ascending, StartsWith;
    if layers != [] {
      WithPrefixFind(layers[0], prefix, q);
      PrefixedFind(layers[1..], prefix, q);
    }
  }

  /** The rows a scan returns. */
  function ScanOf(layers: seq<Table>, prefix: string): Table { Live(MergeAll([], Prefixed(layers, prefix))) }

  /** Exactly the live keys with the prefix, in ascending order, with their values. */
  ghost predicate IsScan(rows: Table, m: Contents, prefix: string) {
    && Ascending(rows)
    && forall e :: e in rows <==> e.key in m && StartsWith(e.key, prefix) && e.value == Some(m[e.key])
  }

  lemma ScanFind(layers: seq<Table>, prefix: string, q: string)
    requires AllAscending(layers)
    ensures Ascending(ScanOf(layers, prefix))
    ensures Find(ScanOf(layers, prefix), q) == if StartsWith(q, prefix) && FindIn(layers, q).Found? then FindIn(layers, q) else NotFound
  {
    hide Find, FindIn, Ascending, MergeAll, Live, AllAscending, StartsWith, Prefixed;
    PrefixedFind(layers, prefix, q);
    MergedFind(Prefixed(layers, prefix), q);
    LiveFind(MergeAll([], Prefixed(layers, prefix)), q);
  }

  lemma ScanExact(layers: seq<Table>, m: Contents, prefix: string)
    requires AllAscending(layers) && Shows(layers, m)
    ensures IsScan(ScanOf(layers, prefix), m, prefix)
  {
    hide Find, FindIn, Ascending, AllAscending, StartsWith, ScanOf;
    var rows := ScanOf(layers, prefix);
    ScanFind(layers, prefix, "");
    forall e ensures e in rows <==> e.key in m && StartsWith(e.key, prefix) && e.value == Some(m[e.key]) {
      ScanFind(layers, prefix, e.key);
      if e in rows { FindMember(rows, e); }
      if e.key in m && StartsWith(e.key, prefix) && e.value == Some(m[e.key]) {
        var i := Present(rows, e.key);
        assert rows[i] == e;
      }
    }
  }

  /** There is only one such list of rows. */
  lemma ScanUnique(a: Table, b: Table, m: Contents, prefix: string)
    requires IsScan(a, m, prefix) && IsScan(b, m, prefix)
    ensures a == b
  {
    hide Find, StartsWith, Ascending;
    forall q ensures Find(a, q) == Find(b, q) {
      if !Find(a, q).NotFound? {
        var i := Present(a, q);
        FindMember(b, a[i]);
      } else if !Find(b, q).NotFound? {
        var i := Present(b, q);
        FindMember(a, b[i]);
        assert false;
      }
    }
    TableDetermined(a, b);
  }
}
