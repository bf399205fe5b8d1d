/** Runs of writes: the engine, its disk and the plain map after each of them. */
module StorageRuns {
  import opened StorageWal
  import opened StorageEngineModel
  import opened StorageRecovery
  import StorageEngines

  function EngineAfter(e: Engine, records: seq<Record>): Engine
    decreases |records|
  {
    if records == [] then e else EngineAfter(Written(e, records[0]), records[1..])
  }

  function DiskAfter(d: Disk, e: Engine, records: seq<Record>): Disk
    decreases |records|
  {
    if records == [] then d else DiskAfter(PerformAll(d, WriteEffects(e, records[0])), Written(e, records[0]), records[1..])
  }

  function ContentsAfter(m: Contents, records: seq<Record>): Contents
    decreases |records|
  {
    if records == [] then m else ContentsAfter(AfterRecord(m, records[0]), records[1..])
  }

  /** Every write of the run keeps to the limits of the formats. */
  ghost predicate AllRoomy(e: Engine, records: seq<Record>)
    decreases |records|
  {
    records != [] ==> Roomy(e, records[0]) && AllRoomy(Written(e, records[0]), records[1..])
  }

  lemma {:induction false} RunRuns(d: Disk, e: Engine, m: Contents, records: seq<Record>)
    requires Running(d, e) && Shows(Layers(e), m) && AllRoomy(e, records)
    ensures Running(DiskAfter(d, e, records), EngineAfter(e, records))
    ensures Shows(Layers(EngineAfter(e, records)), ContentsAfter(m, records))
    decreases |records|
  {
    hide Running, Shows, Layers, Roomy, Written, WriteEffects, PerformAll, AfterRecord;
    if records != [] {
      WrittenDisk(d, e, records[0]);
      RunningParts(d, e);
      WrittenShows(e, records[0], m);
      RunRuns(PerformAll(d, WriteEffects(e, records[0])), Written(e, records[0]), AfterRecord(m, records[0]), records[1..]);
    }
  }

  lemma {:induction false} RunConcat(e: Engine, a: seq<Record>, b: seq<Record>)
    ensures EngineAfter(e, a + b) == EngineAfter(EngineAfter(e, a), b)
    ensures AllRoomy(e, a + b) <==> AllRoomy(e, a) && AllRoomy(EngineAfter(e, a), b)
    decreases |a|
  {
    hide Roomy, Written;
    if a == [] {
      assert a + b == b;
    } else {
      RunConcat(Written(e, a[0]), a[1..], b);
      assert (a + b)[1..] == a[1..] + b;
    }
  }

  lemma {:induction false} ContentsConcat(m: Contents, a: seq<Record>, b: seq<Record>)
    ensures ContentsAfter(m, a + b) == ContentsAfter(ContentsAfter(m, a), b)
    decreases |a|
  {
    hide AfterRecord;
    if a == [] {
      assert a + b == b;
    } else {
      ContentsConcat(AfterRecord(m, a[0]), a[1..], b);
      assert (a + b)[1..] == a[1..] + b;
    }
  }

  lemma EmptyRun(e: Engine)
    ensures AllRoomy(e, []) && EngineAfter(e, []) == e
  {
  }

  // ------------------------------------------------------------------------------------------
  // From the empty directory
  // ------------------------------------------------------------------------------------------

  const EMPTY: Engine := Engine([], [], [], 1)
  const NOTHING: Disk := Disk("", map[], map[])

  lemma FromNothing(records: seq<Record>)
    requires AllRoomy(EMPTY, records)
    ensures Running(DiskAfter(NOTHING, EMPTY, records), EngineAfter(EMPTY, records))
    ensures Shows(Layers(EngineAfter(EMPTY, records)), ContentsAfter(map[], records))
  {
    hide Running, Shows, Layers, AllRoomy, DiskAfter, EngineAfter, ContentsAfter;
    StorageEngines.EmptyRuns(NOTHING);
    StorageEngines.EmptyShows();
    RunRuns(NOTHING, EMPTY, map[], records);
  }

  /** After a run of writes the disk opens as what they say, and as nothing else. */
  lemma RunDurable(records: seq<Record>, m: Contents)
    requires AllRoomy(EMPTY, records)
    ensures Recovers(DiskAfter(NOTHING, EMPTY, records), m) <==> m == ContentsAfter(map[], records)
  {
    hide Running, Shows, Layers, AllRoomy, DiskAfter, EngineAfter, ContentsAfter, Recovers;
    FromNothing(records);
    RunningRecovers(DiskAfter(NOTHING, EMPTY, records), EngineAfter(EMPTY, records), ContentsAfter(map[], records));
    if Recovers(DiskAfter(NOTHING, EMPTY, records), m) {
      RecoversOneMap(DiskAfter(NOTHING, EMPTY, records), m, ContentsAfter(map[], records));
    }
  }

  /** A crash in the i-th write of a run leaves what the first i, or i + 1, writes say. */
  lemma RunCrashSafe(records: seq<Record>, i: nat, d': Disk)
    requires AllRoomy(EMPTY, records) && i < |records|
    requires CrashBeforeRemovals(DiskAfter(NOTHING, EMPTY, records[..i]), EngineAfter(EMPTY, records[..i]), records[i], d')
    ensures Recovers(d', ContentsAfter(map[], records[..i])) || Recovers(d', ContentsAfter(map[], records[..i + 1]))
  {
    hide Running, Shows, Layers, DiskAfter, EngineAfter, Recovers, CrashBeforeRemovals, Roomy, AfterRecord, Written;
    assert records == records[..i] + records[i..] && records[..i + 1] == records[..i] + [records[i]];
    RunConcat(EMPTY, records[..i], records[i..]);
    FromNothing(records[..i]);
    ContentsConcat(map[], records[..i], [records[i]]);
    OneWrite(ContentsAfter(map[], records[..i]), records[i]);
    WriteCrashSafe(DiskAfter(NOTHING, EMPTY, records[..i]), EngineAfter(EMPTY, records[..i]), records[i],
      ContentsAfter(map[], records[..i]), d');
  }

  lemma OneWrite(m: Contents, r: Record)
    ensures ContentsAfter(m, [r]) == AfterRecord(m, r)
  {
    hide AfterRecord;
    assert [r][1..] == [];
  }
}
