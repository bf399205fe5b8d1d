/**
 Routed and scattered execution over shards that split the rows of one database among them, against
 the same statements on the undivided database.
 */
module ShardExecution {
  import opened Options
  import opened Strings
  import opened SortedStrings
  import opened SqlAst
  import opened SqlKeys
  import opened SqlExecution
  import opened SqlLazyAlter
  import opened ShardRouting
  import opened ShardStatements

  // ------------------------------------------------------------------------------------------
  // The dispatch
  // ------------------------------------------------------------------------------------------

  /** One answer; the answers of a broadcast, in shard order; or the exception of an uncovered key. */
  datatype Reply = One(result: Result) | Each(results: seq<Result>) | NoShard

  ghost function ExecuteAll(shards: seq<Store>, stmt: Statement): (r: (seq<Store>, seq<Result>))
    ensures |r.0| == |r.1| == |shards|
    ensures forall i :: 0 <= i < |shards| ==> (r.0[i], r.1[i]) == Execute(shards[i], stmt)
    decreases |shards|
  {
    if shards == [] then ([], [])
    else
      var (store, result) := Execute(shards[0], stmt);
      var rest := ExecuteAll(shards[1..], stmt);
      ([store] + rest.0, [result] + rest.1)
  }

  function RowsOf(results: seq<Result>): seq<Row>
    decreases |results|
  {
    if results == [] then []
    else (if results[0].Ok? && results[0].output.Listing? then results[0].output.rows else []) + RowsOf(results[1..])
  }

  function FirstFailure(results: seq<Result>): Option<Result>
    decreases |results|
  {
    if results == [] then None else if results[0].Failed? then Some(results[0]) else FirstFailure(results[1..])
  }

  /** The merged answer of a scattered SELECT: one header, all data rows in shard order; any failed
      shard fails the whole. */
  function MergeSelectResults(results: seq<Result>): Result
    requires results != []
  {
    var failed := FirstFailure(results);
    if failed.Some? then failed.value
    else
      var last := results[|results| - 1];
      Ok(Listing(if last.Ok? && last.output.Listing? then last.output.headers else [], RowsOf(results)))
  }

  /** What a node of shard `home` does with a statement, every shard being reachable. */
  ghost function Dispatch(shards: seq<Store>, routing: Ranges, home: nat, stmt: Statement): (seq<Store>, Reply)
    requires home < |shards| == |routing|
  {
    if stmt.CreateDatabase? || stmt.CreateTable? || stmt.AddColumn? then
      (ExecuteAll(shards, stmt).0, Each(ExecuteAll(shards, stmt).1))
    else if stmt.ShowTables? || stmt.ShowDatabases? then
      (shards, One(Execute(shards[home], stmt).1))
    else
      match TryExtractRowKey(shards[home], stmt)
      case None =>
        var (after, results) := ExecuteAll(shards, stmt);
        (after, if stmt.Select? then One(MergeSelectResults(results)) else Each(results))
      case Some(key) =>
        match Owner(routing, key)
        case None => (shards, NoShard)
        case Some(i) => (shards[i := Execute(shards[i], stmt).0], One(Execute(shards[i], stmt).1))
  }

  // ------------------------------------------------------------------------------------------
  // The correspondence
  // ------------------------------------------------------------------------------------------

  /** Shard i holds every definition, and exactly the rows it owns. */
  ghost predicate Part(single: Store, store: Store, routing: Ranges, i: nat) {
    && (forall k {:trigger k in store} {:trigger k in single} ::
          k in store <==> k in single && (IsRowKey(k) ==> Owner(routing, k) == Some(i)))
    && (forall k {:trigger store[k]} | k in store && k in single :: store[k] == single[k])
  }

  ghost predicate Spread(single: Store, shards: seq<Store>, routing: Ranges) {
    |shards| == |routing| && forall i {:trigger shards[i]} | 0 <= i < |shards| :: Part(single, shards[i], routing, i)
  }

  function TotalChanged(results: seq<Result>): nat
    decreases |results|
  {
    if results == [] then 0
    else (if results[0].Ok? && results[0].output.Changed? then results[0].output.count else 0) + TotalChanged(results[1..])
  }

  /** Single answers are equal; row counts of a broadcast add up; otherwise every shard answers alike. */
  ghost predicate Agrees(reply: Reply, result: Result) {
    match reply
    case One(r) => r == result
    case Each(rs) =>
      if result.Ok? && result.output.Changed?
      then (forall i {:trigger rs[i]} | 0 <= i < |rs| :: rs[i].Ok? && rs[i].output.Changed?) && TotalChanged(rs) == result.output.count
      else forall i {:trigger rs[i]} | 0 <= i < |rs| :: rs[i] == result
    case NoShard => false
  }

  lemma SchemasShared(single: Store, store: Store, routing: Ranges, i: nat, db: string, table: string)
    requires Part(single, store, routing, i)
    ensures LoadSchema(store, db, table) == LoadSchema(single, db, table)
    ensures DatabaseKey(db) in store <==> DatabaseKey(db) in single
    ensures SchemaKey(db, table) in store <==> SchemaKey(db, table) in single
  {
    KindsApart("", db, table, db);
  }

  lemma PartInvariants(single: Store, store: Store, routing: Ranges, i: nat)
    requires Part(single, store, routing, i) && Sound(single) && Typed(single)
    ensures Sound(store) && Typed(store)
  {
    hide RowFits, PkMatches, Shaped, SchemaOk, LoadSchema, IsRowKey, SchemaTyped, RowTyped, PkFound;
    forall k ensures KeySchema(store, k) == KeySchema(single, k) { SchemasShared(single, store, routing, i, KeyDb(k), KeyTable(k)); }
    forall k | k in store && IsRowKey(k) ensures RowSound(store, k) { assert RowSound(single, k); }
  }

  // ------------------------------------------------------------------------------------------
  // Scans in shard order
  // ------------------------------------------------------------------------------------------

  ghost function FlatScan(shards: seq<Store>, db: string, table: string, n: nat): Entries
    requires n <= |shards|
  {
    if n == 0 then [] else FlatScan(shards, db, table, n - 1) + ScanRows(shards[n - 1], db, table)
  }

  /** The table's keys owned by the first n shards. */
  ghost function OwnedUpto(single: Store, routing: Ranges, prefix: string, n: nat): set<string> {
    set k | k in KeysUnder(single, prefix) && Owner(routing, k).Some? && Owner(routing, k).value < n
  }

  lemma {:induction false} EntriesConcat(store: Store, a: seq<string>, b: seq<string>)
    ensures EntriesAt(store, a + b) == EntriesAt(store, a) + EntriesAt(store, b)
  {
  }

  lemma SameEntries(a: Store, b: Store, keys: seq<string>)
    requires forall k :: k in keys ==> RowAt(a, k) == RowAt(b, k)
    ensures EntriesAt(a, keys) == EntriesAt(b, keys)
  {
    forall i | 0 <= i < |keys| ensures EntriesAt(a, keys)[i] == EntriesAt(b, keys)[i] {
      assert keys[i] in keys;
    }
  }

  lemma OwnedStep(single: Store, shards: seq<Store>, routing: Ranges, db: string, table: string, n: nat)
    requires Spread(single, shards, routing) && NameOk(db) && NameOk(table) && n < |shards|
    ensures var prefix := RowPrefix(db, table);
            OwnedUpto(single, routing, prefix, n + 1) == OwnedUpto(single, routing, prefix, n) + KeysUnder(shards[n], prefix)
  {
    hide StartsWith, Owner, Shaped;
    var prefix := RowPrefix(db, table);
    assert Part(single, shards[n], routing, n);
    forall k ensures k in OwnedUpto(single, routing, prefix, n + 1) <==> k in OwnedUpto(single, routing, prefix, n) + KeysUnder(shards[n], prefix) {
      PrefixSelects(db, table, k);
    }
  }

  lemma {:induction false} FlatScanIs(single: Store, shards: seq<Store>, routing: Ranges, db: string, table: string, n: nat)
    requires Spread(single, shards, routing) && Partitions(routing) && NameOk(db) && NameOk(table) && n <= |shards|
    ensures FlatScan(shards, db, table, n) == EntriesAt(single, Sorted(OwnedUpto(single, routing, RowPrefix(db, table), n)))
    decreases n
  {
    hide Partitions, Sorted, Spread, EntriesAt, OwnedUpto, KeysUnder, ScanRows, RowPrefix, NameOk;
    var prefix := RowPrefix(db, table);
    if n == 0 {
      SortedEmpty(single);
      OwnedNone(single, routing, prefix);
    } else {
      FlatScanIs(single, shards, routing, db, table, n - 1);
      OwnedStep(single, shards, routing, db, table, n - 1);
      var before, mine := OwnedUpto(single, routing, prefix, n - 1), KeysUnder(shards[n - 1], prefix);
      OwnedOrdered(single, shards, routing, db, table, n - 1);
      SortedConcat(before, mine);
      EntriesConcat(single, Sorted(before), Sorted(mine));
      ShardEntries(single, shards, routing, db, table, n - 1);
    }
  }

  lemma SortedEmpty(store: Store)
    ensures Sorted({}) == [] && EntriesAt(store, []) == []
  {
  }

  lemma OwnedNone(single: Store, routing: Ranges, prefix: string)
    ensures OwnedUpto(single, routing, prefix, 0) == {}
  {
  }

  lemma OwnedOrdered(single: Store, shards: seq<Store>, routing: Ranges, db: string, table: string, n: nat)
    requires Spread(single, shards, routing) && Partitions(routing) && NameOk(db) && NameOk(table) && n < |shards|
    ensures forall a, b :: a in OwnedUpto(single, routing, RowPrefix(db, table), n) && b in KeysUnder(shards[n], RowPrefix(db, table)) ==> Less(a, b)
  {
    hide StartsWith, Owner, Partitions, Shaped;
    assert Part(single, shards[n], routing, n);
    forall a, b | a in OwnedUpto(single, routing, RowPrefix(db, table), n) && b in KeysUnder(shards[n], RowPrefix(db, table))
      ensures Less(a, b)
    {
      PrefixSelects(db, table, b);
      OwnersOrdered(routing, a, b);
    }
  }

  lemma ShardEntries(single: Store, shards: seq<Store>, routing: Ranges, db: string, table: string, i: nat)
    requires Spread(single, shards, routing) && i < |shards|
    ensures ScanRows(shards[i], db, table) == EntriesAt(single, Sorted(KeysUnder(shards[i], RowPrefix(db, table))))
  {
    hide StartsWith, Owner, Sorted;
    var keys := ScanKeys(shards[i], RowPrefix(db, table));
    assert Part(single, shards[i], routing, i);
    forall k | k in keys ensures RowAt(shards[i], k) == RowAt(single, k) {
      SortedMembers(KeysUnder(shards[i], RowPrefix(db, table)), k);
    }
    SameEntries(shards[i], single, keys);
  }

  lemma SortedMembers(s: set<string>, k: string)
    ensures k in Sorted(s) <==> k in s
  {
  }

  /** Because shards are visited in start-key order, their scans one after the other are the scan of
      the undivided table. */
  lemma ScansConcatenate(single: Store, shards: seq<Store>, routing: Ranges, db: string, table: string)
    requires Spread(single, shards, routing) && Partitions(routing) && NameOk(db) && NameOk(table)
    ensures FlatScan(shards, db, table, |shards|) == ScanRows(single, db, table)
  {
    hide StartsWith, Sorted, FlatScan;
    FlatScanIs(single, shards, routing, db, table, |shards|);
    forall k | k in KeysUnder(single, RowPrefix(db, table)) ensures k in OwnedUpto(single, routing, RowPrefix(db, table), |shards|) {
      OwnerCovers(routing, k, 0);
    }
    assert OwnedUpto(single, routing, RowPrefix(db, table), |shards|) == KeysUnder(single, RowPrefix(db, table));
  }
}
