/**
 Sharded execution refines single-node execution: whatever a node routes, scatters or broadcasts, the
 shards together stay the undivided database, and the answers are its answers.
 */
module ShardRefinement {
  import opened Options
  import opened Strings
  import opened SortedStrings
  import opened SqlAst
  import opened SqlKeys
  import opened SqlExecution
  import opened SqlLazyAlter
  import opened ShardRouting
  import opened ShardStatements
  import opened ShardExecution

  // ------------------------------------------------------------------------------------------
  // Definitions, everywhere
  // ------------------------------------------------------------------------------------------

  predicate IsDefinition(stmt: Statement) { stmt.CreateDatabase? || stmt.CreateTable? || stmt.AddColumn? }

  lemma SetDefinition(single: Store, store: Store, routing: Ranges, i: nat, k: string, cell: Cell)
    requires Part(single, store, routing, i) && !IsRowKey(k)
    ensures Part(single[k := cell], store[k := cell], routing, i)
  {
  }

  lemma DefinitionPart(single: Store, store: Store, routing: Ranges, i: nat, stmt: Statement)
    requires Part(single, store, routing, i) && IsDefinition(stmt)
    ensures Part(Execute(single, stmt).0, Execute(store, stmt).0, routing, i)
    ensures Execute(store, stmt).1 == Execute(single, stmt).1
  {
    hide Part, DatabaseKey, SchemaKey, LoadSchema, ExtendSchema, IsRowKey;
    match stmt
    case CreateDatabase(name) =>
      SchemasShared(single, store, routing, i, name, "");
      KindsApart("", "", "", name);
      SetDefinition(single, store, routing, i, DatabaseKey(name), Marker);
    case CreateTable(db, table, definitions) =>
      SchemasShared(single, store, routing, i, db, table);
      KindsApart("", db, table, "");
      SetDefinition(single, store, routing, i, SchemaKey(db, table), SchemaCell(Schema(definitions)));
    case AddColumn(db, table, column) =>
      SchemasShared(single, store, routing, i, db, table);
      KindsApart("", db, table, "");
      if LoadSchema(single, db, table).Some? {
        SetDefinition(single, store, routing, i, SchemaKey(db, table), SchemaCell(ExtendSchema(LoadSchema(single, db, table).value, column).0));
      }
  }

  lemma PrefixNotRow(k: string, prefix: string)
    requires StartsWith(k, prefix) && |prefix| > 2 && prefix[2] != 'r'
    ensures !IsRowKey(k)
  {
    ThirdLetter(k);
    assert k[..|prefix|][2] == k[2];
  }

  lemma ListingShared(single: Store, store: Store, routing: Ranges, i: nat, prefix: string)
    requires Part(single, store, routing, i) && |prefix| > 2 && prefix[2] != 'r'
    ensures ScanKeys(store, prefix) == ScanKeys(single, prefix)
  {
    hide StartsWith, Owner, IsRowKey, Sorted;
    forall k ensures k in KeysUnder(store, prefix) <==> k in KeysUnder(single, prefix) {
      if StartsWith(k, prefix) { PrefixNotRow(k, prefix); }
    }
    assert KeysUnder(store, prefix) == KeysUnder(single, prefix);
  }

  lemma ShowShared(single: Store, store: Store, routing: Ranges, i: nat, stmt: Statement)
    requires Part(single, store, routing, i) && (stmt.ShowTables? || stmt.ShowDatabases?)
    ensures Execute(store, stmt) == (store, Execute(single, stmt).1)
  {
    hide Part, ScanKeys, DatabaseKey;
    if stmt.ShowTables? {
      SchemasShared(single, store, routing, i, stmt.db, "");
      ListingShared(single, store, routing, i, SchemaPrefix(stmt.db));
    } else {
      ListingShared(single, store, routing, i, DATABASE_PREFIX);
    }
  }

  // ------------------------------------------------------------------------------------------
  // Updates and deletes on one part
  // ------------------------------------------------------------------------------------------

  lemma AppliedPart(single: Store, store: Store, routing: Ranges, i: nat, schema: Schema, prefix: string, where: seq<Condition>, changes: seq<(nat, string)>)
    requires Part(single, store, routing, i)
    ensures Part(Applied(single, schema, KeysUnder(single, prefix), where, changes),
                 Applied(store, schema, KeysUnder(store, prefix), where, changes), routing, i)
  {
    hide StartsWith, Owner, IsRowKey, NewRow;
  }

  lemma PrunedPart(single: Store, store: Store, routing: Ranges, i: nat, schema: Schema, prefix: string, where: seq<Condition>)
    requires Part(single, store, routing, i)
    ensures Part(Pruned(single, schema, KeysUnder(single, prefix), where),
                 Pruned(store, schema, KeysUnder(store, prefix), where), routing, i)
  {
    hide StartsWith, Owner, IsRowKey, Hits;
  }

  /** No row under the prefix is hit, except those this shard does not own. */
  predicate Missed(single: Store, schema: Schema, prefix: string, where: seq<Condition>, store: Store) {
    forall k :: k in single && k in store && StartsWith(k, prefix) && single[k].RowCell? ==> !Hits(schema, single[k].row, where)
  }

  lemma MissedApplied(single: Store, store: Store, routing: Ranges, i: nat, schema: Schema, prefix: string, where: seq<Condition>, changes: seq<(nat, string)>)
    requires Part(single, store, routing, i) && Missed(single, schema, prefix, where, store)
    ensures Part(Applied(single, schema, KeysUnder(single, prefix), where, changes), store, routing, i)
  {
    hide StartsWith, Owner, IsRowKey, Hits;
  }

  lemma MissedPruned(single: Store, store: Store, routing: Ranges, i: nat, schema: Schema, prefix: string, where: seq<Condition>)
    requires Part(single, store, routing, i) && Missed(single, schema, prefix, where, store)
    requires forall k :: k in single && StartsWith(k, prefix) && k !in store ==> IsRowKey(k)
    ensures Part(Pruned(single, schema, KeysUnder(single, prefix), where), store, routing, i)
  {
    hide StartsWith, Owner, IsRowKey, Hits;
    var pruned := Pruned(single, schema, KeysUnder(single, prefix), where);
    forall k ensures k in store <==> k in pruned && (IsRowKey(k) ==> Owner(routing, k) == Some(i)) {
    }
  }

  // ------------------------------------------------------------------------------------------
  // Adding up
  // ------------------------------------------------------------------------------------------

  lemma {:induction false} TotalConcat(a: seq<Result>, b: seq<Result>)
    ensures TotalChanged(a + b) == TotalChanged(a) + TotalChanged(b)
    ensures RowsOf(a + b) == RowsOf(a) + RowsOf(b)
    decreases |a|
  {
    if a == [] {
      assert a + b == b && [] + RowsOf(b) == RowsOf(b);
    } else {
      TotalConcat(a[1..], b);
      assert (a + b)[1..] == a[1..] + b;
      var head := if a[0].Ok? && a[0].output.Listing? then a[0].output.rows else [];
      assert head + (RowsOf(a[1..]) + RowsOf(b)) == head + RowsOf(a[1..]) + RowsOf(b);
    }
  }

  lemma OneResult(r: Result)
    ensures TotalChanged([r]) == if r.Ok? && r.output.Changed? then r.output.count else 0
    ensures RowsOf([r]) == if r.Ok? && r.output.Listing? then r.output.rows else []
  {
    assert [r][1..] == [];
  }

  lemma NoResults(results: seq<Result>)
    requires results == []
    ensures TotalChanged(results) == 0 && RowsOf(results) == []
  {
  }

  /** Each shard's count is that of its own scan. */
  ghost predicate Counted(shards: seq<Store>, db: string, table: string, schema: Schema, where: seq<Condition>, results: seq<Result>) {
    |results| == |shards| && forall i {:trigger results[i]} | 0 <= i < |results| ::
      results[i] == Ok(Changed(CountHits(schema, ScanRows(shards[i], db, table), where)))
  }

  lemma {:induction false} CountsAdd(shards: seq<Store>, db: string, table: string, schema: Schema, where: seq<Condition>, results: seq<Result>, n: nat)
    requires Counted(shards, db, table, schema, where, results) && n <= |results|
    ensures TotalChanged(results[..n]) == CountHits(schema, FlatScan(shards, db, table, n), where)
    decreases n
  {
    hide CountHits, ScanRows, TotalChanged, RowsOf, HitRows;
    if n == 0 {
      NoHits(schema, [], where, []);
      NoResults(results[..0]);
    } else {
      CountsAdd(shards, db, table, schema, where, results, n - 1);
      assert results[..n] == results[..n - 1] + [results[n - 1]];
      TotalConcat(results[..n - 1], [results[n - 1]]);
      OneResult(results[n - 1]);
      HitRowsConcat(schema, FlatScan(shards, db, table, n - 1), ScanRows(shards[n - 1], db, table), where, []);
    }
  }

  ghost predicate Listed(shards: seq<Store>, db: string, table: string, schema: Schema, where: seq<Condition>, indices: seq<nat>, headers: seq<string>, results: seq<Result>) {
    |results| == |shards| && forall i {:trigger results[i]} | 0 <= i < |results| ::
      results[i] == Ok(Listing(headers, HitRows(schema, ScanRows(shards[i], db, table), where, indices)))
  }

  lemma {:induction false} RowsAdd(shards: seq<Store>, db: string, table: string, schema: Schema, where: seq<Condition>, indices: seq<nat>, headers: seq<string>, results: seq<Result>, n: nat)
    requires Listed(shards, db, table, schema, where, indices, headers, results) && n <= |results|
    ensures RowsOf(results[..n]) == HitRows(schema, FlatScan(shards, db, table, n), where, indices)
    decreases n
  {
    hide HitRows, ScanRows, TotalChanged, RowsOf, CountHits;
    if n == 0 {
      NoHits(schema, [], where, indices);
      NoResults(results[..0]);
    } else {
      RowsAdd(shards, db, table, schema, where, indices, headers, results, n - 1);
      assert results[..n] == results[..n - 1] + [results[n - 1]];
      TotalConcat(results[..n - 1], [results[n - 1]]);
      OneResult(results[n - 1]);
      HitRowsConcat(schema, FlatScan(shards, db, table, n - 1), ScanRows(shards[n - 1], db, table), where, indices);
    }
  }

  lemma {:induction false} AllFail(results: seq<Result>, error: SqlError)
    requires results != [] && forall i {:trigger results[i]} | 0 <= i < |results| :: results[i] == Failed(error)
    ensures MergeSelectResults(results) == Failed(error)
  {
  }

  lemma {:induction false} NoneFails(results: seq<Result>)
    requires forall i {:trigger results[i]} | 0 <= i < |results| :: results[i].Ok?
    ensures FirstFailure(results).None?
    decreases |results|
  {
    if results != [] { NoneFails(results[1..]); }
  }

  // ------------------------------------------------------------------------------------------
  // Scattered statements
  // ------------------------------------------------------------------------------------------

  /** What a statement may assume about the undivided database and the way it is split. */
  ghost predicate Setting(single: Store, shards: seq<Store>, routing: Ranges) {
    Spread(single, shards, routing) && Partitions(routing) && Sound(single) && Typed(single)
  }

  lemma ShardReady(single: Store, shards: seq<Store>, routing: Ranges, i: nat, db: string, table: string)
    requires Setting(single, shards, routing) && i < |shards|
    ensures Part(single, shards[i], routing, i) && Sound(shards[i]) && Typed(shards[i])
    ensures LoadSchema(shards[i], db, table) == LoadSchema(single, db, table)
  {
    hide Sound, Typed, Part, Partitions, LoadSchema;
    PartInvariants(single, shards[i], routing, i);
    SchemasShared(single, shards[i], routing, i, db, table);
  }

  /** One shard's share of a scattered UPDATE. */
  lemma UpdatedShard(single: Store, shards: seq<Store>, routing: Ranges, i: nat, db: string, table: string, assignments: seq<(string, string)>, where: seq<Condition>)
    requires Setting(single, shards, routing) && NameOk(db) && NameOk(table) && i < |shards|
    requires LoadSchema(single, db, table).Some? && WhereTyped(LoadSchema(single, db, table).value, where)
    requires PlanUpdate(LoadSchema(single, db, table).value, assignments).Plan?
    ensures Part(ExecuteUpdate(single, db, table, assignments, where).0, ExecuteUpdate(shards[i], db, table, assignments, where).0, routing, i)
    ensures ExecuteUpdate(shards[i], db, table, assignments, where).1 ==
            Ok(Changed(CountHits(LoadSchema(single, db, table).value, ScanRows(shards[i], db, table), where)))
  {
    hide Sound, Typed, Part, Partitions, WhereTyped, Applied, PlanUpdate, LoadSchema, ScanRows, CountHits, KeysUnder, UpdateOver;
    var schema := LoadSchema(single, db, table).value;
    ShardReady(single, shards, routing, i, db, table);
    UpdateClosed(single, db, table, assignments, where);
    UpdateClosed(shards[i], db, table, assignments, where);
    AppliedPart(single, shards[i], routing, i, schema, RowPrefix(db, table), where, PlanUpdate(schema, assignments).changes);
  }

  lemma ScatterUpdate(single: Store, shards: seq<Store>, routing: Ranges, db: string, table: string, assignments: seq<(string, string)>, where: seq<Condition>)
    requires Setting(single, shards, routing) && NameOk(db) && NameOk(table)
    requires LoadSchema(single, db, table).Some? ==> WhereTyped(LoadSchema(single, db, table).value, where)
    ensures var stmt := Update(db, table, assignments, where); var (after, results) := ExecuteAll(shards, stmt);
            Spread(Execute(single, stmt).0, after, routing) && Agrees(Each(results), Execute(single, stmt).1)
  {
    hide Sound, Typed, Part, Partitions, WhereTyped, Applied, PlanUpdate, LoadSchema, ScanRows, CountHits, FlatScan, KeysUnder, UpdateOver;
    var stmt := Update(db, table, assignments, where);
    var (after, results) := ExecuteAll(shards, stmt);
    forall i | 0 <= i < |shards| ensures LoadSchema(shards[i], db, table) == LoadSchema(single, db, table) && Part(single, shards[i], routing, i) {
      ShardReady(single, shards, routing, i, db, table);
    }
    if LoadSchema(single, db, table).Some? && PlanUpdate(LoadSchema(single, db, table).value, assignments).Plan? {
      var schema := LoadSchema(single, db, table).value;
      UpdateClosed(single, db, table, assignments, where);
      forall i | 0 <= i < |shards|
        ensures Part(Execute(single, stmt).0, after[i], routing, i)
        ensures results[i] == Ok(Changed(CountHits(schema, ScanRows(shards[i], db, table), where)))
      {
        UpdatedShard(single, shards, routing, i, db, table, assignments, where);
      }
      CountsAdd(shards, db, table, schema, where, results, |shards|);
      assert results[..|shards|] == results;
      ScansConcatenate(single, shards, routing, db, table);
    }
  }

  /** One shard's share of a scattered DELETE. */
  lemma DeletedShard(single: Store, shards: seq<Store>, routing: Ranges, i: nat, db: string, table: string, where: seq<Condition>)
    requires Setting(single, shards, routing) && NameOk(db) && NameOk(table) && i < |shards|
    requires LoadSchema(single, db, table).Some? && WhereTyped(LoadSchema(single, db, table).value, where)
    ensures Part(ExecuteDelete(single, db, table, where).0, ExecuteDelete(shards[i], db, table, where).0, routing, i)
    ensures ExecuteDelete(shards[i], db, table, where).1 ==
            Ok(Changed(CountHits(LoadSchema(single, db, table).value, ScanRows(shards[i], db, table), where)))
  {
    hide Sound, Typed, Part, Partitions, WhereTyped, Pruned, LoadSchema, ScanRows, CountHits, KeysUnder, DeleteOver;
    var schema := LoadSchema(single, db, table).value;
    ShardReady(single, shards, routing, i, db, table);
    DeleteClosed(single, db, table, where);
    DeleteClosed(shards[i], db, table, where);
    PrunedPart(single, shards[i], routing, i, schema, RowPrefix(db, table), where);
  }

  lemma ScatterDelete(single: Store, shards: seq<Store>, routing: Ranges, db: string, table: string, where: seq<Condition>)
    requires Setting(single, shards, routing) && NameOk(db) && NameOk(table)
    requires LoadSchema(single, db, table).Some? ==> WhereTyped(LoadSchema(single, db, table).value, where)
    ensures var stmt := Delete(db, table, where); var (after, results) := ExecuteAll(shards, stmt);
            Spread(Execute(single, stmt).0, after, routing) && Agrees(Each(results), Execute(single, stmt).1)
  {
    hide Sound, Typed, Part, Partitions, WhereTyped, Pruned, LoadSchema, ScanRows, CountHits, FlatScan, KeysUnder, DeleteOver;
    var stmt := Delete(db, table, where);
    var (after, results) := ExecuteAll(shards, stmt);
    forall i | 0 <= i < |shards| ensures LoadSchema(shards[i], db, table) == LoadSchema(single, db, table) && Part(single, shards[i], routing, i) {
      ShardReady(single, shards, routing, i, db, table);
    }
    if LoadSchema(single, db, table).Some? {
      var schema := LoadSchema(single, db, table).value;
      DeleteClosed(single, db, table, where);
      forall i | 0 <= i < |shards|
        ensures Part(Execute(single, stmt).0, after[i], routing, i)
        ensures results[i] == Ok(Changed(CountHits(schema, ScanRows(shards[i], db, table), where)))
      {
        DeletedShard(single, shards, routing, i, db, table, where);
      }
      CountsAdd(shards, db, table, schema, where, results, |shards|);
      assert results[..|shards|] == results;
      ScansConcatenate(single, shards, routing, db, table);
    }
  }

  /** A scattered SELECT returns the same rows in the same order. */
  lemma ScatterSelect(single: Store, shards: seq<Store>, routing: Ranges, db: string, table: string, columns: seq<string>, where: seq<Condition>)
    requires Setting(single, shards, routing) && NameOk(db) && NameOk(table)
    requires LoadSchema(single, db, table).Some? ==> WhereTyped(LoadSchema(single, db, table).value, where)
    ensures var stmt := Select(db, table, columns, where); var (after, results) := ExecuteAll(shards, stmt);
            after == shards && results != [] && MergeSelectResults(results) == Execute(single, stmt).1
  {
    hide Sound, Typed, Part, WhereTyped, LoadSchema, ScanRows, HitRows, FlatScan, ProjectionOf, HeadersOf, SelectOver;
    var stmt := Select(db, table, columns, where);
    var (after, results) := ExecuteAll(shards, stmt);
    forall i | 0 <= i < |shards| ensures LoadSchema(shards[i], db, table) == LoadSchema(single, db, table) && after[i] == shards[i] {
      ShardReady(single, shards, routing, i, db, table);
    }
    assert |shards| > 0;
    if LoadSchema(single, db, table).None? {
      AllFail(results, NoSuchTable);
    } else if ProjectionOf(LoadSchema(single, db, table).value, columns).Unknown? {
      AllFail(results, NoSuchColumn(ProjectionOf(LoadSchema(single, db, table).value, columns).column));
    } else {
      var schema := LoadSchema(single, db, table).value;
      var indices := ProjectionOf(schema, columns).indices;
      SelectClosed(single, db, table, columns, where);
      forall i | 0 <= i < |shards|
        ensures results[i] == Ok(Listing(HeadersOf(schema, columns), HitRows(schema, ScanRows(shards[i], db, table), where, indices)))
      {
        ShardReady(single, shards, routing, i, db, table);
        SelectClosed(shards[i], db, table, columns, where);
      }
      RowsAdd(shards, db, table, schema, where, indices, HeadersOf(schema, columns), results, |shards|);
      assert results[..|shards|] == results;
      NoneFails(results);
      ScansConcatenate(single, shards, routing, db, table);
    }
  }

  /** An INSERT that does not name the key column fails everywhere alike. */
  lemma ScatterInsert(single: Store, shards: seq<Store>, routing: Ranges, db: string, table: string, columns: seq<string>, values: seq<string>)
    requires Setting(single, shards, routing) && NameOk(db) && NameOk(table)
    requires WellTyped(single, Insert(db, table, columns, values)) && TryExtractRowKey(single, Insert(db, table, columns, values)).None?
    ensures var stmt := Insert(db, table, columns, values); var (after, results) := ExecuteAll(shards, stmt);
            && Execute(single, stmt).0 == single && Execute(single, stmt).1.Failed?
            && Spread(single, after, routing) && Agrees(Each(results), Execute(single, stmt).1)
  {
    hide Part, InsertRow, AssignedTyped, SchemaTyped, FirstPrimary;
    var stmt := Insert(db, table, columns, values);
    var (after, results) := ExecuteAll(shards, stmt);
    if LoadSchema(single, db, table).Some? {
      var schema := LoadSchema(single, db, table).value;
      assert SchemaTyped(schema) && SchemaOk(schema);
      if InsertRow(schema, columns, values).Filling? { InsertedKey(schema, columns, values); }
    }
    forall i | 0 <= i < |shards| ensures after[i] == shards[i] && results[i] == Execute(single, stmt).1 {
      ShardReady(single, shards, routing, i, db, table);
    }
    assert after == shards;
  }

  // ------------------------------------------------------------------------------------------
  // Routed statements
  // ------------------------------------------------------------------------------------------

  /** A row hit by a where-clause that pins the primary key is the row of that key. */
  lemma PinnedHit(single: Store, db: string, table: string, where: seq<Condition>, literal: string, k: string)
    requires Sound(single) && Typed(single) && NameOk(db) && NameOk(table) && LoadSchema(single, db, table).Some?
    requires k in single && StartsWith(k, RowPrefix(db, table)) && single[k].RowCell?
    requires Hits(LoadSchema(single, db, table).value, single[k].row, where)
    requires PkName(single, db, table).Some? && FindPkEquality(PkName(single, db, table).value, where) == Some(literal)
    ensures k == RowKey(db, table, literal)
  {
    hide StartsWith, Shaped, MatchesWhere, FindPkEquality, FirstPrimary, FirstIndex, ValueTyped, RowKey;
    RowKeyOfTable(single, db, table, k);
    var schema := LoadSchema(single, db, table).value;
    var row := single[k].row;
    assert RowTyped(schema, row) && PkFound(schema) && SchemaTyped(schema);
    PadFits(schema, row);
    var full := PadRow(schema, row).value;
    PadKeepsPk(schema, row, full, KeyPk(k));
    PinnedRow(schema, full, where, PkName(single, db, table).value, literal);
  }

  /** The where-clause pins the primary key to `literal`, and shard i owns that row. */
  ghost predicate Pinned(single: Store, routing: Ranges, db: string, table: string, where: seq<Condition>, literal: string, i: nat) {
    && PkName(single, db, table).Some? && FindPkEquality(PkName(single, db, table).value, where) == Some(literal)
    && Owner(routing, RowKey(db, table, literal)) == Some(i)
  }

  lemma OthersMissed(single: Store, shards: seq<Store>, routing: Ranges, db: string, table: string, where: seq<Condition>, literal: string, i: nat, j: nat)
    requires Setting(single, shards, routing) && NameOk(db) && NameOk(table) && LoadSchema(single, db, table).Some?
    requires Pinned(single, routing, db, table, where, literal, i) && j < |shards| && j != i
    ensures Missed(single, LoadSchema(single, db, table).value, RowPrefix(db, table), where, shards[j])
    ensures forall k :: k in single && StartsWith(k, RowPrefix(db, table)) && k !in shards[j] ==> IsRowKey(k)
  {
    hide StartsWith, Owner, Hits, Sound, Typed, Partitions, PkName, FindPkEquality, LoadSchema, Shaped, RowKey;
    assert Part(single, shards[j], routing, j);
    forall k | k in single && k in shards[j] && StartsWith(k, RowPrefix(db, table)) && single[k].RowCell?
      ensures !Hits(LoadSchema(single, db, table).value, single[k].row, where)
    {
      PrefixSelects(db, table, k);
      if Hits(LoadSchema(single, db, table).value, single[k].row, where) { PinnedHit(single, db, table, where, literal, k); }
    }
    forall k | k in single && StartsWith(k, RowPrefix(db, table)) ensures IsRowKey(k) { PrefixSelects(db, table, k); }
  }

  lemma MissedScan(single: Store, shards: seq<Store>, routing: Ranges, db: string, table: string, where: seq<Condition>, indices: seq<nat>, j: nat)
    requires Setting(single, shards, routing) && NameOk(db) && NameOk(table) && LoadSchema(single, db, table).Some? && j < |shards|
    requires Missed(single, LoadSchema(single, db, table).value, RowPrefix(db, table), where, shards[j])
    ensures var schema := LoadSchema(single, db, table).value; var es := ScanRows(shards[j], db, table);
            HitRows(schema, es, where, indices) == [] && CountHits(schema, es, where) == 0
  {
    hide StartsWith, Hits, HitRows, CountHits, Sound, Typed, Partitions, LoadSchema;
    var schema := LoadSchema(single, db, table).value;
    var keys := ScanKeys(shards[j], RowPrefix(db, table));
    ShardReady(single, shards, routing, j, db, table);
    ScanCells(shards[j], db, table);
    var es := ScanRows(shards[j], db, table);
    forall e | 0 <= e < |es| ensures !Hits(schema, es[e].row, where) {
      assert keys[e] in KeysUnder(shards[j], RowPrefix(db, table));
    }
    NoHits(schema, es, where, indices);
  }

  /** All hits of the whole table are in the owning shard's scan. */
  lemma {:induction false} OnlyOwnerHits(single: Store, shards: seq<Store>, routing: Ranges, db: string, table: string, where: seq<Condition>, indices: seq<nat>, literal: string, i: nat, n: nat)
    requires Setting(single, shards, routing) && NameOk(db) && NameOk(table) && LoadSchema(single, db, table).Some?
    requires Pinned(single, routing, db, table, where, literal, i) && i < |shards| && n <= |shards|
    ensures var schema := LoadSchema(single, db, table).value; var mine := ScanRows(shards[i], db, table);
            && HitRows(schema, FlatScan(shards, db, table, n), where, indices) == (if i < n then HitRows(schema, mine, where, indices) else [])
            && CountHits(schema, FlatScan(shards, db, table, n), where) == (if i < n then CountHits(schema, mine, where) else 0)
    decreases n
  {
    hide HitRows, CountHits, Setting, LoadSchema, ScanRows, Pinned, Missed, NameOk;
    var schema := LoadSchema(single, db, table).value;
    if n == 0 {
      NoHits(schema, [], where, indices);
    } else {
      OnlyOwnerHits(single, shards, routing, db, table, where, indices, literal, i, n - 1);
      HitRowsConcat(schema, FlatScan(shards, db, table, n - 1), ScanRows(shards[n - 1], db, table), where, indices);
      if n - 1 != i {
        OthersMissed(single, shards, routing, db, table, where, literal, i, n - 1);
        MissedScan(single, shards, routing, db, table, where, indices, n - 1);
      }
    }
  }

  lemma OwnerHasAll(single: Store, shards: seq<Store>, routing: Ranges, db: string, table: string, where: seq<Condition>, indices: seq<nat>, literal: string, i: nat)
    requires Setting(single, shards, routing) && NameOk(db) && NameOk(table) && LoadSchema(single, db, table).Some?
    requires Pinned(single, routing, db, table, where, literal, i) && i < |shards|
    ensures var schema := LoadSchema(single, db, table).value;
            && HitRows(schema, ScanRows(single, db, table), where, indices) == HitRows(schema, ScanRows(shards[i], db, table), where, indices)
            && CountHits(schema, ScanRows(single, db, table), where) == CountHits(schema, ScanRows(shards[i], db, table), where)
  {
    hide HitRows, CountHits, Sound, Typed, Partitions, LoadSchema, ScanRows, Pinned, FlatScan;
    OnlyOwnerHits(single, shards, routing, db, table, where, indices, literal, i, |shards|);
    ScansConcatenate(single, shards, routing, db, table);
  }

  /** The other shards keep their part when only shard i changes. */
  lemma SpreadOne(single': Store, shards: seq<Store>, routing: Ranges, i: nat, store': Store)
    requires |shards| == |routing| && i < |shards| && Part(single', store', routing, i)
    requires forall j {:trigger shards[j]} | 0 <= j < |shards| && j != i :: Part(single', shards[j], routing, j)
    ensures Spread(single', shards[i := store'], routing)
  {
    hide Part;
  }

  lemma RoutedSelect(single: Store, shards: seq<Store>, routing: Ranges, db: string, table: string, columns: seq<string>, where: seq<Condition>, literal: string, i: nat)
    requires Setting(single, shards, routing) && NameOk(db) && NameOk(table)
    requires LoadSchema(single, db, table).Some? && WhereTyped(LoadSchema(single, db, table).value, where)
    requires Pinned(single, routing, db, table, where, literal, i) && i < |shards|
    ensures var stmt := Select(db, table, columns, where);
            Execute(shards[i], stmt) == (shards[i], Execute(single, stmt).1)
  {
    hide Sound, Typed, Partitions, LoadSchema, ScanRows, HitRows, Pinned, ProjectionOf, HeadersOf, WhereTyped, SelectOver, Spread;
    ShardReady(single, shards, routing, i, db, table);
    var schema := LoadSchema(single, db, table).value;
    if ProjectionOf(schema, columns).Projection? {
      SelectClosed(single, db, table, columns, where);
      SelectClosed(shards[i], db, table, columns, where);
      OwnerHasAll(single, shards, routing, db, table, where, ProjectionOf(schema, columns).indices, literal, i);
    }
  }

  lemma RoutedUpdate(single: Store, shards: seq<Store>, routing: Ranges, db: string, table: string, assignments: seq<(string, string)>, where: seq<Condition>, literal: string, i: nat)
    requires Setting(single, shards, routing) && NameOk(db) && NameOk(table)
    requires LoadSchema(single, db, table).Some? && WhereTyped(LoadSchema(single, db, table).value, where)
    requires Pinned(single, routing, db, table, where, literal, i) && i < |shards|
    ensures var stmt := Update(db, table, assignments, where);
            && Spread(Execute(single, stmt).0, shards[i := Execute(shards[i], stmt).0], routing)
            && Execute(shards[i], stmt).1 == Execute(single, stmt).1
  {
    hide Sound, Typed, Part, Partitions, LoadSchema, ScanRows, CountHits, Pinned, PlanUpdate, WhereTyped, UpdateOver, Applied, Missed, KeysUnder, Hits;
    ShardReady(single, shards, routing, i, db, table);
    var schema := LoadSchema(single, db, table).value;
    if PlanUpdate(schema, assignments).Plan? {
      var changes := PlanUpdate(schema, assignments).changes;
      UpdateClosed(single, db, table, assignments, where);
      UpdateClosed(shards[i], db, table, assignments, where);
      OwnerHasAll(single, shards, routing, db, table, where, [], literal, i);
      AppliedPart(single, shards[i], routing, i, schema, RowPrefix(db, table), where, changes);
      var single' := Applied(single, schema, KeysUnder(single, RowPrefix(db, table)), where, changes);
      forall j | 0 <= j < |shards| && j != i ensures Part(single', shards[j], routing, j) {
        OthersMissed(single, shards, routing, db, table, where, literal, i, j);
        MissedApplied(single, shards[j], routing, j, schema, RowPrefix(db, table), where, changes);
      }
      SpreadOne(single', shards, routing, i, Applied(shards[i], schema, KeysUnder(shards[i], RowPrefix(db, table)), where, changes));
    } else {
      assert shards[i := shards[i]] == shards;
    }
  }

  lemma RoutedDelete(single: Store, shards: seq<Store>, routing: Ranges, db: string, table: string, where: seq<Condition>, literal: string, i: nat)
    requires Setting(single, shards, routing) && NameOk(db) && NameOk(table)
    requires LoadSchema(single, db, table).Some? && WhereTyped(LoadSchema(single, db, table).value, where)
    requires Pinned(single, routing, db, table, where, literal, i) && i < |shards|
    ensures var stmt := Delete(db, table, where);
            && Spread(Execute(single, stmt).0, shards[i := Execute(shards[i], stmt).0], routing)
            && Execute(shards[i], stmt).1 == Execute(single, stmt).1
  {
    hide Sound, Typed, Part, Partitions, LoadSchema, ScanRows, CountHits, Pinned, WhereTyped, DeleteOver, Pruned, Missed, KeysUnder, Hits, StartsWith, IsRowKey;
    ShardReady(single, shards, routing, i, db, table);
    var schema := LoadSchema(single, db, table).value;
    DeleteClosed(single, db, table, where);
    DeleteClosed(shards[i], db, table, where);
    OwnerHasAll(single, shards, routing, db, table, where, [], literal, i);
    PrunedPart(single, shards[i], routing, i, schema, RowPrefix(db, table), where);
    var single' := Pruned(single, schema, KeysUnder(single, RowPrefix(db, table)), where);
    forall j | 0 <= j < |shards| && j != i ensures Part(single', shards[j], routing, j) {
      OthersMissed(single, shards, routing, db, table, where, literal, i, j);
      MissedPruned(single, shards[j], routing, j, schema, RowPrefix(db, table), where);
    }
    SpreadOne(single', shards, routing, i, Pruned(shards[i], schema, KeysUnder(shards[i], RowPrefix(db, table)), where));
  }

  lemma AddRow(single: Store, shards: seq<Store>, routing: Ranges, i: nat, k: string, cell: Cell)
    requires Spread(single, shards, routing) && IsRowKey(k) && Owner(routing, k) == Some(i) && i < |shards|
    ensures Spread(single[k := cell], shards[i := shards[i][k := cell]], routing)
  {
    hide IsRowKey, Owner;
    var shards' := shards[i := shards[i][k := cell]];
    forall j {:trigger shards'[j]} | 0 <= j < |shards| ensures Part(single[k := cell], shards'[j], routing, j) {
      assert Part(single, shards[j], routing, j);
    }
  }

  lemma RoutedInsert(single: Store, shards: seq<Store>, routing: Ranges, db: string, table: string, columns: seq<string>, values: seq<string>, literal: string, i: nat)
    requires Setting(single, shards, routing) && NameOk(db) && NameOk(table)
    requires LoadSchema(single, db, table).Some? && WellTyped(single, Insert(db, table, columns, values))
    requires PkName(single, db, table).Some? && FindPkValue(PkName(single, db, table).value, columns, values) == Some(literal)
    requires Owner(routing, RowKey(db, table, literal)) == Some(i) && i < |shards|
    ensures var stmt := Insert(db, table, columns, values);
            && Spread(Execute(single, stmt).0, shards[i := Execute(shards[i], stmt).0], routing)
            && Execute(shards[i], stmt).1 == Execute(single, stmt).1
  {
    hide InsertRow, AssignedTyped, FirstPrimary, FindPkValue, RowKey, Owner, IsRowKey, Partitions, RowSound;
    ShardReady(single, shards, routing, i, db, table);
    var schema := LoadSchema(single, db, table).value;
    assert SchemaTyped(schema);
    assert shards[i := shards[i]] == shards;
    if InsertRow(schema, columns, values).Filling? {
      InsertedKey(schema, columns, values);
      var row := InsertRow(schema, columns, values).row;
      RowKeyParts(db, table, literal);
      AddRow(single, shards, routing, i, RowKey(db, table, literal), RowCell(row));
    }
  }

  // ------------------------------------------------------------------------------------------
  // Any statement
  // ------------------------------------------------------------------------------------------

  lemma SameRowKey(single: Store, store: Store, routing: Ranges, i: nat, stmt: Statement)
    requires Part(single, store, routing, i)
    ensures TryExtractRowKey(store, stmt) == TryExtractRowKey(single, stmt)
  {
    hide Part, LoadSchema, FindPkEquality, FindPkValue, FirstPrimary;
    if stmt.Insert? || stmt.Select? || stmt.Update? || stmt.Delete? {
      SchemasShared(single, store, routing, i, stmt.db, stmt.table);
    }
  }

  lemma DefinitionsSpread(single: Store, shards: seq<Store>, routing: Ranges, stmt: Statement)
    requires Spread(single, shards, routing) && IsDefinition(stmt)
    ensures var (after, results) := ExecuteAll(shards, stmt);
            && Spread(Execute(single, stmt).0, after, routing)
            && forall i {:trigger results[i]} | 0 <= i < |results| :: results[i] == Execute(single, stmt).1
  {
    hide Part, Execute;
    var (after, results) := ExecuteAll(shards, stmt);
    forall i | 0 <= i < |shards| ensures Part(Execute(single, stmt).0, after[i], routing, i) && results[i] == Execute(single, stmt).1 {
      DefinitionPart(single, shards[i], routing, i, stmt);
    }
  }

  lemma DefinitionResult(store: Store, stmt: Statement)
    requires IsDefinition(stmt)
    ensures var r := Execute(store, stmt).1; r.Ok? ==> r.output.Done?
  {
    hide LoadSchema, ExtendSchema;
  }

  lemma KeylessSpread(single: Store, shards: seq<Store>, routing: Ranges, stmt: Statement)
    requires Setting(single, shards, routing) && WellFormed(stmt) && WellTyped(single, stmt)
    requires stmt.Insert? || stmt.Select? || stmt.Update? || stmt.Delete?
    requires TryExtractRowKey(single, stmt).None?
    ensures var (after, results) := ExecuteAll(shards, stmt);
            && Spread(Execute(single, stmt).0, after, routing) && results != []
            && Agrees(if stmt.Select? then One(MergeSelectResults(results)) else Each(results), Execute(single, stmt).1)
  {
    hide Sound, Typed, Part, WhereTyped, LoadSchema, TryExtractRowKey, AssignedTyped, NameOk;
    match stmt
    case Insert(db, table, columns, values) => ScatterInsert(single, shards, routing, db, table, columns, values);
    case Select(db, table, columns, where) => ScatterSelect(single, shards, routing, db, table, columns, where);
    case Update(db, table, assignments, where) => ScatterUpdate(single, shards, routing, db, table, assignments, where);
    case Delete(db, table, where) => ScatterDelete(single, shards, routing, db, table, where);
  }

  lemma KeyedSpread(single: Store, shards: seq<Store>, routing: Ranges, stmt: Statement, key: string, i: nat)
    requires Setting(single, shards, routing) && WellFormed(stmt) && WellTyped(single, stmt)
    requires TryExtractRowKey(single, stmt) == Some(key) && Owner(routing, key) == Some(i) && i < |shards|
    ensures Spread(Execute(single, stmt).0, shards[i := Execute(shards[i], stmt).0], routing)
    ensures Execute(shards[i], stmt).1 == Execute(single, stmt).1
  {
    hide Sound, Typed, Part, Partitions, WhereTyped, Owner, NameOk, RowKey, FindPkValue, FindPkEquality, FirstPrimary, AssignedTyped,
         ExecuteSelect, ExecuteUpdate, ExecuteDelete, ExecuteInsert;
    assert shards[i := shards[i]] == shards;
    match stmt
    case Insert(db, table, columns, values) =>
      RoutedInsert(single, shards, routing, db, table, columns, values, FindPkValue(PkName(single, db, table).value, columns, values).value, i);
    case Select(db, table, columns, where) =>
      RoutedSelect(single, shards, routing, db, table, columns, where, FindPkEquality(PkName(single, db, table).value, where).value, i);
    case Update(db, table, assignments, where) =>
      RoutedUpdate(single, shards, routing, db, table, assignments, where, FindPkEquality(PkName(single, db, table).value, where).value, i);
    case Delete(db, table, where) =>
      RoutedDelete(single, shards, routing, db, table, where, FindPkEquality(PkName(single, db, table).value, where).value, i);
    case _ =>
  }

  /** One statement, wherever it is entered: the shards together stay the undivided database, and the
      reply is its answer. */
  lemma DispatchRefines(single: Store, shards: seq<Store>, routing: Ranges, home: nat, stmt: Statement)
    requires Setting(single, shards, routing) && home < |shards| && WellFormed(stmt) && WellTyped(single, stmt)
    ensures var (after, reply) := Dispatch(shards, routing, home, stmt);
            Spread(Execute(single, stmt).0, after, routing) && Agrees(reply, Execute(single, stmt).1)
  {
    hide Sound, Typed, Part, WellFormed, WellTyped, TryExtractRowKey, Owner, Execute, MergeSelectResults;
    if IsDefinition(stmt) {
      DefinitionsSpread(single, shards, routing, stmt);
      DefinitionResult(single, stmt);
    } else if stmt.ShowTables? || stmt.ShowDatabases? {
      ShowShared(single, shards[home], routing, home, stmt);
      ShowKeeps(single, stmt);
    } else {
      SameRowKey(single, shards[home], routing, home, stmt);
      match TryExtractRowKey(single, stmt)
      case None => KeylessSpread(single, shards, routing, stmt);
      case Some(key) =>
        OwnerCovers(routing, key, 0);
        OwnerInRange(routing, key);
        KeyedSpread(single, shards, routing, stmt, key, Owner(routing, key).value);
    }
  }

  lemma OwnerInRange(routing: Ranges, key: string)
    requires Owner(routing, key).Some?
    ensures Owner(routing, key).value < |routing|
  {
  }

  lemma ShowKeeps(single: Store, stmt: Statement)
    requires stmt.ShowTables? || stmt.ShowDatabases?
    ensures Execute(single, stmt).0 == single
  {
  }
}
