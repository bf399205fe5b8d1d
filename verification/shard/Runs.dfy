/** Whole runs of a sharded database, from empty stores, against the undivided one. */
module ShardRuns {
  import opened Options
  import opened Strings
  import opened SqlAst
  import opened SqlKeys
  import opened SqlExecution
  import opened SqlLazyAlter
  import opened ShardRouting
  import opened ShardStatements
  import opened ShardExecution
  import opened ShardRefinement

  // ------------------------------------------------------------------------------------------
  // What every statement keeps
  // ------------------------------------------------------------------------------------------

  function PaddedCell(store: Store, k: string): Cell
    requires k in store
  {
    if IsRowKey(k) && store[k].RowCell? && KeySchema(store, k).Some? && PadRow(KeySchema(store, k).value, store[k].row).Some?
    then RowCell(PadRow(KeySchema(store, k).value, store[k].row).value)
    else store[k]
  }

  lemma PaddedRelated(store: Store)
    requires Sound(store)
    ensures Related(store, map k | k in store :: PaddedCell(store, k))
  {
    hide Shaped, PkMatches, IsRowKey;
    var eager := map k | k in store :: PaddedCell(store, k);
    forall k | k in store && k in eager && IsRowKey(k) ensures RowRelated(store, eager, k) {
      assert RowSound(store, k);
      PadFits(KeySchema(store, k).value, store[k].row);
    }
  }

  lemma SoundKept(store: Store, stmt: Statement)
    requires Sound(store) && WellFormed(stmt)
    ensures Sound(Execute(store, stmt).0)
  {
    hide Sound, Related, Execute, EagerExecute, WellFormed;
    PaddedRelated(store);
    StatementRelated(store, map k | k in store :: PaddedCell(store, k), stmt);
  }

  /** The row under k fits its table's types. */
  predicate CellTyped(store: Store, k: string)
    requires k in store
  {
    store[k].RowCell? && KeySchema(store, k).Some? ==>
      RowTyped(KeySchema(store, k).value, store[k].row) && PkFound(KeySchema(store, k).value)
  }

  lemma TypedFrom(store: Store)
    requires forall k {:trigger store[k]} | k in store && store[k].SchemaCell? :: SchemaTyped(store[k].schema)
    requires forall k {:trigger CellTyped(store, k)} | k in store && IsRowKey(k) :: CellTyped(store, k)
    ensures Typed(store)
  {
    hide SchemaTyped, RowTyped, PkFound, KeySchema, IsRowKey;
    forall k | k in store && IsRowKey(k) && store[k].RowCell? && KeySchema(store, k).Some?
      ensures RowTyped(KeySchema(store, k).value, store[k].row) && PkFound(KeySchema(store, k).value)
    {
      assert CellTyped(store, k);
    }
  }

  lemma TypedCell(store: Store, k: string)
    requires Typed(store) && k in store && IsRowKey(k)
    ensures CellTyped(store, k)
  {
  }

  lemma CreateDatabaseTyped(store: Store, name: string)
    requires Typed(store)
    ensures Typed(ExecuteCreateDatabase(store, name).0)
  {
    hide SchemaTyped, RowTyped, PkFound, IsRowKey;
    var store' := store[DatabaseKey(name) := Marker];
    KindsApart("", "", "", name);
    forall k | k in store' && IsRowKey(k) ensures CellTyped(store', k) {
      KindsApart("", KeyDb(k), KeyTable(k), name);
      TypedCell(store, k);
    }
    TypedFrom(store');
  }

  lemma CreateTableTyped(store: Store, db: string, table: string, definitions: seq<ColumnDef>)
    requires Sound(store) && Typed(store) && NameOk(db) && NameOk(table) && SchemaTyped(Schema(definitions))
    ensures Typed(ExecuteCreateTable(store, db, table, definitions).0)
  {
    hide SchemaTyped, RowTyped, PkFound, IsRowKey, RowFits, PkMatches, Shaped, KeySchema;
    if SchemaKey(db, table) !in store {
      var store' := store[SchemaKey(db, table) := SchemaCell(Schema(definitions))];
      KindsApart("", db, table, "");
      forall k | k in store' && IsRowKey(k) ensures CellTyped(store', k) {
        assert RowSound(store, k);
        NoSchemaNoRows(store, db, table, k);
        OtherTables(store, db, table, Schema(definitions), k);
        TypedCell(store, k);
      }
      TypedFrom(store');
    }
  }

  lemma {:induction false} FirstIndexStable(columns: seq<ColumnDef>, column: ColumnDef, name: string)
    requires FirstIndex(columns, name).Some?
    ensures FirstIndex(columns + [column], name) == FirstIndex(columns, name)
    decreases |columns|
  {
    if columns[0].name != name {
      FirstIndexStable(columns[1..], column, name);
      assert (columns + [column])[1..] == columns[1..] + [column];
    }
  }

  lemma ExtendedTyped(schema: Schema, column: ColumnDef)
    requires PrimaryKeyIndex(schema).Some? && column.defaultValue.Some? && ValueTyped(column, column.defaultValue.value)
    ensures var extended := Schema(schema.columns + [column]);
            && (SchemaTyped(schema) ==> SchemaTyped(extended)) && (PkFound(schema) ==> PkFound(extended))
    ensures forall row :: RowTyped(schema, row) ==> RowTyped(Schema(schema.columns + [column]), row)
  {
    hide ValueTyped, FirstIndex, FirstPrimary;
    FirstPrimaryStable(schema.columns, column);
    var name := schema.columns[PrimaryKeyIndex(schema).value].name;
    if FirstIndex(schema.columns, name).Some? { FirstIndexStable(schema.columns, column, name); }
  }

  lemma AddColumnTyped(store: Store, db: string, table: string, column: ColumnDef)
    requires Sound(store) && Typed(store) && NameOk(db) && NameOk(table)
    requires column.defaultValue.Some? ==> ValueTyped(column, column.defaultValue.value)
    ensures Typed(ExecuteAddColumn(store, db, table, column).0)
  {
    hide SchemaTyped, RowTyped, PkFound, IsRowKey, RowFits, PkMatches, Shaped, KeySchema, ValueTyped, SchemaKey, ColumnIndex;
    if LoadSchema(store, db, table).Some? && column.defaultValue.Some? {
      var schema := LoadSchema(store, db, table).value;
      var extended := Schema(schema.columns + [column]);
      var store' := store[SchemaKey(db, table) := SchemaCell(extended)];
      KindsApart("", db, table, "");
      assert SchemaOk(schema);
      ExtendedTyped(schema, column);
      forall k | k in store' && IsRowKey(k) ensures CellTyped(store', k) {
        assert RowSound(store, k);
        TypedCell(store, k);
        ExtendedCell(store, db, table, schema, extended, k);
      }
      TypedFrom(store');
    }
  }

  lemma ExtendedCell(store: Store, db: string, table: string, schema: Schema, extended: Schema, k: string)
    requires NameOk(db) && NameOk(table) && LoadSchema(store, db, table) == Some(schema) && Shaped(k) && k in store && IsRowKey(k)
    requires CellTyped(store, k) && (PkFound(schema) ==> PkFound(extended)) && (forall row :: RowTyped(schema, row) ==> RowTyped(extended, row))
    ensures var store' := store[SchemaKey(db, table) := SchemaCell(extended)]; k in store' && CellTyped(store', k)
  {
    hide RowTyped, PkFound, Shaped;
    KindsApart(k, db, table, "");
    if KeyDb(k) != db || KeyTable(k) != table { OtherTables(store, db, table, extended, k); }
  }

  lemma SetRowTyped(store: Store, k: string, row: Row)
    requires Typed(store) && IsRowKey(k) && KeySchema(store, k).Some?
    requires RowTyped(KeySchema(store, k).value, row) && PkFound(KeySchema(store, k).value)
    ensures Typed(store[k := RowCell(row)])
  {
    hide SchemaTyped, RowTyped, PkFound, IsRowKey, KeySchema;
    var store' := store[k := RowCell(row)];
    forall j | j in store' && IsRowKey(j) ensures CellTyped(store', j) {
      SameSchemas(store, store', j);
      if j != k { TypedCell(store, j); }
    }
    TypedFrom(store');
  }

  lemma InsertTyped(store: Store, db: string, table: string, columns: seq<string>, values: seq<string>)
    requires Sound(store) && Typed(store) && NameOk(db) && NameOk(table) && WellTyped(store, Insert(db, table, columns, values))
    ensures Typed(ExecuteInsert(store, db, table, columns, values).0)
  {
    hide Sound, InsertRow, AssignedTyped, RowTyped, PkFound, RowKey, IsRowKey, FirstPrimary;
    if LoadSchema(store, db, table).Some? {
      var schema := LoadSchema(store, db, table).value;
      assert SchemaTyped(schema);
      if InsertRow(schema, columns, values).Filling? && PrimaryKeyIndex(schema).Some? {
        InsertedWell(schema, columns, values);
        var row := InsertRow(schema, columns, values).row;
        if PrimaryKeyIndex(schema).value < |row| {
          RowKeyParts(db, table, row[PrimaryKeyIndex(schema).value]);
          SetRowTyped(store, RowKey(db, table, row[PrimaryKeyIndex(schema).value]), row);
        }
      }
    }
  }

  /** The planned values fit their columns. */
  predicate ChangesTyped(schema: Schema, changes: seq<(nat, string)>) {
    forall i :: 0 <= i < |changes| && changes[i].0 < |schema.columns| ==> ValueTyped(schema.columns[changes[i].0], changes[i].1)
  }

  lemma {:induction false} PlanTyped(schema: Schema, assignments: seq<(string, string)>)
    requires forall i :: 0 <= i < |assignments| ==> AssignedTyped(schema, assignments[i].0, assignments[i].1)
    ensures PlanUpdate(schema, assignments).Plan? ==> ChangesTyped(schema, PlanUpdate(schema, assignments).changes)
    decreases |assignments|
  {
    hide ValueTyped, FirstIndex, FirstPrimary;
    if assignments != [] {
      assert AssignedTyped(schema, assignments[0].0, assignments[0].1);
      PlanTyped(schema, assignments[1..]);
    }
  }

  lemma {:induction false} ChangeTyped(schema: Schema, row: Row, changes: seq<(nat, string)>)
    requires ChangesTyped(schema, changes) && RowTyped(schema, row)
    ensures RowTyped(schema, Change(row, changes))
    decreases |changes|
  {
    hide ValueTyped;
    if changes != [] {
      var row' := if changes[0].0 < |row| then row[changes[0].0 := changes[0].1] else row;
      ChangeTyped(schema, row', changes[1..]);
    }
  }

  lemma AppliedTyped(store: Store, db: string, table: string, where: seq<Condition>, changes: seq<(nat, string)>)
    requires Sound(store) && Typed(store) && NameOk(db) && NameOk(table) && LoadSchema(store, db, table).Some?
    requires ChangesTyped(LoadSchema(store, db, table).value, changes)
    ensures Typed(Applied(store, LoadSchema(store, db, table).value, KeysUnder(store, RowPrefix(db, table)), where, changes))
  {
    hide SchemaTyped, RowTyped, PkFound, IsRowKey, StartsWith, ChangesTyped, RowFits, PkMatches, Shaped, MatchesWhere, Change, PadRow;
    var schema := LoadSchema(store, db, table).value;
    var store' := Applied(store, schema, KeysUnder(store, RowPrefix(db, table)), where, changes);
    forall k | k in store' && !IsRowKey(k) ensures store'[k] == store[k] { PrefixSelects(db, table, k); }
    forall k | k in store' && IsRowKey(k) ensures CellTyped(store', k) {
      SameSchemas(store, store', k);
      TypedCell(store, k);
      assert RowSound(store, k);
      if k in KeysUnder(store, RowPrefix(db, table)) {
        PrefixSelects(db, table, k);
        PadTyped(schema, store[k].row);
        ChangeTyped(schema, PadRow(schema, store[k].row).value, changes);
      }
    }
    forall k | k in store' && store'[k].SchemaCell? ensures SchemaTyped(store'[k].schema) {
      assert store'[k] == store[k];
    }
    TypedFrom(store');
  }

  lemma PrunedTyped(store: Store, schema: Schema, keys: set<string>, where: seq<Condition>)
    requires Typed(store) && forall k :: k in keys ==> IsRowKey(k)
    ensures Typed(Pruned(store, schema, keys, where))
  {
    hide SchemaTyped, RowTyped, PkFound, IsRowKey, Hits;
    var store' := Pruned(store, schema, keys, where);
    forall k | k in store' && IsRowKey(k) ensures CellTyped(store', k) {
      KindsApart(k, KeyDb(k), KeyTable(k), "");
      TypedCell(store, k);
    }
    TypedFrom(store');
  }

  /** Well-typed statements keep a well-typed store. */
  lemma TypedKept(store: Store, stmt: Statement)
    requires Sound(store) && Typed(store) && WellFormed(stmt) && WellTyped(store, stmt)
    ensures Typed(Execute(store, stmt).0)
  {
    hide Sound, Typed, LoadSchema, WhereTyped, AssignedTyped, PlanUpdate, UpdateOver, DeleteOver, ScanRows, Applied, Pruned, KeysUnder, SchemaTyped,
         ValueTyped, ExecuteInsert, ExecuteAddColumn, ExecuteCreateTable, ExecuteCreateDatabase, NameOk, ChangesTyped;
    match stmt
    case CreateDatabase(name) => CreateDatabaseTyped(store, name);
    case CreateTable(db, table, definitions) => CreateTableTyped(store, db, table, definitions);
    case AddColumn(db, table, column) => AddColumnTyped(store, db, table, column);
    case Insert(db, table, columns, values) => InsertTyped(store, db, table, columns, values);
    case Update(db, table, assignments, where) =>
      if LoadSchema(store, db, table).Some? && PlanUpdate(LoadSchema(store, db, table).value, assignments).Plan? {
        UpdateClosed(store, db, table, assignments, where);
        PlanTyped(LoadSchema(store, db, table).value, assignments);
        AppliedTyped(store, db, table, where, PlanUpdate(LoadSchema(store, db, table).value, assignments).changes);
      }
    case Delete(db, table, where) =>
      if LoadSchema(store, db, table).Some? {
        DeleteClosed(store, db, table, where);
        KeysAreRows(store, db, table);
        PrunedTyped(store, LoadSchema(store, db, table).value, KeysUnder(store, RowPrefix(db, table)), where);
      }
    case _ =>
  }

  lemma KeysAreRows(store: Store, db: string, table: string)
    requires NameOk(db) && NameOk(table)
    ensures forall k :: k in KeysUnder(store, RowPrefix(db, table)) ==> IsRowKey(k)
  {
    hide StartsWith, IsRowKey, Shaped;
    forall k | k in KeysUnder(store, RowPrefix(db, table)) ensures IsRowKey(k) { PrefixSelects(db, table, k); }
  }

  // ------------------------------------------------------------------------------------------
  // Runs
  // ------------------------------------------------------------------------------------------

  ghost predicate TypedRun(store: Store, stmts: seq<Statement>)
    decreases |stmts|
  {
    stmts == [] ||
    (WellFormed(stmts[0]) && WellTyped(store, stmts[0]) && TypedRun(Execute(store, stmts[0]).0, stmts[1..]))
  }

  /** The shards at which the statements are entered. */
  predicate Homes(homes: seq<nat>, stmts: seq<Statement>, n: nat) {
    |homes| == |stmts| && forall i :: 0 <= i < |homes| ==> homes[i] < n
  }

  ghost function RunSharded(shards: seq<Store>, routing: Ranges, homes: seq<nat>, stmts: seq<Statement>): (seq<Store>, seq<Reply>)
    requires |shards| == |routing| && Homes(homes, stmts, |shards|)
    decreases |stmts|
  {
    if stmts == [] then (shards, [])
    else
      var (after, reply) := Dispatch(shards, routing, homes[0], stmts[0]);
      SameCount(shards, routing, homes[0], stmts[0]);
      var (last, rest) := RunSharded(after, routing, homes[1..], stmts[1..]);
      (last, [reply] + rest)
  }

  lemma SameCount(shards: seq<Store>, routing: Ranges, home: nat, stmt: Statement)
    requires home < |shards| == |routing|
    ensures |Dispatch(shards, routing, home, stmt).0| == |shards|
  {
    hide Execute, TryExtractRowKey, Owner;
  }

  ghost predicate AllAgree(replies: seq<Reply>, results: seq<Result>) {
    |replies| == |results| && forall i {:trigger replies[i]} | 0 <= i < |replies| :: Agrees(replies[i], results[i])
  }

  lemma {:induction false} RunRefines(single: Store, shards: seq<Store>, routing: Ranges, homes: seq<nat>, stmts: seq<Statement>)
    requires Setting(single, shards, routing) && TypedRun(single, stmts) && Homes(homes, stmts, |shards|)
    ensures Spread(RunLazy(single, stmts).0, RunSharded(shards, routing, homes, stmts).0, routing)
    ensures AllAgree(RunSharded(shards, routing, homes, stmts).1, RunLazy(single, stmts).1)
    decreases |stmts|
  {
    hide Sound, Typed, Part, Partitions, Execute, Dispatch, WellFormed, WellTyped, Agrees;
    if stmts != [] {
      DispatchRefines(single, shards, routing, homes[0], stmts[0]);
      SoundKept(single, stmts[0]);
      TypedKept(single, stmts[0]);
      RunRefines(Execute(single, stmts[0]).0, Dispatch(shards, routing, homes[0], stmts[0]).0, routing, homes[1..], stmts[1..]);
    }
  }

  function EmptyShards(routing: Ranges): (shards: seq<Store>)
    ensures |shards| == |routing| && forall i :: 0 <= i < |shards| ==> shards[i] == map[]
  {
    seq(|routing|, i => map[])
  }

  /** Sharded execution refines single-node execution: over any run of well-typed statements entered
      anywhere, every reply agrees with the undivided database, and the shards together are it. */
  lemma ShardedRefinesSingle(routing: Ranges, homes: seq<nat>, stmts: seq<Statement>)
    requires Partitions(routing) && TypedRun(map[], stmts) && Homes(homes, stmts, |routing|)
    ensures Spread(RunLazy(map[], stmts).0, RunSharded(EmptyShards(routing), routing, homes, stmts).0, routing)
    ensures AllAgree(RunSharded(EmptyShards(routing), routing, homes, stmts).1, RunLazy(map[], stmts).1)
  {
    hide TypedRun, Partitions, RunLazy, RunSharded, Homes;
    RunRefines(map[], EmptyShards(routing), routing, homes, stmts);
  }
}
