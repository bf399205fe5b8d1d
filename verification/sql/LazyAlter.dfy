/**
 ALTER TABLE ADD COLUMN touches only the schema; rows are padded when read. The reference here
 rewrites every row at once and never needs to pad; no sequence of statements can tell the two
 apart.
 */
module SqlLazyAlter {
  import opened Options
  import opened Strings
  import opened SqlAst
  import opened SqlKeys
  import opened SqlNumbers
  import opened SqlExecution

  // ------------------------------------------------------------------------------------------
  // The eager reference
  // ------------------------------------------------------------------------------------------

  function Rewritten(store: Store, prefix: string, value: string): Store {
    map k | k in store :: if StartsWith(k, prefix) && store[k].RowCell? then RowCell(store[k].row + [value]) else store[k]
  }

  function EagerAddColumn(store: Store, db: string, table: string, column: ColumnDef): (Store, Result) {
    match LoadSchema(store, db, table)
    case None => (store, Failed(NoSuchTable))
    case Some(schema) =>
      var (extended, error) := ExtendSchema(schema, column);
      if error.Some? then (store, Failed(error.value))
      else (Rewritten(store, RowPrefix(db, table), column.defaultValue.value)[SchemaKey(db, table) := SchemaCell(extended)], Ok(Done))
  }

  ghost function EagerExecute(store: Store, stmt: Statement): (Store, Result) {
    if stmt.AddColumn? then EagerAddColumn(store, stmt.db, stmt.table, stmt.column) else Execute(store, stmt)
  }

  // ------------------------------------------------------------------------------------------
  // Invariants
  // ------------------------------------------------------------------------------------------

  /** What the parser guarantees: identifiers hold no slash, and a new table has a primary key. */
  predicate WellFormed(stmt: Statement) {
    match stmt
    case CreateDatabase(name) => NameOk(name)
    case CreateTable(db, table, definitions) => NameOk(db) && NameOk(table) && SchemaOk(Schema(definitions))
    case AddColumn(db, table, _) => NameOk(db) && NameOk(table)
    case Insert(db, table, _, _) => NameOk(db) && NameOk(table)
    case Select(db, table, _, _) => NameOk(db) && NameOk(table)
    case Update(db, table, _, _) => NameOk(db) && NameOk(table)
    case Delete(db, table, _) => NameOk(db) && NameOk(table)
    case ShowTables(db) => NameOk(db)
    case ShowDatabases => true
  }

  /** Every column a row lacks has a default. */
  predicate RowFits(schema: Schema, row: Row) {
    |row| <= |schema.columns| && forall i :: |row| <= i < |schema.columns| ==> schema.columns[i].defaultValue.Some?
  }

  function KeySchema(store: Store, k: string): Option<Schema> { LoadSchema(store, KeyDb(k), KeyTable(k)) }

  predicate PkMatches(schema: Schema, row: Row, pk: string) {
    && PrimaryKeyIndex(schema).Some? && PrimaryKeyIndex(schema).value < |row|
    && row[PrimaryKeyIndex(schema).value] == pk
  }

  /** A row cell lies under its own primary key, in a table that exists, and can be padded. */
  predicate RowSound(store: Store, k: string)
    requires k in store
  {
    && Shaped(k) && store[k].RowCell? && KeySchema(store, k).Some?
    && RowFits(KeySchema(store, k).value, store[k].row)
    && PkMatches(KeySchema(store, k).value, store[k].row, KeyPk(k))
  }

  ghost predicate Sound(store: Store) {
    && (forall k {:trigger RowSound(store, k)} | k in store && IsRowKey(k) :: RowSound(store, k))
    && (forall k {:trigger store[k]} | k in store && store[k].SchemaCell? :: SchemaOk(store[k].schema))
  }

  /** The eager row is the lazy row, padded. */
  predicate RowRelated(lazy: Store, eager: Store, k: string)
    requires k in lazy && k in eager
  {
    && lazy[k].RowCell? && eager[k].RowCell? && KeySchema(lazy, k).Some?
    && PadRow(KeySchema(lazy, k).value, lazy[k].row) == Some(eager[k].row)
  }

  ghost predicate Related(lazy: Store, eager: Store) {
    && lazy.Keys == eager.Keys
    && (forall k {:trigger lazy[k]} | k in lazy && !IsRowKey(k) :: k in eager && eager[k] == lazy[k])
    && (forall k {:trigger RowRelated(lazy, eager, k)} | k in lazy && k in eager && IsRowKey(k) :: RowRelated(lazy, eager, k))
  }

  // ------------------------------------------------------------------------------------------
  // Padding
  // ------------------------------------------------------------------------------------------

  lemma {:induction false} PadFits(schema: Schema, row: Row)
    requires RowFits(schema, row)
    ensures PadRow(schema, row).Some? && |PadRow(schema, row).value| == |schema.columns| && row <= PadRow(schema, row).value
    decreases |schema.columns| - |row|
  {
    if |row| < |schema.columns| { PadFits(schema, row + [schema.columns[|row|].defaultValue.value]); }
  }

  lemma PadFull(schema: Schema, row: Row)
    requires |row| >= |schema.columns|
    ensures PadRow(schema, row) == Some(row)
  {
  }

  /** Padding to one more column pads to the old ones first. */
  lemma {:induction false} PadOneMore(schema: Schema, column: ColumnDef, row: Row)
    requires RowFits(schema, row) && column.defaultValue.Some?
    ensures RowFits(Schema(schema.columns + [column]), row)
    ensures PadRow(schema, row).Some?
    ensures PadRow(Schema(schema.columns + [column]), row) == Some(PadRow(schema, row).value + [column.defaultValue.value])
    decreases |schema.columns| - |row|
  {
    var extended := Schema(schema.columns + [column]);
    if |row| < |schema.columns| {
      PadOneMore(schema, column, row + [schema.columns[|row|].defaultValue.value]);
    } else {
      assert PadRow(extended, row + [column.defaultValue.value]) == Some(row + [column.defaultValue.value]);
    }
  }

  lemma {:induction false} FirstPrimaryStable(columns: seq<ColumnDef>, column: ColumnDef)
    requires FirstPrimary(columns).Some?
    ensures FirstPrimary(columns + [column]) == FirstPrimary(columns)
    decreases |columns|
  {
    if !columns[0].primaryKey {
      FirstPrimaryStable(columns[1..], column);
      assert (columns + [column])[1..] == columns[1..] + [column];
    }
  }

  // ------------------------------------------------------------------------------------------
  // Changing one cell
  // ------------------------------------------------------------------------------------------

  lemma SameSchemas(a: Store, b: Store, k: string)
    requires forall j :: !IsRowKey(j) ==> (j in a <==> j in b) && (j in a && j in b ==> a[j] == b[j])
    ensures KeySchema(a, k) == KeySchema(b, k)
  {
    KindsApart(k, KeyDb(k), KeyTable(k), "");
  }

  /** A row may be replaced by a full row with the same primary key, in both stores. */
  lemma SetRow(lazy: Store, eager: Store, k: string, row: Row)
    requires Sound(lazy) && Related(lazy, eager) && IsRowKey(k) && Shaped(k)
    requires KeySchema(lazy, k).Some? && |row| == |KeySchema(lazy, k).value.columns| && PkMatches(KeySchema(lazy, k).value, row, KeyPk(k))
    ensures Sound(lazy[k := RowCell(row)]) && Related(lazy[k := RowCell(row)], eager[k := RowCell(row)])
  {
    hide RowFits, PkMatches, KeySchema, Shaped, IsRowKey, SchemaOk;
    var lazy', eager' := lazy[k := RowCell(row)], eager[k := RowCell(row)];
    forall j ensures KeySchema(lazy', j) == KeySchema(lazy, j) { SameSchemas(lazy, lazy', j); }
    PadFull(KeySchema(lazy, k).value, row);
    FullFits(KeySchema(lazy, k).value, row);
    forall j | j in lazy' && IsRowKey(j) ensures RowSound(lazy', j) {
      if j != k { assert RowSound(lazy, j); }
    }
    forall j | j in lazy' && j in eager' && IsRowKey(j) ensures RowRelated(lazy', eager', j) {
      if j != k { assert RowRelated(lazy, eager, j); }
    }
  }

  lemma FullFits(schema: Schema, row: Row)
    requires |row| == |schema.columns|
    ensures RowFits(schema, row)
  {
  }

  lemma DropRow(lazy: Store, eager: Store, k: string)
    requires Sound(lazy) && Related(lazy, eager) && IsRowKey(k)
    ensures Sound(lazy - {k}) && Related(lazy - {k}, eager - {k})
  {
    hide RowFits, PkMatches, KeySchema, Shaped, IsRowKey, SchemaOk, PadRow;
    forall j ensures KeySchema(lazy - {k}, j) == KeySchema(lazy, j) { SameSchemas(lazy, lazy - {k}, j); }
    forall j | j in lazy - {k} && IsRowKey(j) ensures RowSound(lazy - {k}, j) {
      assert RowSound(lazy, j);
    }
    forall j | j in lazy - {k} && j in eager - {k} && IsRowKey(j) ensures RowRelated(lazy - {k}, eager - {k}, j) {
      assert RowRelated(lazy, eager, j);
    }
  }

  // ------------------------------------------------------------------------------------------
  // Scans
  // ------------------------------------------------------------------------------------------

  /** Same keys, and each eager row is the lazy one padded. */
  predicate EntryRelated(schema: Schema, l: SqlExecution.Entry, e: SqlExecution.Entry) {
    l.key == e.key && PadRow(schema, l.row) == Some(e.row) && |e.row| == |schema.columns|
  }

  predicate EntriesRelated(schema: Schema, ls: seq<SqlExecution.Entry>, es: seq<SqlExecution.Entry>) {
    |ls| == |es| && forall i {:trigger ls[i]} {:trigger es[i]} | 0 <= i < |ls| :: EntryRelated(schema, ls[i], es[i])
  }

  /** The keys of a scan are row keys of the table. */
  predicate EntriesOf(store: Store, db: string, table: string, es: seq<SqlExecution.Entry>) {
    forall i {:trigger es[i]} | 0 <= i < |es| ::
      IsRowKey(es[i].key) && Shaped(es[i].key) && KeyDb(es[i].key) == db && KeyTable(es[i].key) == table
  }

  lemma ScanRelated(lazy: Store, eager: Store, db: string, table: string, schema: Schema)
    requires Sound(lazy) && Related(lazy, eager) && NameOk(db) && NameOk(table) && LoadSchema(lazy, db, table) == Some(schema)
    ensures EntriesRelated(schema, ScanRows(lazy, db, table), ScanRows(eager, db, table))
    ensures EntriesOf(lazy, db, table, ScanRows(lazy, db, table))
    ensures forall i {:trigger ScanRows(lazy, db, table)[i]} | 0 <= i < |ScanRows(lazy, db, table)| ::
              PkMatches(schema, ScanRows(lazy, db, table)[i].row, KeyPk(ScanRows(lazy, db, table)[i].key))
  {
    hide RowFits, PkMatches, Shaped, StartsWith, SchemaOk, PadRow;
    var prefix := RowPrefix(db, table);
    assert KeysUnder(lazy, prefix) == KeysUnder(eager, prefix);
    var keys := ScanKeys(lazy, prefix);
    forall i | 0 <= i < |keys|
      ensures EntryRelated(schema, ScanRows(lazy, db, table)[i], ScanRows(eager, db, table)[i])
      ensures IsRowKey(keys[i]) && Shaped(keys[i]) && KeyDb(keys[i]) == db && KeyTable(keys[i]) == table
      ensures PkMatches(schema, ScanRows(lazy, db, table)[i].row, KeyPk(keys[i]))
    {
      assert keys[i] in KeysUnder(lazy, prefix);
      PrefixSelects(db, table, keys[i]);
      assert RowSound(lazy, keys[i]) && RowRelated(lazy, eager, keys[i]);
      PadFits(schema, lazy[keys[i]].row);
    }
  }

  lemma {:induction false} SelectRelated(schema: Schema, ls: seq<SqlExecution.Entry>, es: seq<SqlExecution.Entry>, where: seq<Condition>, indices: seq<nat>)
    requires EntriesRelated(schema, ls, es)
    ensures SelectOver(schema, ls, where, indices) == SelectOver(schema, es, where, indices)
    decreases |ls|
  {
    hide MatchesWhere, Pick;
    if ls != [] {
      assert EntryRelated(schema, ls[0], es[0]);
      PadFull(schema, es[0].row);
      SelectRelated(schema, ls[1..], es[1..], where, indices);
    }
  }

  /** The planned changes leave the primary key alone. */
  predicate KeepsPk(schema: Schema, changes: seq<(nat, string)>) {
    forall i :: 0 <= i < |changes| ==> Some(changes[i].0) != PrimaryKeyIndex(schema)
  }

  lemma {:induction false} PlanKeepsPk(schema: Schema, assignments: seq<(string, string)>)
    ensures PlanUpdate(schema, assignments).Plan? ==> KeepsPk(schema, PlanUpdate(schema, assignments).changes)
    decreases |assignments|
  {
    if assignments != [] { PlanKeepsPk(schema, assignments[1..]); }
  }

  lemma {:induction false} ChangeKeepsPk(schema: Schema, row: Row, changes: seq<(nat, string)>, pk: string)
    requires KeepsPk(schema, changes) && PkMatches(schema, row, pk)
    ensures PkMatches(schema, Change(row, changes), pk)
    decreases |changes|
  {
    if changes != [] {
      var row' := if changes[0].0 < |row| then row[changes[0].0 := changes[0].1] else row;
      ChangeKeepsPk(schema, row', changes[1..], pk);
    }
  }

  lemma PadKeepsPk(schema: Schema, row: Row, full: Row, pk: string)
    requires PkMatches(schema, row, pk) && row <= full
    ensures PkMatches(schema, full, pk)
  {
  }

  /** A step of the update loop on row `l`, in both stores. */
  lemma UpdateStep(lazy: Store, eager: Store, db: string, table: string, schema: Schema, l: SqlExecution.Entry, e: SqlExecution.Entry, changes: seq<(nat, string)>)
    requires Sound(lazy) && Related(lazy, eager) && LoadSchema(lazy, db, table) == Some(schema) && KeepsPk(schema, changes)
    requires EntryRelated(schema, l, e) && EntriesOf(lazy, db, table, [l]) && PkMatches(schema, e.row, KeyPk(l.key))
    ensures var cell := RowCell(Change(e.row, changes));
            && Sound(lazy[l.key := cell]) && Related(lazy[l.key := cell], eager[l.key := cell])
            && LoadSchema(lazy[l.key := cell], db, table) == Some(schema)
  {
    hide Sound, Related, KeepsPk, PkMatches, Shaped;
    assert [l][0] == l;
    ChangeKeepsPk(schema, e.row, changes, KeyPk(l.key));
    SetRow(lazy, eager, l.key, Change(e.row, changes));
    KindsApart(l.key, db, table, "");
  }

  lemma {:induction false} UpdateRelated(lazy: Store, eager: Store, db: string, table: string, schema: Schema,
      ls: seq<SqlExecution.Entry>, es: seq<SqlExecution.Entry>, where: seq<Condition>, changes: seq<(nat, string)>, count: nat)
    requires Sound(lazy) && Related(lazy, eager) && LoadSchema(lazy, db, table) == Some(schema) && KeepsPk(schema, changes)
    requires EntriesRelated(schema, ls, es) && EntriesOf(lazy, db, table, ls)
    requires forall i {:trigger ls[i]} | 0 <= i < |ls| :: PkMatches(schema, es[i].row, KeyPk(ls[i].key))
    ensures var (lazy', r) := UpdateOver(lazy, schema, ls, where, changes, count);
            var (eager', r') := UpdateOver(eager, schema, es, where, changes, count);
            r == r' && Sound(lazy') && Related(lazy', eager')
    decreases |ls|
  {
    hide Sound, Related, KeepsPk, PkMatches, Shaped, MatchesWhere, LoadSchema, Change;
    if ls != [] {
      assert EntryRelated(schema, ls[0], es[0]);
      PadFull(schema, es[0].row);
      var row := es[0].row;
      if MatchesWhere(schema, row, where).Match? {
        UpdateStep(lazy, eager, db, table, schema, ls[0], es[0], changes);
        var cell := RowCell(Change(row, changes));
        UpdateRelated(lazy[ls[0].key := cell], eager[ls[0].key := cell], db, table, schema, ls[1..], es[1..], where, changes, count + 1);
      } else if MatchesWhere(schema, row, where).NoMatch? {
        UpdateRelated(lazy, eager, db, table, schema, ls[1..], es[1..], where, changes, count);
      }
    }
  }

  lemma {:induction false} DeleteRelated(lazy: Store, eager: Store, db: string, table: string, schema: Schema,
      ls: seq<SqlExecution.Entry>, es: seq<SqlExecution.Entry>, where: seq<Condition>, count: nat)
    requires Sound(lazy) && Related(lazy, eager)
    requires EntriesRelated(schema, ls, es) && EntriesOf(lazy, db, table, ls)
    ensures var (lazy', r) := DeleteOver(lazy, schema, ls, where, count);
            var (eager', r') := DeleteOver(eager, schema, es, where, count);
            r == r' && Sound(lazy') && Related(lazy', eager')
    decreases |ls|
  {
    hide Sound, Related, MatchesWhere;
    if ls != [] {
      assert EntryRelated(schema, ls[0], es[0]);
      PadFull(schema, es[0].row);
      var row := es[0].row;
      if MatchesWhere(schema, row, where).Match? {
        DropRow(lazy, eager, ls[0].key);
        DeleteRelated(lazy - {ls[0].key}, eager - {ls[0].key}, db, table, schema, ls[1..], es[1..], where, count + 1);
      } else if MatchesWhere(schema, row, where).NoMatch? {
        DeleteRelated(lazy, eager, db, table, schema, ls[1..], es[1..], where, count);
      }
    }
  }

  // ------------------------------------------------------------------------------------------
  // Statement by statement
  // ------------------------------------------------------------------------------------------

  lemma SchemasAgree(lazy: Store, eager: Store, db: string, table: string)
    requires Related(lazy, eager)
    ensures LoadSchema(eager, db, table) == LoadSchema(lazy, db, table)
  {
    KindsApart("", db, table, "");
  }

  lemma SelectKeeps(lazy: Store, eager: Store, db: string, table: string, columns: seq<string>, where: seq<Condition>)
    requires Sound(lazy) && Related(lazy, eager) && NameOk(db) && NameOk(table)
    ensures ExecuteSelect(lazy, db, table, columns, where) == ExecuteSelect(eager, db, table, columns, where)
  {
    hide Sound, Related, LoadSchema, ProjectionOf, SelectOver, ScanRows, EntriesRelated;
    SchemasAgree(lazy, eager, db, table);
    if LoadSchema(lazy, db, table).Some? {
      var schema := LoadSchema(lazy, db, table).value;
      ScanRelated(lazy, eager, db, table, schema);
      if ProjectionOf(schema, columns).Projection? {
        SelectRelated(schema, ScanRows(lazy, db, table), ScanRows(eager, db, table), where, ProjectionOf(schema, columns).indices);
      }
    }
  }

  lemma FullPkMatches(schema: Schema, ls: seq<SqlExecution.Entry>, es: seq<SqlExecution.Entry>)
    requires EntriesRelated(schema, ls, es) && forall i {:trigger ls[i]} | 0 <= i < |ls| :: PkMatches(schema, ls[i].row, KeyPk(ls[i].key)) && RowFits(schema, ls[i].row)
    ensures forall i {:trigger ls[i]} | 0 <= i < |ls| :: PkMatches(schema, es[i].row, KeyPk(ls[i].key))
  {
    hide PkMatches, RowFits;
    forall i | 0 <= i < |ls| ensures PkMatches(schema, es[i].row, KeyPk(ls[i].key)) {
      assert EntryRelated(schema, ls[i], es[i]);
      PadFits(schema, ls[i].row);
      PadKeepsPk(schema, ls[i].row, es[i].row, KeyPk(ls[i].key));
    }
  }

  lemma ScanFits(lazy: Store, db: string, table: string, schema: Schema)
    requires Sound(lazy) && NameOk(db) && NameOk(table) && LoadSchema(lazy, db, table) == Some(schema)
    ensures forall i {:trigger ScanRows(lazy, db, table)[i]} | 0 <= i < |ScanRows(lazy, db, table)| :: RowFits(schema, ScanRows(lazy, db, table)[i].row)
  {
    hide RowFits, PkMatches, Shaped, StartsWith;
    var keys := ScanKeys(lazy, RowPrefix(db, table));
    forall i | 0 <= i < |keys| ensures RowFits(schema, RowAt(lazy, keys[i])) {
      assert keys[i] in KeysUnder(lazy, RowPrefix(db, table));
      PrefixSelects(db, table, keys[i]);
      assert RowSound(lazy, keys[i]);
    }
  }

  lemma UpdateKeeps(lazy: Store, eager: Store, db: string, table: string, assignments: seq<(string, string)>, where: seq<Condition>)
    requires Sound(lazy) && Related(lazy, eager) && NameOk(db) && NameOk(table)
    ensures var (lazy', r) := ExecuteUpdate(lazy, db, table, assignments, where);
            var (eager', r') := ExecuteUpdate(eager, db, table, assignments, where);
            r == r' && Sound(lazy') && Related(lazy', eager')
  {
    hide Sound, Related, LoadSchema, PlanUpdate, UpdateOver, ScanRows, EntriesRelated, EntriesOf, PkMatches, RowFits, KeepsPk;
    SchemasAgree(lazy, eager, db, table);
    if LoadSchema(lazy, db, table).Some? {
      var schema := LoadSchema(lazy, db, table).value;
      ScanRelated(lazy, eager, db, table, schema);
      ScanFits(lazy, db, table, schema);
      FullPkMatches(schema, ScanRows(lazy, db, table), ScanRows(eager, db, table));
      PlanKeepsPk(schema, assignments);
      if PlanUpdate(schema, assignments).Plan? {
        UpdateRelated(lazy, eager, db, table, schema, ScanRows(lazy, db, table), ScanRows(eager, db, table), where, PlanUpdate(schema, assignments).changes, 0);
      }
    }
  }

  lemma DeleteKeeps(lazy: Store, eager: Store, db: string, table: string, where: seq<Condition>)
    requires Sound(lazy) && Related(lazy, eager) && NameOk(db) && NameOk(table)
    ensures var (lazy', r) := ExecuteDelete(lazy, db, table, where);
            var (eager', r') := ExecuteDelete(eager, db, table, where);
            r == r' && Sound(lazy') && Related(lazy', eager')
  {
    hide Sound, Related, LoadSchema, DeleteOver, ScanRows, EntriesRelated, EntriesOf, PkMatches;
    SchemasAgree(lazy, eager, db, table);
    if LoadSchema(lazy, db, table).Some? {
      var schema := LoadSchema(lazy, db, table).value;
      ScanRelated(lazy, eager, db, table, schema);
      DeleteRelated(lazy, eager, db, table, schema, ScanRows(lazy, db, table), ScanRows(eager, db, table), where, 0);
    }
  }

  lemma {:induction false} FillSize(schema: Schema, columns: seq<string>, values: seq<string>, row: Row, filled: seq<bool>)
    requires |row| == |filled| == |schema.columns|
    ensures var f := FillRow(schema, columns, values, row, filled); f.Filling? ==> |f.row| == |schema.columns|
    decreases |columns|
  {
    if columns != [] && values != [] {
      var idx := ColumnIndex(schema, columns[0]);
      if idx.Some? { FillSize(schema, columns[1..], values[1..], row[idx.value := values[0]], filled[idx.value := true]); }
    }
  }

  lemma InsertKeeps(lazy: Store, eager: Store, db: string, table: string, columns: seq<string>, values: seq<string>)
    requires Sound(lazy) && Related(lazy, eager) && NameOk(db) && NameOk(table)
    ensures var (lazy', r) := ExecuteInsert(lazy, db, table, columns, values);
            var (eager', r') := ExecuteInsert(eager, db, table, columns, values);
            r == r' && Sound(lazy') && Related(lazy', eager')
  {
    hide Sound, LoadSchema, Related, FillRow, RowKey, IsRowKey, Shaped;
    SchemasAgree(lazy, eager, db, table);
    RelatedKeys(lazy, eager);
    if LoadSchema(lazy, db, table).Some? {
      var schema := LoadSchema(lazy, db, table).value;
      var fill := InsertRow(schema, columns, values);
      if |columns| == |schema.columns| { FillSize(schema, columns, values, Blank(|schema.columns|), Unfilled(|schema.columns|)); }
      var pk := PrimaryKeyIndex(schema);
      if fill.Filling? && pk.Some? {
        var k := RowKey(db, table, fill.row[pk.value]);
        RowKeyParts(db, table, fill.row[pk.value]);
        RowKeyShaped(db, table, fill.row[pk.value]);
        if k !in lazy { SetRow(lazy, eager, k, fill.row); }
      }
    }
  }

  lemma RelatedKeys(lazy: Store, eager: Store)
    requires Related(lazy, eager)
    ensures forall k :: k in lazy <==> k in eager
  {
  }

  lemma CreateDatabaseKeeps(lazy: Store, eager: Store, name: string)
    requires Sound(lazy) && Related(lazy, eager)
    ensures var (lazy', r) := ExecuteCreateDatabase(lazy, name);
            var (eager', r') := ExecuteCreateDatabase(eager, name);
            r == r' && Sound(lazy') && Related(lazy', eager')
  {
    hide RowFits, PkMatches, Shaped, IsRowKey, SchemaOk, PadRow;
    var k := DatabaseKey(name);
    KindsApart("", "", "", name);
    var lazy', eager' := lazy[k := Marker], eager[k := Marker];
    forall j ensures KeySchema(lazy', j) == KeySchema(lazy, j) { KindsApart("", KeyDb(j), KeyTable(j), name); }
    forall j | j in lazy' && IsRowKey(j) ensures RowSound(lazy', j) { assert RowSound(lazy, j); }
    forall j | j in lazy' && j in eager' && IsRowKey(j) ensures RowRelated(lazy', eager', j) { assert RowRelated(lazy, eager, j); }
  }

  /** Installing a schema for a table: rows of other tables see no difference. */
  lemma OtherTables(store: Store, db: string, table: string, schema: Schema, j: string)
    requires NameOk(db) && NameOk(table) && Shaped(j) && (KeyDb(j) != db || KeyTable(j) != table)
    ensures KeySchema(store[SchemaKey(db, table) := SchemaCell(schema)], j) == KeySchema(store, j)
  {
    if SchemaKey(db, table) == SchemaKey(KeyDb(j), KeyTable(j)) { SchemaKeyInjective(db, table, KeyDb(j), KeyTable(j)); }
  }

  lemma CreateTableKeeps(lazy: Store, eager: Store, db: string, table: string, columns: seq<ColumnDef>)
    requires Sound(lazy) && Related(lazy, eager) && NameOk(db) && NameOk(table) && SchemaOk(Schema(columns))
    ensures var (lazy', r) := ExecuteCreateTable(lazy, db, table, columns);
            var (eager', r') := ExecuteCreateTable(eager, db, table, columns);
            r == r' && Sound(lazy') && Related(lazy', eager')
  {
    hide RowFits, PkMatches, Shaped, IsRowKey, SchemaOk, PadRow, KeySchema;
    var k := SchemaKey(db, table);
    KindsApart("", db, table, db);
    if k !in lazy {
      var cell := SchemaCell(Schema(columns));
      var lazy', eager' := lazy[k := cell], eager[k := cell];
      forall j | j in lazy && IsRowKey(j) ensures Shaped(j) && KeySchema(lazy', j) == KeySchema(lazy, j) {
        assert RowSound(lazy, j);
        NoSchemaNoRows(lazy, db, table, j);
        OtherTables(lazy, db, table, Schema(columns), j);
      }
      forall j | j in lazy' && IsRowKey(j) ensures RowSound(lazy', j) { assert RowSound(lazy, j); }
      forall j | j in lazy' && j in eager' && IsRowKey(j) ensures RowRelated(lazy', eager', j) { assert RowRelated(lazy, eager, j); }
    }
  }

  lemma NoSchemaNoRows(store: Store, db: string, table: string, j: string)
    requires SchemaKey(db, table) !in store && KeySchema(store, j).Some?
    ensures KeyDb(j) != db || KeyTable(j) != table
  {
  }

  lemma AddColumnKeeps(lazy: Store, eager: Store, db: string, table: string, column: ColumnDef)
    requires Sound(lazy) && Related(lazy, eager) && NameOk(db) && NameOk(table)
    ensures var (lazy', r) := ExecuteAddColumn(lazy, db, table, column);
            var (eager', r') := EagerAddColumn(eager, db, table, column);
            r == r' && Sound(lazy') && Related(lazy', eager')
  {
    hide RowFits, PkMatches, Shaped, IsRowKey, PadRow, KeySchema, StartsWith, FirstPrimary, RowPrefix, SchemaKey, ValidInt;
    SchemasAgree(lazy, eager, db, table);
    if LoadSchema(lazy, db, table).Some? {
      var schema := LoadSchema(lazy, db, table).value;
      var (extended, error) := ExtendSchema(schema, column);
      if error.None? {
        var k := SchemaKey(db, table);
        var value := column.defaultValue.value;
        var lazy' := lazy[k := SchemaCell(extended)];
        var eager' := Rewritten(eager, RowPrefix(db, table), value)[k := SchemaCell(extended)];
        KindsApart("", db, table, db);
        FirstPrimaryStable(schema.columns, column);
        forall j | j in lazy && IsRowKey(j) ensures RowSound(lazy', j) && RowRelated(lazy', eager', j) {
          assert RowSound(lazy, j) && RowRelated(lazy, eager, j);
          ExtendedRow(lazy, eager, db, table, schema, column, j);
        }
        forall j | j in lazy && !IsRowKey(j) ensures !StartsWith(j, RowPrefix(db, table)) { PrefixSelects(db, table, j); }
      }
    }
  }

  lemma ExtendedRow(lazy: Store, eager: Store, db: string, table: string, schema: Schema, column: ColumnDef, j: string)
    requires NameOk(db) && NameOk(table) && LoadSchema(lazy, db, table) == Some(schema) && column.defaultValue.Some? && SchemaOk(schema)
    requires j in lazy && j in eager && IsRowKey(j) && RowSound(lazy, j) && RowRelated(lazy, eager, j)
    ensures var extended := Schema(schema.columns + [column]); var k := SchemaKey(db, table);
            var lazy' := lazy[k := SchemaCell(extended)];
            var eager' := Rewritten(eager, RowPrefix(db, table), column.defaultValue.value)[k := SchemaCell(extended)];
            j in lazy' && j in eager' && RowSound(lazy', j) && RowRelated(lazy', eager', j)
  {
    hide Shaped, IsRowKey, PadRow, StartsWith, FirstPrimary, RowPrefix, SchemaKey;
    KindsApart(j, db, table, "");
    PrefixSelects(db, table, j);
    FirstPrimaryStable(schema.columns, column);
    if KeyDb(j) == db && KeyTable(j) == table {
      PadOneMore(schema, column, lazy[j].row);
    } else {
      OtherTables(lazy, db, table, Schema(schema.columns + [column]), j);
    }
  }

  lemma ListingsAgree(lazy: Store, eager: Store, prefix: string)
    requires Related(lazy, eager)
    ensures ScanKeys(lazy, prefix) == ScanKeys(eager, prefix)
  {
    assert KeysUnder(lazy, prefix) == KeysUnder(eager, prefix);
  }

  /** One statement: same result, and the stores stay related. */
  lemma StatementRelated(lazy: Store, eager: Store, stmt: Statement)
    requires Sound(lazy) && Related(lazy, eager) && WellFormed(stmt)
    ensures Execute(lazy, stmt).1 == EagerExecute(eager, stmt).1
    ensures Sound(Execute(lazy, stmt).0) && Related(Execute(lazy, stmt).0, EagerExecute(eager, stmt).0)
  {
    hide Sound, Related, ExecuteSelect, ExecuteUpdate, ExecuteDelete, ExecuteInsert, ExecuteAddColumn, EagerAddColumn,
         ExecuteCreateTable, ExecuteCreateDatabase, ScanKeys, NameOk, SchemaOk;
    RelatedKeys(lazy, eager);
    match stmt
    case CreateDatabase(name) => CreateDatabaseKeeps(lazy, eager, name);
    case CreateTable(db, table, definitions) => CreateTableKeeps(lazy, eager, db, table, definitions);
    case AddColumn(db, table, column) => AddColumnKeeps(lazy, eager, db, table, column);
    case Insert(db, table, columns, values) => InsertKeeps(lazy, eager, db, table, columns, values);
    case Select(db, table, columns, where) => SelectKeeps(lazy, eager, db, table, columns, where);
    case Update(db, table, assignments, where) => UpdateKeeps(lazy, eager, db, table, assignments, where);
    case Delete(db, table, where) => DeleteKeeps(lazy, eager, db, table, where);
    case ShowTables(db) => ListingsAgree(lazy, eager, SchemaPrefix(db));
    case ShowDatabases => ListingsAgree(lazy, eager, DATABASE_PREFIX);
  }

  // ------------------------------------------------------------------------------------------
  // Whole runs
  // ------------------------------------------------------------------------------------------

  ghost function RunLazy(store: Store, stmts: seq<Statement>): (Store, seq<Result>)
    decreases |stmts|
  {
    if stmts == [] then (store, [])
    else
      var (store', r) := Execute(store, stmts[0]);
      var (last, rest) := RunLazy(store', stmts[1..]);
      (last, [r] + rest)
  }

  ghost function RunEager(store: Store, stmts: seq<Statement>): (Store, seq<Result>)
    decreases |stmts|
  {
    if stmts == [] then (store, [])
    else
      var (store', r) := EagerExecute(store, stmts[0]);
      var (last, rest) := RunEager(store', stmts[1..]);
      (last, [r] + rest)
  }

  lemma {:induction false} RunsRelated(lazy: Store, eager: Store, stmts: seq<Statement>)
    requires Sound(lazy) && Related(lazy, eager) && forall i {:trigger stmts[i]} | 0 <= i < |stmts| :: WellFormed(stmts[i])
    ensures RunLazy(lazy, stmts).1 == RunEager(eager, stmts).1
    ensures Sound(RunLazy(lazy, stmts).0) && Related(RunLazy(lazy, stmts).0, RunEager(eager, stmts).0)
    decreases |stmts|
  {
    hide Sound, Related, Execute, EagerExecute, WellFormed;
    if stmts != [] {
      StatementRelated(lazy, eager, stmts[0]);
      RunsRelated(Execute(lazy, stmts[0]).0, EagerExecute(eager, stmts[0]).0, stmts[1..]);
    }
  }

  /** Lazy ALTER equals eager ALTER: for every sequence of statements, every result is the same. */
  lemma LazyEqualsEager(stmts: seq<Statement>)
    requires forall i {:trigger stmts[i]} | 0 <= i < |stmts| :: WellFormed(stmts[i])
    ensures RunLazy(map[], stmts).1 == RunEager(map[], stmts).1
    ensures Sound(RunLazy(map[], stmts).0) && Related(RunLazy(map[], stmts).0, RunEager(map[], stmts).0)
  {
    hide RunLazy, RunEager;
    RunsRelated(map[], map[], stmts);
  }

  /** In every reachable state, reading any row finds a default for each column it lacks; and an eager
      row never lacks one. */
  lemma DefaultNeverMissing(stmts: seq<Statement>, k: string)
    requires forall i {:trigger stmts[i]} | 0 <= i < |stmts| :: WellFormed(stmts[i])
    requires k in RunLazy(map[], stmts).0 && IsRowKey(k)
    ensures var store := RunLazy(map[], stmts).0; var eager := RunEager(map[], stmts).0;
            && store[k].RowCell? && KeySchema(store, k).Some? && PadRow(KeySchema(store, k).value, store[k].row).Some?
            && k in eager && eager[k].RowCell? && |eager[k].row| == |KeySchema(store, k).value.columns|
  {
    hide RunLazy, RunEager, PkMatches, KeySchema, Shaped, IsRowKey;
    LazyEqualsEager(stmts);
    var store := RunLazy(map[], stmts).0;
    assert RowSound(store, k) && RowRelated(store, RunEager(map[], stmts).0, k);
    PadFits(KeySchema(store, k).value, store[k].row);
  }

  // ------------------------------------------------------------------------------------------
  // No statement ever meets an unreadable row
  // ------------------------------------------------------------------------------------------

  lemma {:induction false} FullRowsMatch(schema: Schema, row: Row, where: seq<Condition>)
    requires |row| == |schema.columns|
    ensures MatchesWhere(schema, row, where) != Throws(UnreadableRow)
    decreases |where|
  {
    if where != [] { FullRowsMatch(schema, row, where[1..]); }
  }

  predicate AllFit(schema: Schema, es: seq<SqlExecution.Entry>) {
    forall i {:trigger es[i]} | 0 <= i < |es| :: RowFits(schema, es[i].row)
  }

  lemma {:induction false} SelectReadable(schema: Schema, es: seq<SqlExecution.Entry>, where: seq<Condition>, indices: seq<nat>)
    requires AllFit(schema, es)
    ensures SelectOver(schema, es, where, indices) != PickFailed(UnreadableRow)
    decreases |es|
  {
    hide MatchesWhere, Pick, RowFits;
    if es != [] {
      PadFits(schema, es[0].row);
      FullRowsMatch(schema, PadRow(schema, es[0].row).value, where);
      SelectReadable(schema, es[1..], where, indices);
    }
  }

  lemma {:induction false} UpdateReadable(store: Store, schema: Schema, es: seq<SqlExecution.Entry>, where: seq<Condition>, changes: seq<(nat, string)>, count: nat)
    requires AllFit(schema, es)
    ensures UpdateOver(store, schema, es, where, changes, count).1 != Failed(UnreadableRow)
    decreases |es|
  {
    hide MatchesWhere, RowFits, Change;
    if es != [] {
      PadFits(schema, es[0].row);
      var row := PadRow(schema, es[0].row).value;
      FullRowsMatch(schema, row, where);
      UpdateReadable(store, schema, es[1..], where, changes, count);
      UpdateReadable(store[es[0].key := RowCell(Change(row, changes))], schema, es[1..], where, changes, count + 1);
    }
  }

  lemma {:induction false} DeleteReadable(store: Store, schema: Schema, es: seq<SqlExecution.Entry>, where: seq<Condition>, count: nat)
    requires AllFit(schema, es)
    ensures DeleteOver(store, schema, es, where, count).1 != Failed(UnreadableRow)
    decreases |es|
  {
    hide MatchesWhere, RowFits;
    if es != [] {
      PadFits(schema, es[0].row);
      FullRowsMatch(schema, PadRow(schema, es[0].row).value, where);
      DeleteReadable(store, schema, es[1..], where, count);
      DeleteReadable(store - {es[0].key}, schema, es[1..], where, count + 1);
    }
  }

  lemma {:induction false} FillReadable(schema: Schema, columns: seq<string>, values: seq<string>, row: Row, filled: seq<bool>)
    requires |row| == |filled| == |schema.columns|
    ensures FillRow(schema, columns, values, row, filled) != Stopped(UnreadableRow)
    decreases |columns|
  {
    if columns != [] && values != [] {
      var idx := ColumnIndex(schema, columns[0]);
      if idx.Some? { FillReadable(schema, columns[1..], values[1..], row[idx.value := values[0]], filled[idx.value := true]); }
    }
  }

  lemma {:induction false} PlanReadable(schema: Schema, assignments: seq<(string, string)>)
    ensures PlanUpdate(schema, assignments) != PlanFailed(UnreadableRow)
    decreases |assignments|
  {
    if assignments != [] { PlanReadable(schema, assignments[1..]); }
  }

  lemma InsertReadable(store: Store, db: string, table: string, columns: seq<string>, values: seq<string>)
    requires Sound(store)
    ensures ExecuteInsert(store, db, table, columns, values).1 != Failed(UnreadableRow)
  {
    hide FillRow, RowSound;
    if LoadSchema(store, db, table).Some? {
      var schema := LoadSchema(store, db, table).value;
      assert SchemaOk(schema);
      FillReadable(schema, columns, values, Blank(|schema.columns|), Unfilled(|schema.columns|));
      if |columns| == |schema.columns| { FillSize(schema, columns, values, Blank(|schema.columns|), Unfilled(|schema.columns|)); }
    }
  }

  lemma ScanAllFit(store: Store, db: string, table: string)
    requires Sound(store) && NameOk(db) && NameOk(table)
    ensures LoadSchema(store, db, table).Some? ==> AllFit(LoadSchema(store, db, table).value, ScanRows(store, db, table))
  {
    hide Sound, RowFits;
    if LoadSchema(store, db, table).Some? { ScanFits(store, db, table, LoadSchema(store, db, table).value); }
  }

  /** No statement, in any reachable state, fails on a missing default or a short row. */
  lemma NeverUnreadable(store: Store, stmt: Statement)
    requires Sound(store) && WellFormed(stmt)
    ensures Execute(store, stmt).1 != Failed(UnreadableRow)
  {
    hide Sound, ExecuteInsert, SelectOver, UpdateOver, DeleteOver, PlanUpdate, ScanRows, AllFit;
    match stmt
    case Insert(db, table, columns, values) => InsertReadable(store, db, table, columns, values);
    case Select(db, table, columns, where) =>
      ScanAllFit(store, db, table);
      if LoadSchema(store, db, table).Some? && ProjectionOf(LoadSchema(store, db, table).value, columns).Projection? {
        var schema := LoadSchema(store, db, table).value;
        SelectReadable(schema, ScanRows(store, db, table), where, ProjectionOf(schema, columns).indices);
      }
    case Update(db, table, assignments, where) =>
      ScanAllFit(store, db, table);
      if LoadSchema(store, db, table).Some? {
        var schema := LoadSchema(store, db, table).value;
        PlanReadable(schema, assignments);
        if PlanUpdate(schema, assignments).Plan? {
          UpdateReadable(store, schema, ScanRows(store, db, table), where, PlanUpdate(schema, assignments).changes, 0);
        }
      }
    case Delete(db, table, where) =>
      ScanAllFit(store, db, table);
      if LoadSchema(store, db, table).Some? {
        DeleteReadable(store, LoadSchema(store, db, table).value, ScanRows(store, db, table), where, 0);
      }
    case _ =>
  }
}
