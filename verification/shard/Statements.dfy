/**
 What well-typed statements do to a store, cell by cell: the loops over a table's rows in closed
 form. No comparison of a well-typed statement can throw, so no loop stops half way.
 */
module ShardStatements {
  import opened Options
  import opened Strings
  import opened SqlAst
  import opened SqlKeys
  import opened SqlNumbers
  import opened SqlExecution
  import opened SqlLazyAlter

  type Entries = seq<SqlExecution.Entry>

  // ------------------------------------------------------------------------------------------
  // Types
  // ------------------------------------------------------------------------------------------

  predicate ValueTyped(column: ColumnDef, value: string) { column.columnType == Int ==> ReadNumber(value).Some? }

  predicate RowTyped(schema: Schema, row: Row) {
    |row| <= |schema.columns| && forall i :: 0 <= i < |row| ==> ValueTyped(schema.columns[i], row[i])
  }

  /** A TEXT primary key, and defaults of the column's type. */
  predicate SchemaTyped(schema: Schema) {
    && PrimaryKeyIndex(schema).Some? && schema.columns[PrimaryKeyIndex(schema).value].columnType == Text
    && forall i :: 0 <= i < |schema.columns| && schema.columns[i].defaultValue.Some? ==>
         ValueTyped(schema.columns[i], schema.columns[i].defaultValue.value)
  }

  /** The primary key column is found under its own name. */
  predicate PkFound(schema: Schema) {
    && PrimaryKeyIndex(schema).Some?
    && ColumnIndex(schema, schema.columns[PrimaryKeyIndex(schema).value].name) == PrimaryKeyIndex(schema)
  }

  ghost predicate Typed(store: Store) {
    && (forall k {:trigger store[k]} | k in store && store[k].SchemaCell? :: SchemaTyped(store[k].schema))
    && (forall k {:trigger KeySchema(store, k)} | k in store && IsRowKey(k) && store[k].RowCell? && KeySchema(store, k).Some? ::
          RowTyped(KeySchema(store, k).value, store[k].row) && PkFound(KeySchema(store, k).value))
  }

  predicate WhereTyped(schema: Schema, where: seq<Condition>) {
    forall i :: 0 <= i < |where| ==>
      var idx := ColumnIndex(schema, where[i].column);
      idx.Some? && ValueTyped(schema.columns[idx.value], where[i].literal)
  }

  predicate AssignedTyped(schema: Schema, column: string, value: string) {
    var idx := ColumnIndex(schema, column);
    idx.Some? ==> ValueTyped(schema.columns[idx.value], value)
  }

  /** Literals fit the columns they are compared with or stored in; where-clauses name real columns. */
  predicate WellTyped(store: Store, stmt: Statement) {
    match stmt
    case CreateTable(_, _, definitions) => SchemaTyped(Schema(definitions))
    case AddColumn(_, _, column) => column.defaultValue.Some? ==> ValueTyped(column, column.defaultValue.value)
    case Insert(db, table, columns, values) =>
      LoadSchema(store, db, table).Some? ==>
        forall i :: 0 <= i < |columns| && i < |values| ==> AssignedTyped(LoadSchema(store, db, table).value, columns[i], values[i])
    case Select(db, table, _, where) =>
      LoadSchema(store, db, table).Some? ==> WhereTyped(LoadSchema(store, db, table).value, where)
    case Update(db, table, assignments, where) =>
      LoadSchema(store, db, table).Some? ==>
        && WhereTyped(LoadSchema(store, db, table).value, where)
        && forall i :: 0 <= i < |assignments| ==> AssignedTyped(LoadSchema(store, db, table).value, assignments[i].0, assignments[i].1)
    case Delete(db, table, where) =>
      LoadSchema(store, db, table).Some? ==> WhereTyped(LoadSchema(store, db, table).value, where)
    case _ => true
  }

  lemma {:induction false} PadTyped(schema: Schema, row: Row)
    requires RowFits(schema, row) && RowTyped(schema, row) && SchemaTyped(schema)
    ensures PadRow(schema, row).Some? && RowTyped(schema, PadRow(schema, row).value) && |PadRow(schema, row).value| == |schema.columns|
    decreases |schema.columns| - |row|
  {
    hide ValueTyped, PrimaryKeyIndex;
    if |row| < |schema.columns| { PadTyped(schema, row + [schema.columns[|row|].defaultValue.value]); }
  }

  lemma {:induction false} TypedVerdict(schema: Schema, row: Row, where: seq<Condition>)
    requires RowTyped(schema, row) && |row| == |schema.columns| && WhereTyped(schema, where)
    ensures !MatchesWhere(schema, row, where).Throws?
    decreases |where|
  {
    hide ReadNumber;
    if where != [] {
      var idx := ColumnIndex(schema, where[0].column);
      assert ValueTyped(schema.columns[idx.value], where[0].literal) && ValueTyped(schema.columns[idx.value], row[idx.value]);
      TypedVerdict(schema, row, where[1..]);
    }
  }

  // ------------------------------------------------------------------------------------------
  // Rows hit by a where-clause
  // ------------------------------------------------------------------------------------------

  predicate Hits(schema: Schema, row: Row, where: seq<Condition>) {
    PadRow(schema, row).Some? && MatchesWhere(schema, PadRow(schema, row).value, where).Match?
  }

  function NewRow(schema: Schema, row: Row, where: seq<Condition>, changes: seq<(nat, string)>): Row {
    if Hits(schema, row, where) then Change(PadRow(schema, row).value, changes) else row
  }

  /** Reading and comparing this row throws nothing. */
  predicate Clean(schema: Schema, row: Row, where: seq<Condition>) {
    PadRow(schema, row).Some? && !MatchesWhere(schema, PadRow(schema, row).value, where).Throws?
  }

  predicate AllClean(schema: Schema, es: Entries, where: seq<Condition>) {
    forall i {:trigger es[i]} | 0 <= i < |es| :: Clean(schema, es[i].row, where)
  }

  function CountHits(schema: Schema, es: Entries, where: seq<Condition>): nat
    decreases |es|
  {
    if es == [] then 0 else (if Hits(schema, es[0].row, where) then 1 else 0) + CountHits(schema, es[1..], where)
  }

  function HitRow(schema: Schema, row: Row, where: seq<Condition>, indices: seq<nat>): seq<Row> {
    if Hits(schema, row, where) then [Pick(PadRow(schema, row).value, indices)] else []
  }

  function HitRows(schema: Schema, es: Entries, where: seq<Condition>, indices: seq<nat>): seq<Row>
    decreases |es|
  {
    if es == [] then [] else HitRow(schema, es[0].row, where, indices) + HitRows(schema, es[1..], where, indices)
  }

  lemma {:induction false} SelectMeaning(schema: Schema, es: Entries, where: seq<Condition>, indices: seq<nat>)
    requires AllClean(schema, es, where)
    ensures SelectOver(schema, es, where, indices) == Picked(HitRows(schema, es, where, indices))
    decreases |es|
  {
    hide PadRow, MatchesWhere, Pick;
    if es != [] {
      assert Clean(schema, es[0].row, where);
      SelectMeaning(schema, es[1..], where, indices);
    }
  }

  lemma {:induction false} HitRowsConcat(schema: Schema, a: Entries, b: Entries, where: seq<Condition>, indices: seq<nat>)
    ensures HitRows(schema, a + b, where, indices) == HitRows(schema, a, where, indices) + HitRows(schema, b, where, indices)
    ensures CountHits(schema, a + b, where) == CountHits(schema, a, where) + CountHits(schema, b, where)
    decreases |a|
  {
    hide Hits, HitRow;
    if a == [] {
      assert a + b == b && [] + HitRows(schema, b, where, indices) == HitRows(schema, b, where, indices);
    } else {
      HitRowsConcat(schema, a[1..], b, where, indices);
      assert (a + b)[1..] == a[1..] + b;
      var head := HitRow(schema, a[0].row, where, indices);
      assert head + (HitRows(schema, a[1..], where, indices) + HitRows(schema, b, where, indices))
          == head + HitRows(schema, a[1..], where, indices) + HitRows(schema, b, where, indices);
    }
  }

  lemma {:induction false} NoHits(schema: Schema, es: Entries, where: seq<Condition>, indices: seq<nat>)
    requires forall i {:trigger es[i]} | 0 <= i < |es| :: !Hits(schema, es[i].row, where)
    ensures HitRows(schema, es, where, indices) == [] && CountHits(schema, es, where) == 0
    decreases |es|
  {
    hide Hits;
    if es != [] { NoHits(schema, es[1..], where, indices); }
  }

  // ------------------------------------------------------------------------------------------
  // Update and delete in closed form
  // ------------------------------------------------------------------------------------------

  /** These keys' rows, hit or not, after an update. */
  function Applied(store: Store, schema: Schema, keys: set<string>, where: seq<Condition>, changes: seq<(nat, string)>): Store {
    map k | k in store :: if k in keys && store[k].RowCell? then RowCell(NewRow(schema, store[k].row, where, changes)) else store[k]
  }

  function Pruned(store: Store, schema: Schema, keys: set<string>, where: seq<Condition>): Store {
    map k | k in store && !(k in keys && store[k].RowCell? && Hits(schema, store[k].row, where)) :: store[k]
  }

  function KeysOf(es: Entries): set<string> { set i | 0 <= i < |es| :: es[i].key }

  /** The entries are cells of the store, each once. */
  ghost predicate CellsOf(store: Store, es: Entries) {
    && (forall i {:trigger es[i]} | 0 <= i < |es| :: es[i].key in store && store[es[i].key] == RowCell(es[i].row))
    && (forall i, j {:trigger es[i], es[j]} | 0 <= i < j < |es| :: es[i].key != es[j].key)
  }

  lemma HeadKey(es: Entries)
    requires es != []
    ensures KeysOf(es) == {es[0].key} + KeysOf(es[1..])
  {
    assert es[0].key in KeysOf(es);
    forall k | k in KeysOf(es) ensures k in {es[0].key} + KeysOf(es[1..]) {
      var i :| 0 <= i < |es| && es[i].key == k;
      if i > 0 { assert es[1..][i - 1].key == k; }
    }
    forall k | k in KeysOf(es[1..]) ensures k in KeysOf(es) {
      var i :| 0 <= i < |es[1..]| && es[1..][i].key == k;
      assert es[i + 1].key == k;
    }
  }

  lemma HeadDistinct(store: Store, es: Entries)
    requires CellsOf(store, es) && es != []
    ensures es[0].key !in KeysOf(es[1..]) && CellsOf(store, es[1..])
  {
  }

  lemma AppliedHead(store: Store, schema: Schema, es: Entries, where: seq<Condition>, changes: seq<(nat, string)>)
    requires CellsOf(store, es) && es != []
    ensures var store' := store[es[0].key := RowCell(NewRow(schema, es[0].row, where, changes))];
            && Applied(store', schema, KeysOf(es[1..]), where, changes) == Applied(store, schema, KeysOf(es), where, changes)
            && CellsOf(store', es[1..])
    ensures !Hits(schema, es[0].row, where) ==>
              Applied(store, schema, KeysOf(es[1..]), where, changes) == Applied(store, schema, KeysOf(es), where, changes)
  {
    hide Hits, KeysOf, Change, PadRow;
    HeadKey(es);
    HeadDistinct(store, es);
  }

  lemma {:induction false} UpdateMeaning(store: Store, schema: Schema, es: Entries, where: seq<Condition>, changes: seq<(nat, string)>, count: nat)
    requires AllClean(schema, es, where) && CellsOf(store, es)
    ensures UpdateOver(store, schema, es, where, changes, count)
         == (Applied(store, schema, KeysOf(es), where, changes), Ok(Changed(count + CountHits(schema, es, where))))
    decreases |es|
  {
    hide PadRow, MatchesWhere, Applied, KeysOf, CellsOf, Change;
    if es == [] {
      NothingApplied(store, schema, where, changes);
    } else {
      assert Clean(schema, es[0].row, where);
      AppliedHead(store, schema, es, where, changes);
      HeadDistinct(store, es);
      if Hits(schema, es[0].row, where) {
        UpdateMeaning(store[es[0].key := RowCell(NewRow(schema, es[0].row, where, changes))], schema, es[1..], where, changes, count + 1);
      } else {
        UpdateMeaning(store, schema, es[1..], where, changes, count);
      }
    }
  }

  lemma NothingApplied(store: Store, schema: Schema, where: seq<Condition>, changes: seq<(nat, string)>)
    ensures Applied(store, schema, KeysOf([]), where, changes) == store && Pruned(store, schema, KeysOf([]), where) == store
  {
  }

  lemma PrunedHead(store: Store, schema: Schema, es: Entries, where: seq<Condition>)
    requires CellsOf(store, es) && es != []
    ensures CellsOf(store - {es[0].key}, es[1..])
    ensures Hits(schema, es[0].row, where) ==> Pruned(store - {es[0].key}, schema, KeysOf(es[1..]), where) == Pruned(store, schema, KeysOf(es), where)
    ensures !Hits(schema, es[0].row, where) ==> Pruned(store, schema, KeysOf(es[1..]), where) == Pruned(store, schema, KeysOf(es), where)
  {
    hide Hits, KeysOf;
    HeadKey(es);
    HeadDistinct(store, es);
  }

  lemma {:induction false} DeleteMeaning(store: Store, schema: Schema, es: Entries, where: seq<Condition>, count: nat)
    requires AllClean(schema, es, where) && CellsOf(store, es)
    ensures DeleteOver(store, schema, es, where, count)
         == (Pruned(store, schema, KeysOf(es), where), Ok(Changed(count + CountHits(schema, es, where))))
    decreases |es|
  {
    hide PadRow, MatchesWhere, Pruned, KeysOf, CellsOf, Applied;
    if es == [] {
      NothingApplied(store, schema, where, []);
    } else {
      assert Clean(schema, es[0].row, where);
      PrunedHead(store, schema, es, where);
      HeadDistinct(store, es);
      if Hits(schema, es[0].row, where) {
        DeleteMeaning(store - {es[0].key}, schema, es[1..], where, count + 1);
      } else {
        DeleteMeaning(store, schema, es[1..], where, count);
      }
    }
  }

  // ------------------------------------------------------------------------------------------
  // A table's scan
  // ------------------------------------------------------------------------------------------

  lemma RowKeyOfTable(store: Store, db: string, table: string, k: string)
    requires Sound(store) && NameOk(db) && NameOk(table) && LoadSchema(store, db, table).Some?
    requires k in store && StartsWith(k, RowPrefix(db, table))
    ensures IsRowKey(k) && RowSound(store, k) && KeySchema(store, k) == LoadSchema(store, db, table) && k == RowKey(db, table, KeyPk(k))
  {
    hide RowSound, StartsWith, Shaped;
    PrefixSelects(db, table, k);
  }

  lemma ScanCells(store: Store, db: string, table: string)
    requires Sound(store) && NameOk(db) && NameOk(table) && LoadSchema(store, db, table).Some?
    ensures CellsOf(store, ScanRows(store, db, table)) && KeysOf(ScanRows(store, db, table)) == KeysUnder(store, RowPrefix(db, table))
  {
    hide Sound, StartsWith, LoadSchema, Shaped;
    var keys := ScanKeys(store, RowPrefix(db, table));
    var es := ScanRows(store, db, table);
    forall i | 0 <= i < |es| ensures es[i].key in store && store[es[i].key] == RowCell(es[i].row) {
      assert keys[i] in KeysUnder(store, RowPrefix(db, table));
      RowKeyOfTable(store, db, table, keys[i]);
    }
    forall i, j | 0 <= i < j < |es| ensures es[i].key != es[j].key {
      LessIrreflexive(keys[i]);
      assert Less(keys[i], keys[j]);
    }
    forall k | k in KeysUnder(store, RowPrefix(db, table)) ensures k in KeysOf(es) {
      assert k in keys;
      var i :| 0 <= i < |keys| && keys[i] == k;
      assert es[i].key == k;
    }
  }

  lemma ScanClean(store: Store, db: string, table: string, where: seq<Condition>)
    requires Sound(store) && Typed(store) && NameOk(db) && NameOk(table) && LoadSchema(store, db, table).Some?
    requires WhereTyped(LoadSchema(store, db, table).value, where)
    ensures AllClean(LoadSchema(store, db, table).value, ScanRows(store, db, table), where)
  {
    hide StartsWith, Shaped, WhereTyped, RowTyped, SchemaTyped, PkMatches, RowFits, MatchesWhere, PadRow;
    var schema := LoadSchema(store, db, table).value;
    var keys := ScanKeys(store, RowPrefix(db, table));
    forall i | 0 <= i < |keys| ensures Clean(schema, RowAt(store, keys[i]), where) {
      assert keys[i] in KeysUnder(store, RowPrefix(db, table));
      RowKeyOfTable(store, db, table, keys[i]);
      assert RowTyped(schema, store[keys[i]].row);
      PadTyped(schema, store[keys[i]].row);
      TypedVerdict(schema, PadRow(schema, store[keys[i]].row).value, where);
    }
  }

  /** A whole-table update, cell by cell. */
  lemma UpdateClosed(store: Store, db: string, table: string, assignments: seq<(string, string)>, where: seq<Condition>)
    requires Sound(store) && Typed(store) && NameOk(db) && NameOk(table) && LoadSchema(store, db, table).Some?
    requires WhereTyped(LoadSchema(store, db, table).value, where) && PlanUpdate(LoadSchema(store, db, table).value, assignments).Plan?
    ensures var schema := LoadSchema(store, db, table).value;
            ExecuteUpdate(store, db, table, assignments, where) ==
            (Applied(store, schema, KeysUnder(store, RowPrefix(db, table)), where, PlanUpdate(schema, assignments).changes),
             Ok(Changed(CountHits(schema, ScanRows(store, db, table), where))))
  {
    hide Sound, Typed, WhereTyped, PlanUpdate, UpdateOver, ScanRows, AllClean, CellsOf, Applied, KeysUnder, LoadSchema;
    var schema := LoadSchema(store, db, table).value;
    ScanCells(store, db, table);
    ScanClean(store, db, table, where);
    UpdateMeaning(store, schema, ScanRows(store, db, table), where, PlanUpdate(schema, assignments).changes, 0);
  }

  lemma DeleteClosed(store: Store, db: string, table: string, where: seq<Condition>)
    requires Sound(store) && Typed(store) && NameOk(db) && NameOk(table) && LoadSchema(store, db, table).Some?
    requires WhereTyped(LoadSchema(store, db, table).value, where)
    ensures var schema := LoadSchema(store, db, table).value;
            ExecuteDelete(store, db, table, where) ==
            (Pruned(store, schema, KeysUnder(store, RowPrefix(db, table)), where),
             Ok(Changed(CountHits(schema, ScanRows(store, db, table), where))))
  {
    hide Sound, Typed, WhereTyped, DeleteOver, ScanRows, AllClean, CellsOf, Pruned, KeysUnder, LoadSchema;
    var schema := LoadSchema(store, db, table).value;
    ScanCells(store, db, table);
    ScanClean(store, db, table, where);
    DeleteMeaning(store, schema, ScanRows(store, db, table), where, 0);
  }

  lemma SelectClosed(store: Store, db: string, table: string, columns: seq<string>, where: seq<Condition>)
    requires Sound(store) && Typed(store) && NameOk(db) && NameOk(table) && LoadSchema(store, db, table).Some?
    requires WhereTyped(LoadSchema(store, db, table).value, where) && ProjectionOf(LoadSchema(store, db, table).value, columns).Projection?
    ensures var schema := LoadSchema(store, db, table).value;
            ExecuteSelect(store, db, table, columns, where) ==
            Ok(Listing(HeadersOf(schema, columns), HitRows(schema, ScanRows(store, db, table), where, ProjectionOf(schema, columns).indices)))
  {
    hide Sound, Typed, WhereTyped, SelectOver, ScanRows, AllClean, LoadSchema, ProjectionOf, HeadersOf;
    var schema := LoadSchema(store, db, table).value;
    ScanClean(store, db, table, where);
    SelectMeaning(schema, ScanRows(store, db, table), where, ProjectionOf(schema, columns).indices);
  }

  // ------------------------------------------------------------------------------------------
  // Pinned primary keys
  // ------------------------------------------------------------------------------------------

  lemma {:induction false} EqualTexts(a: string, b: string)
    requires CompareTexts(a, b) == 0
    ensures a == b
  {
    LessTotal(a, b);
  }

  /** A row that matches a pinned primary key has that primary key, if the name means the key column. */
  lemma {:induction false} PinnedRow(schema: Schema, row: Row, where: seq<Condition>, pkName: string, literal: string)
    requires SchemaTyped(schema) && |row| == |schema.columns|
    requires PkFound(schema) && schema.columns[PrimaryKeyIndex(schema).value].name == pkName
    requires FindPkEquality(pkName, where) == Some(literal) && MatchesWhere(schema, row, where).Match?
    ensures row[PrimaryKeyIndex(schema).value] == literal
    decreases |where|
  {
    hide FirstIndex, FirstPrimary, ReadNumber;
    if where[0].column == pkName && where[0].op == Eq {
      EqualTexts(row[PrimaryKeyIndex(schema).value], literal);
    } else {
      PinnedRow(schema, row, where[1..], pkName, literal);
    }
  }

  // ------------------------------------------------------------------------------------------
  // Inserted rows
  // ------------------------------------------------------------------------------------------

  function CountTrue(flags: seq<bool>): (n: nat)
    ensures n <= |flags|
    ensures n == |flags| ==> forall i :: 0 <= i < |flags| ==> flags[i]
    decreases |flags|
  {
    if flags == [] then 0 else (if flags[0] then 1 else 0) + CountTrue(flags[1..])
  }

  lemma {:induction false} CountSet(flags: seq<bool>, i: nat)
    requires i < |flags| && !flags[i]
    ensures CountTrue(flags[i := true]) == CountTrue(flags) + 1
    decreases |flags|
  {
    if i > 0 {
      CountSet(flags[1..], i - 1);
      assert flags[i := true][1..] == flags[1..][i - 1 := true];
    } else {
      assert flags[i := true][1..] == flags[1..];
    }
  }

  lemma {:induction false} CountNone(n: nat)
    ensures CountTrue(Unfilled(n)) == 0
    decreases n
  {
    if n > 0 {
      CountNone(n - 1);
      assert Unfilled(n)[1..] == Unfilled(n - 1);
    }
  }

  /** Every column filled so far is the one its name is looked up to. */
  ghost predicate FilledFound(schema: Schema, filled: seq<bool>)
    requires |filled| == |schema.columns|
  {
    forall j {:trigger filled[j]} | 0 <= j < |filled| :: filled[j] ==> ColumnIndex(schema, schema.columns[j].name) == Some(j)
  }

  ghost predicate FilledTyped(schema: Schema, row: Row, filled: seq<bool>)
    requires |row| == |filled| == |schema.columns|
  {
    forall j {:trigger filled[j]} | 0 <= j < |filled| :: filled[j] ==> ValueTyped(schema.columns[j], row[j])
  }

  lemma {:induction false} FillCounts(schema: Schema, columns: seq<string>, values: seq<string>, row: Row, filled: seq<bool>)
    requires |row| == |filled| == |schema.columns| && FilledFound(schema, filled)
    ensures var f := FillRow(schema, columns, values, row, filled);
            f.Filling? ==> |f.row| == |f.filled| == |schema.columns| && FilledFound(schema, f.filled)
                           && CountTrue(f.filled) == CountTrue(filled) + |columns|
    decreases |columns|
  {
    hide CountTrue;
    if columns != [] && values != [] {
      var idx := ColumnIndex(schema, columns[0]);
      if idx.Some? && !filled[idx.value] {
        CountSet(filled, idx.value);
        FillCounts(schema, columns[1..], values[1..], row[idx.value := values[0]], filled[idx.value := true]);
      }
    }
  }

  lemma {:induction false} FillTyped(schema: Schema, columns: seq<string>, values: seq<string>, row: Row, filled: seq<bool>)
    requires |row| == |filled| == |schema.columns| && FilledTyped(schema, row, filled)
    requires forall i :: 0 <= i < |columns| && i < |values| ==> AssignedTyped(schema, columns[i], values[i])
    ensures var f := FillRow(schema, columns, values, row, filled);
            f.Filling? ==> |f.row| == |f.filled| == |schema.columns| && FilledTyped(schema, f.row, f.filled)
    decreases |columns|
  {
    hide ValueTyped;
    if columns != [] && values != [] {
      var idx := ColumnIndex(schema, columns[0]);
      if idx.Some? && !filled[idx.value] {
        assert AssignedTyped(schema, columns[0], values[0]);
        FillTyped(schema, columns[1..], values[1..], row[idx.value := values[0]], filled[idx.value := true]);
      }
    }
  }

  /** A row that goes in fills every column, so each column is found under its name. */
  lemma InsertedFull(schema: Schema, columns: seq<string>, values: seq<string>)
    requires InsertRow(schema, columns, values).Filling?
    ensures var f := InsertRow(schema, columns, values); |f.row| == |f.filled| == |schema.columns|
    ensures forall j :: 0 <= j < |schema.columns| ==> InsertRow(schema, columns, values).filled[j]
    ensures forall j :: 0 <= j < |schema.columns| ==> ColumnIndex(schema, schema.columns[j].name) == Some(j)
  {
    hide FillRow, FirstIndex;
    var n := |schema.columns|;
    CountNone(n);
    FillCounts(schema, columns, values, Blank(n), Unfilled(n));
    var filled := InsertRow(schema, columns, values).filled;
    forall j | 0 <= j < n ensures ColumnIndex(schema, schema.columns[j].name) == Some(j) { assert filled[j]; }
  }

  lemma InsertedWell(schema: Schema, columns: seq<string>, values: seq<string>)
    requires InsertRow(schema, columns, values).Filling? && SchemaTyped(schema)
    requires forall i :: 0 <= i < |columns| && i < |values| ==> AssignedTyped(schema, columns[i], values[i])
    ensures var f := InsertRow(schema, columns, values); |f.row| == |schema.columns| && RowTyped(schema, f.row) && PkFound(schema)
  {
    hide FillRow, ValueTyped, FirstIndex, FirstPrimary, AssignedTyped;
    var n := |schema.columns|;
    InsertedFull(schema, columns, values);
    FillTyped(schema, columns, values, Blank(n), Unfilled(n));
    var f := InsertRow(schema, columns, values);
    forall j | 0 <= j < n ensures ValueTyped(schema.columns[j], f.row[j]) { assert f.filled[j]; }
  }

  /** Once the key column is filled it keeps its value; until then the statement still names it. */
  lemma {:induction false} FillPk(schema: Schema, columns: seq<string>, values: seq<string>, row: Row, filled: seq<bool>, pk: nat)
    requires |row| == |filled| == |schema.columns| && pk < |schema.columns|
    requires ColumnIndex(schema, schema.columns[pk].name) == Some(pk)
    ensures var f := FillRow(schema, columns, values, row, filled); var v := FindPkValue(schema.columns[pk].name, columns, values);
            f.Filling? ==> |f.row| == |f.filled| == |schema.columns| && (f.filled[pk] <==> filled[pk] || v.Some?)
                           && (filled[pk] ==> f.row[pk] == row[pk]) && (!filled[pk] && v.Some? ==> f.row[pk] == v.value)
    decreases |columns|
  {
    hide ValidInt;
    if columns != [] && values != [] {
      var idx := ColumnIndex(schema, columns[0]);
      if idx.Some? && !filled[idx.value] {
        FillPk(schema, columns[1..], values[1..], row[idx.value := values[0]], filled[idx.value := true], pk);
      }
    }
  }

  /** The key a successful INSERT stores under is the one its statement announces. */
  lemma InsertedKey(schema: Schema, columns: seq<string>, values: seq<string>)
    requires InsertRow(schema, columns, values).Filling? && PrimaryKeyIndex(schema).Some?
    ensures var pk := PrimaryKeyIndex(schema).value; var f := InsertRow(schema, columns, values);
            pk < |f.row| && FindPkValue(schema.columns[pk].name, columns, values) == Some(f.row[pk])
  {
    hide FillRow, FirstIndex, FirstPrimary;
    var n := |schema.columns|;
    InsertedFull(schema, columns, values);
    FillPk(schema, columns, values, Blank(n), Unfilled(n), PrimaryKeyIndex(schema).value);
  }
}
