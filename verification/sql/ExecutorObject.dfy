/** The executor object, with the loops it runs over rows, proved against the functions of SqlExecution. */
module SqlExecutors {
  import opened Options
  import opened Strings
  import opened SortedStrings
  import opened SqlAst
  import opened SqlKeys
  import opened SqlNumbers
  import opened SqlExecution

  // ------------------------------------------------------------------------------------------
  // The store
  // ------------------------------------------------------------------------------------------

  /** The storage engine, as the map it is proved to be. */
  class KvStore {
    var contents: Store

    constructor ()
      ensures contents == map[]
    {
      contents := map[];
    }

    method Get(key: string) returns (cell: Option<Cell>)
      ensures cell == if key in contents then Some(contents[key]) else None
    {
      if key in contents { return Some(contents[key]); }
      return None;
    }

    method Put(key: string, cell: Cell)
      modifies this
      ensures contents == old(contents)[key := cell]
    {
      contents := contents[key := cell];
    }

    method Delete(key: string)
      modifies this
      ensures contents == old(contents) - {key}
    {
      contents := contents - {key};
    }

    /** The keys with the prefix, ascending. */
    method Scan(prefix: string) returns (keys: seq<string>)
      ensures keys == ScanKeys(contents, prefix)
    {
      keys := [];
      var todo := contents.Keys;
      ghost var done: set<string> := {};
      while todo != {}
        invariant todo + done == contents.Keys && todo !! done
        invariant Lists(keys, set k | k in done && StartsWith(k, prefix))
        decreases |todo|
      {
        var key :| key in todo;
        todo, done := todo - {key}, done + {key};
        if StartsWith(key, prefix) { keys := InsertKey(keys, key); }
      }
      assert (set k | k in done && StartsWith(k, prefix)) == KeysUnder(contents, prefix);
      ListsUnique(keys, ScanKeys(contents, prefix), KeysUnder(contents, prefix));
    }
  }

  method InsertKey(keys: seq<string>, key: string) returns (r: seq<string>)
    requires AscendingKeys(keys) && key !in keys
    ensures AscendingKeys(r) && forall k :: k in r <==> k in keys || k == key
  {
    hide AscendingKeys, Less;
    var at := 0;
    while at < |keys| && Less(keys[at], key)
      invariant 0 <= at <= |keys| && forall j :: 0 <= j < at ==> Less(keys[j], key)
    {
      at := at + 1;
    }
    r := keys[..at] + [key] + keys[at..];
    InsertAscending(keys, at, key);
    InsertMembers(keys, at, key);
  }

  lemma InsertMembers(keys: seq<string>, at: nat, key: string)
    requires at <= |keys|
    ensures forall k :: k in keys[..at] + [key] + keys[at..] <==> k in keys || k == key
  {
    assert keys == keys[..at] + keys[at..];
  }

  lemma AboveInserted(keys: seq<string>, at: nat, key: string, j: nat)
    requires AscendingKeys(keys) && key !in keys && at <= j < |keys| && !Less(keys[at], key)
    ensures Less(key, keys[j])
  {
    hide Less;
    LessTotal(keys[at], key);
    assert keys[at] in keys;
    if j > at { LessTransitive(key, keys[at], keys[j]); }
  }

  lemma InsertAscending(keys: seq<string>, at: nat, key: string)
    requires AscendingKeys(keys) && key !in keys && at <= |keys|
    requires (forall j :: 0 <= j < at ==> Less(keys[j], key)) && (at < |keys| ==> !Less(keys[at], key))
    ensures AscendingKeys(keys[..at] + [key] + keys[at..])
  {
    hide Less;
    var r := keys[..at] + [key] + keys[at..];
    forall j | at <= j < |keys| ensures Less(key, keys[j]) { AboveInserted(keys, at, key, j); }
    forall i, j | 0 <= i < j < |r| ensures Less(r[i], r[j]) {
      assert r[i] == if i < at then keys[i] else if i == at then key else keys[i - 1];
      assert r[j] == if j < at then keys[j] else if j == at then key else keys[j - 1];
    }
  }

  // ------------------------------------------------------------------------------------------
  // Rows
  // ------------------------------------------------------------------------------------------

  method Pad(schema: Schema, row: Row) returns (padded: Option<Row>)
    ensures padded == PadRow(schema, row)
  {
    var r := row;
    while |r| < |schema.columns|
      invariant PadRow(schema, r) == PadRow(schema, row)
      decreases |schema.columns| - |r|
    {
      var default := schema.columns[|r|].defaultValue;
      if default.None? { return None; }
      r := r + [default.value];
    }
    return Some(r);
  }

  method Matches(schema: Schema, row: Row, where: seq<Condition>) returns (verdict: Verdict)
    ensures verdict == MatchesWhere(schema, row, where)
  {
    hide ColumnIndex, CompareLiterals;
    var i := 0;
    assert where[0..] == where;
    while i < |where|
      invariant 0 <= i <= |where|
      invariant MatchesWhere(schema, row, where[i..]) == MatchesWhere(schema, row, where)
    {
      assert where[i..][1..] == where[i + 1..];
      var idx := ColumnIndex(schema, where[i].column);
      if idx.None? { return Throws(NoSuchColumn(where[i].column)); }
      ColumnInRange(schema, where[i].column);
      if idx.value >= |row| { return Throws(UnreadableRow); }
      var holds := CompareLiterals(schema.columns[idx.value].columnType, row[idx.value], where[i].op, where[i].literal);
      if holds.None? { return Throws(BadNumber); }
      if !holds.value { return NoMatch; }
      i := i + 1;
    }
    return Match;
  }

  /** Reading a scanned row: padded and compared. */
  method ReadRow(schema: Schema, row: Row, where: seq<Condition>) returns (padded: Option<Row>, verdict: Verdict)
    ensures padded == PadRow(schema, row)
    ensures padded.Some? ==> verdict == MatchesWhere(schema, padded.value, where)
  {
    hide PadRow, MatchesWhere;
    padded := Pad(schema, row);
    verdict := NoMatch;
    if padded.Some? { verdict := Matches(schema, padded.value, where); }
  }

  method ApplyChanges(row: Row, changes: seq<(nat, string)>) returns (r: Row)
    ensures r == Change(row, changes)
  {
    r := row;
    var i := 0;
    assert changes[0..] == changes;
    while i < |changes|
      invariant 0 <= i <= |changes| && |r| == |row|
      invariant Change(r, changes[i..]) == Change(row, changes)
    {
      assert changes[i..][1..] == changes[i + 1..];
      if changes[i].0 < |r| { r := r[changes[i].0 := changes[i].1]; }
      i := i + 1;
    }
  }

  method Fill(schema: Schema, columns: seq<string>, values: seq<string>) returns (filling: Filling)
    ensures filling == InsertRow(schema, columns, values)
  {
    hide ColumnIndex, ValidInt;
    if |columns| != |schema.columns| { return Stopped(WrongColumnCount); }
    var row, filled := Blank(|schema.columns|), Unfilled(|schema.columns|);
    var i := 0;
    assert columns[0..] == columns && values[0..] == values;
    while i < |columns|
      invariant 0 <= i <= |columns| && i <= |values| && |row| == |filled| == |schema.columns|
      invariant FillRow(schema, columns[i..], values[i..], row, filled) == InsertRow(schema, columns, values)
    {
      assert columns[i..][1..] == columns[i + 1..];
      FillStep(schema, columns[i..], values[i..], row, filled);
      var idx := ColumnIndex(schema, columns[i]);
      if idx.None? { return Stopped(NoSuchColumn(columns[i])); }
      ColumnInRange(schema, columns[i]);
      if filled[idx.value] { return Stopped(ColumnTwice(columns[i])); }
      if i == |values| { return Stopped(WrongColumnCount); }
      assert values[i..][1..] == values[i + 1..];
      if schema.columns[idx.value].columnType == Int && !ValidInt(values[i]) { return Stopped(InvalidInteger(columns[i])); }
      row := row[idx.value := values[i]];
      filled := filled[idx.value := true];
      i := i + 1;
    }
    return Filling(row, filled);
  }

  lemma ColumnInRange(schema: Schema, name: string)
    ensures ColumnIndex(schema, name).Some? ==> ColumnIndex(schema, name).value < |schema.columns|
  {
  }

  lemma FillStep(schema: Schema, columns: seq<string>, values: seq<string>, row: Row, filled: seq<bool>)
    requires |row| == |filled| == |schema.columns| && columns != []
    ensures FillRow(schema, columns, values, row, filled) ==
            var idx := ColumnIndex(schema, columns[0]);
            if idx.None? then Stopped(NoSuchColumn(columns[0]))
            else if filled[idx.value] then Stopped(ColumnTwice(columns[0]))
            else if values == [] then Stopped(WrongColumnCount)
            else if schema.columns[idx.value].columnType == Int && !ValidInt(values[0]) then Stopped(InvalidInteger(columns[0]))
            else FillRow(schema, columns[1..], values[1..], row[idx.value := values[0]], filled[idx.value := true])
  {
  }

  // ------------------------------------------------------------------------------------------
  // The executor
  // ------------------------------------------------------------------------------------------

  function Before(rows: seq<Row>, rest: Picked): Picked {
    match rest
    case PickFailed(error) => PickFailed(error)
    case Picked(more) => Picked(rows + more)
  }

  lemma SelectStep(rows: seq<Row>, schema: Schema, entries: seq<Entry>, where: seq<Condition>, indices: seq<nat>)
    ensures Before(rows, SelectOver(schema, entries, where, indices)) ==
            if entries == [] then Picked(rows)
            else
              match PadRow(schema, entries[0].row)
              case None => PickFailed(UnreadableRow)
              case Some(row) =>
                match MatchesWhere(schema, row, where)
                case Throws(error) => PickFailed(error)
                case NoMatch => Before(rows, SelectOver(schema, entries[1..], where, indices))
                case Match => Before(rows + [Pick(row, indices)], SelectOver(schema, entries[1..], where, indices))
  {
    hide PadRow, MatchesWhere, Pick;
    if entries == [] {
      assert rows + [] == rows;
    } else if PadRow(schema, entries[0].row).Some? {
      var picked := Pick(PadRow(schema, entries[0].row).value, indices);
      var rest := SelectOver(schema, entries[1..], where, indices);
      if rest.Picked? { assert rows + ([picked] + rest.rows) == rows + [picked] + rest.rows; }
    }
  }

  lemma BeforeNothing(rest: Picked)
    ensures Before([], rest) == rest
  {
    if rest.Picked? { assert [] + rest.rows == rest.rows; }
  }

  class SqlExecutor {
    const engine: KvStore

    constructor (store: KvStore)
      ensures engine == store
    {
      engine := store;
    }

    method Load(db: string, table: string) returns (schema: Option<Schema>)
      ensures schema == LoadSchema(engine.contents, db, table)
    {
      var cell := engine.Get(SchemaKey(db, table));
      if cell.Some? && cell.value.SchemaCell? { return Some(cell.value.schema); }
      return None;
    }

    /** The rows of a table as the engine's scan returns them, not yet padded. */
    method ScanTable(db: string, table: string) returns (entries: seq<Entry>)
      ensures entries == ScanRows(engine.contents, db, table)
    {
      hide ScanKeys, RowPrefix;
      var keys := engine.Scan(RowPrefix(db, table));
      entries := [];
      var i := 0;
      while i < |keys|
        invariant 0 <= i <= |keys| && entries == EntriesAt(engine.contents, keys)[..i]
      {
        entries := entries + [Entry(keys[i], RowAt(engine.contents, keys[i]))];
        i := i + 1;
      }
    }

    method DoAddColumn(db: string, table: string, column: ColumnDef) returns (result: Result)
      modifies engine
      ensures (engine.contents, result) == ExecuteAddColumn(old(engine.contents), db, table, column)
    {
      hide ExtendSchema, LoadSchema;
      var schema := Load(db, table);
      if schema.None? { return Failed(NoSuchTable); }
      var (extended, error) := ExtendSchema(schema.value, column);
      if error.Some? { return Failed(error.value); }
      engine.Put(SchemaKey(db, table), SchemaCell(extended));
      return Ok(Done);
    }

    method DoInsert(db: string, table: string, columns: seq<string>, values: seq<string>) returns (result: Result)
      modifies engine
      ensures (engine.contents, result) == ExecuteInsert(old(engine.contents), db, table, columns, values)
    {
      hide InsertRow, LoadSchema, PrimaryKeyIndex, RowKey;
      var schema := Load(db, table);
      if schema.None? { return Failed(NoSuchTable); }
      var filling := Fill(schema.value, columns, values);
      if filling.Stopped? { return Failed(filling.error); }
      var pk := PrimaryKeyIndex(schema.value);
      if pk.None? || pk.value >= |filling.row| { return Failed(UnreadableRow); }
      var key := RowKey(db, table, filling.row[pk.value]);
      var present := engine.Get(key);
      if present.Some? { return Failed(DuplicateKey(filling.row[pk.value])); }
      engine.Put(key, RowCell(filling.row));
      return Ok(Done);
    }

    method DoSelect(db: string, table: string, columns: seq<string>, where: seq<Condition>) returns (result: Result)
      ensures result == ExecuteSelect(engine.contents, db, table, columns, where)
    {
      hide LoadSchema, ProjectionOf, HeadersOf, SelectOver, PadRow, MatchesWhere, ScanRows, Before, Pick;
      var schema := Load(db, table);
      if schema.None? { return Failed(NoSuchTable); }
      var projection := ProjectionOf(schema.value, columns);
      if projection.Unknown? { return Failed(NoSuchColumn(projection.column)); }
      var entries := ScanTable(db, table);
      var rows: seq<Row> := [];
      var i := 0;
      assert entries[0..] == entries;
      BeforeNothing(SelectOver(schema.value, entries, where, projection.indices));
      while i < |entries|
        invariant 0 <= i <= |entries|
        invariant Before(rows, SelectOver(schema.value, entries[i..], where, projection.indices))
               == SelectOver(schema.value, entries, where, projection.indices)
      {
        assert entries[i..][1..] == entries[i + 1..];
        SelectStep(rows, schema.value, entries[i..], where, projection.indices);
        var padded, verdict := ReadRow(schema.value, entries[i].row, where);
        if padded.None? { return Failed(UnreadableRow); }
        if verdict.Throws? { return Failed(verdict.error); }
        if verdict.Match? { rows := rows + [Pick(padded.value, projection.indices)]; }
        i := i + 1;
      }
      SelectStep(rows, schema.value, entries[i..], where, projection.indices);
      return Ok(Listing(HeadersOf(schema.value, columns), rows));
    }

    method DoUpdate(db: string, table: string, assignments: seq<(string, string)>, where: seq<Condition>) returns (result: Result)
      modifies engine
      ensures (engine.contents, result) == ExecuteUpdate(old(engine.contents), db, table, assignments, where)
    {
      hide LoadSchema, PlanUpdate, PadRow, MatchesWhere, ScanRows, Change;
      var schema := Load(db, table);
      if schema.None? { return Failed(NoSuchTable); }
      var plan := PlanUpdate(schema.value, assignments);
      if plan.PlanFailed? { return Failed(plan.error); }
      var entries := ScanTable(db, table);
      var updated := 0;
      var i := 0;
      assert entries[0..] == entries;
      while i < |entries|
        invariant 0 <= i <= |entries| && 0 <= updated
        invariant UpdateOver(engine.contents, schema.value, entries[i..], where, plan.changes, updated)
               == UpdateOver(old(engine.contents), schema.value, entries, where, plan.changes, 0)
      {
        assert entries[i..][1..] == entries[i + 1..];
        var padded, verdict := ReadRow(schema.value, entries[i].row, where);
        if padded.None? { return Failed(UnreadableRow); }
        if verdict.Throws? { return Failed(verdict.error); }
        if verdict.Match? {
          var row := ApplyChanges(padded.value, plan.changes);
          engine.Put(entries[i].key, RowCell(row));
          updated := updated + 1;
        }
        i := i + 1;
      }
      return Ok(Changed(updated));
    }

    method DoDelete(db: string, table: string, where: seq<Condition>) returns (result: Result)
      modifies engine
      ensures (engine.contents, result) == ExecuteDelete(old(engine.contents), db, table, where)
    {
      hide LoadSchema, PadRow, MatchesWhere, ScanRows;
      var schema := Load(db, table);
      if schema.None? { return Failed(NoSuchTable); }
      var entries := ScanTable(db, table);
      var deleted := 0;
      var i := 0;
      assert entries[0..] == entries;
      while i < |entries|
        invariant 0 <= i <= |entries| && 0 <= deleted
        invariant DeleteOver(engine.contents, schema.value, entries[i..], where, deleted)
               == DeleteOver(old(engine.contents), schema.value, entries, where, 0)
      {
        assert entries[i..][1..] == entries[i + 1..];
        var padded, verdict := ReadRow(schema.value, entries[i].row, where);
        if padded.None? { return Failed(UnreadableRow); }
        if verdict.Throws? { return Failed(verdict.error); }
        if verdict.Match? {
          engine.Delete(entries[i].key);
          deleted := deleted + 1;
        }
        i := i + 1;
      }
      return Ok(Changed(deleted));
    }

    method DoCreateDatabase(name: string) returns (result: Result)
      modifies engine
      ensures (engine.contents, result) == ExecuteCreateDatabase(old(engine.contents), name)
    {
      hide DatabaseKey;
      var present := engine.Get(DatabaseKey(name));
      if present.Some? { return Failed(DatabaseExists); }
      engine.Put(DatabaseKey(name), Marker);
      return Ok(Done);
    }

    method DoCreateTable(db: string, table: string, columns: seq<ColumnDef>) returns (result: Result)
      modifies engine
      ensures (engine.contents, result) == ExecuteCreateTable(old(engine.contents), db, table, columns)
    {
      hide DatabaseKey, SchemaKey;
      var database := engine.Get(DatabaseKey(db));
      if database.None? { return Failed(NoSuchDatabase); }
      var present := engine.Get(SchemaKey(db, table));
      if present.Some? { return Failed(TableExists); }
      engine.Put(SchemaKey(db, table), SchemaCell(Schema(columns)));
      return Ok(Done);
    }

    /** The keys with the prefix, without it. */
    method ListUnder(prefix: string) returns (rows: seq<Row>)
      ensures rows == Suffixes(ScanKeys(engine.contents, prefix), |prefix|)
    {
      hide ScanKeys;
      var keys := engine.Scan(prefix);
      rows := [];
      var i := 0;
      assert keys[0..] == keys;
      while i < |keys|
        invariant 0 <= i <= |keys| && rows + Suffixes(keys[i..], |prefix|) == Suffixes(keys, |prefix|)
      {
        assert keys[i..][1..] == keys[i + 1..];
        var row := [if |prefix| <= |keys[i]| then keys[i][|prefix|..] else ""];
        assert rows + ([row] + Suffixes(keys[i + 1..], |prefix|)) == rows + [row] + Suffixes(keys[i + 1..], |prefix|);
        rows := rows + [row];
        i := i + 1;
      }
    }

    method DoShowTables(db: string) returns (result: Result)
      ensures result == ExecuteShowTables(engine.contents, db)
    {
      hide DatabaseKey, SchemaPrefix, Suffixes, ScanKeys;
      var database := engine.Get(DatabaseKey(db));
      if database.None? { return Failed(NoSuchDatabase); }
      var rows := ListUnder(SchemaPrefix(db));
      return Ok(Listing(["table"], rows));
    }

    method DoShowDatabases() returns (result: Result)
      ensures result == ExecuteShowDatabases(engine.contents)
    {
      hide Suffixes, ScanKeys;
      var rows := ListUnder(DATABASE_PREFIX);
      return Ok(Listing(["database"], rows));
    }

    method DoExecute(stmt: Statement) returns (result: Result)
      modifies engine
      ensures (engine.contents, result) == Execute(old(engine.contents), stmt)
    {
      hide ExecuteCreateDatabase, ExecuteCreateTable, ExecuteAddColumn, ExecuteInsert, ExecuteSelect, ExecuteUpdate, ExecuteDelete,
        ExecuteShowTables, ExecuteShowDatabases;
      match stmt
      case CreateDatabase(name) => result := DoCreateDatabase(name);
      case CreateTable(db, table, definitions) => result := DoCreateTable(db, table, definitions);
      case AddColumn(db, table, column) => result := DoAddColumn(db, table, column);
      case Insert(db, table, columns, values) => result := DoInsert(db, table, columns, values);
      case Select(db, table, columns, where) => result := DoSelect(db, table, columns, where);
      case Update(db, table, assignments, where) => result := DoUpdate(db, table, assignments, where);
      case Delete(db, table, where) => result := DoDelete(db, table, where);
      case ShowTables(db) => result := DoShowTables(db);
      case ShowDatabases => result := DoShowDatabases();
    }

    /** The row key a statement is pinned to, by the schema the engine holds. */
    method DoTryExtractRowKey(stmt: Statement) returns (key: Option<string>)
      ensures key == TryExtractRowKey(engine.contents, stmt)
    {
      hide LoadSchema, PrimaryKeyIndex, RowKey;
      if !(stmt.Insert? || stmt.Select? || stmt.Update? || stmt.Delete?) { return None; }
      var schema := Load(stmt.db, stmt.table);
      if schema.None? { return None; }
      var pk := PrimaryKeyIndex(schema.value);
      if pk.None? { return None; }
      PrimaryInRange(schema.value);
      var name := schema.value.columns[pk.value].name;
      if stmt.Insert? {
        var value := FindValue(name, stmt.columns, stmt.values);
        return KeyedBy(stmt.db, stmt.table, value);
      }
      var literal := FindEquality(name, stmt.where);
      return KeyedBy(stmt.db, stmt.table, literal);
    }
  }

  lemma PrimaryInRange(schema: Schema)
    ensures PrimaryKeyIndex(schema).Some? ==> PrimaryKeyIndex(schema).value < |schema.columns|
  {
  }

  method FindValue(pkName: string, columns: seq<string>, values: seq<string>) returns (r: Option<string>)
    ensures r == FindPkValue(pkName, columns, values)
  {
    var i := 0;
    assert columns[0..] == columns && values[0..] == values;
    while i < |columns| && i < |values|
      invariant 0 <= i <= |columns| && i <= |values|
      invariant FindPkValue(pkName, columns[i..], values[i..]) == FindPkValue(pkName, columns, values)
    {
      if columns[i] == pkName { return Some(values[i]); }
      assert columns[i..][1..] == columns[i + 1..] && values[i..][1..] == values[i + 1..];
      i := i + 1;
    }
    return None;
  }

  method FindEquality(pkName: string, where: seq<Condition>) returns (r: Option<string>)
    ensures r == FindPkEquality(pkName, where)
  {
    var i := 0;
    assert where[0..] == where;
    while i < |where|
      invariant 0 <= i <= |where|
      invariant FindPkEquality(pkName, where[i..]) == FindPkEquality(pkName, where)
    {
      if where[i].column == pkName && where[i].op == Eq { return Some(where[i].literal); }
      assert where[i..][1..] == where[i + 1..];
      i := i + 1;
    }
    return None;
  }
}
