/**
 The database on disk: cells as bytes in the storage engine, statements as the writes they make there.
 What the engine's disk opens as, through any run and after a crash, decodes to the executor's store.
 */
module SqlStored {
  import opened Options
  import opened Strings
  import opened StorageBytes
  import opened StorageWal
  import opened StorageEngineModel
  import opened StorageRecovery
  import opened StorageRuns
  import opened SqlAst
  import opened SqlKeys
  import opened SqlCodecs
  import opened SqlExecution
  import opened SqlLazyAlter
  import opened SqlParser
  import opened SqlFrontEnd
  import ShardStatements

  // ------------------------------------------------------------------------------------------
  // Cells as bytes
  // ------------------------------------------------------------------------------------------

  const SCHEMA_TAG: string := "__schema__/"

  function EncodeCell(cell: Cell): string {
    match cell
    case Marker => ""
    case SchemaCell(schema) => Serialize(schema)
    case RowCell(row) => EncodeRow(row)
  }

  /** The kind of a key says how its bytes are read. */
  function DecodeCell(key: string, bytes: string): Option<Cell> {
    if IsRowKey(key) then
      var row := DecodeRow(bytes);
      if row.Some? then Some(RowCell(row.value)) else None
    else if StartsWith(key, SCHEMA_TAG) then
      var schema := Deserialize(bytes);
      if schema.Some? then Some(SchemaCell(schema.value)) else None
    else Some(Marker)
  }

  /** The cell is of the key's kind; a schema has a column. */
  predicate OfKind(key: string, cell: Cell) {
    match cell
    case Marker => !IsRowKey(key) && !StartsWith(key, SCHEMA_TAG)
    case SchemaCell(schema) => !IsRowKey(key) && StartsWith(key, SCHEMA_TAG) && schema.columns != []
    case RowCell(_) => IsRowKey(key)
  }

  /** ... and its bytes have a length the files can hold. */
  predicate CellFits(key: string, cell: Cell) { OfKind(key, cell) && |EncodeCell(cell)| < U32 }

  ghost predicate StoreFits(store: Store) { forall k {:trigger store[k]} | k in store :: CellFits(k, store[k]) }

  /** The map the storage engine holds for a store, and the store such a map stands for. */
  function Stored(store: Store): Contents { map k | k in store :: EncodeCell(store[k]) }

  function Loaded(m: Contents): Store { map k | k in m && DecodeCell(k, m[k]).Some? :: DecodeCell(k, m[k]).value }

  lemma {:induction false} ValuesSize(values: Row)
    ensures |EncodeValues(values)| >= 4 * |values| && forall i :: 0 <= i < |values| ==> |values[i]| <= |EncodeValues(values)|
    decreases |values|
  {
    hide PutU32;
    if values != [] {
      PutU32Size(|values[0]|);
      ValuesSize(values[1..]);
      forall i | 0 <= i < |values| ensures |values[i]| <= |EncodeValues(values)| {
        if i > 0 { assert values[i] == values[1..][i - 1]; }
      }
    }
  }

  lemma RowSize(row: Row)
    requires |EncodeRow(row)| < U32
    ensures RowFitsFormat(row)
  {
    hide PutU32, EncodeValues;
    ValuesSize(row);
  }

  lemma ColumnSize(c: ColumnDef)
    ensures |c.name| + (if c.defaultValue.Some? then |c.defaultValue.value| else 0) < |EncodeColumn(c)|
  {
    hide PutU32;
    PutU32Size(|c.name|);
  }

  predicate ColumnWithin(c: ColumnDef, n: nat) { |c.name| < n && (c.defaultValue.Some? ==> |c.defaultValue.value| < n) }

  lemma {:induction false} ColumnsSize(columns: seq<ColumnDef>)
    ensures |columns| <= |EncodeColumns(columns)|
    ensures forall i :: 0 <= i < |columns| ==> ColumnWithin(columns[i], |EncodeColumns(columns)|)
    decreases |columns|
  {
    hide EncodeColumn;
    if columns != [] {
      ColumnSize(columns[0]);
      ColumnsSize(columns[1..]);
      forall i | 0 <= i < |columns|
        ensures ColumnWithin(columns[i], |EncodeColumns(columns)|)
      {
        if i > 0 { assert columns[i] == columns[1..][i - 1]; }
      }
    }
  }

  lemma SchemaSize(schema: Schema)
    requires |Serialize(schema)| < U32
    ensures |schema.columns| < U32 && forall i :: 0 <= i < |schema.columns| ==> ColumnFitsFormat(schema.columns[i])
  {
    hide PutU32, EncodeColumns;
    ColumnsSize(schema.columns);
  }

  lemma CellRoundTrip(key: string, cell: Cell)
    requires CellFits(key, cell)
    ensures DecodeCell(key, EncodeCell(cell)) == Some(cell)
  {
    hide EncodeRow, Serialize, DecodeRow, Deserialize, IsRowKey, StartsWith;
    match cell
    case Marker =>
    case SchemaCell(schema) =>
      SchemaSize(schema);
      SchemaRoundTrip(schema);
    case RowCell(row) =>
      RowSize(row);
      RowRoundTrip(row);
  }

  /** Loading undoes storing. */
  lemma StoreRoundTrip(store: Store)
    requires StoreFits(store)
    ensures Loaded(Stored(store)) == store
  {
    hide EncodeCell, DecodeCell, CellFits;
    forall k | k in store ensures DecodeCell(k, Stored(store)[k]) == Some(store[k]) { CellRoundTrip(k, store[k]); }
  }

  // ------------------------------------------------------------------------------------------
  // Statements as writes
  // ------------------------------------------------------------------------------------------

  /** A Put of a cell, or a Delete. */
  datatype Write = Write(key: string, cell: Option<Cell>)

  function Make(store: Store, w: Write): Store { if w.cell.Some? then store[w.key := w.cell.value] else store - {w.key} }

  function MakeAll(store: Store, writes: seq<Write>): Store
    decreases |writes|
  {
    if writes == [] then store else MakeAll(Make(store, writes[0]), writes[1..])
  }

  function RecordOf(w: Write): Record { if w.cell.Some? then PutRecord(w.key, EncodeCell(w.cell.value)) else DeleteRecord(w.key) }

  function RecordsOf(writes: seq<Write>): (records: seq<Record>)
    ensures |records| == |writes|
  {
    seq(|writes|, i requires 0 <= i < |writes| => RecordOf(writes[i]))
  }

  /** One write for each row rewritten, until one throws. */
  function UpdateWrites(schema: Schema, entries: seq<SqlExecution.Entry>, where: seq<Condition>, changes: seq<(nat, string)>): seq<Write>
    decreases |entries|
  {
    if entries == [] then []
    else
      match PadRow(schema, entries[0].row)
      case None => []
      case Some(row) =>
        match MatchesWhere(schema, row, where)
        case Throws(_) => []
        case NoMatch => UpdateWrites(schema, entries[1..], where, changes)
        case Match => [Write(entries[0].key, Some(RowCell(Change(row, changes))))] + UpdateWrites(schema, entries[1..], where, changes)
  }

  /** One write for each row removed, until one throws. */
  function DeleteWrites(schema: Schema, entries: seq<SqlExecution.Entry>, where: seq<Condition>): seq<Write>
    decreases |entries|
  {
    if entries == [] then []
    else
      match PadRow(schema, entries[0].row)
      case None => []
      case Some(row) =>
        match MatchesWhere(schema, row, where)
        case Throws(_) => []
        case NoMatch => DeleteWrites(schema, entries[1..], where)
        case Match => [Write(entries[0].key, None)] + DeleteWrites(schema, entries[1..], where)
  }

  /** The cell a definition or an INSERT writes, if it succeeds. */
  function WrittenCell(stmt: Statement, store: Store): (string, Cell)
    requires stmt.CreateDatabase? || stmt.CreateTable? || stmt.AddColumn? || stmt.Insert?
  {
    match stmt
    case CreateDatabase(name) => (DatabaseKey(name), Marker)
    case CreateTable(db, table, definitions) => (SchemaKey(db, table), SchemaCell(Schema(definitions)))
    case AddColumn(db, table, column) =>
      var schema := LoadSchema(store, db, table);
      (SchemaKey(db, table), SchemaCell(Schema((if schema.Some? then schema.value.columns else []) + [column])))
    case Insert(db, table, columns, values) =>
      var key := TryExtractRowKey(store, stmt);
      var schema := LoadSchema(store, db, table);
      var row := if schema.Some? then InsertRow(schema.value, columns, values) else Stopped(NoSuchTable);
      (if key.Some? then key.value else "", RowCell(if row.Filling? then row.row else []))
  }

  /** What a statement writes to the storage engine, in order. */
  ghost function WritesOf(store: Store, stmt: Statement): seq<Write> {
    match stmt
    case Select(_, _, _, _) => []
    case ShowTables(_) => []
    case ShowDatabases => []
    case Update(db, table, assignments, where) =>
      var schema := LoadSchema(store, db, table);
      if schema.None? then []
      else
        var plan := PlanUpdate(schema.value, assignments);
        if plan.Plan? then UpdateWrites(schema.value, ScanRows(store, db, table), where, plan.changes) else []
    case Delete(db, table, where) =>
      var schema := LoadSchema(store, db, table);
      if schema.None? then [] else DeleteWrites(schema.value, ScanRows(store, db, table), where)
    case _ =>
      if Execute(store, stmt).1.Failed? then []
      else [Write(WrittenCell(stmt, store).0, Some(WrittenCell(stmt, store).1))]
  }

  lemma {:induction false} UpdateMakes(store: Store, schema: Schema, entries: seq<SqlExecution.Entry>, where: seq<Condition>,
                                       changes: seq<(nat, string)>, count: nat)
    ensures UpdateOver(store, schema, entries, where, changes, count).0 == MakeAll(store, UpdateWrites(schema, entries, where, changes))
    decreases |entries|
  {
    hide PadRow, MatchesWhere, Change;
    if entries != [] && PadRow(schema, entries[0].row).Some? {
      var row := PadRow(schema, entries[0].row).value;
      UpdateMakes(store, schema, entries[1..], where, changes, count);
      UpdateMakes(store[entries[0].key := RowCell(Change(row, changes))], schema, entries[1..], where, changes, count + 1);
    }
  }

  lemma {:induction false} DeleteMakes(store: Store, schema: Schema, entries: seq<SqlExecution.Entry>, where: seq<Condition>, count: nat)
    ensures DeleteOver(store, schema, entries, where, count).0 == MakeAll(store, DeleteWrites(schema, entries, where))
    decreases |entries|
  {
    hide PadRow, MatchesWhere;
    if entries != [] && PadRow(schema, entries[0].row).Some? {
      DeleteMakes(store, schema, entries[1..], where, count);
      DeleteMakes(store - {entries[0].key}, schema, entries[1..], where, count + 1);
    }
  }

  lemma MakeOne(store: Store, w: Write)
    ensures MakeAll(store, [w]) == Make(store, w)
  {
    assert [w][1..] == [];
  }

  lemma InsertMakes(store: Store, stmt: Statement)
    requires stmt.Insert?
    ensures Execute(store, stmt).0 == MakeAll(store, WritesOf(store, stmt))
  {
    hide InsertRow, FirstPrimary, FindPkValue, RowKey, SchemaKey;
    var schema := LoadSchema(store, stmt.db, stmt.table);
    if Execute(store, stmt).1.Ok? {
      ShardStatements.InsertedKey(schema.value, stmt.columns, stmt.values);
      MakeOne(store, Write(WrittenCell(stmt, store).0, Some(WrittenCell(stmt, store).1)));
    }
  }

  /** The writes of a statement make its store. */
  lemma WritesMake(store: Store, stmt: Statement)
    ensures Execute(store, stmt).0 == MakeAll(store, WritesOf(store, stmt))
  {
    hide InsertRow, FirstPrimary, RowKey, SchemaKey, DatabaseKey, ScanRows, UpdateOver, DeleteOver, UpdateWrites, DeleteWrites, PlanUpdate,
         ExecuteSelect, ExecuteShowTables, ExecuteShowDatabases, MakeAll;
    NoWrites(store);
    if stmt.Insert? {
      InsertMakes(store, stmt);
    } else if stmt.CreateDatabase? || stmt.CreateTable? || stmt.AddColumn? {
      MakeOne(store, Write(WrittenCell(stmt, store).0, Some(WrittenCell(stmt, store).1)));
    } else if (stmt.Update? || stmt.Delete?) && LoadSchema(store, stmt.db, stmt.table).Some? {
      var schema := LoadSchema(store, stmt.db, stmt.table).value;
      var entries := ScanRows(store, stmt.db, stmt.table);
      if stmt.Delete? {
        DeleteMakes(store, schema, entries, stmt.where, 0);
      } else if PlanUpdate(schema, stmt.assignments).Plan? {
        UpdateMakes(store, schema, entries, stmt.where, PlanUpdate(schema, stmt.assignments).changes, 0);
      }
    }
  }

  lemma NoWrites(store: Store)
    ensures MakeAll(store, []) == store
  {
  }

  // ------------------------------------------------------------------------------------------
  // Writes of the right kind
  // ------------------------------------------------------------------------------------------

  predicate WriteOfKind(w: Write) { w.cell.Some? ==> OfKind(w.key, w.cell.value) }

  predicate AllOfKind(writes: seq<Write>) { forall i :: 0 <= i < |writes| ==> WriteOfKind(writes[i]) }

  lemma {:induction false} UpdateOfKind(schema: Schema, entries: seq<SqlExecution.Entry>, where: seq<Condition>, changes: seq<(nat, string)>)
    requires forall i {:trigger entries[i]} | 0 <= i < |entries| :: IsRowKey(entries[i].key)
    ensures AllOfKind(UpdateWrites(schema, entries, where, changes))
    decreases |entries|
  {
    hide PadRow, MatchesWhere, Change, IsRowKey, StartsWith;
    if entries != [] && PadRow(schema, entries[0].row).Some? { UpdateOfKind(schema, entries[1..], where, changes); }
  }

  lemma {:induction false} DeleteOfKind(schema: Schema, entries: seq<SqlExecution.Entry>, where: seq<Condition>)
    ensures AllOfKind(DeleteWrites(schema, entries, where))
    decreases |entries|
  {
    hide PadRow, MatchesWhere, OfKind;
    if entries != [] && PadRow(schema, entries[0].row).Some? { DeleteOfKind(schema, entries[1..], where); }
  }

  lemma SchemaTagged(db: string, table: string, name: string)
    ensures StartsWith(SchemaKey(db, table), SCHEMA_TAG) && !IsRowKey(SchemaKey(db, table))
    ensures !StartsWith(DatabaseKey(name), SCHEMA_TAG) && !IsRowKey(DatabaseKey(name))
  {
    hide IsRowKey;
    KindsApart("", db, table, name);
    assert SchemaKey(db, table)[..|SCHEMA_TAG|] == SCHEMA_TAG;
    TaggedLetter(DatabaseKey(name));
    assert DatabaseKey(name)[2] == 'd';
  }

  lemma TaggedLetter(k: string)
    ensures StartsWith(k, SCHEMA_TAG) ==> k[2] == 's'
  {
    assert StartsWith(k, SCHEMA_TAG) ==> k[..|SCHEMA_TAG|][2] == k[2];
  }

  lemma CellOfKind(store: Store, stmt: Statement)
    requires stmt.CreateDatabase? || stmt.CreateTable? || stmt.AddColumn? || stmt.Insert?
    requires WellFormed(stmt) && Execute(store, stmt).1.Ok?
    ensures OfKind(WrittenCell(stmt, store).0, WrittenCell(stmt, store).1)
  {
    hide InsertRow, FindPkValue, RowKey, SchemaKey, DatabaseKey, IsRowKey, StartsWith, NameOk;
    match stmt
    case CreateDatabase(name) => SchemaTagged("", "", name);
    case CreateTable(db, table, _) => SchemaTagged(db, table, "");
    case AddColumn(db, table, _) => SchemaTagged(db, table, "");
    case Insert(db, table, columns, values) =>
      var schema := LoadSchema(store, db, table).value;
      ShardStatements.InsertedKey(schema, columns, values);
      RowKeyIsRowKey(db, table, InsertRow(schema, columns, values).row[PrimaryKeyIndex(schema).value]);
  }

  lemma WritesOfKind(store: Store, stmt: Statement)
    requires WellFormed(stmt)
    ensures AllOfKind(WritesOf(store, stmt))
  {
    hide ScanRows, UpdateWrites, DeleteWrites, PlanUpdate, OfKind, Execute, WellFormed, WrittenCell, LoadSchema, IsRowKey;
    if stmt.CreateDatabase? || stmt.CreateTable? || stmt.AddColumn? || stmt.Insert? {
      if Execute(store, stmt).1.Ok? { CellOfKind(store, stmt); }
    } else if (stmt.Update? || stmt.Delete?) && LoadSchema(store, stmt.db, stmt.table).Some? {
      var schema := LoadSchema(store, stmt.db, stmt.table).value;
      var entries := ScanRows(store, stmt.db, stmt.table);
      ScannedRowKeys(store, stmt.db, stmt.table);
      if stmt.Delete? {
        DeleteOfKind(schema, entries, stmt.where);
      } else if PlanUpdate(schema, stmt.assignments).Plan? {
        UpdateOfKind(schema, entries, stmt.where, PlanUpdate(schema, stmt.assignments).changes);
      }
    }
  }

  // ------------------------------------------------------------------------------------------
  // The engine's map follows the store
  // ------------------------------------------------------------------------------------------

  lemma MakeStored(store: Store, w: Write)
    requires StoreFits(store) && WriteOfKind(w) && Writable(RecordOf(w))
    ensures StoreFits(Make(store, w)) && Stored(Make(store, w)) == AfterRecord(Stored(store), RecordOf(w))
  {
    hide OfKind, EncodeCell;
  }

  predicate AllWritable(writes: seq<Write>) { forall i :: 0 <= i < |writes| ==> Writable(RecordOf(writes[i])) }

  lemma {:induction false} MakeAllStored(store: Store, writes: seq<Write>)
    requires StoreFits(store) && AllOfKind(writes) && AllWritable(writes)
    ensures StoreFits(MakeAll(store, writes))
    ensures Stored(MakeAll(store, writes)) == ContentsAfter(Stored(store), RecordsOf(writes))
    decreases |writes|
  {
    hide StoreFits, Stored, WriteOfKind, Writable, RecordOf, AfterRecord, Make;
    if writes != [] {
      MakeStored(store, writes[0]);
      assert RecordsOf(writes)[1..] == RecordsOf(writes[1..]);
      MakeAllStored(Make(store, writes[0]), writes[1..]);
    }
  }

  lemma {:induction false} RoomyWritable(e: Engine, records: seq<Record>)
    requires AllRoomy(e, records)
    ensures forall i :: 0 <= i < |records| ==> Writable(records[i])
    decreases |records|
  {
    hide Written, Writable;
    if records != [] {
      RoomyWritable(Written(e, records[0]), records[1..]);
      forall i | 0 <= i < |records| ensures Writable(records[i]) {
        if i > 0 { assert records[i] == records[1..][i - 1]; }
      }
    }
  }

  // ------------------------------------------------------------------------------------------
  // Runs of statements
  // ------------------------------------------------------------------------------------------

  ghost function TextWrites(store: Store, sql: string): seq<Write> {
    match ParseText(sql)
    case Thrown => []
    case Read(stmt) => WritesOf(store, stmt)
  }

  ghost function ExecuteTexts(store: Store, texts: seq<string>): Store
    decreases |texts|
  {
    if texts == [] then store else ExecuteTexts(ExecuteText(store, texts[0]).0, texts[1..])
  }

  /** All the engine writes of a run of texts. */
  ghost function RunWrites(store: Store, texts: seq<string>): seq<Write>
    decreases |texts|
  {
    if texts == [] then [] else TextWrites(store, texts[0]) + RunWrites(ExecuteText(store, texts[0]).0, texts[1..])
  }

  lemma TextMakes(store: Store, sql: string)
    ensures ExecuteText(store, sql).0 == MakeAll(store, TextWrites(store, sql)) && AllOfKind(TextWrites(store, sql))
  {
    hide ParseText, WritesOf, Execute, WellFormed, WriteOfKind;
    if ParseText(sql).Read? {
      ParsedWellFormed(sql);
      WritesMake(store, ParseText(sql).value);
      WritesOfKind(store, ParseText(sql).value);
    } else {
      NoWrites(store);
    }
  }

  lemma {:induction false} MakeConcat(store: Store, a: seq<Write>, b: seq<Write>)
    ensures MakeAll(store, a + b) == MakeAll(MakeAll(store, a), b)
    decreases |a|
  {
    hide Make;
    if a == [] {
      assert a + b == b;
    } else {
      MakeConcat(Make(store, a[0]), a[1..], b);
      assert (a + b)[1..] == a[1..] + b;
    }
  }

  lemma {:induction false} RunMakes(store: Store, texts: seq<string>)
    ensures ExecuteTexts(store, texts) == MakeAll(store, RunWrites(store, texts)) && AllOfKind(RunWrites(store, texts))
    decreases |texts|
  {
    hide ExecuteText, TextWrites, WriteOfKind;
    if texts == [] {
      NoWrites(store);
    } else {
      var rest := ExecuteText(store, texts[0]).0;
      TextMakes(store, texts[0]);
      RunMakes(rest, texts[1..]);
      MakeConcat(store, TextWrites(store, texts[0]), RunWrites(rest, texts[1..]));
    }
  }

  /** The first writes of a run stand in the engine for the store they make. */
  lemma PrefixStored(texts: seq<string>, n: nat)
    requires AllRoomy(EMPTY, RecordsOf(RunWrites(map[], texts))) && n <= |RunWrites(map[], texts)|
    ensures var made := MakeAll(map[], RunWrites(map[], texts)[..n]);
            StoreFits(made) && ContentsAfter(map[], RecordsOf(RunWrites(map[], texts))[..n]) == Stored(made)
  {
    hide WriteOfKind, Writable, RecordOf, RunWrites, CellFits, EncodeCell, AllRoomy;
    var writes := RunWrites(map[], texts);
    RunMakes(map[], texts);
    RoomyWritable(EMPTY, RecordsOf(writes));
    assert forall i :: 0 <= i < |writes| ==> RecordsOf(writes)[i] == RecordOf(writes[i]);
    assert RecordsOf(writes)[..n] == RecordsOf(writes[..n]);
    assert Stored(map[]) == map[];
    MakeAllStored(map[], writes[..n]);
  }

  /** Whatever texts an executor runs on an engine that starts empty, within the limits of the files, the
      disk they leave opens as one map, and that map decodes to the executor's store. */
  lemma DatabaseReopens(texts: seq<string>, m: Contents)
    requires AllRoomy(EMPTY, RecordsOf(RunWrites(map[], texts)))
    ensures var d := DiskAfter(NOTHING, EMPTY, RecordsOf(RunWrites(map[], texts)));
            && (Recovers(d, m) ==> Loaded(m) == ExecuteTexts(map[], texts))
            && Recovers(d, Stored(ExecuteTexts(map[], texts)))
  {
    hide Recovers, DiskAfter, ContentsAfter, AllRoomy, StoreFits, Stored, Loaded, MakeAll, RunWrites, RecordsOf;
    var writes := RunWrites(map[], texts);
    var store := ExecuteTexts(map[], texts);
    RunMakes(map[], texts);
    assert writes[..|writes|] == writes && RecordsOf(writes)[..|writes|] == RecordsOf(writes);
    PrefixStored(texts, |writes|);
    RunDurable(RecordsOf(writes), m);
    RunDurable(RecordsOf(writes), Stored(store));
    StoreRoundTrip(store);
  }

  lemma {:induction false} RunOneMore(store: Store, texts: seq<string>, sql: string)
    ensures RunWrites(store, texts + [sql]) == RunWrites(store, texts) + TextWrites(ExecuteTexts(store, texts), sql)
    ensures ExecuteTexts(store, texts + [sql]) == ExecuteText(ExecuteTexts(store, texts), sql).0
    decreases |texts|
  {
    hide ExecuteText, TextWrites;
    if texts == [] {
      assert [sql][1..] == [] && texts + [sql] == [sql];
    } else {
      RunOneMore(ExecuteText(store, texts[0]).0, texts[1..], sql);
      assert (texts + [sql])[1..] == texts[1..] + [sql];
    }
  }

  /** The disk may be what a crash leaves in the i-th of these writes, before it removes any table. */
  ghost predicate CrashInWrite(records: seq<Record>, i: nat, d': Disk)
    requires i < |records|
  {
    CrashBeforeRemovals(DiskAfter(NOTHING, EMPTY, records[..i]), EngineAfter(EMPTY, records[..i]), records[i], d')
  }

  /** The disk opens as a map that decodes to the store. */
  ghost predicate Reopens(d: Disk, store: Store) { exists m :: Recovers(d, m) && Loaded(m) == store }

  lemma CrashInRun(texts: seq<string>, i: nat, d': Disk)
    requires var records := RecordsOf(RunWrites(map[], texts)); AllRoomy(EMPTY, records) && i < |records| && CrashInWrite(records, i, d')
    ensures Reopens(d', MakeAll(map[], RunWrites(map[], texts)[..i])) || Reopens(d', MakeAll(map[], RunWrites(map[], texts)[..i + 1]))
  {
    hide Recovers, DiskAfter, EngineAfter, ContentsAfter, AllRoomy, StoreFits, Stored, Loaded, MakeAll, RunWrites, CrashBeforeRemovals;
    var writes := RunWrites(map[], texts);
    RunCrashSafe(RecordsOf(writes), i, d');
    PrefixStored(texts, i);
    PrefixStored(texts, i + 1);
    StoreRoundTrip(MakeAll(map[], writes[..i]));
    StoreRoundTrip(MakeAll(map[], writes[..i + 1]));
  }

  /** A crash in the j-th write of a statement leaves the database as the statements before it made it, with
      the statement's first j writes done, or j + 1. */
  lemma DatabaseCrashSafe(texts: seq<string>, sql: string, j: nat, d': Disk)
    requires AllRoomy(EMPTY, RecordsOf(RunWrites(map[], texts + [sql])))
    requires j < |TextWrites(ExecuteTexts(map[], texts), sql)|
    requires |RunWrites(map[], texts)| + j < |RunWrites(map[], texts + [sql])|
             && CrashInWrite(RecordsOf(RunWrites(map[], texts + [sql])), |RunWrites(map[], texts)| + j, d')
    ensures var store, writes := ExecuteTexts(map[], texts), TextWrites(ExecuteTexts(map[], texts), sql);
            Reopens(d', MakeAll(store, writes[..j])) || Reopens(d', MakeAll(store, writes[..j + 1]))
  {
    hide AllRoomy, MakeAll, RunWrites, CrashInWrite, Reopens, ExecuteTexts, TextWrites, RecordOf;
    var before, writes := RunWrites(map[], texts), TextWrites(ExecuteTexts(map[], texts), sql);
    RunOneMore(map[], texts, sql);
    RunMakes(map[], texts);
    CrashInRun(texts + [sql], |before| + j, d');
    assert (before + writes)[..|before| + j] == before + writes[..j] && (before + writes)[..|before| + j + 1] == before + writes[..j + 1];
    MakeConcat(map[], before, writes[..j]);
    MakeConcat(map[], before, writes[..j + 1]);
  }

  /** A statement other than UPDATE and DELETE happens altogether or not at all. */
  lemma StatementAtomic(texts: seq<string>, stmt: Statement, sql: string, d': Disk)
    requires ParseText(sql) == Read(stmt) && !stmt.Update? && !stmt.Delete?
    requires AllRoomy(EMPTY, RecordsOf(RunWrites(map[], texts + [sql])))
    requires |RunWrites(map[], texts)| < |RunWrites(map[], texts + [sql])|
             && CrashInWrite(RecordsOf(RunWrites(map[], texts + [sql])), |RunWrites(map[], texts)|, d')
    ensures Reopens(d', ExecuteTexts(map[], texts)) || Reopens(d', ExecuteTexts(map[], texts + [sql]))
  {
    hide AllRoomy, MakeAll, RunWrites, CrashInWrite, Reopens, ExecuteTexts, RecordOf, ParseText, Execute, WrittenCell;
    var store := ExecuteTexts(map[], texts);
    var writes := TextWrites(store, sql);
    RunOneMore(map[], texts, sql);
    assert |writes| == 1;
    DatabaseCrashSafe(texts, sql, 0, d');
    NoWrites(store);
    TextMakes(store, sql);
    assert writes[..0] == [] && writes[..1] == writes;
  }
}
