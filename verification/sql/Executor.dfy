/**
 The statement executor over a store of keys. Cells hold decoded values; the codecs of SqlCodecs
 take them to and from bytes.
 */
module SqlExecution {
  import opened Options
  import opened Strings
  import opened SortedStrings
  import opened SqlAst
  import opened SqlKeys
  import opened SqlNumbers

  datatype Cell = Marker | SchemaCell(schema: Schema) | RowCell(row: Row)

  type Store = map<string, Cell>

  // ------------------------------------------------------------------------------------------
  // Schemas and rows
  // ------------------------------------------------------------------------------------------

  function FirstIndex(columns: seq<ColumnDef>, name: string): Option<nat>
    ensures var i := FirstIndex(columns, name);
            && (i.Some? ==> i.value < |columns| && columns[i.value].name == name)
            && (i.None? ==> forall k :: 0 <= k < |columns| ==> columns[k].name != name)
    decreases |columns|
  {
    if columns == [] then None
    else if columns[0].name == name then Some(0)
    else
      var rest := FirstIndex(columns[1..], name);
      if rest.Some? then Some(rest.value + 1) else None
  }

  function ColumnIndex(schema: Schema, name: string): Option<nat> { FirstIndex(schema.columns, name) }

  function FirstPrimary(columns: seq<ColumnDef>): Option<nat>
    ensures var i := FirstPrimary(columns);
            && (i.Some? ==> i.value < |columns| && columns[i.value].primaryKey)
            && (i.None? ==> forall k :: 0 <= k < |columns| ==> !columns[k].primaryKey)
    decreases |columns|
  {
    if columns == [] then None
    else if columns[0].primaryKey then Some(0)
    else
      var rest := FirstPrimary(columns[1..]);
      if rest.Some? then Some(rest.value + 1) else None
  }

  function PrimaryKeyIndex(schema: Schema): Option<nat> { FirstPrimary(schema.columns) }

  /** A schema a parsed CREATE TABLE can lead to: there is a primary key column. */
  predicate SchemaOk(schema: Schema) { PrimaryKeyIndex(schema).Some? }

  function LoadSchema(store: Store, db: string, table: string): Option<Schema> {
    var k := SchemaKey(db, table);
    if k in store && store[k].SchemaCell? then Some(store[k].schema) else None
  }

  /** Missing trailing columns are filled in from their defaults. None stands for following a default
      that is not there. */
  function PadRow(schema: Schema, row: Row): Option<Row>
    decreases |schema.columns| - |row|
  {
    if |row| >= |schema.columns| then Some(row)
    else if schema.columns[|row|].defaultValue.None? then None
    else PadRow(schema, row + [schema.columns[|row|].defaultValue.value])
  }

  function CompareValues(cmp: int, op: CompareOp): bool {
    match op
    case Eq => cmp == 0
    case Ne => cmp != 0
    case Lt => cmp < 0
    case Le => cmp <= 0
    case Gt => cmp > 0
    case Ge => cmp >= 0
  }

  function CompareTexts(a: string, b: string): int { if Less(a, b) then -1 else if Less(b, a) then 1 else 0 }

  /** None stands for the exception of a literal that is not a number. */
  function CompareLiterals(columnType: ColumnType, lhs: string, op: CompareOp, rhs: string): Option<bool> {
    match columnType
    case Text => Some(CompareValues(CompareTexts(lhs, rhs), op))
    case Int =>
      var a, b := ReadNumber(lhs), ReadNumber(rhs);
      if a.None? || b.None? then None
      else Some(CompareValues(if a.value < b.value then -1 else if a.value > b.value then 1 else 0, op))
  }

  datatype Verdict = Match | NoMatch | Throws(error: SqlError)

  function MatchesWhere(schema: Schema, row: Row, where: seq<Condition>): Verdict
    decreases |where|
  {
    if where == [] then Match
    else
      var idx := ColumnIndex(schema, where[0].column);
      if idx.None? then Throws(NoSuchColumn(where[0].column))
      else if idx.value >= |row| then Throws(UnreadableRow)
      else
        var holds := CompareLiterals(schema.columns[idx.value].columnType, row[idx.value], where[0].op, where[0].literal);
        if holds.None? then Throws(BadNumber)
        else if !holds.value then NoMatch
        else MatchesWhere(schema, row, where[1..])
  }

  // ------------------------------------------------------------------------------------------
  // Scanning a table
  // ------------------------------------------------------------------------------------------

  datatype Entry = Entry(key: string, row: Row)

  function KeysUnder(store: Store, prefix: string): set<string> { set k | k in store && StartsWith(k, prefix) }

  ghost function ScanKeys(store: Store, prefix: string): seq<string> { Sorted(KeysUnder(store, prefix)) }

  function RowAt(store: Store, k: string): Row {
    if k in store && store[k].RowCell? then store[k].row else []
  }

  function EntriesAt(store: Store, keys: seq<string>): (entries: seq<Entry>)
    ensures |entries| == |keys| && forall i :: 0 <= i < |keys| ==> entries[i] == Entry(keys[i], RowAt(store, keys[i]))
    decreases |keys|
  {
    if keys == [] then [] else [Entry(keys[0], RowAt(store, keys[0]))] + EntriesAt(store, keys[1..])
  }

  ghost function ScanRows(store: Store, db: string, table: string): seq<Entry> {
    EntriesAt(store, ScanKeys(store, RowPrefix(db, table)))
  }

  ghost predicate UnderRowKeys(store: Store, entries: seq<Entry>) {
    forall i {:trigger entries[i]} | 0 <= i < |entries| :: IsRowKey(entries[i].key) && entries[i].key in store
  }

  lemma ScannedRowKeys(store: Store, db: string, table: string)
    ensures UnderRowKeys(store, ScanRows(store, db, table))
  {
    hide IsRowKey, StartsWith;
    var keys := ScanKeys(store, RowPrefix(db, table));
    forall i | 0 <= i < |keys| ensures IsRowKey(keys[i]) && keys[i] in store {
      assert keys[i] in KeysUnder(store, RowPrefix(db, table));
      PrefixedIsRowKey(db, table, keys[i]);
    }
  }

  // ------------------------------------------------------------------------------------------
  // Definitions
  // ------------------------------------------------------------------------------------------

  function ExecuteCreateDatabase(store: Store, name: string): (Store, Result) {
    if DatabaseKey(name) in store then (store, Failed(DatabaseExists))
    else (store[DatabaseKey(name) := Marker], Ok(Done))
  }

  function ExecuteCreateTable(store: Store, db: string, table: string, columns: seq<ColumnDef>): (Store, Result) {
    if DatabaseKey(db) !in store then (store, Failed(NoSuchDatabase))
    else if SchemaKey(db, table) in store then (store, Failed(TableExists))
    else (store[SchemaKey(db, table) := SchemaCell(Schema(columns))], Ok(Done))
  }

  /** The checks of ALTER TABLE ADD COLUMN, and the schema that follows. */
  function ExtendSchema(schema: Schema, column: ColumnDef): (Schema, Option<SqlError>) {
    if ColumnIndex(schema, column.name).Some? then (schema, Some(ColumnExists))
    else if column.defaultValue.None? then (schema, Some(MissingDefault))
    else if column.columnType == Int && !ValidInt(column.defaultValue.value) then (schema, Some(InvalidInteger(column.name)))
    else (Schema(schema.columns + [column]), None)
  }

  function ExecuteAddColumn(store: Store, db: string, table: string, column: ColumnDef): (Store, Result) {
    match LoadSchema(store, db, table)
    case None => (store, Failed(NoSuchTable))
    case Some(schema) =>
      var (extended, error) := ExtendSchema(schema, column);
      if error.Some? then (store, Failed(error.value))
      else (store[SchemaKey(db, table) := SchemaCell(extended)], Ok(Done))
  }

  // ------------------------------------------------------------------------------------------
  // Insert
  // ------------------------------------------------------------------------------------------

  /** The loop over the named columns: row and filled flags so far, or the first error. */
  datatype Filling = Filling(row: Row, filled: seq<bool>) | Stopped(error: SqlError)

  function FillRow(schema: Schema, columns: seq<string>, values: seq<string>, row: Row, filled: seq<bool>): Filling
    requires |row| == |filled| == |schema.columns|
    decreases |columns|
  {
    if columns == [] then Filling(row, filled)
    else
      var idx := ColumnIndex(schema, columns[0]);
      if idx.None? then Stopped(NoSuchColumn(columns[0]))
      else if filled[idx.value] then Stopped(ColumnTwice(columns[0]))
      else if values == [] then Stopped(WrongColumnCount)
      else if schema.columns[idx.value].columnType == Int && !ValidInt(values[0]) then Stopped(InvalidInteger(columns[0]))
      else FillRow(schema, columns[1..], values[1..], row[idx.value := values[0]], filled[idx.value := true])
  }

  function Blank(n: nat): (r: Row)
    ensures |r| == n
  {
    seq(n, i => "")
  }

  function Unfilled(n: nat): (r: seq<bool>)
    ensures |r| == n
  {
    seq(n, i => false)
  }

  /** The row an INSERT describes, in schema order. */
  function InsertRow(schema: Schema, columns: seq<string>, values: seq<string>): Filling {
    if |columns| != |schema.columns| then Stopped(WrongColumnCount)
    else FillRow(schema, columns, values, Blank(|schema.columns|), Unfilled(|schema.columns|))
  }

  function ExecuteInsert(store: Store, db: string, table: string, columns: seq<string>, values: seq<string>): (Store, Result) {
    match LoadSchema(store, db, table)
    case None => (store, Failed(NoSuchTable))
    case Some(schema) =>
      match InsertRow(schema, columns, values)
      case Stopped(error) => (store, Failed(error))
      case Filling(row, _) =>
        var pk := PrimaryKeyIndex(schema);
        if pk.None? || pk.value >= |row| then (store, Failed(UnreadableRow))
        else
          var k := RowKey(db, table, row[pk.value]);
          if k in store then (store, Failed(DuplicateKey(row[pk.value])))
          else (store[k := RowCell(row)], Ok(Done))
  }

  // ------------------------------------------------------------------------------------------
  // Select
  // ------------------------------------------------------------------------------------------

  function Names(columns: seq<ColumnDef>): seq<string>
    decreases |columns|
  {
    if columns == [] then [] else [columns[0].name] + Names(columns[1..])
  }

  function Upto(n: nat): seq<nat> { seq(n, i => i) }

  /** The positions of the selected columns, or the first name that is not there. */
  datatype Projection = Projection(indices: seq<nat>) | Unknown(column: string)

  function Project(schema: Schema, columns: seq<string>): Projection
    decreases |columns|
  {
    if columns == [] then Projection([])
    else
      var idx := ColumnIndex(schema, columns[0]);
      if idx.None? then Unknown(columns[0])
      else
        match Project(schema, columns[1..])
        case Unknown(column) => Unknown(column)
        case Projection(rest) => Projection([idx.value] + rest)
  }

  function ProjectionOf(schema: Schema, columns: seq<string>): Projection {
    if columns == [] then Projection(Upto(|schema.columns|)) else Project(schema, columns)
  }

  function HeadersOf(schema: Schema, columns: seq<string>): seq<string> {
    if columns == [] then Names(schema.columns) else columns
  }

  function Pick(row: Row, indices: seq<nat>): Row
    decreases |indices|
  {
    if indices == [] then [] else [if indices[0] < |row| then row[indices[0]] else ""] + Pick(row, indices[1..])
  }

  datatype Picked = Picked(rows: seq<Row>) | PickFailed(error: SqlError)

  function SelectOver(schema: Schema, entries: seq<Entry>, where: seq<Condition>, indices: seq<nat>): Picked
    decreases |entries|
  {
    if entries == [] then Picked([])
    else
      match PadRow(schema, entries[0].row)
      case None => PickFailed(UnreadableRow)
      case Some(row) =>
        match MatchesWhere(schema, row, where)
        case Throws(error) => PickFailed(error)
        case NoMatch => SelectOver(schema, entries[1..], where, indices)
        case Match =>
          match SelectOver(schema, entries[1..], where, indices)
          case PickFailed(error) => PickFailed(error)
          case Picked(rest) => Picked([Pick(row, indices)] + rest)
  }

  ghost function ExecuteSelect(store: Store, db: string, table: string, columns: seq<string>, where: seq<Condition>): Result {
    match LoadSchema(store, db, table)
    case None => Failed(NoSuchTable)
    case Some(schema) =>
      match ProjectionOf(schema, columns)
      case Unknown(column) => Failed(NoSuchColumn(column))
      case Projection(indices) =>
        match SelectOver(schema, ScanRows(store, db, table), where, indices)
        case PickFailed(error) => Failed(error)
        case Picked(rows) => Ok(Listing(HeadersOf(schema, columns), rows))
  }

  // ------------------------------------------------------------------------------------------
  // Update and delete
  // ------------------------------------------------------------------------------------------

  datatype Plan = Plan(changes: seq<(nat, string)>) | PlanFailed(error: SqlError)

  function PlanUpdate(schema: Schema, assignments: seq<(string, string)>): Plan
    decreases |assignments|
  {
    if assignments == [] then Plan([])
    else
      var idx := ColumnIndex(schema, assignments[0].0);
      if idx.None? then PlanFailed(NoSuchColumn(assignments[0].0))
      else if idx == PrimaryKeyIndex(schema) then PlanFailed(UpdatesPrimaryKey)
      else if schema.columns[idx.value].columnType == Int && !ValidInt(assignments[0].1) then PlanFailed(InvalidInteger(assignments[0].0))
      else
        match PlanUpdate(schema, assignments[1..])
        case PlanFailed(error) => PlanFailed(error)
        case Plan(rest) => Plan([(idx.value, assignments[0].1)] + rest)
  }

  function Change(row: Row, changes: seq<(nat, string)>): (r: Row)
    ensures |r| == |row|
    decreases |changes|
  {
    if changes == [] then row
    else Change(if changes[0].0 < |row| then row[changes[0].0 := changes[0].1] else row, changes[1..])
  }

  /** Rows are rewritten one by one; an exception leaves the earlier ones rewritten. */
  function UpdateOver(store: Store, schema: Schema, entries: seq<Entry>, where: seq<Condition>, changes: seq<(nat, string)>, count: nat): (Store, Result)
    decreases |entries|
  {
    if entries == [] then (store, Ok(Changed(count)))
    else
      match PadRow(schema, entries[0].row)
      case None => (store, Failed(UnreadableRow))
      case Some(row) =>
        match MatchesWhere(schema, row, where)
        case Throws(error) => (store, Failed(error))
        case NoMatch => UpdateOver(store, schema, entries[1..], where, changes, count)
        case Match => UpdateOver(store[entries[0].key := RowCell(Change(row, changes))], schema, entries[1..], where, changes, count + 1)
  }

  ghost function ExecuteUpdate(store: Store, db: string, table: string, assignments: seq<(string, string)>, where: seq<Condition>): (Store, Result) {
    match LoadSchema(store, db, table)
    case None => (store, Failed(NoSuchTable))
    case Some(schema) =>
      match PlanUpdate(schema, assignments)
      case PlanFailed(error) => (store, Failed(error))
      case Plan(changes) => UpdateOver(store, schema, ScanRows(store, db, table), where, changes, 0)
  }

  function DeleteOver(store: Store, schema: Schema, entries: seq<Entry>, where: seq<Condition>, count: nat): (Store, Result)
    decreases |entries|
  {
    if entries == [] then (store, Ok(Changed(count)))
    else
      match PadRow(schema, entries[0].row)
      case None => (store, Failed(UnreadableRow))
      case Some(row) =>
        match MatchesWhere(schema, row, where)
        case Throws(error) => (store, Failed(error))
        case NoMatch => DeleteOver(store, schema, entries[1..], where, count)
        case Match => DeleteOver(store - {entries[0].key}, schema, entries[1..], where, count + 1)
  }

  ghost function ExecuteDelete(store: Store, db: string, table: string, where: seq<Condition>): (Store, Result) {
    match LoadSchema(store, db, table)
    case None => (store, Failed(NoSuchTable))
    case Some(schema) => DeleteOver(store, schema, ScanRows(store, db, table), where, 0)
  }

  // ------------------------------------------------------------------------------------------
  // Listings
  // ------------------------------------------------------------------------------------------

  function Suffixes(keys: seq<string>, n: nat): seq<Row>
    decreases |keys|
  {
    if keys == [] then [] else [[if n <= |keys[0]| then keys[0][n..] else ""]] + Suffixes(keys[1..], n)
  }

  function SchemaPrefix(db: string): string { "__schema__/" + db + "/" }

  const DATABASE_PREFIX: string := "__database__/"

  ghost function ExecuteShowTables(store: Store, db: string): Result {
    if DatabaseKey(db) !in store then Failed(NoSuchDatabase)
    else Ok(Listing(["table"], Suffixes(ScanKeys(store, SchemaPrefix(db)), |SchemaPrefix(db)|)))
  }

  ghost function ExecuteShowDatabases(store: Store): Result {
    Ok(Listing(["database"], Suffixes(ScanKeys(store, DATABASE_PREFIX), |DATABASE_PREFIX|)))
  }

  ghost function Execute(store: Store, stmt: Statement): (Store, Result) {
    match stmt
    case CreateDatabase(name) => ExecuteCreateDatabase(store, name)
    case CreateTable(db, table, definitions) => ExecuteCreateTable(store, db, table, definitions)
    case AddColumn(db, table, column) => ExecuteAddColumn(store, db, table, column)
    case Insert(db, table, columns, values) => ExecuteInsert(store, db, table, columns, values)
    case Select(db, table, columns, where) => (store, ExecuteSelect(store, db, table, columns, where))
    case Update(db, table, assignments, where) => ExecuteUpdate(store, db, table, assignments, where)
    case Delete(db, table, where) => ExecuteDelete(store, db, table, where)
    case ShowTables(db) => (store, ExecuteShowTables(store, db))
    case ShowDatabases => (store, ExecuteShowDatabases(store))
  }

  // ------------------------------------------------------------------------------------------
  // Which row a statement is about
  // ------------------------------------------------------------------------------------------

  function FindPkEquality(pkName: string, where: seq<Condition>): Option<string>
    decreases |where|
  {
    if where == [] then None
    else if where[0].column == pkName && where[0].op == Eq then Some(where[0].literal)
    else FindPkEquality(pkName, where[1..])
  }

  function FindPkValue(pkName: string, columns: seq<string>, values: seq<string>): Option<string>
    decreases |columns|
  {
    if columns == [] || values == [] then None
    else if columns[0] == pkName then Some(values[0])
    else FindPkValue(pkName, columns[1..], values[1..])
  }

  function PkName(store: Store, db: string, table: string): Option<string> {
    match LoadSchema(store, db, table)
    case None => None
    case Some(schema) =>
      var pk := PrimaryKeyIndex(schema);
      if pk.None? then None else Some(schema.columns[pk.value].name)
  }

  function KeyedBy(db: string, table: string, pk: Option<string>): Option<string> {
    if pk.Some? then Some(RowKey(db, table, pk.value)) else None
  }

  function TryExtractRowKey(store: Store, stmt: Statement): Option<string> {
    match stmt
    case Insert(db, table, columns, values) =>
      var name := PkName(store, db, table);
      if name.None? then None else KeyedBy(db, table, FindPkValue(name.value, columns, values))
    case Select(db, table, _, where) =>
      var name := PkName(store, db, table);
      if name.None? then None else KeyedBy(db, table, FindPkEquality(name.value, where))
    case Update(db, table, _, where) =>
      var name := PkName(store, db, table);
      if name.None? then None else KeyedBy(db, table, FindPkEquality(name.value, where))
    case Delete(db, table, where) =>
      var name := PkName(store, db, table);
      if name.None? then None else KeyedBy(db, table, FindPkEquality(name.value, where))
    case _ => None
  }
}
