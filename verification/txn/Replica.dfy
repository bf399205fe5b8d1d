/**
 What a replica does with each committed command of its shard's log: run it as SQL, or let it drive
 two-phase commit. The main result is that a yes vote protects staged INSERTs.
 */
module TxnReplicas {
  import opened Options
  import opened SqlAst
  import opened SqlKeys
  import opened SqlParser
  import opened SqlExecution
  import opened SqlFrontEnd
  import opened ShardStatements
  import opened TxnParticipants

  datatype Command =
    | PrepareTxn(txn: TxnId, keys: seq<string>, commands: seq<string>)
    | CommitTxn(txn: TxnId)
    | AbortTxn(txn: TxnId)
    | Sql(text: string)

  datatype Replica = Replica(store: Store, locks: Locks)

  datatype Reply = Success | Unparsable | SqlFailed(error: SqlError) | StagedDuplicate(command: string) | Refused(refusal: Refusal)

  function ReplyOf(outcome: Outcome): Reply {
    match outcome
    case SyntaxError => Unparsable
    case Answered(Failed(error)) => SqlFailed(error)
    case Answered(Ok(_)) => Success
  }

  /** The row key of a staged INSERT. */
  function StagedKey(store: Store, sql: string): Option<string> {
    var stmt := ParseText(sql);
    if stmt.Read? && stmt.value.Insert? then TryExtractRowKey(store, stmt.value) else None
  }

  /** The first staged INSERT whose row is already there. */
  function StagedDuplicateIn(store: Store, commands: seq<string>): Option<string>
    decreases |commands|
  {
    if commands == [] then None
    else
      var key := StagedKey(store, commands[0]);
      if key.Some? && key.value in store then Some(commands[0]) else StagedDuplicateIn(store, commands[1..])
  }

  /** Staged commands run in order; an exception stops them, and the earlier ones stay. */
  ghost function RunStaged(store: Store, commands: seq<string>): (Store, Reply)
    decreases |commands|
  {
    if commands == [] then (store, Success)
    else
      var (store', outcome) := ExecuteText(store, commands[0]);
      if ReplyOf(outcome) != Success then (store', ReplyOf(outcome)) else RunStaged(store', commands[1..])
  }

  ghost function Apply(s: Replica, command: Command): (Replica, Reply) {
    match command
    case PrepareTxn(txn, keys, commands) =>
      var duplicate := StagedDuplicateIn(s.store, commands);
      if duplicate.Some? then (s, StagedDuplicate(duplicate.value))
      else
        var (locks, refusal) := Prepare(s.locks, txn, keys, commands);
        (Replica(s.store, locks), if refusal.Some? then Refused(refusal.value) else Success)
    case CommitTxn(txn) =>
      if txn !in s.locks.pending then (s, Refused(UnknownTxn(txn)))
      else
        var (store, reply) := RunStaged(s.store, s.locks.pending[txn].commands);
        (Replica(store, Resolve(s.locks, txn)), reply)
    case AbortTxn(txn) => (Replica(s.store, Abort(s.locks, txn)), Success)
    case Sql(text) =>
      var (store, outcome) := ExecuteText(s.store, text);
      (Replica(store, s.locks), ReplyOf(outcome))
  }

  ghost function Replay(s: Replica, commands: seq<Command>): Replica
    decreases |commands|
  {
    if commands == [] then s else Replay(Apply(s, commands[0]).0, commands[1..])
  }

  // ------------------------------------------------------------------------------------------
  // What one statement can do to keys
  // ------------------------------------------------------------------------------------------

  /** Primary key names persist, and only an INSERT adds a row, under the key it announces. */
  ghost predicate KeysStable(store: Store, store': Store, added: Option<string>) {
    && (forall db, table :: PkName(store, db, table).Some? ==> PkName(store', db, table) == PkName(store, db, table))
    && (forall k :: IsRowKey(k) && k in store' && k !in store ==> added == Some(k))
  }

  function AddedKey(store: Store, stmt: Statement): Option<string> {
    if stmt.Insert? then TryExtractRowKey(store, stmt) else None
  }

  /** Cells under row keys do not touch any schema. */
  lemma PkNameOf(store: Store, store': Store, db: string, table: string)
    requires forall k :: !IsRowKey(k) ==> (k in store <==> k in store') && (k in store && k in store' ==> store[k] == store'[k])
    ensures PkName(store', db, table) == PkName(store, db, table)
  {
    hide FirstPrimary, IsRowKey, SchemaKey;
    KindsApart("", db, table, "");
  }

  lemma {:induction false} FillErrors(schema: Schema, columns: seq<string>, values: seq<string>, row: Row, filled: seq<bool>)
    requires |row| == |filled| == |schema.columns|
    ensures var f := FillRow(schema, columns, values, row, filled); f.Stopped? ==> !f.error.DuplicateKey?
    decreases |columns|
  {
    if columns != [] && values != [] {
      var idx := ColumnIndex(schema, columns[0]);
      if idx.Some? {
        FillErrors(schema, columns[1..], values[1..], row[idx.value := values[0]], filled[idx.value := true]);
      }
    }
  }

  lemma InsertErrors(schema: Schema, columns: seq<string>, values: seq<string>)
    ensures var f := InsertRow(schema, columns, values); f.Stopped? ==> !f.error.DuplicateKey?
  {
    hide FillRow;
    FillErrors(schema, columns, values, Blank(|schema.columns|), Unfilled(|schema.columns|));
  }

  lemma InsertAnnounced(store: Store, db: string, table: string, columns: seq<string>, values: seq<string>)
    ensures var (store', result) := ExecuteInsert(store, db, table, columns, values);
            var key := TryExtractRowKey(store, Insert(db, table, columns, values));
            && (store' == store || (key.Some? && IsRowKey(key.value) && key.value !in store && exists row :: store' == store[key.value := RowCell(row)]))
            && (result.Failed? && result.error.DuplicateKey? ==> key.Some? && key.value in store)
  {
    hide InsertRow, FirstPrimary, FindPkValue, IsRowKey, RowKey, SchemaKey;
    var schema := LoadSchema(store, db, table);
    if schema.Some? { InsertErrors(schema.value, columns, values); }
    if schema.Some? && InsertRow(schema.value, columns, values).Filling? && PrimaryKeyIndex(schema.value).Some? {
      InsertedKey(schema.value, columns, values);
      RowKeyIsRowKey(db, table, InsertRow(schema.value, columns, values).row[PrimaryKeyIndex(schema.value).value]);
    }
  }

  lemma InsertStable(store: Store, db: string, table: string, columns: seq<string>, values: seq<string>)
    ensures KeysStable(store, ExecuteInsert(store, db, table, columns, values).0, TryExtractRowKey(store, Insert(db, table, columns, values)))
  {
    hide ExecuteInsert, PkName, TryExtractRowKey, IsRowKey;
    InsertAnnounced(store, db, table, columns, values);
    var store' := ExecuteInsert(store, db, table, columns, values).0;
    forall db', table' ensures PkName(store', db', table') == PkName(store, db', table') { PkNameOf(store, store', db', table'); }
  }

  lemma CreateStable(store: Store, stmt: Statement)
    requires stmt.CreateDatabase? || stmt.CreateTable?
    ensures KeysStable(store, Execute(store, stmt).0, None)
  {
    hide FirstPrimary, IsRowKey, SchemaKey, DatabaseKey, RowKey;
    var store' := Execute(store, stmt).0;
    forall db, table ensures PkName(store, db, table).Some? ==> PkName(store', db, table) == PkName(store, db, table) {
      KindsApart("", db, table, if stmt.CreateDatabase? then stmt.name else stmt.db);
    }
    forall k | IsRowKey(k) && k in store' ensures k in store {
      KindsApart(k, if stmt.CreateDatabase? then "" else stmt.db, if stmt.CreateDatabase? then "" else stmt.table, if stmt.CreateDatabase? then stmt.name else "");
    }
  }

  lemma AddColumnStable(store: Store, db: string, table: string, column: ColumnDef)
    ensures KeysStable(store, ExecuteAddColumn(store, db, table, column).0, None)
  {
    hide IsRowKey, SchemaKey;
    var store' := ExecuteAddColumn(store, db, table, column).0;
    var schema := LoadSchema(store, db, table);
    if schema.Some? && PrimaryKeyIndex(schema.value).Some? { SqlLazyAlter.FirstPrimaryStable(schema.value.columns, column); }
    forall k | IsRowKey(k) && k in store' ensures k in store { KindsApart(k, db, table, ""); }
  }

  /** No row is added, and only row cells change. */
  ghost predicate OnlyRows(store: Store, store': Store) {
    store'.Keys <= store.Keys && forall k {:trigger k in store} {:trigger k in store'} :: k in store && !IsRowKey(k) ==> k in store' && store'[k] == store[k]
  }

  lemma OnlyRowsStable(store: Store, store': Store)
    requires OnlyRows(store, store')
    ensures KeysStable(store, store', None)
  {
    hide PkName, IsRowKey;
    forall db, table ensures PkName(store', db, table) == PkName(store, db, table) { PkNameOf(store, store', db, table); }
  }

  lemma {:induction false} UpdateOnlyRows(store: Store, schema: Schema, entries: seq<SqlExecution.Entry>, where: seq<Condition>, changes: seq<(nat, string)>, count: nat)
    requires UnderRowKeys(store, entries)
    ensures OnlyRows(store, UpdateOver(store, schema, entries, where, changes, count).0)
    decreases |entries|
  {
    hide PadRow, MatchesWhere, Change, IsRowKey;
    if entries != [] && PadRow(schema, entries[0].row).Some? {
      var row := PadRow(schema, entries[0].row).value;
      UpdateOnlyRows(store, schema, entries[1..], where, changes, count);
      UpdateOnlyRows(store[entries[0].key := RowCell(Change(row, changes))], schema, entries[1..], where, changes, count + 1);
    }
  }

  lemma {:induction false} DeleteOnlyRows(store: Store, schema: Schema, entries: seq<SqlExecution.Entry>, where: seq<Condition>, count: nat)
    requires forall i {:trigger entries[i]} | 0 <= i < |entries| :: IsRowKey(entries[i].key)
    ensures OnlyRows(store, DeleteOver(store, schema, entries, where, count).0)
    decreases |entries|
  {
    hide PadRow, MatchesWhere, IsRowKey;
    if entries != [] && PadRow(schema, entries[0].row).Some? {
      DeleteOnlyRows(store, schema, entries[1..], where, count);
      DeleteOnlyRows(store - {entries[0].key}, schema, entries[1..], where, count + 1);
      assert OnlyRows(store, store - {entries[0].key});
    }
  }

  lemma RewriteStable(store: Store, stmt: Statement)
    requires stmt.Update? || stmt.Delete?
    ensures KeysStable(store, Execute(store, stmt).0, None)
  {
    hide LoadSchema, PlanUpdate, UpdateOver, DeleteOver, ScanRows, IsRowKey, PkName, KeysStable, OnlyRows;
    Unchanged(store);
    var schema := LoadSchema(store, stmt.db, stmt.table);
    if schema.Some? {
      ScannedRowKeys(store, stmt.db, stmt.table);
      var entries := ScanRows(store, stmt.db, stmt.table);
      if stmt.Delete? {
        DeleteOnlyRows(store, schema.value, entries, stmt.where, 0);
      } else if PlanUpdate(schema.value, stmt.assignments).Plan? {
        UpdateOnlyRows(store, schema.value, entries, stmt.where, PlanUpdate(schema.value, stmt.assignments).changes, 0);
      }
      OnlyRowsStable(store, Execute(store, stmt).0);
    }
  }

  lemma Unchanged(store: Store)
    ensures KeysStable(store, store, None) && OnlyRows(store, store)
  {
  }

  lemma StatementStable(store: Store, stmt: Statement)
    ensures KeysStable(store, Execute(store, stmt).0, AddedKey(store, stmt))
  {
    hide ExecuteCreateDatabase, ExecuteCreateTable, ExecuteAddColumn, ExecuteInsert, ExecuteSelect, ExecuteUpdate, ExecuteDelete,
      ExecuteShowTables, ExecuteShowDatabases, KeysStable, TryExtractRowKey;
    Unchanged(store);
    match stmt
    case CreateDatabase(_) => CreateStable(store, stmt);
    case CreateTable(_, _, _) => CreateStable(store, stmt);
    case AddColumn(db, table, column) => AddColumnStable(store, db, table, column);
    case Insert(db, table, columns, values) => InsertStable(store, db, table, columns, values);
    case Update(_, _, _, _) => RewriteStable(store, stmt);
    case Delete(_, _, _) => RewriteStable(store, stmt);
    case _ =>
  }

  // ------------------------------------------------------------------------------------------
  // What a yes vote protects
  // ------------------------------------------------------------------------------------------

  predicate IsInsert(sql: string) { ParseText(sql).Read? && ParseText(sql).value.Insert? }

  /** The i-th key is the row key of the i-th command, as far as that is an INSERT. */
  predicate Announced(store: Store, staged: Staged) {
    && |staged.keys| == |staged.commands|
    && forall i :: 0 <= i < |staged.commands| && IsInsert(staged.commands[i]) ==> StagedKey(store, staged.commands[i]) == Some(staged.keys[i])
  }

  /** An INSERT of the batch is for this row. */
  predicate Inserts(staged: Staged, key: string)
    requires |staged.keys| == |staged.commands|
  {
    exists i :: 0 <= i < |staged.commands| && IsInsert(staged.commands[i]) && staged.keys[i] == key
  }

  predicate Unoccupied(store: Store, staged: Staged)
    requires |staged.keys| == |staged.commands|
  {
    forall i :: 0 <= i < |staged.commands| && IsInsert(staged.commands[i]) ==> staged.keys[i] !in store
  }

  /** No two INSERTs of the batch are for one row; other statements may name it as often as they like. */
  predicate Distinct(staged: Staged) {
    forall i, j :: 0 <= i < j < |staged.commands| <= |staged.keys| && IsInsert(staged.commands[i]) && IsInsert(staged.commands[j]) ==> staged.keys[i] != staged.keys[j]
  }

  predicate Ready(store: Store, staged: Staged) { Announced(store, staged) && Distinct(staged) && Unoccupied(store, staged) }

  ghost predicate Protected(s: Replica) {
    Exact(s.locks) && forall t {:trigger s.locks.pending[t]} | t in s.locks.pending :: Ready(s.store, s.locks.pending[t])
  }

  /** The key a text would add. */
  function AddedBy(store: Store, sql: string): Option<string> {
    if ParseText(sql).Read? then AddedKey(store, ParseText(sql).value) else None
  }

  /** What the protection asks of the commands: batches name the row keys of their INSERTs, no two of them
      one row, and an INSERT outside transactions avoids locked keys. */
  predicate Careful(s: Replica, command: Command) {
    match command
    case PrepareTxn(txn, keys, commands) => txn in s.locks.pending || (Announced(s.store, Staged(keys, commands)) && Distinct(Staged(keys, commands)))
    case Sql(text) => AddedBy(s.store, text).Some? ==> AddedBy(s.store, text).value !in s.locks.locked
    case CommitTxn(_) => true
    case AbortTxn(_) => true
  }

  ghost predicate AllCareful(s: Replica, commands: seq<Command>)
    decreases |commands|
  {
    commands == [] || (Careful(s, commands[0]) && AllCareful(Apply(s, commands[0]).0, commands[1..]))
  }

  lemma TextStable(store: Store, sql: string)
    ensures KeysStable(store, ExecuteText(store, sql).0, AddedBy(store, sql))
    ensures AddedBy(store, sql) == StagedKey(store, sql)
  {
    hide ParseText, Execute, TryExtractRowKey, KeysStable;
    Unchanged(store);
    if ParseText(sql).Read? { StatementStable(store, ParseText(sql).value); }
  }

  /** A row key a statement announces stays the same while schemas only grow. */
  lemma StagedKeyStable(store: Store, store': Store, added: Option<string>, sql: string)
    requires KeysStable(store, store', added) && StagedKey(store, sql).Some?
    ensures StagedKey(store', sql) == StagedKey(store, sql) && IsRowKey(StagedKey(store, sql).value)
  {
    hide ParseText, PkName, FindPkValue, RowKey, IsRowKey;
    var stmt := ParseText(sql).value;
    var pk := FindPkValue(PkName(store, stmt.db, stmt.table).value, stmt.columns, stmt.values);
    RowKeyIsRowKey(stmt.db, stmt.table, pk.value);
  }

  lemma AnnouncedStable(store: Store, store': Store, added: Option<string>, staged: Staged)
    requires KeysStable(store, store', added) && Announced(store, staged)
    ensures Announced(store', staged)
    ensures Unoccupied(store, staged) && (added.Some? ==> !Inserts(staged, added.value)) ==> Unoccupied(store', staged)
  {
    hide IsInsert, StagedKey, IsRowKey, PkName;
    forall i | 0 <= i < |staged.commands| && IsInsert(staged.commands[i])
      ensures StagedKey(store', staged.commands[i]) == Some(staged.keys[i]) && IsRowKey(staged.keys[i])
    {
      StagedKeyStable(store, store', added, staged.commands[i]);
    }
  }

  /** The rest of a batch stays ready while its head runs. */
  lemma HeadRuns(store: Store, staged: Staged)
    requires Ready(store, staged) && staged.commands != []
    ensures Ready(ExecuteText(store, staged.commands[0]).0, Staged(staged.keys[1..], staged.commands[1..]))
    ensures forall error :: ReplyOf(ExecuteText(store, staged.commands[0]).1) == SqlFailed(error) ==> !error.DuplicateKey?
  {
    hide IsInsert, StagedKey, KeysStable, ExecuteText, ReplyOf;
    var sql := staged.commands[0];
    TextStable(store, sql);
    var rest := Staged(staged.keys[1..], staged.commands[1..]);
    AddedIsFirst(store, staged);
    StagedIsInsert(store, sql);
    if AddedBy(store, sql).Some? { FirstNotAgain(staged); }
    AnnouncedStable(store, ExecuteText(store, sql).0, AddedBy(store, sql), rest);
    NoDuplicate(store, sql);
  }

  lemma FirstNotAgain(staged: Staged)
    requires |staged.keys| == |staged.commands| > 0 && Distinct(staged) && IsInsert(staged.commands[0])
    ensures !Inserts(Staged(staged.keys[1..], staged.commands[1..]), staged.keys[0])
  {
    hide IsInsert;
    var rest := Staged(staged.keys[1..], staged.commands[1..]);
    forall i | 0 <= i < |rest.commands| && IsInsert(rest.commands[i]) ensures rest.keys[i] != staged.keys[0] {
      assert rest.commands[i] == staged.commands[i + 1] && rest.keys[i] == staged.keys[i + 1];
    }
  }

  lemma AddedIsFirst(store: Store, staged: Staged)
    requires Announced(store, staged) && staged.commands != []
    ensures StagedKey(store, staged.commands[0]) in [None, Some(staged.keys[0])]
    ensures Unoccupied(store, staged) && StagedKey(store, staged.commands[0]).Some? ==> StagedKey(store, staged.commands[0]).value !in store
  {
    hide ParseText, TryExtractRowKey;
  }

  // No other statement ever reports a duplicate key.

  lemma {:induction false} MatchErrors(schema: Schema, row: Row, where: seq<Condition>)
    ensures var v := MatchesWhere(schema, row, where); v.Throws? ==> !v.error.DuplicateKey?
    decreases |where|
  {
    hide CompareLiterals;
    if where != [] { MatchErrors(schema, row, where[1..]); }
  }

  lemma {:induction false} SelectErrors(schema: Schema, entries: seq<SqlExecution.Entry>, where: seq<Condition>, indices: seq<nat>)
    ensures var p := SelectOver(schema, entries, where, indices); p.PickFailed? ==> !p.error.DuplicateKey?
    decreases |entries|
  {
    hide PadRow, MatchesWhere, Pick;
    if entries != [] && PadRow(schema, entries[0].row).Some? {
      MatchErrors(schema, PadRow(schema, entries[0].row).value, where);
      SelectErrors(schema, entries[1..], where, indices);
    }
  }

  lemma {:induction false} PlanErrors(schema: Schema, assignments: seq<(string, string)>)
    ensures var p := PlanUpdate(schema, assignments); p.PlanFailed? ==> !p.error.DuplicateKey?
    decreases |assignments|
  {
    if assignments != [] { PlanErrors(schema, assignments[1..]); }
  }

  lemma {:induction false} UpdateErrors(store: Store, schema: Schema, entries: seq<SqlExecution.Entry>, where: seq<Condition>, changes: seq<(nat, string)>, count: nat)
    ensures var r := UpdateOver(store, schema, entries, where, changes, count).1; r.Failed? ==> !r.error.DuplicateKey?
    decreases |entries|
  {
    hide PadRow, MatchesWhere, Change;
    if entries != [] && PadRow(schema, entries[0].row).Some? {
      var row := PadRow(schema, entries[0].row).value;
      MatchErrors(schema, row, where);
      UpdateErrors(store, schema, entries[1..], where, changes, count);
      UpdateErrors(store[entries[0].key := RowCell(Change(row, changes))], schema, entries[1..], where, changes, count + 1);
    }
  }

  lemma {:induction false} DeleteErrors(store: Store, schema: Schema, entries: seq<SqlExecution.Entry>, where: seq<Condition>, count: nat)
    ensures var r := DeleteOver(store, schema, entries, where, count).1; r.Failed? ==> !r.error.DuplicateKey?
    decreases |entries|
  {
    hide PadRow, MatchesWhere;
    if entries != [] && PadRow(schema, entries[0].row).Some? {
      MatchErrors(schema, PadRow(schema, entries[0].row).value, where);
      DeleteErrors(store, schema, entries[1..], where, count);
      DeleteErrors(store - {entries[0].key}, schema, entries[1..], where, count + 1);
    }
  }

  lemma DuplicateAnnounced(store: Store, stmt: Statement)
    ensures var r := Execute(store, stmt).1;
            r.Failed? && r.error.DuplicateKey? ==> AddedKey(store, stmt).Some? && AddedKey(store, stmt).value in store
  {
    hide LoadSchema, PlanUpdate, UpdateOver, DeleteOver, SelectOver, ScanRows, ScanKeys, ExtendSchema, ProjectionOf, ExecuteInsert,
      TryExtractRowKey, HeadersOf;
    if stmt.Insert? {
      InsertAnnounced(store, stmt.db, stmt.table, stmt.columns, stmt.values);
    } else if stmt.AddColumn? {
      if LoadSchema(store, stmt.db, stmt.table).Some? { ExtendErrors(LoadSchema(store, stmt.db, stmt.table).value, stmt.column); }
    } else if (stmt.Select? || stmt.Update? || stmt.Delete?) && LoadSchema(store, stmt.db, stmt.table).Some? {
      var schema := LoadSchema(store, stmt.db, stmt.table).value;
      var entries := ScanRows(store, stmt.db, stmt.table);
      if stmt.Select? {
        var projection := ProjectionOf(schema, stmt.columns);
        if projection.Projection? { SelectErrors(schema, entries, stmt.where, projection.indices); }
      } else if stmt.Update? {
        PlanErrors(schema, stmt.assignments);
        var plan := PlanUpdate(schema, stmt.assignments);
        if plan.Plan? { UpdateErrors(store, schema, entries, stmt.where, plan.changes, 0); }
      } else {
        DeleteErrors(store, schema, entries, stmt.where, 0);
      }
    }
  }

  lemma ExtendErrors(schema: Schema, column: ColumnDef)
    ensures var e := ExtendSchema(schema, column).1; e.Some? ==> !e.value.DuplicateKey?
  {
  }

  /** An INSERT fails as a duplicate only when the row key it announces is taken. */
  lemma NoDuplicate(store: Store, sql: string)
    ensures forall error :: ReplyOf(ExecuteText(store, sql).1) == SqlFailed(error) && error.DuplicateKey? ==>
              StagedKey(store, sql).Some? && StagedKey(store, sql).value in store
  {
    hide ParseText, TryExtractRowKey, Execute;
    if ParseText(sql).Read? { DuplicateAnnounced(store, ParseText(sql).value); }
  }

  predicate IsDuplicate(reply: Reply) { reply.SqlFailed? && reply.error.DuplicateKey? }

  lemma {:induction false} ReadyRuns(store: Store, staged: Staged)
    requires Ready(store, staged)
    ensures !IsDuplicate(RunStaged(store, staged.commands).1)
    decreases |staged.commands|
  {
    hide Ready, ExecuteText, ReplyOf;
    if staged.commands != [] {
      SameLength(store, staged);
      HeadRuns(store, staged);
      ReadyRuns(ExecuteText(store, staged.commands[0]).0, Staged(staged.keys[1..], staged.commands[1..]));
    }
  }

  lemma SameLength(store: Store, staged: Staged)
    requires Ready(store, staged)
    ensures |staged.keys| == |staged.commands|
  {
  }

  /** A batch that runs leaves every other batch ready that shares no key with it. */
  lemma {:induction false} RunSparesOthers(store: Store, staged: Staged, other: Staged)
    requires Announced(store, staged) && Ready(store, other) && KeySet(staged.keys) !! KeySet(other.keys)
    ensures Ready(RunStaged(store, staged.commands).0, other)
    decreases |staged.commands|
  {
    hide IsInsert, StagedKey, KeysStable, ExecuteText, ReplyOf, Unoccupied, Distinct;
    if staged.commands != [] {
      var sql := staged.commands[0];
      TextStable(store, sql);
      AddedIsFirst(store, staged);
      assert staged.keys[0] in KeySet(staged.keys);
      assert AddedBy(store, sql).Some? ==> AddedBy(store, sql).value !in KeySet(other.keys);
      var store' := ExecuteText(store, sql).0;
      AnnouncedStable(store, store', AddedBy(store, sql), other);
      AnnouncedStable(store, store', AddedBy(store, sql), staged);
      var rest := Staged(staged.keys[1..], staged.commands[1..]);
      AnnouncedTail(store', staged);
      assert KeySet(rest.keys) <= KeySet(staged.keys);
      RunSparesOthers(store', rest, other);
    }
  }

  lemma AnnouncedTail(store: Store, staged: Staged)
    requires Announced(store, staged) && staged.commands != []
    ensures Announced(store, Staged(staged.keys[1..], staged.commands[1..]))
  {
    hide IsInsert, StagedKey;
  }

  /** The check made at PREPARE time passes an announced batch exactly if the rows of its INSERTs are free. */
  lemma {:induction false} CheckedUnoccupied(store: Store, staged: Staged)
    requires Announced(store, staged)
    ensures StagedDuplicateIn(store, staged.commands).None? <==> Unoccupied(store, staged)
    decreases |staged.commands|
  {
    hide IsInsert, StagedKey;
    if staged.commands != [] {
      var rest := Staged(staged.keys[1..], staged.commands[1..]);
      AnnouncedTail(store, staged);
      CheckedUnoccupied(store, rest);
      StagedIsInsert(store, staged.commands[0]);
      if Unoccupied(store, rest) && (IsInsert(staged.commands[0]) ==> staged.keys[0] !in store) {
        forall i | 0 <= i < |staged.commands| && IsInsert(staged.commands[i]) ensures staged.keys[i] !in store {
          if i > 0 { assert rest.commands[i - 1] == staged.commands[i] && rest.keys[i - 1] == staged.keys[i]; }
        }
      }
      if Unoccupied(store, staged) {
        forall i | 0 <= i < |rest.commands| && IsInsert(rest.commands[i]) ensures rest.keys[i] !in store {
          assert rest.commands[i] == staged.commands[i + 1] && rest.keys[i] == staged.keys[i + 1];
        }
      }
    }
  }

  lemma StagedIsInsert(store: Store, sql: string)
    ensures StagedKey(store, sql).Some? ==> IsInsert(sql)
  {
    hide ParseText, TryExtractRowKey;
  }

  lemma FirstLockedIff(locked: set<string>, keys: seq<string>)
    ensures FirstLocked(locked, keys).None? <==> KeySet(keys) !! locked
  {
    if FirstLocked(locked, keys).Some? { assert FirstLocked(locked, keys).value in KeySet(keys); }
  }

  /** The vote on a new announced batch: yes exactly if the rows of its INSERTs are free and none of its
      keys is locked. Whether a key occurs twice plays no part. */
  lemma VoteIff(s: Replica, txn: TxnId, keys: seq<string>, commands: seq<string>)
    requires Announced(s.store, Staged(keys, commands)) && txn !in s.locks.pending
    ensures var (s', vote) := Apply(s, PrepareTxn(txn, keys, commands));
            && (vote == Success <==> Unoccupied(s.store, Staged(keys, commands)) && KeySet(keys) !! s.locks.locked)
            && (if vote == Success then txn in s'.locks.pending && s'.locks.pending[txn] == Staged(keys, commands) && s'.store == s.store
                else s' == s)
  {
    hide Announced, Unoccupied, KeySet, FirstLocked, StagedDuplicateIn;
    CheckedUnoccupied(s.store, Staged(keys, commands));
    FirstLockedIff(s.locks.locked, keys);
  }

  /** Whatever a careful command is, it leaves every prepared batch ready. */
  lemma ApplyKeepsProtected(s: Replica, command: Command)
    requires Protected(s) && Careful(s, command)
    ensures Protected(Apply(s, command).0)
  {
    hide Exact, Ready, Announced, Distinct, StagedDuplicateIn, RunStaged, ExecuteText, AddedBy, KeySet, FirstLocked;
    match command
    case PrepareTxn(txn, keys, commands) =>
      PrepareKeepsExact(s.locks, txn, keys, commands);
      if txn !in s.locks.pending && StagedDuplicateIn(s.store, commands).None? { PreparedReady(s.store, Staged(keys, commands)); }
    case CommitTxn(txn) =>
      if txn in s.locks.pending { CommitKeepsProtected(s, txn); }
    case AbortTxn(txn) =>
      if txn in s.locks.pending { ResolveKeepsExact(s.locks, txn); }
    case Sql(text) =>
      forall t | t in s.locks.pending ensures Ready(ExecuteText(s.store, text).0, s.locks.pending[t]) {
        LockedByPending(s.locks, t);
        PlainSpares(s.store, s.locks.pending[t], s.locks.locked, text);
      }
  }

  lemma PreparedReady(store: Store, staged: Staged)
    requires Announced(store, staged) && Distinct(staged) && StagedDuplicateIn(store, staged.commands).None?
    ensures Ready(store, staged)
  {
    hide Announced, Distinct;
    CheckedUnoccupied(store, staged);
  }

  lemma CommitKeepsProtected(s: Replica, txn: TxnId)
    requires Protected(s) && txn in s.locks.pending
    ensures Protected(Replica(RunStaged(s.store, s.locks.pending[txn].commands).0, Resolve(s.locks, txn)))
  {
    hide Ready, RunStaged, KeySet;
    ResolveKeepsExact(s.locks, txn);
    var staged := s.locks.pending[txn];
    ReadyAnnounced(s.store, staged);
    forall t | t in s.locks.pending && t != txn ensures Ready(RunStaged(s.store, staged.commands).0, s.locks.pending[t]) {
      RunSparesOthers(s.store, staged, s.locks.pending[t]);
    }
  }

  lemma ReadyAnnounced(store: Store, staged: Staged)
    requires Ready(store, staged)
    ensures Announced(store, staged)
  {
    hide Announced;
  }

  lemma PlainSpares(store: Store, staged: Staged, locked: set<string>, sql: string)
    requires Ready(store, staged) && KeySet(staged.keys) <= locked
    requires AddedBy(store, sql).Some? ==> AddedBy(store, sql).value !in locked
    ensures Ready(ExecuteText(store, sql).0, staged)
  {
    hide IsInsert, StagedKey, KeysStable, ExecuteText, Unoccupied, Distinct, AddedBy;
    TextStable(store, sql);
    assert forall k :: k in staged.keys ==> k in KeySet(staged.keys);
    AnnouncedStable(store, ExecuteText(store, sql).0, AddedBy(store, sql), staged);
  }

  lemma NothingPreparedProtected(store: Store)
    ensures Protected(Replica(store, NO_LOCKS))
  {
    hide Ready;
  }

  lemma {:induction false} ReplayKeepsProtected(s: Replica, commands: seq<Command>)
    requires Protected(s) && AllCareful(s, commands)
    ensures Protected(Replay(s, commands))
    decreases |commands|
  {
    hide Protected, Careful, Apply;
    if commands != [] {
      ApplyKeepsProtected(s, commands[0]);
      ReplayKeepsProtected(Apply(s, commands[0]).0, commands[1..]);
    }
  }

  /** A yes vote protects staged INSERTs: in any history of careful commands, however transactions
      interleave, no COMMIT ever meets a duplicate key. */
  lemma YesVoteProtects(store: Store, commands: seq<Command>, txn: TxnId)
    requires AllCareful(Replica(store, NO_LOCKS), commands)
    ensures !IsDuplicate(Apply(Replay(Replica(store, NO_LOCKS), commands), CommitTxn(txn)).1)
  {
    hide AllCareful, Replay, Ready, RunStaged;
    NothingPreparedProtected(store);
    ReplayKeepsProtected(Replica(store, NO_LOCKS), commands);
    var s := Replay(Replica(store, NO_LOCKS), commands);
    if txn in s.locks.pending { ReadyRuns(s.store, s.locks.pending[txn]); }
  }

  // ------------------------------------------------------------------------------------------
  // Locks over whole histories
  // ------------------------------------------------------------------------------------------

  lemma ApplyKeepsExact(s: Replica, command: Command)
    requires Exact(s.locks)
    ensures Exact(Apply(s, command).0.locks)
  {
    hide Exact, StagedDuplicateIn, RunStaged, ExecuteText, Prepare;
    match command
    case PrepareTxn(txn, keys, commands) => PrepareKeepsExact(s.locks, txn, keys, commands);
    case CommitTxn(txn) => if txn in s.locks.pending { ResolveKeepsExact(s.locks, txn); }
    case AbortTxn(txn) => if txn in s.locks.pending { ResolveKeepsExact(s.locks, txn); }
    case Sql(_) =>
  }

  /** In every history whatsoever, the locked keys are exactly those of pending transactions, and no
      two of these share one. */
  lemma {:induction false} LocksStayExact(s: Replica, commands: seq<Command>)
    requires Exact(s.locks)
    ensures Exact(Replay(s, commands).locks)
    decreases |commands|
  {
    hide Exact, Apply;
    if commands != [] {
      ApplyKeepsExact(s, commands[0]);
      LocksStayExact(Apply(s, commands[0]).0, commands[1..]);
    }
  }

  // ------------------------------------------------------------------------------------------
  // Aborted transactions
  // ------------------------------------------------------------------------------------------

  /** The replica with one more transaction pending. */
  function WithPending(s: Replica, txn: TxnId, staged: Staged): Replica {
    Replica(s.store, Locks(s.locks.pending[txn := staged], s.locks.locked + KeySet(staged.keys)))
  }

  predicate Unrelated(s: Replica, txn: TxnId, keys: seq<string>) { txn !in s.locks.pending && KeySet(keys) !! s.locks.locked }

  /** The command is not about the transaction, and asks for none of its keys. */
  predicate Elsewhere(command: Command, txn: TxnId, keys: seq<string>) {
    match command
    case PrepareTxn(other, wanted, _) => other != txn && KeySet(wanted) !! KeySet(keys)
    case CommitTxn(other) => other != txn
    case AbortTxn(other) => other != txn
    case Sql(_) => true
  }

  lemma {:induction false} FirstLockedElsewhere(locked: set<string>, more: set<string>, keys: seq<string>)
    requires KeySet(keys) !! more
    ensures FirstLocked(locked + more, keys) == FirstLocked(locked, keys)
    decreases |keys|
  {
    if keys != [] {
      assert keys[0] in KeySet(keys) && KeySet(keys[1..]) <= KeySet(keys);
      FirstLockedElsewhere(locked, more, keys[1..]);
    }
  }

  lemma UpdatesCommute(pending: map<TxnId, Staged>, a: TxnId, x: Staged, b: TxnId, y: Staged)
    requires a != b
    ensures (pending[a := x])[b := y] == (pending[b := y])[a := x]
  {
  }

  lemma PrepareElsewhere(s: Replica, txn: TxnId, staged: Staged, command: Command)
    requires command.PrepareTxn? && Unrelated(s, txn, staged.keys) && Elsewhere(command, txn, staged.keys)
    ensures var (s', reply) := Apply(s, command);
            Apply(WithPending(s, txn, staged), command) == (WithPending(s', txn, staged), reply) && Unrelated(s', txn, staged.keys)
  {
    hide KeySet, FirstLocked, StagedDuplicateIn;
    FirstLockedElsewhere(s.locks.locked, KeySet(staged.keys), command.keys);
    UpdatesCommute(s.locks.pending, txn, staged, command.txn, Staged(command.keys, command.commands));
    assert s.locks.locked + KeySet(staged.keys) + KeySet(command.keys) == s.locks.locked + KeySet(command.keys) + KeySet(staged.keys);
  }

  lemma ResolveElsewhere(s: Replica, txn: TxnId, staged: Staged, other: TxnId)
    requires Exact(s.locks) && Unrelated(s, txn, staged.keys) && other in s.locks.pending
    ensures Resolve(WithPending(s, txn, staged).locks, other) == WithPending(Replica(s.store, Resolve(s.locks, other)), txn, staged).locks
  {
    hide KeySet;
    LockedByPending(s.locks, other);
    var pending := s.locks.pending;
    assert other != txn && pending[txn := staged] - {other} == (pending - {other})[txn := staged];
  }

  /** A command about other transactions and other keys does the same whether or not one more is pending. */
  lemma ElsewhereCommutes(s: Replica, txn: TxnId, staged: Staged, command: Command)
    requires Exact(s.locks) && Unrelated(s, txn, staged.keys) && Elsewhere(command, txn, staged.keys)
    ensures var (s', reply) := Apply(s, command);
            Apply(WithPending(s, txn, staged), command) == (WithPending(s', txn, staged), reply) && Unrelated(s', txn, staged.keys)
  {
    hide Exact, KeySet, RunStaged, ExecuteText, StagedDuplicateIn, FirstLocked;
    match command
    case PrepareTxn(_, _, _) => PrepareElsewhere(s, txn, staged, command);
    case CommitTxn(other) => if other in s.locks.pending { ResolveElsewhere(s, txn, staged, other); }
    case AbortTxn(other) => if other in s.locks.pending { ResolveElsewhere(s, txn, staged, other); }
    case Sql(_) =>
  }

  lemma {:induction false} ReplayElsewhere(s: Replica, txn: TxnId, staged: Staged, between: seq<Command>)
    requires Exact(s.locks) && Unrelated(s, txn, staged.keys) && forall c :: c in between ==> Elsewhere(c, txn, staged.keys)
    ensures Replay(WithPending(s, txn, staged), between) == WithPending(Replay(s, between), txn, staged)
    ensures Unrelated(Replay(s, between), txn, staged.keys)
    decreases |between|
  {
    hide Exact, Apply, Elsewhere, Unrelated, WithPending;
    if between != [] {
      ElsewhereCommutes(s, txn, staged, between[0]);
      ApplyKeepsExact(s, between[0]);
      ReplayElsewhere(Apply(s, between[0]).0, txn, staged, between[1..]);
    }
  }

  lemma ApplyKeepsAbsent(s: Replica, txn: TxnId, keys: seq<string>, command: Command)
    requires txn !in s.locks.pending && Elsewhere(command, txn, keys)
    ensures txn !in Apply(s, command).0.locks.pending
  {
    hide KeySet, RunStaged, ExecuteText, StagedDuplicateIn, FirstLocked;
  }

  lemma {:induction false} ReplayKeepsAbsent(s: Replica, txn: TxnId, keys: seq<string>, between: seq<Command>)
    requires txn !in s.locks.pending && forall c :: c in between ==> Elsewhere(c, txn, keys)
    ensures txn !in Replay(s, between).locks.pending
    decreases |between|
  {
    hide Apply, Elsewhere;
    if between != [] {
      ApplyKeepsAbsent(s, txn, keys, between[0]);
      ReplayKeepsAbsent(Apply(s, between[0]).0, txn, keys, between[1..]);
    }
  }

  lemma AbortRemoves(s: Replica, txn: TxnId, staged: Staged)
    requires Unrelated(s, txn, staged.keys)
    ensures Apply(WithPending(s, txn, staged), AbortTxn(txn)).0 == s
  {
    hide KeySet;
    assert s.locks.pending[txn := staged] - {txn} == s.locks.pending;
    assert s.locks.locked + KeySet(staged.keys) - KeySet(staged.keys) == s.locks.locked;
  }

  /** An aborted transaction leaves no trace: whatever its vote, and whatever runs in between about other
      transactions and other keys, the replica is the one that never saw it. */
  lemma AbortLeavesNoTrace(s: Replica, txn: TxnId, keys: seq<string>, commands: seq<string>, between: seq<Command>)
    requires Exact(s.locks) && txn !in s.locks.pending && forall c :: c in between ==> Elsewhere(c, txn, keys)
    ensures Apply(Replay(Apply(s, PrepareTxn(txn, keys, commands)).0, between), AbortTxn(txn)).0 == Replay(s, between)
  {
    hide Exact, KeySet, StagedDuplicateIn, FirstLocked, Elsewhere, Replay, WithPending, Resolve;
    var staged := Staged(keys, commands);
    if Apply(s, PrepareTxn(txn, keys, commands)).1 == Success {
      YesPrepares(s, txn, keys, commands);
      ReplayElsewhere(s, txn, staged, between);
      AbortRemoves(Replay(s, between), txn, staged);
    } else {
      ReplayKeepsAbsent(s, txn, keys, between);
    }
  }

  lemma YesPrepares(s: Replica, txn: TxnId, keys: seq<string>, commands: seq<string>)
    requires txn !in s.locks.pending && Apply(s, PrepareTxn(txn, keys, commands)).1 == Success
    ensures Unrelated(s, txn, keys) && Apply(s, PrepareTxn(txn, keys, commands)).0 == WithPending(s, txn, Staged(keys, commands))
  {
    hide KeySet, StagedDuplicateIn;
  }

  // ------------------------------------------------------------------------------------------
  // Without the care
  // ------------------------------------------------------------------------------------------

  /** An INSERT that only a taken row key can make fail. */
  predicate Fits(store: Store, sql: string) {
    IsInsert(sql) &&
    var stmt := ParseText(sql).value;
    var schema := LoadSchema(store, stmt.db, stmt.table);
    schema.Some? && InsertRow(schema.value, stmt.columns, stmt.values).Filling? && PrimaryKeyIndex(schema.value).Some?
  }

  predicate AllFit(store: Store, commands: seq<string>) { forall i :: 0 <= i < |commands| ==> Fits(store, commands[i]) }

  lemma FitRuns(store: Store, sql: string)
    requires Fits(store, sql)
    ensures StagedKey(store, sql).Some? && IsRowKey(StagedKey(store, sql).value)
    ensures var k := StagedKey(store, sql).value; var (store', outcome) := ExecuteText(store, sql);
            if k in store then IsDuplicate(ReplyOf(outcome))
            else ReplyOf(outcome) == Success && exists row :: store' == store[k := RowCell(row)]
  {
    hide ParseText, InsertRow, FirstPrimary, FindPkValue, IsRowKey, RowKey, SchemaKey;
    var stmt := ParseText(sql).value;
    var schema := LoadSchema(store, stmt.db, stmt.table).value;
    InsertedKey(schema, stmt.columns, stmt.values);
    RowKeyIsRowKey(stmt.db, stmt.table, InsertRow(schema, stmt.columns, stmt.values).row[PrimaryKeyIndex(schema).value]);
  }

  lemma FitsStable(store: Store, k: string, cell: Cell, sql: string)
    requires Fits(store, sql) && IsRowKey(k)
    ensures Fits(store[k := cell], sql) && StagedKey(store[k := cell], sql) == StagedKey(store, sql)
  {
    hide ParseText, InsertRow, FirstPrimary, FindPkValue, IsRowKey, RowKey, SchemaKey;
    KindsApart(k, ParseText(sql).value.db, ParseText(sql).value.table, "");
  }

  /** A batch of fitting INSERTs runs through exactly when no two are for one row and all rows are free. */
  lemma {:induction false} InsertsRunIff(store: Store, staged: Staged)
    requires Announced(store, staged) && AllFit(store, staged.commands)
    ensures var reply := RunStaged(store, staged.commands).1;
            && (reply == Success <==> Distinct(staged) && Unoccupied(store, staged))
            && (reply != Success ==> IsDuplicate(reply))
    decreases |staged.commands|
  {
    hide Fits, StagedKey, ExecuteText, ReplyOf, IsRowKey, IsInsert, KeysStable;
    if staged.commands != [] {
      var sql := staged.commands[0];
      FitRuns(store, sql);
      FitsIsInsert(store, sql);
      var k := staged.keys[0];
      if k !in store {
        var store' := ExecuteText(store, sql).0;
        var row :| store' == store[k := RowCell(row)];
        var rest := Staged(staged.keys[1..], staged.commands[1..]);
        forall i | 0 <= i < |rest.commands|
          ensures Fits(store', rest.commands[i]) && StagedKey(store', rest.commands[i]) == Some(rest.keys[i]) && IsInsert(rest.commands[i])
        {
          assert rest.commands[i] == staged.commands[i + 1] && rest.keys[i] == staged.keys[i + 1];
          FitsIsInsert(store, rest.commands[i]);
          FitsStable(store, k, RowCell(row), rest.commands[i]);
        }
        InsertsRunIff(store', rest);
        TailIff(store, k, RowCell(row), staged);
      }
    }
  }

  lemma FitsIsInsert(store: Store, sql: string)
    requires Fits(store, sql)
    ensures IsInsert(sql)
  {
  }

  lemma TailIff(store: Store, k: string, cell: Cell, staged: Staged)
    requires |staged.keys| == |staged.commands| > 0 && k == staged.keys[0] && k !in store
    requires forall i :: 0 <= i < |staged.commands| ==> IsInsert(staged.commands[i])
    ensures var rest := Staged(staged.keys[1..], staged.commands[1..]);
            Distinct(staged) && Unoccupied(store, staged) <==> Distinct(rest) && Unoccupied(store[k := cell], rest)
  {
    hide IsInsert;
    var rest := Staged(staged.keys[1..], staged.commands[1..]);
    if Distinct(rest) && Unoccupied(store[k := cell], rest) {
      forall j | 1 <= j < |staged.keys| ensures staged.keys[j] != k && staged.keys[j] !in store {
        assert rest.keys[j - 1] == staged.keys[j] && rest.commands[j - 1] == staged.commands[j];
      }
      forall i, j | 0 <= i < j < |staged.keys| ensures staged.keys[i] != staged.keys[j] {
        if i > 0 { assert rest.keys[i - 1] != rest.keys[j - 1]; }
      }
    }
  }

  /** The lock table does not see a key twice in one batch: its vote is that of VoteIff, and COMMIT then
      succeeds if and only if no two INSERTs are for one row. */
  lemma RepeatedKeyIff(s: Replica, txn: TxnId, keys: seq<string>, commands: seq<string>)
    requires Announced(s.store, Staged(keys, commands)) && AllFit(s.store, commands) && txn !in s.locks.pending
    ensures var (s', vote) := Apply(s, PrepareTxn(txn, keys, commands));
            var reply := Apply(s', CommitTxn(txn)).1;
            && (vote == Success <==> Unoccupied(s.store, Staged(keys, commands)) && KeySet(keys) !! s.locks.locked)
            && (vote == Success ==> (reply == Success <==> Distinct(Staged(keys, commands))) && (reply != Success ==> IsDuplicate(reply)))
  {
    hide Announced, AllFit, RunStaged, Distinct, Unoccupied, KeySet, FirstLocked;
    VoteIff(s, txn, keys, commands);
    InsertsRunIff(s.store, Staged(keys, commands));
  }

  /** The lock table does not stop an INSERT outside transactions: after one, COMMIT of a ready batch of
      INSERTs succeeds if and only if the inserted key is not one of its own. */
  lemma PlainInsertIff(s: Replica, txn: TxnId, sql: string)
    requires Protected(s) && txn in s.locks.pending && AllFit(s.store, s.locks.pending[txn].commands)
    requires Fits(s.store, sql) && AddedBy(s.store, sql).Some? && AddedBy(s.store, sql).value !in s.store
    ensures var reply := Apply(Apply(s, Sql(sql)).0, CommitTxn(txn)).1;
            (reply == Success <==> AddedBy(s.store, sql).value !in s.locks.pending[txn].keys) && (reply != Success ==> IsDuplicate(reply))
  {
    hide Exact, Fits, RunStaged, ExecuteText, StagedKey, AddedBy, IsInsert, IsRowKey, ReplyOf, KeySet;
    var staged := s.locks.pending[txn];
    assert Ready(s.store, staged);
    TextStable(s.store, sql);
    FitRuns(s.store, sql);
    var k := AddedBy(s.store, sql).value;
    var store' := ExecuteText(s.store, sql).0;
    var row :| store' == s.store[k := RowCell(row)];
    forall i | 0 <= i < |staged.commands|
      ensures Fits(store', staged.commands[i]) && StagedKey(store', staged.commands[i]) == Some(staged.keys[i]) && IsInsert(staged.commands[i])
    {
      FitsIsInsert(s.store, staged.commands[i]);
      FitsStable(s.store, k, RowCell(row), staged.commands[i]);
    }
    InsertsRunIff(store', staged);
  }
}
