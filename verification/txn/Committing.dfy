/** What a COMMIT does to the store: what its statements do, one by one, outside any transaction. */
module TxnCommitting {
  import opened SqlAst
  import opened SqlKeys
  import opened SqlParser
  import opened SqlExecution
  import opened SqlFrontEnd
  import SqlMeaning
  import ShardStatements
  import opened TxnParticipants
  import opened TxnReplicas

  function SqlsOf(commands: seq<string>): (sqls: seq<Command>)
    ensures |sqls| == |commands|
  {
    seq(|commands|, i requires 0 <= i < |commands| => Sql(commands[i]))
  }

  /** The replica after the first n commands of a batch, each as a plain command of its own. */
  ghost function OneByOne(s: Replica, commands: seq<string>, n: nat): Replica
    requires n <= |commands|
  {
    Replay(s, SqlsOf(commands[..n]))
  }

  /** The answer to the n-th command after those before it. */
  ghost function AnswerTo(s: Replica, commands: seq<string>, n: nat): Reply
    requires n < |commands|
  {
    Apply(OneByOne(s, commands, n), Sql(commands[n])).1
  }

  lemma {:induction false} SqlsKeepLocks(s: Replica, commands: seq<string>)
    ensures Replay(s, SqlsOf(commands)).locks == s.locks
    decreases |commands|
  {
    hide ExecuteText, ReplyOf;
    if commands != [] {
      assert SqlsOf(commands)[1..] == SqlsOf(commands[1..]);
      SqlsKeepLocks(Apply(s, Sql(commands[0])).0, commands[1..]);
    }
  }

  lemma OneByOneHead(s: Replica, commands: seq<string>, n: nat)
    requires 0 < n <= |commands|
    ensures OneByOne(s, commands, n) == OneByOne(Apply(s, Sql(commands[0])).0, commands[1..], n - 1)
  {
    hide Apply;
    assert SqlsOf(commands[..n])[1..] == SqlsOf(commands[1..][..n - 1]);
  }

  lemma OneByOneNone(s: Replica, commands: seq<string>)
    ensures OneByOne(s, commands, 0) == s
  {
  }

  /** The batch is the plain commands up to the first that fails, or all of them. */
  ghost predicate RunsAs(s: Replica, commands: seq<string>, store: Store, reply: Reply, n: nat) {
    && n <= |commands| && store == OneByOne(s, commands, n).store
    && (reply == Success ==> n == |commands| && forall i :: 0 <= i < n ==> AnswerTo(s, commands, i) == Success)
    && (reply != Success ==> n > 0 && AnswerTo(s, commands, n - 1) == reply && forall i :: 0 <= i < n - 1 ==> AnswerTo(s, commands, i) == Success)
  }

  lemma RunsAsHead(s: Replica, commands: seq<string>, store: Store, reply: Reply, n: nat)
    requires commands != [] && Apply(s, Sql(commands[0])).1 == Success
    requires RunsAs(Apply(s, Sql(commands[0])).0, commands[1..], store, reply, n)
    ensures RunsAs(s, commands, store, reply, n + 1)
  {
    hide Apply, OneByOne;
    var s' := Apply(s, Sql(commands[0])).0;
    OneByOneHead(s, commands, n + 1);
    OneByOneNone(s, commands);
    forall i | 0 < i < |commands| && i <= n ensures AnswerTo(s, commands, i) == AnswerTo(s', commands[1..], i - 1) {
      OneByOneHead(s, commands, i);
      assert commands[i] == commands[1..][i - 1];
    }
  }

  lemma {:induction false} StagedRunsAs(s: Replica, commands: seq<string>) returns (n: nat)
    ensures RunsAs(s, commands, RunStaged(s.store, commands).0, RunStaged(s.store, commands).1, n)
    decreases |commands|
  {
    hide ExecuteText, ReplyOf, RunsAs, OneByOne;
    if commands == [] {
      n := 0;
      RunsNothing(s);
    } else if ReplyOf(ExecuteText(s.store, commands[0]).1) != Success {
      n := 1;
      FirstFails(s, commands);
    } else {
      n := StagedRunsAs(Apply(s, Sql(commands[0])).0, commands[1..]);
      RunsAsHead(s, commands, RunStaged(s.store, commands).0, RunStaged(s.store, commands).1, n);
      n := n + 1;
    }
  }

  lemma RunsNothing(s: Replica)
    ensures RunsAs(s, [], s.store, Success, 0)
  {
    OneByOneNone(s, []);
  }

  lemma FirstFails(s: Replica, commands: seq<string>)
    requires commands != [] && Apply(s, Sql(commands[0])).1 != Success
    ensures RunsAs(s, commands, Apply(s, Sql(commands[0])).0.store, Apply(s, Sql(commands[0])).1, 1)
  {
    hide Apply, OneByOne;
    OneByOneHead(s, commands, 1);
    OneByOneNone(s, commands);
    OneByOneNone(Apply(s, Sql(commands[0])).0, commands[1..]);
  }

  /** COMMIT of a pending transaction leaves the store that its commands leave one by one as plain commands, up
      to and including the first that fails, whose answer it gives, or else all of them; and the transaction is
      no longer pending. COMMIT of any other changes nothing and says so. */
  lemma CommitMeaning(s: Replica, txn: TxnId) returns (n: nat)
    ensures var (s', reply) := Apply(s, CommitTxn(txn));
            if txn in s.locks.pending
            then RunsAs(s, s.locks.pending[txn].commands, s'.store, reply, n) && s'.locks == Resolve(s.locks, txn)
            else s' == s && reply == Refused(UnknownTxn(txn))
  {
    hide RunStaged, RunsAs, Resolve;
    n := 0;
    if txn in s.locks.pending { n := StagedRunsAs(s, s.locks.pending[txn].commands); }
  }

  // ------------------------------------------------------------------------------------------
  // What is there afterwards
  // ------------------------------------------------------------------------------------------

  /** The text is a DELETE whose where-clause picks the row under this key. */
  ghost predicate Deletes(store: Store, sql: string, key: string) {
    ParseText(sql).Read? && ParseText(sql).value.Delete? &&
    var stmt := ParseText(sql).value;
    var schema := LoadSchema(store, stmt.db, stmt.table);
    schema.Some? && SqlMeaning.PickedIn(store, stmt.db, stmt.table, schema.value, stmt.where, key)
  }

  lemma {:induction false} UpdateKeepsKeys(store: Store, schema: Schema, entries: seq<SqlExecution.Entry>, where: seq<Condition>, changes: seq<(nat, string)>, count: nat)
    ensures store.Keys <= UpdateOver(store, schema, entries, where, changes, count).0.Keys
    decreases |entries|
  {
    hide PadRow, MatchesWhere, Change;
    if entries != [] && PadRow(schema, entries[0].row).Some? {
      var row := PadRow(schema, entries[0].row).value;
      UpdateKeepsKeys(store, schema, entries[1..], where, changes, count);
      UpdateKeepsKeys(store[entries[0].key := RowCell(Change(row, changes))], schema, entries[1..], where, changes, count + 1);
    }
  }

  /** Only a DELETE takes keys away, and only those it picks. */
  lemma KeysStay(store: Store, stmt: Statement, key: string)
    requires key in store
    requires stmt.Delete? && LoadSchema(store, stmt.db, stmt.table).Some? ==>
               !SqlMeaning.PickedIn(store, stmt.db, stmt.table, LoadSchema(store, stmt.db, stmt.table).value, stmt.where, key)
    ensures key in Execute(store, stmt).0
  {
    hide LoadSchema, PlanUpdate, UpdateOver, DeleteOver, ScanRows, InsertRow, ExtendSchema, ExecuteSelect, ExecuteShowTables, ExecuteShowDatabases,
         SqlMeaning.PickedIn, SqlMeaning.Reached, SqlMeaning.Quiet, SqlMeaning.PickedSet;
    if (stmt.Update? || stmt.Delete?) && LoadSchema(store, stmt.db, stmt.table).Some? {
      var schema := LoadSchema(store, stmt.db, stmt.table).value;
      if stmt.Delete? {
        SqlMeaning.DeleteMeaning(store, stmt.db, stmt.table, stmt.where);
      } else if PlanUpdate(schema, stmt.assignments).Plan? {
        UpdateKeepsKeys(store, schema, ScanRows(store, stmt.db, stmt.table), stmt.where, PlanUpdate(schema, stmt.assignments).changes, 0);
      }
    }
  }

  /** A successful INSERT leaves its row under the key it announced. */
  lemma InsertedIsThere(store: Store, stmt: Statement)
    requires stmt.Insert? && Execute(store, stmt).1.Ok?
    ensures TryExtractRowKey(store, stmt).Some? && TryExtractRowKey(store, stmt).value in Execute(store, stmt).0
  {
    hide InsertRow, FirstPrimary, FindPkValue, RowKey, SchemaKey;
    ShardStatements.InsertedKey(LoadSchema(store, stmt.db, stmt.table).value, stmt.columns, stmt.values);
  }

  lemma PlainEffect(s: Replica, sql: string, key: string)
    ensures var (s', reply) := Apply(s, Sql(sql));
            && (key in s.store && !Deletes(s.store, sql, key) ==> key in s'.store)
            && (IsInsert(sql) && reply == Success ==> StagedKey(s.store, sql).Some? && StagedKey(s.store, sql).value in s'.store)
  {
    hide ParseText, Execute, TryExtractRowKey, SqlMeaning.PickedIn, LoadSchema;
    if ParseText(sql).Read? {
      var stmt := ParseText(sql).value;
      if key in s.store && !Deletes(s.store, sql, key) { KeysStay(s.store, stmt, key); }
      if stmt.Insert? && Execute(s.store, stmt).1.Ok? { InsertedIsThere(s.store, stmt); }
    }
  }

  lemma OneByOneLast(s: Replica, commands: seq<string>, n: nat)
    requires n < |commands|
    ensures OneByOne(s, commands, n + 1) == Apply(OneByOne(s, commands, n), Sql(commands[n])).0
  {
    hide Apply;
    assert SqlsOf(commands[..n + 1]) == SqlsOf(commands[..n]) + [Sql(commands[n])];
    ReplayOneMore(s, SqlsOf(commands[..n]), Sql(commands[n]));
  }

  lemma {:induction false} ReplayOneMore(s: Replica, before: seq<Command>, command: Command)
    ensures Replay(s, before + [command]) == Apply(Replay(s, before), command).0
    decreases |before|
  {
    hide Apply;
    if before == [] {
      assert [command][1..] == [] && before + [command] == [command];
    } else {
      ReplayOneMore(Apply(s, before[0]).0, before[1..], command);
      assert (before + [command])[1..] == before[1..] + [command];
    }
  }

  /** An announced batch stays announced while its commands run as plain ones. */
  lemma {:induction false} StaysAnnounced(s: Replica, staged: Staged, n: nat)
    requires Announced(s.store, staged) && n <= |staged.commands|
    ensures Announced(OneByOne(s, staged.commands, n).store, staged)
    decreases n
  {
    hide Announced, OneByOne, Apply;
    if n == 0 {
      OneByOneNone(s, staged.commands);
    } else {
      StaysAnnounced(s, staged, n - 1);
      OneByOneLast(s, staged.commands, n - 1);
      PlainAnnounced(OneByOne(s, staged.commands, n - 1), staged, staged.commands[n - 1]);
    }
  }

  lemma PlainAnnounced(s: Replica, staged: Staged, sql: string)
    requires Announced(s.store, staged)
    ensures Announced(Apply(s, Sql(sql)).0.store, staged)
  {
    hide Announced, KeysStable, ExecuteText, AddedBy;
    TextStable(s.store, sql);
    AnnouncedStable(s.store, ExecuteText(s.store, sql).0, AddedBy(s.store, sql), staged);
  }

  lemma {:induction false} StaysThere(s: Replica, staged: Staged, i: nat, n: nat)
    requires i < n <= |staged.commands| && Announced(s.store, staged) && IsInsert(staged.commands[i]) && AnswerTo(s, staged.commands, i) == Success
    requires forall j :: i < j < n ==> !Deletes(OneByOne(s, staged.commands, j).store, staged.commands[j], staged.keys[i])
    ensures staged.keys[i] in OneByOne(s, staged.commands, n).store
    decreases n
  {
    hide OneByOne, Apply, IsInsert, Deletes, StagedKey;
    OneByOneLast(s, staged.commands, n - 1);
    PlainEffect(OneByOne(s, staged.commands, n - 1), staged.commands[n - 1], staged.keys[i]);
    if i == n - 1 {
      StaysAnnounced(s, staged, i);
    } else {
      StaysThere(s, staged, i, n - 1);
    }
  }

  /** After a successful COMMIT of an announced batch, the row of each of its INSERTs is in the store that no
      later DELETE of the batch picks. */
  lemma CommittedRowsAreThere(s: Replica, txn: TxnId, i: nat)
    requires txn in s.locks.pending && Announced(s.store, s.locks.pending[txn]) && Apply(s, CommitTxn(txn)).1 == Success
    requires i < |s.locks.pending[txn].commands| && IsInsert(s.locks.pending[txn].commands[i])
    requires var staged := s.locks.pending[txn];
             forall j :: i < j < |staged.commands| ==> !Deletes(OneByOne(s, staged.commands, j).store, staged.commands[j], staged.keys[i])
    ensures s.locks.pending[txn].keys[i] in Apply(s, CommitTxn(txn)).0.store
  {
    hide Apply, OneByOne, IsInsert, Deletes, StagedKey;
    var staged := s.locks.pending[txn];
    var n := CommitMeaning(s, txn);
    StaysThere(s, staged, i, n);
  }
}
