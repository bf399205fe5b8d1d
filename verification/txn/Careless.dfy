/**
 Two histories from an empty replica in which COMMIT meets a duplicate key after a yes vote: one batch
 inserts the same row twice, in the other an INSERT outside transactions takes a locked row.
 */
module TxnCareless {
  import opened Options
  import opened SqlAst
  import opened SqlKeys
  import opened SqlLexer
  import opened SqlParser
  import opened SqlExecution
  import opened SqlFrontEnd
  import opened TxnParticipants
  import opened TxnReplicas

  const K: ColumnDef := ColumnDef("k", ColumnType.Text, true, None)
  const CREATE_DATABASE: Statement := CreateDatabase("d")
  const CREATE_TABLE: Statement := CreateTable("d", "t", [K])
  const INSERT: Statement := Insert("d", "t", ["k"], ["1"])

  lemma AllExpressible()
    ensures Expressible(CREATE_DATABASE) && Expressible(CREATE_TABLE) && Expressible(INSERT)
  {
    assert IsIdentifier("d") && IsIdentifier("t") && IsIdentifier("k");
    assert PrimaryCount([K][1..]) == 0;
  }

  /** A statement written out. */
  function Write(stmt: Statement): string
    requires Expressible(stmt)
  {
    StatementText(stmt, true)
  }

  function InsertText(): string { AllExpressible(); Write(INSERT) }

  /** The database d with the table t (k TEXT PRIMARY KEY). */
  function Prepared(): seq<Command> {
    AllExpressible();
    [Sql(Write(CREATE_DATABASE)), Sql(Write(CREATE_TABLE))]
  }

  const STORE: Store := map[DatabaseKey("d") := Marker, SchemaKey("d", "t") := SchemaCell(Schema([K]))]
  const ROW: string := RowKey("d", "t", "1")

  lemma PreparedReaches()
    ensures Replay(Replica(map[], NO_LOCKS), Prepared()) == Replica(STORE, NO_LOCKS)
  {
    hide Expressible, ParseText, StatementText, SchemaKey, DatabaseKey;
    AllExpressible();
    ParseUndoesPrint(CREATE_DATABASE, true);
    ParseUndoesPrint(CREATE_TABLE, true);
    KindsApart("", "d", "t", "d");
    assert Prepared()[1..][1..] == [];
  }

  lemma InsertFits()
    ensures Fits(STORE, InsertText()) && StagedKey(STORE, InsertText()) == Some(ROW) && ROW !in STORE && IsInsert(InsertText())
  {
    hide Expressible, ParseText, StatementText, SchemaKey, DatabaseKey, RowKey;
    AllExpressible();
    ParseUndoesPrint(INSERT, true);
    RowKeyIsRowKey("d", "t", "1");
    KindsApart(ROW, "d", "t", "d");
    assert ColumnIndex(Schema([K]), "k") == Some(0);
  }

  /** A batch with the same INSERT twice is voted for, and its COMMIT meets a duplicate key. */
  lemma RepeatedInsertFails(txn: TxnId)
    ensures var s := Replay(Replica(map[], NO_LOCKS), Prepared());
            var (s', vote) := Apply(s, PrepareTxn(txn, [ROW, ROW], [InsertText(), InsertText()]));
            Announced(s.store, Staged([ROW, ROW], [InsertText(), InsertText()])) && vote == Success && IsDuplicate(Apply(s', CommitTxn(txn)).1)
  {
    hide Replay, Apply, IsDuplicate, Fits, StagedKey, IsInsert, InsertText, ROW, Prepared;
    PreparedReaches();
    InsertFits();
    var keys, commands := [ROW, ROW], [InsertText(), InsertText()];
    RepeatedKeyIff(Replica(STORE, NO_LOCKS), txn, keys, commands);
    assert !Distinct(Staged(keys, commands)) by { assert keys[0] == keys[1] && commands[0] == commands[1]; }
  }

  /** A row locked by a yes vote can be inserted outside transactions; COMMIT then meets a duplicate key. */
  lemma PlainInsertBreaksVote(txn: TxnId)
    ensures var s := Replay(Replica(map[], NO_LOCKS), Prepared());
            var (s1, vote) := Apply(s, PrepareTxn(txn, [ROW], [InsertText()]));
            var (s2, reply) := Apply(s1, Sql(InsertText()));
            && Announced(s.store, Staged([ROW], [InsertText()])) && vote == Success && ROW in s1.locks.locked && reply == Success
            && IsDuplicate(Apply(s2, CommitTxn(txn)).1)
  {
    hide Replay, IsDuplicate, Fits, StagedKey, IsInsert, InsertText, ROW, Prepared, ExecuteText, RunStaged, StagedDuplicateIn, Ready, Exact, FirstLocked, Resolve, Abort, AddedBy;
    PreparedReaches();
    InsertFits();
    var s, staged := Replica(STORE, NO_LOCKS), Staged([ROW], [InsertText()]);
    VoteIff(s, txn, staged.keys, staged.commands);
    NothingPreparedProtected(STORE);
    ApplyKeepsProtected(s, PrepareTxn(txn, staged.keys, staged.commands));
    var s1 := Apply(s, PrepareTxn(txn, staged.keys, staged.commands)).0;
    LockedByPending(s1.locks, txn);
    assert ROW in KeySet(staged.keys);
    TextStable(STORE, InsertText());
    FitRuns(STORE, InsertText());
    PlainInsertIff(s1, txn, InsertText());
  }
}
