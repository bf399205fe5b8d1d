/** The apply callback of a replica: its executor, its engine and its participant together. */
module TxnCallbacks {
  import opened Options
  import opened SqlAst
  import opened SqlParser
  import opened SqlParsers
  import opened SqlExecution
  import opened SqlExecutors
  import opened SqlFrontEnd
  import opened TxnParticipants
  import opened TxnReplicas

  lemma DuplicateTurn(store: Store, commands: seq<string>, i: nat)
    requires i < |commands|
    ensures StagedDuplicateIn(store, commands[i..]) ==
            var key := StagedKey(store, commands[i]);
            if key.Some? && key.value in store then Some(commands[i]) else StagedDuplicateIn(store, commands[i + 1..])
  {
    hide StagedKey;
    assert commands[i..][1..] == commands[i + 1..];
  }

  lemma RunTurn(store: Store, commands: seq<string>, i: nat)
    requires i < |commands|
    ensures RunStaged(store, commands[i..]) ==
            var (store', outcome) := ExecuteText(store, commands[i]);
            if ReplyOf(outcome) != Success then (store', ReplyOf(outcome)) else RunStaged(store', commands[i + 1..])
  {
    hide ExecuteText, ReplyOf;
    assert commands[i..][1..] == commands[i + 1..];
  }

  class ApplyTarget {
    const engine: KvStore
    const sql: SqlExecutor
    const participant: TxnParticipant

    ghost predicate Valid() { sql.engine == engine }

    ghost function View(): Replica
      reads engine, participant
    {
      Replica(engine.contents, participant.View())
    }

    constructor (engine: KvStore, sql: SqlExecutor, participant: TxnParticipant)
      requires sql.engine == engine
      ensures Valid() && this.engine == engine && this.participant == participant
    {
      this.engine := engine;
      this.sql := sql;
      this.participant := participant;
    }

    method ExecuteLine(text: string) returns (outcome: Outcome)
      requires Valid()
      modifies engine
      ensures (engine.contents, outcome) == ExecuteText(old(engine.contents), text)
    {
      hide ParseText, Execute;
      var stmt := Parse(text);
      if stmt.Thrown? { return SyntaxError; }
      var result := sql.DoExecute(stmt.value);
      return Answered(result);
    }

    method FindStagedDuplicateKey(commands: seq<string>) returns (duplicate: Option<string>)
      requires Valid()
      ensures duplicate == StagedDuplicateIn(engine.contents, commands)
    {
      hide ParseText, TryExtractRowKey;
      var i := 0;
      assert commands[0..] == commands;
      while i < |commands|
        invariant 0 <= i <= |commands|
        invariant StagedDuplicateIn(engine.contents, commands[i..]) == StagedDuplicateIn(engine.contents, commands)
      {
        DuplicateTurn(engine.contents, commands, i);
        var stmt := Parse(commands[i]);
        if stmt.Read? && stmt.value.Insert? {
          var key := sql.DoTryExtractRowKey(stmt.value);
          if key.Some? {
            var present := engine.Get(key.value);
            if present.Some? { return Some(commands[i]); }
          }
        }
        i := i + 1;
      }
      return None;
    }

    /** The staged commands of a transaction; the first exception ends them. */
    method RunCommands(commands: seq<string>) returns (reply: Reply)
      requires Valid()
      modifies engine
      ensures (engine.contents, reply) == RunStaged(old(engine.contents), commands)
    {
      hide ExecuteText, ReplyOf;
      var i := 0;
      assert commands[0..] == commands;
      while i < |commands|
        invariant 0 <= i <= |commands|
        invariant RunStaged(engine.contents, commands[i..]) == RunStaged(old(engine.contents), commands)
      {
        RunTurn(engine.contents, commands, i);
        var outcome := ExecuteLine(commands[i]);
        if ReplyOf(outcome) != Success { return ReplyOf(outcome); }
        i := i + 1;
      }
      return Success;
    }

    method ApplyCallback(command: Command) returns (reply: Reply)
      requires Valid()
      modifies engine, participant
      ensures (View(), reply) == Apply(old(View()), command)
    {
      hide StagedDuplicateIn, RunStaged, ExecuteText, ReplyOf, Prepare, Resolve;
      match command
      case PrepareTxn(txn, keys, commands) =>
        var duplicate := FindStagedDuplicateKey(commands);
        if duplicate.Some? { return StagedDuplicate(duplicate.value); }
        var refusal := participant.DoPrepare(txn, keys, commands);
        if refusal.Some? { return Refused(refusal.value); }
        return Success;
      case CommitTxn(txn) =>
        var staged := participant.BeginCommit(txn);
        if staged.None? { return Refused(UnknownTxn(txn)); }
        reply := RunCommands(staged.value);
      case AbortTxn(txn) =>
        participant.DoAbort(txn);
        return Success;
      case Sql(text) =>
        var outcome := ExecuteLine(text);
        return ReplyOf(outcome);
    }
  }
}
