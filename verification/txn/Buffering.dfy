/**
 The transaction buffer of a coordinator: which statements it queues and under which row keys; and why
 the batches made from it announce the rows their INSERTs add, on every shard that knows their tables.
 */
module TxnBuffering {
  import opened Options
  import opened SqlParser
  import opened SqlExecution
  import opened ShardRouting
  import opened TxnParticipants
  import opened TxnReplicas
  import opened TxnCoordinators
  import opened TxnProtocol

  // ------------------------------------------------------------------------------------------
  // Queueing
  // ------------------------------------------------------------------------------------------

  /** What a line typed inside a transaction adds to the buffer: a write that pins a row, for the shard
      that owns it. None stands for a refusal. */
  function Queue(home: Store, routing: Ranges, line: string): (r: Option<Buffered>)
    ensures r.Some? ==> r.value.sql == line
  {
    match ParseText(line)
    case Thrown => None
    case Read(stmt) =>
      if stmt.CreateDatabase? || stmt.CreateTable? || stmt.AddColumn? || stmt.Select? || stmt.ShowTables? || stmt.ShowDatabases? then None
      else
        var key := TryExtractRowKey(home, stmt);
        if key.None? then None
        else
          match Owner(routing, key.value)
          case None => None
          case Some(i) => Some(Buffered(routing[i].id, key.value, line))
  }

  /** A line is queued exactly if it is an INSERT, UPDATE or DELETE pinned to one row that some shard owns; then
      for that shard, which is the one whose range covers the row. */
  lemma QueueMeaning(home: Store, routing: Ranges, line: string)
    ensures Queue(home, routing, line).Some? <==>
              && ParseText(line).Read?
              && var stmt := ParseText(line).value; var key := TryExtractRowKey(home, stmt);
                 (stmt.Insert? || stmt.Update? || stmt.Delete?) && key.Some? && Owner(routing, key.value).Some?
    ensures Queue(home, routing, line).Some? && Partitions(routing) ==>
              var b := Queue(home, routing, line).value;
              && TryExtractRowKey(home, ParseText(line).value) == Some(b.key)
              && exists i :: 0 <= i < |routing| && routing[i].id == b.shard && Covers(routing[i], b.key)
  {
    hide ParseText, Partitions, Covers, Owner;
    if Queue(home, routing, line).Some? && Partitions(routing) {
      var key := TryExtractRowKey(home, ParseText(line).value).value;
      OwnerCovers(routing, key, Owner(routing, key).value);
    }
  }

  /** The shard knows every table that home knows, with the same primary key. */
  ghost predicate KnowsTables(home: Store, store: Store) {
    forall db, table :: PkName(home, db, table).Some? ==> PkName(store, db, table) == PkName(home, db, table)
  }

  /** The statement was queued against tables the shard's store knows. */
  ghost predicate QueuedFor(b: Buffered, routing: Ranges, store: Store) {
    exists home :: Queue(home, routing, b.sql) == Some(b) && KnowsTables(home, store)
  }

  lemma QueuedAnnounces(b: Buffered, routing: Ranges, store: Store)
    requires QueuedFor(b, routing, store)
    ensures IsInsert(b.sql) ==> StagedKey(store, b.sql) == Some(b.key)
  {
    hide ParseText, PkName, FindPkValue;
  }

  /** A shard's share of a buffer announces its rows. */
  lemma {:induction false} BufferAnnounces(buffer: seq<Buffered>, routing: Ranges, store: Store, shard: TxnCoordinators.ShardId)
    requires forall b :: b in buffer && b.shard == shard ==> QueuedFor(b, routing, store)
    ensures Announced(store, BatchOf(buffer, shard))
    decreases |buffer|
  {
    hide QueuedFor, StagedKey, IsInsert;
    if buffer != [] {
      var b := buffer[|buffer| - 1];
      forall x | x in buffer[..|buffer| - 1] ensures x in buffer {}
      BufferAnnounces(buffer[..|buffer| - 1], routing, store, shard);
      if b.shard == shard {
        assert b in buffer;
        QueuedAnnounces(b, routing, store);
      }
    }
  }

  // ------------------------------------------------------------------------------------------
  // Announced once, announced for good
  // ------------------------------------------------------------------------------------------

  lemma {:induction false} StagedRunAnnounced(store: Store, commands: seq<string>, other: Staged)
    requires Announced(store, other)
    ensures Announced(RunStaged(store, commands).0, other)
    decreases |commands|
  {
    hide Announced, KeysStable, SqlFrontEnd.ExecuteText, ReplyOf, AddedBy;
    if commands != [] {
      TextStable(store, commands[0]);
      AnnouncedStable(store, SqlFrontEnd.ExecuteText(store, commands[0]).0, AddedBy(store, commands[0]), other);
      StagedRunAnnounced(SqlFrontEnd.ExecuteText(store, commands[0]).0, commands[1..], other);
    }
  }

  lemma ApplyAnnounced(s: Replica, command: Command, other: Staged)
    requires Announced(s.store, other)
    ensures Announced(Apply(s, command).0.store, other)
  {
    hide Announced, KeysStable, SqlFrontEnd.ExecuteText, StagedDuplicateIn, RunStaged, Prepare, AddedBy;
    match command
    case PrepareTxn(_, _, _) =>
    case CommitTxn(txn) => if txn in s.locks.pending { StagedRunAnnounced(s.store, s.locks.pending[txn].commands, other); }
    case AbortTxn(_) =>
    case Sql(text) =>
      TextStable(s.store, text);
      AnnouncedStable(s.store, SqlFrontEnd.ExecuteText(s.store, text).0, AddedBy(s.store, text), other);
  }

  /** Every shard of the plan is there, and its batch announces its INSERTs, each for a row of its own. */
  predicate PlanAnnounced(s: System, plan: TxnCoordinators.Plan) {
    forall i :: i in plan.order ==>
      i in s.shards && i in plan.batches && Announced(s.shards[i].store, plan.batches[i]) && Distinct(plan.batches[i])
  }

  lemma StepKeepsAnnounced(s: System, step: Step, plan: TxnCoordinators.Plan)
    requires Enabled(s, step) && PlanAnnounced(s, plan)
    ensures PlanAnnounced(Do(s, step), plan)
  {
    hide Announced, Distinct, Apply, NextSend, PlanOk;
    forall i | i in plan.order ensures Announced(Do(s, step).shards[i].store, plan.batches[i]) {
      match step
      case Deliver(m) => ApplyAnnounced(s.shards[i], m.command, plan.batches[i]);
      case Write(_, text) => ApplyAnnounced(s.shards[i], Sql(text), plan.batches[i]);
      case _ =>
    }
  }

  // ------------------------------------------------------------------------------------------
  // Runs of coordinators
  // ------------------------------------------------------------------------------------------

  /** The plan is that of a buffer whose statements were queued against tables their shards know, no two
      INSERTs among them for one row. */
  ghost predicate FromBuffer(s: System, routing: Ranges, plan: TxnCoordinators.Plan, buffer: seq<Buffered>) {
    && Plans(plan, plan.txn, buffer)
    && (forall b :: b in buffer ==> b.shard in s.shards && QueuedFor(b, routing, s.shards[b.shard].store))
    && (forall i :: i in plan.order ==> Distinct(plan.batches[i]))
  }

  /** Transactions come from buffers, and writes outside them avoid locked keys. */
  ghost predicate Coordinated(s: System, routing: Ranges, step: Step) {
    match step
    case Begin(plan) => exists buffer :: FromBuffer(s, routing, plan, buffer)
    case Write(shard, text) => shard in s.shards ==> Careful(s.shards[shard], Sql(text))
    case _ => true
  }

  ghost predicate LeadsCoordinated(s: System, routing: Ranges, steps: seq<Step>, s': System)
    decreases |steps|
  {
    if steps == [] then s' == s
    else Enabled(s, steps[0]) && Coordinated(s, routing, steps[0]) && LeadsCoordinated(Do(s, steps[0]), routing, steps[1..], s')
  }

  lemma BufferPlanAnnounced(s: System, routing: Ranges, plan: TxnCoordinators.Plan, buffer: seq<Buffered>)
    requires FromBuffer(s, routing, plan, buffer)
    ensures PlanAnnounced(s, plan)
  {
    hide QueuedFor, BatchOf, Announced, Distinct;
    forall i | i in plan.order ensures i in s.shards && i in plan.batches && Announced(s.shards[i].store, plan.batches[i]) {
      assert Touches(buffer, i);
      var k :| 0 <= k < |plan.order| && plan.order[k] == i;
      BufferAnnounces(buffer, routing, s.shards[i].store, i);
    }
  }

  ghost predicate AllAnnounced(s: System) { forall t :: t in s.plans ==> PlanAnnounced(s, s.plans[t]) }

  lemma StepKeepsAllAnnounced(s: System, routing: Ranges, step: Step)
    requires AllAnnounced(s) && Enabled(s, step) && Coordinated(s, routing, step)
    ensures AllAnnounced(Do(s, step))
  {
    hide PlanAnnounced, FromBuffer, Apply, Careful, NextSend, PlanOk;
    var s' := Do(s, step);
    if step.Begin? {
      var buffer :| FromBuffer(s, routing, step.plan, buffer);
      BufferPlanAnnounced(s, routing, step.plan, buffer);
    }
    forall t | t in s'.plans ensures PlanAnnounced(s', s'.plans[t]) {
      assert PlanAnnounced(s, s'.plans[t]);
      StepKeepsAnnounced(s, step, s'.plans[t]);
    }
  }

  /** A step of coordinators is careful wherever its command is applied. */
  lemma CoordinatedCareful(s: System, routing: Ranges, step: Step)
    requires Inv(s) && AllAnnounced(s) && Enabled(s, step) && Coordinated(s, routing, step)
    ensures StepCareful(s, step)
  {
    hide Announced, Distinct, ShardFits, AnswersTrue, FromBuffer, NextSend, PlanOk, AddedBy;
    if step.Deliver? {
      assert MessageFits(s, step.message);
      if step.message.command.PrepareTxn? { assert PlanAnnounced(s, s.plans[step.message.command.txn]); }
    }
  }

  lemma {:induction false} CoordinatedRuns(s: System, routing: Ranges, steps: seq<Step>, s': System)
    requires Inv(s) && AllAnnounced(s) && LeadsCoordinated(s, routing, steps, s')
    ensures LeadsCarefully(s, steps, s')
    decreases |steps|
  {
    hide Inv, AllAnnounced, Enabled, Coordinated, StepCareful, Do;
    if steps != [] {
      CoordinatedCareful(s, routing, steps[0]);
      StepKeepsInv(s, steps[0]);
      StepKeepsAllAnnounced(s, routing, steps[0]);
      CoordinatedRuns(Do(s, steps[0]), routing, steps[1..], s');
    }
  }

  /** When every transaction comes from a buffer, the row keys of its INSERTs announce themselves: no COMMIT
      delivered anywhere, at any time, meets a duplicate key. */
  lemma BufferedCommitsMeetNoDuplicate(s: System, routing: Ranges, steps: seq<Step>, s': System, m: Message)
    requires Initial(s) && LeadsCoordinated(s, routing, steps, s') && m.shard in s'.shards && m.command.CommitTxn?
    ensures !IsDuplicate(Apply(s'.shards[m.shard], m.command).1)
  {
    hide Inv, LeadsCarefully, LeadsCoordinated, Apply, PlanAnnounced;
    InitialInv(s);
    CoordinatedRuns(s, routing, steps, s');
    CommitsMeetNoDuplicate(s, steps, s', m);
  }
}
