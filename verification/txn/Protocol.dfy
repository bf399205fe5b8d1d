/**
 Two-phase commit over whole runs: coordinators, shards and messages that may be applied at any time,
 any number of times or never, whatever the coordinator hears; only a reported success is true.
 */
module TxnProtocol {
  import opened Options
  import opened TxnParticipants
  import opened TxnReplicas
  import opened TxnCoordinators

  datatype System = System(
    shards: map<ShardId, Replica>,
    plans: map<TxnId, Plan>,
    answers: map<TxnId, seq<bool>>,
    sent: set<Message>,
    // What has happened: messages applied with success, yes votes, transactions run and dropped.
    succeeded: set<Message>,
    voted: set<(TxnId, ShardId)>,
    ran: set<(TxnId, ShardId)>,
    dropped: set<(TxnId, ShardId)>)

  datatype Step =
    | Begin(plan: Plan)
    | Send(txn: TxnId)
    | Deliver(message: Message)
    | Answer(txn: TxnId, ok: bool)
    | Write(shard: ShardId, text: string)

  predicate Started(s: System, txn: TxnId) { txn in s.plans && txn in s.answers && PlanOk(s.plans[txn]) }

  ghost predicate Enabled(s: System, step: Step) {
    match step
    case Begin(plan) => plan.txn !in s.plans && PlanOk(plan) && forall i :: 0 <= i < |plan.order| ==> plan.order[i] in s.shards
    case Send(txn) => Started(s, txn) && NextSend(s.plans[txn], s.answers[txn]).Some?
    case Deliver(m) => m in s.sent && m.shard in s.shards
    case Answer(txn, ok) =>
      && Started(s, txn) && NextSend(s.plans[txn], s.answers[txn]).Some?
      && (ok ==> NextSend(s.plans[txn], s.answers[txn]).value in s.succeeded)
    case Write(shard, _) => shard in s.shards
  }

  /** Applying a message at its shard. */
  ghost function Delivered(s: System, m: Message): System
    requires m.shard in s.shards
  {
    var replica := s.shards[m.shard];
    var (replica', reply) := Apply(replica, m.command);
    var event := if m.command.Sql? then {} else {(m.command.txn, m.shard)};
    var pending := !m.command.Sql? && m.command.txn in replica.locks.pending;
    s.(shards := s.shards[m.shard := replica'],
       succeeded := if reply == Success then s.succeeded + {m} else s.succeeded,
       voted := if m.command.PrepareTxn? && reply == Success then s.voted + event else s.voted,
       ran := if m.command.CommitTxn? && pending then s.ran + event else s.ran,
       dropped := if m.command.AbortTxn? && pending then s.dropped + event else s.dropped)
  }

  ghost function Do(s: System, step: Step): System
    requires Enabled(s, step)
  {
    match step
    case Begin(plan) => s.(plans := s.plans[plan.txn := plan], answers := s.answers[plan.txn := []])
    case Send(txn) => s.(sent := s.sent + {NextSend(s.plans[txn], s.answers[txn]).value})
    case Deliver(m) => Delivered(s, m)
    case Answer(txn, ok) => s.(answers := s.answers[txn := s.answers[txn] + [ok]])
    case Write(shard, text) => s.(shards := s.shards[shard := Apply(s.shards[shard], Sql(text)).0])
  }

  ghost predicate Initial(s: System) {
    && (forall i :: i in s.shards ==> s.shards[i].locks == NO_LOCKS)
    && s.plans == map[] && s.answers == map[] && s.sent == {} && s.succeeded == {} && s.voted == {} && s.ran == {} && s.dropped == {}
  }

  /** The steps lead from one system to another. */
  ghost predicate Leads(s: System, steps: seq<Step>, s': System)
    decreases |steps|
  {
    if steps == [] then s' == s else Enabled(s, steps[0]) && Leads(Do(s, steps[0]), steps[1..], s')
  }

  // ------------------------------------------------------------------------------------------
  // The invariant
  // ------------------------------------------------------------------------------------------

  /** Every shard of the transaction was asked and answered yes. */
  predicate Unanimous(p: Plan, answers: seq<bool>) { YesUpTo(answers, |p.order|) }

  /** Some shard of the transaction answered no. */
  predicate Refusing(p: Plan, answers: seq<bool>) {
    exists k :: 0 <= k < |p.order| && k < |answers| && !answers[k]
  }

  /** What was sent fits the answers so far, and will fit all later ones. */
  ghost predicate MessageFits(s: System, m: Message) {
    match m.command
    case PrepareTxn(txn, keys, commands) =>
      Started(s, txn) && m.shard in s.plans[txn].order && m.shard in s.plans[txn].batches && s.plans[txn].batches[m.shard] == Staged(keys, commands)
    case CommitTxn(txn) => Started(s, txn) && m.shard in s.plans[txn].order && Unanimous(s.plans[txn], s.answers[txn])
    case AbortTxn(txn) => Started(s, txn) && m.shard in s.plans[txn].order && Refusing(s.plans[txn], s.answers[txn])
    case Sql(_) => false
  }

  /** A run of yes answers is a run of yes votes, and yes answers to COMMIT are runs. */
  ghost predicate AnswersTrue(s: System, txn: TxnId)
    requires Started(s, txn)
  {
    var p := s.plans[txn];
    var n := |p.order|;
    && (forall i {:trigger p.order[i]} | 0 <= i < n :: YesUpTo(s.answers[txn], i + 1) ==> (txn, p.order[i]) in s.voted)
    && (forall j {:trigger p.order[j]} | 0 <= j < n && n + j < |s.answers[txn]| ::
          Unanimous(p, s.answers[txn]) && s.answers[txn][n + j] ==> (txn, p.order[j]) in s.ran)
  }

  ghost predicate ShardFits(s: System, shard: ShardId)
    requires shard in s.shards
  {
    && Exact(s.shards[shard].locks)
    && forall t {:trigger s.shards[shard].locks.pending[t]} | t in s.shards[shard].locks.pending ::
         && (t, shard) in s.voted && Started(s, t)
         && shard in s.plans[t].batches && s.shards[shard].locks.pending[t] == s.plans[t].batches[shard]
  }

  ghost predicate Inv(s: System) {
    && s.plans.Keys == s.answers.Keys
    && (forall t {:trigger s.plans[t]} | t in s.plans :: Started(s, t) && s.plans[t].txn == t && AnswersTrue(s, t))
    && (forall m {:trigger MessageFits(s, m)} | m in s.sent :: MessageFits(s, m))
    && (forall m {:trigger m in s.succeeded} | m in s.succeeded ::
          && (m.command.PrepareTxn? ==> (m.command.txn, m.shard) in s.voted)
          && (m.command.CommitTxn? ==> (m.command.txn, m.shard) in s.ran))
    && (forall t, i {:trigger (t, i) in s.ran} | (t, i) in s.ran :: Message(i, CommitTxn(t)) in s.sent)
    && (forall t, i {:trigger (t, i) in s.dropped} | (t, i) in s.dropped :: Message(i, AbortTxn(t)) in s.sent)
    && (forall i {:trigger s.shards[i]} | i in s.shards :: ShardFits(s, i))
  }

  lemma InitialInv(s: System)
    requires Initial(s)
    ensures Inv(s)
  {
    NoLocksExact();
  }

  // ------------------------------------------------------------------------------------------
  // Every step keeps it
  // ------------------------------------------------------------------------------------------

  lemma BeginKeepsInv(s: System, plan: Plan)
    requires Inv(s) && Enabled(s, Begin(plan))
    ensures Inv(Do(s, Begin(plan)))
  {
    hide ShardFits, AnswersTrue, MessageFits, NextSend, Delivered, Apply, Unanimous, Refusing, YesUpTo;
    var s' := Do(s, Begin(plan));
    forall t | t in s'.plans ensures Started(s', t) && s'.plans[t].txn == t && AnswersTrue(s', t) {
      if t == plan.txn { NoAnswersTrue(s', t); } else { assert AnswersTrue(s, t); SameAnswers(s, s', t); }
    }
    forall m | m in s'.sent ensures MessageFits(s', m) {
      assert MessageFits(s, m);
      FitsWhen(s, s', m);
    }
    forall i | i in s'.shards ensures ShardFits(s', i) { ShardFitsWhen(s, s', i); }
  }

  lemma NoAnswersTrue(s: System, txn: TxnId)
    requires Started(s, txn) && s.answers[txn] == []
    ensures AnswersTrue(s, txn)
  {
  }

  /** What holds of a transaction still does when its answers stay and the events only grow. */
  lemma SameAnswers(s: System, s': System, txn: TxnId)
    requires Started(s, txn) && Started(s', txn) && AnswersTrue(s, txn)
    requires s'.plans[txn] == s.plans[txn] && s'.answers[txn] == s.answers[txn] && s.voted <= s'.voted && s.ran <= s'.ran
    ensures AnswersTrue(s', txn)
  {
    hide YesUpTo, Unanimous;
  }

  /** Plans stay, and answers only grow at the end. */
  ghost predicate Extends(s: System, s': System) {
    && (forall t :: Started(s, t) ==> Started(s', t) && s'.plans[t] == s.plans[t] && s.answers[t] <= s'.answers[t])
    && s.voted <= s'.voted
  }

  lemma FitsWhen(s: System, s': System, m: Message)
    requires MessageFits(s, m) && Extends(s, s')
    ensures MessageFits(s', m)
  {
    if m.command.AbortTxn? {
      var txn := m.command.txn;
      var k :| 0 <= k < |s.plans[txn].order| && k < |s.answers[txn]| && !s.answers[txn][k];
      assert !s'.answers[txn][k];
    }
  }

  lemma ShardFitsWhen(s: System, s': System, i: ShardId)
    requires i in s.shards && i in s'.shards && ShardFits(s, i) && s'.shards[i].locks == s.shards[i].locks && Extends(s, s')
    ensures ShardFits(s', i)
  {
    hide Exact;
  }

  /** What a coordinator sends next fits the answers it has. */
  lemma NextSendFits(s: System, txn: TxnId)
    requires Started(s, txn) && s.plans[txn].txn == txn && NextSend(s.plans[txn], s.answers[txn]).Some?
    ensures MessageFits(s, NextSend(s.plans[txn], s.answers[txn]).value)
  {
    var p, answers := s.plans[txn], s.answers[txn];
    var votes := Votes(p, answers);
    assert forall k :: 0 <= k < |votes| ==> votes[k] == answers[k];
    assert FirstNo(votes).Some? ==> !answers[FirstNo(votes).value];
  }

  lemma SendKeepsInv(s: System, txn: TxnId)
    requires Inv(s) && Enabled(s, Send(txn))
    ensures Inv(Do(s, Send(txn)))
  {
    hide ShardFits, AnswersTrue, MessageFits, NextSend, Delivered, Apply, Unanimous, Refusing, YesUpTo, PlanOk;
    var s' := Do(s, Send(txn));
    assert s.plans[txn].txn == txn;
    NextSendFits(s, txn);
    forall t | t in s'.plans ensures Started(s', t) && s'.plans[t].txn == t && AnswersTrue(s', t) { SameAnswers(s, s', t); }
    forall m | m in s'.sent ensures MessageFits(s', m) {
      if m in s.sent { assert MessageFits(s, m); }
      FitsWhen(s, s', m);
    }
    forall i | i in s'.shards ensures ShardFits(s', i) { ShardFitsWhen(s, s', i); }
  }

  lemma WriteKeepsInv(s: System, shard: ShardId, text: string)
    requires Inv(s) && Enabled(s, Write(shard, text))
    ensures Inv(Do(s, Write(shard, text)))
  {
    hide ShardFits, AnswersTrue, MessageFits, SqlFrontEnd.ExecuteText;
    var s' := Do(s, Write(shard, text));
    forall t | t in s'.plans ensures Started(s', t) && s'.plans[t].txn == t && AnswersTrue(s', t) { SameAnswers(s, s', t); }
    forall m | m in s'.sent ensures MessageFits(s', m) {
      assert MessageFits(s, m);
      FitsWhen(s, s', m);
    }
    forall i | i in s'.shards ensures ShardFits(s', i) { ShardFitsWhen(s, s', i); }
  }

  lemma YesExtends(before: seq<bool>, ok: bool, k: nat)
    requires YesUpTo(before + [ok], k)
    ensures if k <= |before| then YesUpTo(before, k) else k == |before| + 1 && ok && YesUpTo(before, |before|)
  {
    assert forall i :: 0 <= i < |before| ==> (before + [ok])[i] == before[i];
    if k > |before| { assert (before + [ok])[|before|]; }
  }

  /** A yes answer to PREPARE is a vote. */
  lemma YesIsVote(s: System, txn: TxnId, ok: bool, i: nat)
    requires Started(s, txn) && AnswersTrue(s, txn) && s.plans[txn].txn == txn && i < |s.plans[txn].order|
    requires ok && NextSend(s.plans[txn], s.answers[txn]).Some? ==> NextSend(s.plans[txn], s.answers[txn]).value in s.succeeded
    requires forall m {:trigger m in s.succeeded} | m in s.succeeded :: m.command.PrepareTxn? ==> (m.command.txn, m.shard) in s.voted
    requires YesUpTo(s.answers[txn] + [ok], i + 1)
    ensures (txn, s.plans[txn].order[i]) in s.voted
  {
    hide NextSend;
    var p, before := s.plans[txn], s.answers[txn];
    YesExtends(before, ok, i + 1);
    if i >= |before| {
      Preparing(p, before);
      assert PrepareMessage(p, i) in s.succeeded;
    }
  }

  /** A yes answer to COMMIT is a run. */
  lemma YesIsRun(s: System, txn: TxnId, ok: bool, j: nat)
    requires Started(s, txn) && AnswersTrue(s, txn) && s.plans[txn].txn == txn && j < |s.plans[txn].order|
    requires ok && NextSend(s.plans[txn], s.answers[txn]).Some? ==> NextSend(s.plans[txn], s.answers[txn]).value in s.succeeded
    requires forall m {:trigger m in s.succeeded} | m in s.succeeded :: m.command.CommitTxn? ==> (m.command.txn, m.shard) in s.ran
    requires var p := s.plans[txn]; var after := s.answers[txn] + [ok];
             |p.order| + j < |after| && Unanimous(p, after) && after[|p.order| + j]
    ensures (txn, s.plans[txn].order[j]) in s.ran
  {
    hide NextSend;
    var p, before := s.plans[txn], s.answers[txn];
    YesExtends(before, ok, |p.order|);
    if |p.order| + j < |before| {
      assert before[|p.order| + j];
    } else {
      Committing(p, before);
      assert Message(p.order[j], CommitTxn(txn)) in s.succeeded;
    }
  }

  lemma YesAnswerTrue(s: System, s': System, txn: TxnId, ok: bool)
    requires Started(s, txn) && AnswersTrue(s, txn) && s.plans[txn].txn == txn
    requires ok && NextSend(s.plans[txn], s.answers[txn]).Some? ==> NextSend(s.plans[txn], s.answers[txn]).value in s.succeeded
    requires forall m {:trigger m in s.succeeded} | m in s.succeeded ::
               && (m.command.PrepareTxn? ==> (m.command.txn, m.shard) in s.voted)
               && (m.command.CommitTxn? ==> (m.command.txn, m.shard) in s.ran)
    requires Started(s', txn) && s'.plans[txn] == s.plans[txn] && s'.answers[txn] == s.answers[txn] + [ok] && s'.voted == s.voted && s'.ran == s.ran
    ensures AnswersTrue(s', txn)
  {
    hide NextSend, YesUpTo, Unanimous;
    var p := s.plans[txn];
    forall i {:trigger p.order[i]} | 0 <= i < |p.order| && YesUpTo(s'.answers[txn], i + 1) ensures (txn, p.order[i]) in s'.voted {
      YesIsVote(s, txn, ok, i);
    }
    forall j {:trigger p.order[j]} | 0 <= j < |p.order| && |p.order| + j < |s'.answers[txn]| && Unanimous(p, s'.answers[txn])
        && s'.answers[txn][|p.order| + j]
      ensures (txn, p.order[j]) in s'.ran
    {
      YesIsRun(s, txn, ok, j);
    }
  }

  lemma AnswerKeepsInv(s: System, txn: TxnId, ok: bool)
    requires Inv(s) && Enabled(s, Answer(txn, ok))
    ensures Inv(Do(s, Answer(txn, ok)))
  {
    hide ShardFits, AnswersTrue, MessageFits, NextSend, Delivered, Apply, Unanimous, Refusing, YesUpTo, PlanOk;
    var s' := Do(s, Answer(txn, ok));
    assert s.plans[txn].txn == txn;
    YesAnswerTrue(s, s', txn, ok);
    forall t | t in s'.plans ensures Started(s', t) && s'.plans[t].txn == t && AnswersTrue(s', t) {
      if t != txn { SameAnswers(s, s', t); }
    }
    forall m | m in s'.sent ensures MessageFits(s', m) {
      assert MessageFits(s, m);
      FitsWhen(s, s', m);
    }
    forall i | i in s'.shards ensures ShardFits(s', i) { ShardFitsWhen(s, s', i); }
  }

  /** A message that fits leaves its shard with transactions that voted, holding what was sent to it. */
  lemma DeliveredShardFits(s: System, m: Message)
    requires m.shard in s.shards && ShardFits(s, m.shard) && MessageFits(s, m)
    ensures ShardFits(Delivered(s, m), m.shard)
  {
    hide Exact, StagedDuplicateIn, RunStaged, KeySet, FirstLocked, Unanimous, Refusing, PlanOk;
    ApplyKeepsExact(s.shards[m.shard], m.command);
  }

  lemma DeliveredEvents(s: System, m: Message)
    requires m.shard in s.shards && !m.command.Sql?
    ensures var s' := Delivered(s, m);
            && s.voted <= s'.voted && s.ran <= s'.ran && s.dropped <= s'.dropped && s'.plans == s.plans && s'.answers == s.answers && s'.sent == s.sent
            && s'.ran <= s.ran + (if m.command.CommitTxn? then {(m.command.txn, m.shard)} else {})
            && s'.dropped <= s.dropped + (if m.command.AbortTxn? then {(m.command.txn, m.shard)} else {})
            && s'.succeeded <= s.succeeded + {m}
            && (m in s'.succeeded && m !in s.succeeded ==>
                 && (m.command.PrepareTxn? ==> (m.command.txn, m.shard) in s'.voted)
                 && (m.command.CommitTxn? ==> (m.command.txn, m.shard) in s'.ran))
            && s'.shards.Keys == s.shards.Keys && forall i :: i in s.shards && i != m.shard ==> s'.shards[i] == s.shards[i]
  {
    hide StagedDuplicateIn, RunStaged, Prepare, Resolve, Abort;
  }

  lemma DeliverKeepsInv(s: System, m: Message)
    requires Inv(s) && Enabled(s, Deliver(m))
    ensures Inv(Do(s, Deliver(m)))
  {
    hide ShardFits, AnswersTrue, MessageFits, Delivered, Apply, NextSend, Unanimous, Refusing, YesUpTo, PlanOk;
    var s' := Delivered(s, m);
    assert MessageFits(s, m);
    NotSql(s, m);
    DeliveredEvents(s, m);
    DeliveredShardFits(s, m);
    forall t | t in s'.plans ensures Started(s', t) && s'.plans[t].txn == t && AnswersTrue(s', t) { SameAnswers(s, s', t); }
    forall m' | m' in s'.sent ensures MessageFits(s', m') {
      assert MessageFits(s, m');
      FitsWhen(s, s', m');
    }
    forall i | i in s'.shards ensures ShardFits(s', i) {
      if i != m.shard { ShardFitsWhen(s, s', i); }
    }
    forall x | x in s'.succeeded
      ensures (x.command.PrepareTxn? ==> (x.command.txn, x.shard) in s'.voted) && (x.command.CommitTxn? ==> (x.command.txn, x.shard) in s'.ran)
    {
      assert x in s.succeeded || x == m;
    }
    forall t, i | (t, i) in s'.ran ensures Message(i, CommitTxn(t)) in s'.sent {
      assert (t, i) in s.ran || (m.command.CommitTxn? && (t, i) == (m.command.txn, m.shard));
    }
    forall t, i | (t, i) in s'.dropped ensures Message(i, AbortTxn(t)) in s'.sent {
      assert (t, i) in s.dropped || (m.command.AbortTxn? && (t, i) == (m.command.txn, m.shard));
    }
  }

  lemma NotSql(s: System, m: Message)
    requires MessageFits(s, m)
    ensures !m.command.Sql?
  {
  }

  lemma StepKeepsInv(s: System, step: Step)
    requires Inv(s) && Enabled(s, step)
    ensures Inv(Do(s, step))
  {
    hide Inv, Enabled, Do;
    match step
    case Begin(plan) => BeginKeepsInv(s, plan);
    case Send(txn) => SendKeepsInv(s, txn);
    case Deliver(m) => DeliverKeepsInv(s, m);
    case Answer(txn, ok) => AnswerKeepsInv(s, txn, ok);
    case Write(shard, text) => WriteKeepsInv(s, shard, text);
  }

  lemma {:induction false} RunKeepsInv(s: System, steps: seq<Step>, s': System)
    requires Inv(s) && Leads(s, steps, s')
    ensures Inv(s')
    decreases |steps|
  {
    hide Inv, Enabled, Do;
    if steps != [] {
      StepKeepsInv(s, steps[0]);
      RunKeepsInv(Do(s, steps[0]), steps[1..], s');
    }
  }

  // ------------------------------------------------------------------------------------------
  // The theorems
  // ------------------------------------------------------------------------------------------

  /** A shard of a system that a run leads to ran a transaction's commands only if every shard of the
      transaction had voted yes. */
  lemma RunsNeedAllVotes(s: System, steps: seq<Step>, s': System, txn: TxnId, shard: ShardId, other: ShardId)
    requires Initial(s) && Leads(s, steps, s') && (txn, shard) in s'.ran
    ensures Started(s', txn) && shard in s'.plans[txn].order
    ensures other in s'.plans[txn].order ==> (txn, other) in s'.voted
  {
    hide Leads, ShardFits, NextSend, PlanOk;
    InitialInv(s);
    RunKeepsInv(s, steps, s');
    RanUnanimous(s', txn, shard);
    var p := s'.plans[txn];
    assert AnswersTrue(s', txn);
    if other in p.order {
      var i :| 0 <= i < |p.order| && p.order[i] == other;
      assert YesUpTo(s'.answers[txn], i + 1);
    }
  }

  /** No transaction is run on one shard and dropped on another. */
  lemma NeverBoth(s: System, steps: seq<Step>, s': System, txn: TxnId, a: ShardId, b: ShardId)
    requires Initial(s) && Leads(s, steps, s')
    ensures !((txn, a) in s'.ran && (txn, b) in s'.dropped)
  {
    hide Leads, ShardFits, NextSend, PlanOk, AnswersTrue;
    InitialInv(s);
    RunKeepsInv(s, steps, s');
    if (txn, a) in s'.ran && (txn, b) in s'.dropped {
      RanUnanimous(s', txn, a);
      DroppedRefusing(s', txn, b);
    }
  }

  lemma RanUnanimous(s: System, txn: TxnId, shard: ShardId)
    requires Inv(s) && (txn, shard) in s.ran
    ensures Started(s, txn) && shard in s.plans[txn].order && Unanimous(s.plans[txn], s.answers[txn])
  {
    hide ShardFits, AnswersTrue, NextSend, PlanOk, Unanimous;
    assert MessageFits(s, Message(shard, CommitTxn(txn)));
  }

  lemma DroppedRefusing(s: System, txn: TxnId, shard: ShardId)
    requires Inv(s) && (txn, shard) in s.dropped
    ensures Started(s, txn) && Refusing(s.plans[txn], s.answers[txn])
  {
    hide ShardFits, AnswersTrue, NextSend, PlanOk, Refusing;
    assert MessageFits(s, Message(shard, AbortTxn(txn)));
  }

  /** Whatever the run, at every shard the locked keys are the disjoint union of those of its pending
      transactions, each of which holds exactly what its coordinator sent there. */
  lemma LocksOverRuns(s: System, steps: seq<Step>, s': System, shard: ShardId)
    requires Initial(s) && Leads(s, steps, s') && shard in s'.shards
    ensures Exact(s'.shards[shard].locks)
    ensures forall t :: t in s'.shards[shard].locks.pending ==>
              t in s'.plans && shard in s'.plans[t].batches && s'.shards[shard].locks.pending[t] == s'.plans[t].batches[shard]
  {
    hide Leads, NextSend, PlanOk, AnswersTrue, Exact, MessageFits;
    InitialInv(s);
    RunKeepsInv(s, steps, s');
    assert ShardFits(s', shard);
  }

  /** What a coordinator reports is true: a commit ran on every shard; an abort ran on none. */
  lemma ReportsAreTrue(s: System, steps: seq<Step>, s': System, txn: TxnId)
    requires Initial(s) && Leads(s, steps, s') && Started(s', txn) && NextSend(s'.plans[txn], s'.answers[txn]) == None
    ensures var p := s'.plans[txn]; var outcome := OutcomeOf(p, s'.answers[txn]);
            && (outcome.Committed? ==> forall shard :: shard in p.order ==> (txn, shard) in s'.ran)
            && (outcome.Aborted? ==> forall shard: ShardId :: (txn, shard) !in s'.ran)
            && (outcome.Undelivered? ==> forall shard :: shard in p.order && shard !in outcome.commitFailures ==> (txn, shard) in s'.ran)
  {
    hide Leads, ShardFits, MessageFits, PlanOk, NextSend;
    InitialInv(s);
    RunKeepsInv(s, steps, s');
    var p, answers := s'.plans[txn], s'.answers[txn];
    assert AnswersTrue(s', txn);
    if FirstNo(Votes(p, answers)).Some? {
      forall shard: ShardId ensures (txn, shard) !in s'.ran { RefusedNeverRuns(s', txn, shard); }
    } else {
      DoneCommitting(p, answers);
      forall i | 0 <= i < |p.order| && p.order[i] !in FailedAt(p.order, answers[|p.order|..][..|p.order|])
        ensures (txn, p.order[i]) in s'.ran
      {
        NotFailed(p.order, answers[|p.order|..][..|p.order|], i);
      }
    }
  }

  lemma DoneCommitting(p: Plan, answers: seq<bool>)
    requires PlanOk(p) && NextSend(p, answers) == None && FirstNo(Votes(p, answers)) == None
    ensures |answers| >= 2 * |p.order| && Unanimous(p, answers)
  {
    var votes := Votes(p, answers);
    assert forall k :: 0 <= k < |votes| ==> votes[k] == answers[k];
  }

  lemma RefusedNeverRuns(s: System, txn: TxnId, shard: ShardId)
    requires Inv(s) && Started(s, txn) && FirstNo(Votes(s.plans[txn], s.answers[txn])).Some?
    ensures (txn, shard) !in s.ran
  {
    hide ShardFits, AnswersTrue, NextSend, PlanOk;
    var p, answers := s.plans[txn], s.answers[txn];
    var k := FirstNo(Votes(p, answers)).value;
    assert Votes(p, answers)[k] == answers[k];
    if (txn, shard) in s.ran { RanUnanimous(s, txn, shard); }
  }

  lemma {:induction false} NotFailed(order: seq<ShardId>, answers: seq<bool>, i: nat)
    requires |order| == |answers| && i < |order| && order[i] !in FailedAt(order, answers)
    ensures answers[i]
    decreases |order|
  {
    var n := |order| - 1;
    if i < n { NotFailed(order[..n], answers[..n], i); }
  }

  // ------------------------------------------------------------------------------------------
  // Staged INSERTs in the protocol
  // ------------------------------------------------------------------------------------------

  /** The command a step applies is careful where it is applied. */
  predicate StepCareful(s: System, step: Step) {
    match step
    case Deliver(m) => m.shard in s.shards ==> Careful(s.shards[m.shard], m.command)
    case Write(shard, text) => shard in s.shards ==> Careful(s.shards[shard], Sql(text))
    case _ => true
  }

  ghost predicate LeadsCarefully(s: System, steps: seq<Step>, s': System)
    decreases |steps|
  {
    if steps == [] then s' == s
    else Enabled(s, steps[0]) && StepCareful(s, steps[0]) && LeadsCarefully(Do(s, steps[0]), steps[1..], s')
  }

  ghost predicate AllProtected(s: System) { forall i :: i in s.shards ==> Protected(s.shards[i]) }

  lemma StepKeepsProtected(s: System, step: Step)
    requires AllProtected(s) && Enabled(s, step) && StepCareful(s, step)
    ensures AllProtected(Do(s, step))
  {
    hide Protected, Careful, Apply, NextSend, PlanOk;
    match step
    case Deliver(m) => ApplyKeepsProtected(s.shards[m.shard], m.command);
    case Write(shard, text) => ApplyKeepsProtected(s.shards[shard], Sql(text));
    case _ =>
  }

  lemma {:induction false} RunKeepsProtected(s: System, steps: seq<Step>, s': System)
    requires AllProtected(s) && LeadsCarefully(s, steps, s')
    ensures AllProtected(s')
    decreases |steps|
  {
    hide AllProtected, Enabled, StepCareful, Do;
    if steps != [] {
      StepKeepsProtected(s, steps[0]);
      RunKeepsProtected(Do(s, steps[0]), steps[1..], s');
    }
  }

  /** In every careful run, no COMMIT delivered anywhere ever meets a duplicate key. */
  lemma CommitsMeetNoDuplicate(s: System, steps: seq<Step>, s': System, m: Message)
    requires Initial(s) && LeadsCarefully(s, steps, s') && m.shard in s'.shards && m.command.CommitTxn?
    ensures !IsDuplicate(Apply(s'.shards[m.shard], m.command).1)
  {
    hide LeadsCarefully, Ready, RunStaged, Initial;
    InitialProtected(s);
    RunKeepsProtected(s, steps, s');
    var replica := s'.shards[m.shard];
    assert Protected(replica);
    if m.command.txn in replica.locks.pending { ReadyRuns(replica.store, replica.locks.pending[m.command.txn]); }
  }

  lemma InitialProtected(s: System)
    requires Initial(s)
    ensures AllProtected(s)
  {
    hide Protected;
    forall i | i in s.shards ensures Protected(s.shards[i]) { NothingPreparedProtected(s.shards[i].store); }
  }
}
