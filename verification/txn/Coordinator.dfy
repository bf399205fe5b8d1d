/**
 The coordinator: which message a transaction sends next is a function of the answers so far, and
 RunTransaction sends exactly those.
 */
module TxnCoordinators {
  import opened Options
  import opened TxnParticipants
  import opened TxnReplicas

  type ShardId = nat

  datatype Message = Message(shard: ShardId, command: Command)

  /** A transaction: the shards it touches, ascending, and each one's share. */
  datatype Plan = Plan(txn: TxnId, order: seq<ShardId>, batches: map<ShardId, Staged>)

  predicate PlanOk(p: Plan) {
    (forall i :: 0 <= i < |p.order| ==> p.order[i] in p.batches) && (forall i, j :: 0 <= i < j < |p.order| ==> p.order[i] < p.order[j])
  }

  // ------------------------------------------------------------------------------------------
  // What comes next
  // ------------------------------------------------------------------------------------------

  function FirstNo(answers: seq<bool>): (r: Option<nat>)
    ensures r.Some? ==> r.value < |answers| && !answers[r.value] && forall i :: 0 <= i < r.value ==> answers[i]
    ensures r.None? ==> forall i :: 0 <= i < |answers| ==> answers[i]
    decreases |answers|
  {
    if answers == [] then None
    else if !answers[0] then Some(0)
    else match FirstNo(answers[1..]) case None => None case Some(k) => Some(k + 1)
  }

  /** The answers to PREPARE. */
  function Votes(p: Plan, answers: seq<bool>): (r: seq<bool>)
    ensures |r| <= |p.order| && r <= answers
  {
    if |answers| <= |p.order| then answers else answers[..|p.order|]
  }

  function PrepareMessage(p: Plan, i: nat): Message
    requires PlanOk(p) && i < |p.order|
  {
    var staged := p.batches[p.order[i]];
    Message(p.order[i], PrepareTxn(p.txn, staged.keys, staged.commands))
  }

  /** PREPARE to each shard in turn until one refuses; then ABORT to those before it, or else COMMIT to
      all. A failed answer stands for a refusal and for an exception alike. */
  function NextSend(p: Plan, answers: seq<bool>): Option<Message>
    requires PlanOk(p)
  {
    var n := |p.order|;
    match FirstNo(Votes(p, answers))
    case Some(k) =>
      var j := |answers| - (k + 1);
      if j < k then Some(Message(p.order[j], AbortTxn(p.txn))) else None
    case None =>
      if |answers| < n then Some(PrepareMessage(p, |answers|))
      else if |answers| - n < n then Some(Message(p.order[|answers| - n], CommitTxn(p.txn)))
      else None
  }

  function FailedAt(order: seq<ShardId>, answers: seq<bool>): seq<ShardId>
    requires |order| == |answers|
    decreases |order|
  {
    if order == [] then []
    else
      var n := |order| - 1;
      FailedAt(order[..n], answers[..n]) + if answers[n] then [] else [order[n]]
  }

  datatype Outcome =
    | Committed(shards: nat)
    | Aborted(refusedBy: ShardId, rollbackFailures: seq<ShardId>)
    | Undelivered(commitFailures: seq<ShardId>)

  /** What is reported once nothing is left to send. */
  function OutcomeOf(p: Plan, answers: seq<bool>): Outcome
    requires PlanOk(p) && NextSend(p, answers) == None
  {
    var n := |p.order|;
    match FirstNo(Votes(p, answers))
    case Some(k) => Aborted(p.order[k], FailedAt(p.order[..k], answers[k + 1..][..k]))
    case None =>
      var failures := FailedAt(p.order, answers[n..][..n]);
      if failures == [] then Committed(n) else Undelivered(failures)
  }

  // ------------------------------------------------------------------------------------------
  // Grouping
  // ------------------------------------------------------------------------------------------

  datatype Buffered = Buffered(shard: ShardId, key: string, sql: string)

  /** A shard's share of the buffer, in order. */
  function BatchOf(buffer: seq<Buffered>, shard: ShardId): Staged
    decreases |buffer|
  {
    if buffer == [] then Staged([], [])
    else
      var before := BatchOf(buffer[..|buffer| - 1], shard);
      var b := buffer[|buffer| - 1];
      if b.shard == shard then Staged(before.keys + [b.key], before.commands + [b.sql]) else before
  }

  ghost predicate Touches(buffer: seq<Buffered>, shard: ShardId) { exists b :: b in buffer && b.shard == shard }

  /** The plan of a buffer. */
  ghost predicate Plans(p: Plan, txn: TxnId, buffer: seq<Buffered>) {
    && PlanOk(p) && p.txn == txn
    && (forall s :: s in p.order <==> Touches(buffer, s))
    && (forall s :: s in p.order ==> p.batches[s] == BatchOf(buffer, s))
  }

  method InsertAscending(order: seq<ShardId>, shard: ShardId) returns (r: seq<ShardId>)
    requires shard !in order && forall i, j :: 0 <= i < j < |order| ==> order[i] < order[j]
    ensures forall i, j :: 0 <= i < j < |r| ==> r[i] < r[j]
    ensures forall s :: s in r <==> s in order || s == shard
  {
    var at := 0;
    while at < |order| && order[at] < shard
      invariant 0 <= at <= |order| && forall i :: 0 <= i < at ==> order[i] < shard
    {
      at := at + 1;
    }
    r := order[..at] + [shard] + order[at..];
    assert forall s :: s in order <==> s in order[..at] || s in order[at..] by { assert order == order[..at] + order[at..]; }
  }

  method GroupByShard(txn: TxnId, buffer: seq<Buffered>) returns (p: Plan)
    ensures Plans(p, txn, buffer)
  {
    hide BatchOf, Touches;
    NoBatches();
    var order: seq<ShardId> := [];
    var batches: map<ShardId, Staged> := map[];
    var i := 0;
    while i < |buffer|
      invariant 0 <= i <= |buffer|
      invariant forall j, k :: 0 <= j < k < |order| ==> order[j] < order[k]
      invariant forall s :: s in order <==> s in batches
      invariant forall s :: s in batches <==> Touches(buffer[..i], s)
      invariant forall s :: s in batches ==> batches[s] == BatchOf(buffer[..i], s)
    {
      var b := buffer[i];
      GroupStep(buffer, i);
      if b.shard !in batches {
        order := InsertAscending(order, b.shard);
        assert BatchOf(buffer[..i], b.shard) == Staged([], []);
        batches := batches[b.shard := Staged([b.key], [b.sql])];
      } else {
        var staged := batches[b.shard];
        batches := batches[b.shard := Staged(staged.keys + [b.key], staged.commands + [b.sql])];
      }
      i := i + 1;
    }
    assert buffer[..i] == buffer;
    p := Plan(txn, order, batches);
  }

  lemma NoBatches()
    ensures forall s :: !Touches([], s)
  {
  }

  lemma GroupStep(buffer: seq<Buffered>, i: nat)
    requires i < |buffer|
    ensures forall s :: BatchOf(buffer[..i + 1], s) ==
              var before := BatchOf(buffer[..i], s);
              if buffer[i].shard == s then Staged(before.keys + [buffer[i].key], before.commands + [buffer[i].sql]) else before
    ensures forall s :: Touches(buffer[..i + 1], s) <==> Touches(buffer[..i], s) || buffer[i].shard == s
    ensures forall s :: Touches(buffer[..i], s) || BatchOf(buffer[..i], s) == Staged([], [])
  {
    assert buffer[..i + 1][..i] == buffer[..i];
    assert buffer[..i + 1] == buffer[..i] + [buffer[i]];
    forall s ensures Touches(buffer[..i + 1], s) <==> Touches(buffer[..i], s) || buffer[i].shard == s {
      if buffer[i].shard == s { assert buffer[i] in buffer[..i + 1]; }
    }
    forall s ensures Touches(buffer[..i], s) || BatchOf(buffer[..i], s) == Staged([], []) {
      EmptyBatch(buffer[..i], s);
    }
  }

  lemma {:induction false} EmptyBatch(buffer: seq<Buffered>, s: ShardId)
    ensures Touches(buffer, s) || BatchOf(buffer, s) == Staged([], [])
    decreases |buffer|
  {
    if buffer != [] {
      EmptyBatch(buffer[..|buffer| - 1], s);
      assert buffer[|buffer| - 1] in buffer;
      forall b | b in buffer[..|buffer| - 1] ensures b in buffer {}
    }
  }

  // ------------------------------------------------------------------------------------------
  // RunTransaction
  // ------------------------------------------------------------------------------------------

  /** What a send comes to: success, an error in the response, or an exception. */
  datatype Reception = Accepted | Rejected | Thrown

  /** The way to the shards: what was sent, and what came of each message, whatever it may be. */
  class Channel {
    const receptions: nat -> Reception
    var sent: seq<Message>

    constructor (receptions: nat -> Reception)
      ensures this.receptions == receptions && sent == []
    {
      this.receptions := receptions;
      sent := [];
    }

    ghost function Answers(): (r: seq<bool>)
      reads this
      ensures |r| == |sent|
    {
      seq(|sent|, i requires 0 <= i => receptions(i) == Accepted)
    }

    method Send(m: Message) returns (reception: Reception)
      modifies this
      ensures reception == receptions(old(|sent|))
      ensures sent == old(sent) + [m] && Answers() == old(Answers()) + [reception == Accepted]
    {
      reception := receptions(|sent|);
      sent := sent + [m];
    }
  }

  /** Each message was the next one, by the answers before it. */
  ghost predicate Followed(p: Plan, sent: seq<Message>, answers: seq<bool>)
    requires PlanOk(p)
  {
    |sent| == |answers| && forall k {:trigger sent[k]} | 0 <= k < |sent| :: NextSend(p, answers[..k]) == Some(sent[k])
  }

  lemma FollowedNext(p: Plan, sent: seq<Message>, answers: seq<bool>, m: Message)
    requires PlanOk(p) && Followed(p, sent, answers) && NextSend(p, answers) == Some(m)
    ensures forall ok :: Followed(p, sent + [m], answers + [ok])
  {
    hide NextSend;
    forall ok, k | 0 <= k < |sent| + 1 ensures NextSend(p, (answers + [ok])[..k]) == Some((sent + [m])[k]) {
      if k < |sent| {
        assert (answers + [ok])[..k] == answers[..k] && (sent + [m])[k] == sent[k];
      } else {
        assert (answers + [ok])[..k] == answers;
      }
    }
  }

  lemma {:induction false} FirstNoAt(answers: seq<bool>, k: nat)
    requires k < |answers| && !answers[k] && forall i :: 0 <= i < k ==> answers[i]
    ensures FirstNo(answers) == Some(k)
    decreases |answers|
  {
    if k > 0 { FirstNoAt(answers[1..], k - 1); }
  }

  lemma {:induction false} NoNo(answers: seq<bool>)
    requires forall i :: 0 <= i < |answers| ==> answers[i]
    ensures FirstNo(answers) == None
    decreases |answers|
  {
    if answers != [] { NoNo(answers[1..]); }
  }

  /** The failures among the answers from `from` on, one more. */
  lemma FailuresGrow(order: seq<ShardId>, before: seq<bool>, from: nat, j: nat, ok: bool)
    requires j < |order| && |before| == from + j
    ensures FailedAt(order[..j + 1], (before + [ok])[from..]) == FailedAt(order[..j], before[from..]) + if ok then [] else [order[j]]
  {
    var answers := (before + [ok])[from..];
    assert order[..j + 1][..j] == order[..j] && answers[..j] == before[from..];
  }

  lemma PlansOk(p: Plan, txn: TxnId, buffer: seq<Buffered>)
    requires Plans(p, txn, buffer)
    ensures PlanOk(p) && p.txn == txn
  {
  }

  lemma Preparing(p: Plan, answers: seq<bool>)
    requires PlanOk(p) && |answers| < |p.order| && forall i :: 0 <= i < |answers| ==> answers[i]
    ensures NextSend(p, answers) == Some(PrepareMessage(p, |answers|))
  {
    NoNo(answers);
  }

  lemma Aborting(p: Plan, answers: seq<bool>, k: nat)
    requires PlanOk(p) && k < |p.order| && k < |answers| && !answers[k] && forall i :: 0 <= i < k ==> answers[i]
    ensures FirstNo(Votes(p, answers)) == Some(k)
    ensures var j := |answers| - (k + 1);
            && (j < k ==> NextSend(p, answers) == Some(Message(p.order[j], AbortTxn(p.txn))))
            && (j == k ==> NextSend(p, answers) == None
                           && OutcomeOf(p, answers) == Aborted(p.order[k], FailedAt(p.order[..k], answers[k + 1..][..k])))
  {
    FirstNoAt(Votes(p, answers), k);
  }

  lemma Committing(p: Plan, answers: seq<bool>)
    requires PlanOk(p) && |answers| >= |p.order| && forall i :: 0 <= i < |p.order| ==> answers[i]
    ensures var n := |p.order|; var j := |answers| - n;
            && (j < n ==> NextSend(p, answers) == Some(Message(p.order[j], CommitTxn(p.txn))))
            && (j == n ==> NextSend(p, answers) == None
                           && var failures := FailedAt(p.order, answers[n..][..n]);
                              OutcomeOf(p, answers) == if failures == [] then Committed(n) else Undelivered(failures))
  {
    NoNo(Votes(p, answers));
  }

  /** The messages of a transaction whose k-th shard refused: PREPARE up to it, then ABORT to those before it. */
  ghost predicate Abandons(p: Plan, sent: seq<Message>, k: nat)
    requires PlanOk(p) && k < |p.order|
  {
    && |sent| == 2 * k + 1
    && (forall i :: 0 <= i <= k ==> sent[i] == Message(p.order[i], PrepareTxn(p.txn, p.batches[p.order[i]].keys, p.batches[p.order[i]].commands)))
    && (forall j :: 0 <= j < k ==> sent[k + 1 + j] == Message(p.order[j], AbortTxn(p.txn)))
  }

  /** The messages of one that none refused: PREPARE to each shard, then COMMIT to each. */
  ghost predicate Concludes(p: Plan, sent: seq<Message>)
    requires PlanOk(p)
  {
    var n := |p.order|;
    && |sent| == 2 * n
    && (forall i :: 0 <= i < n ==> sent[i] == Message(p.order[i], PrepareTxn(p.txn, p.batches[p.order[i]].keys, p.batches[p.order[i]].commands)))
    && (forall j :: 0 <= j < n ==> sent[n + j] == Message(p.order[j], CommitTxn(p.txn)))
  }

  /** Each message was what came next after the answers before it. */
  lemma SentNext(p: Plan, sent: seq<Message>, answers: seq<bool>, i: nat)
    requires PlanOk(p) && Followed(p, sent, answers) && i < |sent|
    ensures NextSend(p, answers[..i]) == Some(sent[i])
  {
    hide NextSend;
  }

  lemma AbandonedSends(p: Plan, sent: seq<Message>, answers: seq<bool>, k: nat)
    requires PlanOk(p) && Followed(p, sent, answers) && NextSend(p, answers) == None && FirstNo(Votes(p, answers)) == Some(k)
    ensures k < |p.order| && Abandons(p, sent, k)
  {
    hide NextSend, FirstNo, Followed;
    assert |sent| == |answers| by { FollowedLength(p, sent, answers); }
    RefusedAt(p, answers, k);
    Aborting(p, answers, k);
    if |answers| > 2 * k + 1 {
      Aborting(p, answers[..2 * k + 1], k);
      SentNext(p, sent, answers, 2 * k + 1);
    }
    forall i | 0 <= i <= k ensures sent[i] == PrepareMessage(p, i) {
      Preparing(p, answers[..i]);
      SentNext(p, sent, answers, i);
    }
    forall j | 0 <= j < k ensures sent[k + 1 + j] == Message(p.order[j], AbortTxn(p.txn)) {
      Aborting(p, answers[..k + 1 + j], k);
      SentNext(p, sent, answers, k + 1 + j);
    }
  }

  lemma FollowedLength(p: Plan, sent: seq<Message>, answers: seq<bool>)
    requires PlanOk(p) && Followed(p, sent, answers)
    ensures |sent| == |answers|
  {
  }

  lemma RefusedAt(p: Plan, answers: seq<bool>, k: nat)
    requires FirstNo(Votes(p, answers)) == Some(k)
    ensures k < |p.order| && k < |answers| && !answers[k] && forall i :: 0 <= i < k ==> answers[i]
  {
    assert forall i :: 0 <= i < |Votes(p, answers)| ==> Votes(p, answers)[i] == answers[i];
  }

  lemma NoneRefused(p: Plan, answers: seq<bool>)
    requires FirstNo(Votes(p, answers)) == None
    ensures forall i :: 0 <= i < |answers| && i < |p.order| ==> answers[i]
  {
    assert forall i :: 0 <= i < |Votes(p, answers)| ==> Votes(p, answers)[i] == answers[i];
  }

  lemma ConcludedSends(p: Plan, sent: seq<Message>, answers: seq<bool>)
    requires PlanOk(p) && Followed(p, sent, answers) && NextSend(p, answers) == None && FirstNo(Votes(p, answers)) == None
    ensures Concludes(p, sent)
  {
    hide NextSend, FirstNo, Followed, Votes;
    var n := |p.order|;
    FollowedLength(p, sent, answers);
    NoneRefused(p, answers);
    if |answers| < n { Preparing(p, answers); }
    Committing(p, answers);
    if |answers| > 2 * n {
      Committing(p, answers[..2 * n]);
      SentNext(p, sent, answers, 2 * n);
    }
    forall i | 0 <= i < n ensures sent[i] == PrepareMessage(p, i) {
      Preparing(p, answers[..i]);
      SentNext(p, sent, answers, i);
    }
    forall j | 0 <= j < n ensures sent[n + j] == Message(p.order[j], CommitTxn(p.txn)) {
      Committing(p, answers[..n + j]);
      SentNext(p, sent, answers, n + j);
    }
  }

  /** All that is sent once nothing is left to send: each shard in turn gets its share to prepare until one refuses;
      then exactly those before it are told to abort, or else all are told to commit. */
  lemma SendsMeaning(p: Plan, sent: seq<Message>, answers: seq<bool>)
    requires PlanOk(p) && Followed(p, sent, answers) && NextSend(p, answers) == None
    ensures if exists k :: 0 <= k < |p.order| && k < |answers| && !answers[k]
            then exists k :: 0 <= k < |p.order| && k < |answers| && !answers[k] && (forall i :: 0 <= i < k ==> answers[i]) && Abandons(p, sent, k)
            else Concludes(p, sent)
  {
    hide NextSend, FirstNo, Followed, Abandons, Concludes, Votes;
    if FirstNo(Votes(p, answers)).Some? {
      RefusedAt(p, answers, FirstNo(Votes(p, answers)).value);
      AbandonedSends(p, sent, answers, FirstNo(Votes(p, answers)).value);
    } else {
      NoneRefused(p, answers);
      ConcludedSends(p, sent, answers);
    }
  }

  lemma NoFailures(order: seq<ShardId>, answers: seq<bool>)
    requires answers == []
    ensures FailedAt(order[..0], answers) == []
  {
  }

  /** The first k votes are yes. */
  predicate YesUpTo(answers: seq<bool>, k: nat) { k <= |answers| && forall i :: 0 <= i < k ==> answers[i] }

  /** PREPARE to each shard in turn, until one refuses. */
  method PrepareShards(p: Plan, channel: Channel) returns (prepared: seq<ShardId>, refused: bool)
    requires PlanOk(p) && channel.sent == []
    modifies channel
    ensures Followed(p, channel.sent, channel.Answers()) && YesUpTo(channel.Answers(), |prepared|)
    ensures prepared <= p.order && |channel.sent| == |prepared| + if refused then 1 else 0
    ensures if refused then |prepared| < |p.order| && !channel.Answers()[|prepared|] else prepared == p.order
  {
    hide NextSend;
    prepared := [];
    refused := false;
    var i := 0;
    while i < |p.order|
      invariant 0 <= i <= |p.order| && prepared == p.order[..i] && |channel.sent| == i
      invariant Followed(p, channel.sent, channel.Answers()) && YesUpTo(channel.Answers(), i)
    {
      Preparing(p, channel.Answers());
      var staged := p.batches[p.order[i]];
      FollowedNext(p, channel.sent, channel.Answers(), PrepareMessage(p, i));
      var reception := channel.Send(Message(p.order[i], PrepareTxn(p.txn, staged.keys, staged.commands)));
      if reception != Accepted { return prepared, true; }
      prepared := prepared + [p.order[i]];
      i := i + 1;
    }
  }

  /** ABORT to the shards that voted yes. */
  method AbortShards(p: Plan, prepared: seq<ShardId>, channel: Channel) returns (failures: seq<ShardId>)
    requires PlanOk(p) && prepared <= p.order && |channel.sent| == |prepared| + 1 && |prepared| < |p.order|
    requires Followed(p, channel.sent, channel.Answers()) && YesUpTo(channel.Answers(), |prepared|) && !channel.Answers()[|prepared|]
    modifies channel
    ensures Followed(p, channel.sent, channel.Answers()) && NextSend(p, channel.Answers()) == None
    ensures OutcomeOf(p, channel.Answers()) == Aborted(p.order[|prepared|], failures)
  {
    hide NextSend, FailedAt, FirstNo, Votes;
    var k := |prepared|;
    failures := [];
    var j := 0;
    NoFailures(p.order, channel.Answers()[k + 1..]);
    while j < k
      invariant 0 <= j <= k && |channel.sent| == k + 1 + j && Followed(p, channel.sent, channel.Answers())
      invariant YesUpTo(channel.Answers(), k) && !channel.Answers()[k]
      invariant failures == FailedAt(p.order[..j], channel.Answers()[k + 1..])
    {
      ghost var before := channel.Answers();
      Aborting(p, before, k);
      FollowedNext(p, channel.sent, before, Message(p.order[j], AbortTxn(p.txn)));
      var reception := channel.Send(Message(prepared[j], AbortTxn(p.txn)));
      FailuresGrow(p.order, before, k + 1, j, reception == Accepted);
      if reception != Accepted { failures := failures + [prepared[j]]; }
      j := j + 1;
    }
    Aborting(p, channel.Answers(), k);
    assert channel.Answers()[k + 1..] == channel.Answers()[k + 1..][..k];
  }

  /** COMMIT to every shard. */
  method CommitShards(p: Plan, channel: Channel) returns (failures: seq<ShardId>)
    requires PlanOk(p) && |channel.sent| == |p.order|
    requires Followed(p, channel.sent, channel.Answers()) && YesUpTo(channel.Answers(), |p.order|)
    modifies channel
    ensures Followed(p, channel.sent, channel.Answers()) && NextSend(p, channel.Answers()) == None
    ensures OutcomeOf(p, channel.Answers()) == if failures == [] then Committed(|p.order|) else Undelivered(failures)
  {
    hide NextSend, FailedAt, FirstNo, Votes;
    var n := |p.order|;
    failures := [];
    var j := 0;
    NoFailures(p.order, channel.Answers()[n..]);
    while j < n
      invariant 0 <= j <= n && |channel.sent| == n + j && Followed(p, channel.sent, channel.Answers())
      invariant YesUpTo(channel.Answers(), n)
      invariant failures == FailedAt(p.order[..j], channel.Answers()[n..])
    {
      ghost var before := channel.Answers();
      Committing(p, before);
      FollowedNext(p, channel.sent, before, Message(p.order[j], CommitTxn(p.txn)));
      var reception := channel.Send(Message(p.order[j], CommitTxn(p.txn)));
      FailuresGrow(p.order, before, n, j, reception == Accepted);
      if reception != Accepted { failures := failures + [p.order[j]]; }
      j := j + 1;
    }
    Committing(p, channel.Answers());
    assert channel.Answers()[n..] == channel.Answers()[n..][..n] && p.order[..n] == p.order;
  }

  /** The messages of a transaction, and what it reports, whatever the answers are. */
  method RunTransaction(txn: TxnId, buffer: seq<Buffered>, channel: Channel) returns (outcome: Outcome, p: Plan)
    requires channel.sent == []
    modifies channel
    ensures Plans(p, txn, buffer) && Followed(p, channel.sent, channel.Answers())
    ensures NextSend(p, channel.Answers()) == None && outcome == OutcomeOf(p, channel.Answers())
  {
    hide Plans, NextSend, FirstNo, FailedAt, BatchOf, Votes, OutcomeOf;
    p := GroupByShard(txn, buffer);
    PlansOk(p, txn, buffer);
    var prepared, refused := PrepareShards(p, channel);
    if refused {
      var failures := AbortShards(p, prepared, channel);
      return Aborted(p.order[|prepared|], failures), p;
    }
    var failures := CommitShards(p, channel);
    return if failures == [] then Committed(|p.order|) else Undelivered(failures), p;
  }

  /** One statement to every shard in turn, whatever the others answer, until a send throws; how many
      succeeded, and which did not. */
  method BroadcastWrite(order: seq<ShardId>, text: string, channel: Channel) returns (okCount: nat, failures: seq<ShardId>, thrown: bool)
    requires channel.sent == []
    modifies channel
    ensures |channel.sent| <= |order| && forall i :: 0 <= i < |channel.sent| ==> channel.sent[i] == Message(order[i], Sql(text))
    ensures thrown <==> exists i :: 0 <= i < |order| && channel.receptions(i) == Thrown
    ensures thrown ==> channel.sent != [] && channel.receptions(|channel.sent| - 1) == Thrown
                       && forall i :: 0 <= i < |channel.sent| - 1 ==> channel.receptions(i) != Thrown
    ensures !thrown ==> |channel.sent| == |order| && failures == FailedAt(order, channel.Answers()) && okCount + |failures| == |order|
  {
    hide FailedAt;
    okCount, failures, thrown := 0, [], false;
    var i := 0;
    NoFailures(order, channel.Answers());
    while i < |order|
      invariant 0 <= i <= |order| && |channel.sent| == i && okCount + |failures| == i
      invariant forall k :: 0 <= k < i ==> channel.sent[k] == Message(order[k], Sql(text)) && channel.receptions(k) != Thrown
      invariant failures == FailedAt(order[..i], channel.Answers())
    {
      ghost var before := channel.Answers();
      var reception := channel.Send(Message(order[i], Sql(text)));
      if reception == Thrown { return okCount, failures, true; }
      FailuresGrow(order, before, 0, i, reception == Accepted);
      assert (before + [reception == Accepted])[0..] == before + [reception == Accepted] && before[0..] == before;
      if reception == Accepted { okCount := okCount + 1; } else { failures := failures + [order[i]]; }
      i := i + 1;
    }
    assert order[..i] == order;
  }
}
