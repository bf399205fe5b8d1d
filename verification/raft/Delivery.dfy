/**
 What the state machine of a node gets over whole runs: the entries of the log in order, each once; all of
 them, unless a snapshot takes their place; through crashes and restarts.
 */
module RaftDelivery {
  import opened RaftTypes
  import opened RaftLogs
  import opened RaftNodeState
  import opened RaftHistory
  import opened RaftActions
  import opened RaftRefinement
  import opened RaftSections
  import opened RaftReplication
  import opened RaftHandlers
  import opened RaftCluster
  import opened RaftSafety
  import opened RaftTheorems

  /** The numbers above `low`, up to `high`. */
  function Upward(low: LogIndex, high: LogIndex): (s: seq<LogIndex>)
    requires low <= high
    ensures |s| == high - low
  {
    seq(high - low, i requires 0 <= i => low + 1 + i)
  }

  function Indices(events: seq<ApplyEvent>): (s: seq<LogIndex>)
    ensures |s| == |events|
  {
    seq(|events|, i requires 0 <= i < |events| => events[i].index)
  }

  /** The events are those of the indices above `low`, up to `high`, each once and in order. */
  ghost predicate Exactly(events: seq<ApplyEvent>, low: LogIndex, high: LogIndex) { low <= high && Indices(events) == Upward(low, high) }

  lemma {:induction false} EventsExactly(full: seq<LogEntry>, l: LogState, low: LogIndex, high: LogIndex)
    requires Represents(full, l) && FullGapless(full) && l.snapshotIndex <= low <= high <= |full|
    requires forall k {:trigger l.entries[k]} | 0 <= k < |l.entries| :: l.entries[k].command.Client?
    ensures Exactly(ApplyEvents(l, low, high), low, high)
    decreases high
  {
    if high > low {
      EventsExactly(full, l, low, high - 1);
      QueriesRefine(full, l, high);
      assert l.entries[high - l.snapshotIndex - 1] == full[high - 1];
      var e := full[high - 1];
      assert ApplyEvents(l, low, high) == ApplyEvents(l, low, high - 1) + [ApplyEvent(e.index, e.command)];
      assert Upward(low, high) == Upward(low, high - 1) + [high];
    }
  }

  lemma ApplyExactly(h: Hist, book: map<NodeId, PeerAddress>, s: NodeState, tally: set<NodeId>, commit: LogIndex)
    requires NodeRel(h, book, s, tally) && FullGapless(h.log[s.id]) && s.commitIndex <= commit <= |h.log[s.id]|
    ensures var out := ApplyCommitted(s.(commitIndex := commit));
            Exactly(out.events, s.lastApplied, commit) && out.node.lastApplied == commit
  {
    hide Committed, VoteRel, RoleRel, ApplyEvents, CompactTo, FoldCommitted, Exactly;
    EventsExactly(h.log[s.id], s.log, s.lastApplied, commit);
  }

  lemma NothingDelivered(i: LogIndex)
    ensures Exactly([], i, i)
  {
  }

  lemma AdvanceExactly(h: Hist, book: map<NodeId, PeerAddress>, s: NodeState, tally: set<NodeId>)
    requires Ready(h, book, s, tally) && s.role == Leader
    ensures var out := MaybeAdvanceCommitIndex(s); Exactly(out.events, s.lastApplied, out.node.lastApplied)
  {
    var m := MajorityIndex(LastIndex(s.log), s.matchIndex);
    TermFacts(h, s);
    NothingDelivered(s.lastApplied);
    if m > s.commitIndex && TermAt(s.log, m) == s.currentTerm {
      MajorityChosen(h, book, s, m);
      hide Inv, IsMajorityIndex, ApplyCommitted, Committed, RoleRel, VoteRel, Exactly;
      ApplyExactly(h, book, s, tally, m);
      AdvanceFixed(book, s, m);
    }
  }

  lemma OfferExactly(h: Hist, book: map<NodeId, PeerAddress>, s: NodeState, tally: set<NodeId>, command: Command)
    requires Ready(h, book, s, tally) && command.Client?
    ensures var out := Propose(s, command); Exactly(out.events, s.lastApplied, out.node.lastApplied)
  {
    ProposeFixed(book, s, command);
    NothingDelivered(s.lastApplied);
    if s.role == Leader {
      var h' := LeaderAppend(h, s.id, command);
      hide Inv, Touches, ClientsOnly, MaybeAdvanceCommitIndex, Propose, Fixed, ProgressRel, VoteRel, Exactly;
      LeaderAppendKeeps(h, s.id, command);
      LeaderAppendTouches(h, s.id, command);
      OfferNode(h, book, s, tally, command);
      hide LeaderAppend, RoleRel, Grows, Leading;
      AdvanceExactly(h', book, s.(log := Append(s.log, s.currentTerm, command)), tally);
    }
  }

  lemma ReplyExactly(h: Hist, book: map<NodeId, PeerAddress>, s: NodeState, tally: set<NodeId>, peer: NodeId, req: AppendRequest, reply: AppendReply)
    requires Ready(h, book, s, tally)
    requires reply.success ==> Acked(h, peer, req.term) >= req.prevLogIndex + |req.entries|
    ensures var out := HandleAppendReply(s, peer, req, reply); Exactly(out.events, s.lastApplied, out.node.lastApplied)
  {
    hide Inv, ClientsOnly, NodeRel, MaybeAdvanceCommitIndex, Exactly;
    NothingDelivered(s.lastApplied);
    if peer in s.peers && reply.term <= s.currentTerm && s.role == Leader && req.term == s.currentTerm && reply.success {
      LeaderIndices(h, book, s, tally, peer);
      ReplyForm(s, peer, req, reply);
      var matched := Max(s.matchIndex[peer], req.prevLogIndex + |req.entries|);
      MatchRel(h, book, s, tally, peer, matched, matched + 1);
      AdvanceExactly(h, book, Acknowledged(s, peer, matched, matched + 1), tally);
    }
  }

  lemma ExtendedKeeps(s: NodeState, req: AppendRequest)
    ensures var s3 := Extended(s, req);
            s3.lastApplied == s.lastApplied && s3.commitIndex == s.commitIndex && s3.id == s.id && (req.term >= s.currentTerm ==> s3.currentTerm == req.term)
  {
  }

  lemma FollowExactly(h: Hist, book: map<NodeId, PeerAddress>, s: NodeState, tally: set<NodeId>, caller: NodeId, req: AppendRequest)
    requires Ready(h, book, s, tally) && AppendCallRel(h, caller, req)
    ensures var (out, reply) := HandleAppendEntries(s, req); Exactly(out.events, s.lastApplied, out.node.lastApplied)
  {
    hide Inv, Touches, ClientsOnly, AppendCallRel, VoteRel, RoleRel, Exactly, EffectiveMembership, RefreshMembership, AppendEntriesFrom, ApplyCommitted, PrevMatches;
    NothingDelivered(s.lastApplied);
    if req.term >= s.currentTerm && PrevMatches(s.log, req.prevLogIndex, req.prevLogTerm) {
      var h' := ExtendRel(h, book, s, tally, caller, req);
      var s3 := Extended(s, req);
      HandleAppendFixed(book, s, req);
      ExtendedKeeps(s, req);
      TermFacts(h', s3);
      if req.leaderCommit > s3.commitIndex {
        QueriesRefine(h'.log[s3.id], s3.log, 0);
        ApplyExactly(h', book, s3, tally, Min(req.leaderCommit, LastIndex(s3.log)));
      }
    }
  }

  // Sections that call no state machine leave the applied index alone, but for an installed snapshot.

  lemma StandSilent(s: NodeState)
    ensures StartElection(s).0.lastApplied == s.lastApplied
  {
    hide EffectiveMembership, RefreshMembership, Seeded, LastIndex;
    RefreshKeeps();
  }

  lemma VoteSilent(s: NodeState, req: VoteRequest, recent: bool)
    ensures HandleRequestVote(s, req, recent).0.lastApplied == s.lastApplied
  {
  }

  lemma CountSilent(s: NodeState, term: Term, reply: VoteReply)
    ensures HandleVoteReply(s, term, reply).lastApplied == s.lastApplied
  {
    hide EffectiveMembership, RefreshMembership, Seeded, LastIndex;
    RefreshKeeps();
  }

  lemma InstallSilent(s: NodeState, req: SnapshotRequest)
    ensures BeginInstall(s, req).0.lastApplied == s.lastApplied && FinishInstall(s, req).0.lastApplied >= s.lastApplied
  {
    hide EffectiveMembership, RefreshMembership, CompactTo;
    RefreshKeeps();
  }

  lemma SnapshotReplySilent(s: NodeState, peer: NodeId, req: SnapshotRequest, reply: SnapshotReply)
    ensures HandleSnapshotReply(s, peer, req, reply).lastApplied == s.lastApplied
  {
  }

  /** A restart goes on where the log says the state machine stands. */
  lemma RestartGoesOn(h: Hist, book: map<NodeId, PeerAddress>, s: NodeState, tally: set<NodeId>)
    requires NodeRel(h, book, s, tally)
    ensures Restart(s).lastApplied == s.lastApplied
  {
    hide Committed, VoteRel, RoleRel, Fixed;
  }

  // ------------------------------------------------------------------------------------------
  // Over runs
  // ------------------------------------------------------------------------------------------

  /** The indices a node has handed to its state machine, in order. */
  function Own(applied: seq<Applied>, n: NodeId): seq<LogIndex>
    decreases |applied|
  {
    if applied == [] then []
    else
      var last := applied[|applied| - 1];
      Own(applied[..|applied| - 1], n) + if last.node == n then [last.event.index] else []
  }

  lemma {:induction false} OwnMore(applied: seq<Applied>, m: NodeId, events: seq<ApplyEvent>, n: NodeId)
    ensures Own(applied + Events(m, events), n) == Own(applied, n) + if m == n then Indices(events) else []
    decreases |events|
  {
    var all := applied + Events(m, events);
    if events == [] {
      assert all == applied && Indices(events) == [];
    } else {
      var k := |events| - 1;
      OwnMore(applied, m, events[..k], n);
      assert all[..|all| - 1] == applied + Events(m, events[..k]);
      assert all[|all| - 1] == Applied(m, events[k]);
      assert Indices(events) == Indices(events[..k]) + [events[k].index];
    }
  }

  /** A snapshot is installed at this node. */
  predicate Installs(step: Step, n: NodeId) { step.RestoreDone? && step.k.target == n }

  /** What a step does to a node's deliveries. */
  ghost predicate Advances(c: Cluster, c': Cluster, step: Step, n: NodeId)
    requires n in c.nodes
  {
    && n in c'.nodes && c.nodes[n].lastApplied <= c'.nodes[n].lastApplied
    && Own(c'.applied, n) == Own(c.applied, n) + if Installs(step, n) then [] else Upward(c.nodes[n].lastApplied, c'.nodes[n].lastApplied)
  }

  /** Node m moves, with these events. */
  lemma MoverAdvances(c: Cluster, c': Cluster, step: Step, n: NodeId, m: NodeId, s: NodeState, events: seq<ApplyEvent>)
    requires n in c.nodes && m in c.nodes && c'.nodes == c.nodes[m := s] && c'.applied == c.applied + Events(m, events)
    requires if Installs(step, m) then events == [] && c.nodes[m].lastApplied <= s.lastApplied else Exactly(events, c.nodes[m].lastApplied, s.lastApplied)
    ensures Advances(c, c', step, n)
  {
    OwnMore(c.applied, m, events, n);
    assert Own(c.applied, n) + [] == Own(c.applied, n);
    if m != n { assert Upward(c.nodes[n].lastApplied, c.nodes[n].lastApplied) == []; }
  }

  lemma NobodyAdvances(c: Cluster, c': Cluster, step: Step, n: NodeId)
    requires n in c.nodes && c'.nodes == c.nodes && c'.applied == c.applied
    ensures Advances(c, c', step, n)
  {
    assert Own(c.applied, n) + [] == Own(c.applied, n);
    assert Upward(c.nodes[n].lastApplied, c.nodes[n].lastApplied) == [];
  }

  lemma {:induction false} StepAdvances(c: Cluster, c': Cluster, step: Step, book: map<NodeId, PeerAddress>, h: Hist, tally: Tallies, n: NodeId)
    requires ClusterRel(c, book, h, tally) && Next(c, c', step) && n in c.nodes
    ensures Advances(c, c', step, n)
  {
    hide ClusterRel, Advances, Exactly, StartElection, HandleRequestVote, HandleVoteReply, Propose, HandleAppendEntries, HandleAppendReply, BeginInstall,
         FinishInstall, HandleSnapshotReply, Restart, AppendRequestFor, NeedsSnapshot, SnapshotRequestOf, Events, Send, Inv, ClientsOnly, NodeRel, AppendCallRel;
    match step {
      case Elect(m) => SilentAdvances(c, c', step, n, m);
      case ReceiveVote(k, _) => SilentAdvances(c, c', step, n, k.target);
      case CountVote(k) => SilentAdvances(c, c', step, n, c.rpcs[k].caller);
      case ReceiveSnapshot(k) => SilentAdvances(c, c', step, n, k.target);
      case RestoreDone(k) => SilentAdvances(c, c', step, n, k.target);
      case SnapshotDone(k) => SilentAdvances(c, c', step, n, c.rpcs[k].caller);
      case Offer(m, command) =>
        NodeReady(c, book, h, tally, m);
        OfferExactly(h, book, c.nodes[m], tally[m], command);
        MoverAdvances(c, c', step, n, m, Propose(c.nodes[m], command).node, Propose(c.nodes[m], command).events);
      case ReceiveAppend(k) =>
        NodeReady(c, book, h, tally, k.target);
        RpcReady(c, book, h, tally, k);
        var req := c.rpcs[k].call.append;
        FollowExactly(h, book, c.nodes[k.target], tally[k.target], c.rpcs[k].caller, req);
        MoverAdvances(c, c', step, n, k.target, HandleAppendEntries(c.nodes[k.target], req).0.node, HandleAppendEntries(c.nodes[k.target], req).0.events);
      case AppendDone(k) =>
        var m := c.rpcs[k].caller;
        NodeReady(c, book, h, tally, m);
        RpcReady(c, book, h, tally, k);
        var req, reply := c.rpcs[k].call.append, c.rpcs[k].phase.answer.append;
        ReplyExactly(h, book, c.nodes[m], tally[m], k.target, req, reply);
        MoverAdvances(c, c', step, n, m, HandleAppendReply(c.nodes[m], k.target, req, reply).node, HandleAppendReply(c.nodes[m], k.target, req, reply).events);
      case Crash(m) =>
        NodeReady(c, book, h, tally, m);
        RestartGoesOn(h, book, c.nodes[m], tally[m]);
        NothingDelivered(c.nodes[m].lastApplied);
        NoneApplied(c, m);
        MoverAdvances(c, c', step, n, m, Restart(c.nodes[m]), []);
      case Replicate(_, _) => SendAdvances(c, c', step, n);
      case SendSnapshot(_, _) => SendAdvances(c, c', step, n);
      case Lose(_) => NobodyAdvances(c, c', step, n);
    }
  }

  lemma NoneApplied(c: Cluster, m: NodeId)
    ensures c.applied + Events(m, []) == c.applied
  {
  }

  lemma SendAdvances(c: Cluster, c': Cluster, step: Step, n: NodeId)
    requires Next(c, c', step) && n in c.nodes && (step.Replicate? || step.SendSnapshot?)
    ensures Advances(c, c', step, n)
  {
    hide AppendRequestFor, NeedsSnapshot, SnapshotRequestOf, Round;
    NobodyAdvances(c, c', step, n);
  }

  lemma SilentAdvances(c: Cluster, c': Cluster, step: Step, n: NodeId, m: NodeId)
    requires Next(c, c', step) && n in c.nodes
    requires match step
             case Elect(x) => m == x
             case ReceiveVote(k, _) => m == k.target
             case CountVote(k) => m == c.rpcs[k].caller
             case ReceiveSnapshot(k) => m == k.target
             case RestoreDone(k) => m == k.target
             case SnapshotDone(k) => m == c.rpcs[k].caller
             case _ => false
    ensures Advances(c, c', step, n)
  {
    hide Advances, Exactly, StartElection, HandleRequestVote, HandleVoteReply, BeginInstall, FinishInstall, HandleSnapshotReply, Events, Round;
    var s := c.nodes[m];
    NoneApplied(c, m);
    NothingDelivered(s.lastApplied);
    match step {
      case Elect(_) => StandSilent(s);
      case ReceiveVote(k, recent) => VoteSilent(s, c.rpcs[k].call.vote, recent);
      case CountVote(k) => CountSilent(s, c.rpcs[k].call.vote.term, c.rpcs[k].phase.answer.vote);
      case ReceiveSnapshot(k) => InstallSilent(s, c.rpcs[k].call.install);
      case RestoreDone(k) => InstallSilent(s, c.rpcs[k].call.install);
      case SnapshotDone(k) => SnapshotReplySilent(s, k.target, c.rpcs[k].call.install, c.rpcs[k].phase.answer.install);
      case _ =>
    }
    assert m in c'.nodes && c'.nodes == c.nodes[m := c'.nodes[m]] && c'.applied == c.applied;
    MoverAdvances(c, c', step, n, m, c'.nodes[m], []);
  }

  lemma UpwardJoins(a: LogIndex, b: LogIndex)
    requires a <= b
    ensures Upward(0, a) + Upward(a, b) == Upward(0, b)
  {
  }

  /** Prefixes of a run, as far as this is concerned. */
  lemma RunAdvances(run: seq<Cluster>, steps: seq<Step>, book: map<NodeId, PeerAddress>, i: nat, n: NodeId)
    requires Run(run, steps, book) && i < |steps| && n in run[i].nodes
    ensures Advances(run[i], run[i + 1], steps[i], n)
  {
    hide ClusterRel, Next, Init, Advances;
    var hs, ts := RunExplained(run, steps, book);
    assert ClusterRel(run[i], book, hs[i], ts[i]);
    assert Next(run[i], run[i + 1], steps[i]);
    StepAdvances(run[i], run[i + 1], steps[i], book, hs[i], ts[i], n);
  }

  lemma StartsEmpty(run: seq<Cluster>, steps: seq<Step>, book: map<NodeId, PeerAddress>, n: NodeId)
    requires Run(run, steps, book) && n in book
    ensures n in run[0].nodes && run[0].nodes[n].lastApplied == 0 && Own(run[0].applied, n) == []
  {
    hide Next;
  }

  /** As long as no snapshot is installed at it, a node hands its state machine exactly the entries 1, 2, 3, ... up to
      its applied index, in this order and each once, whatever crashes and restarts there are. */
  lemma {:induction false} EachEntryOnce(run: seq<Cluster>, steps: seq<Step>, book: map<NodeId, PeerAddress>, i: nat, n: NodeId)
    requires Run(run, steps, book) && i < |run| && n in book
    requires forall j :: 0 <= j < i ==> !Installs(steps[j], n)
    ensures n in run[i].nodes && Own(run[i].applied, n) == Upward(0, run[i].nodes[n].lastApplied)
    decreases i
  {
    hide Run, Own;
    if i == 0 {
      StartsEmpty(run, steps, book, n);
    } else {
      RunLength(run, steps, book);
      EachEntryOnce(run, steps, book, i - 1, n);
      RunAdvances(run, steps, book, i - 1, n);
      UpwardJoins(run[i - 1].nodes[n].lastApplied, run[i].nodes[n].lastApplied);
    }
  }

  lemma RunLength(run: seq<Cluster>, steps: seq<Step>, book: map<NodeId, PeerAddress>)
    requires Run(run, steps, book)
    ensures |run| == |steps| + 1
  {
  }

  ghost predicate GoesUp(own: seq<LogIndex>, high: LogIndex) {
    (forall k :: 0 <= k < |own| ==> own[k] <= high) && (forall j, k :: 0 <= j < k < |own| ==> own[j] < own[k])
  }

  lemma StillUp(own: seq<LogIndex>, low: LogIndex, high: LogIndex)
    requires GoesUp(own, low) && low <= high
    ensures GoesUp(own + Upward(low, high), high) && GoesUp(own + [], high)
  {
    assert own + [] == own;
  }

  /** With snapshots too, what a node hands to its state machine only ever goes up: nothing twice, nothing late, and
      nothing beyond its applied index. */
  lemma {:induction false} AlwaysUpward(run: seq<Cluster>, steps: seq<Step>, book: map<NodeId, PeerAddress>, i: nat, n: NodeId)
    requires Run(run, steps, book) && i < |run| && n in book
    ensures n in run[i].nodes && GoesUp(Own(run[i].applied, n), run[i].nodes[n].lastApplied)
    decreases i
  {
    hide Run, Own;
    if i == 0 {
      StartsEmpty(run, steps, book, n);
    } else {
      RunLength(run, steps, book);
      AlwaysUpward(run, steps, book, i - 1, n);
      RunAdvances(run, steps, book, i - 1, n);
      StillUp(Own(run[i - 1].applied, n), run[i - 1].nodes[n].lastApplied, run[i].nodes[n].lastApplied);
    }
  }
}
