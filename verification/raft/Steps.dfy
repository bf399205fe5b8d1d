/** Every step of the cluster keeps the cluster invariant. */
module RaftSteps {
  import opened RaftTypes
  import opened RaftLogs
  import opened RaftNodeState
  import opened RaftHistory
  import opened RaftRefinement
  import opened RaftSections
  import opened RaftElections
  import opened RaftReplication
  import opened RaftHandlers
  import opened RaftCluster
  import opened RaftSafety

  lemma NoApplies(c: Cluster, n: NodeId)
    ensures c.applied + Events(n, []) == c.applied
  {
  }

  /** A step that only changes node n and drops calls. */
  lemma Finish(c: Cluster, c': Cluster, book: map<NodeId, PeerAddress>, h: Hist, h': Hist, tally: Tallies, n: NodeId, events: seq<ApplyEvent>)
    requires ClusterRel(c, book, h, tally) && Moved(c, c', n, events) && Quiet(c, c', n) && n in tally
    requires Kept(h, h', book, c.nodes[n], c'.nodes[n], tally[n]) && c.nodes[n].id == n && AllSound(h', events)
    requires forall k {:trigger c'.rpcs[k]} | k in c'.rpcs :: k in c.rpcs && c'.rpcs[k] == c.rpcs[k]
    ensures ClusterRel(c', book, h', tally)
  {
    hide Inv, Touches, ClientsOnly, NodesRel, VotesOnce, AppliedSound, NodeRel, RpcRel;
    QuietVotes(c, c', n, tally);
    assert RpcsMoved(h', book, c, c') by {
      forall k | k in c'.rpcs
        ensures k.serial < c'.nextSerial
      {
        assert c.rpcs[k] == c.rpcs[k];
      }
    }
    assert tally[n := tally[n]] == tally;
    Assemble(c, c', book, h, h', tally, n, tally[n], events);
  }

  /** A step that changes node n and the phase of one call. */
  lemma FinishPhase(c: Cluster, c': Cluster, k: RpcId, phase: Phase, book: map<NodeId, PeerAddress>, h: Hist, h': Hist, tally: Tallies, n: NodeId, events: seq<ApplyEvent>)
    requires ClusterRel(c, book, h, tally) && Moved(c, c', n, events) && n in tally
    requires c'.nodes[n].role == Candidate ==> c.nodes[n].role == Candidate && c'.nodes[n].currentTerm == c.nodes[n].currentTerm
    requires Kept(h, h', book, c.nodes[n], c'.nodes[n], tally[n]) && c.nodes[n].id == n && AllSound(h', events)
    requires k in c.rpcs && c'.rpcs == c.rpcs[k := c.rpcs[k].(phase := phase)]
    requires RpcRel(h', book, k, c.rpcs[k].(phase := phase))
    ensures ClusterRel(c', book, h', tally)
  {
    hide Inv, Touches, ClientsOnly, NodesRel, VotesOnce, AppliedSound, NodeRel, RpcRel;
    QuietVotes(c, c', n, tally);
    assert RpcsMoved(h', book, c, c') by {
      forall j | j in c'.rpcs
        ensures j.serial < c'.nextSerial
      {
        assert c.rpcs[j] == c.rpcs[j];
      }
    }
    assert tally[n := tally[n]] == tally;
    Assemble(c, c', book, h, h', tally, n, tally[n], events);
  }

  lemma VoteRole(s: NodeState, req: VoteRequest, recent: bool)
    ensures var s' := HandleRequestVote(s, req, recent).0;
            s'.role == Candidate ==> s.role == Candidate && s'.currentTerm == s.currentTerm
  {
  }

  lemma ReceiveVoteKeeps(c: Cluster, c': Cluster, k: RpcId, recent: bool, book: map<NodeId, PeerAddress>, h: Hist, tally: Tallies) returns (h': Hist)
    requires ClusterRel(c, book, h, tally) && Next(c, c', ReceiveVote(k, recent))
    ensures ClusterRel(c', book, h', tally)
    ensures Grows(h, h')
  {
    hide Inv, ClientsOnly, NodesRel, RpcsRel, VotesOnce, AppliedSound, NodeRel, HandleRequestVote, VoteCallRel, Touches;
    var n := k.target;
    var req := c.rpcs[k].call.vote;
    RpcReady(c, book, h, tally, k);
    NodeReady(c, book, h, tally, n);
    assert req.candidate == c.rpcs[k].caller by { VoteCallCandidate(h, c.rpcs[k].caller, req); }
    h' := VoteSection(h, book, c.nodes[n], tally[n], req, recent);
    VoteRole(c.nodes[n], req, recent);
    TouchesGrows(h, h', n);
    VoteCallFrame(h, h', req.candidate, req);
    NoApplies(c, n);
    NoEvents(h');
    FinishPhase(c, c', k, c'.rpcs[k].phase, book, h, h', tally, n, []);
  }

  lemma VoteCallCandidate(h: Hist, caller: NodeId, req: VoteRequest)
    requires VoteCallRel(h, caller, req)
    ensures req.candidate == caller && Seat(caller, req.term) in h.cand
  {
  }

  lemma AppendRole(s: NodeState, req: AppendRequest)
    ensures var s' := HandleAppendEntries(s, req).0.node;
            s'.role == Candidate ==> s.role == Candidate && s'.currentTerm == s.currentTerm
  {
    hide EffectiveMembership, RefreshMembership, ApplyCommitted, AppendEntriesFrom, PrevMatches, LastIndex;
    RefreshKeeps();
    ApplyKeeps();
  }

  lemma ReceiveAppendKeeps(c: Cluster, c': Cluster, k: RpcId, book: map<NodeId, PeerAddress>, h: Hist, tally: Tallies) returns (h': Hist)
    requires ClusterRel(c, book, h, tally) && Next(c, c', ReceiveAppend(k))
    ensures ClusterRel(c', book, h', tally)
    ensures Grows(h, h')
  {
    hide Inv, ClientsOnly, NodesRel, RpcsRel, VotesOnce, AppliedSound, NodeRel, HandleAppendEntries, AppendCallRel, Touches, AllSound;
    var n := k.target;
    var req := c.rpcs[k].call.append;
    var (out, reply) := HandleAppendEntries(c.nodes[n], req);
    RpcReady(c, book, h, tally, k);
    NodeReady(c, book, h, tally, n);
    h' := AppendSection(h, book, c.nodes[n], tally[n], c.rpcs[k].caller, req);
    AppendRole(c.nodes[n], req);
    TouchesGrows(h, h', n);
    AppendCallFrame(h, h', c.rpcs[k].caller, req);
    FinishPhase(c, c', k, Answered(AppendAnswer(reply)), book, h, h', tally, n, out.events);
  }

  lemma RolesKept(s: NodeState)
    ensures ApplyCommitted(s).node.role == s.role && RefreshMembership(s).role == s.role
  {
    hide EffectiveMembership, FoldCommitted, CompactTo, CompactionDue, ApplyEvents;
  }

  lemma AdvanceRole(s: NodeState)
    requires s.role == Leader
    ensures MaybeAdvanceCommitIndex(s).node.role != Candidate
  {
    hide ApplyCommitted, RefreshMembership, MajorityIndex;
    var s1 := s.(commitIndex := MajorityIndex(LastIndex(s.log), s.matchIndex));
    RolesKept(s1);
    RolesKept(ApplyCommitted(s1).node);
  }

  lemma AppendDoneRole(s: NodeState, peer: NodeId, req: AppendRequest, reply: AppendReply)
    ensures var s' := HandleAppendReply(s, peer, req, reply).node;
            s'.role == Candidate ==> s.role == Candidate && s'.currentTerm == s.currentTerm
  {
    hide MaybeAdvanceCommitIndex;
    if s.role == Leader && reply.success {
      var match' := Max(IndexOr(s.matchIndex, peer, 0), req.prevLogIndex + |req.entries|);
      AdvanceRole(s.(matchIndex := s.matchIndex[peer := match'], nextIndex := s.nextIndex[peer := match' + 1]));
    }
  }

  lemma AppendDoneKeeps(c: Cluster, c': Cluster, k: RpcId, book: map<NodeId, PeerAddress>, h: Hist, tally: Tallies) returns (h': Hist)
    requires ClusterRel(c, book, h, tally) && Next(c, c', AppendDone(k))
    ensures ClusterRel(c', book, h', tally)
    ensures Grows(h, h')
  {
    hide Inv, ClientsOnly, NodesRel, RpcsRel, VotesOnce, AppliedSound, NodeRel, HandleAppendReply, AppendCallRel, Touches, AllSound;
    var n := c.rpcs[k].caller;
    var req := c.rpcs[k].call.append;
    var reply := c.rpcs[k].phase.answer.append;
    var out := HandleAppendReply(c.nodes[n], k.target, req, reply);
    RpcReady(c, book, h, tally, k);
    NodeReady(c, book, h, tally, n);
    h' := AppendDoneSection(h, book, c.nodes[n], tally[n], k.target, req, reply);
    AppendDoneRole(c.nodes[n], k.target, req, reply);
    Finish(c, c', book, h, h', tally, n, out.events);
    TouchesGrows(h, h', n);
  }

  lemma ProposeRole(s: NodeState, command: Command)
    ensures Propose(s, command).node.role == Candidate ==> s.role == Candidate && Propose(s, command).node.currentTerm == s.currentTerm
  {
    hide MaybeAdvanceCommitIndex, EffectiveMembership, Append;
    if ProposalAllowed(s, command) {
      AdvanceRole(RefreshMembership(s.(log := Append(s.log, s.currentTerm, command))));
    }
  }

  lemma OfferKeeps(c: Cluster, c': Cluster, n: NodeId, command: Command, book: map<NodeId, PeerAddress>, h: Hist, tally: Tallies) returns (h': Hist)
    requires ClusterRel(c, book, h, tally) && Next(c, c', Offer(n, command))
    ensures ClusterRel(c', book, h', tally)
    ensures Grows(h, h')
  {
    hide Inv, ClientsOnly, NodesRel, RpcsRel, VotesOnce, AppliedSound, NodeRel, Propose, Touches, AllSound;
    NodeReady(c, book, h, tally, n);
    h' := OfferSection(h, book, c.nodes[n], tally[n], command);
    ProposeRole(c.nodes[n], command);
    Finish(c, c', book, h, h', tally, n, Propose(c.nodes[n], command).events);
    TouchesGrows(h, h', n);
  }

  lemma BeginRole(s: NodeState, req: SnapshotRequest)
    ensures var s' := BeginInstall(s, req).0;
            s'.role == Candidate ==> s.role == Candidate && s'.currentTerm == s.currentTerm
  {
  }

  lemma ReceiveSnapshotKeeps(c: Cluster, c': Cluster, k: RpcId, book: map<NodeId, PeerAddress>, h: Hist, tally: Tallies) returns (h': Hist)
    requires ClusterRel(c, book, h, tally) && Next(c, c', ReceiveSnapshot(k))
    ensures ClusterRel(c', book, h', tally)
    ensures Grows(h, h')
  {
    hide Inv, ClientsOnly, NodesRel, RpcsRel, VotesOnce, AppliedSound, BeginInstall, InstallCallRel, Touches, ProgressRel, RoleRel, Fixed;
    var n := k.target;
    var req := c.rpcs[k].call.install;
    RpcReady(c, book, h, tally, k);
    NodeReady(c, book, h, tally, n);
    h' := BeginSection(h, book, c.nodes[n], tally[n], c.rpcs[k].caller, req);
    BeginRole(c.nodes[n], req);
    TouchesGrows(h, h', n);
    InstallCallFrame(h, h', book, c.rpcs[k].caller, req);
    NoApplies(c, n);
    NoEvents(h');
    FinishPhase(c, c', k, c'.rpcs[k].phase, book, h, h', tally, n, []);
  }

  lemma FinishRole(s: NodeState, req: SnapshotRequest)
    ensures var s' := FinishInstall(s, req).0; s'.role == s.role && s'.currentTerm == s.currentTerm
  {
    hide EffectiveMembership, CompactTo;
  }

  lemma RestoreDoneKeeps(c: Cluster, c': Cluster, k: RpcId, book: map<NodeId, PeerAddress>, h: Hist, tally: Tallies) returns (h': Hist)
    requires ClusterRel(c, book, h, tally) && Next(c, c', RestoreDone(k))
    ensures ClusterRel(c', book, h', tally)
    ensures Grows(h, h')
  {
    hide Inv, ClientsOnly, NodesRel, RpcsRel, VotesOnce, AppliedSound, FinishInstall, InstallCallRel, Touches, ProgressRel, RoleRel, Fixed;
    var n := k.target;
    var req := c.rpcs[k].call.install;
    RpcReady(c, book, h, tally, k);
    NodeReady(c, book, h, tally, n);
    h' := FinishSection(h, book, c.nodes[n], tally[n], c.rpcs[k].caller, req);
    FinishRole(c.nodes[n], req);
    TouchesGrows(h, h', n);
    InstallCallFrame(h, h', book, c.rpcs[k].caller, req);
    NoApplies(c, n);
    NoEvents(h');
    FinishPhase(c, c', k, c'.rpcs[k].phase, book, h, h', tally, n, []);
  }

  lemma SnapshotDoneKeeps(c: Cluster, c': Cluster, k: RpcId, book: map<NodeId, PeerAddress>, h: Hist, tally: Tallies) returns (h': Hist)
    requires ClusterRel(c, book, h, tally) && Next(c, c', SnapshotDone(k))
    ensures ClusterRel(c', book, h', tally)
    ensures Grows(h, h')
  {
    hide Inv, ClientsOnly, NodesRel, RpcsRel, VotesOnce, AppliedSound, InstallCallRel, Touches, NodeRel;
    var n := c.rpcs[k].caller;
    var req := c.rpcs[k].call.install;
    RpcReady(c, book, h, tally, k);
    NodeReady(c, book, h, tally, n);
    h' := SnapshotDoneSection(h, book, c.nodes[n], tally[n], k.target, req, c.rpcs[k].phase.answer.install);
    NoApplies(c, n);
    NoEvents(h');
    Finish(c, c', book, h, h', tally, n, []);
    TouchesGrows(h, h', n);
  }

  lemma CrashKeeps(c: Cluster, c': Cluster, n: NodeId, book: map<NodeId, PeerAddress>, h: Hist, tally: Tallies)
    requires ClusterRel(c, book, h, tally) && Next(c, c', Crash(n))
    ensures ClusterRel(c', book, h, tally)
  {
    hide Inv, ClientsOnly, NodesRel, RpcsRel, VotesOnce, AppliedSound, Touches, NodeRel;
    NodeReady(c, book, h, tally, n);
    RestartSection(h, book, c.nodes[n], tally[n]);
    NoApplies(c, n);
    NoEvents(h);
    Finish(c, c', book, h, h, tally, n, []);
  }

  lemma LoseKeeps(c: Cluster, c': Cluster, k: RpcId, book: map<NodeId, PeerAddress>, h: Hist, tally: Tallies)
    requires ClusterRel(c, book, h, tally) && Next(c, c', Lose(k))
    ensures ClusterRel(c', book, h, tally)
  {
    hide Inv, ClientsOnly, NodesRel, AppliedSound, RpcRel;
    assert VotesOnce(c'.nodes, c'.rpcs, tally) by {
      assert forall j {:trigger c'.rpcs[j]} | j in c'.rpcs :: j in c.rpcs && c'.rpcs[j] == c.rpcs[j];
    }
    assert RpcsRel(h, book, c'.rpcs, c'.nextSerial) by {
      assert forall j {:trigger c'.rpcs[j]} | j in c'.rpcs :: j in c.rpcs && c'.rpcs[j] == c.rpcs[j];
    }
  }

  // ------------------------------------------------------------------------------------------
  // Sending
  // ------------------------------------------------------------------------------------------

  /** A node that sends one call that is not a vote request, without changing. */
  lemma SendKeeps(c: Cluster, c': Cluster, n: NodeId, peer: NodeId, rpc: Rpc, book: map<NodeId, PeerAddress>, h: Hist, tally: Tallies)
    requires ClusterRel(c, book, h, tally) && c' == Send(c, {peer}, rpc) && peer in book && !rpc.call.VoteCall?
    requires RpcRel(h, book, RpcId(c.nextSerial, peer), rpc)
    ensures ClusterRel(c', book, h, tally)
  {
    hide Inv, ClientsOnly, NodesRel, AppliedSound, RpcRel;
    var id := RpcId(c.nextSerial, peer);
    assert Ids(c.nextSerial, {peer}) == {id};
    assert c'.rpcs == c.rpcs[id := rpc];
    forall k | k in c'.rpcs
      ensures k.serial < c'.nextSerial && RpcRel(h, book, k, c'.rpcs[k])
    {
      if k != id { assert c'.rpcs[k] == c.rpcs[k]; }
    }
    assert VotesOnce(c'.nodes, c'.rpcs, tally) by {
      assert forall k {:trigger c'.rpcs[k]} | k in c'.rpcs && c'.rpcs[k].call.VoteCall? :: k in c.rpcs && c'.rpcs[k] == c.rpcs[k];
    }
  }

  lemma ReplicateKeeps(c: Cluster, c': Cluster, n: NodeId, peer: NodeId, book: map<NodeId, PeerAddress>, h: Hist, tally: Tallies)
    requires ClusterRel(c, book, h, tally) && Next(c, c', Replicate(n, peer))
    ensures ClusterRel(c', book, h, tally)
  {
    hide Inv, ClientsOnly, NodesRel, RpcsRel, VotesOnce, AppliedSound, NodeRel, AppendCallRel, AppendRequestFor;
    NodeReady(c, book, h, tally, n);
    ReplicateRel(h, book, c.nodes[n], tally[n], peer);
    SendKeeps(c, c', n, peer, Rpc(n, AppendCall(AppendRequestFor(c.nodes[n], peer)), Requested), book, h, tally);
  }

  lemma SendSnapshotKeeps(c: Cluster, c': Cluster, n: NodeId, peer: NodeId, book: map<NodeId, PeerAddress>, h: Hist, tally: Tallies)
    requires ClusterRel(c, book, h, tally) && Next(c, c', SendSnapshot(n, peer))
    ensures ClusterRel(c', book, h, tally)
  {
    hide Inv, ClientsOnly, NodesRel, RpcsRel, VotesOnce, AppliedSound, NodeRel, InstallCallRel, SnapshotRequestOf;
    NodeReady(c, book, h, tally, n);
    SendSnapshotRel(h, book, c.nodes[n], tally[n]);
    SendKeeps(c, c', n, peer, Rpc(n, InstallCall(SnapshotRequestOf(c.nodes[n])), Requested), book, h, tally);
  }

  // ------------------------------------------------------------------------------------------
  // Elections
  // ------------------------------------------------------------------------------------------

  /** All open vote calls of a node belong to terms it has stood in. */
  lemma OldVoteCalls(c: Cluster, book: map<NodeId, PeerAddress>, h: Hist, n: NodeId, t: Term)
    requires RpcsRel(h, book, c.rpcs, c.nextSerial) && Seat(n, t) !in h.cand
    ensures forall k {:trigger c.rpcs[k]} | k in c.rpcs && c.rpcs[k].call.VoteCall? && c.rpcs[k].caller == n :: c.rpcs[k].call.vote.term != t
  {
    hide VoteCallRel;
    forall k | k in c.rpcs && c.rpcs[k].call.VoteCall? && c.rpcs[k].caller == n
      ensures c.rpcs[k].call.vote.term != t
    {
      VoteCallCandidate(h, n, c.rpcs[k].call.vote);
    }
  }

  lemma ElectionVotes(nodes: map<NodeId, NodeState>, rpcs: map<RpcId, Rpc>, tally: Tallies, n: NodeId, s: NodeState, serial: nat, targets: set<NodeId>, rpc: Rpc)
    requires VotesOnce(nodes, rpcs, tally) && rpc.call.VoteCall? && rpc.caller == n && rpc.call.vote.term == s.currentTerm && n !in targets
    requires forall k {:trigger rpcs[k]} | k in rpcs && rpcs[k].call.VoteCall? && rpcs[k].caller == n :: rpcs[k].call.vote.term != s.currentTerm
    ensures VotesOnce(nodes[n := s], rpcs + Round(serial, targets, rpc), tally[n := {n}])
  {
    var rpcs' := rpcs + Round(serial, targets, rpc);
    forall k | k in rpcs'
      ensures (k in Ids(serial, targets) && rpcs'[k] == rpc && k.serial == serial && k.target in targets) || (k in rpcs && rpcs'[k] == rpcs[k])
    {
    }
  }

  lemma ElectKeeps(c: Cluster, c': Cluster, n: NodeId, book: map<NodeId, PeerAddress>, h: Hist, tally: Tallies) returns (h': Hist)
    requires ClusterRel(c, book, h, tally) && Next(c, c', Elect(n))
    ensures ClusterRel(c', book, h', tally[n := {n}])
    ensures Grows(h, h')
  {
    hide Inv, ClientsOnly, NodesRel, AppliedSound, NodeRel, StartElection, VoteCallRel, Touches;
    NodeReady(c, book, h, tally, n);
    var s := c.nodes[n];
    var (s', sends) := StartElection(s);
    h' := ElectRel(h, book, s, tally[n]);
    NoApplies(c, n);
    NoEvents(h');
    if sends {
      var rpc := Rpc(n, VoteCall(VoteRequestOf(s')), Requested);
      OldVoteCalls(c, book, h, n, s'.currentTerm);
      ElectionVotes(c.nodes, c.rpcs, tally, n, s', c.nextSerial, s'.peers.Keys, rpc);
      RoundMoved(h', book, c, c', rpc, s'.peers.Keys);
    } else {
      ElectionQuiet(c.nodes, c.rpcs, tally, n, s', book, s);
      hide RpcRel;
      assert RpcsMoved(h', book, c, c') by {
        assert forall k {:trigger c.rpcs[k]} | k in c.rpcs :: k.serial < c.nextSerial;
      }
    }
    hide RpcsRel, VotesOnce, RpcsMoved;
    Assemble(c, c', book, h, h', tally, n, {n}, []);
    TouchesGrows(h, h', n);
  }

  /** A node that stands and wins alone, or does not stand at all, leaves no candidate behind. */
  lemma ElectionQuiet(nodes: map<NodeId, NodeState>, rpcs: map<RpcId, Rpc>, tally: Tallies, n: NodeId, s': NodeState, book: map<NodeId, PeerAddress>, s: NodeState)
    requires VotesOnce(nodes, rpcs, tally) && s'.role != Candidate
    ensures VotesOnce(nodes[n := s'], rpcs, tally[n := {n}])
  {
  }

  lemma RoundMoved(h': Hist, book: map<NodeId, PeerAddress>, c: Cluster, c': Cluster, rpc: Rpc, targets: set<NodeId>)
    requires c'.rpcs == c.rpcs + Round(c.nextSerial, targets, rpc) && c'.nextSerial == c.nextSerial + 1
    requires forall k {:trigger c.rpcs[k]} | k in c.rpcs :: k.serial < c.nextSerial
    requires rpc.caller in book && targets <= book.Keys && rpc.phase == Requested && rpc.call.VoteCall? && VoteCallRel(h', rpc.caller, rpc.call.vote)
    ensures RpcsMoved(h', book, c, c')
  {
    hide VoteCallRel;
  }

  lemma CountRole(s: NodeState, term: Term, reply: VoteReply)
    ensures var s' := HandleVoteReply(s, term, reply);
            s'.role == Candidate ==> s.role == Candidate && s'.currentTerm == s.currentTerm
  {
    hide EffectiveMembership;
  }

  lemma CountedVotes(c: Cluster, c': Cluster, k: RpcId, tally: Tallies, n: NodeId, mine: set<NodeId>)
    requires VotesOnce(c.nodes, c.rpcs, tally) && n in c.nodes && n in c'.nodes && n in tally && c'.nodes == c.nodes[n := c'.nodes[n]]
    requires c'.nodes[n].role == Candidate ==> c.nodes[n].role == Candidate && c'.nodes[n].currentTerm == c.nodes[n].currentTerm
    requires k in c.rpcs && c'.rpcs == c.rpcs - {k} && c.rpcs[k].caller == n && c.rpcs[k].call.VoteCall?
    requires mine == tally[n] || (mine == tally[n] + {k.target} && c.nodes[n].role == Candidate && c.rpcs[k].call.vote.term == c.nodes[n].currentTerm)
    ensures VotesOnce(c'.nodes, c'.rpcs, tally[n := mine])
  {
    assert forall j {:trigger c'.rpcs[j]} | j in c'.rpcs :: j in c.rpcs && j != k && c'.rpcs[j] == c.rpcs[j];
    assert c.rpcs[k] == c.rpcs[k];
  }

  lemma CountVoteKeeps(c: Cluster, c': Cluster, k: RpcId, book: map<NodeId, PeerAddress>, h: Hist, tally: Tallies) returns (h': Hist, tally': Tallies)
    requires ClusterRel(c, book, h, tally) && Next(c, c', CountVote(k))
    ensures ClusterRel(c', book, h', tally')
    ensures Grows(h, h')
  {
    hide Inv, ClientsOnly, NodesRel, AppliedSound, NodeRel, HandleVoteReply, VoteCallRel, Touches;
    var n := c.rpcs[k].caller;
    var req := c.rpcs[k].call.vote;
    var reply := c.rpcs[k].phase.answer.vote;
    RpcReady(c, book, h, tally, k);
    NodeReady(c, book, h, tally, n);
    var mine;
    h', mine := CountSection(h, book, c.nodes[n], tally[n], k.target, req, reply);
    tally' := tally[n := mine];
    CountRole(c.nodes[n], req.term, reply);
    CountedVotes(c, c', k, tally, n, mine);
    NoApplies(c, n);
    NoEvents(h');
    hide VotesOnce, RpcRel;
    assert RpcsMoved(h', book, c, c');
    hide RpcsRel, RpcsMoved;
    Assemble(c, c', book, h, h', tally, n, mine, []);
    TouchesGrows(h, h', n);
  }
}
