/** The cluster invariant: a history explains every node, every message and every applied command. */
module RaftSafety {
  import opened RaftTypes
  import opened RaftNodeState
  import opened RaftHistory
  import opened RaftRefinement
  import opened RaftSections
  import opened RaftElections
  import opened RaftCluster

  type Tallies = map<NodeId, set<NodeId>>

  // ------------------------------------------------------------------------------------------
  // The cluster invariant
  // ------------------------------------------------------------------------------------------

  ghost predicate VoteRpcRel(h: Hist, caller: NodeId, target: NodeId, req: VoteRequest, phase: Phase) {
    && VoteCallRel(h, caller, req) && phase != Restoring
    && (phase.Answered? ==> phase.answer.VoteAnswer? && (phase.answer.vote.granted ==> VoteGranted(h, caller, target, req)))
  }

  ghost predicate AppendRpcRel(h: Hist, caller: NodeId, target: NodeId, req: AppendRequest, phase: Phase) {
    && AppendCallRel(h, caller, req) && phase != Restoring
    && (phase.Answered? ==> phase.answer.AppendAnswer?)
    && (phase.Answered? && phase.answer.append.success ==> Acked(h, target, req.term) >= req.prevLogIndex + |req.entries|)
  }

  ghost predicate InstallRpcRel(h: Hist, book: map<NodeId, PeerAddress>, caller: NodeId, target: NodeId, req: SnapshotRequest, phase: Phase) {
    && InstallCallRel(h, book, caller, req)
    && (phase == Restoring ==> target in h.term && h.term[target] >= req.term)
    && (phase.Answered? ==> phase.answer.InstallAnswer?)
    && (phase.Answered? && phase.answer.install.term <= req.term ==> Acked(h, target, req.term) >= req.lastIncludedIndex)
  }

  ghost predicate RpcRel(h: Hist, book: map<NodeId, PeerAddress>, k: RpcId, rpc: Rpc) {
    && rpc.caller in book && k.target in book
    && match rpc.call
       case VoteCall(req) => VoteRpcRel(h, rpc.caller, k.target, req, rpc.phase)
       case AppendCall(req) => AppendRpcRel(h, rpc.caller, k.target, req, rpc.phase)
       case InstallCall(req) => InstallRpcRel(h, book, rpc.caller, k.target, req, rpc.phase)
  }

  /** A member is asked at most once per candidacy, and its vote is not counted while the call is open. */
  ghost predicate VotesOnce(nodes: map<NodeId, NodeState>, rpcs: map<RpcId, Rpc>, tally: Tallies) {
    && (forall k, l {:trigger rpcs[k], rpcs[l]} | k in rpcs && l in rpcs && rpcs[k].call.VoteCall? && rpcs[l].call.VoteCall?
          && rpcs[k].caller == rpcs[l].caller && k.target == l.target && rpcs[k].call.vote.term == rpcs[l].call.vote.term :: k == l)
    && (forall k {:trigger rpcs[k]} | k in rpcs && rpcs[k].call.VoteCall? && rpcs[k].caller in nodes && rpcs[k].caller in tally
          && nodes[rpcs[k].caller].role == Candidate && nodes[rpcs[k].caller].currentTerm == rpcs[k].call.vote.term ::
          k.target !in tally[rpcs[k].caller])
  }

  ghost predicate NodesRel(h: Hist, book: map<NodeId, PeerAddress>, nodes: map<NodeId, NodeState>, tally: Tallies) {
    && nodes.Keys == book.Keys && tally.Keys == book.Keys
    && forall n {:trigger nodes[n]} | n in nodes && n in tally :: nodes[n].id == n && NodeRel(h, book, nodes[n], tally[n])
  }

  ghost predicate RpcsRel(h: Hist, book: map<NodeId, PeerAddress>, rpcs: map<RpcId, Rpc>, next: nat) {
    forall k {:trigger rpcs[k]} | k in rpcs :: k.serial < next && RpcRel(h, book, k, rpcs[k])
  }

  ghost predicate AppliedSound(h: Hist, applied: seq<Applied>) {
    forall i {:trigger applied[i]} | 0 <= i < |applied| :: EventSound(h, applied[i].event)
  }

  ghost predicate ClusterRel(c: Cluster, book: map<NodeId, PeerAddress>, h: Hist, tally: Tallies) {
    && Inv(h) && ClientsOnly(h) && book.Keys == Members(h)
    && NodesRel(h, book, c.nodes, tally)
    && RpcsRel(h, book, c.rpcs, c.nextSerial)
    && VotesOnce(c.nodes, c.rpcs, tally)
    && AppliedSound(h, c.applied)
  }

  // ------------------------------------------------------------------------------------------
  // Framing
  // ------------------------------------------------------------------------------------------

  lemma RpcFrame(h: Hist, h': Hist, n: NodeId, book: map<NodeId, PeerAddress>, k: RpcId, rpc: Rpc)
    requires Touches(h, h', n) && RpcRel(h, book, k, rpc)
    ensures RpcRel(h', book, k, rpc)
  {
    TouchesGrows(h, h', n);
    match rpc.call
    case VoteCall(req) => VoteCallFrame(h, h', rpc.caller, req);
    case AppendCall(req) =>
      AppendCallFrame(h, h', rpc.caller, req);
      assert Acked(h, k.target, req.term) <= Acked(h', k.target, req.term);
    case InstallCall(req) =>
      InstallCallFrame(h, h', book, rpc.caller, req);
      assert Acked(h, k.target, req.term) <= Acked(h', k.target, req.term);
  }

  /** The parts of a step that every proof shares: node n moved from s to s', and what it sent or
      answered is truthful. */
  ghost predicate Moved(c: Cluster, c': Cluster, n: NodeId, events: seq<ApplyEvent>) {
    && n in c.nodes && n in c'.nodes
    && c'.nodes == c.nodes[n := c'.nodes[n]]
    && c'.applied == c.applied + Events(n, events)
    && c.nextSerial <= c'.nextSerial
  }

  ghost predicate RpcsMoved(h': Hist, book: map<NodeId, PeerAddress>, c: Cluster, c': Cluster) {
    forall k {:trigger c'.rpcs[k]} | k in c'.rpcs ::
      k.serial < c'.nextSerial && ((k in c.rpcs && c'.rpcs[k] == c.rpcs[k]) || RpcRel(h', book, k, c'.rpcs[k]))
  }

  lemma AssembleNodes(c: Cluster, c': Cluster, book: map<NodeId, PeerAddress>, h: Hist, h': Hist, tally: Tallies, n: NodeId, mine: set<NodeId>, events: seq<ApplyEvent>)
    requires NodesRel(h, book, c.nodes, tally) && Moved(c, c', n, events)
    requires Kept(h, h', book, c.nodes[n], c'.nodes[n], mine)
    ensures NodesRel(h', book, c'.nodes, tally[n := mine])
  {
    hide NodeRel, Touches, Inv, ClientsOnly;
    forall m | m in c'.nodes && m in tally[n := mine]
      ensures c'.nodes[m].id == m && NodeRel(h', book, c'.nodes[m], tally[n := mine][m])
    {
      if m != n { NodeFrame(h, h', n, book, c.nodes[m], tally[m]); }
    }
  }

  lemma AssembleRpcs(c: Cluster, c': Cluster, book: map<NodeId, PeerAddress>, h: Hist, h': Hist, n: NodeId)
    requires RpcsRel(h, book, c.rpcs, c.nextSerial) && RpcsMoved(h', book, c, c') && c.nextSerial <= c'.nextSerial && Touches(h, h', n)
    ensures RpcsRel(h', book, c'.rpcs, c'.nextSerial)
  {
    hide Touches, RpcRel;
    forall k | k in c'.rpcs
      ensures k.serial < c'.nextSerial && RpcRel(h', book, k, c'.rpcs[k])
    {
      if k in c.rpcs && c'.rpcs[k] == c.rpcs[k] { RpcFrame(h, h', n, book, k, c.rpcs[k]); }
    }
  }

  lemma AssembleApplied(c: Cluster, c': Cluster, h: Hist, h': Hist, n: NodeId, events: seq<ApplyEvent>)
    requires AppliedSound(h, c.applied) && Moved(c, c', n, events) && Grows(h, h') && AllSound(h', events)
    ensures AppliedSound(h', c'.applied)
  {
    hide EventSound, Grows;
    forall i | 0 <= i < |c'.applied|
      ensures EventSound(h', c'.applied[i].event)
    {
      if i < |c.applied| {
        EventFrame(h, h', c.applied[i].event);
      } else {
        assert c'.applied[i].event == events[i - |c.applied|];
      }
    }
  }

  lemma Assemble(c: Cluster, c': Cluster, book: map<NodeId, PeerAddress>, h: Hist, h': Hist, tally: Tallies, n: NodeId, mine: set<NodeId>, events: seq<ApplyEvent>)
    requires ClusterRel(c, book, h, tally) && Moved(c, c', n, events)
    requires Kept(h, h', book, c.nodes[n], c'.nodes[n], mine) && c.nodes[n].id == n
    requires RpcsMoved(h', book, c, c') && AllSound(h', events)
    requires VotesOnce(c'.nodes, c'.rpcs, tally[n := mine])
    ensures ClusterRel(c', book, h', tally[n := mine])
  {
    hide Inv, Touches, ClientsOnly, NodesRel, RpcsRel, VotesOnce, AppliedSound, NodeRel;
    TouchesGrows(h, h', n);
    AssembleNodes(c, c', book, h, h', tally, n, mine, events);
    AssembleRpcs(c, c', book, h, h', n);
    AssembleApplied(c, c', h, h', n, events);
  }

  /** Outside elections the set of open vote calls only shrinks and no new candidate appears. */
  ghost predicate Quiet(c: Cluster, c': Cluster, n: NodeId) {
    && n in c.nodes && n in c'.nodes && c'.nodes == c.nodes[n := c'.nodes[n]]
    && (c'.nodes[n].role == Candidate ==> c.nodes[n].role == Candidate && c'.nodes[n].currentTerm == c.nodes[n].currentTerm)
    && forall k {:trigger c'.rpcs[k]} | k in c'.rpcs && c'.rpcs[k].call.VoteCall? ::
         k in c.rpcs && c.rpcs[k].call == c'.rpcs[k].call && c.rpcs[k].caller == c'.rpcs[k].caller
  }

  lemma QuietVotes(c: Cluster, c': Cluster, n: NodeId, tally: Tallies)
    requires VotesOnce(c.nodes, c.rpcs, tally) && Quiet(c, c', n) && n in tally
    ensures VotesOnce(c'.nodes, c'.rpcs, tally[n := tally[n]])
  {
    assert tally[n := tally[n]] == tally;
  }

  /** What a step may assume about the node it runs on. */
  lemma NodeReady(c: Cluster, book: map<NodeId, PeerAddress>, h: Hist, tally: Tallies, n: NodeId)
    requires ClusterRel(c, book, h, tally) && n in c.nodes
    ensures n in tally && c.nodes[n].id == n && Ready(h, book, c.nodes[n], tally[n])
    ensures n in book && c.nodes[n].peers == book - {n}
  {
    hide Inv, ClientsOnly, RpcsRel, VotesOnce, AppliedSound, VoteRel, ProgressRel, RoleRel;
  }

  lemma RpcReady(c: Cluster, book: map<NodeId, PeerAddress>, h: Hist, tally: Tallies, k: RpcId)
    requires ClusterRel(c, book, h, tally) && k in c.rpcs
    ensures k.serial < c.nextSerial && RpcRel(h, book, k, c.rpcs[k]) && k.target in c.nodes && c.rpcs[k].caller in c.nodes
  {
    hide Inv, ClientsOnly, NodeRel, VotesOnce, AppliedSound;
  }
}
