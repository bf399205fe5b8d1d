/**
 A whole Raft group with the network between its members. Every step is one critical section of
 one node; calls and answers may be delayed, reordered or lost, and each call is answered at most
 once because every connection is used for a single exchange.
 */
module RaftCluster {
  import opened Options
  import opened RaftTypes
  import opened RaftLogs
  import opened RaftNodeState

  datatype Call = VoteCall(vote: VoteRequest) | AppendCall(append: AppendRequest) | InstallCall(install: SnapshotRequest)

  datatype Answer = VoteAnswer(vote: VoteReply) | AppendAnswer(append: AppendReply) | InstallAnswer(install: SnapshotReply)

  /** `Restoring`: the receiver has left its first critical section and restores the snapshot. */
  datatype Phase = Requested | Restoring | Answered(answer: Answer)

  /** One round of calls shares a serial number and has at most one call per target. */
  datatype RpcId = RpcId(serial: nat, target: NodeId)

  datatype Rpc = Rpc(caller: NodeId, call: Call, phase: Phase)

  datatype Applied = Applied(node: NodeId, event: ApplyEvent)

  /** `applied` records every call of every node's apply callback, in order. */
  datatype Cluster = Cluster(nodes: map<NodeId, NodeState>, rpcs: map<RpcId, Rpc>, nextSerial: nat, applied: seq<Applied>)

  datatype Step =
    | Elect(n: NodeId)
    | ReceiveVote(k: RpcId, recentLeader: bool)
    | CountVote(k: RpcId)
    | Offer(n: NodeId, command: Command)
    | Replicate(n: NodeId, peer: NodeId)
    | ReceiveAppend(k: RpcId)
    | AppendDone(k: RpcId)
    | SendSnapshot(n: NodeId, peer: NodeId)
    | ReceiveSnapshot(k: RpcId)
    | RestoreDone(k: RpcId)
    | SnapshotDone(k: RpcId)
    | Lose(k: RpcId)
    | Crash(n: NodeId)

  function InitialNode(n: NodeId, book: map<NodeId, PeerAddress>): NodeState
    requires n in book
  {
    NodeState(n, 0, None, EmptyLog, Membership(book - {n}, true, book[n]), book[n], book - {n}, true, 0,
      Follower, 0, 0, 0, 0, map[], map[])
  }

  ghost predicate Init(c: Cluster, book: map<NodeId, PeerAddress>) {
    c == Cluster(map n | n in book :: InitialNode(n, book), map[], 0, [])
  }

  function Events(n: NodeId, events: seq<ApplyEvent>): seq<Applied> {
    seq(|events|, i requires 0 <= i < |events| => Applied(n, events[i]))
  }

  function Update(c: Cluster, n: NodeId, out: Outcome): Cluster {
    c.(nodes := c.nodes[n := out.node], applied := c.applied + Events(n, out.events))
  }

  function Ids(serial: nat, targets: set<NodeId>): set<RpcId> { set p | p in targets :: RpcId(serial, p) }

  function Round(serial: nat, targets: set<NodeId>, rpc: Rpc): map<RpcId, Rpc> { map k | k in Ids(serial, targets) :: rpc }

  function Send(c: Cluster, targets: set<NodeId>, rpc: Rpc): Cluster {
    c.(rpcs := c.rpcs + Round(c.nextSerial, targets, rpc), nextSerial := c.nextSerial + 1)
  }

  function SetPhase(c: Cluster, k: RpcId, phase: Phase): Cluster
    requires k in c.rpcs
  {
    c.(rpcs := c.rpcs[k := c.rpcs[k].(phase := phase)])
  }

  predicate Arriving(c: Cluster, k: RpcId) {
    k in c.rpcs && k.target in c.nodes && c.rpcs[k].phase == Requested
  }

  predicate Returning(c: Cluster, k: RpcId) {
    k in c.rpcs && c.rpcs[k].caller in c.nodes && c.rpcs[k].phase.Answered?
  }

  ghost predicate Next(c: Cluster, c': Cluster, step: Step) {
    match step
    case Elect(n) =>
      && n in c.nodes
      && var (s, sends) := StartElection(c.nodes[n]);
         var c1 := c.(nodes := c.nodes[n := s]);
         c' == if sends then Send(c1, s.peers.Keys, Rpc(n, VoteCall(VoteRequestOf(s)), Requested)) else c1
    case ReceiveVote(k, recent) =>
      && Arriving(c, k) && c.rpcs[k].call.VoteCall?
      && var (s, reply) := HandleRequestVote(c.nodes[k.target], c.rpcs[k].call.vote, recent);
         c' == SetPhase(c.(nodes := c.nodes[k.target := s]), k, Answered(VoteAnswer(reply)))
    case CountVote(k) =>
      && Returning(c, k) && c.rpcs[k].call.VoteCall? && c.rpcs[k].phase.answer.VoteAnswer?
      && var rpc := c.rpcs[k];
         var s := HandleVoteReply(c.nodes[rpc.caller], rpc.call.vote.term, rpc.phase.answer.vote);
         c' == c.(nodes := c.nodes[rpc.caller := s], rpcs := c.rpcs - {k})
    case Offer(n, command) =>
      n in c.nodes && command.Client? && c' == Update(c, n, Propose(c.nodes[n], command))
    case Replicate(n, peer) =>
      && n in c.nodes && c.nodes[n].role == Leader && peer in c.nodes[n].peers && !NeedsSnapshot(c.nodes[n], peer)
      && c' == Send(c, {peer}, Rpc(n, AppendCall(AppendRequestFor(c.nodes[n], peer)), Requested))
    case ReceiveAppend(k) =>
      && Arriving(c, k) && c.rpcs[k].call.AppendCall?
      && var (out, reply) := HandleAppendEntries(c.nodes[k.target], c.rpcs[k].call.append);
         c' == SetPhase(Update(c, k.target, out), k, Answered(AppendAnswer(reply)))
    case AppendDone(k) =>
      && Returning(c, k) && c.rpcs[k].call.AppendCall? && c.rpcs[k].phase.answer.AppendAnswer?
      && var rpc := c.rpcs[k];
         var out := HandleAppendReply(c.nodes[rpc.caller], k.target, rpc.call.append, rpc.phase.answer.append);
         c' == Update(c, rpc.caller, out).(rpcs := c.rpcs - {k})
    case SendSnapshot(n, peer) =>
      && n in c.nodes && c.nodes[n].role == Leader && peer in c.nodes[n].peers
      && c' == Send(c, {peer}, Rpc(n, InstallCall(SnapshotRequestOf(c.nodes[n])), Requested))
    case ReceiveSnapshot(k) =>
      && Arriving(c, k) && c.rpcs[k].call.InstallCall?
      && (forall other {:trigger c.rpcs[other]} | other in c.rpcs && other.target == k.target :: c.rpcs[other].phase != Restoring)
      && var (s, reply) := BeginInstall(c.nodes[k.target], c.rpcs[k].call.install);
         c' == SetPhase(c.(nodes := c.nodes[k.target := s]), k,
                 if reply.Some? then Answered(InstallAnswer(reply.value)) else Restoring)
    case RestoreDone(k) =>
      && k in c.rpcs && k.target in c.nodes && c.rpcs[k].phase == Restoring && c.rpcs[k].call.InstallCall?
      && var (s, reply) := FinishInstall(c.nodes[k.target], c.rpcs[k].call.install);
         c' == SetPhase(c.(nodes := c.nodes[k.target := s]), k, Answered(InstallAnswer(reply)))
    case SnapshotDone(k) =>
      && Returning(c, k) && c.rpcs[k].call.InstallCall? && c.rpcs[k].phase.answer.InstallAnswer?
      && var rpc := c.rpcs[k];
         var s := HandleSnapshotReply(c.nodes[rpc.caller], k.target, rpc.call.install, rpc.phase.answer.install);
         c' == c.(nodes := c.nodes[rpc.caller := s], rpcs := c.rpcs - {k})
    case Lose(k) =>
      c' == c.(rpcs := c.rpcs - {k})
    case Crash(n) =>
      && n in c.nodes
      && c' == c.(nodes := c.nodes[n := Restart(c.nodes[n])],
                  rpcs := map k | k in c.rpcs && !(k.target == n && c.rpcs[k].phase == Restoring) :: c.rpcs[k])
  }

  /** A run from the first start of all members, under any interleaving of steps. */
  ghost predicate Run(run: seq<Cluster>, steps: seq<Step>, book: map<NodeId, PeerAddress>) {
    && |run| == |steps| + 1
    && Init(run[0], book)
    && forall i {:trigger steps[i]} | 0 <= i < |steps| :: Next(run[i], run[i + 1], steps[i])
  }
}
