/** How a node, a message or an applied command corresponds to a protocol history, and that it goes on
    to as the history grows. */
module RaftRefinement {
  import opened Options
  import opened RaftTypes
  import opened RaftLogs
  import opened RaftNodeState
  import opened RaftHistory
  import opened RaftActions

  // ------------------------------------------------------------------------------------------
  // The correspondence
  // ------------------------------------------------------------------------------------------

  /** No membership change is ever in sight of this node. */
  ghost predicate Fixed(book: map<NodeId, PeerAddress>, s: NodeState) {
    && s.id in book
    && s.base == Membership(book - {s.id}, true, book[s.id])
    && s.ownAddress == book[s.id] && s.peers == book - {s.id} && s.selfMember && s.pendingSelfRemoval == 0
    && forall k {:trigger s.log.entries[k]} | 0 <= k < |s.log.entries| :: s.log.entries[k].command.Client?
  }

  ghost predicate VoteRel(h: Hist, s: NodeState) {
    match s.votedFor
    case None => Seat(s.id, s.currentTerm) !in h.voted
    case Some(c) => Seat(s.id, s.currentTerm) in h.voted && h.voted[Seat(s.id, s.currentTerm)] == c
  }

  ghost predicate ProgressRel(h: Hist, s: NodeState)
    requires s.id in h.log
  {
    && Represents(h.log[s.id], s.log)
    && s.log.snapshotIndex <= s.lastApplied <= s.commitIndex <= |h.log[s.id]|
    && s.log.appliedIndex == s.lastApplied
    && Committed(h, h.log[s.id][..s.commitIndex], s.currentTerm)
  }

  ghost predicate LeaderRel(h: Hist, s: NodeState) {
    && Leading(h, s.id)
    && s.matchIndex.Keys == s.peers.Keys && s.nextIndex.Keys == s.peers.Keys
    && (forall p {:trigger s.matchIndex[p]} | p in s.matchIndex :: s.matchIndex[p] <= Acked(h, p, s.currentTerm))
    && (forall p {:trigger s.nextIndex[p]} | p in s.nextIndex :: 1 <= s.nextIndex[p] <= |h.log[s.id]| + 1)
  }

  /** `tally` are the members whose votes the candidate has counted. */
  ghost predicate CandidateRel(h: Hist, s: NodeState, tally: set<NodeId>) {
    && Seat(s.id, s.currentTerm) in h.cand
    && (s.currentTerm in h.leader ==> h.leader[s.currentTerm] != s.id)
    && tally <= Members(h) && s.votesReceived == |tally| && VotedFor(h, tally, s.currentTerm, s.id)
  }

  ghost predicate RoleRel(h: Hist, s: NodeState, tally: set<NodeId>) {
    && (s.role == Leader ==> LeaderRel(h, s))
    && (s.role == Candidate ==> CandidateRel(h, s, tally))
    && s.matchIndex.Keys <= s.peers.Keys && s.nextIndex.Keys <= s.peers.Keys
  }

  ghost predicate NodeRel(h: Hist, book: map<NodeId, PeerAddress>, s: NodeState, tally: set<NodeId>) {
    && s.id in h.term && s.id in h.log && h.term[s.id] == s.currentTerm
    && Fixed(book, s) && VoteRel(h, s) && ProgressRel(h, s) && RoleRel(h, s, tally)
  }

  /** Every entry any leader ever had is a client command. */
  ghost predicate ClientsOnly(h: Hist) {
    forall t {:trigger h.lead[t]} | t in h.lead :: forall i | 0 <= i < |h.lead[t]| :: h.lead[t][i].command.Client?
  }

  /** A step of node n: other nodes' logs, terms and votes stay, and so do the logs they lead. */
  ghost predicate Touches(h: Hist, h': Hist, n: NodeId) {
    && Grows(h, h')
    && h'.log.Keys == h.log.Keys
    && (forall m {:trigger h'.log[m]} | m != n && m in h.log && m in h'.log :: h'.log[m] == h.log[m])
    && (forall m {:trigger h'.term[m]} | m != n && m in h.term && m in h'.term :: h'.term[m] == h.term[m])
    && (forall k: Seat {:trigger k in h'.voted} | k.node != n && k in h'.voted :: k in h.voted)
    && (forall t {:trigger h'.lead[t]} | t in h.lead && t in h'.lead && t in h.leader && h.leader[t] != n :: h'.lead[t] == h.lead[t])
    && (forall t {:trigger t in h'.leader} | t in h'.leader && t !in h.leader :: h'.leader[t] == n)
  }

  lemma TouchesTransitive(a: Hist, b: Hist, c: Hist, n: NodeId)
    requires Touches(a, b, n) && Touches(b, c, n)
    ensures Touches(a, c, n)
  {
    GrowsTransitive(a, b, c);
  }

  lemma NodeFrame(h: Hist, h': Hist, n: NodeId, book: map<NodeId, PeerAddress>, s: NodeState, tally: set<NodeId>)
    requires Touches(h, h', n) && s.id != n && NodeRel(h, book, s, tally)
    ensures NodeRel(h', book, s, tally)
  {
    assert h'.log[s.id] == h.log[s.id] && h'.term[s.id] == h.term[s.id];
    CommittedStable(h, h', h.log[s.id][..s.commitIndex], s.currentTerm, s.currentTerm);
    if s.role == Leader {
      assert h'.lead[s.currentTerm] == h.lead[s.currentTerm];
      forall p | p in s.matchIndex
        ensures s.matchIndex[p] <= Acked(h', p, s.currentTerm)
      {
        assert Acked(h, p, s.currentTerm) <= Acked(h', p, s.currentTerm);
      }
    }
  }

  // ------------------------------------------------------------------------------------------
  // Messages
  // ------------------------------------------------------------------------------------------

  ghost predicate VoteCallRel(h: Hist, caller: NodeId, req: VoteRequest) {
    && req.candidate == caller && Seat(caller, req.term) in h.cand
    && var log := h.cand[Seat(caller, req.term)];
       req.lastLogIndex == |log| && req.lastLogTerm == TermOf(log, |log|)
  }

  ghost predicate VoteGranted(h: Hist, caller: NodeId, target: NodeId, req: VoteRequest) {
    Seat(target, req.term) in h.voted && h.voted[Seat(target, req.term)] == caller
  }

  /** The request carries the leader's log from prev on, and its commit index lies within it: the
      leader always sends its whole suffix. */
  ghost predicate AppendCallRel(h: Hist, caller: NodeId, req: AppendRequest) {
    && req.term in h.lead && req.term in h.leader && h.leader[req.term] == caller
    && var lead := h.lead[req.term];
       var last := req.prevLogIndex + |req.entries|;
       && last <= |lead| && req.entries == lead[req.prevLogIndex..last]
       && req.prevLogTerm == TermOf(lead, req.prevLogIndex)
       && req.leaderCommit <= last
       && Committed(h, lead[..req.leaderCommit], req.term)
  }

  ghost predicate InstallCallRel(h: Hist, book: map<NodeId, PeerAddress>, caller: NodeId, req: SnapshotRequest) {
    && req.term in h.lead && req.term in h.leader && h.leader[req.term] == caller && req.membership == book
    && var lead := h.lead[req.term];
       && req.lastIncludedIndex <= |lead|
       && req.lastIncludedTerm == TermOf(lead, req.lastIncludedIndex)
       && Committed(h, lead[..req.lastIncludedIndex], req.term)
  }

  lemma VoteCallFrame(h: Hist, h': Hist, caller: NodeId, req: VoteRequest)
    requires Grows(h, h') && VoteCallRel(h, caller, req)
    ensures VoteCallRel(h', caller, req)
  {
  }

  lemma AppendCallFrame(h: Hist, h': Hist, caller: NodeId, req: AppendRequest)
    requires Grows(h, h') && AppendCallRel(h, caller, req)
    ensures AppendCallRel(h', caller, req)
  {
    var lead := h.lead[req.term];
    var lead' := h'.lead[req.term];
    assert lead'[..|lead|] == lead;
    assert lead'[req.prevLogIndex..req.prevLogIndex + |req.entries|] == lead[req.prevLogIndex..req.prevLogIndex + |req.entries|];
    assert lead'[..req.leaderCommit] == lead[..req.leaderCommit];
    CommittedStable(h, h', lead[..req.leaderCommit], req.term, req.term);
  }

  lemma InstallCallFrame(h: Hist, h': Hist, book: map<NodeId, PeerAddress>, caller: NodeId, req: SnapshotRequest)
    requires Grows(h, h') && InstallCallRel(h, book, caller, req)
    ensures InstallCallRel(h', book, caller, req)
  {
    assert h'.lead[req.term][..req.lastIncludedIndex] == h.lead[req.term][..req.lastIncludedIndex];
    CommittedStable(h, h', h.lead[req.term][..req.lastIncludedIndex], req.term, req.term);
  }

  // ------------------------------------------------------------------------------------------
  // Applied commands
  // ------------------------------------------------------------------------------------------

  /** The command sits at its index in some committed history. */
  ghost predicate EventSound(h: Hist, e: ApplyEvent) {
    exists prefix, bound: Term :: Committed(h, prefix, bound) && Places(prefix, e)
  }

  predicate Places(prefix: seq<LogEntry>, e: ApplyEvent) {
    1 <= e.index <= |prefix| && prefix[e.index - 1].command == e.command
  }

  lemma EventFrame(h: Hist, h': Hist, e: ApplyEvent)
    requires Grows(h, h') && EventSound(h, e)
    ensures EventSound(h', e)
  {
    var prefix, bound: Term :| Committed(h, prefix, bound) && Places(prefix, e);
    CommittedStable(h, h', prefix, bound, bound);
  }

  /** Two sound events at one index carry the same command. */
  lemma EventsAgree(h: Hist, a: ApplyEvent, b: ApplyEvent)
    requires Inv(h) && EventSound(h, a) && EventSound(h, b) && a.index == b.index
    ensures a.command == b.command
  {
    var p, pb: Term :| Committed(h, p, pb) && Places(p, a);
    var q, qb: Term :| Committed(h, q, qb) && Places(q, b);
    CommittedAgree(h, p, pb, q, qb);
  }

  // ------------------------------------------------------------------------------------------
  // Membership stays put
  // ------------------------------------------------------------------------------------------

  lemma {:induction false} FoldClients(id: NodeId, leading: bool, commit: LogIndex, acc: Effective, entries: seq<LogEntry>, first: LogIndex)
    requires forall k {:trigger entries[k]} | 0 <= k < |entries| :: entries[k].command.Client?
    ensures Fold(id, leading, commit, acc, entries, first) == acc
    decreases |entries|
  {
    if entries != [] { FoldClients(id, leading, commit, acc, entries[1..], first + 1); }
  }

  lemma {:induction false} FoldCommittedClients(id: NodeId, base: Membership, entries: seq<LogEntry>)
    requires forall k {:trigger entries[k]} | 0 <= k < |entries| :: entries[k].command.Client?
    ensures FoldCommitted(id, base, entries) == base
    decreases |entries|
  {
    if entries != [] { FoldCommittedClients(id, base, entries[1..]); }
  }

  lemma NothingChanges(m: map<NodeId, LogIndex>, added: set<NodeId>, removed: set<NodeId>, value: LogIndex)
    requires added == {} && removed == {}
    ensures (m + Seeded(added, value)) - removed == m
  {
  }

  lemma RefreshFixed(book: map<NodeId, PeerAddress>, s: NodeState)
    requires Fixed(book, s)
    ensures RefreshMembership(s) == s
  {
    FoldClients(s.id, s.role == Leader, s.commitIndex, Effective(s.base.peers, s.base.selfMember, 0), s.log.entries, s.log.snapshotIndex + 1);
    var added := if s.role == Leader then s.base.peers.Keys - s.peers.Keys else {};
    NothingChanges(s.nextIndex, added, s.peers.Keys - s.base.peers.Keys, 1);
    NothingChanges(s.matchIndex, added, s.peers.Keys - s.base.peers.Keys, 0);
  }
}
