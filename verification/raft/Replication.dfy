/** The critical sections of replication: proposing, sending, following, committing. */
module RaftReplication {
  import opened RaftTypes
  import opened RaftLogs
  import opened RaftNodeState
  import opened RaftHistory
  import opened RaftActions
  import opened RaftRefinement
  import opened RaftSections
  import opened RaftElections

  // ------------------------------------------------------------------------------------------
  // Committing on the leader
  // ------------------------------------------------------------------------------------------

  lemma AdvanceFixed(book: map<NodeId, PeerAddress>, s: NodeState, commit: LogIndex)
    requires Fixed(book, s)
    ensures ApplyCommitted(s.(commitIndex := commit)).node.pendingSelfRemoval == 0
  {
  }

  lemma AdvanceRel(h: Hist, book: map<NodeId, PeerAddress>, s: NodeState, tally: set<NodeId>)
    requires Ready(h, book, s, tally) && s.role == Leader
    ensures var out := MaybeAdvanceCommitIndex(s);
            out.node.id == s.id && NodeRel(h, book, out.node, tally) && AllSound(h, out.events)
  {
    var m := MajorityIndex(LastIndex(s.log), s.matchIndex);
    TermFacts(h, s);
    if m > s.commitIndex && TermAt(s.log, m) == s.currentTerm {
      MajorityChosen(h, book, s, m);
      hide Inv, IsMajorityIndex, ApplyCommitted, Committed, RoleRel, VoteRel;
      ApplyRel(h, book, s, tally, m);
      AdvanceFixed(book, s, m);
    }
  }

  // ------------------------------------------------------------------------------------------
  // Proposing
  // ------------------------------------------------------------------------------------------

  lemma LeaderAppendTouches(h: Hist, c: NodeId, command: Command)
    requires Leading(h, c) && Grows(h, LeaderAppend(h, c, command))
    ensures Touches(h, LeaderAppend(h, c, command), c)
    ensures ClientsOnly(h) && command.Client? ==> ClientsOnly(LeaderAppend(h, c, command))
  {
  }

  lemma OfferNode(h: Hist, book: map<NodeId, PeerAddress>, s: NodeState, tally: set<NodeId>, command: Command)
    requires NodeRel(h, book, s, tally) && s.role == Leader && command.Client?
    requires Grows(h, LeaderAppend(h, s.id, command)) && Leading(LeaderAppend(h, s.id, command), s.id)
    ensures NodeRel(LeaderAppend(h, s.id, command), book, s.(log := Append(s.log, s.currentTerm, command)), tally)
  {
    hide Committed;
    var h' := LeaderAppend(h, s.id, command);
    AppendRefines(h.log[s.id], s.log, s.currentTerm, command);
    CommittedStable(h, h', h.log[s.id][..s.commitIndex], s.currentTerm, s.currentTerm);
    assert h'.log[s.id][..s.commitIndex] == h.log[s.id][..s.commitIndex];
    forall p | p in s.matchIndex
      ensures s.matchIndex[p] <= Acked(h', p, s.currentTerm)
    {
      assert Acked(h, p, s.currentTerm) <= Acked(h', p, s.currentTerm);
    }
  }

  lemma ProposeFixed(book: map<NodeId, PeerAddress>, s: NodeState, command: Command)
    requires Fixed(book, s) && command.Client?
    ensures Propose(s, command) ==
            if s.role != Leader then Outcome(s, [])
            else MaybeAdvanceCommitIndex(s.(log := Append(s.log, s.currentTerm, command)))
  {
    hide RefreshMembership, MaybeAdvanceCommitIndex;
    var s1 := s.(log := Append(s.log, s.currentTerm, command));
    assert Fixed(book, s1);
    RefreshFixed(book, s1);
  }

  /** Propose's critical section. */
  lemma OfferSection(h: Hist, book: map<NodeId, PeerAddress>, s: NodeState, tally: set<NodeId>, command: Command) returns (h': Hist)
    requires Ready(h, book, s, tally) && command.Client?
    ensures Kept(h, h', book, s, Propose(s, command).node, tally) && AllSound(h', Propose(s, command).events)
  {
    ProposeFixed(book, s, command);
    NothingTouched(h, s.id);
    h' := h;
    if s.role == Leader {
      h' := LeaderAppend(h, s.id, command);
      hide Inv, Touches, ClientsOnly, MaybeAdvanceCommitIndex, Propose, Fixed, ProgressRel, VoteRel;
      LeaderAppendKeeps(h, s.id, command);
      LeaderAppendTouches(h, s.id, command);
      OfferNode(h, book, s, tally, command);
      TouchesGrows(h, h', s.id);
      hide LeaderAppend, RoleRel, Grows, Leading;
      AdvanceRel(h', book, s.(log := Append(s.log, s.currentTerm, command)), tally);
    }
  }

  // ------------------------------------------------------------------------------------------
  // Sending
  // ------------------------------------------------------------------------------------------

  /** ReplicateTo: the request is a slice of the leader's log that reaches its end, so it carries
      everything up to the commit index. */
  lemma ReplicateRel(h: Hist, book: map<NodeId, PeerAddress>, s: NodeState, tally: set<NodeId>, peer: NodeId)
    requires NodeRel(h, book, s, tally) && s.role == Leader && peer in s.peers && !NeedsSnapshot(s, peer)
    ensures AppendCallRel(h, s.id, AppendRequestFor(s, peer))
  {
    hide Committed;
    var full := h.log[s.id];
    var next := s.nextIndex[peer];
    QueriesRefine(full, s.log, next - 1);
    var req := AppendRequestFor(s, peer);
    assert req.entries == full[next - 1..];
    assert req.prevLogIndex + |req.entries| == |full|;
    assert full[next - 1..] == full[next - 1..|full|];
  }

  // ------------------------------------------------------------------------------------------
  // Following
  // ------------------------------------------------------------------------------------------

  /** A shorter prefix of a committed one is committed. */
  lemma CommittedShorter(h: Hist, prefix: seq<LogEntry>, n: nat, bound: Term)
    requires Committed(h, prefix, bound) && n <= |prefix|
    ensures Committed(h, prefix[..n], bound)
  {
    if n > 0 {
      var t: Term, i: LogIndex :| t <= bound && CommittedBy(h, prefix, t, i);
      assert CommittedBy(h, prefix[..n], t, i);
    }
  }

  lemma SetLogTouches(h: Hist, v: NodeId, log: seq<LogEntry>)
    requires v in h.log && Grows(h, SetLog(h, v, log))
    ensures Touches(h, SetLog(h, v, log), v) && (ClientsOnly(h) ==> ClientsOnly(SetLog(h, v, log)))
  {
  }

  lemma AckTouches(h: Hist, v: NodeId, i: LogIndex)
    requires v in h.term && Grows(h, Ack(h, v, i))
    ensures Touches(h, Ack(h, v, i), v) && (ClientsOnly(h) ==> ClientsOnly(Ack(h, v, i)))
  {
  }

  /** Acknowledging what the node holds, in the term it is in. */
  lemma AckRel(h: Hist, book: map<NodeId, PeerAddress>, s: NodeState, tally: set<NodeId>, i: LogIndex) returns (h': Hist)
    requires Ready(h, book, s, tally) && Ackable(h, s.id, i)
    ensures Kept(h, h', book, s, s, tally) && Acked(h', s.id, s.currentTerm) >= i && h' == Ack(h, s.id, i)
  {
    hide Inv, Touches, ClientsOnly, Fixed, Ackable;
    h' := Ack(h, s.id, i);
    AckKeeps(h, s.id, i);
    AckTouches(h, s.id, i);
    assert Ack(h, s.id, i).log == h.log && Ack(h, s.id, i).term == h.term && Ack(h, s.id, i).voted == h.voted;
    AckNode(h, book, s, tally, i);
  }

  lemma AckNode(h: Hist, book: map<NodeId, PeerAddress>, s: NodeState, tally: set<NodeId>, i: LogIndex)
    requires NodeRel(h, book, s, tally) && Grows(h, Ack(h, s.id, i))
    ensures NodeRel(Ack(h, s.id, i), book, s, tally)
  {
    hide Committed;
    var h' := Ack(h, s.id, i);
    CommittedStable(h, h', h.log[s.id][..s.commitIndex], s.currentTerm, s.currentTerm);
    forall p | p in s.matchIndex && s.role == Leader
      ensures s.matchIndex[p] <= Acked(h', p, s.currentTerm)
    {
      assert Acked(h, p, s.currentTerm) <= Acked(h', p, s.currentTerm);
    }
  }

  /** Every request position below the boundary holds the entry this node compacted away. */
  lemma CompactedPartAgrees(h: Hist, s: NodeState, t: Term, prev: LogIndex, m: LogIndex)
    requires Inv(h) && s.id in h.log && ProgressRel(h, s) && t in h.lead && s.currentTerm <= t
    requires prev <= m <= |h.lead[t]|
    ensures h.log[s.id][..s.commitIndex] <= h.lead[t]
    ensures forall k :: 0 <= k < m - prev && prev + k < s.log.snapshotIndex ==>
              h.lead[t][prev..m][k].term == h.log[s.id][prev + k].term
  {
    hide Inv, Committed;
    var full := h.log[s.id];
    CommittedInLeader(h, full[..s.commitIndex], s.currentTerm, t);
    forall k | 0 <= k < m - prev && prev + k < s.log.snapshotIndex
      ensures h.lead[t][prev..m][k].term == full[prev + k].term
    {
      assert full[..s.commitIndex][prev + k] == h.lead[t][prev + k];
    }
  }

  lemma PrevTermPositive(h: Hist, t: Term, prev: LogIndex)
    requires LogsCoherent(h) && t in h.lead && 0 < prev <= |h.lead[t]|
    ensures TermOf(h.lead[t], prev) > 0
  {
    assert Coherent(h, h.lead[t], t);
    assert Placed(h, h.lead[t], prev - 1, t);
  }

  lemma MergeRepresents(full: seq<LogEntry>, l: LogState, lead: seq<LogEntry>, prev: LogIndex, m: LogIndex)
    requires Represents(full, l) && prev <= m <= |lead| && PrevMatches(l, prev, TermOf(lead, prev))
    requires prev > 0 ==> TermOf(lead, prev) > 0
    requires forall k :: 0 <= k < m - prev && prev + k < l.snapshotIndex ==> lead[prev..m][k].term == full[prev + k].term
    ensures prev <= |full| && (prev == 0 || full[prev - 1].term == lead[prev - 1].term)
    ensures Represents(Merge(0, full, prev, lead[prev..m]), AppendEntriesFrom(l, prev, TermOf(lead, prev), lead[prev..m]))
  {
    QueriesRefine(full, l, prev);
    assert full[0..] == full;
    QueriesRefine(full, Uncompacted(full, l.appliedIndex), prev);
    AppendEntriesRefines(full, l, prev, TermOf(lead, prev), lead[prev..m]);
  }

  /** The follower's new log, on the whole history: it adopts the leader's log up to the last entry sent. */
  lemma FollowerAdopts(h: Hist, s: NodeState, t: Term, prev: LogIndex, m: LogIndex)
    requires Inv(h) && s.id in h.log && s.id in h.term && ProgressRel(h, s) && t in h.lead && prev <= m <= |h.lead[t]|
    requires s.currentTerm == t == h.term[s.id] && PrevMatches(s.log, prev, TermOf(h.lead[t], prev))
    ensures Represents(Adopt(h.log[s.id], h.lead[t][..m]),
                       AppendEntriesFrom(s.log, prev, TermOf(h.lead[t], prev), h.lead[t][prev..m]))
  {
    CompactedPartAgrees(h, s, t, prev, m);
    if prev > 0 { PrevTermPositive(h, t, prev); }
    TermFacts(h, s);
    assert LogsCoherent(h);
    hide Inv, Committed, LogsCoherent, AppendEntriesFrom, PrevMatches, Coherent, Adopt;
    MergeRepresents(h.log[s.id], s.log, h.lead[t], prev, m);
    hide Represents, Merge, TermOf, ProgressRel;
    MergeAdopts(h, h.log[s.id], t, t, prev, m);
  }

  /** Adopting the leader's log keeps everything committed. */
  lemma AdoptKeepsCommitted(full: seq<LogEntry>, lead: seq<LogEntry>, commit: nat, m: nat)
    requires commit <= |full| && m <= |lead| && full[..commit] <= lead
    ensures commit <= |Adopt(full, lead[..m])| && Adopt(full, lead[..m])[..commit] == full[..commit]
  {
    assert commit >= m ==> lead[..m] <= full[..commit];
  }

  lemma AdoptNode(h: Hist, book: map<NodeId, PeerAddress>, s: NodeState, tally: set<NodeId>, full': seq<LogEntry>, log': LogState)
    requires NodeRel(h, book, s, tally) && s.role == Follower && Grows(h, SetLog(h, s.id, full'))
    requires Represents(full', log') && log'.snapshotIndex == s.log.snapshotIndex && log'.appliedIndex == s.log.appliedIndex
    requires s.commitIndex <= |full'| && full'[..s.commitIndex] == h.log[s.id][..s.commitIndex]
    requires forall k {:trigger full'[k]} | 0 <= k < |full'| :: full'[k].command.Client?
    ensures NodeRel(SetLog(h, s.id, full'), book, s.(log := log'), tally)
  {
    hide Committed;
    CommittedStable(h, SetLog(h, s.id, full'), h.log[s.id][..s.commitIndex], s.currentTerm, s.currentTerm);
  }

  lemma CoherentClients(h: Hist, log: seq<LogEntry>, bound: Term)
    requires ClientsOnly(h) && Coherent(h, log, bound)
    ensures forall k {:trigger log[k]} | 0 <= k < |log| :: log[k].command.Client?
  {
    forall k: nat | k < |log|
      ensures log[k].command.Client?
    {
      assert Placed(h, log, k, bound);
      assert h.lead[log[k].term][k] == log[..k + 1][k];
    }
  }

  lemma AdoptedCoherent(h: Hist, log: seq<LogEntry>, t: Term, m: nat)
    requires LogsCoherent(h) && t in h.lead && m <= |h.lead[t]| && Coherent(h, log, t)
    ensures Coherent(h, Adopt(log, h.lead[t][..m]), t)
  {
    assert Coherent(h, h.lead[t], t);
    LeaderTerms(h, t);
    CoherentPrefix(h, h.lead[t], t, m, t);
  }

  /** A follower's log may be replaced by any coherent log that covers and commits as much. */
  lemma ReplaceLogRel(h: Hist, book: map<NodeId, PeerAddress>, s: NodeState, tally: set<NodeId>, full': seq<LogEntry>, log': LogState)
      returns (h': Hist)
    requires Ready(h, book, s, tally) && s.role == Follower
    requires Coherent(h, full', s.currentTerm) && Carries(h, h.log[s.id], full')
    requires Represents(full', log') && log'.snapshotIndex == s.log.snapshotIndex && log'.appliedIndex == s.log.appliedIndex
    requires s.commitIndex <= |full'| && s.commitIndex <= |h.log[s.id]| && full'[..s.commitIndex] == h.log[s.id][..s.commitIndex]
    ensures Kept(h, h', book, s, s.(log := log'), tally) && h' == SetLog(h, s.id, full')
  {
    hide Inv, Touches, ClientsOnly, Fixed, VoteRel, RoleRel, ProgressRel, Coherent, Carries, Represents;
    h' := SetLog(h, s.id, full');
    SetLogKeeps(h, s.id, full');
    SetLogTouches(h, s.id, full');
    CoherentClients(h, full', s.currentTerm);
    AdoptNode(h, book, s, tally, full', log');
  }

  /** What accepting a request needs of the adopted log. */
  lemma AdoptionSound(h: Hist, s: NodeState, t: Term, prev: LogIndex, m: LogIndex)
    requires Inv(h) && s.id in h.log && s.id in h.term && ProgressRel(h, s) && t in h.lead && prev <= m <= |h.lead[t]|
    requires s.currentTerm == t == h.term[s.id]
    ensures var full' := Adopt(h.log[s.id], h.lead[t][..m]);
            && Coherent(h, full', t) && Carries(h, h.log[s.id], full')
            && s.commitIndex <= |full'| && full'[..s.commitIndex] == h.log[s.id][..s.commitIndex]
  {
    CompactedPartAgrees(h, s, t, prev, m);
    TermFacts(h, s);
    assert LogsCoherent(h);
    hide Inv, ProgressRel, Coherent, Carries, LogsCoherent;
    AdoptLeaderCarries(h, h.log[s.id], t, m);
    AdoptedCoherent(h, h.log[s.id], t, m);
    AdoptKeepsCommitted(h.log[s.id], h.lead[t], s.commitIndex, m);
  }

  /** Accepting a request: the follower adopts the leader's log and acknowledges it. */
  lemma AcceptRel(h: Hist, book: map<NodeId, PeerAddress>, s: NodeState, tally: set<NodeId>, t: Term, prev: LogIndex, m: LogIndex)
      returns (h': Hist)
    requires Ready(h, book, s, tally) && s.role == Follower && s.currentTerm == t && t in h.lead && prev <= m <= |h.lead[t]|
    requires PrevMatches(s.log, prev, TermOf(h.lead[t], prev))
    ensures var s' := s.(log := AppendEntriesFrom(s.log, prev, TermOf(h.lead[t], prev), h.lead[t][prev..m]));
            && Kept(h, h', book, s, s', tally)
            && Acked(h', s.id, t) >= m
            && h'.lead == h.lead && s.id in h'.log && h'.lead[t][..m] <= h'.log[s.id]
  {
    var full' := Adopt(h.log[s.id], h.lead[t][..m]);
    var log' := AppendEntriesFrom(s.log, prev, TermOf(h.lead[t], prev), h.lead[t][prev..m]);
    FollowerAdopts(h, s, t, prev, m);
    AdoptionSound(h, s, t, prev, m);
    hide Inv, Touches, ClientsOnly, Fixed, VoteRel, RoleRel, Coherent, Carries, Represents;
    var h1 := ReplaceLogRel(h, book, s, tally, full', log');
    TouchesGrows(h, h1, s.id);
    hide ProgressRel;
    h' := AckRel(h1, book, s.(log := log'), tally, m);
    TouchesTransitive(h, h1, h', s.id);
  }
}
