/**
 Each critical section, seen from the history: it corresponds to a few protocol actions of the
 node it runs on, its answer is truthful, and what it hands to the apply callback is committed.
 */
module RaftSections {
  import opened RaftTypes
  import opened RaftLogs
  import opened RaftNodeState
  import opened RaftHistory
  import opened RaftActions
  import opened RaftRefinement

  /** What one critical section leaves behind. */
  ghost predicate Kept(h: Hist, h': Hist, book: map<NodeId, PeerAddress>, s: NodeState, s': NodeState, tally': set<NodeId>) {
    Inv(h') && ClientsOnly(h') && Touches(h, h', s.id) && s'.id == s.id && NodeRel(h', book, s', tally')
  }

  ghost predicate AllSound(h: Hist, events: seq<ApplyEvent>) {
    forall i {:trigger events[i]} | 0 <= i < |events| :: EventSound(h, events[i])
  }

  ghost predicate Ready(h: Hist, book: map<NodeId, PeerAddress>, s: NodeState, tally: set<NodeId>) {
    Inv(h) && ClientsOnly(h) && NodeRel(h, book, s, tally) && book.Keys == Members(h)
  }

  // ------------------------------------------------------------------------------------------
  // Pieces
  // ------------------------------------------------------------------------------------------

  lemma QuorumOf(book: map<NodeId, PeerAddress>, h: Hist, s: NodeState, q: set<NodeId>)
    requires Fixed(book, s) && book.Keys == Members(h) && q <= Members(h) && IsMajority(|q|, |s.peers|)
    ensures Quorum(Members(h), q)
  {
    assert book.Keys == s.peers.Keys + {s.id};
    assert |s.peers.Keys| == |s.peers|;
  }

  lemma TermFacts(h: Hist, s: NodeState)
    requires Inv(h) && s.id in h.log && s.id in h.term
    ensures Coherent(h, h.log[s.id], h.term[s.id]) && FullGapless(h.log[s.id])
  {
  }

  lemma NoVoteAhead(h: Hist, v: NodeId, t: Term)
    requires Shape(h) && v in h.term && t > h.term[v]
    ensures Seat(v, t) !in h.voted && Seat(v, t) !in h.cand
  {
  }

  lemma BumpFrame(h: Hist, book: map<NodeId, PeerAddress>, s: NodeState, tally: set<NodeId>, t: Term)
    requires NodeRel(h, book, s, tally) && Seat(s.id, t) !in h.voted
    requires t > s.currentTerm && Grows(h, BumpTerm(h, s.id, t))
    ensures NodeRel(BumpTerm(h, s.id, t), book, BecomeFollower(s, t), tally)
  {
    CommittedStable(h, BumpTerm(h, s.id, t), h.log[s.id][..s.commitIndex], s.currentTerm, t);
  }

  lemma BumpTouches(h: Hist, n: NodeId, t: Term)
    requires Grows(h, BumpTerm(h, n, t))
    ensures Touches(h, BumpTerm(h, n, t), n) && (ClientsOnly(h) ==> ClientsOnly(BumpTerm(h, n, t)))
  {
  }

  /** Stepping down, to a newer term or within the same one. */
  lemma StepDown(h: Hist, book: map<NodeId, PeerAddress>, s: NodeState, tally: set<NodeId>, t: Term) returns (h': Hist)
    requires Ready(h, book, s, tally)
    ensures Kept(h, h', book, s, BecomeFollower(s, t), tally)
    ensures h' == if t > s.currentTerm then BumpTerm(h, s.id, t) else h
  {
    if t > s.currentTerm {
      h' := BumpTerm(h, s.id, t);
      NoVoteAhead(h, s.id, t);
      BumpTermKeeps(h, s.id, t);
      BumpTouches(h, s.id, t);
      hide Inv, Grows, Touches, ClientsOnly;
      BumpFrame(h, book, s, tally, t);
    } else {
      hide Inv;
      h' := h;
    }
  }

  lemma {:induction false} ApplyEventsSound(h: Hist, full: seq<LogEntry>, l: LogState, from: LogIndex, target: LogIndex, commit: LogIndex, bound: Term)
    requires Represents(full, l) && FullGapless(full)
    requires target <= commit <= |full| && Committed(h, full[..commit], bound)
    ensures AllSound(h, ApplyEvents(l, from, target))
    decreases target
  {
    if target > from {
      ApplyEventsSound(h, full, l, from, target - 1, commit, bound);
      QueriesRefine(full, l, target);
      if l.snapshotIndex < target {
        var e := full[target - 1];
        if e.command.Client? {
          assert Places(full[..commit], ApplyEvent(e.index, e.command));
          assert EventSound(h, ApplyEvent(e.index, e.command));
        }
      }
    }
  }

  lemma CompactAppliedRel(full: seq<LogEntry>, s: NodeState, book: map<NodeId, PeerAddress>)
    requires Represents(full, s.log) && Fixed(book, s) && s.lastApplied <= |full|
    ensures Represents(full, CompactApplied(s).log) && Fixed(book, CompactApplied(s))
    ensures CompactApplied(s).log.snapshotIndex <= Max(s.log.snapshotIndex, s.lastApplied)
    ensures CompactApplied(s) == s.(log := CompactApplied(s).log)
    ensures CompactApplied(s).log.appliedIndex == s.log.appliedIndex
  {
    FoldCommittedClients(s.id, s.base, EntriesUpTo(s.log, s.lastApplied));
    if CompactionDue(s.lastApplied, s.log.snapshotIndex) && s.lastApplied > s.log.snapshotIndex {
      QueriesRefine(full, s.log, s.lastApplied);
      assert full[..s.lastApplied][s.lastApplied - 1] == full[s.lastApplied - 1];
      CompactRefines(full, s.log, full[..s.lastApplied], TermAt(s.log, s.lastApplied));
    }
  }

  /** Raising the commit index to a committed position, applying, and compacting. */
  lemma ApplyRel(h: Hist, book: map<NodeId, PeerAddress>, s: NodeState, tally: set<NodeId>, commit: LogIndex)
    requires NodeRel(h, book, s, tally) && FullGapless(h.log[s.id])
    requires s.commitIndex <= commit <= |h.log[s.id]| && Committed(h, h.log[s.id][..commit], s.currentTerm)
    ensures var out := ApplyCommitted(s.(commitIndex := commit));
            NodeRel(h, book, out.node, tally) && AllSound(h, out.events) && out.node.id == s.id
  {
    hide Committed, Leading, VotedFor;
    var full := h.log[s.id];
    ApplyEventsSound(h, full, s.log, s.lastApplied, commit, commit, s.currentTerm);
    CompactAppliedRel(full, ApplyUpTo(s.(commitIndex := commit), commit), book);
  }

  lemma BackersQuorum(h: Hist, book: map<NodeId, PeerAddress>, s: NodeState, m: LogIndex) returns (q: set<NodeId>)
    requires Fixed(book, s) && book.Keys == Members(h) && LeaderRel(h, s)
    requires m <= LastIndex(s.log) && BackedByMajority(LastIndex(s.log), s.matchIndex, m)
    ensures Quorum(Members(h), q)
    ensures forall v :: v in q && v != s.id ==> Acked(h, v, s.currentTerm) >= m
  {
    hide Leading;
    var backers := BackerSet(s.matchIndex, m);
    q := backers + {s.id};
    assert s.id !in backers;
    assert |q| == Backers(LastIndex(s.log), s.matchIndex, m);
    assert |s.matchIndex.Keys| == |s.peers.Keys| == |s.peers|;
    QuorumOf(book, h, s, q);
  }

  lemma LeaderOwnTerm(h: Hist, t: Term)
    requires Shape(h) && LeadersElected(h) && LeadersHold(h) && t in h.lead
    ensures t in h.leader && t >= 1 && Acked(h, h.leader[t], t) == |h.lead[t]|
  {
    assert Seat(h.leader[t], t) in h.cand;
  }

  /** The commit rule yields a chosen entry. */
  lemma MajorityChosen(h: Hist, book: map<NodeId, PeerAddress>, s: NodeState, m: LogIndex)
    requires Shape(h) && LeadersElected(h) && LeadersHold(h) && book.Keys == Members(h)
    requires s.id in h.log && s.id in h.term && h.term[s.id] == s.currentTerm && Fixed(book, s) && ProgressRel(h, s) && LeaderRel(h, s)
    requires m > s.commitIndex && BackedByMajority(LastIndex(s.log), s.matchIndex, m) && TermAt(s.log, m) == s.currentTerm
    ensures m <= |h.log[s.id]| && Committed(h, h.log[s.id][..m], s.currentTerm)
  {
    hide LeadersElected, LeadersHold, Fixed, BackedByMajority, VotedFor;
    var now := s.currentTerm;
    var full := h.log[s.id];
    QueriesRefine(full, s.log, m);
    LeaderOwnTerm(h, now);
    var q := BackersQuorum(h, book, s, m);
    assert AllAcked(h, q, now, m);
    assert CommittedBy(h, full[..m], now, m);
  }
}
