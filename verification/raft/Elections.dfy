/** The critical sections of an election: standing, voting, counting, winning. */
module RaftElections {
  import opened Options
  import opened RaftTypes
  import opened RaftLogs
  import opened RaftNodeState
  import opened RaftHistory
  import opened RaftActions
  import opened RaftRefinement
  import opened RaftSections

  lemma StandTouches(h: Hist, n: NodeId)
    requires n in h.term && n in h.log && Grows(h, Stand(h, n))
    ensures Touches(h, Stand(h, n), n) && (ClientsOnly(h) ==> ClientsOnly(Stand(h, n)))
  {
  }

  lemma NotLeaderYet(h: Hist, n: NodeId, t: Term)
    requires LeadersElected(h) && Seat(n, t) !in h.cand && h.leader.Keys == h.lead.Keys
    ensures t in h.leader ==> h.leader[t] != n
  {
  }

  /** The state a node stands with. */
  function Standee(s: NodeState): NodeState {
    s.(currentTerm := s.currentTerm + 1, votedFor := Some(s.id), role := Candidate, votesReceived := 1)
  }

  lemma StandNode(h: Hist, book: map<NodeId, PeerAddress>, s: NodeState, tally: set<NodeId>)
    requires NodeRel(h, book, s, tally) && Grows(h, Stand(h, s.id))
    requires s.currentTerm + 1 in h.leader ==> h.leader[s.currentTerm + 1] != s.id
    ensures NodeRel(Stand(h, s.id), book, Standee(s), {s.id})
  {
    CommittedStable(h, Stand(h, s.id), h.log[s.id][..s.commitIndex], s.currentTerm, s.currentTerm + 1);
  }

  lemma StandCall(h: Hist, s: NodeState)
    requires s.id in h.log && s.id in h.term && h.term[s.id] == s.currentTerm && Represents(h.log[s.id], s.log)
    ensures VoteCallRel(Stand(h, s.id), s.id, VoteRequestOf(Standee(s)))
  {
    QueriesRefine(h.log[s.id], s.log, 0);
  }

  lemma StandFacts(h: Hist, n: NodeId)
    requires Inv(h) && ClientsOnly(h) && n in h.term && n in h.log
    ensures var h' := Stand(h, n); Inv(h') && Grows(h, h') && Touches(h, h', n) && ClientsOnly(h')
    ensures h.term[n] + 1 in h.leader ==> h.leader[h.term[n] + 1] != n
  {
    hide LeadersElected, LeadersHold, LogsCoherent, AcksKept, LeadersCover, VotesCover, CandidatesCover, Grows, Touches, ClientsOnly;
    NoVoteAhead(h, n, h.term[n] + 1);
    NotLeaderYet(h, n, h.term[n] + 1);
    StandKeeps(h, n);
    StandTouches(h, n);
  }

  lemma StandRel(h: Hist, book: map<NodeId, PeerAddress>, s: NodeState, tally: set<NodeId>) returns (h': Hist)
    requires Ready(h, book, s, tally)
    ensures h' == Stand(h, s.id) && Kept(h, h', book, s, Standee(s), {s.id})
  {
    hide Inv, Touches, ClientsOnly, Fixed, ProgressRel, RoleRel, VoteRel, Grows;
    h' := Stand(h, s.id);
    StandFacts(h, s.id);
    StandNode(h, book, s, tally);
  }

  /** What a standing node asks for describes the log it stands with, and is the first call of its candidacy. */
  lemma StandAsks(h: Hist, book: map<NodeId, PeerAddress>, s: NodeState, tally: set<NodeId>)
    requires Ready(h, book, s, tally)
    ensures Seat(s.id, s.currentTerm + 1) !in h.cand
    ensures VoteCallRel(Stand(h, s.id), s.id, VoteRequestOf(Standee(s)))
  {
    hide Shape, LeadersElected, LeadersHold, LogsCoherent, AcksKept, LeadersCover, VotesCover, CandidatesCover, ClientsOnly, Fixed, RoleRel, VoteRel, VoteCallRel;
    NoVoteAhead(h, s.id, s.currentTerm + 1);
    StandCall(h, s);
  }

  lemma WinTouches(h: Hist, c: NodeId)
    requires Standing(h, c) && Grows(h, Win(h, c)) && h.lead.Keys == h.leader.Keys
    ensures Touches(h, Win(h, c), c)
  {
  }

  lemma WinClients(h: Hist, c: NodeId)
    requires LogsCoherent(h) && ClientsOnly(h) && Standing(h, c)
    ensures ClientsOnly(Win(h, c))
  {
    forall i: nat | i < |h.log[c]|
      ensures h.log[c][i].command.Client?
    {
      assert Placed(h, h.log[c], i, h.term[c]);
      var lead := h.lead[h.log[c][i].term];
      assert lead[i] == h.log[c][..i + 1][i];
    }
  }

  /** BecomeLeader with membership fixed. */
  ghost function Crowned(s: NodeState): NodeState {
    s.(role := Leader, leaderHint := s.id,
       nextIndex := s.nextIndex + Seeded(s.peers.Keys, LastIndex(s.log) + 1),
       matchIndex := s.matchIndex + Seeded(s.peers.Keys, 0))
  }

  lemma CrownedFixed(book: map<NodeId, PeerAddress>, s: NodeState)
    requires Fixed(book, s)
    ensures BecomeLeader(s) == Crowned(s)
  {
    hide RefreshMembership, Fixed;
    RefreshFixed(book, s);
  }

  lemma CrownedLeads(h: Hist, s: NodeState)
    requires Leading(h, s.id) && Represents(h.log[s.id], s.log)
    requires s.matchIndex.Keys <= s.peers.Keys && s.nextIndex.Keys <= s.peers.Keys
    ensures LeaderRel(h, Crowned(s))
  {
    QueriesRefine(h.log[s.id], s.log, 0);
  }

  lemma WinNode(h: Hist, book: map<NodeId, PeerAddress>, s: NodeState, tally: set<NodeId>)
    requires NodeRel(h, book, s, tally) && Grows(h, Win(h, s.id)) && Leading(Win(h, s.id), s.id)
    ensures NodeRel(Win(h, s.id), book, BecomeLeader(s), tally)
  {
    hide BecomeLeader, Committed, Leading, Grows, LeaderRel, Represents;
    CrownedFixed(book, s);
    CrownedLeads(Win(h, s.id), s);
    CommittedStable(h, Win(h, s.id), h.log[s.id][..s.commitIndex], s.currentTerm, s.currentTerm);
  }

  /** A candidate with a majority of the votes is the first and only winner of its term. */
  lemma MajorityWins(h: Hist, book: map<NodeId, PeerAddress>, s: NodeState, tally: set<NodeId>)
    requires Shape(h) && LeadersElected(h) && book.Keys == Members(h) && Fixed(book, s)
    requires s.id in h.log && s.id in h.term && h.term[s.id] == s.currentTerm && CandidateRel(h, s, tally)
    requires IsMajority(|tally|, |s.peers|)
    ensures Standing(h, s.id) && Quorum(Members(h), tally)
  {
    QuorumOf(book, h, s, tally);
    if s.currentTerm in h.lead {
      assert Elected(h, s.currentTerm, s.id);
      ElectionSafety(h, s.currentTerm, s.id, h.leader[s.currentTerm]);
      assert false;
    }
  }

  lemma WinRel(h: Hist, book: map<NodeId, PeerAddress>, s: NodeState, tally: set<NodeId>) returns (h': Hist)
    requires Ready(h, book, s, tally) && s.role == Candidate && IsMajority(|tally|, |s.peers|)
    ensures Kept(h, h', book, s, BecomeLeader(s), tally)
  {
    h' := Win(h, s.id);
    MajorityWins(h, book, s, tally);
    WinKeeps(h, s.id, tally);
    WinTouches(h, s.id);
    WinClients(h, s.id);
    hide Inv, Touches, ClientsOnly, Fixed, ProgressRel, RoleRel, VoteRel, Leading, Grows;
    WinNode(h, book, s, tally);
  }

  lemma TouchesGrows(h: Hist, h': Hist, n: NodeId)
    requires Touches(h, h', n)
    ensures Grows(h, h') && Members(h') == Members(h)
  {
  }

  /** A node whose own vote already is a majority leads at once. */
  lemma LoneWinRel(h: Hist, book: map<NodeId, PeerAddress>, s: NodeState, tally: set<NodeId>) returns (h': Hist)
    requires Ready(h, book, s, tally) && IsMajority(1, |s.peers|)
    ensures Kept(h, h', book, s, BecomeLeader(Standee(s)), {s.id})
  {
    hide Inv, Touches, ClientsOnly, NodeRel, BecomeLeader;
    var h1 := StandRel(h, book, s, tally);
    TouchesGrows(h, h1, s.id);
    h' := WinRel(h1, book, Standee(s), {s.id});
    TouchesTransitive(h, h1, h', s.id);
  }

  lemma StartElectionFixed(book: map<NodeId, PeerAddress>, s: NodeState)
    requires Fixed(book, s)
    ensures StartElection(s) == if IsMajority(1, |s.peers|) then (BecomeLeader(Standee(s)), false) else (Standee(s), true)
    ensures BecomeLeader(Standee(s)).role == Leader
  {
    hide RefreshMembership;
    RefreshFixed(book, s);
  }

  /** StartElection. */
  lemma ElectRel(h: Hist, book: map<NodeId, PeerAddress>, s: NodeState, tally: set<NodeId>) returns (h': Hist)
    requires Ready(h, book, s, tally)
    ensures Kept(h, h', book, s, StartElection(s).0, {s.id})
    ensures StartElection(s).1 ==>
              && Seat(s.id, s.currentTerm + 1) !in h.cand && StartElection(s).0.currentTerm == s.currentTerm + 1
              && VoteCallRel(h', s.id, VoteRequestOf(StartElection(s).0))
              && StartElection(s).0.peers == book - {s.id}
    ensures !StartElection(s).1 ==> StartElection(s).0.role == Leader
  {
    StartElectionFixed(book, s);
    assert s.peers == book - {s.id};
    hide Inv, Touches, ClientsOnly, StartElection, BecomeLeader, NodeRel, VoteCallRel;
    if IsMajority(1, |s.peers|) {
      h' := LoneWinRel(h, book, s, tally);
    } else {
      h' := StandRel(h, book, s, tally);
      StandAsks(h, book, s, tally);
    }
  }

  lemma GrantTouches(h: Hist, v: NodeId, c: NodeId)
    requires v in h.term && Grows(h, Grant(h, v, c))
    ensures Touches(h, Grant(h, v, c), v) && (ClientsOnly(h) ==> ClientsOnly(Grant(h, v, c)))
  {
  }

  lemma GrantNode(h: Hist, book: map<NodeId, PeerAddress>, s: NodeState, tally: set<NodeId>, c: NodeId)
    requires NodeRel(h, book, s, tally) && Grows(h, Grant(h, s.id, c))
    ensures NodeRel(Grant(h, s.id, c), book, s.(votedFor := Some(c)), tally)
  {
    CommittedStable(h, Grant(h, s.id, c), h.log[s.id][..s.commitIndex], s.currentTerm, s.currentTerm);
  }

  lemma GrantAllowed(h: Hist, s: NodeState, req: VoteRequest)
    requires s.id in h.log && s.id in h.term && h.term[s.id] == s.currentTerm == req.term
    requires VoteRel(h, s) && ProgressRel(h, s) && VoteCallRel(h, req.candidate, req)
    requires s.votedFor.Some? ==> s.votedFor.value == req.candidate
    requires CandidateLogOk(s, req)
    ensures Grantable(h, s.id, req.candidate)
  {
    QueriesRefine(h.log[s.id], s.log, 0);
  }

  lemma GrantRel(h: Hist, book: map<NodeId, PeerAddress>, s: NodeState, tally: set<NodeId>, req: VoteRequest) returns (h': Hist)
    requires Ready(h, book, s, tally) && VoteCallRel(h, req.candidate, req) && s.currentTerm == req.term
    requires s.votedFor.Some? ==> s.votedFor.value == req.candidate
    requires CandidateLogOk(s, req)
    ensures Kept(h, h', book, s, s.(votedFor := Some(req.candidate)), tally)
    ensures VoteGranted(h', req.candidate, s.id, req)
  {
    hide Grantable, VoteCallRel, Inv, Touches, ClientsOnly, Fixed, ProgressRel, RoleRel, VoteRel, Grows;
    h' := Grant(h, s.id, req.candidate);
    GrantAllowed(h, s, req);
    GrantKeeps(h, s.id, req.candidate);
    GrantTouches(h, s.id, req.candidate);
    GrantNode(h, book, s, tally, req.candidate);
  }

  /** HandleRequestVote. */
  lemma VoteSection(h: Hist, book: map<NodeId, PeerAddress>, s: NodeState, tally: set<NodeId>, req: VoteRequest, recent: bool)
      returns (h': Hist)
    requires Ready(h, book, s, tally) && VoteCallRel(h, req.candidate, req)
    ensures var (s', reply) := HandleRequestVote(s, req, recent);
            && Kept(h, h', book, s, s', tally)
            && (reply.granted ==> VoteGranted(h', req.candidate, s.id, req))
  {
    hide Inv, ClientsOnly, ProgressRel, RoleRel, VoteRel;
    h' := h;
    if !recent && req.term >= s.currentTerm {
      var s1 := s;
      if req.term > s.currentTerm {
        h' := StepDown(h, book, s, tally, req.term);
        s1 := BecomeFollower(s, req.term);
        TouchesGrows(h, h', s.id);
        VoteCallFrame(h, h', req.candidate, req);
      }
      if !(s1.votedFor.Some? && s1.votedFor.value != req.candidate) && CandidateLogOk(s1, req) {
        var h1 := h';
        hide Touches;
        h' := GrantRel(h1, book, s1, tally, req);
        TouchesTransitive(h, h1, h', s.id);
      }
    }
  }

  lemma CountedRel(h: Hist, book: map<NodeId, PeerAddress>, s: NodeState, tally: set<NodeId>, voter: NodeId)
    requires NodeRel(h, book, s, tally) && s.role == Candidate && voter in Members(h) && voter !in tally
    requires Seat(voter, s.currentTerm) in h.voted && h.voted[Seat(voter, s.currentTerm)] == s.id
    ensures NodeRel(h, book, s.(votesReceived := s.votesReceived + 1), tally + {voter})
    ensures s.votesReceived + 1 == |tally + {voter}|
  {
    hide Committed, Represents;
  }

  lemma NothingTouched(h: Hist, n: NodeId)
    ensures Touches(h, h, n)
  {
  }

  /** A vote response: a granted vote in the current election is counted once. */
  lemma CountSection(h: Hist, book: map<NodeId, PeerAddress>, s: NodeState, tally: set<NodeId>, voter: NodeId, req: VoteRequest, reply: VoteReply)
      returns (h': Hist, tally': set<NodeId>)
    requires Ready(h, book, s, tally) && voter in Members(h)
    requires reply.granted ==> VoteGranted(h, s.id, voter, req)
    requires s.role == Candidate && req.term == s.currentTerm ==> voter !in tally
    ensures Kept(h, h', book, s, HandleVoteReply(s, req.term, reply), tally')
    ensures tally' == tally || (tally' == tally + {voter} && s.role == Candidate && req.term == s.currentTerm)
  {
    hide Inv, ClientsOnly, NodeRel, BecomeLeader, BecomeFollower, Touches;
    h', tally' := h, tally;
    NothingTouched(h, s.id);
    if reply.term > s.currentTerm {
      h' := StepDown(h, book, s, tally, reply.term);
    } else if s.role == Candidate && req.term == s.currentTerm && reply.granted {
      tally' := tally + {voter};
      var s1 := s.(votesReceived := s.votesReceived + 1);
      CountedRel(h, book, s, tally, voter);
      if IsMajority(s1.votesReceived, |s1.peers|) {
        h' := WinRel(h, book, s1, tally');
      }
    }
  }
}
