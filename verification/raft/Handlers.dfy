/** The handlers of append and install requests and of their answers, and the restart. */
module RaftHandlers {
  import opened Options
  import opened RaftTypes
  import opened RaftLogs
  import opened RaftNodeState
  import opened RaftHistory
  import opened RaftActions
  import opened RaftRefinement
  import opened RaftSections
  import opened RaftElections
  import opened RaftReplication

  // ------------------------------------------------------------------------------------------
  // Append requests
  // ------------------------------------------------------------------------------------------

  /** The receiver of a valid request, before it looks at its log. */
  function Receiver(s: NodeState, term: Term, leader: NodeId): NodeState {
    BecomeFollower(s, term).(leaderHint := leader)
  }

  lemma ReceiverRel(h: Hist, book: map<NodeId, PeerAddress>, s: NodeState, tally: set<NodeId>, term: Term, leader: NodeId) returns (h': Hist)
    requires Ready(h, book, s, tally) && term >= s.currentTerm
    ensures Kept(h, h', book, s, Receiver(s, term, leader), tally)
    ensures Receiver(s, term, leader).currentTerm == term && Receiver(s, term, leader).role == Follower
    ensures Receiver(s, term, leader).log == s.log && Receiver(s, term, leader).id == s.id
    ensures Receiver(s, term, leader).commitIndex == s.commitIndex
  {
    hide Inv, Touches, ClientsOnly;
    h' := StepDown(h, book, s, tally, term);
    assert NodeRel(h', book, Receiver(s, term, leader), tally) by {
      hide Committed, Represents;
    }
  }

  /** The state after the log has been extended, before the commit index moves. */
  function Extended(s: NodeState, req: AppendRequest): NodeState {
    var s1 := Receiver(s, req.term, req.leader);
    s1.(log := AppendEntriesFrom(s1.log, req.prevLogIndex, req.prevLogTerm, req.entries))
  }

  /** HandleAppendEntries with membership fixed. */
  lemma HandleAppendFixed(book: map<NodeId, PeerAddress>, s: NodeState, req: AppendRequest)
    requires req.term >= s.currentTerm
    requires PrevMatches(s.log, req.prevLogIndex, req.prevLogTerm) ==> Fixed(book, Extended(s, req))
    ensures HandleAppendEntries(s, req) ==
            var s1 := Receiver(s, req.term, req.leader);
            if !PrevMatches(s.log, req.prevLogIndex, req.prevLogTerm)
            then (Outcome(s1, []), AppendReply(req.term, false, 0))
            else
              var s3 := Extended(s, req);
              (if req.leaderCommit > s3.commitIndex
               then ApplyCommitted(s3.(commitIndex := Min(req.leaderCommit, LastIndex(s3.log))))
               else Outcome(s3, []),
               AppendReply(req.term, true, req.prevLogIndex + |req.entries|))
  {
    hide RefreshMembership, ApplyCommitted, AppendEntriesFrom, Fixed, PrevMatches;
    if PrevMatches(s.log, req.prevLogIndex, req.prevLogTerm) { RefreshFixed(book, Extended(s, req)); }
  }

  /** Follower commit bound: a request's commit index never reaches past the entries it vouches
      for, so what the follower commits is the leader's log, not a stale tail of its own. */
  lemma FollowerCommitBound(h: Hist, caller: NodeId, req: AppendRequest, full: seq<LogEntry>)
    requires AppendCallRel(h, caller, req)
    requires h.lead[req.term][..req.prevLogIndex + |req.entries|] <= full
    ensures req.leaderCommit <= req.prevLogIndex + |req.entries| <= |full|
    ensures Min(req.leaderCommit, |full|) == req.leaderCommit
    ensures full[..req.leaderCommit] == h.lead[req.term][..req.leaderCommit]
    ensures Committed(h, full[..req.leaderCommit], req.term)
  {
    assert full[..req.leaderCommit] == h.lead[req.term][..req.leaderCommit];
  }

  lemma AdvanceFollower(h: Hist, book: map<NodeId, PeerAddress>, s: NodeState, tally: set<NodeId>, caller: NodeId, req: AppendRequest)
    requires Inv(h) && NodeRel(h, book, s, tally) && s.currentTerm == req.term && AppendCallRel(h, caller, req)
    requires h.lead[req.term][..req.prevLogIndex + |req.entries|] <= h.log[s.id]
    requires req.leaderCommit > s.commitIndex
    ensures var out := ApplyCommitted(s.(commitIndex := Min(req.leaderCommit, LastIndex(s.log))));
            NodeRel(h, book, out.node, tally) && AllSound(h, out.events) && out.node.id == s.id
  {
    hide Inv, AppendCallRel, Committed, ApplyCommitted, VoteRel, RoleRel;
    FollowerCommitBound(h, caller, req, h.log[s.id]);
    QueriesRefine(h.log[s.id], s.log, 0);
    TermFacts(h, s);
    ApplyRel(h, book, s, tally, req.leaderCommit);
  }

  /** The extended follower. */
  lemma ExtendRel(h: Hist, book: map<NodeId, PeerAddress>, s: NodeState, tally: set<NodeId>, caller: NodeId, req: AppendRequest) returns (h': Hist)
    requires Ready(h, book, s, tally) && AppendCallRel(h, caller, req) && req.term >= s.currentTerm
    requires PrevMatches(s.log, req.prevLogIndex, req.prevLogTerm)
    ensures Kept(h, h', book, s, Extended(s, req), tally) && AppendCallRel(h', caller, req)
    ensures s.id in h'.log && h'.lead[req.term][..req.prevLogIndex + |req.entries|] <= h'.log[s.id]
    ensures Acked(h', s.id, req.term) >= req.prevLogIndex + |req.entries|
  {
    hide Inv, Touches, ClientsOnly, Fixed, VoteRel, RoleRel, ProgressRel, Receiver, AppendEntriesFrom, PrevMatches, Committed, AppendCallRel, TermOf, Grows, NodeRel;
    var m := req.prevLogIndex + |req.entries|;
    var s1 := Receiver(s, req.term, req.leader);
    var h1 := ReceiverRel(h, book, s, tally, req.term, req.leader);
    TouchesGrows(h, h1, s.id);
    AppendCallFrame(h, h1, caller, req);
    assert && m <= |h1.lead[req.term]| && req.entries == h1.lead[req.term][req.prevLogIndex..m]
           && req.prevLogTerm == TermOf(h1.lead[req.term], req.prevLogIndex);
    h' := AcceptRel(h1, book, s1, tally, req.term, req.prevLogIndex, m);
    TouchesGrows(h1, h', s.id);
    AppendCallFrame(h1, h', caller, req);
    TouchesTransitive(h, h1, h', s.id);
  }

  lemma NoEvents(h: Hist)
    ensures AllSound(h, [])
  {
  }

  lemma RejectRel(h: Hist, book: map<NodeId, PeerAddress>, s: NodeState, tally: set<NodeId>, req: AppendRequest) returns (h': Hist)
    requires Ready(h, book, s, tally)
    requires req.term < s.currentTerm || !PrevMatches(s.log, req.prevLogIndex, req.prevLogTerm)
    ensures var (out, reply) := HandleAppendEntries(s, req);
            Kept(h, h', book, s, out.node, tally) && out.events == [] && !reply.success
  {
    hide Inv, Touches, ClientsOnly, NodeRel;
    if req.term < s.currentTerm {
      h' := h;
      NothingTouched(h, s.id);
    } else {
      h' := ReceiverRel(h, book, s, tally, req.term, req.leader);
      HandleAppendFixed(book, s, req);
      hide HandleAppendEntries;
    }
  }

  lemma AcceptSection(h: Hist, book: map<NodeId, PeerAddress>, s: NodeState, tally: set<NodeId>, caller: NodeId, req: AppendRequest)
      returns (h': Hist)
    requires Ready(h, book, s, tally) && AppendCallRel(h, caller, req)
    requires req.term >= s.currentTerm && PrevMatches(s.log, req.prevLogIndex, req.prevLogTerm)
    ensures var (out, reply) := HandleAppendEntries(s, req);
            && Kept(h, h', book, s, out.node, tally) && AllSound(h', out.events)
            && Acked(h', s.id, req.term) >= req.prevLogIndex + |req.entries|
  {
    hide Inv, Touches, ClientsOnly, AppendCallRel, VoteRel, RoleRel, ProgressRel, AllSound;
    h' := ExtendRel(h, book, s, tally, caller, req);
    assert Fixed(book, Extended(s, req));
    hide Fixed;
    HandleAppendFixed(book, s, req);
    NoEvents(h');
    var s3 := Extended(s, req);
    assert s3.currentTerm == req.term;
    hide HandleAppendEntries, Extended, ApplyCommitted;
    if req.leaderCommit > s3.commitIndex {
      AdvanceFollower(h', book, s3, tally, caller, req);
    }
  }

  /** HandleAppendEntries. A successful answer acknowledges everything the request covered. */
  lemma AppendSection(h: Hist, book: map<NodeId, PeerAddress>, s: NodeState, tally: set<NodeId>, caller: NodeId, req: AppendRequest)
      returns (h': Hist)
    requires Ready(h, book, s, tally) && AppendCallRel(h, caller, req)
    ensures var (out, reply) := HandleAppendEntries(s, req);
            && Kept(h, h', book, s, out.node, tally) && AllSound(h', out.events)
            && (reply.success ==> Acked(h', s.id, req.term) >= req.prevLogIndex + |req.entries|)
  {
    hide Inv, Touches, ClientsOnly, NodeRel, HandleAppendEntries, AppendCallRel;
    if req.term < s.currentTerm || !PrevMatches(s.log, req.prevLogIndex, req.prevLogTerm) {
      h' := RejectRel(h, book, s, tally, req);
    } else {
      h' := AcceptSection(h, book, s, tally, caller, req);
    }
  }

  // ------------------------------------------------------------------------------------------
  // Append answers
  // ------------------------------------------------------------------------------------------

  lemma MatchRel(h: Hist, book: map<NodeId, PeerAddress>, s: NodeState, tally: set<NodeId>, peer: NodeId, matched: LogIndex, next: LogIndex)
    requires NodeRel(h, book, s, tally) && s.role == Leader && peer in s.peers
    requires matched <= Acked(h, peer, s.currentTerm) && 1 <= next <= |h.log[s.id]| + 1
    ensures NodeRel(h, book, Acknowledged(s, peer, matched, next), tally)
  {
    hide Committed, Represents;
  }

  lemma AckWithin(h: Hist, n: NodeId, peer: NodeId)
    requires Shape(h) && Leading(h, n)
    ensures Acked(h, peer, h.term[n]) <= |h.log[n]|
  {
  }

  lemma LeaderIndices(h: Hist, book: map<NodeId, PeerAddress>, s: NodeState, tally: set<NodeId>, peer: NodeId)
    requires Inv(h) && NodeRel(h, book, s, tally) && s.role == Leader && peer in s.peers
    ensures peer in s.matchIndex && s.matchIndex[peer] <= Acked(h, peer, s.currentTerm) <= |h.log[s.id]|
    ensures peer in s.nextIndex && 1 <= s.nextIndex[peer] <= |h.log[s.id]| + 1
  {
    AckWithin(h, s.id, peer);
    hide Inv, ProgressRel, VoteRel, Fixed;
  }

  function Acknowledged(s: NodeState, peer: NodeId, matched: LogIndex, next: LogIndex): NodeState {
    s.(matchIndex := s.matchIndex[peer := matched], nextIndex := s.nextIndex[peer := next])
  }

  lemma ReplyForm(s: NodeState, peer: NodeId, req: AppendRequest, reply: AppendReply)
    requires s.role == Leader && peer in s.peers && peer in s.matchIndex && peer in s.nextIndex
    requires req.term == s.currentTerm && reply.term <= s.currentTerm
    ensures var matched := Max(s.matchIndex[peer], req.prevLogIndex + |req.entries|);
            reply.success ==> HandleAppendReply(s, peer, req, reply) == MaybeAdvanceCommitIndex(Acknowledged(s, peer, matched, matched + 1))
    ensures var next := s.nextIndex[peer];
            !reply.success ==> HandleAppendReply(s, peer, req, reply)
                               == Outcome(Acknowledged(s, peer, s.matchIndex[peer], if next > 1 then next - 1 else next), [])
  {
    hide MaybeAdvanceCommitIndex;
    assert s.matchIndex[peer := s.matchIndex[peer]] == s.matchIndex;
  }

  lemma AckedRel(h: Hist, book: map<NodeId, PeerAddress>, s: NodeState, tally: set<NodeId>, peer: NodeId, req: AppendRequest, reply: AppendReply)
    requires Ready(h, book, s, tally) && s.role == Leader && peer in s.peers && req.term == s.currentTerm && reply.term <= s.currentTerm
    requires reply.success ==> Acked(h, peer, req.term) >= req.prevLogIndex + |req.entries|
    ensures var out := HandleAppendReply(s, peer, req, reply);
            out.node.id == s.id && NodeRel(h, book, out.node, tally) && AllSound(h, out.events)
  {
    hide Inv, ClientsOnly, MaybeAdvanceCommitIndex, NodeRel, HandleAppendReply;
    LeaderIndices(h, book, s, tally, peer);
    ReplyForm(s, peer, req, reply);
    if reply.success {
      var matched := Max(s.matchIndex[peer], req.prevLogIndex + |req.entries|);
      MatchRel(h, book, s, tally, peer, matched, matched + 1);
      AdvanceRel(h, book, Acknowledged(s, peer, matched, matched + 1), tally);
    } else {
      var next := s.nextIndex[peer];
      MatchRel(h, book, s, tally, peer, s.matchIndex[peer], if next > 1 then next - 1 else next);
    }
  }

  /** The response to an append request. */
  lemma AppendDoneSection(h: Hist, book: map<NodeId, PeerAddress>, s: NodeState, tally: set<NodeId>, peer: NodeId, req: AppendRequest, reply: AppendReply)
      returns (h': Hist)
    requires Ready(h, book, s, tally)
    requires reply.success ==> Acked(h, peer, req.term) >= req.prevLogIndex + |req.entries|
    ensures var out := HandleAppendReply(s, peer, req, reply);
            Kept(h, h', book, s, out.node, tally) && AllSound(h', out.events)
  {
    hide Inv, Touches, ClientsOnly, NodeRel;
    h' := h;
    NothingTouched(h, s.id);
    if peer in s.peers && reply.term > s.currentTerm {
      h' := StepDown(h, book, s, tally, reply.term);
    } else if peer in s.peers && s.role == Leader && req.term == s.currentTerm {
      hide HandleAppendReply;
      AckedRel(h, book, s, tally, peer, req, reply);
    }
  }

  // ------------------------------------------------------------------------------------------
  // Snapshots
  // ------------------------------------------------------------------------------------------

  /** SendInstallSnapshot: the declared boundary is the applied index, which is committed. */
  lemma SendSnapshotRel(h: Hist, book: map<NodeId, PeerAddress>, s: NodeState, tally: set<NodeId>)
    requires NodeRel(h, book, s, tally) && s.role == Leader
    ensures InstallCallRel(h, book, s.id, SnapshotRequestOf(s))
  {
    hide Committed, Represents, TermAt;
    var full := h.log[s.id];
    QueriesRefine(full, s.log, s.lastApplied);
    CommittedShorter(h, full[..s.commitIndex], s.lastApplied, s.currentTerm);
    assert full[..s.commitIndex][..s.lastApplied] == full[..s.lastApplied];
    assert s.peers[s.id := s.ownAddress] == book;
  }

  /** A receiver whose boundary already covers the snapshot holds all of it. */
  lemma BoundaryCovers(h: Hist, book: map<NodeId, PeerAddress>, s: NodeState, tally: set<NodeId>, caller: NodeId, req: SnapshotRequest)
    requires Inv(h) && NodeRel(h, book, s, tally) && InstallCallRel(h, book, caller, req)
    requires s.currentTerm == req.term && req.lastIncludedIndex <= s.log.snapshotIndex
    ensures Ackable(h, s.id, req.lastIncludedIndex)
  {
    hide Inv, Committed, Fixed, VoteRel, RoleRel, Represents;
    var full := h.log[s.id];
    var prefix := h.lead[req.term][..req.lastIncludedIndex];
    CommittedAgree(h, prefix, req.term, full[..s.commitIndex], s.currentTerm);
    assert prefix <= full[..s.commitIndex];
  }

  /** First section of HandleInstallSnapshot. */
  lemma BeginSection(h: Hist, book: map<NodeId, PeerAddress>, s: NodeState, tally: set<NodeId>, caller: NodeId, req: SnapshotRequest)
      returns (h': Hist)
    requires Ready(h, book, s, tally) && InstallCallRel(h, book, caller, req)
    ensures var (s', reply) := BeginInstall(s, req);
            && Kept(h, h', book, s, s', tally)
            && (reply.None? ==> s'.currentTerm >= req.term)
            && (reply.Some? && reply.value.term <= req.term ==> Acked(h', s.id, req.term) >= req.lastIncludedIndex)
  {
    hide Inv, Touches, ClientsOnly, NodeRel;
    h' := h;
    NothingTouched(h, s.id);
    if req.term >= s.currentTerm {
      var s1 := Receiver(s, req.term, req.leader);
      var h1 := ReceiverRel(h, book, s, tally, req.term, req.leader);
      h' := h1;
      TouchesGrows(h, h1, s.id);
      InstallCallFrame(h, h1, book, caller, req);
      hide InstallCallRel, Grows;
      if req.lastIncludedIndex <= s1.log.snapshotIndex {
        BoundaryCovers(h1, book, s1, tally, caller, req);
        h' := AckRel(h1, book, s1, tally, req.lastIncludedIndex);
        TouchesTransitive(h, h1, h', s.id);
      }
    }
  }

  /** The state after the snapshot has replaced the log's beginning. */
  function Installed(s: NodeState, req: SnapshotRequest): NodeState {
    ApplyUpTo(s.(log := CompactTo(s.log, req.lastIncludedIndex, req.lastIncludedTerm),
                 commitIndex := Max(s.commitIndex, req.lastIncludedIndex)), req.lastIncludedIndex)
  }

  lemma FinishFixed(book: map<NodeId, PeerAddress>, s: NodeState, req: SnapshotRequest)
    requires Fixed(book, Installed(s, req)) && req.membership == book && req.lastIncludedIndex > s.log.snapshotIndex
    ensures FinishInstall(s, req) == (Installed(s, req), SnapshotReply(s.currentTerm))
  {
    hide RefreshMembership, CompactTo;
    var s3 := Installed(s, req);
    RefreshFixed(book, s3);
  }

  /** The log after the install, on the whole history. */
  lemma InstallAdopts(h: Hist, s: NodeState, prefix: seq<LogEntry>, bound: Term)
    requires Inv(h) && s.id in h.log && s.id in h.term && h.term[s.id] == s.currentTerm && ProgressRel(h, s)
    requires Committed(h, prefix, bound) && bound <= s.currentTerm && |prefix| > s.log.snapshotIndex
    ensures var full' := Adopt(h.log[s.id], prefix);
            && Represents(full', CompactTo(s.log, |prefix|, TermOf(prefix, |prefix|)))
            && Coherent(h, full', s.currentTerm) && Carries(h, h.log[s.id], full')
  {
    hide Inv, Committed, Carries, Coherent;
    var full := h.log[s.id];
    TermFacts(h, s);
    CommittedCoherent(h, prefix, bound);
    AdoptCommittedCarries(h, full, prefix, bound);
    if |prefix| <= |full| && TermOf(full, |prefix|) == TermOf(prefix, |prefix|) {
      LogMatching(h, full, s.currentTerm, prefix, bound, |prefix|);
    }
    CoherentStable(h, h, prefix, bound, s.currentTerm);
    CompactRefines(full, s.log, prefix, TermOf(prefix, |prefix|));
  }

  /** Afterwards everything up to the larger of the old commit index and the snapshot is committed. */
  lemma InstallCommits(h: Hist, s: NodeState, prefix: seq<LogEntry>, bound: Term)
    requires Inv(h) && s.id in h.log && ProgressRel(h, s)
    requires Committed(h, prefix, bound) && bound <= s.currentTerm
    ensures var full' := Adopt(h.log[s.id], prefix); var n := Max(s.commitIndex, |prefix|);
            n <= |full'| && Committed(h, full'[..n], s.currentTerm)
  {
    hide Inv, Committed;
    CommittedAgree(h, prefix, bound, h.log[s.id][..s.commitIndex], s.currentTerm);
    CommittedStable(h, h, prefix, bound, s.currentTerm);
    AdoptedCommit(h.log[s.id], prefix, s.commitIndex);
  }

  lemma AdoptedCommit(full: seq<LogEntry>, prefix: seq<LogEntry>, commit: nat)
    requires commit <= |full| && (prefix <= full[..commit] || full[..commit] <= prefix)
    ensures var full' := Adopt(full, prefix); var n := Max(commit, |prefix|);
            n <= |full'| && full'[..n] == if commit >= |prefix| then full[..commit] else prefix
  {
  }

  lemma InstalledNode(h: Hist, book: map<NodeId, PeerAddress>, s: NodeState, tally: set<NodeId>, full': seq<LogEntry>, req: SnapshotRequest)
    requires NodeRel(h, book, s, tally) && Grows(h, SetLog(h, s.id, full'))
    requires s.role == Leader ==> full' == h.log[s.id]
    requires req.lastIncludedIndex > s.log.snapshotIndex
    requires Represents(full', CompactTo(s.log, req.lastIncludedIndex, req.lastIncludedTerm))
    requires var n := Max(s.commitIndex, req.lastIncludedIndex); n <= |full'| && Committed(h, full'[..n], s.currentTerm)
    requires forall k {:trigger full'[k]} | 0 <= k < |full'| :: full'[k].command.Client?
    ensures NodeRel(SetLog(h, s.id, full'), book, Installed(s, req), tally)
  {
    hide Grows, RoleRel, Committed;
    CommittedStable(h, SetLog(h, s.id, full'), full'[..Max(s.commitIndex, req.lastIncludedIndex)], s.currentTerm, s.currentTerm);
    InstalledRoles(h, s, tally, full', req);
  }

  lemma InstalledRoles(h: Hist, s: NodeState, tally: set<NodeId>, full': seq<LogEntry>, req: SnapshotRequest)
    requires RoleRel(h, s, tally) && s.id in h.log && (s.role == Leader ==> full' == h.log[s.id])
    ensures RoleRel(SetLog(h, s.id, full'), Installed(s, req), tally)
  {
    hide CompactTo;
  }

  /** A leader's log already holds every snapshot another leader may still be delivering to it. */
  lemma LeaderKeepsLog(h: Hist, book: map<NodeId, PeerAddress>, s: NodeState, tally: set<NodeId>, prefix: seq<LogEntry>, bound: Term)
    requires Inv(h) && NodeRel(h, book, s, tally) && s.role == Leader
    requires Committed(h, prefix, bound) && bound <= s.currentTerm
    ensures Adopt(h.log[s.id], prefix) == h.log[s.id]
  {
    CommittedInLeader(h, prefix, bound, s.currentTerm);
  }

  /** Everything the installed log has to offer. */
  ghost predicate InstallSound(h: Hist, s: NodeState, full': seq<LogEntry>, req: SnapshotRequest) {
    && s.id in h.log
    && Represents(full', CompactTo(s.log, req.lastIncludedIndex, req.lastIncludedTerm))
    && Coherent(h, full', s.currentTerm) && Carries(h, h.log[s.id], full')
    && (var n := Max(s.commitIndex, req.lastIncludedIndex); n <= |full'| && Committed(h, full'[..n], s.currentTerm))
    && (s.role == Leader ==> full' == h.log[s.id])
  }

  lemma InstallFacts(h: Hist, book: map<NodeId, PeerAddress>, s: NodeState, tally: set<NodeId>, prefix: seq<LogEntry>, req: SnapshotRequest)
    requires Inv(h) && NodeRel(h, book, s, tally) && req.term <= s.currentTerm
    requires Committed(h, prefix, req.term) && |prefix| == req.lastIncludedIndex > s.log.snapshotIndex
    requires TermOf(prefix, |prefix|) == req.lastIncludedTerm
    ensures InstallSound(h, s, Adopt(h.log[s.id], prefix), req)
  {
    hide Inv, Fixed, VoteRel, RoleRel, ProgressRel, Coherent, Carries, Committed, CompactTo, Represents;
    InstallAdopts(h, s, prefix, req.term);
    InstallCommits(h, s, prefix, req.term);
    if s.role == Leader { LeaderKeepsLog(h, book, s, tally, prefix, req.term); }
  }

  /** Installing the snapshot, whatever happened to the node during the restore. */
  lemma InstalledRel(h: Hist, book: map<NodeId, PeerAddress>, s: NodeState, tally: set<NodeId>, prefix: seq<LogEntry>, req: SnapshotRequest) returns (h': Hist)
    requires Ready(h, book, s, tally) && req.term <= s.currentTerm
    requires Committed(h, prefix, req.term) && |prefix| == req.lastIncludedIndex > s.log.snapshotIndex
    requires TermOf(prefix, |prefix|) == req.lastIncludedTerm
    ensures Kept(h, h', book, s, Installed(s, req), tally)
    ensures h'.lead == h.lead && s.id in h'.log && prefix <= h'.log[s.id]
  {
    hide Inv, Touches, ClientsOnly, Fixed, VoteRel, RoleRel, ProgressRel, Coherent, Carries, Committed, CompactTo, Represents, Grows, TermOf, Adopt;
    var full' := Adopt(h.log[s.id], prefix);
    h' := SetLog(h, s.id, full');
    InstallFacts(h, book, s, tally, prefix, req);
    SetLogKeeps(h, s.id, full');
    SetLogTouches(h, s.id, full');
    CoherentClients(h, full', s.currentTerm);
    InstalledNode(h, book, s, tally, full', req);
  }

  /** Installing when the snapshot reaches past the boundary. */
  lemma FinishInstalls(h: Hist, book: map<NodeId, PeerAddress>, s: NodeState, tally: set<NodeId>, caller: NodeId, req: SnapshotRequest)
      returns (h': Hist)
    requires Ready(h, book, s, tally) && InstallCallRel(h, book, caller, req) && req.term <= s.currentTerm
    requires req.lastIncludedIndex > s.log.snapshotIndex
    ensures Kept(h, h', book, s, FinishInstall(s, req).0, tally) && FinishInstall(s, req).1.term == s.currentTerm
    ensures FinishInstall(s, req).0.currentTerm == s.currentTerm
    ensures s.currentTerm == req.term ==> Ackable(h', s.id, req.lastIncludedIndex)
  {
    hide Inv, Touches, ClientsOnly, NodeRel, FinishInstall, Installed, Committed;
    var prefix := h.lead[req.term][..req.lastIncludedIndex];
    assert TermOf(prefix, |prefix|) == req.lastIncludedTerm;
    h' := InstalledRel(h, book, s, tally, prefix, req);
    InstalledFixed(h', book, s, tally, req);
    FinishFixed(book, s, req);
    if s.currentTerm == req.term {
      AckableIn(h', book, Installed(s, req), tally, req.term, req.lastIncludedIndex);
    }
  }

  /** Second section of HandleInstallSnapshot: safe in whatever term and role the node is by then. */
  lemma FinishSection(h: Hist, book: map<NodeId, PeerAddress>, s: NodeState, tally: set<NodeId>, caller: NodeId, req: SnapshotRequest)
      returns (h': Hist)
    requires Ready(h, book, s, tally) && InstallCallRel(h, book, caller, req) && req.term <= s.currentTerm
    ensures var (s', reply) := FinishInstall(s, req);
            && Kept(h, h', book, s, s', tally)
            && (reply.term <= req.term ==> Acked(h', s.id, req.term) >= req.lastIncludedIndex)
  {
    hide Inv, Touches, ClientsOnly, NodeRel, FinishInstall, InstallCallRel, Ackable;
    var s1 := FinishInstall(s, req).0;
    var h1 := h;
    NothingTouched(h, s.id);
    if req.lastIncludedIndex > s.log.snapshotIndex {
      h1 := FinishInstalls(h, book, s, tally, caller, req);
    } else {
      FinishSkipped(s, req);
      if s.currentTerm == req.term { BoundaryCovers(h, book, s, tally, caller, req); }
    }
    h' := h1;
    if s.currentTerm == req.term {
      TouchesGrows(h, h1, s.id);
      h' := AckRel(h1, book, s1, tally, req.lastIncludedIndex);
      TouchesTransitive(h, h1, h', s.id);
    }
  }

  lemma FinishSkipped(s: NodeState, req: SnapshotRequest)
    requires req.lastIncludedIndex <= s.log.snapshotIndex
    ensures FinishInstall(s, req) == (s, SnapshotReply(s.currentTerm))
  {
  }

  lemma InstalledFixed(h: Hist, book: map<NodeId, PeerAddress>, s: NodeState, tally: set<NodeId>, req: SnapshotRequest)
    requires NodeRel(h, book, Installed(s, req), tally)
    ensures Fixed(book, Installed(s, req)) && Installed(s, req).currentTerm == s.currentTerm && Installed(s, req).id == s.id
  {
    hide Fixed, ProgressRel, RoleRel, VoteRel, CompactTo;
  }

  lemma AckableIn(h: Hist, book: map<NodeId, PeerAddress>, s: NodeState, tally: set<NodeId>, t: Term, i: LogIndex)
    requires NodeRel(h, book, s, tally) && t in h.lead && i <= |h.lead[t]| && s.currentTerm == t
    requires s.id in h.log && h.lead[t][..i] <= h.log[s.id]
    ensures Ackable(h, s.id, i)
  {
    hide Fixed, ProgressRel, RoleRel, VoteRel;
  }

  lemma SnapshotAckedRel(h: Hist, book: map<NodeId, PeerAddress>, s: NodeState, tally: set<NodeId>, peer: NodeId, index: LogIndex)
    requires Inv(h) && NodeRel(h, book, s, tally) && s.role == Leader && peer in s.peers
    requires Acked(h, peer, s.currentTerm) >= index
    ensures NodeRel(h, book, Acknowledged(s, peer, index, index + 1), tally)
  {
    hide Inv, NodeRel;
    LeaderIndices(h, book, s, tally, peer);
    MatchRel(h, book, s, tally, peer, index, index + 1);
  }

  /** The response to an install request. */
  lemma SnapshotDoneSection(h: Hist, book: map<NodeId, PeerAddress>, s: NodeState, tally: set<NodeId>, peer: NodeId, req: SnapshotRequest, reply: SnapshotReply)
      returns (h': Hist)
    requires Ready(h, book, s, tally)
    requires reply.term <= req.term ==> Acked(h, peer, req.term) >= req.lastIncludedIndex
    ensures Kept(h, h', book, s, HandleSnapshotReply(s, peer, req, reply), tally)
  {
    hide Inv, Touches, ClientsOnly, NodeRel;
    h' := h;
    NothingTouched(h, s.id);
    if peer in s.peers && reply.term > s.currentTerm {
      h' := StepDown(h, book, s, tally, reply.term);
    } else if peer in s.peers && s.role == Leader && req.term == s.currentTerm {
      SnapshotAckedRel(h, book, s, tally, peer, req.lastIncludedIndex);
    }
  }

  // ------------------------------------------------------------------------------------------
  // Restart
  // ------------------------------------------------------------------------------------------

  /** A restart changes nothing in the history: term, vote, log and applied index are durable. */
  lemma RestartSection(h: Hist, book: map<NodeId, PeerAddress>, s: NodeState, tally: set<NodeId>)
    requires Ready(h, book, s, tally)
    ensures Kept(h, h, book, s, Restart(s), tally)
  {
    hide Inv, Touches, ClientsOnly, NodeRel;
    NothingTouched(h, s.id);
    RestartNode(h, book, s, tally);
  }

  lemma RestartNode(h: Hist, book: map<NodeId, PeerAddress>, s: NodeState, tally: set<NodeId>)
    requires NodeRel(h, book, s, tally)
    ensures NodeRel(h, book, Restart(s), tally)
  {
    hide Committed, Represents;
    CommittedShorter(h, h.log[s.id][..s.commitIndex], s.lastApplied, s.currentTerm);
    assert h.log[s.id][..s.commitIndex][..s.lastApplied] == h.log[s.id][..s.lastApplied];
  }
}
