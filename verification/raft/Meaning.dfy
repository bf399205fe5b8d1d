/**
 What the sections of a node do, said of its log, its messages and its counters alone: which entries reach
 the state machine, who gets a vote, when a leader commits, and that replication makes progress.
 */
module RaftMeaning {
  import opened FiniteSets
  import opened Options
  import opened RaftTypes
  import opened RaftLogs
  import opened RaftNodeState

  // ------------------------------------------------------------------------------------------
  // Applying
  // ------------------------------------------------------------------------------------------

  /** The client command the log holds at an index. */
  function CommandAt(l: LogState, index: LogIndex): Option<Command> {
    if At(l, index).Some? && At(l, index).value.command.Client? then Some(At(l, index).value.command) else None
  }

  ghost predicate AscendingEvents(events: seq<ApplyEvent>) { forall i, j :: 0 <= i < j < |events| ==> events[i].index < events[j].index }

  /** Exactly the client entries with an index in (low, high], in order. */
  ghost predicate Delivers(l: LogState, low: LogIndex, high: LogIndex, events: seq<ApplyEvent>) {
    && AscendingEvents(events)
    && forall e: ApplyEvent :: e in events <==> low < e.index <= high && CommandAt(l, e.index) == Some(e.command)
  }

  lemma EntryIndex(l: LogState, index: LogIndex)
    requires Gapless(l) && At(l, index).Some?
    ensures At(l, index).value.index == index
  {
  }

  lemma {:induction false} EventsDelivered(l: LogState, low: LogIndex, high: LogIndex)
    requires Gapless(l)
    ensures Delivers(l, low, high, ApplyEvents(l, low, high))
    decreases high
  {
    hide At, Gapless;
    if high > low {
      EventsDelivered(l, low, high - 1);
      var before, events := ApplyEvents(l, low, high - 1), ApplyEvents(l, low, high);
      if CommandAt(l, high).Some? {
        EntryIndex(l, high);
        assert events == before + [ApplyEvent(high, CommandAt(l, high).value)];
        forall i, j | 0 <= i < j < |events| ensures events[i].index < events[j].index { assert events[i] in before; }
      } else {
        assert events == before;
      }
    }
  }

  /** Applying hands the state machine exactly the client entries above the applied index and up to the
      commit index, in ascending order, each once; it moves the applied index there and nothing else but
      what compaction moves. */
  lemma ApplyMeaning(s: NodeState)
    requires Gapless(s.log)
    ensures var out := ApplyCommitted(s);
            && Delivers(s.log, s.lastApplied, s.commitIndex, out.events)
            && out.node.lastApplied == Max(s.lastApplied, s.commitIndex)
            && out.node == s.(lastApplied := out.node.lastApplied, log := out.node.log, base := out.node.base)
  {
    hide ApplyEvents, CompactTo, FoldCommitted;
    EventsDelivered(s.log, s.lastApplied, s.commitIndex);
  }

  lemma CompactKeeps(l: LogState, index: LogIndex, i: LogIndex)
    requires l.snapshotIndex < index <= LastIndex(l)
    ensures var l' := CompactTo(l, index, TermAt(l, index));
            && l'.snapshotIndex == index && l'.snapshotTerm == TermAt(l, index) && LastIndex(l') == LastIndex(l) && l'.appliedIndex == l.appliedIndex
            && (i > index ==> At(l', i) == At(l, i))
  {
  }

  lemma MarkKeeps(l: LogState, applied: LogIndex, i: LogIndex)
    ensures var l' := l.(appliedIndex := applied); LastIndex(l') == LastIndex(l) && At(l', i) == At(l, i) && TermAt(l', i) == TermAt(l, i)
  {
  }

  /** After applying, the log holds fewer applied entries than the threshold; what is compacted away is
      applied, and whatever stays is as it was. */
  lemma ApplyCompacts(s: NodeState, i: LogIndex)
    requires s.log.snapshotIndex <= s.lastApplied <= s.commitIndex <= LastIndex(s.log)
    ensures var s' := ApplyCommitted(s).node;
            && s'.log.snapshotIndex <= s'.lastApplied < s'.log.snapshotIndex + COMPACTION_THRESHOLD
            && LastIndex(s'.log) == LastIndex(s.log) && (i > s'.log.snapshotIndex ==> At(s'.log, i) == At(s.log, i))
            && (s'.log.snapshotIndex != s.log.snapshotIndex ==> s'.log.snapshotTerm == TermAt(s.log, s'.log.snapshotIndex))
  {
    hide ApplyEvents, FoldCommitted, CompactTo, At, TermAt, LastIndex;
    MarkKeeps(s.log, s.commitIndex, i);
    MarkKeeps(s.log, s.commitIndex, s.commitIndex);
    var applied := ApplyUpTo(s, s.commitIndex);
    if CompactionDue(applied.lastApplied, applied.log.snapshotIndex) { CompactKeeps(applied.log, applied.lastApplied, i); }
  }

  // ------------------------------------------------------------------------------------------
  // Voting
  // ------------------------------------------------------------------------------------------

  /** The voter's log ends in a later term, or in the same term further on. */
  predicate BehindVoter(l: LogState, req: VoteRequest) {
    LastTerm(l) > req.lastLogTerm || (LastTerm(l) == req.lastLogTerm && LastIndex(l) > req.lastLogIndex)
  }

  /** No other candidate has the voter's vote of the request's term, which is the voter's own or a later one. */
  predicate VoteFree(s: NodeState, req: VoteRequest) {
    req.term > s.currentTerm || (req.term == s.currentTerm && (s.votedFor == None || s.votedFor == Some(req.candidate)))
  }

  /** A vote is granted exactly if it is free, no leader was in contact lately, and the candidate is not
      behind; then it is recorded, in the request's term. Log and indices stay, whatever the answer. */
  lemma VoteMeaning(s: NodeState, req: VoteRequest, recentLeader: bool)
    ensures var (s', reply) := HandleRequestVote(s, req, recentLeader);
            && (reply.granted <==> !recentLeader && VoteFree(s, req) && !BehindVoter(s.log, req))
            && (reply.granted ==> s'.votedFor == Some(req.candidate) && s'.currentTerm == req.term)
            && reply.term == s'.currentTerm == (if recentLeader then s.currentTerm else Max(s.currentTerm, req.term))
            && (!reply.granted && req.term <= s.currentTerm ==> s' == s)
            && s'.log == s.log && s'.commitIndex == s.commitIndex && s'.lastApplied == s.lastApplied && s'.peers == s.peers
  {
  }

  /** Terms never fall along a log. */
  ghost predicate TermsAscend(full: seq<LogEntry>) { forall i, j :: 0 <= i <= j < |full| ==> full[i].term <= full[j].term }

  /** A candidate whose whole log extends the voter's gets a free vote. */
  lemma ExtensionGranted(s: NodeState, mine: seq<LogEntry>, theirs: seq<LogEntry>, term: Term, candidate: NodeId)
    requires Represents(mine, s.log) && mine <= theirs && TermsAscend(theirs)
    requires VoteFree(s, VoteRequest(term, candidate, |theirs|, TermOf(theirs, |theirs|)))
    ensures HandleRequestVote(s, VoteRequest(term, candidate, |theirs|, TermOf(theirs, |theirs|)), false).1.granted
  {
    hide HandleRequestVote;
    QueriesRefine(mine, s.log, 0);
    VoteMeaning(s, VoteRequest(term, candidate, |theirs|, TermOf(theirs, |theirs|)), false);
    if mine != [] { assert mine[|mine| - 1] == theirs[|mine| - 1]; }
  }

  /** What a candidate asks for speaks for its whole log. */
  lemma RequestSpeaksForLog(s: NodeState, full: seq<LogEntry>)
    requires Represents(full, s.log)
    ensures VoteRequestOf(s) == VoteRequest(s.currentTerm, s.id, |full|, TermOf(full, |full|))
  {
    QueriesRefine(full, s.log, 0);
  }

  // ------------------------------------------------------------------------------------------
  // Winning
  // ------------------------------------------------------------------------------------------

  /** More than half of the node and its peers. */
  predicate Majority(votes: nat, s: NodeState) { 2 * votes > |s.peers| + 1 }

  /** A granted vote for the running candidacy is counted, and makes a leader exactly when it completes a
      majority; a leader starts each peer behind its last entry, with nothing known to match. */
  lemma CountMeaning(s: NodeState, reply: VoteReply)
    requires s.role == Candidate && reply.term <= s.currentTerm && reply.granted
    ensures var s' := HandleVoteReply(s, s.currentTerm, reply);
            && s'.currentTerm == s.currentTerm && s'.votesReceived == s.votesReceived + 1 && s'.log == s.log
            && (s'.role == Leader <==> Majority(s.votesReceived + 1, s)) && (s'.role != Leader ==> s'.role == Candidate)
            && (s'.role == Leader ==> forall p :: p in s'.peers ==>
                 p in s'.nextIndex && p in s'.matchIndex && s'.nextIndex[p] == LastIndex(s.log) + 1 && s'.matchIndex[p] == 0)
  {
    hide BecomeLeader, LastIndex;
    CrowningKeeps();
    SeedsAll(s.(votesReceived := s.votesReceived + 1));
  }

  lemma SeedsAll(s: NodeState)
    ensures var s' := BecomeLeader(s);
            forall p :: p in s'.peers ==> p in s'.nextIndex && p in s'.matchIndex && s'.nextIndex[p] == LastIndex(s.log) + 1 && s'.matchIndex[p] == 0
  {
    hide EffectiveMembership, RefreshMembership;
    RefreshKeeps();
  }

  // ------------------------------------------------------------------------------------------
  // Committing
  // ------------------------------------------------------------------------------------------

  /** Together with the leader itself, if it has the index, these peers are more than half. */
  ghost predicate HeldBy(s: NodeState, index: LogIndex, q: set<NodeId>) {
    && q <= s.matchIndex.Keys && (forall p :: p in q ==> s.matchIndex[p] >= index)
    && 2 * (|q| + if index <= LastIndex(s.log) then 1 else 0) > |s.matchIndex| + 1
  }

  ghost predicate HeldByMajority(s: NodeState, index: LogIndex) { exists q: set<NodeId> :: HeldBy(s, index, q) }

  lemma HeldIff(s: NodeState, index: LogIndex)
    ensures HeldByMajority(s, index) <==> BackedByMajority(LastIndex(s.log), s.matchIndex, index)
  {
    var backers := BackerSet(s.matchIndex, index);
    if BackedByMajority(LastIndex(s.log), s.matchIndex, index) { assert HeldBy(s, index, backers); }
    if q: set<NodeId> :| HeldBy(s, index, q) { SubsetSize(q, backers); }
  }

  /** The commit index moves exactly to the highest index a majority holds, if that is new and its entry of the
      current term; and every client entry passed over is applied. */
  lemma AdvanceMeaning(s: NodeState, index: LogIndex)
    requires Gapless(s.log) && HeldByMajority(s, index) && forall higher :: higher > index ==> !HeldByMajority(s, higher)
    ensures var out := MaybeAdvanceCommitIndex(s);
            && out.node.commitIndex == (if index > s.commitIndex && TermAt(s.log, index) == s.currentTerm then index else s.commitIndex)
            && (if out.node.commitIndex == s.commitIndex then out == Outcome(s, [])
                else Delivers(s.log, s.lastApplied, index, out.events) && out.node.lastApplied == Max(s.lastApplied, index))
  {
    hide ApplyCommitted, HeldByMajority, BackedByMajority, EffectiveMembership, Gapless;
    forall i ensures HeldByMajority(s, i) <==> BackedByMajority(LastIndex(s.log), s.matchIndex, i) { HeldIff(s, i); }
    var majority := MajorityIndex(LastIndex(s.log), s.matchIndex);
    MajorityIndexUnique(LastIndex(s.log), s.matchIndex, majority, index);
    ApplyMeaning(s.(commitIndex := majority));
  }

  // ------------------------------------------------------------------------------------------
  // Replicating
  // ------------------------------------------------------------------------------------------

  /** A request holds every entry from the peer's next index on, each at its place, and the pair before them. */
  lemma RequestMeaning(s: NodeState, peer: NodeId)
    requires !NeedsSnapshot(s, peer)
    ensures var req := AppendRequestFor(s, peer); var last := LastIndex(s.log);
            && req.term == s.currentTerm && req.leader == s.id && req.leaderCommit == s.commitIndex
            && peer in s.nextIndex && req.prevLogIndex + 1 == s.nextIndex[peer] && req.prevLogTerm == TermAt(s.log, req.prevLogIndex)
            && |req.entries| == (if req.prevLogIndex <= last then last - req.prevLogIndex else 0)
            && forall k :: 0 <= k < |req.entries| ==> At(s.log, req.prevLogIndex + 1 + k) == Some(req.entries[k])
  {
  }

  /** A request is accepted exactly if it is not of an older term and its pair is 0 or in the log; whoever
      accepts or refuses one of its term follows its sender. */
  lemma AcceptMeaning(s: NodeState, req: AppendRequest)
    ensures var (out, reply) := HandleAppendEntries(s, req);
            && (reply.success <==> req.term >= s.currentTerm && (req.prevLogIndex == 0 || TermAt(s.log, req.prevLogIndex) == req.prevLogTerm))
            && reply.term == out.node.currentTerm == Max(s.currentTerm, req.term)
            && (reply.success ==> reply.matchIndex == req.prevLogIndex + |req.entries|)
            && (req.term >= s.currentTerm ==> out.node.role == Follower && out.node.leaderHint == req.leader)
            && (req.term < s.currentTerm ==> out == Outcome(s, []))
            && (!reply.success ==> out.events == [] && out.node.log == s.log)
  {
    hide EffectiveMembership, ApplyEvents, FoldCommitted, CompactTo, Merge, TermAt;
  }

  function Terms(full: seq<LogEntry>): seq<Term> { seq(|full|, i requires 0 <= i < |full| => full[i].term) }

  /** One accepted request brings a peer up to the sender's last entry: wherever the leader's whole log has an
      entry, the peer's then has one of the same term. */
  lemma RequestCatchesUp(s: NodeState, full: seq<LogEntry>, peer: NodeId, l: LogState, mine: seq<LogEntry>) returns (caughtUp: seq<LogEntry>)
    requires Represents(full, s.log) && !NeedsSnapshot(s, peer) && s.nextIndex[peer] <= |full| + 1
    requires Represents(mine, l) && s.nextIndex[peer] <= |mine| + 1 && l.snapshotIndex < s.nextIndex[peer]
    requires forall i :: 0 <= i < s.nextIndex[peer] - 1 ==> mine[i].term == full[i].term
    ensures var req := AppendRequestFor(s, peer);
            && PrevMatches(l, req.prevLogIndex, req.prevLogTerm)
            && Represents(caughtUp, AppendEntriesFrom(l, req.prevLogIndex, req.prevLogTerm, req.entries))
            && |caughtUp| >= |full| && Terms(caughtUp)[..|full|] == Terms(full)
  {
    hide Merge, Represents, AppendRequestFor, PrevMatches, Terms, At, LastIndex;
    var req := AppendRequestFor(s, peer);
    var whole := Uncompacted(mine, l.appliedIndex);
    RequestEntries(s, full, peer);
    if req.prevLogIndex > 0 { assert mine[req.prevLogIndex - 1].term == full[req.prevLogIndex - 1].term; }
    PrevAgrees(l, mine, req.prevLogIndex, req.prevLogTerm);
    WholeRepresents(mine, l.appliedIndex);
    PrevAgrees(whole, mine, req.prevLogIndex, req.prevLogTerm);
    AppendEntriesRefines(mine, l, req.prevLogIndex, req.prevLogTerm, req.entries);
    MergedTerms(mine, full, req.prevLogIndex);
    caughtUp := AppendEntriesFrom(whole, req.prevLogIndex, req.prevLogTerm, req.entries).entries;
  }

  /** Merging the rest of another history, behind a part whose terms agree, leaves its terms throughout. */
  lemma MergedTerms(mine: seq<LogEntry>, full: seq<LogEntry>, prev: LogIndex)
    requires prev <= |mine| && prev <= |full| && forall i :: 0 <= i < prev ==> mine[i].term == full[i].term
    ensures var merged := Merge(0, mine, prev, full[prev..]); |merged| >= |full| && Terms(merged)[..|full|] == Terms(full)
  {
    hide Merge, AgreeLen;
    var rest := full[prev..];
    MergeMeaning(mine, prev, rest);
    var n := AgreeLen(mine, prev, rest);
    var merged := Merge(0, mine, prev, rest);
    forall i | 0 <= i < |full| ensures i < |merged| && merged[i].term == full[i].term {
      if i >= prev { assert rest[i - prev] == full[i]; }
    }
  }

  lemma WholeRepresents(full: seq<LogEntry>, applied: LogIndex)
    ensures Represents(full, Uncompacted(full, applied))
  {
  }

  lemma RequestEntries(s: NodeState, full: seq<LogEntry>, peer: NodeId)
    requires Represents(full, s.log) && !NeedsSnapshot(s, peer) && s.nextIndex[peer] <= |full| + 1
    ensures var req := AppendRequestFor(s, peer);
            req.prevLogIndex + 1 == s.nextIndex[peer] && req.entries == full[req.prevLogIndex..] && req.prevLogTerm == TermOf(full, req.prevLogIndex)
  {
    RequestMeaning(s, peer);
    QueriesRefine(full, s.log, s.nextIndex[peer] - 1);
  }

  lemma PrevAgrees(l: LogState, mine: seq<LogEntry>, prev: LogIndex, term: Term)
    requires Represents(mine, l) && l.snapshotIndex <= prev && term == TermOf(mine, prev)
    ensures PrevMatches(l, prev, term)
  {
    hide Represents;
    QueriesRefine(mine, l, prev);
  }

  /** A refusal moves the peer's next index one back, never below 1, and changes nothing else. */
  lemma RefusalMeaning(s: NodeState, peer: NodeId, req: AppendRequest, reply: AppendReply)
    requires s.role == Leader && req.term == s.currentTerm && peer in s.peers && peer in s.nextIndex && s.nextIndex[peer] >= 1
    requires !reply.success && reply.term <= s.currentTerm
    ensures var out := HandleAppendReply(s, peer, req, reply);
            && out.events == [] && out.node == s.(nextIndex := out.node.nextIndex) && out.node.nextIndex.Keys == s.nextIndex.Keys
            && out.node.nextIndex[peer] == Max(1, s.nextIndex[peer] - 1)
            && forall p :: p in s.nextIndex && p != peer ==> out.node.nextIndex[p] == s.nextIndex[p]
  {
  }

  ghost function Refused(s: NodeState, peer: NodeId, reply: AppendReply, times: nat): NodeState
    decreases times
  {
    if times == 0 then s
    else
      var s' := Refused(s, peer, reply, times - 1);
      HandleAppendReply(s', peer, AppendRequest(s'.currentTerm, s'.id, 0, 0, [], 0), reply).node
  }

  /** Refused often enough, a leader comes to offer a peer its log from the very first entry. */
  lemma {:induction false} BackOffReaches(s: NodeState, peer: NodeId, reply: AppendReply, times: nat)
    requires s.role == Leader && peer in s.peers && peer in s.nextIndex && s.nextIndex[peer] >= 1
    requires !reply.success && reply.term <= s.currentTerm
    ensures var s' := Refused(s, peer, reply, times);
            && s' == s.(nextIndex := s'.nextIndex) && peer in s'.nextIndex
            && s'.nextIndex[peer] == (if times < s.nextIndex[peer] then s.nextIndex[peer] - times else 1)
    decreases times
  {
    hide HandleAppendReply;
    if times > 0 {
      BackOffReaches(s, peer, reply, times - 1);
      var before := Refused(s, peer, reply, times - 1);
      RefusalMeaning(before, peer, AppendRequest(before.currentTerm, before.id, 0, 0, [], 0), reply);
    }
  }

  /** An acceptance moves the peer's match index up to the request's end, never down, and its next index right
      behind it, before the commit index is looked at. */
  lemma AcknowledgeMeaning(s: NodeState, peer: NodeId, req: AppendRequest, reply: AppendReply) returns (counted: NodeState)
    requires s.role == Leader && req.term == s.currentTerm && peer in s.peers && peer in s.matchIndex
    requires reply.success && reply.term <= s.currentTerm
    ensures HandleAppendReply(s, peer, req, reply) == MaybeAdvanceCommitIndex(counted)
    ensures var reached := Max(s.matchIndex[peer], req.prevLogIndex + |req.entries|);
            counted == s.(matchIndex := s.matchIndex[peer := reached], nextIndex := s.nextIndex[peer := reached + 1])
  {
    hide MaybeAdvanceCommitIndex;
    var reached := Max(s.matchIndex[peer], req.prevLogIndex + |req.entries|);
    counted := s.(matchIndex := s.matchIndex[peer := reached], nextIndex := s.nextIndex[peer := reached + 1]);
  }

  /** A snapshot brings a peer that was behind up to what the leader had applied. */
  lemma SnapshotCatchesUp(s: NodeState, f: NodeState)
    requires s.role == Leader && f.id in s.peers && f.id != s.id && f.currentTerm <= s.currentTerm && f.log.snapshotIndex < s.lastApplied
    ensures var req := SnapshotRequestOf(s); var (f1, early) := BeginInstall(f, req); var (f2, reply) := FinishInstall(f1, req);
            && early == None && reply.term == f2.currentTerm == s.currentTerm && f2.role == Follower
            && f2.log.snapshotIndex == s.lastApplied && f2.log.snapshotTerm == TermAt(s.log, s.lastApplied)
            && f2.lastApplied == Max(f.lastApplied, s.lastApplied) && f2.commitIndex == Max(f.commitIndex, s.lastApplied)
            && f2.base == Membership(s.peers[s.id := s.ownAddress] - {f.id}, true, s.peers[f.id])
  {
    hide EffectiveMembership, TermAt, RefreshMembership;
    var req := SnapshotRequestOf(s);
    var (f1, early) := BeginInstall(f, req);
    InstalledState(f1, req);
  }

  /** The boundary, the indices and the membership a snapshot leaves. */
  lemma InstalledState(f: NodeState, req: SnapshotRequest)
    requires f.log.snapshotIndex < req.lastIncludedIndex && f.id in req.membership
    ensures var (f2, reply) := FinishInstall(f, req);
            && reply.term == f2.currentTerm == f.currentTerm && f2.role == f.role
            && f2.log.snapshotIndex == req.lastIncludedIndex && f2.log.snapshotTerm == req.lastIncludedTerm
            && f2.lastApplied == Max(f.lastApplied, req.lastIncludedIndex) && f2.commitIndex == Max(f.commitIndex, req.lastIncludedIndex)
            && f2.base == Membership(req.membership - {f.id}, true, req.membership[f.id])
  {
    hide EffectiveMembership, TermAt;
  }

  /** Once a snapshot is acknowledged the leader goes on right behind it. */
  lemma SnapshotAcknowledged(s: NodeState, peer: NodeId, req: SnapshotRequest, reply: SnapshotReply)
    requires s.role == Leader && req.term == s.currentTerm && peer in s.peers && reply.term <= s.currentTerm
    ensures var s' := HandleSnapshotReply(s, peer, req, reply);
            && s'.matchIndex == s.matchIndex[peer := req.lastIncludedIndex] && s'.nextIndex == s.nextIndex[peer := req.lastIncludedIndex + 1]
            && (req.lastIncludedIndex >= s.log.snapshotIndex ==> !NeedsSnapshot(s', peer))
  {
  }

  /** A follower that learns of a higher commit index delivers the entries up to it, of the log the request has
      left; nobody else delivers anything. */
  lemma FollowerDelivers(s: NodeState, req: AppendRequest)
    requires Gapless(AppendEntriesFrom(s.log, req.prevLogIndex, req.prevLogTerm, req.entries))
    ensures var (out, reply) := HandleAppendEntries(s, req);
            var taken := AppendEntriesFrom(s.log, req.prevLogIndex, req.prevLogTerm, req.entries);
            if reply.success && req.leaderCommit > s.commitIndex then
              && out.node.commitIndex == Min(req.leaderCommit, LastIndex(taken))
              && Delivers(taken, s.lastApplied, out.node.commitIndex, out.events)
            else out.events == [] && out.node.commitIndex == s.commitIndex
  {
    hide EffectiveMembership, ApplyCommitted, AppendEntriesFrom, PrevMatches, Gapless, Delivers;
    if req.term >= s.currentTerm && PrevMatches(s.log, req.prevLogIndex, req.prevLogTerm) && req.leaderCommit > s.commitIndex {
      var s1 := if req.term > s.currentTerm || s.role != Follower then BecomeFollower(s, req.term) else s;
      var s2 := s1.(leaderHint := req.leader);
      var s3 := RefreshMembership(s2.(log := AppendEntriesFrom(s2.log, req.prevLogIndex, req.prevLogTerm, req.entries)));
      ApplyMeaning(s3.(commitIndex := Min(req.leaderCommit, LastIndex(s3.log))));
    }
  }

  // ------------------------------------------------------------------------------------------
  // Standing, and what is out of date
  // ------------------------------------------------------------------------------------------

  /** Only a member stands, in the next term and for itself; it asks for votes unless its own is a majority, which
      makes it leader at once. The log stays. */
  lemma StandMeaning(s: NodeState)
    ensures var (s', sends) := StartElection(s); var e := EffectiveMembership(s);
            && s'.log == s.log
            && (if e.selfMember then s'.currentTerm == s.currentTerm + 1 && s'.votedFor == Some(s.id)
                else s'.currentTerm == s.currentTerm && s'.votedFor == s.votedFor && s'.role == s.role)
            && (sends <==> e.selfMember && !(2 > |e.peers| + 1))
            && (sends ==> s'.role == Candidate && s'.votesReceived == 1 && s'.peers == e.peers)
            && (e.selfMember && !sends ==> s'.role == Leader)
  {
    hide EffectiveMembership, RefreshMembership, BecomeLeader;
    RefreshKeeps();
    CrowningKeeps();
  }

  lemma CrowningKeeps()
    ensures forall s {:trigger BecomeLeader(s)} :: var s' := BecomeLeader(s);
              s'.role == Leader && s'.log == s.log && s'.currentTerm == s.currentTerm && s'.votedFor == s.votedFor && s'.votesReceived == s.votesReceived
  {
    hide EffectiveMembership, RefreshMembership, Seeded, LastIndex;
    RefreshKeeps();
  }

  /** Answers out of date change nothing, and answers of a later term end any role but a follower's. */
  lemma StaleAnswers(s: NodeState, peer: NodeId, electionTerm: Term, vote: VoteReply, req: AppendRequest, append: AppendReply,
                     install: SnapshotRequest, installed: SnapshotReply)
    ensures vote.term <= s.currentTerm && (s.role != Candidate || electionTerm != s.currentTerm || !vote.granted) ==> HandleVoteReply(s, electionTerm, vote) == s
    ensures append.term <= s.currentTerm && (s.role != Leader || req.term != s.currentTerm || peer !in s.peers) ==>
              HandleAppendReply(s, peer, req, append) == Outcome(s, [])
    ensures installed.term <= s.currentTerm && (s.role != Leader || install.term != s.currentTerm || peer !in s.peers) ==>
              HandleSnapshotReply(s, peer, install, installed) == s
    ensures var later := s.(role := Follower, votedFor := None);
            && (vote.term > s.currentTerm ==> HandleVoteReply(s, electionTerm, vote) == later.(currentTerm := vote.term))
            && (append.term > s.currentTerm && peer in s.peers ==> HandleAppendReply(s, peer, req, append) == Outcome(later.(currentTerm := append.term), []))
            && (installed.term > s.currentTerm && peer in s.peers ==> HandleSnapshotReply(s, peer, install, installed) == later.(currentTerm := installed.term))
  {
    hide MaybeAdvanceCommitIndex, BecomeLeader;
  }

  /** A snapshot of an older term, or of nothing the log does not hold compacted already, is answered at once and
      moves no index. */
  lemma StaleSnapshot(s: NodeState, req: SnapshotRequest)
    ensures var (s', early) := BeginInstall(s, req);
            && (early.Some? <==> req.term < s.currentTerm || req.lastIncludedIndex <= s.log.snapshotIndex)
            && s'.log == s.log && s'.commitIndex == s.commitIndex && s'.lastApplied == s.lastApplied
            && (early.Some? ==> early.value.term == s'.currentTerm)
            && s'.currentTerm == Max(s.currentTerm, req.term)
    ensures req.lastIncludedIndex <= s.log.snapshotIndex ==> FinishInstall(s, req) == (s, SnapshotReply(s.currentTerm))
  {
  }

  // ------------------------------------------------------------------------------------------
  // Proposing
  // ------------------------------------------------------------------------------------------

  ghost predicate ChangeAt(l: LogState, i: LogIndex) { At(l, i).Some? && !At(l, i).value.command.Client? }

  /** No membership change is uncommitted. */
  ghost predicate NoChange(s: NodeState) { forall i: LogIndex :: i > s.commitIndex ==> !ChangeAt(s.log, i) }

  /** At most one membership change is uncommitted. */
  ghost predicate OneChange(s: NodeState) {
    forall i: LogIndex, j: LogIndex :: s.commitIndex < i < j ==> !(ChangeAt(s.log, i) && ChangeAt(s.log, j))
  }

  lemma NoChangeIff(s: NodeState)
    ensures NoChange(s) <==> !ChangePending(s)
  {
    if !NoChange(s) {
      var i: LogIndex :| i > s.commitIndex && ChangeAt(s.log, i);
      WithinLog(s.log, i);
      assert At(s.log, i).Some?;
    }
    if ChangePending(s) {
      var i :| s.commitIndex < i <= LastIndex(s.log) && At(s.log, i).Some? && !At(s.log, i).value.command.Client?;
      assert ChangeAt(s.log, i);
    }
  }

  lemma WithinLog(l: LogState, i: LogIndex)
    ensures At(l, i).Some? ==> i <= LastIndex(l)
  {
  }

  lemma AppendedAt(l: LogState, term: Term, command: Command, i: LogIndex)
    ensures At(Append(l, term, command), i) ==
              if i == LastIndex(l) + 1 then Some(LogEntry(LastIndex(l) + 1, term, command)) else At(l, i)
    ensures LastIndex(Append(l, term, command)) == LastIndex(l) + 1
  {
  }

  /** Only a leader takes anything: every client command, and a membership change exactly if none is uncommitted and it changes
      something; what it takes comes last in its log, in its term. So it never has two uncommitted changes. */
  lemma ProposeMeaning(s: NodeState, command: Command)
    ensures ProposalAllowed(s, command) <==>
              && s.role == Leader
              && match command
                 case Client(_) => true
                 case AddServer(server, _) => NoChange(s) && server != s.id && server !in s.peers
                 case RemoveServer(server) => NoChange(s) && (server == s.id || server in s.peers)
    ensures var taken := s.(log := Append(s.log, s.currentTerm, command));
            && At(taken.log, LastIndex(s.log) + 1) == Some(LogEntry(LastIndex(s.log) + 1, s.currentTerm, command))
            && (ProposalAllowed(s, command) ==> Propose(s, command) == MaybeAdvanceCommitIndex(RefreshMembership(taken)))
            && (ProposalAllowed(s, command) && OneChange(s) ==> OneChange(taken))
            && (!ProposalAllowed(s, command) ==> Propose(s, command) == Outcome(s, []))
  {
    hide MaybeAdvanceCommitIndex, RefreshMembership, At, Append, LastIndex, ChangePending;
    NoChangeIff(s);
    AppendedAt(s.log, s.currentTerm, command, LastIndex(s.log) + 1);
    if ProposalAllowed(s, command) && OneChange(s) { OneMoreChange(s, command); }
  }

  lemma OneMoreChange(s: NodeState, command: Command)
    requires OneChange(s) && (command.Client? || NoChange(s))
    ensures OneChange(s.(log := Append(s.log, s.currentTerm, command)))
  {
    hide At, Append, LastIndex;
    var taken := s.(log := Append(s.log, s.currentTerm, command));
    forall i: LogIndex, j: LogIndex | s.commitIndex < i < j ensures !(ChangeAt(taken.log, i) && ChangeAt(taken.log, j)) {
      AppendedAt(s.log, s.currentTerm, command, i);
      AppendedAt(s.log, s.currentTerm, command, j);
      WithinLog(s.log, i);
      WithinLog(s.log, j);
      assert !(ChangeAt(s.log, i) && ChangeAt(s.log, j));
      assert NoChange(s) ==> !ChangeAt(s.log, i);
    }
  }

  /** A leader whose own removal gets committed leads no longer, unless it is a member again. */
  lemma RemovedLeaderStepsDown(s: NodeState, index: LogIndex)
    requires Gapless(s.log) && HeldByMajority(s, index) && forall higher :: higher > index ==> !HeldByMajority(s, higher)
    requires index > s.commitIndex && TermAt(s.log, index) == s.currentTerm && 0 < s.pendingSelfRemoval <= index
    ensures var s' := MaybeAdvanceCommitIndex(s).node; s'.role == Leader ==> s'.selfMember
  {
    hide ApplyCommitted, HeldByMajority, BackedByMajority, EffectiveMembership, Gapless;
    forall i ensures HeldByMajority(s, i) <==> BackedByMajority(LastIndex(s.log), s.matchIndex, i) { HeldIff(s, i); }
    MajorityIndexUnique(LastIndex(s.log), s.matchIndex, MajorityIndex(LastIndex(s.log), s.matchIndex), index);
    ApplyMeaning(s.(commitIndex := index));
  }
}
