/**
 Membership derived from the log. The effective membership is the durable base folded with every
 change still in the log; compaction moves committed changes from the log into the base, and the
 lemmas below show that nobody can tell.
 */
module RaftMembership {
  import opened Options
  import opened RaftTypes
  import opened RaftLogs
  import opened RaftNodeState

  lemma {:induction false} FoldAppend(id: NodeId, leading: bool, commit: LogIndex, acc: Effective, a: seq<LogEntry>, b: seq<LogEntry>, first: LogIndex)
    ensures Fold(id, leading, commit, acc, a + b, first)
         == Fold(id, leading, commit, Fold(id, leading, commit, acc, a, first), b, first + |a|)
    decreases |a|
  {
    if a == [] {
      assert a + b == b;
    } else {
      var one := FoldOne(id, leading && commit < first, acc, first, a[0].command);
      FoldAppend(id, leading, commit, one, a[1..], b, first + 1);
      assert (a + b)[1..] == a[1..] + b;
    }
  }

  /** Over committed entries the two folds agree, and no removal stays pending. */
  lemma {:induction false} FoldOfCommitted(id: NodeId, leading: bool, commit: LogIndex, base: Membership, entries: seq<LogEntry>, first: LogIndex)
    requires first + |entries| <= commit + 1
    ensures Fold(id, leading, commit, Effective(base.peers, base.selfMember, 0), entries, first)
         == Effective(FoldCommitted(id, base, entries).peers, FoldCommitted(id, base, entries).selfMember, 0)
    ensures FoldCommitted(id, base, entries).ownAddress == base.ownAddress
    decreases |entries|
  {
    if entries != [] {
      FoldOfCommitted(id, leading, commit, FoldCommittedOne(id, base, entries[0].command), entries[1..], first + 1);
    }
  }

  /** Compaction is invisible to membership: folding the applied changes into the base and dropping
      them from the log leaves the effective peers, self-membership and pending removal as they were. */
  lemma CompactionInvisible(s: NodeState)
    requires s.log.snapshotIndex <= s.lastApplied <= s.commitIndex && s.lastApplied <= LastIndex(s.log)
    ensures EffectiveMembership(CompactApplied(s)) == EffectiveMembership(s)
  {
    if CompactionDue(s.lastApplied, s.log.snapshotIndex) {
      var n := s.lastApplied - s.log.snapshotIndex;
      var dropped, kept := s.log.entries[..n], s.log.entries[n..];
      assert s.log.entries == dropped + kept;
      var start := Effective(s.base.peers, s.base.selfMember, 0);
      FoldAppend(s.id, s.role == Leader, s.commitIndex, start, dropped, kept, s.log.snapshotIndex + 1);
      FoldOfCommitted(s.id, s.role == Leader, s.commitIndex, s.base, dropped, s.log.snapshotIndex + 1);
    }
  }

  /** So refreshing before or after a compaction makes no difference to the node. */
  lemma RefreshCommutesWithCompaction(s: NodeState)
    requires s.log.snapshotIndex <= s.lastApplied <= s.commitIndex && s.lastApplied <= LastIndex(s.log)
    ensures var a := RefreshMembership(CompactApplied(s)); var b := CompactApplied(RefreshMembership(s));
            a == b
  {
    hide EffectiveMembership, CompactTo, FoldCommitted;
    CompactionInvisible(s);
  }

  /** Nor does a compaction make a restarted node forget a change: base and log together still say it. */
  lemma RestartForgetsNothing(s: NodeState)
    requires s.log.snapshotIndex <= s.lastApplied <= s.commitIndex && s.lastApplied <= LastIndex(s.log)
    requires s.log.appliedIndex == s.lastApplied
    ensures var before := EffectiveMembership(Restart(s)); var after := EffectiveMembership(Restart(CompactApplied(s)));
            after == before
  {
    CompactionInvisible(Restart(s));
  }

  // ------------------------------------------------------------------------------------------
  // The fold against an independent reading of the log
  // ------------------------------------------------------------------------------------------

  predicate Concerns(command: Command, server: NodeId) { !command.Client? && command.server == server }

  /** The last change concerning `server`, if any. */
  function LastChange(entries: seq<LogEntry>, server: NodeId): (k: Option<nat>)
    ensures k.Some? ==> k.value < |entries| && Concerns(entries[k.value].command, server)
    ensures forall j {:trigger entries[j]} | 0 <= j < |entries| && (k.Some? ==> j > k.value) :: !Concerns(entries[j].command, server)
    decreases |entries|
  {
    if entries == [] then None
    else if Concerns(entries[|entries| - 1].command, server) then Some(|entries| - 1)
    else LastChange(entries[..|entries| - 1], server)
  }

  /** The last word about a server decides whether, and where, it is a peer. */
  lemma {:induction false} FoldMeaning(id: NodeId, leading: bool, commit: LogIndex, acc: Effective, entries: seq<LogEntry>, first: LogIndex, server: NodeId)
    requires server != id
    ensures var eff := Fold(id, leading, commit, acc, entries, first); var k := LastChange(entries, server);
            && (server in eff.peers <==> if k.None? then server in acc.peers else entries[k.value].command.AddServer?)
            && (server in eff.peers ==>
                  eff.peers[server] == if k.None? then acc.peers[server] else entries[k.value].command.address)
    decreases |entries|
  {
    if entries != [] {
      var n := |entries| - 1;
      FoldMeaning(id, leading, commit, acc, entries[..n], first, server);
      FoldAppend(id, leading, commit, acc, entries[..n], [entries[n]], first);
      assert entries == entries[..n] + [entries[n]];
    }
  }

  /** A node's own membership: its last change decides, except that a leader keeps acting as a
      member while its removal is not committed. */
  lemma {:induction false} FoldSelf(id: NodeId, leading: bool, commit: LogIndex, acc: Effective, entries: seq<LogEntry>, first: LogIndex)
    requires acc.pendingSelfRemoval == 0
    ensures var eff := Fold(id, leading, commit, acc, entries, first); var k := LastChange(entries, id);
            && (k.None? ==> eff.selfMember == acc.selfMember && eff.pendingSelfRemoval == 0)
            && (k.Some? && entries[k.value].command.AddServer? ==> eff.selfMember && eff.pendingSelfRemoval == 0)
            && (k.Some? && entries[k.value].command.RemoveServer? && leading && commit < first + k.value ==>
                  eff.pendingSelfRemoval == first + k.value)
            && (k.Some? && entries[k.value].command.RemoveServer? && !(leading && commit < first + k.value) ==>
                  !eff.selfMember && eff.pendingSelfRemoval == 0)
    decreases |entries|
  {
    if entries != [] {
      var n := |entries| - 1;
      FoldSelf(id, leading, commit, acc, entries[..n], first);
      FoldAppend(id, leading, commit, acc, entries[..n], [entries[n]], first);
      assert entries == entries[..n] + [entries[n]];
      FoldPendingBound(id, leading, commit, acc, entries[..n], first);
    }
  }

  lemma {:induction false} FoldPendingBound(id: NodeId, leading: bool, commit: LogIndex, acc: Effective, entries: seq<LogEntry>, first: LogIndex)
    requires acc.pendingSelfRemoval == 0 || (leading && commit < acc.pendingSelfRemoval < first)
    ensures var p := Fold(id, leading, commit, acc, entries, first).pendingSelfRemoval;
            p == 0 || (leading && commit < p < first + |entries|)
    decreases |entries|
  {
    if entries != [] {
      FoldPendingBound(id, leading, commit, FoldOne(id, leading && commit < first, acc, first, entries[0].command), entries[1..], first + 1);
    }
  }

  // ------------------------------------------------------------------------------------------
  // What refreshing keeps
  // ------------------------------------------------------------------------------------------

  lemma {:induction false} FoldNeverSelf(id: NodeId, leading: bool, commit: LogIndex, acc: Effective, entries: seq<LogEntry>, first: LogIndex)
    requires id !in acc.peers
    ensures id !in Fold(id, leading, commit, acc, entries, first).peers
    decreases |entries|
  {
    if entries != [] {
      FoldNeverSelf(id, leading, commit, FoldOne(id, leading && commit < first, acc, first, entries[0].command), entries[1..], first + 1);
    }
  }

  /** A node is never its own peer, and a leader tracks exactly its peers. */
  ghost predicate Tracks(s: NodeState) {
    && s.id !in s.base.peers && s.id !in s.peers
    && s.nextIndex.Keys <= s.peers.Keys && s.matchIndex.Keys <= s.peers.Keys
    && (s.role == Leader ==> s.nextIndex.Keys == s.peers.Keys && s.matchIndex.Keys == s.peers.Keys)
  }

  /** Refreshing yields exactly the folded membership, keeps every surviving peer's progress, starts
      new peers of a leader from scratch, and keeps the bookkeeping in step. */
  lemma RefreshKeepsTrack(s: NodeState)
    requires Tracks(s)
    ensures var r := RefreshMembership(s);
            && Tracks(r) && r.peers == EffectiveMembership(s).peers
            && (forall p | p in s.peers && p in r.peers && p in s.nextIndex :: p in r.nextIndex && r.nextIndex[p] == s.nextIndex[p])
            && (forall p | p in s.peers && p in r.peers && p in s.matchIndex :: p in r.matchIndex && r.matchIndex[p] == s.matchIndex[p])
            && (forall p | p in r.peers && p !in s.peers && s.role == Leader :: r.nextIndex[p] == 1 && r.matchIndex[p] == 0)
  {
    hide Fold;
    FoldNeverSelf(s.id, s.role == Leader, s.commitIndex, Effective(s.base.peers, s.base.selfMember, 0), s.log.entries, s.log.snapshotIndex + 1);
  }

  lemma {:induction false} FoldCommittedNeverSelf(id: NodeId, base: Membership, entries: seq<LogEntry>)
    requires id !in base.peers
    ensures id !in FoldCommitted(id, base, entries).peers
    decreases |entries|
  {
    if entries != [] { FoldCommittedNeverSelf(id, FoldCommittedOne(id, base, entries[0].command), entries[1..]); }
  }

  lemma ApplyKeepsTrack(s: NodeState)
    requires Tracks(s)
    ensures Tracks(ApplyCommitted(s).node)
  {
    hide FoldCommitted, CompactTo, CompactionDue;
    var s1 := ApplyUpTo(s, s.commitIndex);
    FoldCommittedNeverSelf(s.id, s.base, EntriesUpTo(s1.log, s1.lastApplied));
  }

  lemma AdvanceKeepsTrack(s: NodeState)
    requires Tracks(s)
    ensures Tracks(MaybeAdvanceCommitIndex(s).node)
  {
    hide ApplyCommitted, RefreshMembership, IsMajorityIndex, Tracks;
    var majority := MajorityIndex(LastIndex(s.log), s.matchIndex);
    CommitKeepsTrack(s, majority);
    ApplyKeepsTrack(s.(commitIndex := majority));
    var s1 := ApplyCommitted(s.(commitIndex := majority)).node;
    RefreshKeepsTrack(s1);
    DemoteKeepsTrack(RefreshMembership(s1));
  }

  lemma CommitKeepsTrack(s: NodeState, commit: LogIndex)
    requires Tracks(s)
    ensures Tracks(s.(commitIndex := commit))
  {
  }

  lemma DemoteKeepsTrack(s: NodeState)
    requires Tracks(s)
    ensures Tracks(s.(role := Follower))
  {
  }

  lemma LeadKeepsTrack(s: NodeState)
    requires Tracks(s)
    ensures Tracks(BecomeLeader(s))
  {
    hide RefreshMembership;
    RefreshKeepsTrack(s);
  }

  /** The bookkeeping stays in step through every critical section, whatever membership changes the
      log holds: elections ... */
  lemma StandingKeepsTrack(s: NodeState)
    requires Tracks(s)
    ensures Tracks(StartElection(s).0)
  {
    hide RefreshMembership, BecomeLeader;
    RefreshKeepsTrack(s);
    var s1 := RefreshMembership(s);
    LeadKeepsTrack(s1.(currentTerm := s1.currentTerm + 1, votedFor := Some(s1.id), role := Candidate, votesReceived := 1));
  }

  /** ... votes ... */
  lemma VotingKeepsTrack(s: NodeState, req: VoteRequest, recent: bool, electionTerm: Term, reply: VoteReply)
    requires Tracks(s)
    ensures Tracks(HandleRequestVote(s, req, recent).0)
    ensures Tracks(HandleVoteReply(s, electionTerm, reply))
  {
    hide BecomeLeader;
    LeadKeepsTrack(s.(votesReceived := s.votesReceived + 1));
  }

  /** ... replication on the follower ... */
  lemma FollowingKeepsTrack(s: NodeState, req: AppendRequest)
    requires Tracks(s)
    ensures Tracks(HandleAppendEntries(s, req).0.node)
  {
    hide RefreshMembership, ApplyCommitted, AppendEntriesFrom, PrevMatches;
    if req.term >= s.currentTerm && PrevMatches(s.log, req.prevLogIndex, req.prevLogTerm) {
      var s2 := BecomeFollower(s, req.term).(leaderHint := req.leader);
      var s2' := s2.(log := AppendEntriesFrom(s2.log, req.prevLogIndex, req.prevLogTerm, req.entries));
      RefreshKeepsTrack(s2');
      var s3 := RefreshMembership(s2');
      ApplyKeepsTrack(s3.(commitIndex := Min(req.leaderCommit, LastIndex(s3.log))));
    }
  }

  /** ... proposals ... */
  lemma ProposingKeepsTrack(s: NodeState, command: Command)
    requires Tracks(s)
    ensures Tracks(Propose(s, command).node)
  {
    hide MaybeAdvanceCommitIndex, RefreshMembership, ProposalAllowed;
    var s1 := s.(log := Append(s.log, s.currentTerm, command));
    RefreshKeepsTrack(s1);
    AdvanceKeepsTrack(RefreshMembership(s1));
  }

  /** ... acknowledgements on the leader ... */
  lemma LeadingKeepsTrack(s: NodeState, peer: NodeId, req: AppendRequest, reply: AppendReply)
    requires Tracks(s)
    ensures Tracks(HandleAppendReply(s, peer, req, reply).node)
  {
    hide MaybeAdvanceCommitIndex;
    if peer in s.peers {
      var match' := Max(IndexOr(s.matchIndex, peer, 0), req.prevLogIndex + |req.entries|);
      AcknowledgedKeepsTrack(s, peer, match', match' + 1);
      AdvanceKeepsTrack(s.(matchIndex := s.matchIndex[peer := match'], nextIndex := s.nextIndex[peer := match' + 1]));
    }
  }

  lemma AcknowledgedKeepsTrack(s: NodeState, peer: NodeId, match': LogIndex, next: LogIndex)
    requires Tracks(s) && peer in s.peers
    ensures Tracks(s.(matchIndex := s.matchIndex[peer := match'], nextIndex := s.nextIndex[peer := next]))
  {
  }

  /** ... snapshots ... */
  lemma InstallingKeepsTrack(s: NodeState, req: SnapshotRequest)
    requires Tracks(s)
    ensures Tracks(FinishInstall(s, req).0)
  {
    hide RefreshMembership, CompactTo;
    var s1 := s.(log := CompactTo(s.log, req.lastIncludedIndex, req.lastIncludedTerm),
                 commitIndex := Max(s.commitIndex, req.lastIncludedIndex));
    var s2 := ApplyUpTo(s1, req.lastIncludedIndex);
    var own := if s.id in req.membership then req.membership[s.id] else s.ownAddress;
    RefreshKeepsTrack(s2.(ownAddress := own, base := Membership(req.membership - {s.id}, s.id in req.membership, own)));
  }

  /** ... and everything else, restarts included. */
  lemma AnsweringKeepsTrack(s: NodeState, peer: NodeId, req: SnapshotRequest, reply: SnapshotReply)
    requires Tracks(s)
    ensures Tracks(BeginInstall(s, req).0)
    ensures Tracks(HandleSnapshotReply(s, peer, req, reply))
    ensures Tracks(Restart(s))
  {
  }

  // ------------------------------------------------------------------------------------------
  // Whole lives
  // ------------------------------------------------------------------------------------------

  /** What can happen to a node, with whatever messages. */
  datatype Section =
    | Stood
    | VoteAsked(vote: VoteRequest, recent: bool)
    | VoteAnswered(electionTerm: Term, voteReply: VoteReply)
    | EntriesReceived(entries: AppendRequest)
    | EntriesAnswered(peer: NodeId, entries: AppendRequest, entriesReply: AppendReply)
    | Proposed(command: Command)
    | SnapshotBegun(snapshot: SnapshotRequest)
    | SnapshotFinished(snapshot: SnapshotRequest)
    | SnapshotAnswered(peer: NodeId, snapshot: SnapshotRequest, snapshotReply: SnapshotReply)
    | Restarted

  ghost function Perform(s: NodeState, section: Section): NodeState {
    match section
    case Stood => StartElection(s).0
    case VoteAsked(req, recent) => HandleRequestVote(s, req, recent).0
    case VoteAnswered(electionTerm, reply) => HandleVoteReply(s, electionTerm, reply)
    case EntriesReceived(req) => HandleAppendEntries(s, req).0.node
    case EntriesAnswered(peer, req, reply) => HandleAppendReply(s, peer, req, reply).node
    case Proposed(command) => Propose(s, command).node
    case SnapshotBegun(req) => BeginInstall(s, req).0
    case SnapshotFinished(req) => FinishInstall(s, req).0
    case SnapshotAnswered(peer, req, reply) => HandleSnapshotReply(s, peer, req, reply)
    case Restarted => Restart(s)
  }

  ghost function PerformAll(s: NodeState, sections: seq<Section>): NodeState
    decreases |sections|
  {
    if sections == [] then s else PerformAll(Perform(s, sections[0]), sections[1..])
  }

  lemma SectionKeepsTrack(s: NodeState, section: Section)
    requires Tracks(s)
    ensures Tracks(Perform(s, section))
  {
    hide Tracks, StartElection, HandleRequestVote, HandleVoteReply, HandleAppendEntries, HandleAppendReply, Propose, BeginInstall,
      FinishInstall, HandleSnapshotReply, Restart;
    match section
    case Stood => StandingKeepsTrack(s);
    case VoteAsked(req, recent) => VotingKeepsTrack(s, req, recent, 0, VoteReply(0, false));
    case VoteAnswered(electionTerm, reply) => VotingKeepsTrack(s, VoteRequest(0, 0, 0, 0), false, electionTerm, reply);
    case EntriesReceived(req) => FollowingKeepsTrack(s, req);
    case EntriesAnswered(peer, req, reply) => LeadingKeepsTrack(s, peer, req, reply);
    case Proposed(command) => ProposingKeepsTrack(s, command);
    case SnapshotBegun(req) => AnsweringKeepsTrack(s, 0, req, SnapshotReply(0));
    case SnapshotFinished(req) => InstallingKeepsTrack(s, req);
    case SnapshotAnswered(peer, req, reply) => AnsweringKeepsTrack(s, peer, req, reply);
    case Restarted => AnsweringKeepsTrack(s, 0, SnapshotRequestOf(s), SnapshotReply(0));
  }

  /** Over a node's whole life, with whatever membership changes, messages and restarts: it is never its
      own peer, and while it leads it tracks the progress of exactly its peers. */
  lemma {:induction false} TracksForLife(s: NodeState, sections: seq<Section>)
    requires Tracks(s)
    ensures Tracks(PerformAll(s, sections))
    decreases |sections|
  {
    hide Tracks, Perform;
    if sections != [] {
      SectionKeepsTrack(s, sections[0]);
      TracksForLife(Perform(s, sections[0]), sections[1..]);
    }
  }
}
