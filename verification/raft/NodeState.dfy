/**
 One node's state and its critical sections as functions: what each handler does to the state,
 what it answers, and which entries it hands to the apply callback.
 */
module RaftNodeState {
  import opened FiniteSets
  import opened Options
  import opened RaftTypes
  import opened RaftLogs

  /** Applied entries between two compactions of a node's own log. */
  const COMPACTION_THRESHOLD: nat := 5

  /** The durable membership record, as of the log's compaction boundary. */
  datatype Membership = Membership(peers: map<NodeId, PeerAddress>, selfMember: bool, ownAddress: PeerAddress)

  datatype NodeState = NodeState(
    id: NodeId,
    // durable
    currentTerm: Term, votedFor: Option<NodeId>, log: LogState, base: Membership,
    // volatile
    ownAddress: PeerAddress, peers: map<NodeId, PeerAddress>, selfMember: bool, pendingSelfRemoval: LogIndex,
    role: Role, leaderHint: NodeId, commitIndex: LogIndex, lastApplied: LogIndex,
    votesReceived: nat, nextIndex: map<NodeId, LogIndex>, matchIndex: map<NodeId, LogIndex>)

  /** One call of the apply callback. */
  datatype ApplyEvent = ApplyEvent(index: LogIndex, command: Command)

  datatype Outcome = Outcome(node: NodeState, events: seq<ApplyEvent>)

  // ------------------------------------------------------------------------------------------
  // Membership derived from the log
  // ------------------------------------------------------------------------------------------

  datatype Effective = Effective(peers: map<NodeId, PeerAddress>, selfMember: bool, pendingSelfRemoval: LogIndex)

  /** `deferring` says that this node leads and the entry is not committed yet. */
  function FoldOne(id: NodeId, deferring: bool, acc: Effective, index: LogIndex, command: Command): Effective {
    match command
    case Client(_) => acc
    case AddServer(server, address) =>
      if server == id then acc.(selfMember := true, pendingSelfRemoval := 0)
      else acc.(peers := acc.peers[server := address])
    case RemoveServer(server) =>
      if server == id then
        if deferring then acc.(pendingSelfRemoval := index) else acc.(selfMember := false)
      else acc.(peers := acc.peers - {server})
  }

  function Fold(id: NodeId, leading: bool, commit: LogIndex, acc: Effective, entries: seq<LogEntry>, first: LogIndex): Effective
    decreases |entries|
  {
    if entries == [] then acc
    else Fold(id, leading, commit, FoldOne(id, leading && commit < first, acc, first, entries[0].command), entries[1..], first + 1)
  }

  function EffectiveMembership(s: NodeState): Effective {
    Fold(s.id, s.role == Leader, s.commitIndex, Effective(s.base.peers, s.base.selfMember, 0), s.log.entries, s.log.snapshotIndex + 1)
  }

  ghost function Seeded(keys: set<NodeId>, value: LogIndex): (m: map<NodeId, LogIndex>)
    ensures m.Keys == keys && forall p :: p in keys ==> m[p] == value
    decreases keys
  {
    if keys == {} then map[]
    else
      var p :| p in keys;
      Seeded(keys - {p}, value)[p := value]
  }

  ghost function RefreshMembership(s: NodeState): NodeState {
    var eff := EffectiveMembership(s);
    var added := if s.role == Leader then eff.peers.Keys - s.peers.Keys else {};
    var removed := s.peers.Keys - eff.peers.Keys;
    s.(peers := eff.peers,
       selfMember := eff.selfMember,
       pendingSelfRemoval := eff.pendingSelfRemoval,
       nextIndex := (s.nextIndex + Seeded(added, 1)) - removed,
       matchIndex := (s.matchIndex + Seeded(added, 0)) - removed)
  }

  /** A refresh touches the membership and the progress of peers, and nothing else. */
  lemma RefreshKeeps()
    ensures forall s {:trigger RefreshMembership(s)} :: var s' := RefreshMembership(s); var e := EffectiveMembership(s);
              s' == s.(peers := e.peers, selfMember := e.selfMember, pendingSelfRemoval := e.pendingSelfRemoval,
                       nextIndex := s'.nextIndex, matchIndex := s'.matchIndex)
  {
    hide EffectiveMembership, Seeded;
  }

  /** The fold compaction runs over the entries it is about to discard. */
  function FoldCommittedOne(id: NodeId, base: Membership, command: Command): Membership {
    match command
    case Client(_) => base
    case AddServer(server, address) =>
      if server == id then base.(selfMember := true) else base.(peers := base.peers[server := address])
    case RemoveServer(server) =>
      if server == id then base.(selfMember := false) else base.(peers := base.peers - {server})
  }

  function FoldCommitted(id: NodeId, base: Membership, entries: seq<LogEntry>): Membership
    decreases |entries|
  {
    if entries == [] then base else FoldCommitted(id, FoldCommittedOne(id, base, entries[0].command), entries[1..])
  }

  // ------------------------------------------------------------------------------------------
  // Applying and compacting
  // ------------------------------------------------------------------------------------------

  /** Calls of the apply callback for the indices in (from, to]; membership changes never reach it. */
  function ApplyEvents(l: LogState, from: LogIndex, to: LogIndex): seq<ApplyEvent>
    decreases to
  {
    if to <= from then []
    else ApplyEvents(l, from, to - 1) +
         match At(l, to)
         case None => []
         case Some(e) => if e.command.Client? then [ApplyEvent(e.index, e.command)] else []
  }

  /** Apply everything up to `target`; each step persists the applied index. */
  function ApplyUpTo(s: NodeState, target: LogIndex): NodeState {
    if s.lastApplied < target
    then s.(lastApplied := target, log := s.log.(appliedIndex := target))
    else s
  }

  /** Unsigned subtraction: an applied index below the boundary also passes the test, and then
      there is nothing to fold and CompactTo ignores the request. */
  predicate CompactionDue(lastApplied: LogIndex, snapshot: LogIndex) {
    lastApplied < snapshot || lastApplied - snapshot >= COMPACTION_THRESHOLD
  }

  function EntriesUpTo(l: LogState, index: LogIndex): seq<LogEntry> {
    if index <= l.snapshotIndex then [] else l.entries[..Min(index - l.snapshotIndex, |l.entries|)]
  }

  function CompactApplied(s: NodeState): NodeState {
    if CompactionDue(s.lastApplied, s.log.snapshotIndex) then
      s.(base := FoldCommitted(s.id, s.base, EntriesUpTo(s.log, s.lastApplied)),
         log := CompactTo(s.log, s.lastApplied, TermAt(s.log, s.lastApplied)))
    else s
  }

  function ApplyCommitted(s: NodeState): Outcome {
    Outcome(CompactApplied(ApplyUpTo(s, s.commitIndex)), ApplyEvents(s.log, s.lastApplied, s.commitIndex))
  }

  /** Applying touches the applied index, the log and the membership base, and nothing else. */
  lemma ApplyKeeps()
    ensures forall s {:trigger ApplyCommitted(s)} :: var s' := ApplyCommitted(s).node;
              s' == s.(lastApplied := s'.lastApplied, log := s'.log, base := s'.base)
  {
    hide ApplyEvents, FoldCommitted, CompactTo;
  }

  // ------------------------------------------------------------------------------------------
  // Roles
  // ------------------------------------------------------------------------------------------

  function BecomeFollower(s: NodeState, term: Term): NodeState {
    var s1 := if term > s.currentTerm then s.(currentTerm := term, votedFor := None) else s;
    s1.(role := Follower)
  }

  ghost function BecomeLeader(s: NodeState): NodeState {
    var s1 := RefreshMembership(s);
    s1.(role := Leader, leaderHint := s.id,
        nextIndex := s1.nextIndex + Seeded(s1.peers.Keys, LastIndex(s1.log) + 1),
        matchIndex := s1.matchIndex + Seeded(s1.peers.Keys, 0))
  }

  // ------------------------------------------------------------------------------------------
  // Elections
  // ------------------------------------------------------------------------------------------

  predicate IsMajority(votes: nat, peerCount: nat) { votes * 2 > peerCount + 1 }

  /** The state afterwards and whether vote requests go out. */
  ghost function StartElection(s: NodeState): (NodeState, bool) {
    var s1 := RefreshMembership(s);
    if !s1.selfMember then (s1, false)
    else
      var s2 := s1.(currentTerm := s1.currentTerm + 1, votedFor := Some(s1.id), role := Candidate, votesReceived := 1);
      if IsMajority(1, |s2.peers|) then (BecomeLeader(s2), false) else (s2, true)
  }

  function VoteRequestOf(s: NodeState): VoteRequest {
    VoteRequest(s.currentTerm, s.id, LastIndex(s.log), LastTerm(s.log))
  }

  predicate CandidateLogOk(s: NodeState, req: VoteRequest) {
    || req.lastLogTerm > LastTerm(s.log)
    || (req.lastLogTerm == LastTerm(s.log) && req.lastLogIndex >= LastIndex(s.log))
  }

  /** `recentLeader`: a leader was in contact within the minimal election timeout. */
  function HandleRequestVote(s: NodeState, req: VoteRequest, recentLeader: bool): (NodeState, VoteReply) {
    if recentLeader || req.term < s.currentTerm then (s, VoteReply(s.currentTerm, false))
    else
      var s1 := if req.term > s.currentTerm then BecomeFollower(s, req.term) else s;
      var elsewhere := s1.votedFor.Some? && s1.votedFor.value != req.candidate;
      if !elsewhere && CandidateLogOk(s1, req)
      then (s1.(votedFor := Some(req.candidate)), VoteReply(s1.currentTerm, true))
      else (s1, VoteReply(s1.currentTerm, false))
  }

  ghost function HandleVoteReply(s: NodeState, electionTerm: Term, reply: VoteReply): NodeState {
    if reply.term > s.currentTerm then BecomeFollower(s, reply.term)
    else if s.role != Candidate || electionTerm != s.currentTerm || !reply.granted then s
    else
      var s1 := s.(votesReceived := s.votesReceived + 1);
      if IsMajority(s1.votesReceived, |s1.peers|) then BecomeLeader(s1) else s1
  }

  // ------------------------------------------------------------------------------------------
  // Replication
  // ------------------------------------------------------------------------------------------

  function BackerSet(matches: map<NodeId, LogIndex>, index: LogIndex): set<NodeId> {
    set p | p in matches && matches[p] >= index
  }

  /** Replicas known to hold everything up to `index`, counting the leader itself. */
  function Backers(last: LogIndex, matches: map<NodeId, LogIndex>, index: LogIndex): nat {
    (if last >= index then 1 else 0) + |BackerSet(matches, index)|
  }

  ghost predicate BackedByMajority(last: LogIndex, matches: map<NodeId, LogIndex>, index: LogIndex) {
    2 * Backers(last, matches, index) > |matches| + 1
  }

  /** The highest index a majority holds. */
  ghost predicate IsMajorityIndex(last: LogIndex, matches: map<NodeId, LogIndex>, index: LogIndex) {
    && BackedByMajority(last, matches, index)
    && forall higher :: higher > index ==> !BackedByMajority(last, matches, higher)
  }

  ghost function MajorityIndex(last: LogIndex, matches: map<NodeId, LogIndex>): (index: LogIndex)
    ensures IsMajorityIndex(last, matches, index)
  {
    MajorityIndexExists(last, matches);
    var index :| IsMajorityIndex(last, matches, index);
    index
  }

  lemma BackersShrink(last: LogIndex, matches: map<NodeId, LogIndex>, low: LogIndex, high: LogIndex)
    requires low <= high
    ensures Backers(last, matches, high) <= Backers(last, matches, low)
  {
    SubsetSize(BackerSet(matches, high), BackerSet(matches, low));
  }

  lemma {:induction false} UpperBound(last: LogIndex, matches: map<NodeId, LogIndex>) returns (bound: LogIndex)
    ensures last < bound && forall p :: p in matches ==> matches[p] < bound
    decreases |matches|
  {
    if matches == map[] {
      bound := last + 1;
    } else {
      var p :| p in matches;
      bound := UpperBound(last, matches - {p});
      assert forall q :: q in matches && q != p ==> q in matches - {p};
      if matches[p] >= bound { bound := matches[p] + 1; }
    }
  }

  lemma MajorityIndexExists(last: LogIndex, matches: map<NodeId, LogIndex>)
    ensures exists index :: IsMajorityIndex(last, matches, index)
  {
    var bound := UpperBound(last, matches);
    assert BackerSet(matches, bound) == {};
    assert BackerSet(matches, 0) == matches.Keys;
    assert BackedByMajority(last, matches, 0);
    var index := bound;
    while !BackedByMajority(last, matches, index)
      invariant 0 <= index <= bound
      invariant forall higher :: index < higher <= bound ==> !BackedByMajority(last, matches, higher)
      decreases index
    {
      index := index - 1;
    }
    forall higher | higher > index
      ensures !BackedByMajority(last, matches, higher)
    {
      if higher > bound { BackersShrink(last, matches, bound, higher); }
    }
    assert IsMajorityIndex(last, matches, index);
  }

  lemma MajorityIndexUnique(last: LogIndex, matches: map<NodeId, LogIndex>, a: LogIndex, b: LogIndex)
    requires IsMajorityIndex(last, matches, a) && IsMajorityIndex(last, matches, b)
    ensures a == b
  {
  }

  ghost function MaybeAdvanceCommitIndex(s: NodeState): Outcome {
    var majority := MajorityIndex(LastIndex(s.log), s.matchIndex);
    if majority > s.commitIndex && TermAt(s.log, majority) == s.currentTerm then
      var applied := ApplyCommitted(s.(commitIndex := majority));
      var s1 := applied.node;
      if s1.pendingSelfRemoval != 0 && s1.commitIndex >= s1.pendingSelfRemoval then
        var s2 := RefreshMembership(s1);
        Outcome(if s2.role == Leader && !s2.selfMember then s2.(role := Follower) else s2, applied.events)
      else applied
    else Outcome(s, [])
  }

  function IndexOr(m: map<NodeId, LogIndex>, p: NodeId, default: LogIndex): LogIndex {
    if p in m then m[p] else default
  }

  /** `next_index_[peer]` reads 0 for a peer it has no entry for, and 0 never exceeds the boundary. */
  predicate NeedsSnapshot(s: NodeState, peer: NodeId) { IndexOr(s.nextIndex, peer, 0) <= s.log.snapshotIndex }

  /** The append request for a peer whose next entry is still in the log: the whole suffix. */
  function AppendRequestFor(s: NodeState, peer: NodeId): AppendRequest
    requires !NeedsSnapshot(s, peer)
  {
    var next := IndexOr(s.nextIndex, peer, 0);
    AppendRequest(s.currentTerm, s.id, next - 1, TermAt(s.log, next - 1),
      if next <= LastIndex(s.log) then s.log.entries[next - s.log.snapshotIndex - 1..] else [], s.commitIndex)
  }

  ghost function HandleAppendEntries(s: NodeState, req: AppendRequest): (Outcome, AppendReply) {
    if req.term < s.currentTerm then (Outcome(s, []), AppendReply(s.currentTerm, false, 0))
    else
      var s1 := if req.term > s.currentTerm || s.role != Follower then BecomeFollower(s, req.term) else s;
      var s2 := s1.(leaderHint := req.leader);
      if !PrevMatches(s2.log, req.prevLogIndex, req.prevLogTerm)
      then (Outcome(s2, []), AppendReply(s2.currentTerm, false, 0))
      else
        var s3 := RefreshMembership(
          s2.(log := AppendEntriesFrom(s2.log, req.prevLogIndex, req.prevLogTerm, req.entries)));
        var applied :=
          if req.leaderCommit > s3.commitIndex
          then ApplyCommitted(s3.(commitIndex := Min(req.leaderCommit, LastIndex(s3.log))))
          else Outcome(s3, []);
        (applied, AppendReply(s3.currentTerm, true, req.prevLogIndex + |req.entries|))
  }

  ghost function HandleAppendReply(s: NodeState, peer: NodeId, req: AppendRequest, reply: AppendReply): Outcome {
    if peer !in s.peers then Outcome(s, [])
    else if reply.term > s.currentTerm then Outcome(BecomeFollower(s, reply.term), [])
    else if s.role != Leader || req.term != s.currentTerm then Outcome(s, [])
    else if reply.success then
      var match' := Max(IndexOr(s.matchIndex, peer, 0), req.prevLogIndex + |req.entries|);
      MaybeAdvanceCommitIndex(s.(matchIndex := s.matchIndex[peer := match'], nextIndex := s.nextIndex[peer := match' + 1]))
    else
      var next := IndexOr(s.nextIndex, peer, 0);
      Outcome(s.(nextIndex := s.nextIndex[peer := if next > 1 then next - 1 else next]), [])
  }

  // ------------------------------------------------------------------------------------------
  // Snapshots
  // ------------------------------------------------------------------------------------------

  function SnapshotRequestOf(s: NodeState): SnapshotRequest {
    SnapshotRequest(s.currentTerm, s.id, s.lastApplied, TermAt(s.log, s.lastApplied), s.peers[s.id := s.ownAddress])
  }

  function HandleSnapshotReply(s: NodeState, peer: NodeId, req: SnapshotRequest, reply: SnapshotReply): NodeState {
    if peer !in s.peers then s
    else if reply.term > s.currentTerm then BecomeFollower(s, reply.term)
    else if s.role != Leader || req.term != s.currentTerm then s
    else s.(nextIndex := s.nextIndex[peer := req.lastIncludedIndex + 1],
            matchIndex := s.matchIndex[peer := req.lastIncludedIndex])
  }

  /** First critical section of an install: None means that the restore goes ahead. */
  function BeginInstall(s: NodeState, req: SnapshotRequest): (NodeState, Option<SnapshotReply>) {
    if req.term < s.currentTerm then (s, Some(SnapshotReply(s.currentTerm)))
    else
      var s1 := if req.term > s.currentTerm || s.role != Follower then BecomeFollower(s, req.term) else s;
      var s2 := s1.(leaderHint := req.leader);
      (s2, if req.lastIncludedIndex <= s2.log.snapshotIndex then Some(SnapshotReply(s2.currentTerm)) else None)
  }

  /** Second critical section, after the restore; anything may have happened in between. */
  ghost function FinishInstall(s: NodeState, req: SnapshotRequest): (NodeState, SnapshotReply) {
    if req.lastIncludedIndex <= s.log.snapshotIndex then (s, SnapshotReply(s.currentTerm))
    else
      var s1 := s.(log := CompactTo(s.log, req.lastIncludedIndex, req.lastIncludedTerm),
                   commitIndex := Max(s.commitIndex, req.lastIncludedIndex));
      var s2 := ApplyUpTo(s1, req.lastIncludedIndex);
      var own := if s.id in req.membership then req.membership[s.id] else s.ownAddress;
      var s3 := s2.(ownAddress := own, base := Membership(req.membership - {s.id}, s.id in req.membership, own));
      (RefreshMembership(s3), SnapshotReply(s.currentTerm))
  }

  // ------------------------------------------------------------------------------------------
  // Proposals and restarts
  // ------------------------------------------------------------------------------------------

  /** A membership change is still uncommitted somewhere in the log. */
  predicate ChangePending(s: NodeState) {
    exists i {:trigger At(s.log, i)} | s.commitIndex < i <= LastIndex(s.log) :: At(s.log, i).Some? && !At(s.log, i).value.command.Client?
  }

  predicate ProposalAllowed(s: NodeState, command: Command) {
    && s.role == Leader
    && match command
       case Client(_) => true
       case AddServer(server, _) => !ChangePending(s) && server != s.id && server !in s.peers
       case RemoveServer(server) => !ChangePending(s) && (server == s.id || server in s.peers)
  }

  ghost function Propose(s: NodeState, command: Command): Outcome {
    if !ProposalAllowed(s, command) then Outcome(s, [])
    else MaybeAdvanceCommitIndex(RefreshMembership(s.(log := Append(s.log, s.currentTerm, command))))
  }

  /** What a new process finds on disk, with everything volatile back at its default. */
  function Restart(s: NodeState): NodeState {
    NodeState(s.id, s.currentTerm, s.votedFor, s.log, s.base,
      s.base.ownAddress, s.base.peers, s.base.selfMember, 0,
      Follower, 0, s.log.appliedIndex, s.log.appliedIndex, 0, map[], map[])
  }
}
