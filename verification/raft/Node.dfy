/**
 The node object. Its methods are the critical sections, with the loops they run, each proved to
 take the node from one state to the next exactly as the functions of RaftNodeState say.
 */
module RaftNodes {
  import opened Options
  import opened RaftTypes
  import opened RaftLogs
  import opened RaftNodeState
  import opened RaftDurable
  import RaftMembership

  // ------------------------------------------------------------------------------------------
  // The majority index by sorting
  // ------------------------------------------------------------------------------------------

  function CountAtLeast(s: seq<LogIndex>, x: LogIndex): (n: nat)
    ensures n <= |s|
  {
    if s == [] then 0 else CountAtLeast(s[..|s| - 1], x) + if s[|s| - 1] >= x then 1 else 0
  }

  lemma {:induction false} CountConcat(a: seq<LogIndex>, b: seq<LogIndex>, x: LogIndex)
    ensures CountAtLeast(a + b, x) == CountAtLeast(a, x) + CountAtLeast(b, x)
    decreases |b|
  {
    if b == [] {
      assert a + b == a;
    } else {
      assert (a + b)[..|a + b| - 1] == a + b[..|b| - 1];
      CountConcat(a, b[..|b| - 1], x);
    }
  }

  ghost predicate Descending(s: seq<LogIndex>) { forall i, j :: 0 <= i <= j < |s| ==> s[i] >= s[j] }

  lemma {:induction false} CountDescending(s: seq<LogIndex>, x: LogIndex, k: nat)
    requires Descending(s) && k < |s|
    ensures s[k] >= x ==> CountAtLeast(s, x) >= k + 1
    ensures s[k] < x ==> CountAtLeast(s, x) <= k
    decreases |s|
  {
    if k < |s| - 1 {
      CountDescending(s[..|s| - 1], x, k);
    } else if k > 0 {
      CountDescending(s[..|s| - 1], x, k - 1);
    }
  }

  lemma CountOneMore(s: seq<LogIndex>, y: LogIndex, x: LogIndex)
    ensures CountAtLeast(s + [y], x) == CountAtLeast(s, x) + if y >= x then 1 else 0
  {
    assert (s + [y])[..|s|] == s;
  }

  lemma InsertCount(s: seq<LogIndex>, at: nat, y: LogIndex, x: LogIndex)
    requires at <= |s|
    ensures CountAtLeast(s[..at] + [y] + s[at..], x) == CountAtLeast(s, x) + if y >= x then 1 else 0
  {
    CountConcat(s[..at] + [y], s[at..], x);
    CountOneMore(s[..at], y, x);
    CountConcat(s[..at], s[at..], x);
    assert s[..at] + s[at..] == s;
  }

  method SortDescending(s: seq<LogIndex>) returns (sorted: seq<LogIndex>)
    ensures Descending(sorted) && |sorted| == |s|
    ensures forall x :: CountAtLeast(sorted, x) == CountAtLeast(s, x)
  {
    hide CountAtLeast;
    sorted := [];
    var i := 0;
    while i < |s|
      invariant 0 <= i <= |s| && |sorted| == i && Descending(sorted)
      invariant forall x :: CountAtLeast(sorted, x) == CountAtLeast(s[..i], x)
    {
      var at := 0;
      while at < |sorted| && sorted[at] >= s[i]
        invariant 0 <= at <= |sorted|
        invariant forall j :: 0 <= j < at ==> sorted[j] >= s[i]
      {
        at := at + 1;
      }
      forall x
        ensures CountAtLeast(sorted[..at] + [s[i]] + sorted[at..], x) == CountAtLeast(s[..i + 1], x)
      {
        InsertCount(sorted, at, s[i], x);
        CountOneMore(s[..i], s[i], x);
        assert s[..i] + [s[i]] == s[..i + 1];
      }
      sorted := sorted[..at] + [s[i]] + sorted[at..];
      i := i + 1;
    }
    assert s[..i] == s;
  }

  /** The middle of the sorted indices is the highest index a majority holds. */
  lemma MiddleIsMajority(last: LogIndex, matches: map<NodeId, LogIndex>, sorted: seq<LogIndex>)
    requires Descending(sorted) && |sorted| == |matches| + 1
    requires forall x :: CountAtLeast(sorted, x) == Backers(last, matches, x)
    ensures IsMajorityIndex(last, matches, sorted[|sorted| / 2])
  {
    var k := |sorted| / 2;
    CountDescending(sorted, sorted[k], k);
    forall higher | higher > sorted[k]
      ensures !BackedByMajority(last, matches, higher)
    {
      CountDescending(sorted, higher, k);
    }
  }

  lemma OneMoreMatch(matches: map<NodeId, LogIndex>, done: set<NodeId>, pid: NodeId, x: LogIndex)
    requires pid in matches && pid !in done
    ensures |BackerSet(matches, x) * (done + {pid})| == |BackerSet(matches, x) * done| + if matches[pid] >= x then 1 else 0
  {
    var before := BackerSet(matches, x) * done;
    assert BackerSet(matches, x) * (done + {pid}) == if matches[pid] >= x then before + {pid} else before;
  }

  /** The indices count the node itself and the peers already visited. */
  ghost predicate Collected(last: LogIndex, matches: map<NodeId, LogIndex>, indices: seq<LogIndex>, done: set<NodeId>) {
    forall x :: CountAtLeast(indices, x) == (if last >= x then 1 else 0) + |BackerSet(matches, x) * done|
  }

  lemma SelfCollected(last: LogIndex, matches: map<NodeId, LogIndex>)
    ensures Collected(last, matches, [last], {})
  {
    hide BackerSet, CountAtLeast;
    forall x ensures CountAtLeast([last], x) == (if last >= x then 1 else 0) + |BackerSet(matches, x) * {}| {
      CountOneMore([], last, x);
      CountNone(x);
      assert [] + [last] == [last] && BackerSet(matches, x) * {} == {};
    }
  }

  /** One more match index collected. */
  lemma MatchCollected(last: LogIndex, matches: map<NodeId, LogIndex>, indices: seq<LogIndex>, done: set<NodeId>, pid: NodeId)
    requires pid in matches && pid !in done && Collected(last, matches, indices, done)
    ensures Collected(last, matches, indices + [matches[pid]], done + {pid})
  {
    hide BackerSet, CountAtLeast;
    forall x
      ensures CountAtLeast(indices + [matches[pid]], x) == (if last >= x then 1 else 0) + |BackerSet(matches, x) * (done + {pid})|
    {
      CountOneMore(indices, matches[pid], x);
      OneMoreMatch(matches, done, pid, x);
    }
  }

  lemma AllCollected(last: LogIndex, matches: map<NodeId, LogIndex>, indices: seq<LogIndex>)
    requires Collected(last, matches, indices, matches.Keys)
    ensures forall x :: CountAtLeast(indices, x) == Backers(last, matches, x)
  {
    hide BackerSet, CountAtLeast;
    forall x ensures BackerSet(matches, x) * matches.Keys == BackerSet(matches, x) { BackersAreMatches(matches, x); }
  }

  method CollectMatches(last: LogIndex, matches: map<NodeId, LogIndex>) returns (indices: seq<LogIndex>)
    ensures |indices| == |matches| + 1
    ensures forall x :: CountAtLeast(indices, x) == Backers(last, matches, x)
  {
    hide Collected, BackerSet, CountAtLeast, Backers;
    indices := [last];
    SelfCollected(last, matches);
    var todo := matches.Keys;
    ghost var done: set<NodeId> := {};
    while todo != {}
      invariant todo + done == matches.Keys && todo !! done
      invariant |indices| == |done| + 1 && Collected(last, matches, indices, done)
      decreases |todo|
    {
      var pid :| pid in todo;
      MatchCollected(last, matches, indices, done, pid);
      indices := indices + [matches[pid]];
      todo, done := todo - {pid}, done + {pid};
    }
    assert done == matches.Keys && |matches.Keys| == |matches|;
    AllCollected(last, matches, indices);
  }

  lemma BackersAreMatches(matches: map<NodeId, LogIndex>, x: LogIndex)
    ensures BackerSet(matches, x) <= matches.Keys
  {
  }

  lemma CountNone(x: LogIndex)
    ensures CountAtLeast([], x) == 0
  {
  }

  // ------------------------------------------------------------------------------------------
  // The node
  // ------------------------------------------------------------------------------------------

  /** `base` with the entries of `m` for every key already visited. */
  function Covered<V>(base: map<NodeId, V>, m: map<NodeId, V>, todo: set<NodeId>): map<NodeId, V> {
    base + (m - todo)
  }

  lemma CoverSteps<V>(base: map<NodeId, V>, m: map<NodeId, V>, todo: set<NodeId>, p: NodeId)
    ensures Covered(base, m, m.Keys) == base && Covered(base, m, {}) == base + m
    ensures p in m && p in todo ==> Covered(base, m, todo - {p}) == Covered(base, m, todo)[p := m[p]]
    ensures p in todo ==> (p in Covered(base, m, todo) <==> p in base)
  {
  }

  /** The progress of new peers is seeded as they are visited. */
  ghost function Started(m: map<NodeId, LogIndex>, all: set<NodeId>, known: set<NodeId>, todo: set<NodeId>, value: LogIndex): map<NodeId, LogIndex> {
    m + Seeded(all - known - todo, value)
  }

  lemma StartEnds(m: map<NodeId, LogIndex>, all: set<NodeId>, known: set<NodeId>, value: LogIndex)
    ensures Started(m, all, known, all, value) == m && Started(m, all, known, {}, value) == m + Seeded(all - known, value)
  {
  }

  lemma StartStep(m: map<NodeId, LogIndex>, all: set<NodeId>, known: set<NodeId>, todo: set<NodeId>, p: NodeId, value: LogIndex)
    requires p in todo && p in all
    ensures Started(m, all, known, todo - {p}, value) ==
            if p in known then Started(m, all, known, todo, value) else Started(m, all, known, todo, value)[p := value]
  {
  }

  /** What is left when every visited key outside `live` has been erased. */
  function Remaining<V>(m: map<NodeId, V>, all: set<NodeId>, live: set<NodeId>, todo: set<NodeId>): map<NodeId, V> {
    m - (all - live - todo)
  }

  lemma RemainSteps<V>(m: map<NodeId, V>, all: set<NodeId>, live: set<NodeId>, todo: set<NodeId>, p: NodeId)
    ensures Remaining(m, all, live, all) == m && Remaining(m, all, live, {}) == m - (all - live)
    ensures p in live ==> Remaining(m, all, live, todo - {p}) == Remaining(m, all, live, todo)
    ensures p in all && p !in live ==> Remaining(m, all, live, todo - {p}) == Remaining(m, all, live, todo) - {p}
  {
  }

  lemma NoSeeds(m: map<NodeId, LogIndex>, value: LogIndex)
    ensures m + Seeded({}, value) == m
  {
  }

  datatype Progress = Progress(peers: map<NodeId, PeerAddress>, next: map<NodeId, LogIndex>, matching: map<NodeId, LogIndex>)

  /** The loop that adopts new peers, with those in `todo` still to come. */
  ghost predicate Adopting(leading: bool, effective: map<NodeId, PeerAddress>, before: Progress, todo: set<NodeId>, now: Progress) {
    && now.peers == Covered(before.peers, effective, todo)
    && now.next == (if leading then Started(before.next, effective.Keys, before.peers.Keys, todo, 1) else before.next)
    && now.matching == (if leading then Started(before.matching, effective.Keys, before.peers.Keys, todo, 0) else before.matching)
  }

  lemma AdoptStarts(leading: bool, effective: map<NodeId, PeerAddress>, before: Progress)
    ensures Adopting(leading, effective, before, effective.Keys, before)
  {
    hide Seeded, Covered, Started;
    CoverSteps(before.peers, effective, effective.Keys, 0);
    StartEnds(before.next, effective.Keys, before.peers.Keys, 1);
    StartEnds(before.matching, effective.Keys, before.peers.Keys, 0);
  }

  lemma AdoptStep(leading: bool, effective: map<NodeId, PeerAddress>, before: Progress, todo: set<NodeId>, now: Progress, pid: NodeId)
    requires Adopting(leading, effective, before, todo, now) && pid in todo && todo <= effective.Keys
    ensures var starts := leading && pid !in now.peers;
            Adopting(leading, effective, before, todo - {pid},
              Progress(now.peers[pid := effective[pid]], if starts then now.next[pid := 1] else now.next, if starts then now.matching[pid := 0] else now.matching))
  {
    hide Seeded, Covered, Started;
    CoverSteps(before.peers, effective, todo, pid);
    StartStep(before.next, effective.Keys, before.peers.Keys, todo, pid, 1);
    StartStep(before.matching, effective.Keys, before.peers.Keys, todo, pid, 0);
  }

  lemma AdoptEnds(leading: bool, effective: map<NodeId, PeerAddress>, before: Progress, now: Progress)
    requires Adopting(leading, effective, before, {}, now)
    ensures var added := if leading then effective.Keys - before.peers.Keys else {};
            now.peers == before.peers + effective && now.next == before.next + Seeded(added, 1) && now.matching == before.matching + Seeded(added, 0)
  {
    hide Seeded, Covered, Started;
    CoverSteps(before.peers, effective, {}, 0);
    StartEnds(before.next, effective.Keys, before.peers.Keys, 1);
    StartEnds(before.matching, effective.Keys, before.peers.Keys, 0);
    NoSeeds(before.next, 1);
    NoSeeds(before.matching, 0);
  }

  lemma AdoptThenDrop<V>(m: map<NodeId, V>, effective: map<NodeId, V>)
    ensures (m + effective) - ((m + effective).Keys - effective.Keys) == effective
    ensures (m + effective).Keys - effective.Keys == m.Keys - effective.Keys
  {
  }

  lemma AppendRejected(l: LogState, req: AppendRequest)
    requires !PrevMatches(l, req.prevLogIndex, req.prevLogTerm)
    ensures AppendEntriesFrom(l, req.prevLogIndex, req.prevLogTerm, req.entries) == l
  {
  }

  /** HandleAppendEntries once the request's term is adopted. */
  ghost function Followed(s: NodeState, req: AppendRequest): (Outcome, AppendReply) {
    if !PrevMatches(s.log, req.prevLogIndex, req.prevLogTerm) then (Outcome(s, []), AppendReply(s.currentTerm, false, 0))
    else
      var taken := RefreshMembership(s.(log := AppendEntriesFrom(s.log, req.prevLogIndex, req.prevLogTerm, req.entries)));
      (if req.leaderCommit > taken.commitIndex
       then ApplyCommitted(taken.(commitIndex := Min(req.leaderCommit, LastIndex(taken.log))))
       else Outcome(taken, []),
       AppendReply(s.currentTerm, true, req.prevLogIndex + |req.entries|))
  }

  /** The state with the request's term and leader adopted. */
  function Adopted(s: NodeState, req: AppendRequest): NodeState {
    (if req.term > s.currentTerm || s.role != Follower then BecomeFollower(s, req.term) else s).(leaderHint := req.leader)
  }

  lemma HandledInTwo(s: NodeState, req: AppendRequest)
    ensures HandleAppendEntries(s, req) ==
            if req.term < s.currentTerm then (Outcome(s, []), AppendReply(s.currentTerm, false, 0)) else Followed(Adopted(s, req), req)
    ensures Adopted(s, req).log == s.log
  {
    hide AppendEntriesFrom, EffectiveMembership, ApplyCommitted, PrevMatches;
  }

  class RaftNode {
    const id: NodeId
    const state: PersistentState
    const log: RaftLog
    const membership: MembershipState
    var ownAddress: PeerAddress
    var peers: map<NodeId, PeerAddress>
    var selfIsMember: bool
    var pendingSelfRemoval: LogIndex
    var role: Role
    var leaderHint: NodeId
    var commitIndex: LogIndex
    var lastApplied: LogIndex
    var votesReceived: nat
    var nextIndex: map<NodeId, LogIndex>
    var matchIndex: map<NodeId, LogIndex>
    /** Every call of the apply callback so far. */
    var applied: seq<ApplyEvent>

    ghost predicate Valid()
      reads this, state, log, membership
    {
      state.Valid() && log.Valid() && membership.Valid() && membership.ownAddress == ownAddress
    }

    ghost function View(): NodeState
      reads this, state, log, membership
    {
      NodeState(id, state.currentTerm, state.votedFor, log.State(), membership.Base(),
        ownAddress, peers, selfIsMember, pendingSelfRemoval,
        role, leaderHint, commitIndex, lastApplied, votesReceived, nextIndex, matchIndex)
    }

    /** What a new process finds on disk: the files, or the bootstrap arguments on the very first run. */
    static ghost function FirstView(id: NodeId, address: PeerAddress, seeds: map<NodeId, PeerAddress>, joining: bool,
                                    voteFile: Option<VoteFile>, logFile: Option<LogFile>, memberFile: Option<Membership>): NodeState {
      var base := if memberFile.Some? then memberFile.value else Membership(seeds, !joining, address);
      NodeState(id, LoadedTerm(voteFile), LoadedVote(voteFile), Loaded(logFile), base,
        base.ownAddress, base.peers, base.selfMember, 0, Follower, 0, Loaded(logFile).appliedIndex, Loaded(logFile).appliedIndex, 0, map[], map[])
    }

    constructor (nodeId: NodeId, address: PeerAddress, seeds: map<NodeId, PeerAddress>, joining: bool,
                 voteFile: Option<VoteFile>, logFile: Option<LogFile>, memberFile: Option<Membership>)
      requires Gapless(Loaded(logFile))
      ensures Valid() && fresh(state) && fresh(log) && fresh(membership)
      ensures View() == FirstView(nodeId, address, seeds, joining, voteFile, logFile, memberFile)
      ensures applied == []
    {
      hide Gapless, Loaded, LoadedTerm, LoadedVote, RaftLog.Valid;
      id := nodeId;
      var st := new PersistentState(voteFile);
      var lg := new RaftLog(logFile);
      var ms := new MembershipState(memberFile);
      state, log, membership := st, lg, ms;
      ownAddress, peers, selfIsMember, pendingSelfRemoval := address, seeds, !joining, 0;
      role, leaderHint, votesReceived := Follower, 0, 0;
      commitIndex, lastApplied := 0, 0;
      nextIndex, matchIndex, applied := map[], map[], [];
      new;
      TakeUp(memberFile.Some?);
    }

    /** The constructor's second half: the membership record, or the bootstrap arguments written as the first
        one; and everything recorded as applied counts as committed. */
    method TakeUp(known: bool)
      requires state.Valid() && log.Valid() && (known ==> membership.Valid())
      modifies this, membership
      ensures Valid()
      ensures membership.Base() == if known then old(membership.Base()) else Membership(old(peers), old(selfIsMember), old(ownAddress))
      ensures peers == membership.basePeers && selfIsMember == membership.selfIsMember && ownAddress == membership.ownAddress
      ensures lastApplied == commitIndex == log.appliedIndex
      ensures role == old(role) && leaderHint == old(leaderHint) && votesReceived == old(votesReceived)
      ensures pendingSelfRemoval == old(pendingSelfRemoval) && nextIndex == old(nextIndex) && matchIndex == old(matchIndex) && applied == old(applied)
    {
      hide Gapless, Loaded, RaftLog.Valid;
      if known {
        peers := membership.basePeers;
        selfIsMember := membership.selfIsMember;
        ownAddress := membership.ownAddress;
      } else {
        membership.Set(peers, selfIsMember, ownAddress);
      }
      lastApplied := log.appliedIndex;
      commitIndex := log.appliedIndex;
    }

    // ----------------------------------------------------------------------------------------
    // Membership
    // ----------------------------------------------------------------------------------------

    method FoldLog() returns (effective: map<NodeId, PeerAddress>, selfMember: bool, pending: LogIndex)
      requires Valid()
      ensures Effective(effective, selfMember, pending) == EffectiveMembership(View())
    {
      effective, selfMember, pending := membership.basePeers, membership.selfIsMember, 0;
      var last := log.GetLastIndex();
      var first := log.snapshotIndex + 1;
      var i := first;
      assert log.entries[0..] == log.entries;
      while i <= last
        invariant first <= i <= last + 1
        invariant Fold(id, role == Leader, commitIndex, Effective(effective, selfMember, pending), log.entries[i - first..], i)
               == EffectiveMembership(View())
      {
        var entry := log.GetAt(i);
        assert log.entries[i - first..][1..] == log.entries[i + 1 - first..];
        match entry.value.command {
          case Client(_) =>
          case AddServer(server, address) =>
            if server == id {
              selfMember, pending := true, 0;
            } else {
              effective := effective[server := address];
            }
          case RemoveServer(server) =>
            if server == id {
              if role == Leader && commitIndex < i { pending := i; } else { selfMember := false; }
            } else {
              effective := effective - {server};
            }
        }
        i := i + 1;
      }
    }

    method AdoptPeers(effective: map<NodeId, PeerAddress>)
      modifies `peers, `nextIndex, `matchIndex
      ensures peers == old(peers) + effective
      ensures var added := if role == Leader then effective.Keys - old(peers).Keys else {};
              && nextIndex == old(nextIndex) + Seeded(added, 1)
              && matchIndex == old(matchIndex) + Seeded(added, 0)
    {
      hide Seeded, Adopting;
      ghost var before := Progress(peers, nextIndex, matchIndex);
      var todo := effective.Keys;
      AdoptStarts(role == Leader, effective, before);
      while todo != {}
        invariant todo <= effective.Keys
        invariant Adopting(role == Leader, effective, before, todo, Progress(peers, nextIndex, matchIndex))
        decreases |todo|
      {
        var pid :| pid in todo;
        AdoptStep(role == Leader, effective, before, todo, Progress(peers, nextIndex, matchIndex), pid);
        var isNew := pid !in peers;
        peers := peers[pid := effective[pid]];
        if isNew && role == Leader {
          nextIndex := nextIndex[pid := 1];
          matchIndex := matchIndex[pid := 0];
        }
        todo := todo - {pid};
      }
      AdoptEnds(role == Leader, effective, before, Progress(peers, nextIndex, matchIndex));
    }

    method DropPeers(effective: map<NodeId, PeerAddress>)
      modifies `peers, `nextIndex, `matchIndex
      ensures var removed := old(peers).Keys - effective.Keys;
              && peers == old(peers) - removed
              && nextIndex == old(nextIndex) - removed && matchIndex == old(matchIndex) - removed
    {
      hide Remaining;
      ghost var all, live := peers.Keys, effective.Keys;
      var todo := peers.Keys;
      RemainSteps(peers, all, live, todo, 0);
      RemainSteps(nextIndex, all, live, todo, 0);
      RemainSteps(matchIndex, all, live, todo, 0);
      while todo != {}
        invariant todo <= all
        invariant peers == Remaining(old(peers), all, live, todo)
        invariant nextIndex == Remaining(old(nextIndex), all, live, todo)
        invariant matchIndex == Remaining(old(matchIndex), all, live, todo)
        decreases |todo|
      {
        var pid :| pid in todo;
        RemainSteps(old(peers), all, live, todo, pid);
        RemainSteps(old(nextIndex), all, live, todo, pid);
        RemainSteps(old(matchIndex), all, live, todo, pid);
        if pid !in effective {
          nextIndex := nextIndex - {pid};
          matchIndex := matchIndex - {pid};
          peers := peers - {pid};
        }
        todo := todo - {pid};
      }
    }

    method DoRefreshMembership()
      requires Valid()
      modifies this
      ensures Valid() && View() == RefreshMembership(old(View())) && applied == old(applied)
    {
      hide EffectiveMembership, Seeded, Loaded;
      var effective, selfMember, pending := FoldLog();
      AdoptThenDrop(peers, effective);
      selfIsMember, pendingSelfRemoval := selfMember, pending;
      AdoptPeers(effective);
      DropPeers(effective);
    }

    // ----------------------------------------------------------------------------------------
    // Applying
    // ----------------------------------------------------------------------------------------

    method ApplyLoop()
      requires Valid()
      modifies `lastApplied, `applied, log
      ensures Valid() && View() == ApplyUpTo(old(View()), commitIndex)
      ensures applied == old(applied) + ApplyEvents(old(log.State()), old(lastApplied), commitIndex)
    {
      hide Loaded, Gapless;
      ghost var l := log.State();
      while lastApplied < commitIndex
        invariant old(lastApplied) <= lastApplied && (lastApplied <= commitIndex || lastApplied == old(lastApplied))
        invariant Valid() && View() == ApplyUpTo(old(View()), lastApplied)
        invariant applied == old(applied) + ApplyEvents(l, old(lastApplied), lastApplied)
      {
        lastApplied := lastApplied + 1;
        var entry := log.GetAt(lastApplied);
        assert entry == At(l, lastApplied);
        if entry.Some? && entry.value.command.Client? {
          applied := applied + [ApplyEvent(entry.value.index, entry.value.command)];
        }
        log.SetAppliedIndex(lastApplied);
      }
    }

    /** The fold of the changes about to be compacted away. */
    method FoldApplied() returns (peersNow: map<NodeId, PeerAddress>, selfMember: bool, changed: bool)
      requires Valid()
      ensures var folded := FoldCommitted(id, membership.Base(), EntriesUpTo(log.State(), lastApplied));
              folded == Membership(peersNow, selfMember, ownAddress) && (!changed ==> folded == membership.Base())
    {
      hide Loaded, Gapless;
      peersNow, selfMember, changed := membership.basePeers, membership.selfIsMember, false;
      ghost var part := EntriesUpTo(log.State(), lastApplied);
      var first := log.snapshotIndex + 1;
      var i := first;
      assert part[0..] == part;
      while i <= lastApplied
        invariant first <= i
        invariant FoldCommitted(id, Membership(peersNow, selfMember, ownAddress), if i - first <= |part| then part[i - first..] else [])
               == FoldCommitted(id, membership.Base(), part)
        invariant !changed ==> Membership(peersNow, selfMember, ownAddress) == membership.Base()
      {
        var entry := log.GetAt(i);
        if entry.Some? {
          assert entry.value == part[i - first];
          assert part[i - first..][1..] == part[i + 1 - first..];
          match entry.value.command {
            case Client(_) =>
            case AddServer(server, address) =>
              changed := true;
              if server == id { selfMember := true; } else { peersNow := peersNow[server := address]; }
            case RemoveServer(server) =>
              changed := true;
              if server == id { selfMember := false; } else { peersNow := peersNow - {server}; }
          }
        }
        i := i + 1;
      }
    }

    method DoApplyCommitted()
      requires Valid()
      modifies this, log, membership
      ensures Valid() && View() == ApplyCommitted(old(View())).node
      ensures applied == old(applied) + ApplyCommitted(old(View())).events
    {
      hide Loaded, Gapless, FoldCommitted, ApplyEvents, CompactTo;
      ApplyLoop();
      if lastApplied < log.snapshotIndex || lastApplied - log.snapshotIndex >= COMPACTION_THRESHOLD {
        var peersNow, selfMember, changed := FoldApplied();
        if changed { membership.Set(peersNow, selfMember, ownAddress); }
        var term := log.GetTermAt(lastApplied);
        log.DoCompactTo(lastApplied, term);
      }
    }

    // ----------------------------------------------------------------------------------------
    // Roles and elections
    // ----------------------------------------------------------------------------------------

    method DoBecomeFollower(term: Term)
      requires Valid()
      modifies this, state
      ensures Valid() && View() == BecomeFollower(old(View()), term) && applied == old(applied)
    {
      hide Loaded, Gapless;
      if term > state.currentTerm { state.Set(term, None); }
      role := Follower;
    }

    method DoBecomeLeader()
      requires Valid()
      modifies this
      ensures Valid() && View() == BecomeLeader(old(View())) && applied == old(applied)
    {
      hide Loaded, Gapless, RefreshMembership, Seeded, LastIndex, RaftLog.Valid;
      DoRefreshMembership();
      ghost var refreshed := View();
      role := Leader;
      leaderHint := id;
      var last := log.GetLastIndex();
      ResetProgress(last);
      assert View() == refreshed.(role := Leader, leaderHint := id, nextIndex := nextIndex, matchIndex := matchIndex);
    }

    method ResetProgress(last: LogIndex)
      modifies `nextIndex, `matchIndex
      ensures nextIndex == old(nextIndex) + Seeded(peers.Keys, last + 1)
      ensures matchIndex == old(matchIndex) + Seeded(peers.Keys, 0)
    {
      hide Seeded, Started;
      ghost var all := peers.Keys;
      var todo := peers.Keys;
      assert all - {} == all;
      StartEnds(nextIndex, all, {}, last + 1);
      StartEnds(matchIndex, all, {}, 0);
      while todo != {}
        invariant todo <= all
        invariant nextIndex == Started(old(nextIndex), all, {}, todo, last + 1)
        invariant matchIndex == Started(old(matchIndex), all, {}, todo, 0)
        decreases |todo|
      {
        var pid :| pid in todo;
        StartStep(old(nextIndex), all, {}, todo, pid, last + 1);
        StartStep(old(matchIndex), all, {}, todo, pid, 0);
        nextIndex := nextIndex[pid := last + 1];
        matchIndex := matchIndex[pid := 0];
        todo := todo - {pid};
      }
    }

    /** Whether vote requests go out; the caller sends VoteRequestOf(View()). */
    method DoStartElection() returns (sends: bool)
      requires Valid()
      modifies this, state
      ensures Valid() && (View(), sends) == StartElection(old(View())) && applied == old(applied)
    {
      hide Loaded, Gapless, RefreshMembership, BecomeLeader;
      DoRefreshMembership();
      if !selfIsMember { return false; }
      state.Set(state.currentTerm + 1, Some(id));
      role := Candidate;
      votesReceived := 1;
      if votesReceived * 2 > |peers| + 1 {
        DoBecomeLeader();
        return false;
      }
      return true;
    }

    method DoHandleRequestVote(req: VoteRequest, recentLeader: bool) returns (reply: VoteReply)
      requires Valid()
      modifies this, state
      ensures Valid() && (View(), reply) == HandleRequestVote(old(View()), req, recentLeader) && applied == old(applied)
    {
      hide Loaded, Gapless;
      if recentLeader { return VoteReply(state.currentTerm, false); }
      if req.term < state.currentTerm { return VoteReply(state.currentTerm, false); }
      if req.term > state.currentTerm { DoBecomeFollower(req.term); }
      var elsewhere := state.votedFor.Some? && state.votedFor.value != req.candidate;
      var myTerm := log.GetLastTerm();
      var myIndex := log.GetLastIndex();
      var logOk := req.lastLogTerm > myTerm || (req.lastLogTerm == myTerm && req.lastLogIndex >= myIndex);
      if !elsewhere && logOk {
        state.Set(state.currentTerm, Some(req.candidate));
        return VoteReply(state.currentTerm, true);
      }
      return VoteReply(state.currentTerm, false);
    }

    method DoHandleVoteReply(electionTerm: Term, reply: VoteReply)
      requires Valid()
      modifies this, state
      ensures Valid() && View() == HandleVoteReply(old(View()), electionTerm, reply) && applied == old(applied)
    {
      hide Loaded, Gapless, BecomeLeader;
      if reply.term > state.currentTerm {
        DoBecomeFollower(reply.term);
        return;
      }
      if role != Candidate || electionTerm != state.currentTerm { return; }
      if reply.granted {
        votesReceived := votesReceived + 1;
        if votesReceived * 2 > |peers| + 1 { DoBecomeLeader(); }
      }
    }

    // ----------------------------------------------------------------------------------------
    // Replication
    // ----------------------------------------------------------------------------------------

    method ComputeMajorityIndex() returns (majority: LogIndex)
      requires Valid()
      ensures majority == MajorityIndex(LastIndex(log.State()), matchIndex)
    {
      hide Loaded, Gapless, IsMajorityIndex, BackerSet, CountAtLeast, Descending;
      var last := log.GetLastIndex();
      var indices := CollectMatches(last, matchIndex);
      var sorted := SortDescending(indices);
      majority := sorted[|sorted| / 2];
      MiddleIsMajority(last, matchIndex, sorted);
      MajorityIndexUnique(last, matchIndex, majority, MajorityIndex(last, matchIndex));
    }

    method DoMaybeAdvanceCommitIndex()
      requires Valid()
      modifies this, log, membership
      ensures Valid() && View() == MaybeAdvanceCommitIndex(old(View())).node
      ensures applied == old(applied) + MaybeAdvanceCommitIndex(old(View())).events
    {
      hide Loaded, Gapless, IsMajorityIndex, ApplyCommitted, EffectiveMembership, Seeded;
      var majority := ComputeMajorityIndex();
      var term := log.GetTermAt(majority);
      if majority > commitIndex && term == state.currentTerm {
        commitIndex := majority;
        DoApplyCommitted();
        if pendingSelfRemoval != 0 && commitIndex >= pendingSelfRemoval {
          var wasLeader := role == Leader;
          DoRefreshMembership();
          if wasLeader && !selfIsMember { role := Follower; }
        }
      }
    }

    method CollectEntries(first: LogIndex) returns (entries: seq<LogEntry>)
      requires Valid() && first > log.snapshotIndex
      ensures entries == if first <= LastIndex(log.State()) then log.entries[first - log.snapshotIndex - 1..] else []
    {
      entries := [];
      var last := log.GetLastIndex();
      var i := first;
      var from := first - log.snapshotIndex - 1;
      while i <= last
        invariant first <= i && (i <= last + 1 || i == first)
        invariant first <= last ==> entries == log.entries[from..i - log.snapshotIndex - 1]
        invariant first > last ==> entries == []
      {
        var entry := log.GetAt(i);
        entries := entries + [entry.value];
        i := i + 1;
      }
    }

    /** The request for a peer, or None when it has to be sent a snapshot instead. A peer without an
        entry gets the default 0. */
    method PrepareAppend(peer: NodeId) returns (req: Option<AppendRequest>)
      requires Valid() && role == Leader
      modifies `nextIndex
      ensures Valid() && View() == old(View()).(nextIndex := old(nextIndex)[peer := IndexOr(old(nextIndex), peer, 0)])
      ensures req.None? <==> NeedsSnapshot(old(View()), peer)
      ensures req.Some? ==> req.value == AppendRequestFor(old(View()), peer)
    {
      hide Loaded, Gapless;
      if peer !in nextIndex { nextIndex := nextIndex[peer := 0]; }
      var next := nextIndex[peer];
      if next <= log.snapshotIndex { return None; }
      var prevTerm := log.GetTermAt(next - 1);
      var entries := CollectEntries(next);
      return Some(AppendRequest(state.currentTerm, id, next - 1, prevTerm, entries, commitIndex));
    }

    /** The check of the request against the log, and the merge. */
    method TakeEntries(req: AppendRequest) returns (ok: bool)
      requires Valid()
      requires req.prevLogIndex <= LastIndex(View().log) || req.prevLogTerm != 0 || req.entries == []
      modifies log
      ensures Valid() && ok == PrevMatches(old(View()).log, req.prevLogIndex, req.prevLogTerm)
      ensures View() == old(View()).(log := AppendEntriesFrom(old(View()).log, req.prevLogIndex, req.prevLogTerm, req.entries))
    {
      hide Loaded, Gapless, AppendEntriesFrom, PrevMatches;
      ok := log.DoAppendEntriesFrom(req.prevLogIndex, req.prevLogTerm, req.entries);
    }

    /** What follows once the request's term is adopted. */
    method FollowEntries(req: AppendRequest) returns (reply: AppendReply)
      requires Valid()
      requires req.prevLogIndex <= LastIndex(View().log) || req.prevLogTerm != 0 || req.entries == []
      modifies this, log, membership
      ensures Valid()
      ensures (View(), reply) == (Followed(old(View()), req).0.node, Followed(old(View()), req).1)
      ensures applied == old(applied) + Followed(old(View()), req).0.events
    {
      hide Loaded, Gapless, ApplyCommitted, RefreshMembership, AppendEntriesFrom, PrevMatches;
      var ok := TakeEntries(req);
      if !ok {
        AppendRejected(old(log.State()), req);
        return AppendReply(state.currentTerm, false, 0);
      }
      var matched := req.prevLogIndex + |req.entries|;
      var term := state.currentTerm;
      DoRefreshMembership();
      CommitUpTo(req.leaderCommit);
      return AppendReply(term, true, matched);
    }

    /** Nothing but reading past the log's end is excluded: a request from beyond it with the term no entry
        has would leave a hole that the code then indexes into. */
    method DoHandleAppendEntries(req: AppendRequest) returns (reply: AppendReply)
      requires Valid()
      requires req.prevLogIndex <= LastIndex(View().log) || req.prevLogTerm != 0 || req.entries == []
      modifies this, state, log, membership
      ensures Valid() && (View(), reply) == (HandleAppendEntries(old(View()), req).0.node, HandleAppendEntries(old(View()), req).1)
      ensures applied == old(applied) + HandleAppendEntries(old(View()), req).0.events
    {
      hide Loaded, Gapless, Followed, HandleAppendEntries, LastIndex;
      HandledInTwo(View(), req);
      if req.term < state.currentTerm { return AppendReply(state.currentTerm, false, 0); }
      if req.term > state.currentTerm || role != Follower { DoBecomeFollower(req.term); }
      leaderHint := req.leader;
      assert View() == Adopted(old(View()), req);
      reply := FollowEntries(req);
    }

    /** A follower learns of a commit index. */
    method CommitUpTo(leaderCommit: LogIndex)
      requires Valid()
      modifies this, log, membership
      ensures Valid()
      ensures var s := old(View());
              var out := if leaderCommit > s.commitIndex then ApplyCommitted(s.(commitIndex := Min(leaderCommit, LastIndex(s.log)))) else Outcome(s, []);
              View() == out.node && applied == old(applied) + out.events
    {
      hide Loaded, Gapless, ApplyCommitted;
      if leaderCommit > commitIndex {
        var last := log.GetLastIndex();
        commitIndex := Min(leaderCommit, last);
        DoApplyCommitted();
      }
    }

    method DoHandleAppendReply(peer: NodeId, req: AppendRequest, reply: AppendReply)
      requires Valid()
      modifies this, state, log, membership
      ensures Valid() && View() == HandleAppendReply(old(View()), peer, req, reply).node
      ensures applied == old(applied) + HandleAppendReply(old(View()), peer, req, reply).events
    {
      hide Loaded, Gapless, MaybeAdvanceCommitIndex;
      if peer !in peers { return; }
      if reply.term > state.currentTerm {
        DoBecomeFollower(reply.term);
        return;
      }
      if role != Leader || req.term != state.currentTerm { return; }
      if reply.success {
        var newMatch := req.prevLogIndex + |req.entries|;
        if peer !in matchIndex { matchIndex := matchIndex[peer := 0]; }
        if newMatch > matchIndex[peer] { matchIndex := matchIndex[peer := newMatch]; }
        nextIndex := nextIndex[peer := matchIndex[peer] + 1];
        assert matchIndex == old(matchIndex)[peer := Max(IndexOr(old(matchIndex), peer, 0), newMatch)];
        DoMaybeAdvanceCommitIndex();
      } else {
        if peer !in nextIndex { nextIndex := nextIndex[peer := 0]; }
        if nextIndex[peer] > 1 { nextIndex := nextIndex[peer := nextIndex[peer] - 1]; }
      }
    }

    // ----------------------------------------------------------------------------------------
    // Snapshots
    // ----------------------------------------------------------------------------------------

    method PrepareSnapshot() returns (req: SnapshotRequest)
      requires Valid()
      ensures req == SnapshotRequestOf(View())
    {
      hide Loaded, Gapless;
      var term := log.GetTermAt(lastApplied);
      return SnapshotRequest(state.currentTerm, id, lastApplied, term, peers[id := ownAddress]);
    }

    method DoHandleSnapshotReply(peer: NodeId, req: SnapshotRequest, reply: SnapshotReply)
      requires Valid()
      modifies this, state
      ensures Valid() && View() == HandleSnapshotReply(old(View()), peer, req, reply) && applied == old(applied)
    {
      hide Loaded, Gapless;
      if peer !in peers { return; }
      if reply.term > state.currentTerm {
        DoBecomeFollower(reply.term);
        return;
      }
      if role != Leader || req.term != state.currentTerm { return; }
      nextIndex := nextIndex[peer := req.lastIncludedIndex + 1];
      matchIndex := matchIndex[peer := req.lastIncludedIndex];
    }

    method DoBeginInstall(req: SnapshotRequest) returns (reply: Option<SnapshotReply>)
      requires Valid()
      modifies this, state
      ensures Valid() && (View(), reply) == BeginInstall(old(View()), req) && applied == old(applied)
    {
      hide Loaded, Gapless;
      if req.term < state.currentTerm { return Some(SnapshotReply(state.currentTerm)); }
      if req.term > state.currentTerm || role != Follower { DoBecomeFollower(req.term); }
      leaderHint := req.leader;
      if req.lastIncludedIndex <= log.snapshotIndex { return Some(SnapshotReply(state.currentTerm)); }
      return None;
    }

    method DoFinishInstall(req: SnapshotRequest) returns (reply: SnapshotReply)
      requires Valid()
      modifies this, log, membership
      ensures Valid() && (View(), reply) == FinishInstall(old(View()), req) && applied == old(applied)
    {
      hide Loaded, Gapless, CompactTo, RefreshMembership;
      if req.lastIncludedIndex > log.snapshotIndex {
        log.DoCompactTo(req.lastIncludedIndex, req.lastIncludedTerm);
        if req.lastIncludedIndex > commitIndex { commitIndex := req.lastIncludedIndex; }
        if req.lastIncludedIndex > lastApplied {
          lastApplied := req.lastIncludedIndex;
          log.SetAppliedIndex(lastApplied);
        }
        var selfMember := id in req.membership;
        if selfMember { ownAddress := req.membership[id]; }
        membership.Set(req.membership - {id}, selfMember, ownAddress);
        DoRefreshMembership();
      }
      return SnapshotReply(state.currentTerm);
    }

    // ----------------------------------------------------------------------------------------
    // Proposals
    // ----------------------------------------------------------------------------------------

    method HasPendingChange() returns (pending: bool)
      requires Valid()
      ensures pending == ChangePending(View())
    {
      hide Loaded, Gapless;
      pending := false;
      var last := log.GetLastIndex();
      ghost var l := log.State();
      var i := commitIndex + 1;
      while i <= last && !pending
        invariant commitIndex < i
        invariant !pending ==> forall j {:trigger At(l, j)} | commitIndex < j < i && j <= last :: At(l, j).None? || At(l, j).value.command.Client?
        invariant pending ==> ChangePending(View())
        decreases last + 1 - i, !pending
      {
        var entry := log.GetAt(i);
        if entry.Some? && !entry.value.command.Client? {
          assert At(View().log, i).Some?;
          pending := true;
        }
        i := i + 1;
      }
    }

    method IsAllowed(command: Command) returns (allowed: bool)
      requires Valid()
      ensures allowed == ProposalAllowed(View(), command)
    {
      hide Loaded, Gapless, ChangePending;
      if role != Leader { return false; }
      if !command.Client? {
        var pending := HasPendingChange();
        if pending { return false; }
        if command.AddServer? {
          if command.server == id || command.server in peers { return false; }
        } else {
          if command.server != id && command.server !in peers { return false; }
        }
      }
      return true;
    }

    /** The index of the appended entry, or None when the proposal is refused. */
    method DoPropose(command: Command) returns (index: Option<LogIndex>)
      requires Valid()
      modifies this, log, membership
      ensures Valid() && View() == Propose(old(View()), command).node
      ensures applied == old(applied) + Propose(old(View()), command).events
      ensures index == if ProposalAllowed(old(View()), command) then Some(LastIndex(old(log.State())) + 1) else None
    {
      hide Loaded, Gapless, ProposalAllowed, RefreshMembership, MaybeAdvanceCommitIndex;
      var allowed := IsAllowed(command);
      if !allowed { return None; }
      var at := log.DoAppend(state.currentTerm, command);
      DoRefreshMembership();
      DoMaybeAdvanceCommitIndex();
      return Some(at);
    }
  }

  /** A process started on the files a node left behind is that node restarted, whatever bootstrap
      arguments it is given. */
  lemma RestartFromFiles(n: RaftNode, address: PeerAddress, seeds: map<NodeId, PeerAddress>, joining: bool)
    requires n.Valid()
    ensures RaftNode.FirstView(n.id, address, seeds, joining, n.state.file, n.log.file, n.membership.file) == Restart(n.View())
  {
  }

  /** A node on its very first start, whose seeds leave itself out, keeps the bookkeeping of its peers in
      step from then on, whatever happens to it. */
  lemma TracksFromFirstStart(id: NodeId, address: PeerAddress, seeds: map<NodeId, PeerAddress>, joining: bool,
                             sections: seq<RaftMembership.Section>)
    requires id !in seeds
    ensures RaftMembership.Tracks(RaftMembership.PerformAll(RaftNode.FirstView(id, address, seeds, joining, None, None, None), sections))
  {
    RaftMembership.TracksForLife(RaftNode.FirstView(id, address, seeds, joining, None, None, None), sections);
  }
}
