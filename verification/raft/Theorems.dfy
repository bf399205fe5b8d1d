/**
 The safety theorems, over every run of a cluster with fixed membership: any interleaving of
 critical sections, any delay, reordering or loss of messages, and any crashes and restarts.
 */
module RaftTheorems {
  import opened Options
  import opened RaftTypes
  import opened RaftLogs
  import opened RaftNodeState
  import opened RaftHistory
  import opened RaftRefinement
  import opened RaftSections
  import opened RaftReplication
  import opened RaftCluster
  import opened RaftSafety
  import opened RaftSteps

  lemma GrowsSelf(h: Hist)
    ensures Grows(h, h)
  {
  }

  /** One step, whichever it is. */
  lemma NextKeeps(c: Cluster, c': Cluster, step: Step, book: map<NodeId, PeerAddress>, h: Hist, tally: Tallies) returns (h': Hist, tally': Tallies)
    requires ClusterRel(c, book, h, tally) && Next(c, c', step)
    ensures ClusterRel(c', book, h', tally') && Grows(h, h')
  {
    hide ClusterRel, Grows, Next;
    GrowsSelf(h);
    h', tally' := h, tally;
    match step
    case Elect(n) => h' := ElectKeeps(c, c', n, book, h, tally); tally' := tally[n := {n}];
    case ReceiveVote(k, recent) => h' := ReceiveVoteKeeps(c, c', k, recent, book, h, tally);
    case CountVote(k) => h', tally' := CountVoteKeeps(c, c', k, book, h, tally);
    case Offer(n, command) => h' := OfferKeeps(c, c', n, command, book, h, tally);
    case Replicate(n, peer) => ReplicateKeeps(c, c', n, peer, book, h, tally);
    case ReceiveAppend(k) => h' := ReceiveAppendKeeps(c, c', k, book, h, tally);
    case AppendDone(k) => h' := AppendDoneKeeps(c, c', k, book, h, tally);
    case SendSnapshot(n, peer) => SendSnapshotKeeps(c, c', n, peer, book, h, tally);
    case ReceiveSnapshot(k) => h' := ReceiveSnapshotKeeps(c, c', k, book, h, tally);
    case RestoreDone(k) => h' := RestoreDoneKeeps(c, c', k, book, h, tally);
    case SnapshotDone(k) => h' := SnapshotDoneKeeps(c, c', k, book, h, tally);
    case Lose(k) => LoseKeeps(c, c', k, book, h, tally);
    case Crash(n) => CrashKeeps(c, c', n, book, h, tally);
  }

  function EmptyHistory(book: map<NodeId, PeerAddress>): Hist {
    Hist(map n | n in book :: 0, map n | n in book :: [], map[], map[], map[], map[], map[])
  }

  lemma EmptyHistoryInv(book: map<NodeId, PeerAddress>)
    ensures Inv(EmptyHistory(book)) && ClientsOnly(EmptyHistory(book))
  {
  }

  lemma InitialNodeRel(book: map<NodeId, PeerAddress>, n: NodeId)
    requires n in book
    ensures NodeRel(EmptyHistory(book), book, InitialNode(n, book), {})
  {
  }

  lemma InitExplained(c: Cluster, book: map<NodeId, PeerAddress>)
    requires Init(c, book)
    ensures ClusterRel(c, book, EmptyHistory(book), map n | n in book :: {})
  {
    hide Inv, ClientsOnly, NodeRel;
    EmptyHistoryInv(book);
    forall n | n in book
      ensures NodeRel(EmptyHistory(book), book, c.nodes[n], {})
    {
      InitialNodeRel(book, n);
    }
  }

  /** A history for each state of a run, each extending the one before. */
  ghost predicate Histories(run: seq<Cluster>, book: map<NodeId, PeerAddress>, hs: seq<Hist>, ts: seq<Tallies>) {
    && |hs| == |ts| == |run|
    && (forall i {:trigger hs[i]} | 0 <= i < |run| :: ClusterRel(run[i], book, hs[i], ts[i]))
    && (forall i, j {:trigger hs[i], hs[j]} | 0 <= i <= j < |run| :: Grows(hs[i], hs[j]))
  }

  lemma RunPrefix(run: seq<Cluster>, steps: seq<Step>, book: map<NodeId, PeerAddress>)
    requires Run(run, steps, book) && steps != []
    ensures Run(run[..|run| - 1], steps[..|steps| - 1], book)
    ensures Next(run[|run| - 2], run[|run| - 1], steps[|steps| - 1])
  {
    hide Next, Init;
    assert forall i {:trigger steps[..|steps| - 1][i]} | 0 <= i < |steps| - 1 :: steps[..|steps| - 1][i] == steps[i];
  }

  lemma ExtendHistories(run: seq<Cluster>, c: Cluster, book: map<NodeId, PeerAddress>, hs: seq<Hist>, ts: seq<Tallies>, h: Hist, t: Tallies)
    requires Histories(run, book, hs, ts) && run != [] && Grows(hs[|run| - 1], h) && ClusterRel(c, book, h, t)
    ensures Histories(run + [c], book, hs + [h], ts + [t])
  {
    hide ClusterRel, Grows;
    forall i | 0 <= i < |run|
      ensures Grows(hs[i], h)
    {
      assert Grows(hs[i], hs[|run| - 1]);
      GrowsTransitive(hs[i], hs[|run| - 1], h);
    }
    GrowsSelf(h);
  }

  lemma {:induction false} RunExplained(run: seq<Cluster>, steps: seq<Step>, book: map<NodeId, PeerAddress>) returns (hs: seq<Hist>, ts: seq<Tallies>)
    requires Run(run, steps, book)
    ensures Histories(run, book, hs, ts)
    decreases |steps|
  {
    hide ClusterRel, Grows, Next, Init;
    if steps == [] {
      InitExplained(run[0], book);
      hs, ts := [EmptyHistory(book)], [map n | n in book :: {}];
      GrowsSelf(hs[0]);
    } else {
      RunPrefix(run, steps, book);
      var n := |steps|;
      hs, ts := RunExplained(run[..n], steps[..n - 1], book);
      assert ClusterRel(run[..n][n - 1], book, hs[n - 1], ts[n - 1]);
      var h, t := NextKeeps(run[n - 1], run[n], steps[n - 1], book, hs[n - 1], ts[n - 1]);
      ExtendHistories(run[..n], run[n], book, hs, ts, h, t);
      hs, ts := hs + [h], ts + [t];
      assert run == run[..n] + [run[n]];
    }
  }

  // ------------------------------------------------------------------------------------------
  // State Machine Safety
  // ------------------------------------------------------------------------------------------

  lemma AppliedAgree(c: Cluster, book: map<NodeId, PeerAddress>, h: Hist, tally: Tallies, a: Applied, b: Applied)
    requires ClusterRel(c, book, h, tally) && a in c.applied && b in c.applied && a.event.index == b.event.index
    ensures a.event.command == b.event.command
  {
    hide Inv, ClientsOnly, NodesRel, RpcsRel, VotesOnce, EventSound;
    EventsAgree(h, a.event, b.event);
  }

  /** No two nodes ever hand different commands to the apply callback at the same index, at any
      times of any run. */
  lemma StateMachineSafety(run: seq<Cluster>, steps: seq<Step>, book: map<NodeId, PeerAddress>, a: Applied, b: Applied)
    requires Run(run, steps, book)
    requires a in run[|run| - 1].applied && b in run[|run| - 1].applied && a.event.index == b.event.index
    ensures a.event.command == b.event.command
  {
    hide ClusterRel, Grows, Next, Init;
    var hs, ts := RunExplained(run, steps, book);
    assert ClusterRel(run[|run| - 1], book, hs[|run| - 1], ts[|run| - 1]);
    AppliedAgree(run[|run| - 1], book, hs[|run| - 1], ts[|run| - 1], a, b);
  }

  // ------------------------------------------------------------------------------------------
  // Election Safety
  // ------------------------------------------------------------------------------------------

  predicate LeadsAt(run: seq<Cluster>, i: nat, n: NodeId, t: Term) {
    i < |run| && n in run[i].nodes && run[i].nodes[n].role == Leader && run[i].nodes[n].currentTerm == t
  }

  lemma LeaderRecorded(c: Cluster, book: map<NodeId, PeerAddress>, h: Hist, tally: Tallies, n: NodeId)
    requires ClusterRel(c, book, h, tally) && n in c.nodes && c.nodes[n].role == Leader
    ensures var t := c.nodes[n].currentTerm;
            && t in h.leader && h.leader[t] == n && t in h.lead
            && n in h.log && h.log[n] == h.lead[t] && Represents(h.log[n], c.nodes[n].log)
  {
    hide Inv, ClientsOnly, RpcsRel, VotesOnce, AppliedSound;
    var s := c.nodes[n];
    assert NodeRel(h, book, s, tally[n]);
  }

  /** At most one node ever leads a term, at whatever times the two are seen leading. */
  lemma ElectionSafetyOverRuns(run: seq<Cluster>, steps: seq<Step>, book: map<NodeId, PeerAddress>, i: nat, j: nat, n: NodeId, m: NodeId, t: Term)
    requires Run(run, steps, book) && i <= j && LeadsAt(run, i, n, t) && LeadsAt(run, j, m, t)
    ensures n == m
  {
    hide ClusterRel;
    var hs, ts := RunExplained(run, steps, book);
    assert ClusterRel(run[i], book, hs[i], ts[i]) && ClusterRel(run[j], book, hs[j], ts[j]);
    LeaderRecorded(run[i], book, hs[i], ts[i], n);
    LeaderRecorded(run[j], book, hs[j], ts[j], m);
    assert Grows(hs[i], hs[j]);
  }

  // ------------------------------------------------------------------------------------------
  // Log Matching
  // ------------------------------------------------------------------------------------------

  lemma NodeCoherent(c: Cluster, book: map<NodeId, PeerAddress>, h: Hist, tally: Tallies, n: NodeId)
    requires ClusterRel(c, book, h, tally) && n in c.nodes
    ensures n in h.log && Represents(h.log[n], c.nodes[n].log) && Coherent(h, h.log[n], c.nodes[n].currentTerm)
    ensures c.nodes[n].commitIndex <= |h.log[n]| && Committed(h, h.log[n][..c.nodes[n].commitIndex], c.nodes[n].currentTerm)
  {
    hide ClientsOnly, RpcsRel, VotesOnce, AppliedSound;
    var s := c.nodes[n];
    assert NodeRel(h, book, s, tally[n]);
    TermFacts(h, s);
  }

  lemma SameHistorySameAnswers(full: seq<LogEntry>, a: LogState, full': seq<LogEntry>, b: LogState, index: LogIndex, below: LogIndex)
    requires Represents(full, a) && Represents(full', b) && below <= index <= |full| && index <= |full'|
    requires full[..index] == full'[..index]
    ensures At(a, below).Some? && At(b, below).Some? ==> At(a, below) == At(b, below)
    ensures below >= a.snapshotIndex && below >= b.snapshotIndex ==> TermAt(a, below) == TermAt(b, below)
  {
    QueriesRefine(full, a, below);
    QueriesRefine(full', b, below);
    if below > 0 { assert full[..index][below - 1] == full'[..index][below - 1]; }
  }

  /** If two logs have the same term at an index, counting the compaction boundary as an entry, they
      agree on every index up to it that both still answer for. */
  lemma LogMatchingOverRuns(run: seq<Cluster>, steps: seq<Step>, book: map<NodeId, PeerAddress>, i: nat, j: nat, n: NodeId, m: NodeId, index: LogIndex, below: LogIndex)
    requires Run(run, steps, book) && i <= j < |run| && n in run[i].nodes && m in run[j].nodes
    requires var a := run[i].nodes[n].log; var b := run[j].nodes[m].log;
             TermAt(a, index) == TermAt(b, index) != 0 && below <= index
    ensures var a := run[i].nodes[n].log; var b := run[j].nodes[m].log;
            && (At(a, below).Some? && At(b, below).Some? ==> At(a, below) == At(b, below))
            && (below >= a.snapshotIndex && below >= b.snapshotIndex ==> TermAt(a, below) == TermAt(b, below))
  {
    hide ClusterRel, Grows, Run;
    var hs, ts := RunExplained(run, steps, book);
    assert ClusterRel(run[i], book, hs[i], ts[i]) && ClusterRel(run[j], book, hs[j], ts[j]) && Grows(hs[i], hs[j]);
    var a, b := run[i].nodes[n].log, run[j].nodes[m].log;
    var ta, tb := run[i].nodes[n].currentTerm, run[j].nodes[m].currentTerm;
    hide Histories;
    NodeCoherent(run[i], book, hs[i], ts[i], n);
    NodeCoherent(run[j], book, hs[j], ts[j], m);
    var full, full' := hs[i].log[n], hs[j].log[m];
    CoherentStable(hs[i], hs[j], full, ta, ta);
    hide Committed, Coherent;
    QueriesRefine(full, a, index);
    QueriesRefine(full', b, index);
    LogMatching(hs[j], full, ta, full', tb, index);
    SameHistorySameAnswers(full, a, full', b, index, below);
  }

  // ------------------------------------------------------------------------------------------
  // Leader Completeness
  // ------------------------------------------------------------------------------------------

  lemma ClusterInv(c: Cluster, book: map<NodeId, PeerAddress>, h: Hist, tally: Tallies)
    requires ClusterRel(c, book, h, tally)
    ensures Inv(h)
  {
  }

  lemma LeaderHolds(c: Cluster, h: Hist, tally: Tallies, c': Cluster, h': Hist, tally': Tallies, book: map<NodeId, PeerAddress>, n: NodeId, m: NodeId, index: LogIndex)
    requires ClusterRel(c, book, h, tally) && ClusterRel(c', book, h', tally') && Grows(h, h')
    requires n in c.nodes && m in c'.nodes && c'.nodes[m].role == Leader && c.nodes[n].currentTerm <= c'.nodes[m].currentTerm
    requires index <= c.nodes[n].commitIndex && At(c.nodes[n].log, index).Some?
    ensures index <= c'.nodes[m].log.snapshotIndex || At(c'.nodes[m].log, index) == At(c.nodes[n].log, index)
  {
    hide ClusterRel, Grows, Inv, Coherent, Committed, At;
    var s, l := c.nodes[n], c'.nodes[m];
    ClusterInv(c', book, h', tally');
    NodeCoherent(c, book, h, tally, n);
    LeaderRecorded(c', book, h', tally', m);
    var known := h.log[n][..s.commitIndex];
    CommittedStable(h, h', known, s.currentTerm, s.currentTerm);
    CommittedInLeader(h', known, s.currentTerm, l.currentTerm);
    assert h.log[n][..index] == known[..index] == h'.log[m][..index];
    SharedEntry(h.log[n], s.log, h'.log[m], l.log, index);
  }

  /** ... and so does a leader of a later term, even earlier. */
  lemma EarlierLeaderHolds(c: Cluster, h: Hist, tally: Tallies, c': Cluster, h': Hist, tally': Tallies, book: map<NodeId, PeerAddress>, n: NodeId, m: NodeId, index: LogIndex)
    requires ClusterRel(c, book, h, tally) && ClusterRel(c', book, h', tally') && Grows(h', h)
    requires n in c.nodes && m in c'.nodes && c'.nodes[m].role == Leader && c.nodes[n].currentTerm < c'.nodes[m].currentTerm
    requires index <= c.nodes[n].commitIndex && At(c.nodes[n].log, index).Some?
    ensures index <= c'.nodes[m].log.snapshotIndex || At(c'.nodes[m].log, index) == At(c.nodes[n].log, index)
  {
    hide ClusterRel, Grows, Inv, Coherent, Committed, At;
    var s, l := c.nodes[n], c'.nodes[m];
    ClusterInv(c, book, h, tally);
    ClusterInv(c', book, h', tally');
    NodeCoherent(c, book, h, tally, n);
    LeaderRecorded(c', book, h', tally', m);
    var known := h.log[n][..s.commitIndex];
    CommittedInEarlierLeader(h', h, known, s.currentTerm, l.currentTerm);
    assert h.log[n][..index] == known[..index] == h'.log[m][..index];
    SharedEntry(h.log[n], s.log, h'.log[m], l.log, index);
  }

  /** Whatever entry a node ever knows to be committed, every leader of a later term holds it all the time
      it leads, and every leader of the same term from then on: in its log or beneath its boundary. */
  lemma LeaderCompletenessOverRuns(run: seq<Cluster>, steps: seq<Step>, book: map<NodeId, PeerAddress>, i: nat, j: nat, n: NodeId, m: NodeId, t: Term, index: LogIndex)
    requires Run(run, steps, book) && i < |run| && n in run[i].nodes
    requires var s := run[i].nodes[n]; index <= s.commitIndex && At(s.log, index).Some? && (s.currentTerm < t || (s.currentTerm == t && i <= j))
    requires LeadsAt(run, j, m, t)
    ensures var l := run[j].nodes[m].log;
            index <= l.snapshotIndex || At(l, index) == At(run[i].nodes[n].log, index)
  {
    hide ClusterRel, Grows, At;
    var hs, ts := RunExplained(run, steps, book);
    assert ClusterRel(run[i], book, hs[i], ts[i]) && ClusterRel(run[j], book, hs[j], ts[j]);
    if i <= j {
      assert Grows(hs[i], hs[j]);
      LeaderHolds(run[i], hs[i], ts[i], run[j], hs[j], ts[j], book, n, m, index);
    } else {
      assert Grows(hs[j], hs[i]);
      EarlierLeaderHolds(run[i], hs[i], ts[i], run[j], hs[j], ts[j], book, n, m, index);
    }
  }

  /** Two logs whose histories share a prefix answer alike for every index in it they still hold. */
  lemma SharedEntry(full: seq<LogEntry>, a: LogState, full': seq<LogEntry>, b: LogState, index: LogIndex)
    requires Represents(full, a) && Represents(full', b) && index <= |full| && index <= |full'|
    requires full[..index] == full'[..index] && At(a, index).Some?
    ensures index <= b.snapshotIndex || At(a, index) == At(b, index)
  {
    QueriesRefine(full, a, index);
    QueriesRefine(full', b, index);
    assert full[..index][index - 1] == full'[..index][index - 1];
  }

  /** Committed entries never differ between nodes, at any times. */
  lemma CommittedEntriesAgree(run: seq<Cluster>, steps: seq<Step>, book: map<NodeId, PeerAddress>, i: nat, j: nat, n: NodeId, m: NodeId, index: LogIndex)
    requires Run(run, steps, book) && i <= j < |run| && n in run[i].nodes && m in run[j].nodes
    requires index <= run[i].nodes[n].commitIndex && index <= run[j].nodes[m].commitIndex
    requires At(run[i].nodes[n].log, index).Some? && At(run[j].nodes[m].log, index).Some?
    ensures At(run[i].nodes[n].log, index) == At(run[j].nodes[m].log, index)
  {
    var hs, ts := RunExplained(run, steps, book);
    assert ClusterRel(run[i], book, hs[i], ts[i]) && ClusterRel(run[j], book, hs[j], ts[j]) && Grows(hs[i], hs[j]);
    var s, r := run[i].nodes[n], run[j].nodes[m];
    assert Inv(hs[j]);
    hide ClusterRel, Grows, Inv, Coherent;
    NodeCoherent(run[i], book, hs[i], ts[i], n);
    NodeCoherent(run[j], book, hs[j], ts[j], m);
    hide Run, Histories;
    var full, full' := hs[i].log[n], hs[j].log[m];
    CommittedStable(hs[i], hs[j], full[..s.commitIndex], s.currentTerm, s.currentTerm);
    CommittedAgree(hs[j], full[..s.commitIndex], s.currentTerm, full'[..r.commitIndex], r.currentTerm);
    hide Committed;
    ComparablePrefixes(full, s.commitIndex, full', r.commitIndex, index);
    SharedEntry(full, s.log, full', r.log, index);
    QueriesRefine(full', r.log, index);
  }

  lemma ComparablePrefixes<T>(a: seq<T>, m: nat, b: seq<T>, n: nat, index: nat)
    requires m <= |a| && n <= |b| && index <= m && index <= n
    requires a[..m] <= b[..n] || b[..n] <= a[..m]
    ensures a[..index] == b[..index]
  {
    assert a[..m][..index] == a[..index] && b[..n][..index] == b[..index];
  }

  // ------------------------------------------------------------------------------------------
  // Append requests
  // ------------------------------------------------------------------------------------------

  lemma RequestExplained(c: Cluster, book: map<NodeId, PeerAddress>, h: Hist, tally: Tallies, k: RpcId)
    requires ClusterRel(c, book, h, tally) && k in c.rpcs && c.rpcs[k].call.AppendCall?
    ensures LogsCoherent(h) && AppendCallRel(h, c.rpcs[k].caller, c.rpcs[k].call.append)
  {
    hide ClientsOnly, NodesRel, VotesOnce, AppliedSound, LogsCoherent, AppendCallRel;
    assert RpcRel(h, book, k, c.rpcs[k]);
  }

  /** Follower commit bound: in every reachable state, because a leader always sends its whole suffix, no
      request carries a commit index past its own last entry. */
  lemma CommitBoundOverRuns(run: seq<Cluster>, steps: seq<Step>, book: map<NodeId, PeerAddress>, i: nat, k: RpcId)
    requires Run(run, steps, book) && i < |run| && k in run[i].rpcs && run[i].rpcs[k].call.AppendCall?
    ensures var req := run[i].rpcs[k].call.append; req.leaderCommit <= req.prevLogIndex + |req.entries|
  {
    hide ClusterRel, Run;
    var hs, ts := RunExplained(run, steps, book);
    assert ClusterRel(run[i], book, hs[i], ts[i]);
    RequestExplained(run[i], book, hs[i], ts[i], k);
  }

  /** No leader ever sends a request with the term 0 and a position that is not 0. */
  lemma PrevTermsPositiveOverRuns(run: seq<Cluster>, steps: seq<Step>, book: map<NodeId, PeerAddress>, i: nat, k: RpcId)
    requires Run(run, steps, book) && i < |run| && k in run[i].rpcs && run[i].rpcs[k].call.AppendCall?
    ensures var req := run[i].rpcs[k].call.append; req.prevLogIndex > 0 ==> req.prevLogTerm > 0
  {
    hide ClusterRel, Run, LogsCoherent;
    var hs, ts := RunExplained(run, steps, book);
    assert ClusterRel(run[i], book, hs[i], ts[i]);
    RequestExplained(run[i], book, hs[i], ts[i], k);
    var req := run[i].rpcs[k].call.append;
    if req.prevLogIndex > 0 { PrevTermPositive(hs[i], req.term, req.prevLogIndex); }
  }

  /** A follower's new commit index, by its request alone. */
  lemma CommitMoves(s: NodeState, req: AppendRequest)
    requires req.leaderCommit <= req.prevLogIndex + |req.entries| && (req.prevLogIndex > 0 ==> req.prevLogTerm > 0)
    ensures var s' := HandleAppendEntries(s, req).0.node;
            && s'.commitIndex == (if req.term >= s.currentTerm && PrevMatches(s.log, req.prevLogIndex, req.prevLogTerm)
                                  then Max(s.commitIndex, req.leaderCommit) else s.commitIndex)
            && (s'.commitIndex != s.commitIndex ==> s'.currentTerm == req.term)
  {
    hide HandleAppendEntries, Merge;
    CommitForm(s, req);
    if PrevMatches(s.log, req.prevLogIndex, req.prevLogTerm) {
      MergeReaches(s.log.snapshotIndex, s.log.entries, req.prevLogIndex, req.entries);
    }
  }

  lemma CommitForm(s: NodeState, req: AppendRequest)
    ensures var s' := HandleAppendEntries(s, req).0.node;
            && s'.commitIndex == (if req.term >= s.currentTerm && PrevMatches(s.log, req.prevLogIndex, req.prevLogTerm) && req.leaderCommit > s.commitIndex
                                  then Min(req.leaderCommit, LastIndex(AppendEntriesFrom(s.log, req.prevLogIndex, req.prevLogTerm, req.entries)))
                                  else s.commitIndex)
            && s'.currentTerm == Max(s.currentTerm, req.term)
  {
    hide RefreshMembership, ApplyCommitted, AppendEntriesFrom, PrevMatches, LastIndex, BecomeFollower;
    FollowerKeeps();
    if req.term >= s.currentTerm && PrevMatches(s.log, req.prevLogIndex, req.prevLogTerm) {
      var s1 := if req.term > s.currentTerm || s.role != Follower then BecomeFollower(s, req.term) else s;
      var s2 := s1.(leaderHint := req.leader);
      var taken := AppendEntriesFrom(s2.log, req.prevLogIndex, req.prevLogTerm, req.entries);
      var s3 := RefreshMembership(s2.(log := taken));
      RefreshKeeps();
      assert s3.commitIndex == s.commitIndex && s3.log == taken && s3.currentTerm == req.term;
      ApplyKeeps();
    }
  }

  lemma FollowerKeeps()
    ensures forall s, t {:trigger BecomeFollower(s, t)} :: var s' := BecomeFollower(s, t);
              && s'.currentTerm == Max(s.currentTerm, t) && s'.log == s.log && s'.commitIndex == s.commitIndex && s'.role == Follower
  {
  }

  /** Entries a node knows to be committed are those of a leader of its term or later, at any time, as far
      as that one has them by then. */
  lemma LeaderAgrees(c: Cluster, h: Hist, tally: Tallies, c': Cluster, h': Hist, tally': Tallies, book: map<NodeId, PeerAddress>, n: NodeId, m: NodeId, index: LogIndex)
    requires ClusterRel(c, book, h, tally) && ClusterRel(c', book, h', tally') && Grows(h', h)
    requires n in c.nodes && m in c'.nodes && c'.nodes[m].role == Leader && c.nodes[n].currentTerm <= c'.nodes[m].currentTerm
    requires index <= c.nodes[n].commitIndex && At(c.nodes[n].log, index).Some? && At(c'.nodes[m].log, index).Some?
    ensures At(c'.nodes[m].log, index) == At(c.nodes[n].log, index)
  {
    hide ClusterRel, Inv, Coherent, Committed, At;
    var s, l := c.nodes[n], c'.nodes[m];
    ClusterInv(c, book, h, tally);
    NodeCoherent(c, book, h, tally, n);
    LeaderRecorded(c', book, h', tally', m);
    var known, lead := h.log[n][..s.commitIndex], h'.log[m];
    assert lead <= h.lead[l.currentTerm];
    CommittedInLeader(h, known, s.currentTerm, l.currentTerm);
    QueriesRefine(lead, l.log, index);
    assert h.log[n][..index] == known[..index] == lead[..index];
    SharedEntry(h.log[n], s.log, lead, l.log, index);
  }

  /** What receiving a request does to the commit index: it stays, or it becomes exactly the leader's. Every
      entry at or below it is then the one the sender's log holds, at any time the sender leads in that
      term and has it; and from then on it does have it, in its log or beneath its boundary. */
  lemma FollowerCommitsLeadersEntries(run: seq<Cluster>, steps: seq<Step>, book: map<NodeId, PeerAddress>, i: nat, k: RpcId, j: nat, m: NodeId, index: LogIndex)
    requires Run(run, steps, book) && i < |steps| && steps[i] == ReceiveAppend(k)
    requires k in run[i].rpcs && run[i].rpcs[k].call.AppendCall? && LeadsAt(run, j, m, run[i].rpcs[k].call.append.term)
    ensures k.target in run[i].nodes && k.target in run[i + 1].nodes
    ensures var req := run[i].rpcs[k].call.append; var s, s' := run[i].nodes[k.target], run[i + 1].nodes[k.target];
            s'.commitIndex == s.commitIndex || s'.commitIndex == req.leaderCommit
    ensures var s, s' := run[i].nodes[k.target], run[i + 1].nodes[k.target]; var l := run[j].nodes[m].log;
            s'.commitIndex != s.commitIndex && index <= s'.commitIndex && At(s'.log, index).Some? ==>
              && (At(l, index).Some? ==> At(l, index) == At(s'.log, index))
              && (j > i && index > l.snapshotIndex ==> At(l, index).Some?)
  {
    hide HandleAppendEntries, ClusterRel, Grows;
    assert Next(run[i], run[i + 1], steps[i]);
    var req := run[i].rpcs[k].call.append;
    var s, s' := run[i].nodes[k.target], run[i + 1].nodes[k.target];
    CommitBoundOverRuns(run, steps, book, i, k);
    PrevTermsPositiveOverRuns(run, steps, book, i, k);
    CommitMoves(s, req);
    if s'.commitIndex != s.commitIndex && index <= s'.commitIndex && At(s'.log, index).Some? {
      if j > i {
        LeaderCompletenessOverRuns(run, steps, book, i + 1, j, k.target, m, req.term, index);
      } else {
        var hs, ts := RunExplained(run, steps, book);
        assert ClusterRel(run[i + 1], book, hs[i + 1], ts[i + 1]) && ClusterRel(run[j], book, hs[j], ts[j]) && Grows(hs[j], hs[i + 1]);
        if At(run[j].nodes[m].log, index).Some? {
          LeaderAgrees(run[i + 1], hs[i + 1], ts[i + 1], run[j], hs[j], ts[j], book, k.target, m, index);
        }
      }
    }
  }
}
