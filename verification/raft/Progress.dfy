/**
 Runs that get somewhere: from the first start of three nodes one is elected, a command offered to it is
 committed, and both the leader and a follower apply it.
 */
module RaftProgress {
  import opened Options
  import opened RaftTypes
  import opened RaftLogs
  import opened RaftNodeState
  import opened RaftRefinement
  import opened RaftCluster
  import opened RaftMeaning

  // ------------------------------------------------------------------------------------------
  // Node by node
  // ------------------------------------------------------------------------------------------

  /** The three members. */
  ghost predicate Trio(book: map<NodeId, PeerAddress>, a: NodeId, b: NodeId, c: NodeId) {
    book.Keys == {a, b, c} && a != b && b != c && a != c
  }

  const YES: VoteReply := VoteReply(1, true)

  function Standing(a: NodeId, book: map<NodeId, PeerAddress>): NodeState
    requires a in book
  {
    InitialNode(a, book).(currentTerm := 1, votedFor := Some(a), role := Candidate, votesReceived := 1)
  }

  lemma InitialFixed(n: NodeId, book: map<NodeId, PeerAddress>)
    requires n in book
    ensures Fixed(book, InitialNode(n, book)) && Gapless(EmptyLog)
  {
  }

  lemma Peers(book: map<NodeId, PeerAddress>, a: NodeId, b: NodeId, c: NodeId)
    requires Trio(book, a, b, c)
    ensures (book - {a}).Keys == {b, c} && |book - {a}| == 2
  {
    assert |(book - {a}).Keys| == |book - {a}|;
  }

  lemma Stands(book: map<NodeId, PeerAddress>, a: NodeId, b: NodeId, c: NodeId)
    requires Trio(book, a, b, c)
    ensures StartElection(InitialNode(a, book)) == (Standing(a, book), true)
  {
    hide RefreshMembership;
    InitialFixed(a, book);
    RefreshFixed(book, InitialNode(a, book));
    Peers(book, a, b, c);
  }

  function Voter(b: NodeId, a: NodeId, book: map<NodeId, PeerAddress>): NodeState
    requires b in book
  {
    InitialNode(b, book).(currentTerm := 1, votedFor := Some(a))
  }

  lemma Grants(book: map<NodeId, PeerAddress>, a: NodeId, b: NodeId)
    requires a in book && b in book
    ensures VoteRequestOf(Standing(a, book)) == VoteRequest(1, a, 0, 0)
    ensures HandleRequestVote(InitialNode(b, book), VoteRequest(1, a, 0, 0), false) == (Voter(b, a, book), YES)
  {
  }

  function Elected(a: NodeId, b: NodeId, c: NodeId, book: map<NodeId, PeerAddress>): NodeState
    requires a in book
  {
    Standing(a, book).(votesReceived := 2, role := Leader, leaderHint := a, nextIndex := map[b := 1, c := 1], matchIndex := map[b := 0, c := 0])
  }

  lemma SeedTwo(b: NodeId, c: NodeId, value: LogIndex)
    ensures map[] + Seeded({b, c}, value) == map[b := value, c := value]
  {
  }

  lemma Wins(book: map<NodeId, PeerAddress>, a: NodeId, b: NodeId, c: NodeId)
    requires Trio(book, a, b, c)
    ensures HandleVoteReply(Standing(a, book), 1, YES) == Elected(a, b, c, book)
  {
    hide RefreshMembership, Seeded;
    var s := Standing(a, book).(votesReceived := 2);
    Peers(book, a, b, c);
    RefreshFixed(book, s);
    SeedTwo(b, c, 1);
    SeedTwo(b, c, 0);
  }

  function EntryOf(command: Command): LogEntry { LogEntry(1, 1, command) }

  function LogOf(command: Command, applied: LogIndex): LogState { LogState(0, 0, [EntryOf(command)], applied) }

  function Holding(a: NodeId, b: NodeId, c: NodeId, book: map<NodeId, PeerAddress>, command: Command): NodeState
    requires a in book
  {
    Elected(a, b, c, book).(log := LogOf(command, 0))
  }

  lemma Offered(book: map<NodeId, PeerAddress>, a: NodeId, b: NodeId, c: NodeId, command: Command)
    requires Trio(book, a, b, c) && command.Client?
    ensures Propose(Elected(a, b, c, book), command) == Outcome(Holding(a, b, c, book, command), [])
  {
    hide RefreshMembership, MaybeAdvanceCommitIndex, HeldByMajority;
    var s := Holding(a, b, c, book, command);
    assert Append(EmptyLog, 1, command) == LogOf(command, 0);
    Peers(book, a, b, c);
    RefreshFixed(book, s);
    OwnEntryOnly(s, b, c);
    AdvanceMeaning(s, 0);
  }

  /** While no peer has acknowledged anything, no index above 0 is held by two of three. */
  lemma OwnEntryOnly(s: NodeState, b: NodeId, c: NodeId)
    requires s.matchIndex == map[b := 0, c := 0] && b != c && LastIndex(s.log) == 1 && Gapless(s.log)
    ensures HeldByMajority(s, 0) && forall higher :: higher > 0 ==> !HeldByMajority(s, higher)
  {
    assert |s.matchIndex| == 2;
    assert HeldBy(s, 0, {b, c});
    forall higher, q: set<NodeId> | higher > 0 ensures !HeldBy(s, higher, q) {
      if q != {} {
        var p :| p in q;
        assert p in s.matchIndex ==> s.matchIndex[p] < higher;
      }
    }
  }

  /** One acknowledgement makes two of three. */
  lemma TwoOfThree(s: NodeState, b: NodeId, c: NodeId)
    requires s.matchIndex == map[b := 1, c := 0] && b != c && LastIndex(s.log) == 1
    ensures HeldByMajority(s, 1) && forall higher :: higher > 1 ==> !HeldByMajority(s, higher)
  {
    assert |s.matchIndex| == 2;
    assert HeldBy(s, 1, {b});
    forall higher, q: set<NodeId> | higher > 1 ensures !HeldBy(s, higher, q) {
      if q != {} {
        var p :| p in q;
        assert p in s.matchIndex ==> s.matchIndex[p] < higher;
      }
    }
  }

  function FirstRequest(a: NodeId, command: Command): AppendRequest { AppendRequest(1, a, 0, 0, [EntryOf(command)], 0) }

  function Following(b: NodeId, a: NodeId, book: map<NodeId, PeerAddress>, command: Command): NodeState
    requires b in book
  {
    Voter(b, a, book).(leaderHint := a, log := LogOf(command, 0))
  }

  lemma Requests(book: map<NodeId, PeerAddress>, a: NodeId, b: NodeId, c: NodeId, command: Command)
    requires a in book && b != c
    ensures !NeedsSnapshot(Holding(a, b, c, book, command), b)
    ensures AppendRequestFor(Holding(a, b, c, book, command), b) == FirstRequest(a, command)
  {
    RequestMeaning(Holding(a, b, c, book, command), b);
    assert LogOf(command, 0).entries[0..] == [EntryOf(command)];
  }

  lemma Follows(book: map<NodeId, PeerAddress>, a: NodeId, b: NodeId, command: Command)
    requires b in book && command.Client?
    ensures HandleAppendEntries(Voter(b, a, book), FirstRequest(a, command)) == (Outcome(Following(b, a, book, command), []), AppendReply(1, true, 1))
  {
    hide RefreshMembership, Merge;
    MergeStep(0, [], 0, [EntryOf(command)]);
    MergeStep(0, [EntryOf(command)], 1, []);
    assert [EntryOf(command)][1..] == [] && [] + [EntryOf(command)] == [EntryOf(command)];
    RefreshFixed(book, Following(b, a, book, command));
  }

  function Committer(a: NodeId, b: NodeId, c: NodeId, book: map<NodeId, PeerAddress>, command: Command): NodeState
    requires a in book
  {
    Elected(a, b, c, book).(log := LogOf(command, 1), nextIndex := map[b := 2, c := 1], matchIndex := map[b := 1, c := 0], commitIndex := 1, lastApplied := 1)
  }

  /** One entry applied and none compacted. */
  lemma AppliesFirst(s: NodeState, command: Command)
    requires s.log == LogOf(command, 0) && s.lastApplied == 0 && s.commitIndex == 1 && command.Client?
    ensures ApplyCommitted(s) == Outcome(s.(lastApplied := 1, log := LogOf(command, 1)), [ApplyEvent(1, command)])
  {
    assert ApplyEvents(s.log, 0, 0) == [];
  }

  lemma Commits(book: map<NodeId, PeerAddress>, a: NodeId, b: NodeId, c: NodeId, command: Command)
    requires Trio(book, a, b, c) && command.Client?
    ensures HandleAppendReply(Holding(a, b, c, book, command), b, FirstRequest(a, command), AppendReply(1, true, 1))
         == Outcome(Committer(a, b, c, book, command), [ApplyEvent(1, command)])
  {
    hide MaybeAdvanceCommitIndex, ApplyCommitted, HeldByMajority;
    var s := Holding(a, b, c, book, command);
    Peers(book, a, b, c);
    var counted := AcknowledgeMeaning(s, b, FirstRequest(a, command), AppendReply(1, true, 1));
    assert counted == s.(matchIndex := map[b := 1, c := 0], nextIndex := map[b := 2, c := 1]);
    TwoOfThree(counted, b, c);
    Advances(counted, command);
  }

  lemma Advances(s: NodeState, command: Command)
    requires s.log == LogOf(command, 0) && s.lastApplied == s.commitIndex == s.pendingSelfRemoval == 0 && s.currentTerm == 1 && command.Client?
    requires HeldByMajority(s, 1) && forall higher :: higher > 1 ==> !HeldByMajority(s, higher)
    ensures MaybeAdvanceCommitIndex(s) == Outcome(s.(lastApplied := 1, commitIndex := 1, log := LogOf(command, 1)), [ApplyEvent(1, command)])
  {
    hide ApplyCommitted, HeldByMajority, BackedByMajority;
    forall i ensures HeldByMajority(s, i) <==> BackedByMajority(LastIndex(s.log), s.matchIndex, i) { HeldIff(s, i); }
    MajorityIndexUnique(LastIndex(s.log), s.matchIndex, MajorityIndex(LastIndex(s.log), s.matchIndex), 1);
    AppliesFirst(s.(commitIndex := 1), command);
  }

  function SecondRequest(a: NodeId): AppendRequest { AppendRequest(1, a, 1, 1, [], 1) }

  lemma RequestsAgain(book: map<NodeId, PeerAddress>, a: NodeId, b: NodeId, c: NodeId, command: Command)
    requires a in book && b != c
    ensures !NeedsSnapshot(Committer(a, b, c, book, command), b)
    ensures AppendRequestFor(Committer(a, b, c, book, command), b) == SecondRequest(a)
  {
    RequestMeaning(Committer(a, b, c, book, command), b);
  }

  function Caught(b: NodeId, a: NodeId, book: map<NodeId, PeerAddress>, command: Command): NodeState
    requires b in book
  {
    Following(b, a, book, command).(log := LogOf(command, 1), commitIndex := 1, lastApplied := 1)
  }

  lemma FollowerApplies(book: map<NodeId, PeerAddress>, a: NodeId, b: NodeId, command: Command)
    requires b in book && command.Client?
    ensures HandleAppendEntries(Following(b, a, book, command), SecondRequest(a))
         == (Outcome(Caught(b, a, book, command), [ApplyEvent(1, command)]), AppendReply(1, true, 1))
  {
    hide RefreshMembership, ApplyCommitted, Merge;
    var s := Following(b, a, book, command);
    MergeStep(0, s.log.entries, 1, []);
    RefreshFixed(book, s);
    AppliesFirst(s.(commitIndex := 1), command);
  }

  // ------------------------------------------------------------------------------------------
  // The cluster
  // ------------------------------------------------------------------------------------------

  /** The three nodes, c as it started. */
  function Three(a: NodeId, b: NodeId, c: NodeId, book: map<NodeId, PeerAddress>, atA: NodeState, atB: NodeState): map<NodeId, NodeState>
    requires c in book
  {
    map[a := atA, b := atB, c := InitialNode(c, book)]
  }

  function VoteRpc(a: NodeId): Rpc { Rpc(a, VoteCall(VoteRequest(1, a, 0, 0)), Requested) }

  function AppendRpc(a: NodeId, req: AppendRequest): Rpc { Rpc(a, AppendCall(req), Requested) }

  function Answering(rpc: Rpc, answer: Answer): Rpc { rpc.(phase := Answered(answer)) }

  lemma InitThree(book: map<NodeId, PeerAddress>, a: NodeId, b: NodeId, c: NodeId)
    requires Trio(book, a, b, c)
    ensures Init(Cluster(Three(a, b, c, book, InitialNode(a, book), InitialNode(b, book)), map[], 0, []), book)
  {
    hide InitialNode;
    assert (map n | n in book :: InitialNode(n, book)) == Three(a, b, c, book, InitialNode(a, book), InitialNode(b, book));
  }

  lemma ElectStep(book: map<NodeId, PeerAddress>, a: NodeId, b: NodeId, c: NodeId)
    requires Trio(book, a, b, c)
    ensures Next(Cluster(Three(a, b, c, book, InitialNode(a, book), InitialNode(b, book)), map[], 0, []),
                 Cluster(Three(a, b, c, book, Standing(a, book), InitialNode(b, book)), map[RpcId(0, b) := VoteRpc(a), RpcId(0, c) := VoteRpc(a)], 1, []),
                 Elect(a))
  {
    hide StartElection, VoteRequestOf;
    Stands(book, a, b, c);
    Grants(book, a, b);
    Peers(book, a, b, c);
    var before := Three(a, b, c, book, InitialNode(a, book), InitialNode(b, book));
    assert before[a := Standing(a, book)] == Three(a, b, c, book, Standing(a, book), InitialNode(b, book));
    assert Ids(0, {b, c}) == {RpcId(0, b), RpcId(0, c)};
    assert map[] + Round(0, {b, c}, VoteRpc(a)) == map[RpcId(0, b) := VoteRpc(a), RpcId(0, c) := VoteRpc(a)];
  }

  lemma VoteStep(book: map<NodeId, PeerAddress>, a: NodeId, b: NodeId, c: NodeId)
    requires Trio(book, a, b, c)
    ensures Next(Cluster(Three(a, b, c, book, Standing(a, book), InitialNode(b, book)), map[RpcId(0, b) := VoteRpc(a), RpcId(0, c) := VoteRpc(a)], 1, []),
                 Cluster(Three(a, b, c, book, Standing(a, book), Voter(b, a, book)),
                         map[RpcId(0, b) := Answering(VoteRpc(a), VoteAnswer(YES)), RpcId(0, c) := VoteRpc(a)], 1, []),
                 ReceiveVote(RpcId(0, b), false))
  {
    hide HandleRequestVote, InitialNode;
    Grants(book, a, b);
    var before := Three(a, b, c, book, Standing(a, book), InitialNode(b, book));
    assert before[b := Voter(b, a, book)] == Three(a, b, c, book, Standing(a, book), Voter(b, a, book));
    assert map[RpcId(0, b) := VoteRpc(a), RpcId(0, c) := VoteRpc(a)][RpcId(0, b) := Answering(VoteRpc(a), VoteAnswer(YES))]
        == map[RpcId(0, b) := Answering(VoteRpc(a), VoteAnswer(YES)), RpcId(0, c) := VoteRpc(a)];
  }

  lemma CountStep(book: map<NodeId, PeerAddress>, a: NodeId, b: NodeId, c: NodeId)
    requires Trio(book, a, b, c)
    ensures Next(Cluster(Three(a, b, c, book, Standing(a, book), Voter(b, a, book)),
                         map[RpcId(0, b) := Answering(VoteRpc(a), VoteAnswer(YES)), RpcId(0, c) := VoteRpc(a)], 1, []),
                 Cluster(Three(a, b, c, book, Elected(a, b, c, book), Voter(b, a, book)), map[RpcId(0, c) := VoteRpc(a)], 1, []),
                 CountVote(RpcId(0, b)))
  {
    hide HandleVoteReply, Standing, Voter, Elected, InitialNode;
    Wins(book, a, b, c);
    var before := Three(a, b, c, book, Standing(a, book), Voter(b, a, book));
    assert before[a := Elected(a, b, c, book)] == Three(a, b, c, book, Elected(a, b, c, book), Voter(b, a, book));
    assert map[RpcId(0, b) := Answering(VoteRpc(a), VoteAnswer(YES)), RpcId(0, c) := VoteRpc(a)] - {RpcId(0, b)} == map[RpcId(0, c) := VoteRpc(a)];
  }

  lemma OfferStep(book: map<NodeId, PeerAddress>, a: NodeId, b: NodeId, c: NodeId, command: Command)
    requires Trio(book, a, b, c) && command.Client?
    ensures Next(Cluster(Three(a, b, c, book, Elected(a, b, c, book), Voter(b, a, book)), map[RpcId(0, c) := VoteRpc(a)], 1, []),
                 Cluster(Three(a, b, c, book, Holding(a, b, c, book, command), Voter(b, a, book)), map[RpcId(0, c) := VoteRpc(a)], 1, []),
                 Offer(a, command))
  {
    hide Propose, Voter, Elected, Holding, InitialNode;
    Offered(book, a, b, c, command);
    var before := Three(a, b, c, book, Elected(a, b, c, book), Voter(b, a, book));
    assert before[a := Holding(a, b, c, book, command)] == Three(a, b, c, book, Holding(a, b, c, book, command), Voter(b, a, book));
    assert [] + Events(a, []) == [];
  }

  /** A request goes out to b. */
  lemma SendStep(book: map<NodeId, PeerAddress>, a: NodeId, b: NodeId, c: NodeId, leader: NodeState, follower: NodeState, req: AppendRequest,
                 serial: nat, applied: seq<Applied>)
    requires Trio(book, a, b, c) && leader.role == Leader && b in leader.peers && !NeedsSnapshot(leader, b) && AppendRequestFor(leader, b) == req
    requires serial > 0
    ensures Next(Cluster(Three(a, b, c, book, leader, follower), map[RpcId(0, c) := VoteRpc(a)], serial, applied),
                 Cluster(Three(a, b, c, book, leader, follower), map[RpcId(0, c) := VoteRpc(a), RpcId(serial, b) := AppendRpc(a, req)], serial + 1, applied),
                 Replicate(a, b))
  {
    hide NeedsSnapshot, AppendRequestFor, InitialNode;
    assert Ids(serial, {b}) == {RpcId(serial, b)};
    assert map[RpcId(0, c) := VoteRpc(a)] + Round(serial, {b}, AppendRpc(a, req)) == map[RpcId(0, c) := VoteRpc(a), RpcId(serial, b) := AppendRpc(a, req)];
  }

  /** b handles the request. */
  lemma HandleStep(book: map<NodeId, PeerAddress>, a: NodeId, b: NodeId, c: NodeId, leader: NodeState, follower: NodeState, follower': NodeState,
                   req: AppendRequest, reply: AppendReply, events: seq<ApplyEvent>, serial: nat, applied: seq<Applied>)
    requires Trio(book, a, b, c) && HandleAppendEntries(follower, req) == (Outcome(follower', events), reply) && serial > 0
    ensures Next(Cluster(Three(a, b, c, book, leader, follower), map[RpcId(0, c) := VoteRpc(a), RpcId(serial, b) := AppendRpc(a, req)], serial + 1, applied),
                 Cluster(Three(a, b, c, book, leader, follower'),
                         map[RpcId(0, c) := VoteRpc(a), RpcId(serial, b) := Answering(AppendRpc(a, req), AppendAnswer(reply))], serial + 1,
                         applied + Events(b, events)),
                 ReceiveAppend(RpcId(serial, b)))
  {
    hide HandleAppendEntries, Events, InitialNode;
    assert Three(a, b, c, book, leader, follower)[b := follower'] == Three(a, b, c, book, leader, follower');
    assert map[RpcId(0, c) := VoteRpc(a), RpcId(serial, b) := AppendRpc(a, req)][RpcId(serial, b) := Answering(AppendRpc(a, req), AppendAnswer(reply))]
        == map[RpcId(0, c) := VoteRpc(a), RpcId(serial, b) := Answering(AppendRpc(a, req), AppendAnswer(reply))];
  }

  lemma CommitStep(book: map<NodeId, PeerAddress>, a: NodeId, b: NodeId, c: NodeId, command: Command)
    requires Trio(book, a, b, c) && command.Client?
    ensures Next(Cluster(Three(a, b, c, book, Holding(a, b, c, book, command), Following(b, a, book, command)),
                         map[RpcId(0, c) := VoteRpc(a), RpcId(1, b) := Answering(AppendRpc(a, FirstRequest(a, command)), AppendAnswer(AppendReply(1, true, 1)))], 2, []),
                 Cluster(Three(a, b, c, book, Committer(a, b, c, book, command), Following(b, a, book, command)),
                         map[RpcId(0, c) := VoteRpc(a)], 2, [Applied(a, ApplyEvent(1, command))]),
                 AppendDone(RpcId(1, b)))
  {
    hide HandleAppendReply, Holding, Following, Committer, InitialNode;
    Commits(book, a, b, c, command);
    var before := Three(a, b, c, book, Holding(a, b, c, book, command), Following(b, a, book, command));
    assert before[a := Committer(a, b, c, book, command)] == Three(a, b, c, book, Committer(a, b, c, book, command), Following(b, a, book, command));
    assert Events(a, [ApplyEvent(1, command)]) == [Applied(a, ApplyEvent(1, command))];
    var done := Answering(AppendRpc(a, FirstRequest(a, command)), AppendAnswer(AppendReply(1, true, 1)));
    assert map[RpcId(0, c) := VoteRpc(a), RpcId(1, b) := done] - {RpcId(1, b)} == map[RpcId(0, c) := VoteRpc(a)];
  }

  /** Steps that follow one another. */
  ghost predicate Leads(run: seq<Cluster>, steps: seq<Step>) {
    |run| == |steps| + 1 && forall i {:trigger steps[i]} | 0 <= i < |steps| :: Next(run[i], run[i + 1], steps[i])
  }

  lemma OneMore(run: seq<Cluster>, steps: seq<Step>, c: Cluster, step: Step)
    requires Leads(run, steps) && Next(run[|run| - 1], c, step)
    ensures Leads(run + [c], steps + [step]) && (run + [c])[0] == run[0]
  {
    hide Next;
    forall i | 0 <= i < |steps| + 1 ensures Next((run + [c])[i], (run + [c])[i + 1], (steps + [step])[i]) {
      if i < |steps| { assert Next(run[i], run[i + 1], steps[i]); }
    }
  }

  /** The first three steps: a stands, b grants, a wins. */
  lemma Electing(book: map<NodeId, PeerAddress>, a: NodeId, b: NodeId, c: NodeId) returns (run: seq<Cluster>, steps: seq<Step>)
    requires Trio(book, a, b, c)
    ensures Run(run, steps, book) && |run| == 4
    ensures run[3] == Cluster(Three(a, b, c, book, Elected(a, b, c, book), Voter(b, a, book)), map[RpcId(0, c) := VoteRpc(a)], 1, [])
  {
    hide Next, InitialNode, Elected, Voter, Standing, Init;
    InitThree(book, a, b, c);
    run := [Cluster(Three(a, b, c, book, InitialNode(a, book), InitialNode(b, book)), map[], 0, [])];
    steps := [];
    ElectStep(book, a, b, c);
    var c1 := Cluster(Three(a, b, c, book, Standing(a, book), InitialNode(b, book)), map[RpcId(0, b) := VoteRpc(a), RpcId(0, c) := VoteRpc(a)], 1, []);
    OneMore(run, steps, c1, Elect(a));
    run, steps := run + [c1], steps + [Elect(a)];
    VoteStep(book, a, b, c);
    var c2 := Cluster(Three(a, b, c, book, Standing(a, book), Voter(b, a, book)),
                      map[RpcId(0, b) := Answering(VoteRpc(a), VoteAnswer(YES)), RpcId(0, c) := VoteRpc(a)], 1, []);
    OneMore(run, steps, c2, ReceiveVote(RpcId(0, b), false));
    run, steps := run + [c2], steps + [ReceiveVote(RpcId(0, b), false)];
    CountStep(book, a, b, c);
    var c3 := Cluster(Three(a, b, c, book, Elected(a, b, c, book), Voter(b, a, book)), map[RpcId(0, c) := VoteRpc(a)], 1, []);
    OneMore(run, steps, c3, CountVote(RpcId(0, b)));
    run, steps := run + [c3], steps + [CountVote(RpcId(0, b))];
  }

  /** The next three: a command is offered, sent to b and taken there. */
  lemma Replicating(book: map<NodeId, PeerAddress>, a: NodeId, b: NodeId, c: NodeId, command: Command) returns (run: seq<Cluster>, steps: seq<Step>)
    requires Trio(book, a, b, c) && command.Client?
    ensures Run(run, steps, book) && |run| == 7 && steps[3] == Offer(a, command)
    ensures run[3].nodes == Three(a, b, c, book, Elected(a, b, c, book), Voter(b, a, book))
    ensures run[6] == Cluster(Three(a, b, c, book, Holding(a, b, c, book, command), Following(b, a, book, command)),
                              map[RpcId(0, c) := VoteRpc(a), RpcId(1, b) := Answering(AppendRpc(a, FirstRequest(a, command)), AppendAnswer(AppendReply(1, true, 1)))],
                              2, [])
  {
    hide Next, InitialNode, Elected, Voter, Holding, Following, Init, NeedsSnapshot, AppendRequestFor, HandleAppendEntries;
    run, steps := Electing(book, a, b, c);
    OfferStep(book, a, b, c, command);
    var c4 := Cluster(Three(a, b, c, book, Holding(a, b, c, book, command), Voter(b, a, book)), map[RpcId(0, c) := VoteRpc(a)], 1, []);
    OneMore(run, steps, c4, Offer(a, command));
    run, steps := run + [c4], steps + [Offer(a, command)];
    LeaderWithPeers(book, a, b, c, command);
    Requests(book, a, b, c, command);
    SendStep(book, a, b, c, Holding(a, b, c, book, command), Voter(b, a, book), FirstRequest(a, command), 1, []);
    var c5 := c4.(rpcs := map[RpcId(0, c) := VoteRpc(a), RpcId(1, b) := AppendRpc(a, FirstRequest(a, command))], nextSerial := 2);
    OneMore(run, steps, c5, Replicate(a, b));
    run, steps := run + [c5], steps + [Replicate(a, b)];
    Follows(book, a, b, command);
    HandleStep(book, a, b, c, Holding(a, b, c, book, command), Voter(b, a, book), Following(b, a, book, command), FirstRequest(a, command),
      AppendReply(1, true, 1), [], 1, []);
    var c6 := Cluster(Three(a, b, c, book, Holding(a, b, c, book, command), Following(b, a, book, command)),
                      map[RpcId(0, c) := VoteRpc(a), RpcId(1, b) := Answering(AppendRpc(a, FirstRequest(a, command)), AppendAnswer(AppendReply(1, true, 1)))], 2, []);
    assert [] + Events(b, []) == [];
    OneMore(run, steps, c6, ReceiveAppend(RpcId(1, b)));
    run, steps := run + [c6], steps + [ReceiveAppend(RpcId(1, b))];
  }

  lemma LeaderWithPeers(book: map<NodeId, PeerAddress>, a: NodeId, b: NodeId, c: NodeId, command: Command)
    requires Trio(book, a, b, c)
    ensures forall s: NodeState :: s in [Holding(a, b, c, book, command), Committer(a, b, c, book, command)] ==> s.role == Leader && b in s.peers
  {
  }

  /** From the first start of three nodes: the third step makes a leader of term 1, the fourth offers it a command,
      and at the end first the leader and then a follower has handed exactly that command to its state machine. */
  lemma CommandApplied(book: map<NodeId, PeerAddress>, a: NodeId, b: NodeId, c: NodeId, payload: string) returns (run: seq<Cluster>, steps: seq<Step>)
    requires Trio(book, a, b, c)
    ensures Run(run, steps, book) && |run| == 10
    ensures a in run[3].nodes && run[3].nodes[a].role == Leader && run[3].nodes[a].currentTerm == 1 && steps[3] == Offer(a, Client(payload))
    ensures run[9].applied == [Applied(a, ApplyEvent(1, Client(payload))), Applied(b, ApplyEvent(1, Client(payload)))]
  {
    hide Next, InitialNode, Voter, Holding, Following, Committer, Caught, Init, NeedsSnapshot, AppendRequestFor, HandleAppendEntries;
    var command := Client(payload);
    var event := ApplyEvent(1, command);
    run, steps := Replicating(book, a, b, c, command);
    CommitStep(book, a, b, c, command);
    var c7 := Cluster(Three(a, b, c, book, Committer(a, b, c, book, command), Following(b, a, book, command)),
                      map[RpcId(0, c) := VoteRpc(a)], 2, [Applied(a, event)]);
    OneMore(run, steps, c7, AppendDone(RpcId(1, b)));
    run, steps := run + [c7], steps + [AppendDone(RpcId(1, b))];
    LeaderWithPeers(book, a, b, c, command);
    RequestsAgain(book, a, b, c, command);
    SendStep(book, a, b, c, Committer(a, b, c, book, command), Following(b, a, book, command), SecondRequest(a), 2, [Applied(a, event)]);
    var c8 := c7.(rpcs := map[RpcId(0, c) := VoteRpc(a), RpcId(2, b) := AppendRpc(a, SecondRequest(a))], nextSerial := 3);
    OneMore(run, steps, c8, Replicate(a, b));
    run, steps := run + [c8], steps + [Replicate(a, b)];
    FollowerApplies(book, a, b, command);
    HandleStep(book, a, b, c, Committer(a, b, c, book, command), Following(b, a, book, command), Caught(b, a, book, command), SecondRequest(a),
      AppendReply(1, true, 1), [event], 2, [Applied(a, event)]);
    assert [Applied(a, event)] + Events(b, [event]) == [Applied(a, event), Applied(b, event)];
    var c9 := Cluster(Three(a, b, c, book, Committer(a, b, c, book, command), Caught(b, a, book, command)),
                      map[RpcId(0, c) := VoteRpc(a), RpcId(2, b) := Answering(AppendRpc(a, SecondRequest(a)), AppendAnswer(AppendReply(1, true, 1)))], 3,
                      [Applied(a, event), Applied(b, event)]);
    OneMore(run, steps, c9, ReceiveAppend(RpcId(2, b)));
    run, steps := run + [c9], steps + [ReceiveAppend(RpcId(2, b))];
  }
}
