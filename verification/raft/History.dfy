/**
 The replication protocol as a history of logs, votes and acknowledgements over a fixed set of
 members. Logs here are whole: compaction is invisible at this level. The invariant below is kept
 by every protocol action and yields Election Safety, Log Matching, Leader Completeness and the
 agreement of committed prefixes.
 */
module RaftHistory {
  import opened FiniteSets
  import opened RaftTypes
  import opened RaftLogs

  datatype Seat = Seat(node: NodeId, term: Term)

  /** `lead[t]` is the log of term t's leader, as far as it ever got; it only grows.
      `cand[c, t]` is the log c stood for election with. `acked[v, t]` is how much of `lead[t]`
      node v held at some moment of term t. */
  datatype Hist = Hist(
    term: map<NodeId, Term>,
    log: map<NodeId, seq<LogEntry>>,
    voted: map<Seat, NodeId>,
    cand: map<Seat, seq<LogEntry>>,
    lead: map<Term, seq<LogEntry>>,
    leader: map<Term, NodeId>,
    acked: map<Seat, nat>)

  function Members(h: Hist): set<NodeId> { h.term.Keys }

  function Acked(h: Hist, v: NodeId, t: Term): nat { if Seat(v, t) in h.acked then h.acked[Seat(v, t)] else 0 }

  predicate Quorum(members: set<NodeId>, q: set<NodeId>) { q <= members && 2 * |q| > |members| }

  lemma QuorumsMeet(members: set<NodeId>, a: set<NodeId>, b: set<NodeId>) returns (v: NodeId)
    requires Quorum(members, a) && Quorum(members, b)
    ensures v in a && v in b
  {
    if a * b == {} {
      assert |a + b| == |a| + |b|;
      SubsetSize(a + b, members);
      assert false;
    }
    v :| v in a * b;
  }

  // ------------------------------------------------------------------------------------------
  // Entries, choices and coverage
  // ------------------------------------------------------------------------------------------

  /** Position i of term t's leader log holds an entry made in term t. */
  ghost predicate OwnEntry(h: Hist, t: Term, i: LogIndex) {
    t in h.lead && 1 <= i <= |h.lead[t]| && h.lead[t][i - 1].term == t
  }

  ghost predicate Frozen(h: Hist, q: set<NodeId>, t: Term, i: LogIndex) {
    forall v :: v in q && v in h.term ==> h.term[v] > t && Acked(h, v, t) < i
  }

  /** A quorum has left term t without acknowledging position i: no quorum ever will. */
  ghost predicate NeverChosen(h: Hist, t: Term, i: LogIndex) {
    exists q :: Quorum(Members(h), q) && Frozen(h, q, t, i)
  }

  ghost predicate AllAcked(h: Hist, q: set<NodeId>, t: Term, i: LogIndex) {
    forall v :: v in q ==> Acked(h, v, t) >= i
  }

  /** The commit rule: an entry of the leader's own term, held by a majority in that term. */
  ghost predicate Chosen(h: Hist, t: Term, i: LogIndex) {
    OwnEntry(h, t, i) && exists q :: Quorum(Members(h), q) && AllAcked(h, q, t, i)
  }

  ghost predicate Covered(h: Hist, log: seq<LogEntry>, t: Term, i: LogIndex)
    requires OwnEntry(h, t, i)
  {
    h.lead[t][..i] <= log || NeverChosen(h, t, i)
  }

  ghost predicate CommittedBy(h: Hist, prefix: seq<LogEntry>, t: Term, i: LogIndex) {
    Chosen(h, t, i) && |prefix| <= i && prefix <= h.lead[t]
  }

  /** `prefix` lies under an entry chosen in some term up to `bound`. */
  ghost predicate Committed(h: Hist, prefix: seq<LogEntry>, bound: Term) {
    prefix == [] || exists t: Term, i: LogIndex :: t <= bound && CommittedBy(h, prefix, t, i)
  }

  // ------------------------------------------------------------------------------------------
  // The invariant
  // ------------------------------------------------------------------------------------------

  /** Entry i sits where its term's leader put it, on top of the same history. */
  ghost predicate Placed(h: Hist, log: seq<LogEntry>, i: nat, bound: Term)
    requires i < |log|
  {
    && 1 <= log[i].term <= bound
    && log[i].term in h.lead
    && log[..i + 1] <= h.lead[log[i].term]
  }

  ghost predicate Coherent(h: Hist, log: seq<LogEntry>, bound: Term) {
    && FullGapless(log)
    && forall i: nat {:trigger Placed(h, log, i, bound)} | i < |log| :: Placed(h, log, i, bound)
  }

  ghost predicate Shape(h: Hist) {
    && h.log.Keys == Members(h)
    && h.leader.Keys == h.lead.Keys
    && (forall k :: k in h.voted ==> k.node in h.term && k.term <= h.term[k.node] && Seat(h.voted[k], k.term) in h.cand)
    && (forall k :: k in h.cand ==> k.node in h.term && 1 <= k.term <= h.term[k.node])
    && (forall k :: k in h.acked ==> k.node in h.term && k.term in h.lead && k.term <= h.term[k.node]
                                     && h.acked[k] <= |h.lead[k.term]|)
  }

  ghost predicate VotedFor(h: Hist, q: set<NodeId>, t: Term, c: NodeId) {
    forall v :: v in q ==> Seat(v, t) in h.voted && h.voted[Seat(v, t)] == c
  }

  ghost predicate Elected(h: Hist, t: Term, c: NodeId) {
    exists q :: Quorum(Members(h), q) && VotedFor(h, q, t, c)
  }

  ghost predicate LeadersElected(h: Hist) {
    forall t :: t in h.lead ==> t in h.leader && Seat(h.leader[t], t) in h.cand && Elected(h, t, h.leader[t])
  }

  ghost predicate LogsCoherent(h: Hist) {
    && (forall v {:trigger h.log[v]} | v in h.log && v in h.term :: Coherent(h, h.log[v], h.term[v]))
    && (forall t {:trigger Coherent(h, h.lead[t], t)} | t in h.lead :: Coherent(h, h.lead[t], t))
    && (forall k {:trigger h.cand[k]} | k in h.cand && k.term >= 1 :: Coherent(h, h.cand[k], k.term - 1))
  }

  /** What a node acknowledged it still holds, unless it can no longer be chosen. */
  ghost predicate AcksKept(h: Hist) {
    forall v, t: Term, i: LogIndex {:trigger Covered(h, h.log[v], t, i)}
      | v in h.log && OwnEntry(h, t, i) && i <= Acked(h, v, t) :: Covered(h, h.log[v], t, i)
  }

  ghost predicate LeadersCover(h: Hist) {
    forall later: Term, t: Term, i: LogIndex {:trigger Covered(h, h.lead[later], t, i)}
      | later in h.lead && t < later && OwnEntry(h, t, i) :: Covered(h, h.lead[later], t, i)
  }

  ghost predicate VotesCover(h: Hist) {
    forall k: Seat, t: Term, i: LogIndex {:trigger Covered(h, h.cand[Seat(h.voted[k], k.term)], t, i)}
      | k in h.voted && Seat(h.voted[k], k.term) in h.cand && t < k.term && OwnEntry(h, t, i) && i <= Acked(h, k.node, t)
      :: Covered(h, h.cand[Seat(h.voted[k], k.term)], t, i)
  }

  /** Node v stands for election in its current term and nobody has won it. */
  ghost predicate Standing(h: Hist, v: NodeId) {
    v in h.log && v in h.term && Seat(v, h.term[v]) in h.cand && h.term[v] !in h.lead
  }

  /** A standing candidate may still install a snapshot; it loses nothing its election log covered. */
  ghost predicate CandidatesCover(h: Hist) {
    forall v, t: Term, i: LogIndex {:trigger Standing(h, v), Covered(h, h.log[v], t, i)}
      | Standing(h, v) && t < h.term[v] && OwnEntry(h, t, i) && Covered(h, h.cand[Seat(v, h.term[v])], t, i)
      :: Covered(h, h.log[v], t, i)
  }

  /** A leader counts its own log in full. */
  ghost predicate LeadersHold(h: Hist) {
    forall t {:trigger h.leader[t]} | t in h.lead && t in h.leader :: Acked(h, h.leader[t], t) == |h.lead[t]|
  }

  ghost predicate Inv(h: Hist) {
    && Shape(h) && LeadersElected(h) && LeadersHold(h) && LogsCoherent(h)
    && AcksKept(h) && LeadersCover(h) && VotesCover(h) && CandidatesCover(h)
  }

  // ------------------------------------------------------------------------------------------
  // What every action keeps
  // ------------------------------------------------------------------------------------------

  ghost predicate Grows(h: Hist, h': Hist) {
    && h'.term.Keys == h.term.Keys
    && (forall v :: v in h.term ==> h.term[v] <= h'.term[v])
    && (forall t :: t in h.lead ==> t in h'.lead && h.lead[t] <= h'.lead[t])
    && (forall t :: t in h.leader ==> t in h'.leader && h'.leader[t] == h.leader[t])
    && (forall k :: k in h.voted ==> k in h'.voted && h'.voted[k] == h.voted[k])
    && (forall k :: k in h.cand ==> k in h'.cand && h'.cand[k] == h.cand[k])
    && (forall v: NodeId, t: Term :: Acked(h, v, t) <= Acked(h', v, t))
    && (forall v: NodeId, t: Term :: v in h.term && t < h.term[v] ==> Acked(h', v, t) == Acked(h, v, t))
  }

  lemma GrowsTransitive(a: Hist, b: Hist, c: Hist)
    requires Grows(a, b) && Grows(b, c)
    ensures Grows(a, c)
  {
    forall t | t in a.lead
      ensures t in c.lead && a.lead[t] <= c.lead[t]
    {
      assert t in b.lead;
    }
    forall v: NodeId, t: Term
      ensures Acked(a, v, t) <= Acked(c, v, t)
    {
      assert Acked(a, v, t) <= Acked(b, v, t) <= Acked(c, v, t);
    }
    forall v: NodeId, t: Term | v in a.term && t < a.term[v]
      ensures Acked(c, v, t) == Acked(a, v, t)
    {
      assert Acked(b, v, t) == Acked(a, v, t);
    }
  }

  lemma OwnEntryStable(h: Hist, h': Hist, t: Term, i: LogIndex)
    requires Grows(h, h') && OwnEntry(h, t, i)
    ensures OwnEntry(h', t, i) && h'.lead[t][..i] == h.lead[t][..i]
  {
    assert h.lead[t][i - 1] == h'.lead[t][i - 1];
  }

  lemma NeverChosenStable(h: Hist, h': Hist, t: Term, i: LogIndex)
    requires Grows(h, h') && NeverChosen(h, t, i)
    ensures NeverChosen(h', t, i)
  {
    var q :| Quorum(Members(h), q) && Frozen(h, q, t, i);
    assert Frozen(h', q, t, i);
  }

  lemma CoveredStable(h: Hist, h': Hist, log: seq<LogEntry>, log': seq<LogEntry>, t: Term, i: LogIndex)
    requires Grows(h, h') && OwnEntry(h, t, i) && Covered(h, log, t, i)
    requires h.lead[t][..i] <= log ==> h.lead[t][..i] <= log'
    ensures OwnEntry(h', t, i) && Covered(h', log', t, i)
  {
    OwnEntryStable(h, h', t, i);
    if NeverChosen(h, t, i) { NeverChosenStable(h, h', t, i); }
  }

  lemma CoherentStable(h: Hist, h': Hist, log: seq<LogEntry>, bound: Term, bound': Term)
    requires Grows(h, h') && Coherent(h, log, bound) && bound <= bound'
    ensures Coherent(h', log, bound')
  {
    forall i: nat | i < |log|
      ensures Placed(h', log, i, bound')
    {
      assert Placed(h, log, i, bound);
    }
  }

  lemma ChosenStable(h: Hist, h': Hist, t: Term, i: LogIndex)
    requires Grows(h, h') && Chosen(h, t, i)
    ensures Chosen(h', t, i)
  {
    OwnEntryStable(h, h', t, i);
    var q :| Quorum(Members(h), q) && AllAcked(h, q, t, i);
    assert AllAcked(h', q, t, i);
  }

  lemma CommittedStable(h: Hist, h': Hist, prefix: seq<LogEntry>, bound: Term, bound': Term)
    requires Grows(h, h') && Committed(h, prefix, bound) && bound <= bound'
    ensures Committed(h', prefix, bound')
  {
    if prefix != [] {
      var t: Term, i: LogIndex :| t <= bound && CommittedBy(h, prefix, t, i);
      ChosenStable(h, h', t, i);
      assert CommittedBy(h', prefix, t, i);
    }
  }

  lemma CoherentPrefix(h: Hist, log: seq<LogEntry>, bound: Term, n: nat, bound': Term)
    requires Coherent(h, log, bound) && n <= |log|
    requires n > 0 ==> log[n - 1].term <= bound'
    requires LogsCoherent(h)
    ensures Coherent(h, log[..n], bound')
  {
    forall i: nat | i < n
      ensures Placed(h, log[..n], i, bound')
    {
      assert log[..n][..i + 1] == log[..i + 1];
      assert Placed(h, log, i, bound) && Placed(h, log, n - 1, bound);
      var t := log[n - 1].term;
      assert Coherent(h, h.lead[t], t);
      assert h.lead[t][i] == log[i];
      assert Placed(h, h.lead[t], i, t);
    }
  }

  // ------------------------------------------------------------------------------------------
  // Consequences
  // ------------------------------------------------------------------------------------------

  /** Log Matching: two coherent logs with the same term at a position agree up to it. */
  lemma LogMatching(h: Hist, a: seq<LogEntry>, ba: Term, b: seq<LogEntry>, bb: Term, i: LogIndex)
    requires Coherent(h, a, ba) && Coherent(h, b, bb)
    requires 1 <= i <= |a| && i <= |b| && a[i - 1].term == b[i - 1].term
    ensures a[..i] == b[..i]
  {
    assert Placed(h, a, i - 1, ba) && Placed(h, b, i - 1, bb);
  }

  /** Election Safety: one winner per term. */
  lemma ElectionSafety(h: Hist, t: Term, c: NodeId, d: NodeId)
    requires Elected(h, t, c) && Elected(h, t, d)
    ensures c == d
  {
    var q :| Quorum(Members(h), q) && VotedFor(h, q, t, c);
    var r :| Quorum(Members(h), r) && VotedFor(h, r, t, d);
    var v := QuorumsMeet(Members(h), q, r);
  }

  lemma ChosenNotNever(h: Hist, t: Term, i: LogIndex)
    requires Shape(h) && Chosen(h, t, i)
    ensures !NeverChosen(h, t, i)
  {
    if NeverChosen(h, t, i) {
      var q :| Quorum(Members(h), q) && Frozen(h, q, t, i);
      var r :| Quorum(Members(h), r) && AllAcked(h, r, t, i);
      var v := QuorumsMeet(Members(h), q, r);
      assert false;
    }
  }

  /** Leader Completeness: a chosen entry is in the log of every later leader. */
  lemma LeaderCompleteness(h: Hist, t: Term, i: LogIndex, later: Term)
    requires Inv(h) && Chosen(h, t, i) && later in h.lead && t < later
    ensures h.lead[t][..i] <= h.lead[later]
  {
    ChosenNotNever(h, t, i);
    assert Covered(h, h.lead[later], t, i);
  }

  lemma ChosenInLeader(h: Hist, prefix: seq<LogEntry>, t: Term, i: LogIndex, later: Term)
    requires Inv(h) && CommittedBy(h, prefix, t, i) && later in h.lead && t <= later
    ensures prefix <= h.lead[later]
  {
    if t < later {
      LeaderCompleteness(h, t, i, later);
      assert prefix <= h.lead[t][..i];
    }
  }

  /** A committed prefix is in the log of every leader of its term or later. */
  lemma CommittedInLeader(h: Hist, prefix: seq<LogEntry>, bound: Term, later: Term)
    requires Inv(h) && Committed(h, prefix, bound) && later in h.lead && bound <= later
    ensures prefix <= h.lead[later]
  {
    if prefix != [] {
      var t: Term, i: LogIndex :| t <= bound && CommittedBy(h, prefix, t, i);
      ChosenInLeader(h, prefix, t, i, later);
    }
  }

  /** A quorum that acknowledged an entry of term u shares a member with the one that elected a leader of a
      later term; as that member had moved on by then, it had acknowledged the entry already. */
  lemma AckedBeforeElection(a: Hist, b: Hist, u: Term, i: LogIndex, t: Term) returns (v: NodeId)
    requires Shape(a) && LeadersElected(a) && Members(a) == Members(b) && Chosen(b, u, i) && u < t && t in a.lead
    ensures v in a.term && a.term[v] > u && Acked(b, v, u) >= i
  {
    hide OwnEntry, Acked;
    assert Elected(a, t, a.leader[t]);
    var q :| Quorum(Members(a), q) && VotedFor(a, q, t, a.leader[t]);
    var r :| Quorum(Members(b), r) && AllAcked(b, r, u, i);
    v := QuorumsMeet(Members(a), q, r);
    assert Seat(v, t) in a.voted;
  }

  lemma AckedEntryThere(a: Hist, b: Hist, u: Term, i: LogIndex, v: NodeId)
    requires Shape(a) && Grows(a, b) && OwnEntry(b, u, i) && v in a.term && a.term[v] > u && Acked(b, v, u) >= i
    ensures OwnEntry(a, u, i)
  {
    assert Acked(a, v, u) == Acked(b, v, u);
    assert Seat(v, u) in a.acked;
    assert a.lead[u] <= b.lead[u];
  }

  lemma CoveredPrefix(a: Hist, b: Hist, prefix: seq<LogEntry>, u: Term, i: LogIndex, t: Term)
    requires Grows(a, b) && LeadersCover(a) && OwnEntry(a, u, i) && !NeverChosen(a, u, i) && u < t && t in a.lead
    requires u in b.lead && |prefix| <= i && prefix <= b.lead[u]
    ensures prefix <= a.lead[t]
  {
    hide NeverChosen;
    assert Covered(a, a.lead[t], u, i);
    assert a.lead[u] <= b.lead[u];
    assert prefix <= a.lead[u][..i];
  }

  /** What is committed at any time in a term was in the log of every leader of a later term from the
      moment of its election. */
  lemma CommittedInEarlierLeader(a: Hist, b: Hist, prefix: seq<LogEntry>, bound: Term, t: Term)
    requires Inv(a) && Inv(b) && Grows(a, b) && Committed(b, prefix, bound) && bound < t && t in a.lead
    ensures prefix <= a.lead[t]
  {
    hide Shape, LeadersElected, LeadersHold, LogsCoherent, AcksKept, LeadersCover, VotesCover, CandidatesCover, Grows, CommittedBy;
    if prefix != [] {
      var u: Term, i: LogIndex :| u <= bound && CommittedBy(b, prefix, u, i);
      EarlierLeaderHad(a, b, prefix, u, i, t);
    }
  }

  lemma EarlierLeaderHad(a: Hist, b: Hist, prefix: seq<LogEntry>, u: Term, i: LogIndex, t: Term)
    requires Shape(a) && LeadersElected(a) && LeadersCover(a) && Shape(b) && Grows(a, b)
    requires CommittedBy(b, prefix, u, i) && u < t && t in a.lead
    ensures prefix <= a.lead[t]
  {
    hide NeverChosen, Shape, LeadersElected, LeadersCover, Acked;
    SameMembers(a, b);
    var v := AckedBeforeElection(a, b, u, i, t);
    AckedEntryThere(a, b, u, i, v);
    ChosenNotNever(b, u, i);
    if NeverChosen(a, u, i) { NeverChosenStable(a, b, u, i); }
    CoveredPrefix(a, b, prefix, u, i, t);
  }

  lemma SameMembers(a: Hist, b: Hist)
    requires Grows(a, b)
    ensures Members(a) == Members(b)
  {
  }

  lemma PrefixesComparable(a: seq<LogEntry>, b: seq<LogEntry>, c: seq<LogEntry>)
    requires a <= c && b <= c
    ensures a <= b || b <= a
  {
    if |a| <= |b| {
      assert a == c[..|a|] == b[..|a|];
    } else {
      assert b == c[..|b|] == a[..|b|];
    }
  }

  /** Any two committed prefixes are comparable: the committed history is one sequence. */
  lemma CommittedAgree(h: Hist, a: seq<LogEntry>, ba: Term, b: seq<LogEntry>, bb: Term)
    requires Inv(h) && Committed(h, a, ba) && Committed(h, b, bb)
    ensures a <= b || b <= a
  {
    if a != [] && b != [] {
      var t: Term, i: LogIndex :| t <= ba && CommittedBy(h, a, t, i);
      var u: Term, j: LogIndex :| u <= bb && CommittedBy(h, b, u, j);
      if t <= u {
        ChosenInLeader(h, a, t, i, u);
        PrefixesComparable(a, b, h.lead[u]);
      } else {
        ChosenInLeader(h, b, u, j, t);
        PrefixesComparable(a, b, h.lead[t]);
      }
    }
  }

  /** A committed prefix agrees with everything that may still be chosen. */
  lemma CommittedVsEntry(h: Hist, prefix: seq<LogEntry>, bound: Term, t: Term, i: LogIndex)
    requires Inv(h) && Committed(h, prefix, bound) && OwnEntry(h, t, i)
    ensures NeverChosen(h, t, i) || h.lead[t][..i] <= prefix || prefix <= h.lead[t][..i]
  {
    if prefix != [] && !NeverChosen(h, t, i) {
      var u: Term, j: LogIndex :| u <= bound && CommittedBy(h, prefix, u, j);
      var mine := h.lead[t][..i];
      if u <= t {
        ChosenInLeader(h, prefix, u, j, t);
        PrefixesComparable(mine, prefix, h.lead[t]);
      } else {
        assert Covered(h, h.lead[u], t, i);
        PrefixesComparable(mine, prefix, h.lead[u]);
      }
    }
  }

  lemma CommittedCoherent(h: Hist, prefix: seq<LogEntry>, bound: Term)
    requires Inv(h) && Committed(h, prefix, bound)
    ensures Coherent(h, prefix, bound)
  {
    if prefix != [] {
      var t: Term, i: LogIndex :| t <= bound && CommittedBy(h, prefix, t, i);
      assert prefix == h.lead[t][..|prefix|];
      LeaderTerms(h, t);
      assert Coherent(h, h.lead[t], t);
      CoherentPrefix(h, h.lead[t], t, |prefix|, bound);
    }
  }

  lemma LeaderTerms(h: Hist, t: Term)
    requires LogsCoherent(h) && t in h.lead
    ensures forall p :: 0 <= p < |h.lead[t]| ==> h.lead[t][p].term <= t
  {
    assert Coherent(h, h.lead[t], t);
    forall p: nat | p < |h.lead[t]|
      ensures h.lead[t][p].term <= t
    {
      assert Placed(h, h.lead[t], p, t);
    }
  }

  /** The voter's comparison is sound: whatever the voter's log covers, the winner's log covers. */
  lemma UpToDateCovers(h: Hist, mine: seq<LogEntry>, bound: Term, theirs: seq<LogEntry>, electionTerm: Term, t: Term, i: LogIndex)
    requires Shape(h) && LogsCoherent(h) && LeadersCover(h)
    requires Coherent(h, mine, bound) && electionTerm >= 1 && Coherent(h, theirs, electionTerm - 1)
    requires TermOf(theirs, |theirs|) > TermOf(mine, |mine|)
             || (TermOf(theirs, |theirs|) == TermOf(mine, |mine|) && |theirs| >= |mine|)
    requires OwnEntry(h, t, i) && t < electionTerm && Covered(h, mine, t, i)
    ensures Covered(h, theirs, t, i)
  {
    if !NeverChosen(h, t, i) {
      assert mine[i - 1] == h.lead[t][..i][i - 1];
      assert mine[..|mine|] == mine && Placed(h, mine, |mine| - 1, bound);
      var last := mine[|mine| - 1].term;
      assert Coherent(h, h.lead[last], last);
      assert Placed(h, h.lead[last], i - 1, last);
      assert t <= last;
      assert theirs[..|theirs|] == theirs && Placed(h, theirs, |theirs| - 1, electionTerm - 1);
      var top := theirs[|theirs| - 1].term;
      if top == last {
        assert mine <= theirs;
      } else {
        assert Covered(h, h.lead[top], t, i);
        LeaderTerms(h, t);
        if |theirs| < i { assert false; }
        assert h.lead[t][..i] <= theirs;
      }
    }
  }
}
