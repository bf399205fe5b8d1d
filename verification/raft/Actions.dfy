/**
 The protocol's actions on the history, each with the proof that it keeps the invariant.
 They are finer than the handlers: a handler is a sequence of them, so a crash between two of
 them is covered as well.
 */
module RaftActions {
  import opened RaftTypes
  import opened RaftLogs
  import opened RaftHistory

  /** Whatever `log` covers, `log'` covers. */
  ghost predicate Carries(h: Hist, log: seq<LogEntry>, log': seq<LogEntry>) {
    forall t: Term, i: LogIndex {:trigger Covered(h, log', t, i)}
      | OwnEntry(h, t, i) && Covered(h, log, t, i) :: Covered(h, log', t, i)
  }

  ghost predicate NewLogsCoherent(h: Hist, h': Hist) {
    && (forall v {:trigger h'.log[v]} | v in h.log && v in h'.log && v in h'.term && h'.log[v] != h.log[v] ::
          Coherent(h', h'.log[v], h'.term[v]))
    && (forall t {:trigger h'.lead[t]} | t in h'.lead && (t !in h.lead || h'.lead[t] != h.lead[t]) ::
          Coherent(h', h'.lead[t], t))
    && (forall k {:trigger h'.cand[k]} | k in h'.cand && k !in h.cand && k.term >= 1 ::
          Coherent(h', h'.cand[k], k.term - 1))
  }

  lemma CarryCoherent(h: Hist, h': Hist)
    requires Grows(h, h') && LogsCoherent(h) && Shape(h')
    requires h'.log.Keys == h.log.Keys == Members(h)
    requires NewLogsCoherent(h, h')
    ensures LogsCoherent(h')
  {
    forall v | v in h'.log && v in h'.term
      ensures Coherent(h', h'.log[v], h'.term[v])
    {
      if h'.log[v] == h.log[v] { CoherentStable(h, h', h.log[v], h.term[v], h'.term[v]); }
    }
    forall t | t in h'.lead
      ensures Coherent(h', h'.lead[t], t)
    {
      if t in h.lead && h'.lead[t] == h.lead[t] {
        assert Coherent(h, h.lead[t], t);
        CoherentStable(h, h', h.lead[t], t, t);
      }
    }
    forall k | k in h'.cand && k.term >= 1
      ensures Coherent(h', h'.cand[k], k.term - 1)
    {
      if k in h.cand { CoherentStable(h, h', h.cand[k], k.term - 1, k.term - 1); }
    }
  }

  lemma ElectedStable(h: Hist, h': Hist, t: Term, c: NodeId)
    requires Grows(h, h') && Elected(h, t, c)
    ensures Elected(h', t, c)
  {
    var q :| Quorum(Members(h), q) && VotedFor(h, q, t, c);
    assert VotedFor(h', q, t, c);
  }

  lemma CarryLeaders(h: Hist, h': Hist)
    requires Grows(h, h') && LeadersElected(h) && h'.lead.Keys == h.lead.Keys
    ensures LeadersElected(h')
  {
    forall t | t in h'.lead
      ensures t in h'.leader && Seat(h'.leader[t], t) in h'.cand && Elected(h', t, h'.leader[t])
    {
      ElectedStable(h, h', t, h.leader[t]);
    }
  }

  /** The votes cast by this step: the voter is in the vote's term, and the candidate covers
      everything the voter acknowledged before. */
  ghost predicate NewVotesSound(h: Hist, h': Hist) {
    forall k: Seat, t: Term, i: LogIndex {:trigger h'.voted[k], OwnEntry(h, t, i)}
      | k in h'.voted && k !in h.voted && t < k.term && OwnEntry(h, t, i) && i <= Acked(h, k.node, t)
      :: Seat(h'.voted[k], k.term) in h'.cand && Covered(h, h'.cand[Seat(h'.voted[k], k.term)], t, i)
  }

  ghost predicate NewAcksSound(h: Hist, h': Hist) {
    forall v, t: Term, i: LogIndex {:trigger Acked(h', v, t), OwnEntry(h, t, i)}
      | v in h'.log && OwnEntry(h, t, i) && i <= Acked(h', v, t) && i > Acked(h, v, t)
      :: Covered(h, h'.log[v], t, i)
  }

  ghost predicate LogsCarry(h: Hist, h': Hist) {
    forall v {:trigger h'.log[v]} | v in h.log && v in h'.log :: Carries(h, h.log[v], h'.log[v])
  }

  /** A node stands with the log it stood with before, or has only just stood up. */
  ghost predicate StandingSound(h: Hist, h': Hist) {
    forall v {:trigger Standing(h', v)} | Standing(h', v) ::
      || (Standing(h, v) && h'.term[v] == h.term[v])
      || h'.cand[Seat(v, h'.term[v])] == h'.log[v]
  }

  lemma CarryVotes(h: Hist, h': Hist)
    requires VotesCover(h) && Grows(h, h') && Shape(h) && h'.lead == h.lead
    requires h'.acked == h.acked || h'.voted == h.voted
    requires NewVotesSound(h, h')
    ensures VotesCover(h')
  {
    forall k: Seat, t: Term, i: LogIndex
      | k in h'.voted && Seat(h'.voted[k], k.term) in h'.cand && t < k.term && OwnEntry(h', t, i) && i <= Acked(h', k.node, t)
      ensures Covered(h', h'.cand[Seat(h'.voted[k], k.term)], t, i)
    {
      assert OwnEntry(h, t, i);
      var log := h'.cand[Seat(h'.voted[k], k.term)];
      if k in h.voted {
        assert Acked(h, k.node, t) == Acked(h', k.node, t);
        assert Covered(h, h.cand[Seat(h.voted[k], k.term)], t, i);
      } else {
        assert h'.voted[k] == h'.voted[k];
        assert Acked(h, k.node, t) == Acked(h', k.node, t);
      }
      CoveredStable(h, h', log, log, t, i);
    }
  }

  lemma CarryAcks(h: Hist, h': Hist)
    requires AcksKept(h) && Grows(h, h') && h'.lead == h.lead && h'.log.Keys == h.log.Keys
    requires LogsCarry(h, h')
    requires NewAcksSound(h, h')
    ensures AcksKept(h')
  {
    forall v, t: Term, i: LogIndex | v in h'.log && OwnEntry(h', t, i) && i <= Acked(h', v, t)
      ensures Covered(h', h'.log[v], t, i)
    {
      assert OwnEntry(h, t, i);
      if i <= Acked(h, v, t) {
        assert Covered(h, h.log[v], t, i);
        assert Carries(h, h.log[v], h'.log[v]);
      }
      assert Covered(h, h'.log[v], t, i);
      CoveredStable(h, h', h'.log[v], h'.log[v], t, i);
    }
  }

  lemma CarryStanding(h: Hist, h': Hist)
    requires CandidatesCover(h) && Grows(h, h') && h'.lead == h.lead && h'.log.Keys == h.log.Keys
    requires LogsCarry(h, h')
    requires StandingSound(h, h')
    ensures CandidatesCover(h')
  {
    forall v, t: Term, i: LogIndex
      | Standing(h', v) && t < h'.term[v] && OwnEntry(h', t, i) && Covered(h', h'.cand[Seat(v, h'.term[v])], t, i)
      ensures Covered(h', h'.log[v], t, i)
    {
      assert OwnEntry(h, t, i);
      var stood := h'.cand[Seat(v, h'.term[v])];
      if stood != h'.log[v] && !NeverChosen(h', t, i) {
        assert stood == h.cand[Seat(v, h.term[v])];
        assert Covered(h, stood, t, i);
        assert Covered(h, h.log[v], t, i);
        assert Carries(h, h.log[v], h'.log[v]);
        assert Covered(h, h'.log[v], t, i);
        CoveredStable(h, h', h'.log[v], h'.log[v], t, i);
      }
    }
  }

  lemma CarryLeadersCover(h: Hist, h': Hist)
    requires LeadersCover(h) && Grows(h, h') && h'.lead == h.lead
    ensures LeadersCover(h')
  {
    forall later: Term, t: Term, i: LogIndex | later in h'.lead && t < later && OwnEntry(h', t, i)
      ensures Covered(h', h'.lead[later], t, i)
    {
      assert OwnEntry(h, t, i) && Covered(h, h.lead[later], t, i);
      CoveredStable(h, h', h.lead[later], h.lead[later], t, i);
    }
  }

  lemma CarryHold(h: Hist, h': Hist)
    requires LeadersHold(h) && Grows(h, h') && Shape(h) && Shape(h') && h'.lead == h.lead
    ensures LeadersHold(h')
  {
    forall t | t in h'.lead && t in h'.leader
      ensures Acked(h', h'.leader[t], t) == |h'.lead[t]|
    {
      assert Acked(h, h.leader[t], t) <= Acked(h', h.leader[t], t);
    }
  }

  lemma UnchangedSound(h: Hist, h': Hist)
    ensures h'.log == h.log ==> LogsCarry(h, h') && (Grows(h, h') && h'.lead == h.lead && h'.cand == h.cand ==> NewLogsCoherent(h, h'))
    ensures h'.acked == h.acked ==> NewAcksSound(h, h')
    ensures h'.voted == h.voted ==> NewVotesSound(h, h')
    ensures h'.term == h.term && h'.log.Keys == h.log.Keys && h'.cand == h.cand && h'.lead == h.lead ==> StandingSound(h, h')
  {
    hide Grows;
  }

  /** Everything but the leaders' logs may change, if each change is sound. */
  lemma CarryInv(h: Hist, h': Hist)
    requires Inv(h) && Grows(h, h') && Shape(h') && h'.lead == h.lead && h'.log.Keys == h.log.Keys
    requires h'.acked == h.acked || h'.voted == h.voted
    requires NewLogsCoherent(h, h') && NewVotesSound(h, h') && NewAcksSound(h, h') && LogsCarry(h, h') && StandingSound(h, h')
    ensures Inv(h')
  {
    CarryLeaders(h, h');
    CarryHold(h, h');
    CarryCoherent(h, h');
    CarryAcks(h, h');
    CarryVotes(h, h');
    CarryLeadersCover(h, h');
    CarryStanding(h, h');
  }

  // ------------------------------------------------------------------------------------------
  // Terms and votes
  // ------------------------------------------------------------------------------------------

  function BumpTerm(h: Hist, v: NodeId, t: Term): Hist { h.(term := h.term[v := t]) }

  lemma BumpTermGrows(h: Hist, v: NodeId, t: Term)
    requires Shape(h) && v in h.term && h.term[v] <= t
    ensures Grows(h, BumpTerm(h, v, t)) && Shape(BumpTerm(h, v, t))
  {
  }

  lemma BumpTermStanding(h: Hist, v: NodeId, t: Term)
    requires Shape(h) && v in h.term && h.term[v] <= t
    ensures StandingSound(h, BumpTerm(h, v, t))
  {
  }

  lemma BumpTermKeeps(h: Hist, v: NodeId, t: Term)
    requires Inv(h) && v in h.term && h.term[v] <= t
    ensures Inv(BumpTerm(h, v, t)) && Grows(h, BumpTerm(h, v, t))
  {
    var h' := BumpTerm(h, v, t);
    BumpTermGrows(h, v, t);
    BumpTermStanding(h, v, t);
    UnchangedSound(h, h');
    hide Inv, Grows, Shape;
    CarryInv(h, h');
  }

  function Stand(h: Hist, v: NodeId): Hist
    requires v in h.term && v in h.log
  {
    var t := h.term[v] + 1;
    h.(term := h.term[v := t], voted := h.voted[Seat(v, t) := v], cand := h.cand[Seat(v, t) := h.log[v]])
  }

  lemma StandShape(h: Hist, v: NodeId)
    requires Shape(h) && v in h.term
    ensures Shape(Stand(h, v))
  {
  }

  lemma StandGrows(h: Hist, v: NodeId)
    requires Shape(h) && v in h.term
    ensures Grows(h, Stand(h, v)) && Shape(Stand(h, v))
  {
    StandShape(h, v);
    var t := h.term[v] + 1;
    assert Seat(v, t) !in h.voted && Seat(v, t) !in h.cand;
    hide Shape;
    assert forall u: NodeId, x: Term :: Acked(Stand(h, v), u, x) == Acked(h, u, x);
  }

  lemma StandCoherent(h: Hist, v: NodeId)
    requires Inv(h) && v in h.term
    ensures NewLogsCoherent(h, Stand(h, v))
  {
    StandGrows(h, v);
    CoherentStable(h, Stand(h, v), h.log[v], h.term[v], h.term[v]);
  }

  lemma StandSound(h: Hist, v: NodeId)
    requires Shape(h) && AcksKept(h) && v in h.term
    ensures StandingSound(h, Stand(h, v)) && NewVotesSound(h, Stand(h, v))
  {
  }

  lemma StandKeeps(h: Hist, v: NodeId)
    requires Inv(h) && v in h.term
    ensures Inv(Stand(h, v)) && Grows(h, Stand(h, v))
  {
    var h' := Stand(h, v);
    StandGrows(h, v);
    StandCoherent(h, v);
    StandSound(h, v);
    UnchangedSound(h, h');
    hide Inv, Grows, Shape;
    CarryInv(h, h');
  }

  function Grant(h: Hist, v: NodeId, c: NodeId): Hist
    requires v in h.term
  {
    h.(voted := h.voted[Seat(v, h.term[v]) := c])
  }

  ghost predicate UpToDate(theirs: seq<LogEntry>, mine: seq<LogEntry>) {
    || TermOf(theirs, |theirs|) > TermOf(mine, |mine|)
    || (TermOf(theirs, |theirs|) == TermOf(mine, |mine|) && |theirs| >= |mine|)
  }

  ghost predicate Grantable(h: Hist, v: NodeId, c: NodeId) {
    && v in h.term && v in h.log && Seat(c, h.term[v]) in h.cand
    && (Seat(v, h.term[v]) in h.voted ==> h.voted[Seat(v, h.term[v])] == c)
    && UpToDate(h.cand[Seat(c, h.term[v])], h.log[v])
  }

  lemma GrantGrows(h: Hist, v: NodeId, c: NodeId)
    requires Shape(h) && Grantable(h, v, c)
    ensures Grows(h, Grant(h, v, c)) && Shape(Grant(h, v, c))
  {
  }

  lemma GrantSound(h: Hist, v: NodeId, c: NodeId)
    requires Inv(h) && Grantable(h, v, c)
    ensures NewVotesSound(h, Grant(h, v, c))
  {
    var theirs := h.cand[Seat(c, h.term[v])];
    forall t: Term, i: LogIndex | t < h.term[v] && OwnEntry(h, t, i) && i <= Acked(h, v, t)
      ensures Covered(h, theirs, t, i)
    {
      assert Covered(h, h.log[v], t, i);
      UpToDateCovers(h, h.log[v], h.term[v], theirs, h.term[v], t, i);
    }
  }

  lemma GrantKeeps(h: Hist, v: NodeId, c: NodeId)
    requires Inv(h) && Grantable(h, v, c)
    ensures Inv(Grant(h, v, c)) && Grows(h, Grant(h, v, c))
  {
    var h' := Grant(h, v, c);
    GrantGrows(h, v, c);
    GrantSound(h, v, c);
    UnchangedSound(h, h');
    hide Inv, Grows, Shape;
    CarryInv(h, h');
  }

  // ------------------------------------------------------------------------------------------
  // Leading
  // ------------------------------------------------------------------------------------------

  /** Candidate c starts to lead its term; its whole log counts as acknowledged by itself. */
  function Win(h: Hist, c: NodeId): Hist
    requires c in h.term && c in h.log
  {
    var t := h.term[c];
    h.(lead := h.lead[t := h.log[c]], leader := h.leader[t := c], acked := h.acked[Seat(c, t) := |h.log[c]|])
  }

  lemma NoEntriesYet(h: Hist, log: seq<LogEntry>, bound: Term, t: Term)
    requires Coherent(h, log, bound) && t !in h.lead
    ensures forall i :: 0 <= i < |log| ==> log[i].term != t
  {
    forall i: nat | i < |log|
      ensures log[i].term != t
    {
      assert Placed(h, log, i, bound);
    }
  }

  lemma WinnerCovers(h: Hist, c: NodeId, q: set<NodeId>, t: Term, i: LogIndex)
    requires Inv(h) && Standing(h, c)
    requires Quorum(Members(h), q) && VotedFor(h, q, h.term[c], c)
    requires OwnEntry(h, t, i) && t < h.term[c]
    ensures Covered(h, h.log[c], t, i)
  {
    var now := h.term[c];
    if v :| v in q && Acked(h, v, t) >= i {
      assert Covered(h, h.cand[Seat(h.voted[Seat(v, now)], now)], t, i);
    } else {
      forall v | v in q && v in h.term
        ensures h.term[v] > t && Acked(h, v, t) < i
      {
        assert Seat(v, now) in h.voted;
      }
      assert Frozen(h, q, t, i);
    }
  }

  lemma WinShape(h: Hist, c: NodeId)
    requires Shape(h) && Standing(h, c)
    ensures Shape(Win(h, c))
  {
  }

  lemma WinGrows(h: Hist, c: NodeId)
    requires Shape(h) && Standing(h, c)
    ensures Grows(h, Win(h, c)) && Shape(Win(h, c))
  {
    WinShape(h, c);
    assert Seat(c, h.term[c]) !in h.acked && h.leader.Keys == h.lead.Keys && h.log.Keys == Members(h);
    hide Shape;
  }

  lemma WinEntries(h: Hist, c: NodeId)
    requires LogsCoherent(h) && Standing(h, c)
    ensures forall t: Term, i: LogIndex :: OwnEntry(Win(h, c), t, i) ==> t != h.term[c] && OwnEntry(h, t, i)
  {
    NoEntriesYet(h, h.log[c], h.term[c], h.term[c]);
  }

  lemma WinHolds(h: Hist, c: NodeId)
    requires LeadersHold(h) && Standing(h, c)
    ensures LeadersHold(Win(h, c))
  {
  }

  lemma WinElected(h: Hist, c: NodeId, q: set<NodeId>)
    requires Shape(h) && LeadersElected(h) && Standing(h, c)
    requires Quorum(Members(h), q) && VotedFor(h, q, h.term[c], c)
    ensures LeadersElected(Win(h, c))
  {
    hide Shape;
    var h' := Win(h, c);
    WinGrows(h, c);
    assert VotedFor(h', q, h.term[c], c);
    forall t | t in h'.lead
      ensures t in h'.leader && Seat(h'.leader[t], t) in h'.cand && Elected(h', t, h'.leader[t])
    {
      if t != h.term[c] { ElectedStable(h, h', t, h.leader[t]); }
    }
  }

  lemma WinCoherent(h: Hist, c: NodeId)
    requires Shape(h) && LogsCoherent(h) && Standing(h, c)
    ensures LogsCoherent(Win(h, c))
  {
    WinGrows(h, c);
    CoherentStable(h, Win(h, c), h.log[c], h.term[c], h.term[c]);
    CarryCoherent(h, Win(h, c));
  }

  lemma WinAcks(h: Hist, c: NodeId)
    requires Shape(h) && LogsCoherent(h) && AcksKept(h) && Standing(h, c)
    ensures AcksKept(Win(h, c))
  {
    var h' := Win(h, c);
    WinGrows(h, c);
    WinEntries(h, c);
    forall v, t: Term, i: LogIndex | v in h'.log && OwnEntry(h', t, i) && i <= Acked(h', v, t)
      ensures Covered(h', h'.log[v], t, i)
    {
      assert Covered(h, h.log[v], t, i);
      CoveredStable(h, h', h.log[v], h.log[v], t, i);
    }
  }

  lemma WinVotes(h: Hist, c: NodeId)
    requires Shape(h) && LogsCoherent(h) && VotesCover(h) && Standing(h, c)
    ensures VotesCover(Win(h, c))
  {
    var h' := Win(h, c);
    WinGrows(h, c);
    WinEntries(h, c);
    forall k: Seat, t: Term, i: LogIndex
      | k in h'.voted && Seat(h'.voted[k], k.term) in h'.cand && t < k.term && OwnEntry(h', t, i) && i <= Acked(h', k.node, t)
      ensures Covered(h', h'.cand[Seat(h'.voted[k], k.term)], t, i)
    {
      var log := h.cand[Seat(h.voted[k], k.term)];
      assert Covered(h, h.cand[Seat(h.voted[k], k.term)], t, i);
      CoveredStable(h, h', log, log, t, i);
    }
  }

  lemma WinLeaders(h: Hist, c: NodeId, q: set<NodeId>)
    requires Inv(h) && Standing(h, c)
    requires Quorum(Members(h), q) && VotedFor(h, q, h.term[c], c)
    ensures LeadersCover(Win(h, c))
  {
    var h' := Win(h, c);
    WinGrows(h, c);
    WinEntries(h, c);
    forall later: Term, t: Term, i: LogIndex | later in h'.lead && t < later && OwnEntry(h', t, i)
      ensures Covered(h', h'.lead[later], t, i)
    {
      if later == h.term[c] {
        WinnerCovers(h, c, q, t, i);
      } else {
        assert Covered(h, h.lead[later], t, i);
      }
      CoveredStable(h, h', h'.lead[later], h'.lead[later], t, i);
    }
  }

  lemma WinStanding(h: Hist, c: NodeId)
    requires Shape(h) && LogsCoherent(h) && CandidatesCover(h) && Standing(h, c)
    ensures CandidatesCover(Win(h, c))
  {
    var h' := Win(h, c);
    WinGrows(h, c);
    WinEntries(h, c);
    forall v, t: Term, i: LogIndex
      | Standing(h', v) && t < h'.term[v] && OwnEntry(h', t, i) && Covered(h', h'.cand[Seat(v, h'.term[v])], t, i)
      ensures Covered(h', h'.log[v], t, i)
    {
      if !NeverChosen(h', t, i) {
        assert Standing(h, v) && Covered(h, h.cand[Seat(v, h.term[v])], t, i);
        assert Covered(h, h.log[v], t, i);
        CoveredStable(h, h', h.log[v], h.log[v], t, i);
      }
    }
  }

  /** Winning an election keeps the invariant: some elector meets every quorum that might have
      chosen an earlier entry. */
  lemma WinKeeps(h: Hist, c: NodeId, q: set<NodeId>)
    requires Inv(h) && Standing(h, c)
    requires Quorum(Members(h), q) && VotedFor(h, q, h.term[c], c)
    ensures Inv(Win(h, c)) && Grows(h, Win(h, c)) && Leading(Win(h, c), c)
  {
    WinGrows(h, c);
    WinElected(h, c, q);
    WinHolds(h, c);
    WinCoherent(h, c);
    WinAcks(h, c);
    WinVotes(h, c);
    WinLeaders(h, c, q);
    WinStanding(h, c);
  }

  /** Node c is leading: it is in the term it won and still holds that term's log. */
  ghost predicate Leading(h: Hist, c: NodeId) {
    && c in h.term && c in h.log && h.term[c] in h.lead && h.term[c] in h.leader
    && h.leader[h.term[c]] == c && h.log[c] == h.lead[h.term[c]]
  }

  function LeaderAppend(h: Hist, c: NodeId, command: Command): Hist
    requires c in h.term && c in h.log
  {
    var t := h.term[c];
    var log := h.log[c] + [LogEntry(|h.log[c]| + 1, t, command)];
    h.(log := h.log[c := log], lead := h.lead[t := log], acked := h.acked[Seat(c, t) := |log|])
  }

  lemma LeaderAppendHolds(h: Hist, c: NodeId, command: Command)
    requires LeadersHold(h) && Leading(h, c)
    ensures LeadersHold(LeaderAppend(h, c, command))
  {
  }

  lemma LeaderAppendShape(h: Hist, c: NodeId, command: Command)
    requires Shape(h) && Leading(h, c)
    ensures var h' := LeaderAppend(h, c, command); Shape(h') && Leading(h', c)
  {
  }

  lemma LeaderAppendGrows(h: Hist, c: NodeId, command: Command)
    requires Shape(h) && Leading(h, c)
    ensures var h' := LeaderAppend(h, c, command); Grows(h, h') && Shape(h') && Leading(h', c)
  {
    LeaderAppendShape(h, c, command);
    assert Seat(c, h.term[c]) in h.acked ==> h.acked[Seat(c, h.term[c])] <= |h.log[c]|;
    hide Shape;
  }

  lemma LeaderAppendEntries(h: Hist, c: NodeId, command: Command)
    requires Leading(h, c)
    ensures forall t: Term, i: LogIndex :: OwnEntry(LeaderAppend(h, c, command), t, i) ==>
              OwnEntry(h, t, i) || (t == h.term[c] && i == |h.lead[t]| + 1)
  {
    var h' := LeaderAppend(h, c, command);
    forall t: Term, i: LogIndex | OwnEntry(h', t, i)
      ensures OwnEntry(h, t, i) || (t == h.term[c] && i == |h.lead[t]| + 1)
    {
      if t == h.term[c] && i <= |h.lead[t]| { assert h'.lead[t][i - 1] == h.lead[t][i - 1]; }
    }
  }

  lemma LeaderAppendLogs(h: Hist, c: NodeId, command: Command)
    requires Shape(h) && LeadersElected(h) && LogsCoherent(h) && Leading(h, c)
    ensures LogsCoherent(LeaderAppend(h, c, command)) && LeadersElected(LeaderAppend(h, c, command))
  {
    var h' := LeaderAppend(h, c, command);
    LeaderAppendGrows(h, c, command);
    LeaderAppendCoherent(h, c, command);
    LeaderAppendNew(h, c, command);
    assert h'.log.Keys == h.log.Keys == Members(h) && h'.lead.Keys == h.lead.Keys;
    hide Shape, Grows, Coherent, NewLogsCoherent, LeadersElected, LogsCoherent, LeaderAppend, Leading;
    CarryCoherent(h, h');
    CarryLeaders(h, h');
  }

  lemma LeaderAppendNew(h: Hist, c: NodeId, command: Command)
    requires Leading(h, c)
    requires Coherent(LeaderAppend(h, c, command), LeaderAppend(h, c, command).log[c], h.term[c])
    ensures NewLogsCoherent(h, LeaderAppend(h, c, command))
  {
    hide Coherent;
  }

  lemma LeaderAppendCoherent(h: Hist, c: NodeId, command: Command)
    requires Shape(h) && LeadersElected(h) && LogsCoherent(h) && Leading(h, c)
    ensures Coherent(LeaderAppend(h, c, command), LeaderAppend(h, c, command).log[c], h.term[c])
  {
    var h' := LeaderAppend(h, c, command);
    var now := h.term[c];
    LeaderAppendGrows(h, c, command);
    assert now >= 1 by { assert Seat(c, now) in h.cand; }
    CoherentStable(h, h', h.log[c], now, now);
    CoherentExtends(h', h.log[c], now, h'.log[c]);
  }

  lemma CoherentExtends(h: Hist, log: seq<LogEntry>, t: Term, log': seq<LogEntry>)
    requires Coherent(h, log, t) && t >= 1 && t in h.lead && h.lead[t] == log'
    requires |log'| == |log| + 1 && log <= log' && log'[|log|].term == t && log'[|log|].index == |log| + 1
    ensures Coherent(h, log', t)
  {
    forall i: nat | i < |log'|
      ensures Placed(h, log', i, t)
    {
      if i < |log| {
        assert Placed(h, log, i, t);
        assert log'[..i + 1] == log[..i + 1];
      }
    }
  }

  /** The entry just appended is out of reach of any later leader's electors. */
  lemma FreshEntryFrozen(h: Hist, c: NodeId, command: Command, later: Term)
    requires Shape(h) && LeadersElected(h) && Leading(h, c) && later in h.lead && h.term[c] < later
    ensures NeverChosen(LeaderAppend(h, c, command), h.term[c], |h.lead[h.term[c]]| + 1)
  {
    var h' := LeaderAppend(h, c, command);
    var now := h.term[c];
    assert Elected(h, later, h.leader[later]);
    var q :| Quorum(Members(h), q) && VotedFor(h, q, later, h.leader[later]);
    forall v | v in q && v in h'.term
      ensures h'.term[v] > now && Acked(h', v, now) < |h.lead[now]| + 1
    {
      assert Seat(v, later) in h.voted;
      assert v != c;
      assert Acked(h, v, now) <= |h.lead[now]|;
    }
    assert Frozen(h', q, now, |h.lead[now]| + 1);
  }

  lemma LeaderAppendAcks(h: Hist, c: NodeId, command: Command)
    requires Shape(h) && AcksKept(h) && Leading(h, c)
    ensures AcksKept(LeaderAppend(h, c, command))
  {
    var h' := LeaderAppend(h, c, command);
    var now := h.term[c];
    LeaderAppendGrows(h, c, command);
    LeaderAppendEntries(h, c, command);
    forall v, t: Term, i: LogIndex | v in h'.log && OwnEntry(h', t, i) && i <= Acked(h', v, t)
      ensures Covered(h', h'.log[v], t, i)
    {
      if v == c && t == now {
        assert h'.lead[t][..i] <= h'.log[v];
      } else {
        assert Acked(h, v, t) == Acked(h', v, t);
        assert t == now ==> Acked(h, v, t) <= |h.lead[now]|;
        assert OwnEntry(h, t, i) && Covered(h, h.log[v], t, i);
        CoveredStable(h, h', h.log[v], h'.log[v], t, i);
      }
    }
  }

  lemma LeaderAppendVotes(h: Hist, c: NodeId, command: Command)
    requires Shape(h) && VotesCover(h) && Leading(h, c)
    ensures VotesCover(LeaderAppend(h, c, command))
  {
    var h' := LeaderAppend(h, c, command);
    var now := h.term[c];
    LeaderAppendGrows(h, c, command);
    LeaderAppendEntries(h, c, command);
    forall k: Seat, t: Term, i: LogIndex
      | k in h'.voted && Seat(h'.voted[k], k.term) in h'.cand && t < k.term && OwnEntry(h', t, i) && i <= Acked(h', k.node, t)
      ensures Covered(h', h'.cand[Seat(h'.voted[k], k.term)], t, i)
    {
      assert Acked(h, k.node, t) == Acked(h', k.node, t);
      assert t == now ==> Acked(h, k.node, t) <= |h.lead[now]|;
      assert OwnEntry(h, t, i);
      var log := h.cand[Seat(h.voted[k], k.term)];
      assert Covered(h, h.cand[Seat(h.voted[k], k.term)], t, i);
      CoveredStable(h, h', log, log, t, i);
    }
  }

  lemma LeaderAppendLeaders(h: Hist, c: NodeId, command: Command)
    requires Shape(h) && LeadersElected(h) && LeadersCover(h) && Leading(h, c)
    ensures LeadersCover(LeaderAppend(h, c, command))
  {
    var h' := LeaderAppend(h, c, command);
    LeaderAppendGrows(h, c, command);
    LeaderAppendEntries(h, c, command);
    forall later: Term, t: Term, i: LogIndex | later in h'.lead && t < later && OwnEntry(h', t, i)
      ensures Covered(h', h'.lead[later], t, i)
    {
      if OwnEntry(h, t, i) {
        assert Covered(h, h.lead[later], t, i);
        CoveredStable(h, h', h.lead[later], h'.lead[later], t, i);
      } else {
        FreshEntryFrozen(h, c, command, later);
      }
    }
  }

  /** No log that is already there can hold the entry just appended. */
  lemma AppendedIsNew(h: Hist, c: NodeId, command: Command, log: seq<LogEntry>, bound: Term, t: Term, i: LogIndex)
    requires Leading(h, c) && Coherent(h, log, bound)
    requires OwnEntry(LeaderAppend(h, c, command), t, i) && LeaderAppend(h, c, command).lead[t][..i] <= log
    ensures OwnEntry(h, t, i) && h.lead[t][..i] <= log
  {
    var lead' := LeaderAppend(h, c, command).lead[t];
    assert Placed(h, log, i - 1, bound);
    assert log[i - 1] == lead'[..i][i - 1];
    assert i <= |h.lead[t]|;
    assert t == h.term[c] ==> lead'[i - 1] == h.lead[t][i - 1] && lead'[..i] == h.lead[t][..i];
  }

  lemma StillCovered(h: Hist, c: NodeId, command: Command, v: NodeId, t: Term, i: LogIndex)
    requires Shape(h) && LogsCoherent(h) && CandidatesCover(h) && Leading(h, c)
    requires v != c && Standing(h, v) && t < h.term[v] && OwnEntry(LeaderAppend(h, c, command), t, i)
    requires LeaderAppend(h, c, command).lead[t][..i] <= h.cand[Seat(v, h.term[v])]
    ensures Covered(LeaderAppend(h, c, command), h.log[v], t, i)
  {
    AppendedIsNew(h, c, command, h.cand[Seat(v, h.term[v])], h.term[v] - 1, t, i);
    assert Covered(h, h.cand[Seat(v, h.term[v])], t, i);
    assert Covered(h, h.log[v], t, i);
    LeaderAppendGrows(h, c, command);
    CoveredStable(h, LeaderAppend(h, c, command), h.log[v], h.log[v], t, i);
  }

  lemma LeaderAppendStanding(h: Hist, c: NodeId, command: Command)
    requires Shape(h) && LogsCoherent(h) && CandidatesCover(h) && Leading(h, c)
    ensures CandidatesCover(LeaderAppend(h, c, command))
  {
    var h' := LeaderAppend(h, c, command);
    forall v, t: Term, i: LogIndex
      | Standing(h', v) && t < h'.term[v] && OwnEntry(h', t, i) && Covered(h', h'.cand[Seat(v, h'.term[v])], t, i)
      ensures Covered(h', h'.log[v], t, i)
    {
      if !NeverChosen(h', t, i) { StillCovered(h, c, command, v, t, i); }
    }
  }

  lemma LeaderAppendKeeps(h: Hist, c: NodeId, command: Command)
    requires Inv(h) && Leading(h, c)
    ensures var h' := LeaderAppend(h, c, command); Inv(h') && Grows(h, h') && Leading(h', c)
  {
    LeaderAppendGrows(h, c, command);
    LeaderAppendHolds(h, c, command);
    LeaderAppendLogs(h, c, command);
    LeaderAppendAcks(h, c, command);
    LeaderAppendVotes(h, c, command);
    LeaderAppendLeaders(h, c, command);
    LeaderAppendStanding(h, c, command);
  }

  // ------------------------------------------------------------------------------------------
  // Following
  // ------------------------------------------------------------------------------------------

  function Ack(h: Hist, v: NodeId, i: LogIndex): Hist
    requires v in h.term
  {
    var k := Seat(v, h.term[v]);
    h.(acked := h.acked[k := Max(Acked(h, v, h.term[v]), i)])
  }

  function SetLog(h: Hist, v: NodeId, log: seq<LogEntry>): Hist { h.(log := h.log[v := log]) }

  lemma SetLogGrows(h: Hist, v: NodeId, log: seq<LogEntry>)
    requires Shape(h) && v in h.term && v in h.log
    ensures Grows(h, SetLog(h, v, log)) && Shape(SetLog(h, v, log))
  {
  }

  lemma SetLogSound(h: Hist, v: NodeId, log: seq<LogEntry>)
    requires Shape(h) && v in h.term && v in h.log && Carries(h, h.log[v], log)
    requires Coherent(SetLog(h, v, log), log, h.term[v])
    ensures LogsCarry(h, SetLog(h, v, log)) && NewLogsCoherent(h, SetLog(h, v, log)) && StandingSound(h, SetLog(h, v, log))
  {
  }

  /** Any coherent log that covers as much as the old one may take its place. */
  lemma SetLogKeeps(h: Hist, v: NodeId, log: seq<LogEntry>)
    requires Inv(h) && v in h.term && v in h.log
    requires Coherent(h, log, h.term[v]) && Carries(h, h.log[v], log)
    ensures Inv(SetLog(h, v, log)) && Grows(h, SetLog(h, v, log))
  {
    var h' := SetLog(h, v, log);
    SetLogGrows(h, v, log);
    CoherentStable(h, h', log, h.term[v], h.term[v]);
    SetLogSound(h, v, log);
    UnchangedSound(h, h');
    hide Inv, Grows, Shape;
    CarryInv(h, h');
  }

  ghost predicate Ackable(h: Hist, v: NodeId, i: LogIndex) {
    && v in h.term && v in h.log && h.term[v] in h.lead
    && i <= |h.lead[h.term[v]]| && h.lead[h.term[v]][..i] <= h.log[v]
  }

  lemma AckGrows(h: Hist, v: NodeId, i: LogIndex)
    requires Shape(h) && Ackable(h, v, i)
    ensures Grows(h, Ack(h, v, i)) && Shape(Ack(h, v, i))
  {
  }

  lemma AckSound(h: Hist, v: NodeId, i: LogIndex)
    requires Ackable(h, v, i)
    ensures NewAcksSound(h, Ack(h, v, i))
  {
    forall t: Term, j: LogIndex | OwnEntry(h, t, j) && j <= Acked(Ack(h, v, i), v, t) && j > Acked(h, v, t)
      ensures Covered(h, h.log[v], t, j)
    {
      assert t == h.term[v] && h.lead[t][..j] <= h.lead[t][..i];
    }
  }

  lemma AckKeeps(h: Hist, v: NodeId, i: LogIndex)
    requires Inv(h) && Ackable(h, v, i)
    ensures Inv(Ack(h, v, i)) && Grows(h, Ack(h, v, i)) && Acked(Ack(h, v, i), v, h.term[v]) >= i
  {
    var h' := Ack(h, v, i);
    AckGrows(h, v, i);
    AckSound(h, v, i);
    UnchangedSound(h, h');
    hide Inv, Grows, Shape;
    CarryInv(h, h');
  }

  /** The log after adopting `prefix`: unchanged if it already holds it, else exactly the prefix. */
  function Adopt(log: seq<LogEntry>, prefix: seq<LogEntry>): (r: seq<LogEntry>)
    ensures prefix <= r
  {
    if prefix <= log then log else prefix
  }

  lemma LeaderVsEntry(h: Hist, log: seq<LogEntry>, t: Term, m: nat, u: Term, i: LogIndex)
    requires LeadersCover(h) && t in h.lead && m <= |h.lead[t]| && Coherent(h, log, t)
    requires OwnEntry(h, u, i) && h.lead[u][..i] <= log
    ensures NeverChosen(h, u, i) || h.lead[u][..i] <= h.lead[t][..m] || h.lead[t][..m] <= h.lead[u][..i]
  {
    assert log[i - 1] == h.lead[u][..i][i - 1];
    assert Placed(h, log, i - 1, t);
    if u < t { assert Covered(h, h.lead[t], u, i); }
    if !NeverChosen(h, u, i) { PrefixesComparable(h.lead[u][..i], h.lead[t][..m], h.lead[t]); }
  }

  lemma AdoptLeaderCarries(h: Hist, log: seq<LogEntry>, t: Term, m: nat)
    requires Inv(h) && t in h.lead && m <= |h.lead[t]| && Coherent(h, log, t)
    ensures Carries(h, log, Adopt(log, h.lead[t][..m]))
  {
    hide Coherent;
    forall u: Term, i: LogIndex | OwnEntry(h, u, i) && Covered(h, log, u, i)
      ensures Covered(h, Adopt(log, h.lead[t][..m]), u, i)
    {
      if h.lead[u][..i] <= log { LeaderVsEntry(h, log, t, m, u, i); }
    }
  }

  lemma AdoptCommittedCarries(h: Hist, log: seq<LogEntry>, prefix: seq<LogEntry>, bound: Term)
    requires Inv(h) && Committed(h, prefix, bound)
    ensures Carries(h, log, Adopt(log, prefix))
  {
    forall u: Term, i: LogIndex | OwnEntry(h, u, i) && Covered(h, log, u, i)
      ensures Covered(h, Adopt(log, prefix), u, i)
    {
      CommittedVsEntry(h, prefix, bound, u, i);
    }
  }

  lemma ReindexedSlice(lead: seq<LogEntry>, from: nat, m: nat)
    requires FullGapless(lead) && from <= m <= |lead|
    ensures Reindexed(lead[from..m], from) == lead[from..m]
    ensures lead[..from] + lead[from..m] == lead[..m]
  {
  }

  lemma MergedAgreeing(log: seq<LogEntry>, lead: seq<LogEntry>, prev: LogIndex, m: LogIndex)
    requires prev <= m <= |lead| && prev <= |log|
    requires AgreeLen(log, prev, lead[prev..m]) == m - prev && m <= |log| && log[..m] == lead[..m]
    ensures Merge(0, log, prev, lead[prev..m]) == Adopt(log, lead[..m])
  {
    MergeMeaning(log, prev, lead[prev..m]);
  }

  lemma MergedConflicting(log: seq<LogEntry>, lead: seq<LogEntry>, prev: LogIndex, m: LogIndex, n: nat)
    requires FullGapless(lead) && prev + n < m <= |lead| && prev + n <= |log| && log[..prev + n] == lead[..prev + n]
    requires prev + n < |log| ==> log[prev + n].term != lead[prev + n].term
    ensures log[..prev + n] + Reindexed(lead[prev..m][n..], prev + n) == Adopt(log, lead[..m])
  {
    hide FullGapless, Reindexed;
    assert lead[prev..m][n..] == lead[prev + n..m];
    ReindexedSlice(lead, prev + n, m);
    Disagrees(log, lead[..m], prev + n, lead[prev + n]);
  }

  lemma Disagrees(log: seq<LogEntry>, prefix: seq<LogEntry>, at: nat, e: LogEntry)
    requires at < |prefix| && prefix[at] == e
    requires at < |log| ==> log[at].term != e.term
    ensures !(prefix <= log)
  {
  }

  lemma MergeAgainst(log: seq<LogEntry>, lead: seq<LogEntry>, prev: LogIndex, m: LogIndex)
    requires FullGapless(lead) && prev <= m <= |lead| && prev <= |log|
    requires var n := AgreeLen(log, prev, lead[prev..m]); prev + n <= |log| && log[..prev + n] == lead[..prev + n]
    ensures Merge(0, log, prev, lead[prev..m]) == Adopt(log, lead[..m])
  {
    hide Merge, Reindexed, Adopt, AgreeLen, FullGapless;
    var request := lead[prev..m];
    var n := AgreeLen(log, prev, request);
    AgreedPart(log, prev, request);
    if n == |request| {
      MergedAgreeing(log, lead, prev, m);
    } else {
      MergeMeaning(log, prev, request);
      MergedConflicting(log, lead, prev, m, n);
    }
  }

  /** How far a request agrees, and that it does not any further. */
  lemma AgreedPart(log: seq<LogEntry>, prev: LogIndex, request: seq<LogEntry>)
    ensures var n := AgreeLen(log, prev, request); n <= |request| && (n < |request| && prev + n < |log| ==> log[prev + n].term != request[n].term)
  {
  }

  /** What the follower's merge does to a coherent log: it adopts the leader's log up to the last
      entry sent. */
  lemma MergeAdopts(h: Hist, log: seq<LogEntry>, bound: Term, t: Term, prev: LogIndex, m: LogIndex)
    requires LogsCoherent(h) && t in h.lead && Coherent(h, log, bound)
    requires prev <= m <= |h.lead[t]| && prev <= |log|
    requires prev == 0 || log[prev - 1].term == h.lead[t][prev - 1].term
    ensures Merge(0, log, prev, h.lead[t][prev..m]) == Adopt(log, h.lead[t][..m])
  {
    var lead := h.lead[t];
    var n := AgreeLen(log, prev, lead[prev..m]);
    assert Coherent(h, lead, t);
    if n > 0 {
      assert lead[prev..m][n - 1] == lead[prev + n - 1];
      LogMatching(h, log, bound, lead, t, prev + n);
    } else if prev > 0 {
      LogMatching(h, log, bound, lead, t, prev);
    }
    MergeAgainst(log, lead, prev, m);
  }
}
