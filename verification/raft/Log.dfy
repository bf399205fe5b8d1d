/**
 The replicated log: entries above a compaction boundary. The value functions say what each
 operation does; class RaftLog below performs it on its fields.
 */
module RaftLogs {
  import opened Options
  import opened RaftTypes

  datatype LogState = LogState(snapshotIndex: LogIndex, snapshotTerm: Term, entries: seq<LogEntry>, appliedIndex: LogIndex)

  const EmptyLog: LogState := LogState(0, 0, [], 0)

  function LastIndex(l: LogState): LogIndex { l.snapshotIndex + |l.entries| }

  function LastTerm(l: LogState): Term {
    if l.entries == [] then l.snapshotTerm else l.entries[|l.entries| - 1].term
  }

  function TermAt(l: LogState, index: LogIndex): Term {
    if index == l.snapshotIndex then l.snapshotTerm
    else if index < l.snapshotIndex || index > LastIndex(l) then 0
    else l.entries[index - l.snapshotIndex - 1].term
  }

  function At(l: LogState, index: LogIndex): Option<LogEntry> {
    if index <= l.snapshotIndex || index > LastIndex(l) then None
    else Some(l.entries[index - l.snapshotIndex - 1])
  }

  function Append(l: LogState, term: Term, command: Command): LogState {
    l.(entries := l.entries + [LogEntry(LastIndex(l) + 1, term, command)])
  }

  /** One entry of an append request, destined for position `index`. */
  function MergeOne(snapshot: LogIndex, entries: seq<LogEntry>, index: LogIndex, e: LogEntry): seq<LogEntry> {
    if index <= snapshot then entries
    else
      var pos := index - snapshot - 1;
      if pos < |entries| then
        if entries[pos].term == e.term then entries else entries[..pos] + [e.(index := index)]
      else entries + [e.(index := index)]
  }

  function Merge(snapshot: LogIndex, entries: seq<LogEntry>, prev: LogIndex, request: seq<LogEntry>): seq<LogEntry>
    decreases |request|
  {
    if request == [] then entries
    else Merge(snapshot, MergeOne(snapshot, entries, prev + 1, request[0]), prev + 1, request[1..])
  }

  lemma MergeStep(snapshot: LogIndex, entries: seq<LogEntry>, prev: LogIndex, request: seq<LogEntry>)
    ensures Merge(snapshot, entries, prev, request) ==
            if request == [] then entries
            else Merge(snapshot, MergeOne(snapshot, entries, prev + 1, request[0]), prev + 1, request[1..])
  {
  }

  predicate PrevMatches(l: LogState, prev: LogIndex, prevTerm: Term) {
    prev == 0 || TermAt(l, prev) == prevTerm
  }

  function AppendEntriesFrom(l: LogState, prev: LogIndex, prevTerm: Term, request: seq<LogEntry>): LogState {
    if PrevMatches(l, prev, prevTerm)
    then l.(entries := Merge(l.snapshotIndex, l.entries, prev, request))
    else l
  }

  function CompactTo(l: LogState, index: LogIndex, term: Term): LogState {
    if index <= l.snapshotIndex then l
    else
      var kept := if index <= LastIndex(l) && TermAt(l, index) == term
                  then l.entries[index - l.snapshotIndex..] else [];
      LogState(index, term, kept, l.appliedIndex)
  }

  predicate Gapless(l: LogState) {
    forall k :: 0 <= k < |l.entries| ==> l.entries[k].index == l.snapshotIndex + 1 + k
  }

  // ------------------------------------------------------------------------------------------
  // The uncompacted log behind a compacted one
  // ------------------------------------------------------------------------------------------

  function TermOf(full: seq<LogEntry>, index: LogIndex): Term {
    if index == 0 || index > |full| then 0 else full[index - 1].term
  }

  ghost predicate FullGapless(full: seq<LogEntry>) {
    forall k :: 0 <= k < |full| ==> full[k].index == k + 1
  }

  /** `l` is what compaction left of the whole history `full`. */
  ghost predicate Represents(full: seq<LogEntry>, l: LogState) {
    && l.snapshotIndex <= |full|
    && l.snapshotTerm == TermOf(full, l.snapshotIndex)
    && l.entries == full[l.snapshotIndex..]
  }

  function Uncompacted(full: seq<LogEntry>, applied: LogIndex): LogState { LogState(0, 0, full, applied) }

  /** Queries on the compacted log agree with the whole history at and above the boundary. */
  lemma QueriesRefine(full: seq<LogEntry>, l: LogState, index: LogIndex)
    requires Represents(full, l)
    ensures LastIndex(l) == |full|
    ensures LastTerm(l) == TermOf(full, |full|)
    ensures TermAt(l, index) == (if index < l.snapshotIndex then 0 else TermOf(full, index))
    ensures At(l, index) == (if l.snapshotIndex < index <= |full| then Some(full[index - 1]) else None)
  {
    if l.entries != [] {
      assert l.entries[|l.entries| - 1] == full[|full| - 1];
    } else {
      assert |full| == l.snapshotIndex;
    }
    if l.snapshotIndex < index <= |full| {
      assert l.entries[index - l.snapshotIndex - 1] == full[index - 1];
    }
  }

  lemma AppendRefines(full: seq<LogEntry>, l: LogState, term: Term, command: Command)
    requires Represents(full, l)
    ensures Represents(full + [LogEntry(|full| + 1, term, command)], Append(l, term, command))
  {
    var full' := full + [LogEntry(|full| + 1, term, command)];
    assert full'[l.snapshotIndex..] == full[l.snapshotIndex..] + [LogEntry(|full| + 1, term, command)];
  }

  /** Compacting at an entry the log holds changes nothing above the boundary; any other
      boundary replaces the whole history by the snapshot's. */
  lemma CompactRefines(full: seq<LogEntry>, l: LogState, prefix: seq<LogEntry>, term: Term)
    requires Represents(full, l)
    requires l.snapshotIndex < |prefix|
    requires term == TermOf(prefix, |prefix|)
    requires |prefix| <= |full| && TermOf(full, |prefix|) == term ==> prefix <= full
    ensures Represents(if prefix <= full then full else prefix, CompactTo(l, |prefix|, term))
  {
    QueriesRefine(full, l, |prefix|);
    if prefix <= full {
      assert full[|prefix| - 1] == prefix[|prefix| - 1];
      assert full[l.snapshotIndex..][|prefix| - l.snapshotIndex..] == full[|prefix|..];
    } else {
      assert prefix[|prefix|..] == [];
    }
  }

  function Reindexed(request: seq<LogEntry>, prev: LogIndex): seq<LogEntry> {
    seq(|request|, k requires 0 <= k < |request| => request[k].(index := prev + 1 + k))
  }

  /** How many leading request entries the history already holds (same position, same term). */
  function AgreeLen(full: seq<LogEntry>, prev: LogIndex, request: seq<LogEntry>): (n: nat)
    ensures n <= |request| && (n > 0 ==> prev + n <= |full|)
    ensures forall k :: 0 <= k < n ==> full[prev + k].term == request[k].term
    ensures n < |request| && prev + n < |full| ==> full[prev + n].term != request[n].term
    decreases |request|
  {
    if request == [] || prev >= |full| || full[prev].term != request[0].term then 0
    else 1 + AgreeLen(full, prev + 1, request[1..])
  }

  lemma {:induction false} MergePastEnd(full: seq<LogEntry>, request: seq<LogEntry>)
    ensures Merge(0, full, |full|, request) == full + Reindexed(request, |full|)
    decreases |request|
  {
    if request == [] {
      assert full + Reindexed(request, |full|) == full;
    } else {
      var e := request[0].(index := |full| + 1);
      MergePastEnd(full + [e], request[1..]);
      assert full + Reindexed(request, |full|) == (full + [e]) + Reindexed(request[1..], |full| + 1);
    }
  }

  lemma ReindexedHead(request: seq<LogEntry>, prev: LogIndex)
    requires request != []
    ensures Reindexed(request, prev) == [request[0].(index := prev + 1)] + Reindexed(request[1..], prev + 1)
  {
  }

  lemma OneDiverges(full: seq<LogEntry>, prev: LogIndex, e: LogEntry)
    requires prev <= |full| && (prev < |full| ==> full[prev].term != e.term)
    ensures MergeOne(0, full, prev + 1, e) == full[..prev] + [e.(index := prev + 1)]
  {
    assert prev == |full| ==> full[..prev] == full;
  }

  lemma MergeDiverges(full: seq<LogEntry>, prev: LogIndex, request: seq<LogEntry>)
    requires prev <= |full| && request != [] && (prev < |full| ==> full[prev].term != request[0].term)
    ensures Merge(0, full, prev, request) == full[..prev] + Reindexed(request, prev)
  {
    hide Merge, MergeOne, Reindexed;
    var kept, first, rest := full[..prev], [request[0].(index := prev + 1)], Reindexed(request[1..], prev + 1);
    MergeStep(0, full, prev, request);
    OneDiverges(full, prev, request[0]);
    MergePastEnd(kept + first, request[1..]);
    ReindexedHead(request, prev);
    assert (kept + first) + rest == kept + (first + rest);
  }

  /** The meaning of the merge loop: keep everything while the request agrees, and from the first
      disagreement on hold exactly the request. A request that agrees throughout changes nothing,
      so a longer local suffix survives. */
  lemma {:induction false} MergeMeaning(full: seq<LogEntry>, prev: LogIndex, request: seq<LogEntry>)
    requires prev <= |full|
    ensures var n := AgreeLen(full, prev, request);
            Merge(0, full, prev, request) ==
            if n == |request| then full else full[..prev + n] + Reindexed(request[n..], prev + n)
    decreases |request|
  {
    hide Reindexed, Merge;
    MergeStep(0, full, prev, request);
    if request == [] {
    } else if prev < |full| && full[prev].term == request[0].term {
      MergeMeaning(full, prev + 1, request[1..]);
      var n := AgreeLen(full, prev + 1, request[1..]);
      assert request[1..][n..] == request[n + 1..];
    } else {
      MergeDiverges(full, prev, request);
      assert request[0..] == request;
    }
  }

  lemma MergeOneAbove(base: LogIndex, entries: seq<LogEntry>, boundary: LogIndex, index: LogIndex, e: LogEntry)
    requires base <= boundary <= base + |entries| && boundary < index
    ensures var one := MergeOne(base, entries, index, e); var n := boundary - base;
            n <= |one| && MergeOne(boundary, entries[n..], index, e) == one[n..] && one[..n] == entries[..n]
  {
    var n := boundary - base;
    var pos := index - base - 1;
    if pos < |entries| {
      assert entries[n..][pos - n] == entries[pos];
      assert entries[n..][..pos - n] == entries[..pos][n..];
    }
  }

  /** Entries the request does not reach below may be dropped before or after the merge ... */
  lemma {:induction false} MergeAbove(base: LogIndex, entries: seq<LogEntry>, boundary: LogIndex, prev: LogIndex, request: seq<LogEntry>)
    requires base <= boundary <= base + |entries| && boundary <= prev
    ensures var merged := Merge(base, entries, prev, request); var n := boundary - base;
            n <= |merged| && Merge(boundary, entries[n..], prev, request) == merged[n..] && merged[..n] == entries[..n]
    decreases |request|
  {
    hide Merge, MergeOne;
    var n := boundary - base;
    MergeStep(base, entries, prev, request);
    MergeStep(boundary, entries[n..], prev, request);
    if request != [] {
      MergeOneAbove(base, entries, boundary, prev + 1, request[0]);
      MergeAbove(base, MergeOne(base, entries, prev + 1, request[0]), boundary, prev + 1, request[1..]);
    }
  }

  /** ... and so may entries it only repeats. */
  lemma {:induction false} MergeAcross(base: LogIndex, entries: seq<LogEntry>, boundary: LogIndex, prev: LogIndex, request: seq<LogEntry>)
    requires base <= boundary <= base + |entries|
    requires forall k :: 0 <= k < |request| && base <= prev + k < boundary ==> request[k].term == entries[prev + k - base].term
    ensures var merged := Merge(base, entries, prev, request); var n := boundary - base;
            n <= |merged| && Merge(boundary, entries[n..], prev, request) == merged[n..] && merged[..n] == entries[..n]
    decreases |request|
  {
    hide Merge;
    MergeStep(base, entries, prev, request);
    MergeStep(boundary, entries[boundary - base..], prev, request);
    if prev >= boundary {
      MergeAbove(base, entries, boundary, prev, request);
    } else if request != [] {
      assert MergeOne(base, entries, prev + 1, request[0]) == entries;
      MergeAcross(base, entries, boundary, prev + 1, request[1..]);
    }
  }

  /** The follower's append does on a compacted log what it does on the whole history, whenever the
      request starts at the very beginning or at or above the boundary. The compacted part must be
      the leader's, which the protocol guarantees because it is committed. */
  lemma AppendEntriesRefines(full: seq<LogEntry>, l: LogState, prev: LogIndex, prevTerm: Term, request: seq<LogEntry>)
    requires Represents(full, l)
    requires prev == 0 || prev >= l.snapshotIndex
    requires forall k :: 0 <= k < |request| && prev + k < l.snapshotIndex ==> request[k].term == full[prev + k].term
    ensures var whole := Uncompacted(full, l.appliedIndex);
            && PrevMatches(l, prev, prevTerm) == PrevMatches(whole, prev, prevTerm)
            && Represents(AppendEntriesFrom(whole, prev, prevTerm, request).entries,
                          AppendEntriesFrom(l, prev, prevTerm, request))
  {
    hide Merge;
    QueriesRefine(full, l, prev);
    QueriesRefine(full, Uncompacted(full, l.appliedIndex), prev);
    assert full[0..] == full;
    if PrevMatches(l, prev, prevTerm) {
      MergeAcross(0, full, l.snapshotIndex, prev, request);
      var full' := Merge(0, full, prev, request);
      assert l.snapshotIndex > 0 ==> full'[..l.snapshotIndex][l.snapshotIndex - 1] == full[..l.snapshotIndex][l.snapshotIndex - 1];
    }
  }

  /** Compaction and append commute, on a log already compacted or not, whenever the request starts at
      the very beginning or at or above the new boundary and repeats what lies below it. */
  lemma AppendCommutesWithCompact(l: LogState, boundary: LogIndex, prev: LogIndex, prevTerm: Term, request: seq<LogEntry>)
    requires l.snapshotIndex < boundary <= LastIndex(l)
    requires prev == 0 || prev >= boundary
    requires forall k :: 0 <= k < |request| && l.snapshotIndex <= prev + k < boundary ==>
               request[k].term == l.entries[prev + k - l.snapshotIndex].term
    ensures AppendEntriesFrom(CompactTo(l, boundary, TermAt(l, boundary)), prev, prevTerm, request)
            == CompactTo(AppendEntriesFrom(l, prev, prevTerm, request), boundary, TermAt(l, boundary))
  {
    hide Merge;
    var n := boundary - l.snapshotIndex;
    var c := CompactTo(l, boundary, TermAt(l, boundary));
    assert c.entries == l.entries[n..];
    assert prev > boundary && prev <= LastIndex(l) ==> c.entries[prev - boundary - 1] == l.entries[prev - l.snapshotIndex - 1];
    assert PrevMatches(c, prev, prevTerm) == PrevMatches(l, prev, prevTerm);
    if PrevMatches(l, prev, prevTerm) {
      MergeAcross(l.snapshotIndex, l.entries, boundary, prev, request);
      var merged := Merge(l.snapshotIndex, l.entries, prev, request);
      assert merged[..n][n - 1] == l.entries[..n][n - 1];
    }
  }

  /** Appending keeps indices consecutive, for every request starting within the log. */
  lemma {:induction false} MergeGapless(l: LogState, prev: LogIndex, request: seq<LogEntry>)
    requires Gapless(l) && prev <= LastIndex(l)
    ensures Gapless(l.(entries := Merge(l.snapshotIndex, l.entries, prev, request)))
    decreases |request|
  {
    if request != [] {
      MergeGapless(l.(entries := MergeOne(l.snapshotIndex, l.entries, prev + 1, request[0])), prev + 1, request[1..]);
    }
  }

  /** A request starting past the end is appended as it is, hole and all. */
  lemma {:induction false} MergePast(snapshot: LogIndex, entries: seq<LogEntry>, prev: LogIndex, request: seq<LogEntry>)
    requires prev >= snapshot + |entries|
    ensures Merge(snapshot, entries, prev, request) == entries + Reindexed(request, prev)
    decreases |request|
  {
    if request == [] {
      assert entries + Reindexed(request, prev) == entries;
    } else {
      MergePast(snapshot, entries + [request[0].(index := prev + 1)], prev + 1, request[1..]);
      assert entries + Reindexed(request, prev) == (entries + [request[0].(index := prev + 1)]) + Reindexed(request[1..], prev + 1);
    }
  }

  /** Exactly when an append leaves the indices consecutive. The consistency check lets a request through
      that starts past the end only for the term 0, which no entry ever has; the merge then leaves a
      hole, whatever the entries are. */
  lemma AppendGaplessIff(l: LogState, prev: LogIndex, prevTerm: Term, request: seq<LogEntry>)
    requires Gapless(l)
    ensures Gapless(AppendEntriesFrom(l, prev, prevTerm, request)) <==> prev <= LastIndex(l) || prevTerm != 0 || request == []
    ensures prev > LastIndex(l) ==> (PrevMatches(l, prev, prevTerm) <==> prevTerm == 0)
  {
    hide Merge, Reindexed;
    if prev <= LastIndex(l) {
      MergeGapless(l, prev, request);
    } else if prevTerm == 0 {
      MergePast(l.snapshotIndex, l.entries, prev, request);
      if request != [] {
        ReindexedHead(request, prev);
        assert (l.entries + Reindexed(request, prev))[|l.entries|].index == prev + 1;
      } else {
        assert Reindexed(request, prev) == [] by { NothingReindexed(prev); }
      }
    }
  }

  lemma NothingReindexed(prev: LogIndex)
    ensures Reindexed([], prev) == []
  {
  }

  /** A request that is let through reaches its own last position. */
  lemma {:induction false} MergeReaches(snapshot: LogIndex, entries: seq<LogEntry>, prev: LogIndex, request: seq<LogEntry>)
    requires prev <= snapshot + |entries|
    ensures snapshot + |Merge(snapshot, entries, prev, request)| >= prev + |request|
    decreases |request|
  {
    if request != [] { MergeReaches(snapshot, MergeOne(snapshot, entries, prev + 1, request[0]), prev + 1, request[1..]); }
  }

  // ------------------------------------------------------------------------------------------
  // The log object
  // ------------------------------------------------------------------------------------------

  /** The log file; one written before the applied index was recorded lacks it. */
  datatype LogFile = LogFile(snapshotIndex: LogIndex, snapshotTerm: Term, entries: seq<LogEntry>, appliedIndex: Option<LogIndex>)

  function Loaded(file: Option<LogFile>): LogState {
    match file
    case None => EmptyLog
    case Some(f) => LogState(f.snapshotIndex, f.snapshotTerm, f.entries, if f.appliedIndex.Some? then f.appliedIndex.value else f.snapshotIndex)
  }

  class RaftLog {
    var snapshotIndex: LogIndex
    var snapshotTerm: Term
    var entries: seq<LogEntry>
    var appliedIndex: LogIndex
    /** What is on disk, replaced as a whole by every save. */
    var file: Option<LogFile>

    ghost function State(): LogState
      reads this
    {
      LogState(snapshotIndex, snapshotTerm, entries, appliedIndex)
    }

    /** Indices are consecutive, and a restart would read back the present state. */
    ghost predicate Valid()
      reads this
    {
      Gapless(State()) && Loaded(file) == State()
    }

    /** Opening and loading a log file. */
    constructor (onDisk: Option<LogFile>)
      requires Gapless(Loaded(onDisk))
      ensures Valid() && file == onDisk && State() == Loaded(onDisk)
    {
      file := onDisk;
      snapshotIndex, snapshotTerm, entries, appliedIndex := 0, 0, [], 0;
      if onDisk.Some? {
        snapshotIndex := onDisk.value.snapshotIndex;
        snapshotTerm := onDisk.value.snapshotTerm;
        entries := onDisk.value.entries;
        appliedIndex := if onDisk.value.appliedIndex.Some? then onDisk.value.appliedIndex.value else onDisk.value.snapshotIndex;
      }
    }

    method Save()
      modifies `file
      ensures Loaded(file) == State()
    {
      file := Some(LogFile(snapshotIndex, snapshotTerm, entries, Some(appliedIndex)));
    }

    method GetLastIndex() returns (index: LogIndex)
      requires Valid()
      ensures index == LastIndex(State())
    {
      if |entries| == 0 { return snapshotIndex; }
      return entries[|entries| - 1].index;
    }

    method GetLastTerm() returns (term: Term)
      ensures term == LastTerm(State())
    {
      if |entries| == 0 { return snapshotTerm; }
      return entries[|entries| - 1].term;
    }

    method GetTermAt(index: LogIndex) returns (term: Term)
      requires Valid()
      ensures term == TermAt(State(), index)
    {
      if index == snapshotIndex { return snapshotTerm; }
      var last := GetLastIndex();
      if index < snapshotIndex || index > last { return 0; }
      return entries[index - snapshotIndex - 1].term;
    }

    method GetAt(index: LogIndex) returns (entry: Option<LogEntry>)
      requires Valid()
      ensures entry == At(State(), index)
    {
      var last := GetLastIndex();
      if index <= snapshotIndex || index > last { return None; }
      return Some(entries[index - snapshotIndex - 1]);
    }

    method DoAppend(term: Term, command: Command) returns (index: LogIndex)
      requires Valid()
      modifies this
      ensures Valid()
      ensures State() == Append(old(State()), term, command)
      ensures index == LastIndex(State())
    {
      var last := GetLastIndex();
      entries := entries + [LogEntry(last + 1, term, command)];
      Save();
      index := entries[|entries| - 1].index;
    }

    method DoAppendEntriesFrom(prev: LogIndex, prevTerm: Term, request: seq<LogEntry>) returns (ok: bool)
      requires Valid()
      modifies this
      ensures ok == PrevMatches(old(State()), prev, prevTerm)
      ensures State() == AppendEntriesFrom(old(State()), prev, prevTerm, request) == Loaded(file)
      ensures Valid() <==> prev <= old(LastIndex(State())) || prevTerm != 0 || request == []
    {
      hide Loaded, Merge;
      AppendGaplessIff(State(), prev, prevTerm, request);
      if prev > 0 {
        var t := GetTermAt(prev);
        if t != prevTerm { return false; }
      }
      MergeEntries(prev, request);
      return true;
    }

    /** The loop of AppendEntriesFrom, once the consistency check has passed. */
    method MergeEntries(prev: LogIndex, request: seq<LogEntry>)
      requires Loaded(file) == State()
      modifies this
      ensures Loaded(file) == State()
      ensures State() == old(State()).(entries := Merge(old(snapshotIndex), old(entries), prev, request))
    {
      hide Merge, Loaded;
      var changed := false;
      var i := 0;
      ghost var rest := request;
      while i < |request|
        invariant 0 <= i <= |request| && rest == request[i..]
        invariant snapshotIndex == old(snapshotIndex) && snapshotTerm == old(snapshotTerm)
        invariant appliedIndex == old(appliedIndex) && file == old(file)
        invariant !changed ==> entries == old(entries)
        invariant Merge(snapshotIndex, old(entries), prev, request) == Merge(snapshotIndex, entries, prev + i, rest)
      {
        var idx := prev + 1 + i;
        MergeStep(snapshotIndex, entries, prev + i, rest);
        rest := rest[1..];
        if idx > snapshotIndex {
          var pos := idx - snapshotIndex - 1;
          if pos < |entries| && entries[pos].term != request[i].term {
            entries := entries[..pos];
          }
          if pos >= |entries| {
            entries := entries + [request[i].(index := idx)];
            changed := true;
          }
        }
        i := i + 1;
      }
      MergeStep(snapshotIndex, entries, prev + i, rest);
      if changed { Save(); }
    }

    method DoCompactTo(index: LogIndex, term: Term)
      requires Valid()
      modifies this
      ensures Valid()
      ensures State() == CompactTo(old(State()), index, term)
    {
      if index <= snapshotIndex { return; }
      var last := GetLastIndex();
      var here := GetTermAt(index);
      if index <= last && here == term {
        entries := entries[index - snapshotIndex..];
      } else {
        entries := [];
      }
      snapshotIndex := index;
      snapshotTerm := term;
      Save();
    }

    method SetAppliedIndex(index: LogIndex)
      requires Valid()
      modifies this
      ensures Valid() && State() == old(State()).(appliedIndex := index)
    {
      appliedIndex := index;
      Save();
    }
  }
}
