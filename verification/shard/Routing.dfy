/** The routing table: which shard owns which range of keys. */
module ShardRouting {
  import opened Options
  import opened Strings

  type ShardId = nat

  datatype PeerAddress = PeerAddress(host: string, port: nat)

  type Peers = map<nat, PeerAddress>

  /** The range [startKey, endKey) and who serves it; empty keys stand for the two ends of the key space. */
  datatype ShardRange = ShardRange(id: ShardId, startKey: string, endKey: string, peers: Peers)

  type Ranges = seq<ShardRange>

  ghost predicate SortedByStart(shards: Ranges) {
    forall i, j :: 0 <= i <= j < |shards| ==> !Less(shards[j].startKey, shards[i].startKey)
  }

  /** Contiguous, non-overlapping ranges over the whole key space, as the routing file must list them. */
  ghost predicate Partitions(shards: Ranges) {
    && shards != [] && shards[0].startKey == "" && shards[|shards| - 1].endKey == ""
    && (forall i {:trigger shards[i].endKey} | 0 <= i < |shards| - 1 :: shards[i].endKey == shards[i + 1].startKey)
    && (forall i, j {:trigger shards[i].startKey, shards[j].startKey} | 0 <= i < j < |shards| :: Less(shards[i].startKey, shards[j].startKey))
    && (forall i, j {:trigger shards[i].id, shards[j].id} | 0 <= i < j < |shards| :: shards[i].id != shards[j].id)
  }

  /** The first range that starts past the key. */
  function UpperBound(shards: Ranges, key: string): (n: nat)
    ensures n <= |shards|
    ensures forall i :: 0 <= i < n ==> !Less(key, shards[i].startKey)
    ensures n < |shards| ==> Less(key, shards[n].startKey)
    decreases |shards|
  {
    if shards == [] || Less(key, shards[0].startKey) then 0 else 1 + UpperBound(shards[1..], key)
  }

  /** The position of the range the lookup picks; None stands for "no shard covers key". */
  function Owner(shards: Ranges, key: string): (i: Option<nat>)
    ensures i.Some? ==> i.value < |shards|
  {
    var n := UpperBound(shards, key);
    if n == 0 then None else Some(n - 1)
  }

  predicate Covers(range: ShardRange, key: string) {
    !Less(key, range.startKey) && (range.endKey == "" || Less(key, range.endKey))
  }

  /** In a well-formed table the lookup always succeeds, and finds the one range that covers the key. */
  lemma OwnerCovers(shards: Ranges, key: string, i: nat)
    requires Partitions(shards) && i < |shards|
    ensures Owner(shards, key).Some?
    ensures Covers(shards[i], key) <==> Owner(shards, key) == Some(i)
  {
    var n := UpperBound(shards, key);
    assert !Less(key, "");
    assert n > 0;
    if i < n - 1 {
      assert shards[i].endKey == shards[i + 1].startKey;
      EndNotEmpty(shards, i);
    } else if i == n - 1 {
      if i < |shards| - 1 { assert shards[i].endKey == shards[i + 1].startKey; }
    } else {
      if i > n { LessTransitive(key, shards[n].startKey, shards[i].startKey); }
    }
  }

  lemma EndNotEmpty(shards: Ranges, i: nat)
    requires Partitions(shards) && i < |shards| - 1
    ensures shards[i].endKey != ""
  {
    assert Less(shards[i].startKey, shards[i + 1].startKey);
  }

  /** Keys of an earlier range lie below keys of a later one. */
  lemma OwnersOrdered(shards: Ranges, a: string, b: string)
    requires Partitions(shards) && Owner(shards, a).Some? && Owner(shards, b).Some?
    requires Owner(shards, a).value < Owner(shards, b).value
    ensures Less(a, b)
  {
    var n, m := UpperBound(shards, a), UpperBound(shards, b);
    assert Less(a, shards[n].startKey);
    assert !Less(b, shards[n].startKey);
    LessTotal(b, shards[n].startKey);
    if b != shards[n].startKey { LessTransitive(a, shards[n].startKey, b); }
  }

  function Ids(shards: Ranges): (ids: seq<ShardId>)
    ensures |ids| == |shards| && forall i :: 0 <= i < |ids| ==> ids[i] == shards[i].id
    decreases |shards|
  {
    if shards == [] then [] else [shards[0].id] + Ids(shards[1..])
  }

  // ------------------------------------------------------------------------------------------
  // The table object
  // ------------------------------------------------------------------------------------------

  /** One line of the routing file: blank, a comment or malformed; with an unreadable peer list; or a range,
      where a star stands for an open end. */
  datatype RoutingLine = Skipped | BadPeers | Range(id: ShardId, startToken: string, endToken: string, peers: Peers)

  function KeyOf(token: string): string { if token == "*" then "" else token }

  /** The ranges the lines list, in order. */
  function RangesOf(lines: seq<RoutingLine>): Ranges
    decreases |lines|
  {
    if lines == [] then []
    else
      var line := lines[|lines| - 1];
      RangesOf(lines[..|lines| - 1])
      + if line.Range? then [ShardRange(line.id, KeyOf(line.startToken), KeyOf(line.endToken), line.peers)] else []
  }

  class RoutingTable {
    var shards: Ranges

    ghost predicate Valid()
      reads this
    {
      SortedByStart(shards)
    }

    constructor ()
      ensures Valid() && shards == []
    {
      shards := [];
    }

    /** False stands for an exception: no such file, which leaves the table alone; an unreadable peer list,
        which leaves the ranges before it, unsorted; or no range. */
    method LoadFromFile(file: Option<seq<RoutingLine>>) returns (ok: bool)
      modifies this
      ensures ok <==> file.Some? && BadPeers !in file.value && RangesOf(file.value) != []
      ensures file.None? ==> shards == old(shards)
      ensures file.Some? && BadPeers !in file.value ==> Valid() && multiset(shards) == multiset(RangesOf(file.value))
      ensures file.Some? && BadPeers in file.value ==>
                exists k :: 0 <= k < |file.value| && file.value[k] == BadPeers && BadPeers !in file.value[..k] && shards == RangesOf(file.value[..k])
    {
      if file.None? { return false; }
      var lines := file.value;
      shards := [];
      var i := 0;
      while i < |lines|
        invariant 0 <= i <= |lines| && shards == RangesOf(lines[..i]) && BadPeers !in lines[..i]
      {
        var line := lines[i];
        assert lines[..i + 1][..i] == lines[..i];
        assert lines[..i + 1] == lines[..i] + [line];
        if line.BadPeers? { return false; }
        if line.Range? { shards := shards + [ShardRange(line.id, KeyOf(line.startToken), KeyOf(line.endToken), line.peers)]; }
        i := i + 1;
      }
      assert lines[..i] == lines;
      if shards == [] { return false; }
      shards := SortByStart(shards);
      return true;
    }

    /** Binary search for the first range past the key, then one step back. None stands for the exception. */
    method ShardFor(key: string) returns (found: Option<ShardRange>)
      requires Valid()
      ensures found == match Owner(shards, key) case None => None case Some(i) => Some(shards[i])
    {
      var n := 0;
      var len: nat := |shards|;
      while len > 0
        invariant 0 <= n && n + len <= |shards|
        invariant n > 0 ==> !Less(key, shards[n - 1].startKey)
        invariant n + len < |shards| ==> Less(key, shards[n + len].startKey)
        decreases len
      {
        var half := len / 2;
        if Less(key, shards[n + half].startKey) {
          len := half;
        } else {
          n := n + half + 1;
          len := len - half - 1;
        }
      }
      UpperBoundUnique(shards, key, n);
      if n == 0 { return None; }
      return Some(shards[n - 1]);
    }

    /** None stands for "unknown shard id". */
    method Shard(id: ShardId) returns (found: Option<ShardRange>)
      ensures found.Some? ==> found.value in shards && found.value.id == id
      ensures found.None? ==> forall i :: 0 <= i < |shards| ==> shards[i].id != id
    {
      var i := 0;
      while i < |shards|
        invariant 0 <= i <= |shards| && forall j :: 0 <= j < i ==> shards[j].id != id
      {
        if shards[i].id == id { return Some(shards[i]); }
        i := i + 1;
      }
      return None;
    }

    method AllShardIds() returns (ids: seq<ShardId>)
      ensures ids == Ids(shards)
    {
      ids := [];
      ghost var all := Ids(shards);
      var i := 0;
      while i < |shards|
        invariant 0 <= i <= |shards| && ids == all[..i]
      {
        assert all[..i + 1] == all[..i] + [all[i]];
        ids := ids + [shards[i].id];
        i := i + 1;
      }
      assert all[..i] == all;
    }
  }

  lemma UpperBoundUnique(shards: Ranges, key: string, n: nat)
    requires SortedByStart(shards) && n <= |shards|
    requires n > 0 ==> !Less(key, shards[n - 1].startKey)
    requires n < |shards| ==> Less(key, shards[n].startKey)
    ensures UpperBound(shards, key) == n
  {
    var m := UpperBound(shards, key);
    if m < n {
      NotLessTransitive(key, shards[n - 1].startKey, shards[m].startKey);
    }
  }

  method InsertRange(sorted: Ranges, x: ShardRange) returns (r: Ranges)
    requires SortedByStart(sorted)
    ensures SortedByStart(r) && multiset(r) == multiset(sorted) + multiset{x}
  {
    hide SortedByStart;
    var at := 0;
    while at < |sorted| && !Less(x.startKey, sorted[at].startKey)
      invariant 0 <= at <= |sorted|
      invariant forall j :: 0 <= j < at ==> !Less(x.startKey, sorted[j].startKey)
    {
      at := at + 1;
    }
    InsertSorted(sorted, at, x);
    r := sorted[..at] + [x] + sorted[at..];
    assert sorted == sorted[..at] + sorted[at..];
  }

  method SortByStart(s: Ranges) returns (sorted: Ranges)
    ensures SortedByStart(sorted) && multiset(sorted) == multiset(s)
  {
    sorted := [];
    var i := 0;
    while i < |s|
      invariant 0 <= i <= |s| && SortedByStart(sorted) && multiset(sorted) == multiset(s[..i])
    {
      assert s[..i + 1] == s[..i] + [s[i]];
      sorted := InsertRange(sorted, s[i]);
      i := i + 1;
    }
    assert s[..i] == s;
  }

  lemma InsertSorted(s: Ranges, at: nat, x: ShardRange)
    requires SortedByStart(s) && at <= |s| && (forall j :: 0 <= j < at ==> !Less(x.startKey, s[j].startKey))
    requires at < |s| ==> Less(x.startKey, s[at].startKey)
    ensures SortedByStart(s[..at] + [x] + s[at..])
  {
    hide Less;
    var r := s[..at] + [x] + s[at..];
    LessIrreflexive(x.startKey);
    forall j | at <= j < |s| ensures !Less(s[j].startKey, x.startKey) {
      LessAsymmetric(x.startKey, s[at].startKey);
      NotLessTransitive(s[j].startKey, s[at].startKey, x.startKey);
    }
    forall i, j | 0 <= i <= j < |r| ensures !Less(r[j].startKey, r[i].startKey) {
      assert r[i] == if i < at then s[i] else if i == at then x else s[i - 1];
      assert r[j] == if j < at then s[j] else if j == at then x else s[j - 1];
    }
  }
}
