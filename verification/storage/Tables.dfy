/**
 Sorted tables: the contents of a memtable, of an SSTable, and of the merged maps that scans and
 compactions build. Keys ascend; a deleted key keeps an entry without a value.
 */
module StorageTables {
  import opened Options
  import opened Strings

  datatype Entry = Entry(key: string, value: Option<string>)

  type Table = seq<Entry>

  datatype LookupResult = NotFound | Deleted | Found(value: string)

  predicate Ascending(t: Table) {
    forall i, j :: 0 <= i < j < |t| ==> Less(t[i].key, t[j].key)
  }

  function Answer(value: Option<string>): LookupResult {
    if value.Some? then Found(value.value) else Deleted
  }

  /** The first position whose key is not below `key`. */
  function LowerBound(t: Table, key: string): (n: nat)
    ensures n <= |t|
    ensures forall i :: 0 <= i < n ==> Less(t[i].key, key)
    ensures n < |t| ==> !Less(t[n].key, key)
    decreases |t|
  {
    if t == [] || !Less(t[0].key, key) then 0 else 1 + LowerBound(t[1..], key)
  }

  function Find(t: Table, key: string): LookupResult {
    var n := LowerBound(t, key);
    if n < |t| && t[n].key == key then Answer(t[n].value) else NotFound
  }

  /** Assignment through the map's index operator. */
  function Assign(t: Table, key: string, value: Option<string>): Table {
    var n := LowerBound(t, key);
    if n < |t| && t[n].key == key then t[n := Entry(key, value)]
    else t[..n] + [Entry(key, value)] + t[n..]
  }

  /** Insertion that leaves a present key alone. */
  function Emplace(t: Table, key: string, value: Option<string>): Table {
    if Find(t, key).NotFound? then Assign(t, key, value) else t
  }

  // ------------------------------------------------------------------------------------------
  // Finding
  // ------------------------------------------------------------------------------------------

  lemma LowerBoundUnique(t: Table, key: string, n: nat)
    requires Ascending(t) && n <= |t|
    requires n > 0 ==> Less(t[n - 1].key, key)
    requires n < |t| ==> !Less(t[n].key, key)
    ensures LowerBound(t, key) == n
  {
    var m := LowerBound(t, key);
    if m < n && m < n - 1 {
      LessTransitive(t[m].key, t[n - 1].key, key);
    }
  }

  lemma KeyAt(t: Table, i: nat)
    requires Ascending(t) && i < |t|
    ensures LowerBound(t, t[i].key) == i && Find(t, t[i].key) == Answer(t[i].value)
  {
    LessIrreflexive(t[i].key);
    LowerBoundUnique(t, t[i].key, i);
  }

  lemma Absent(t: Table, key: string)
    requires forall i :: 0 <= i < |t| ==> t[i].key != key
    ensures Find(t, key) == NotFound
  {
  }

  lemma Present(t: Table, key: string) returns (i: nat)
    requires !Find(t, key).NotFound?
    ensures i < |t| && t[i].key == key && Find(t, key) == Answer(t[i].value)
  {
    i := LowerBound(t, key);
  }

  lemma AssignAscending(t: Table, key: string, value: Option<string>)
    requires Ascending(t)
    ensures Ascending(Assign(t, key, value))
  {
    var n := LowerBound(t, key);
    if n < |t| {
      LessTotal(t[n].key, key);
      if t[n].key != key {
        forall j | n <= j < |t| ensures Less(key, t[j].key) {
          if j > n { LessTransitive(key, t[n].key, t[j].key); }
        }
      }
    }
  }

  lemma AssignKeepsOthers(t: Table, key: string, value: Option<string>, i: nat)
    requires i < |t| && t[i].key != key
    ensures t[i] in Assign(t, key, value)
  {
    var n := LowerBound(t, key);
    var a := Assign(t, key, value);
    if n < |t| && t[n].key == key {
      assert a[i] == t[i];
    } else if i < n {
      assert a[i] == t[i];
    } else {
      assert a[i + 1] == t[i];
    }
  }

  lemma AssignAddsOne(t: Table, key: string, value: Option<string>)
    ensures Entry(key, value) in Assign(t, key, value)
    ensures forall e :: e in Assign(t, key, value) ==> e == Entry(key, value) || e in t
  {
    assert Assign(t, key, value)[LowerBound(t, key)] == Entry(key, value);
  }

  lemma FindMember(t: Table, e: Entry)
    requires Ascending(t) && e in t
    ensures Find(t, e.key) == Answer(e.value)
  {
    var i :| 0 <= i < |t| && t[i] == e;
    KeyAt(t, i);
  }

  lemma AssignFind(t: Table, key: string, value: Option<string>, q: string)
    requires Ascending(t)
    ensures Find(Assign(t, key, value), q) == if q == key then Answer(value) else Find(t, q)
  {
    hide Assign, LowerBound, Find, Ascending;
    var a := Assign(t, key, value);
    AssignAscending(t, key, value);
    AssignAddsOne(t, key, value);
    if q == key {
      FindMember(a, Entry(key, value));
    } else if !Find(t, q).NotFound? {
      var i := Present(t, q);
      AssignKeepsOthers(t, key, value, i);
      FindMember(a, t[i]);
    } else if !Find(a, q).NotFound? {
      var i := Present(a, q);
      assert a[i] in t;
      FindMember(t, a[i]);
      assert false;
    }
  }

  lemma EmplaceFind(t: Table, key: string, value: Option<string>, q: string)
    requires Ascending(t)
    ensures Ascending(Emplace(t, key, value))
    ensures Find(Emplace(t, key, value), q) == if q == key && Find(t, q).NotFound? then Answer(value) else Find(t, q)
  {
    hide Assign, Find, Ascending;
    AssignAscending(t, key, value);
    AssignFind(t, key, value, q);
  }

  /** A table is determined by what it answers. */
  lemma {:induction false} TableDetermined(a: Table, b: Table)
    requires Ascending(a) && Ascending(b) && forall q :: Find(a, q) == Find(b, q)
    ensures a == b
    decreases |a|
  {
    if a == [] {
      if b != [] { KeyAt(b, 0); }
    } else if b == [] {
      KeyAt(a, 0);
    } else {
      SameFirst(a, b);
      forall q ensures Find(a[1..], q) == Find(b[1..], q) {
        TailFind(a, q);
        TailFind(b, q);
      }
      TableDetermined(a[1..], b[1..]);
      assert a == [a[0]] + a[1..] && b == [b[0]] + b[1..];
    }
  }

  lemma SameFirst(a: Table, b: Table)
    requires Ascending(a) && Ascending(b) && a != [] && b != [] && forall q :: Find(a, q) == Find(b, q)
    ensures a[0] == b[0]
  {
    KeyAt(a, 0);
    KeyAt(b, 0);
    var i := Present(b, a[0].key);
    var j := Present(a, b[0].key);
    LessIrreflexive(a[0].key);
    if i > 0 && j > 0 { LessTransitive(a[0].key, b[0].key, a[0].key); }
  }

  lemma TailFind(t: Table, q: string)
    requires Ascending(t) && t != []
    ensures Ascending(t[1..])
    ensures Find(t[1..], q) == if q == t[0].key then NotFound else Find(t, q)
  {
    if !Find(t, q).NotFound? {
      var i := Present(t, q);
      KeyAt(t, i);
      if i > 0 { assert t[1..][i - 1] == t[i]; KeyAt(t[1..], i - 1); }
    }
    if !Find(t[1..], q).NotFound? {
      var i := Present(t[1..], q);
      KeyAt(t, i + 1);
      LessIrreflexive(q);
    }
  }

  // ------------------------------------------------------------------------------------------
  // Prefix scans
  // ------------------------------------------------------------------------------------------

  /** The scan loop: entries from position i on, as long as the prefix matches. */
  function RunFrom(t: Table, i: nat, prefix: string): Table
    requires i <= |t|
    decreases |t| - i
  {
    if i < |t| && StartsWith(t[i].key, prefix) then [t[i]] + RunFrom(t, i + 1, prefix) else []
  }

  function Run(t: Table, prefix: string): Table { RunFrom(t, LowerBound(t, prefix), prefix) }

  /** All entries with the prefix, wherever they are. */
  function WithPrefix(t: Table, prefix: string): Table
    decreases |t|
  {
    if t == [] then []
    else (if StartsWith(t[0].key, prefix) then [t[0]] else []) + WithPrefix(t[1..], prefix)
  }

  lemma {:induction false} NoneWithPrefix(t: Table, prefix: string)
    requires forall i :: 0 <= i < |t| ==> !StartsWith(t[i].key, prefix)
    ensures WithPrefix(t, prefix) == []
    decreases |t|
  {
    hide StartsWith;
    if t != [] { NoneWithPrefix(t[1..], prefix); }
  }

  lemma {:induction false} RunFromExact(t: Table, i: nat, prefix: string)
    requires Ascending(t) && i <= |t| && forall k :: i <= k < |t| ==> !Less(t[k].key, prefix)
    ensures RunFrom(t, i, prefix) == WithPrefix(t[i..], prefix)
    decreases |t| - i
  {
    hide StartsWith;
    if i < |t| {
      assert t[i..][1..] == t[i + 1..];
      if StartsWith(t[i].key, prefix) {
        RunFromExact(t, i + 1, prefix);
      } else {
        forall k | i <= k < |t| ensures !StartsWith(t[k].key, prefix) {
          if k > i && StartsWith(t[k].key, prefix) { PrefixContiguous(prefix, t[i].key, t[k].key); }
        }
        NoneWithPrefix(t[i..], prefix);
      }
    }
  }

  lemma {:induction false} WithPrefixConcat(a: Table, b: Table, prefix: string)
    ensures WithPrefix(a + b, prefix) == WithPrefix(a, prefix) + WithPrefix(b, prefix)
    decreases |a|
  {
    hide WithPrefix, StartsWith;
    if a == [] {
      assert a + b == b;
      NoneWithPrefix(a, prefix);
    } else {
      WithPrefixConcat(a[1..], b, prefix);
      assert (a + b)[1..] == a[1..] + b && (a + b)[0] == a[0];
      WithPrefixStep(a, prefix);
      WithPrefixStep(a + b, prefix);
    }
  }

  lemma WithPrefixStep(t: Table, prefix: string)
    requires t != []
    ensures WithPrefix(t, prefix) == (if StartsWith(t[0].key, prefix) then [t[0]] else []) + WithPrefix(t[1..], prefix)
  {
    hide StartsWith;
  }

  /** Keys sharing a prefix form one contiguous run starting at the lower bound, so the scan loop
      finds exactly the entries with the prefix. */
  lemma RunExact(t: Table, prefix: string)
    requires Ascending(t)
    ensures Run(t, prefix) == WithPrefix(t, prefix)
  {
    hide StartsWith, RunFrom, WithPrefix;
    var n := LowerBound(t, prefix);
    forall k | n <= k < |t| ensures !Less(t[k].key, prefix) {
      if k > n { LessAsymmetricTo(t[n].key, t[k].key, prefix); }
    }
    RunFromExact(t, n, prefix);
    forall i | 0 <= i < n ensures !StartsWith(t[..n][i].key, prefix) {
      if StartsWith(t[i].key, prefix) { PrefixNotLess(t[i].key, prefix); }
    }
    NoneWithPrefix(t[..n], prefix);
    WithPrefixConcat(t[..n], t[n..], prefix);
    assert t[..n] + t[n..] == t && [] + WithPrefix(t[n..], prefix) == WithPrefix(t[n..], prefix);
  }

  /** The loop from the lower bound is to collect the entries with the prefix. */
  lemma RunStarts(t: Table, prefix: string)
    requires Ascending(t)
    ensures [] + RunFrom(t, LowerBound(t, prefix), prefix) == WithPrefix(t, prefix)
  {
    hide RunFrom, WithPrefix, Ascending, LowerBound;
    RunExact(t, prefix);
  }

  /** One turn of the loop. */
  lemma RunStep(t: Table, i: nat, prefix: string)
    requires i <= |t|
    ensures RunFrom(t, i, prefix) == if i < |t| && StartsWith(t[i].key, prefix) then [t[i]] + RunFrom(t, i + 1, prefix) else []
  {
    hide StartsWith;
  }

  lemma LessAsymmetricTo(a: string, b: string, bound: string)
    requires Less(a, b) && !Less(a, bound)
    ensures !Less(b, bound)
  {
    if Less(b, bound) { LessTransitive(a, b, bound); }
  }

  lemma {:induction false} WithPrefixMembers(t: Table, prefix: string, e: Entry)
    ensures e in WithPrefix(t, prefix) <==> e in t && StartsWith(e.key, prefix)
    decreases |t|
  {
    hide StartsWith;
    if t != [] {
      WithPrefixMembers(t[1..], prefix, e);
      assert t == [t[0]] + t[1..];
    }
  }

  lemma {:induction false} WithPrefixAscending(t: Table, prefix: string)
    requires Ascending(t)
    ensures Ascending(WithPrefix(t, prefix))
    decreases |t|
  {
    hide StartsWith;
    if t != [] {
      var rest := WithPrefix(t[1..], prefix);
      WithPrefixAscending(t[1..], prefix);
      forall j | 0 <= j < |rest| ensures Less(t[0].key, rest[j].key) {
        WithPrefixMembers(t[1..], prefix, rest[j]);
        var i :| 0 <= i < |t| - 1 && t[1..][i] == rest[j];
      }
    }
  }

  lemma WithPrefixFind(t: Table, prefix: string, q: string)
    requires Ascending(t)
    ensures Ascending(WithPrefix(t, prefix))
    ensures Find(WithPrefix(t, prefix), q) == if StartsWith(q, prefix) then Find(t, q) else NotFound
  {
    hide StartsWith, Find, Ascending, WithPrefix;
    var part := WithPrefix(t, prefix);
    WithPrefixAscending(t, prefix);
    if !Find(part, q).NotFound? {
      var i := Present(part, q);
      WithPrefixMembers(t, prefix, part[i]);
      FindMember(t, part[i]);
    } else if !Find(t, q).NotFound? && StartsWith(q, prefix) {
      var i := Present(t, q);
      WithPrefixMembers(t, prefix, t[i]);
      FindMember(part, t[i]);
      assert false;
    }
  }

  // ------------------------------------------------------------------------------------------
  // Merging layers, newest first
  // ------------------------------------------------------------------------------------------

  function MergeInto(acc: Table, layer: Table): Table
    decreases |layer|
  {
    if layer == [] then acc else MergeInto(Emplace(acc, layer[0].key, layer[0].value), layer[1..])
  }

  lemma {:induction false} MergeIntoFind(acc: Table, layer: Table, q: string)
    requires Ascending(acc) && Ascending(layer)
    ensures Ascending(MergeInto(acc, layer))
    ensures Find(MergeInto(acc, layer), q) == if Find(acc, q).NotFound? then Find(layer, q) else Find(acc, q)
    decreases |layer|
  {
    hide Emplace, Find;
    if layer == [] {
      Absent(layer, q);
    } else {
      var e := layer[0];
      EmplaceFind(acc, e.key, e.value, q);
      TailFind(layer, q);
      KeyAt(layer, 0);
      MergeIntoFind(Emplace(acc, e.key, e.value), layer[1..], q);
    }
  }

  function MergeAll(acc: Table, layers: seq<Table>): Table
    decreases |layers|
  {
    if layers == [] then acc else MergeAll(MergeInto(acc, layers[0]), layers[1..])
  }

  /** The first layer with an answer decides. */
  function FindIn(layers: seq<Table>, q: string): LookupResult
    decreases |layers|
  {
    if layers == [] then NotFound
    else if Find(layers[0], q).NotFound? then FindIn(layers[1..], q)
    else Find(layers[0], q)
  }

  predicate AllAscending(layers: seq<Table>) { forall i :: 0 <= i < |layers| ==> Ascending(layers[i]) }

  /** A merge that lets the first value seen win answers like the layers do. */
  lemma {:induction false} MergeAllFind(acc: Table, layers: seq<Table>, q: string)
    requires Ascending(acc) && AllAscending(layers)
    ensures Ascending(MergeAll(acc, layers))
    ensures Find(MergeAll(acc, layers), q) == if Find(acc, q).NotFound? then FindIn(layers, q) else Find(acc, q)
    decreases |layers|
  {
    hide MergeInto, Find, Ascending;
    if layers != [] {
      MergeIntoFind(acc, layers[0], q);
      MergeAllFind(MergeInto(acc, layers[0]), layers[1..], q);
    }
  }

  lemma MergedFind(layers: seq<Table>, q: string)
    requires AllAscending(layers)
    ensures Ascending(MergeAll([], layers)) && Find(MergeAll([], layers), q) == FindIn(layers, q)
  {
    hide MergeAll, FindIn;
    MergeAllFind([], layers, q);
    Absent([], q);
  }

  // ------------------------------------------------------------------------------------------
  // Dropping tombstones
  // ------------------------------------------------------------------------------------------

  function Live(t: Table): Table
    decreases |t|
  {
    if t == [] then [] else (if t[0].value.Some? then [t[0]] else []) + Live(t[1..])
  }

  lemma {:induction false} LiveMembers(t: Table, e: Entry)
    ensures e in Live(t) <==> e in t && e.value.Some?
    decreases |t|
  {
    if t != [] {
      LiveMembers(t[1..], e);
      assert t == [t[0]] + t[1..];
    }
  }

  lemma {:induction false} LiveAscending(t: Table)
    requires Ascending(t)
    ensures Ascending(Live(t))
    decreases |t|
  {
    if t != [] {
      var rest := Live(t[1..]);
      LiveAscending(t[1..]);
      forall j | 0 <= j < |rest| ensures Less(t[0].key, rest[j].key) {
        LiveMembers(t[1..], rest[j]);
        var i :| 0 <= i < |t| - 1 && t[1..][i] == rest[j];
      }
    }
  }

  lemma LiveFind(t: Table, q: string)
    requires Ascending(t)
    ensures Ascending(Live(t)) && Find(Live(t), q) == if Find(t, q).Found? then Find(t, q) else NotFound
  {
    hide Find, Ascending, Live;
    LiveAscending(t);
    if !Find(Live(t), q).NotFound? {
      var i := Present(Live(t), q);
      LiveMembers(t, Live(t)[i]);
      FindMember(t, Live(t)[i]);
    } else if Find(t, q).Found? {
      var i := Present(t, q);
      LiveMembers(t, t[i]);
      FindMember(Live(t), t[i]);
      assert false;
    }
  }
}
