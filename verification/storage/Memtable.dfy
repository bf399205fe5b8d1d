/** The in-memory table of the latest writes; a deletion leaves a tombstone. */
module StorageMemtable {
  import opened Options
  import opened Strings
  import opened StorageTables

  class Memtable {
    var entries: Table

    ghost predicate Valid()
      reads this
    {
      Ascending(entries)
    }

    constructor ()
      ensures Valid() && entries == []
    {
      entries := [];
    }

    method Put(key: string, value: string)
      requires Valid()
      modifies this
      ensures Valid() && entries == Assign(old(entries), key, Some(value))
      ensures forall q :: Find(entries, q) == if q == key then Found(value) else Find(old(entries), q)
    {
      hide Assign, Find, Ascending;
      AssignAscending(entries, key, Some(value));
      forall q ensures Find(Assign(entries, key, Some(value)), q) == if q == key then Found(value) else Find(entries, q) {
        AssignFind(entries, key, Some(value), q);
      }
      entries := Assign(entries, key, Some(value));
    }

    method Delete(key: string)
      requires Valid()
      modifies this
      ensures Valid() && entries == Assign(old(entries), key, None)
      ensures forall q :: Find(entries, q) == if q == key then Deleted else Find(old(entries), q)
    {
      hide Assign, Find, Ascending;
      AssignAscending(entries, key, None);
      forall q ensures Find(Assign(entries, key, None), q) == if q == key then Deleted else Find(entries, q) {
        AssignFind(entries, key, None, q);
      }
      entries := Assign(entries, key, None);
    }

    method Lookup(key: string) returns (result: LookupResult)
      ensures result == Find(entries, key)
    {
      var n := LowerBound(entries, key);
      if n == |entries| || entries[n].key != key { return NotFound; }
      if entries[n].value.None? { return Deleted; }
      return Found(entries[n].value.value);
    }

    /** Every entry with the prefix, tombstones included, in ascending order. */
    method Scan(prefix: string) returns (result: Table)
      requires Valid()
      ensures result == WithPrefix(entries, prefix)
    {
      hide WithPrefix, RunFrom, Run, Ascending, StartsWith, Less;
      result := [];
      var n := LowerBound(entries, prefix);
      RunStarts(entries, prefix);
      while n < |entries| && StartsWith(entries[n].key, prefix)
        invariant n <= |entries|
        invariant result + RunFrom(entries, n, prefix) == WithPrefix(entries, prefix)
        decreases |entries| - n
      {
        RunStep(entries, n, prefix);
        result := result + [entries[n]];
        n := n + 1;
      }
      RunStep(entries, n, prefix);
    }

    method Clear()
      modifies this
      ensures Valid() && entries == []
    {
      entries := [];
    }
  }
}
