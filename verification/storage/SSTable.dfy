/** Immutable sorted files: the bytes the writer produces, and the reader that searches them. */
module StorageSSTable {
  import opened Options
  import opened Strings
  import opened StorageBytes
  import opened StorageTables

  /** The value length that marks a tombstone. */
  const TOMBSTONE: nat := 0xFFFF_FFFF

  const MAGIC: nat := 0x5353_5444

  const FOOTER_SIZE: nat := 16

  type Index = seq<(string, nat)>

  // ------------------------------------------------------------------------------------------
  // File layout
  // ------------------------------------------------------------------------------------------

  function EncodeKey(key: string): string { PutU32(|key|) + key }

  function EncodeValue(value: Option<string>): string {
    if value.Some? then PutU32(|value.value|) + value.value else PutU32(TOMBSTONE)
  }

  function EncodeEntry(e: Entry): string { EncodeKey(e.key) + EncodeValue(e.value) }

  function Data(t: Table): string
    decreases |t|
  {
    if t == [] then "" else Data(t[..|t| - 1]) + EncodeEntry(t[|t| - 1])
  }

  /** Each key with the offset of its entry. */
  function IndexOf(t: Table): (index: Index)
    ensures |index| == |t|
    decreases |t|
  {
    if t == [] then [] else IndexOf(t[..|t| - 1]) + [(t[|t| - 1].key, |Data(t[..|t| - 1])|)]
  }

  function EncodeIndexEntry(e: (string, nat)): string { EncodeKey(e.0) + PutU64(e.1) }

  function IndexBytes(index: Index): string
    decreases |index|
  {
    if index == [] then "" else IndexBytes(index[..|index| - 1]) + EncodeIndexEntry(index[|index| - 1])
  }

  function Footer(indexOffset: nat, count: nat): (s: string)
    ensures |s| == FOOTER_SIZE
  {
    PutU64(indexOffset) + PutU32(count) + PutU32(MAGIC)
  }

  function FileOf(t: Table): string { Data(t) + IndexBytes(IndexOf(t)) + Footer(|Data(t)|, |t|) }

  predicate EntryFits(e: Entry) { |e.key| < U32 && (e.value.Some? ==> |e.value.value| < TOMBSTONE) }

  /** Lengths, count and offsets fit their fields, and no value looks like a tombstone. */
  predicate Encodable(t: Table) {
    && |t| < U32 && |Data(t)| < U64
    && forall i {:trigger t[i]} | 0 <= i < |t| :: EntryFits(t[i])
  }

  // ------------------------------------------------------------------------------------------
  // Where things are
  // ------------------------------------------------------------------------------------------

  lemma {:induction false} DataPrefix(t: Table, i: nat)
    requires i <= |t|
    ensures Data(t[..i]) <= Data(t)
    decreases |t|
  {
    hide EncodeEntry;
    if i == |t| {
      assert t[..i] == t;
    } else {
      DataPrefix(t[..|t| - 1], i);
      assert t[..|t| - 1][..i] == t[..i];
    }
  }

  lemma DataNext(t: Table, i: nat)
    requires i < |t|
    ensures Data(t[..i + 1]) == Data(t[..i]) + EncodeEntry(t[i])
  {
    hide EncodeEntry;
    assert t[..i + 1][..i] == t[..i] && t[..i + 1][i] == t[i];
  }

  lemma EntryInFile(t: Table, i: nat)
    requires i < |t|
    ensures HoldsAt(FileOf(t), |Data(t[..i])|, EncodeEntry(t[i]))
    ensures |Data(t[..i])| < |Data(t)|
  {
    hide Data, EncodeEntry, IndexBytes, IndexOf, Footer;
    DataNext(t, i);
    DataPrefix(t, i + 1);
    EntryNotEmpty(t[i]);
    InPrefix(FileOf(t), Data(t), Data(t[..i]), EncodeEntry(t[i]));
  }

  lemma EntryNotEmpty(e: Entry)
    ensures |EncodeEntry(e)| > 0
  {
  }

  lemma InPrefix(file: string, data: string, before: string, part: string)
    requires data <= file && before + part <= data
    ensures HoldsAt(file, |before|, part)
  {
    assert file[..|before + part|] == before + part;
    assert file[|before|..|before| + |part|] == (before + part)[|before|..];
  }

  lemma {:induction false} IndexAt(t: Table, i: nat)
    requires i < |t|
    ensures IndexOf(t)[i] == (t[i].key, |Data(t[..i])|)
    decreases |t|
  {
    hide Data;
    if i < |t| - 1 {
      IndexAt(t[..|t| - 1], i);
      assert t[..|t| - 1][..i] == t[..i];
    }
  }

  lemma {:induction false} IndexPrefix(index: Index, i: nat)
    requires i <= |index|
    ensures IndexBytes(index[..i]) <= IndexBytes(index)
    decreases |index|
  {
    hide EncodeIndexEntry;
    if i == |index| {
      assert index[..i] == index;
    } else {
      IndexPrefix(index[..|index| - 1], i);
      assert index[..|index| - 1][..i] == index[..i];
    }
  }

  lemma IndexNext(index: Index, i: nat)
    requires i < |index|
    ensures IndexBytes(index[..i + 1]) == IndexBytes(index[..i]) + EncodeIndexEntry(index[i])
  {
    hide EncodeIndexEntry;
    assert index[..i + 1][..i] == index[..i] && index[..i + 1][i] == index[i];
  }

  lemma IndexEntryInFile(t: Table, i: nat)
    requires i < |t|
    ensures HoldsAt(FileOf(t), |Data(t)| + |IndexBytes(IndexOf(t)[..i])|, EncodeIndexEntry(IndexOf(t)[i]))
  {
    hide Data, EncodeIndexEntry, IndexBytes, IndexOf, Footer;
    var index := IndexOf(t);
    IndexNext(index, i);
    IndexPrefix(index, i + 1);
    PrefixInConcat(Data(t), IndexBytes(index), Footer(|Data(t)|, |t|), IndexBytes(index[..i]) + EncodeIndexEntry(index[i]));
    assert Data(t) + (IndexBytes(index[..i]) + EncodeIndexEntry(index[i])) == Data(t) + IndexBytes(index[..i]) + EncodeIndexEntry(index[i]);
    InPrefix(FileOf(t), FileOf(t), Data(t) + IndexBytes(index[..i]), EncodeIndexEntry(index[i]));
  }

  lemma PrefixInConcat(a: string, b: string, c: string, part: string)
    requires part <= b
    ensures a + part <= a + b + c
  {
    assert (a + b + c)[..|a| + |part|] == a + b[..|part|];
  }

  lemma FooterInFile(t: Table)
    requires Encodable(t)
    ensures var n := |FileOf(t)|;
            && n >= FOOTER_SIZE && GetU64(FileOf(t), n - 16) == |Data(t)| && GetU32(FileOf(t), n - 8) == |t|
            && GetU32(FileOf(t), n - 4) == MAGIC
  {
    hide Data, IndexBytes, IndexOf, GetU32, GetU64, PutU32, PutU64;
    var file := FileOf(t);
    var n := |file|;
    assert HoldsAt(file, n - 16, Footer(|Data(t)|, |t|));
    HoldsSplit(file, n - 16, PutU64(|Data(t)|) + PutU32(|t|), PutU32(MAGIC));
    HoldsSplit(file, n - 16, PutU64(|Data(t)|), PutU32(|t|));
    HoldsU64(file, n - 16, |Data(t)|);
    HoldsU32(file, n - 8, |t|);
    HoldsU32(file, n - 4, MAGIC);
  }

  lemma ReadsKey(file: string, at: nat, key: string, rest: string)
    requires HoldsAt(file, at, EncodeKey(key) + rest) && |key| < U32
    ensures at + 4 + |key| <= |file|
    ensures GetU32(file, at) == |key| && file[at + 4..at + 4 + |key|] == key && HoldsAt(file, at + 4 + |key|, rest)
  {
    hide GetU32, PutU32;
    HoldsSplit(file, at, EncodeKey(key), rest);
    HoldsSplit(file, at, PutU32(|key|), key);
    HoldsU32(file, at, |key|);
  }

  lemma ReadsValue(file: string, at: nat, value: Option<string>)
    requires HoldsAt(file, at, EncodeValue(value)) && (value.Some? ==> |value.value| < TOMBSTONE)
    ensures at + 4 <= |file|
    ensures value.None? ==> GetU32(file, at) == TOMBSTONE && |EncodeValue(value)| == 4
    ensures value.Some? ==> GetU32(file, at) == |value.value| != TOMBSTONE && at + 4 + |value.value| <= |file|
                            && file[at + 4..at + 4 + |value.value|] == value.value && |EncodeValue(value)| == 4 + |value.value|
  {
    hide GetU32, PutU32;
    if value.Some? {
      HoldsSplit(file, at, PutU32(|value.value|), value.value);
      HoldsU32(file, at, |value.value|);
    } else {
      HoldsU32(file, at, TOMBSTONE);
    }
  }

  // ------------------------------------------------------------------------------------------
  // Writing
  // ------------------------------------------------------------------------------------------

  class SSTableWriter {
    /** The temporary file, invisible under its final name until it is finished. */
    var temp: string
    var index: Index
    ghost var added: Table

    ghost predicate Valid()
      reads this
    {
      temp == Data(added) && index == IndexOf(added)
    }

    constructor ()
      ensures Valid() && added == []
    {
      temp, index, added := "", [], [];
    }

    method Add(key: string, value: Option<string>)
      requires Valid()
      modifies this
      ensures Valid() && added == old(added) + [Entry(key, value)]
    {
      hide Data, IndexOf, PutU32;
      var offset := |temp|;
      AddedEntry(added, Entry(key, value));
      temp := temp + PutU32(|key|);
      temp := temp + key;
      if value.Some? {
        temp := temp + PutU32(|value.value|);
        temp := temp + value.value;
      } else {
        temp := temp + PutU32(TOMBSTONE);
      }
      index := index + [(key, offset)];
      added := added + [Entry(key, value)];
    }

    /** The finished file, which the rename then makes visible. */
    method Finish() returns (file: string)
      requires Valid()
      modifies `temp
      ensures file == FileOf(added) && temp == file
    {
      hide Data, EncodeIndexEntry;
      var indexOffset := |temp|;
      var i := 0;
      while i < |index|
        invariant 0 <= i <= |index|
        invariant temp == Data(added) + IndexBytes(index[..i])
      {
        IndexNext(index, i);
        ghost var before := temp;
        temp := temp + EncodeIndexEntry(index[i]);
        assert temp == Data(added) + (IndexBytes(index[..i]) + EncodeIndexEntry(index[i]));
        i := i + 1;
      }
      assert index[..i] == index;
      temp := temp + Footer(indexOffset, |index|);
      return temp;
    }
  }

  lemma AddedEntry(t: Table, e: Entry)
    ensures Data(t + [e]) == Data(t) + EncodeEntry(e)
    ensures IndexOf(t + [e]) == IndexOf(t) + [(e.key, |Data(t)|)]
  {
    assert (t + [e])[..|t|] == t;
  }

  // ------------------------------------------------------------------------------------------
  // Reading
  // ------------------------------------------------------------------------------------------

  /** Reads past the end of the file yield zero bytes. */
  function U32At(file: string, at: nat): nat { if at + 4 <= |file| then GetU32(file, at) else 0 }

  function U64At(file: string, at: nat): nat { if at + 8 <= |file| then GetU64(file, at) else 0 }

  function BytesAt(file: string, at: nat, n: nat): (s: string)
    ensures |s| == n
  {
    if at + n <= |file| then file[at..at + n] else seq(n, i => 0 as char)
  }

  class SSTableReader {
    const path: nat
    const file: string
    var index: Index
    var dataEnd: nat
    /** The entries that were written into the file. */
    ghost var table: Table

    /** An opened reader of a file that a writer has produced from ascending entries. */
    ghost predicate Valid()
      reads this
    {
      && Encodable(table) && Ascending(table) && file == FileOf(table)
      && index == IndexOf(table) && |index| == |table| && dataEnd == |Data(table)|
    }

    constructor (seqNo: nat, bytes: string)
      ensures path == seqNo && file == bytes
    {
      path, file := seqNo, bytes;
      index, dataEnd, table := [], 0, [];
    }

    /** False stands for the exception thrown for a file that is too short or lacks the magic number. */
    method Open(ghost written: Table) returns (ok: bool)
      modifies this
      ensures |file| < FOOTER_SIZE ==> !ok
      ensures |file| >= FOOTER_SIZE && GetU32(file, |file| - 4) != MAGIC ==> !ok
      ensures Encodable(written) && Ascending(written) && file == FileOf(written) ==> ok && Valid() && table == written
    {
      hide Data, IndexBytes, GetU32, GetU64, EncodeKey, PutU64, Ascending, FileOf;
      table := written;
      ghost var known := Encodable(written) && file == FileOf(written);
      if known { FooterInFile(written); }
      if |file| < FOOTER_SIZE { return false; }
      var indexOffset, count, magic := GetU64(file, |file| - 16), GetU32(file, |file| - 8), GetU32(file, |file| - 4);
      if magic != MAGIC { return false; }
      dataEnd := indexOffset;
      index := [];
      var pos := indexOffset;
      if known { IndexStart(written); }
      var i := 0;
      while i < count
        invariant 0 <= i <= count && |index| == i && table == written && dataEnd == indexOffset
        invariant known ==> index == IndexOf(written)[..i] && pos == |Data(written)| + |IndexBytes(IndexOf(written)[..i])|
      {
        if known { ReadsIndexEntry(written, i); }
        var keyLen := U32At(file, pos);
        var key := BytesAt(file, pos + 4, keyLen);
        var offset := U64At(file, pos + 4 + keyLen);
        index := index + [(key, offset)];
        pos := pos + 4 + keyLen + 8;
        i := i + 1;
      }
      return true;
    }

    /** std::lower_bound over the index. */
    method LowerBoundIn(key: string) returns (n: nat)
      requires Valid()
      ensures n == LowerBound(table, key)
    {
      hide Encodable, FileOf, IndexOf, Data;
      n := 0;
      var len: nat := |index|;
      while len > 0
        invariant n + len <= |index| == |table|
        invariant n > 0 ==> Less(table[n - 1].key, key)
        invariant n + len < |table| ==> !Less(table[n + len].key, key)
        decreases len
      {
        var half := len / 2;
        IndexAt(table, n + half);
        if Less(index[n + half].0, key) {
          n := n + half + 1;
          len := len - half - 1;
        } else {
          len := half;
        }
      }
      LowerBoundUnique(table, key, n);
    }

    /** Seeks to an entry and reads its value, skipping the key. */
    method ReadValueAt(offset: nat, ghost i: nat) returns (value: Option<string>)
      requires Valid() && i < |table| && offset == |Data(table[..i])|
      ensures value == table[i].value
    {
      hide Data, IndexOf, FileOf, GetU32, EncodeKey, EncodeValue, Ascending;
      EntryInFile(table, i);
      ReadsKey(file, offset, table[i].key, EncodeValue(table[i].value));
      ReadsValue(file, offset + 4 + |table[i].key|, table[i].value);
      var keyLen := U32At(file, offset);
      var valueLen := U32At(file, offset + 4 + keyLen);
      if valueLen == TOMBSTONE { return None; }
      return Some(BytesAt(file, offset + 4 + keyLen + 4, valueLen));
    }

    method Lookup(key: string) returns (result: LookupResult)
      requires Valid()
      ensures result == Find(table, key)
    {
      hide Encodable, FileOf, IndexOf, Data, Ascending;
      var n := LowerBoundIn(key);
      if n == |index| { return NotFound; }
      IndexAt(table, n);
      if index[n].0 != key { return NotFound; }
      var value := ReadValueAt(index[n].1, n);
      return if value.None? then Deleted else Found(value.value);
    }

    method Scan(prefix: string) returns (result: Table)
      requires Valid()
      ensures result == WithPrefix(table, prefix)
    {
      hide Encodable, FileOf, IndexOf, Data, Ascending, WithPrefix;
      result := [];
      var n := LowerBoundIn(prefix);
      RunExact(table, prefix);
      while n < |index| && StartsWith(index[n].0, prefix)
        invariant n <= |index| == |table|
        invariant result + RunFrom(table, n, prefix) == WithPrefix(table, prefix)
        decreases |index| - n
      {
        IndexAt(table, n);
        var value := ReadValueAt(index[n].1, n);
        result := result + [Entry(index[n].0, value)];
        assert table[n] == Entry(index[n].0, value);
        n := n + 1;
      }
      if n < |index| { IndexAt(table, n); }
    }

    method ReadAll() returns (result: Table)
      requires Valid()
      ensures result == table
    {
      hide FileOf, IndexOf, Data, Ascending, U32At, BytesAt, HoldsAt, EncodeValue;
      result := [];
      var pos := 0;
      ghost var i := 0;
      DataStart(table);
      assert table[..|table|] == table;
      while pos < dataEnd
        invariant i <= |table| && result == table[..i] && pos == |Data(table[..i])|
        decreases |table| - i
      {
        EntryKeyRead(table, i);
        EntryValueRead(file, pos + 4 + |table[i].key|, table[i].value);
        EntryEnd(table, i);
        var keyLen := U32At(file, pos);
        var key := BytesAt(file, pos + 4, keyLen);
        var valueLen := U32At(file, pos + 4 + keyLen);
        pos := pos + 4 + keyLen + 4;
        if valueLen == TOMBSTONE {
          result := result + [Entry(key, None)];
        } else {
          result := result + [Entry(key, Some(BytesAt(file, pos, valueLen)))];
          pos := pos + valueLen;
        }
        i := i + 1;
      }
      if i < |table| { EntryInFile(table, i); }
    }
  }

  lemma IndexStart(t: Table)
    ensures IndexBytes(IndexOf(t)[..0]) == "" && IndexOf(t)[..|t|] == IndexOf(t) && IndexOf(t)[..0] == []
  {
  }

  lemma DataStart(t: Table)
    ensures Data(t[..0]) == ""
  {
  }

  lemma IndexEntryRead(file: string, pos: nat, e: (string, nat))
    requires HoldsAt(file, pos, EncodeIndexEntry(e)) && |e.0| < U32 && e.1 < U64
    ensures U32At(file, pos) == |e.0| && BytesAt(file, pos + 4, |e.0|) == e.0 && U64At(file, pos + 4 + |e.0|) == e.1
  {
    hide GetU32, GetU64, PutU64, EncodeKey;
    ReadsKey(file, pos, e.0, PutU64(e.1));
    PutU64Size(e.1);
    HoldsU64(file, pos + 4 + |e.0|, e.1);
  }

  lemma PutU64Size(n: nat)
    ensures |PutU64(n)| == 8
  {
  }

  lemma IndexEntryEnd(index: Index, i: nat)
    requires i < |index|
    ensures |IndexBytes(index[..i + 1])| == |IndexBytes(index[..i])| + 4 + |index[i].0| + 8
    ensures index[..i + 1] == index[..i] + [index[i]]
  {
    hide IndexBytes;
    IndexNext(index, i);
  }

  lemma ReadsIndexEntry(t: Table, i: nat)
    requires Encodable(t) && i < |t|
    ensures var file := FileOf(t); var pos := |Data(t)| + |IndexBytes(IndexOf(t)[..i])|; var e := IndexOf(t)[i];
            && U32At(file, pos) == |e.0| && BytesAt(file, pos + 4, |e.0|) == e.0 && U64At(file, pos + 4 + |e.0|) == e.1
            && |Data(t)| + |IndexBytes(IndexOf(t)[..i + 1])| == pos + 4 + |e.0| + 8
            && IndexOf(t)[..i + 1] == IndexOf(t)[..i] + [e]
  {
    hide Data, IndexBytes, FileOf, EncodeIndexEntry, U32At, U64At, BytesAt, HoldsAt;
    IndexEntryInFile(t, i);
    IndexEntryEnd(IndexOf(t), i);
    IndexAt(t, i);
    EntryInFile(t, i);
    IndexEntryRead(FileOf(t), |Data(t)| + |IndexBytes(IndexOf(t)[..i])|, IndexOf(t)[i]);
  }

  lemma EntryKeyRead(t: Table, i: nat)
    requires Encodable(t) && i < |t|
    ensures var file := FileOf(t); var pos := |Data(t[..i])|; var e := t[i];
            && U32At(file, pos) == |e.key| && BytesAt(file, pos + 4, |e.key|) == e.key
            && HoldsAt(file, pos + 4 + |e.key|, EncodeValue(e.value))
  {
    hide Data, FileOf, GetU32, EncodeKey, EncodeValue;
    EntryInFile(t, i);
    ReadsKey(FileOf(t), |Data(t[..i])|, t[i].key, EncodeValue(t[i].value));
  }

  lemma EntryValueRead(file: string, at: nat, value: Option<string>)
    requires HoldsAt(file, at, EncodeValue(value)) && (value.Some? ==> |value.value| < TOMBSTONE)
    ensures value.None? ==> U32At(file, at) == TOMBSTONE
    ensures value.Some? ==> U32At(file, at) == |value.value| != TOMBSTONE && BytesAt(file, at + 4, |value.value|) == value.value
  {
    hide GetU32, EncodeValue, HoldsAt;
    ReadsValue(file, at, value);
  }

  lemma EntryEnd(t: Table, i: nat)
    requires i < |t|
    ensures var e := t[i]; |Data(t[..i + 1])| == |Data(t[..i])| + 4 + |e.key| + 4 + if e.value.Some? then |e.value.value| else 0
    ensures t[..i + 1] == t[..i] + [t[i]]
  {
    hide Data;
    DataNext(t, i);
  }

  // ------------------------------------------------------------------------------------------
  // A file determines its entries
  // ------------------------------------------------------------------------------------------

  lemma SameEntry(a: Table, b: Table, i: nat)
    requires Encodable(a) && Encodable(b) && FileOf(a) == FileOf(b) && i < |a| && i < |b| && a[..i] == b[..i]
    ensures a[i] == b[i]
  {
    hide FileOf, Data, U32At, BytesAt, HoldsAt, EncodeValue;
    EntryKeyRead(a, i);
    EntryKeyRead(b, i);
    assert BytesAt(FileOf(a), |Data(a[..i])| + 4, |a[i].key|) == BytesAt(FileOf(b), |Data(b[..i])| + 4, |b[i].key|);
    EntryValueRead(FileOf(a), |Data(a[..i])| + 4 + |a[i].key|, a[i].value);
    EntryValueRead(FileOf(b), |Data(b[..i])| + 4 + |b[i].key|, b[i].value);
  }

  lemma {:induction false} SamePrefix(a: Table, b: Table, i: nat)
    requires Encodable(a) && Encodable(b) && FileOf(a) == FileOf(b) && i <= |a| == |b|
    ensures a[..i] == b[..i]
    decreases i
  {
    hide FileOf, Encodable;
    if i > 0 {
      SamePrefix(a, b, i - 1);
      SameEntry(a, b, i - 1);
      assert a[..i] == a[..i - 1] + [a[i - 1]] && b[..i] == b[..i - 1] + [b[i - 1]];
    }
  }

  /** No two tables are written as the same file. */
  lemma FileInjective(a: Table, b: Table)
    requires Encodable(a) && Encodable(b) && FileOf(a) == FileOf(b)
    ensures a == b
  {
    hide FileOf, Encodable;
    FooterInFile(a);
    FooterInFile(b);
    SamePrefix(a, b, |a|);
    assert a[..|a|] == a && b[..|b|] == b;
  }
}
