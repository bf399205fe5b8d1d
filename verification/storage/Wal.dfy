/** The write-ahead log: record bytes, appending, and the replay that stops at the first bad record. */
module StorageWal {
  import opened Options
  import opened StorageBytes
  import opened StorageCrc32

  const PUT: char := 0 as char
  const DELETE: char := 1 as char

  datatype Record = Record(kind: char, key: string, value: string)

  const HEADER_SIZE: nat := 16

  /** What the checksum covers. */
  function Body(r: Record): string { [r.kind] + (r.key + r.value) }

  /** Checksum, key length, value length, record type, and the padding of the header structure. */
  function EncodeHeader(r: Record): (s: string)
    ensures |s| == HEADER_SIZE
  {
    PutU32(Checksum(Body(r))) + PutU32(|r.key|) + PutU32(|r.value|) + [r.kind] + PADDING
  }

  const PADDING: string := [0 as char, 0 as char, 0 as char]

  function Payload(r: Record): string { r.key + if r.kind == PUT then r.value else "" }

  function EncodeRecord(r: Record): (s: string)
    ensures |s| >= HEADER_SIZE
  {
    EncodeHeader(r) + Payload(r)
  }

  /** One turn of the replay loop: the record at a position and where the next one starts, or None
      when the loop ends there. */
  function ReadRecord(file: string, pos: nat): (r: Option<(Record, nat)>)
    ensures r.Some? ==> pos < r.value.1 <= |file|
  {
    if pos + HEADER_SIZE > |file| then None
    else
      var keyEnd := pos + HEADER_SIZE + GetU32(file, pos + 4);
      if keyEnd > |file| then None
      else
        var kind := file[pos + 12];
        var valueLen := GetU32(file, pos + 8);
        var end := if kind == PUT && valueLen > 0 then keyEnd + valueLen else keyEnd;
        if end > |file| then None
        else
          var record := Record(kind, file[pos + HEADER_SIZE..keyEnd], file[keyEnd..end]);
          if Checksum(Body(record)) != GetU32(file, pos) then None else Some((record, end))
  }

  function ReplayFrom(file: string, pos: nat): seq<Record>
    decreases |file| - pos
  {
    match ReadRecord(file, pos)
    case None => []
    case Some(next) => [next.0] + ReplayFrom(file, next.1)
  }

  /** A file of whole records. */
  function Log(records: seq<Record>): string
    decreases |records|
  {
    if records == [] then "" else EncodeRecord(records[0]) + Log(records[1..])
  }

  /** What AppendPut and AppendDelete write, within the 32-bit lengths of the header. */
  predicate Writable(r: Record) {
    |r.key| < U32 && |r.value| < U32 && (r.kind == PUT || (r.kind == DELETE && r.value == ""))
  }

  // ------------------------------------------------------------------------------------------
  // Reading back
  // ------------------------------------------------------------------------------------------

  /** The header fields at a position that holds a record's header. */
  lemma ReadHeader(file: string, pos: nat, r: Record)
    requires HoldsAt(file, pos, EncodeHeader(r)) && |r.key| < U32 && |r.value| < U32
    ensures pos + HEADER_SIZE <= |file|
    ensures GetU32(file, pos) == Checksum(Body(r)) && GetU32(file, pos + 4) == |r.key| && GetU32(file, pos + 8) == |r.value|
    ensures file[pos + 12] == r.kind
  {
    hide Checksum, Body, GetU32, PutU32;
    var a, b, c := PutU32(Checksum(Body(r))), PutU32(|r.key|), PutU32(|r.value|);
    HoldsSplit(file, pos, a + b + c + [r.kind], PADDING);
    HoldsSplit(file, pos, a + b + c, [r.kind]);
    HoldsSplit(file, pos, a + b, c);
    HoldsSplit(file, pos, a, b);
    HoldsU32(file, pos, Checksum(Body(r)));
    HoldsU32(file, pos + 4, |r.key|);
    HoldsU32(file, pos + 8, |r.value|);
    assert file[pos + 12..pos + 13] == [r.kind];
    assert file[pos + 12..pos + 13][0] == file[pos + 12];
  }

  lemma ReadEncoded(file: string, pos: nat, r: Record)
    requires HoldsAt(file, pos, EncodeRecord(r)) && Writable(r)
    ensures ReadRecord(file, pos) == Some((r, pos + |EncodeRecord(r)|))
  {
    hide Checksum, Body, GetU32, EncodeHeader;
    HoldsSplit(file, pos, EncodeHeader(r), Payload(r));
    ReadHeader(file, pos, r);
    HoldsSplit(file, pos + HEADER_SIZE, r.key, if r.kind == PUT then r.value else "");
  }

  lemma ReplayUnfolds(file: string, pos: nat)
    ensures ReplayFrom(file, pos) == match ReadRecord(file, pos) case None => [] case Some(next) => [next.0] + ReplayFrom(file, next.1)
  {
  }

  lemma HeadTail<T>(s: seq<T>, rest: seq<T>)
    requires s != []
    ensures [s[0]] + (s[1..] + rest) == s + rest
  {
  }

  lemma {:induction false} ReplaysLog(file: string, pos: nat, records: seq<Record>)
    requires HoldsAt(file, pos, Log(records)) && forall i :: 0 <= i < |records| ==> Writable(records[i])
    ensures ReplayFrom(file, pos) == records + ReplayFrom(file, pos + |Log(records)|)
    decreases |records|
  {
    hide ReadRecord, EncodeRecord, Writable, ReplayFrom, HoldsAt;
    if records == [] {
      assert [] + ReplayFrom(file, pos) == ReplayFrom(file, pos);
    } else {
      var next := pos + |EncodeRecord(records[0])|;
      HoldsSplit(file, pos, EncodeRecord(records[0]), Log(records[1..]));
      ReadEncoded(file, pos, records[0]);
      ReplayUnfolds(file, pos);
      ReplaysLog(file, next, records[1..]);
      HeadTail(records, ReplayFrom(file, next + |Log(records[1..])|));
    }
  }

  lemma {:induction false} LogConcat(a: seq<Record>, b: seq<Record>)
    ensures Log(a + b) == Log(a) + Log(b)
    decreases |a|
  {
    hide EncodeRecord;
    if a == [] {
      assert a + b == b && "" + Log(b) == Log(b);
    } else {
      LogConcat(a[1..], b);
      assert (a + b)[1..] == a[1..] + b;
    }
  }

  lemma LogOne(r: Record)
    ensures Log([r]) == EncodeRecord(r)
  {
    hide EncodeRecord;
    assert [r][1..] == [];
    assert EncodeRecord(r) + "" == EncodeRecord(r);
  }

  /** Replay stops at an unreadable tail, having delivered every record before it. */
  lemma ReplayStops(records: seq<Record>, tail: string)
    requires forall i :: 0 <= i < |records| ==> Writable(records[i])
    requires ReadRecord(Log(records) + tail, |Log(records)|).None?
    ensures ReplayFrom(Log(records) + tail, 0) == records
  {
    hide ReadRecord, Log, Writable;
    ReplaysLog(Log(records) + tail, 0, records);
    assert records + [] == records;
  }

  // ------------------------------------------------------------------------------------------
  // Torn tails
  // ------------------------------------------------------------------------------------------

  /** A record cut off anywhere is not read. */
  lemma TornUnreadable(before: string, r: Record, n: nat)
    requires Writable(r) && n < |EncodeRecord(r)|
    ensures ReadRecord(before + EncodeRecord(r)[..n], |before|).None?
  {
    hide Checksum, Body, GetU32, EncodeHeader;
    var file := before + EncodeRecord(r)[..n];
    if n >= HEADER_SIZE {
      assert file[|before|..|before| + HEADER_SIZE] == EncodeHeader(r);
      ReadHeader(file, |before|, r);
    }
  }

  /** A crash at any byte of an append leaves a log that replays with or without the new record. */
  lemma TornAppend(records: seq<Record>, r: Record, n: nat)
    requires (forall i :: 0 <= i < |records| ==> Writable(records[i])) && Writable(r) && n <= |EncodeRecord(r)|
    ensures ReplayFrom(Log(records) + EncodeRecord(r)[..n], 0) == if n == |EncodeRecord(r)| then records + [r] else records
  {
    hide ReadRecord, EncodeRecord, Log, Writable;
    if n < |EncodeRecord(r)| {
      TornUnreadable(Log(records), r, n);
      ReplayStops(records, EncodeRecord(r)[..n]);
    } else {
      assert EncodeRecord(r)[..n] == EncodeRecord(r);
      LogConcat(records, [r]);
      LogOne(r);
      WholeLogReplays(records + [r]);
    }
  }

  lemma EndUnreadable(file: string)
    ensures ReadRecord(file, |file|).None?
  {
  }

  /** Replay undoes appending. */
  lemma WholeLogReplays(records: seq<Record>)
    requires forall i :: 0 <= i < |records| ==> Writable(records[i])
    ensures ReplayFrom(Log(records), 0) == records
  {
    hide ReadRecord, Log, Writable;
    EndUnreadable(Log(records));
    assert Log(records) + "" == Log(records);
    ReplayStops(records, "");
  }

  // ------------------------------------------------------------------------------------------
  // Altered records
  // ------------------------------------------------------------------------------------------

  /** A record whose key and value bytes were altered within four consecutive bytes is not read,
      whatever comes after it. */
  lemma AlteredUnreadable(file: string, pos: nat, r: Record, before: string, w: string, u: string, after: string)
    requires Writable(r) && Payload(r) == before + w + after
    requires |w| == |u| <= 4 && w != u && IsBytes(w) && IsBytes(u)
    requires HoldsAt(file, pos, EncodeHeader(r) + (before + u + after))
    ensures ReadRecord(file, pos).None?
  {
    hide Checksum, GetU32, EncodeHeader, IsBytes;
    HoldsSplit(file, pos, EncodeHeader(r), before + u + after);
    ReadHeader(file, pos, r);
    var keyEnd := pos + HEADER_SIZE + |r.key|;
    var end := pos + HEADER_SIZE + |Payload(r)|;
    var record := Record(r.kind, file[pos + HEADER_SIZE..keyEnd], file[keyEnd..end]);
    assert record.key + record.value == before + u + after;
    assert r.key + r.value == before + w + after;
    AlteredChecksum(r.kind, before, w, u, after);
  }

  lemma AlteredChecksum(kind: char, before: string, w: string, u: string, after: string)
    requires |w| == |u| <= 4 && w != u && IsBytes(w) && IsBytes(u)
    ensures Checksum([kind] + (before + w + after)) != Checksum([kind] + (before + u + after))
  {
    hide Crc, IsBytes, Checksum;
    BurstDetected([kind] + before, w, u, after);
    assert [kind] + (before + w + after) == [kind] + before + w + after;
    assert [kind] + (before + u + after) == [kind] + before + u + after;
    if Checksum([kind] + before + w + after) == Checksum([kind] + before + u + after) {
      ChecksumInjective([kind] + before + w + after, [kind] + before + u + after);
      assert false;
    }
  }

  /** Replay of a log with one record so altered delivers exactly the records before it. */
  lemma ReplayStopsAtAltered(records: seq<Record>, r: Record, before: string, w: string, u: string, after: string, rest: string)
    requires (forall i :: 0 <= i < |records| ==> Writable(records[i])) && Writable(r) && Payload(r) == before + w + after
    requires |w| == |u| <= 4 && w != u && IsBytes(w) && IsBytes(u)
    ensures ReplayFrom(Log(records) + (EncodeHeader(r) + (before + u + after) + rest), 0) == records
  {
    hide ReadRecord, EncodeHeader, Log, Writable, Payload, IsBytes;
    var altered := EncodeHeader(r) + (before + u + after);
    HoldsInConcat(Log(records), altered, rest);
    AlteredUnreadable(Log(records) + (altered + rest), |Log(records)|, r, before, w, u, after);
    ReplayStops(records, altered + rest);
  }

  // ------------------------------------------------------------------------------------------
  // The log object
  // ------------------------------------------------------------------------------------------

  class WriteAheadLog {
    /** The file's bytes and the stream's position in it. */
    var file: string
    var pos: nat

    ghost predicate Valid()
      reads this
    {
      pos == |file|
    }

    /** Open: an existing file is kept, and writing continues at its end. */
    constructor (onDisk: string)
      ensures Valid() && file == onDisk
    {
      file := onDisk;
      pos := |onDisk|;
    }

    method Read(n: nat) returns (bytes: string)
      modifies `pos
      ensures old(pos) + n <= |file| ==> |bytes| == n && bytes == file[old(pos)..old(pos) + n] && pos == old(pos) + n
      ensures old(pos) + n > |file| ==> (|bytes| < n || n == 0) && pos == |file|
    {
      if pos + n <= |file| {
        bytes := file[pos..pos + n];
        pos := pos + n;
      } else {
        bytes := if pos <= |file| && n > 0 then file[pos..] else "";
        pos := |file|;
      }
    }

    method Write(bytes: string)
      requires Valid()
      modifies this
      ensures Valid() && file == old(file) + bytes
    {
      file := file + bytes;
      pos := |file|;
    }

    /** One turn of the replay loop. */
    method ReadNext() returns (record: Option<Record>)
      requires pos <= |file|
      modifies `pos
      ensures pos <= |file|
      ensures match ReadRecord(file, old(pos)) case None => record.None? case Some(next) => record == Some(next.0) && pos == next.1
    {
      hide Checksum, Body, GetU32;
      ghost var start := pos;
      var header := Read(HEADER_SIZE);
      if |header| != HEADER_SIZE { return None; }
      GetWithin(file, start, HEADER_SIZE, 0);
      GetWithin(file, start, HEADER_SIZE, 4);
      GetWithin(file, start, HEADER_SIZE, 8);
      var crc, keyLen, valueLen, kind := GetU32(header, 0), GetU32(header, 4), GetU32(header, 8), header[12];
      var key := "";
      if keyLen > 0 {
        key := Read(keyLen);
        if |key| != keyLen { return None; }
      }
      assert key == file[start + HEADER_SIZE..start + HEADER_SIZE + keyLen];
      var value := "";
      if kind == PUT && valueLen > 0 {
        value := Read(valueLen);
        if |value| != valueLen { return None; }
      }
      assert value == file[start + HEADER_SIZE + keyLen..pos];
      if Checksum(Body(Record(kind, key, value))) != crc { return None; }
      return Some(Record(kind, key, value));
    }

    /** Delivers the records in order; the stream ends up at the end of the file for appending. */
    method Replay() returns (delivered: seq<Record>)
      requires Valid()
      modifies `pos
      ensures Valid() && delivered == ReplayFrom(file, 0)
    {
      hide ReadRecord;
      pos := 0;
      delivered := [];
      while true
        invariant pos <= |file|
        invariant delivered + ReplayFrom(file, pos) == ReplayFrom(file, 0)
        decreases |file| - pos
      {
        var record := ReadNext();
        if record.None? { break; }
        delivered := delivered + [record.value];
      }
      pos := |file|;
    }

    method AppendRecord(r: Record)
      requires Valid()
      modifies this
      ensures Valid() && file == old(file) + EncodeRecord(r)
    {
      hide EncodeHeader;
      Write(EncodeHeader(r));
      Write(r.key);
      if r.kind == PUT { Write(r.value); }
      assert file == old(file) + EncodeRecord(r);
    }

    method AppendPut(key: string, value: string)
      requires Valid()
      modifies this
      ensures Valid() && file == old(file) + EncodeRecord(Record(PUT, key, value))
    {
      AppendRecord(Record(PUT, key, value));
    }

    method AppendDelete(key: string)
      requires Valid()
      modifies this
      ensures Valid() && file == old(file) + EncodeRecord(Record(DELETE, key, ""))
    {
      AppendRecord(Record(DELETE, key, ""));
    }

    method Reset()
      modifies this
      ensures Valid() && file == ""
    {
      file := "";
      pos := 0;
    }
  }
}
