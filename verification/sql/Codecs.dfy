/** The byte encodings of rows and table schemas, and that reading undoes writing. */
module SqlCodecs {
  import opened Options
  import opened StorageBytes
  import opened SqlAst

  /** A value read at a position, and where the next one starts. None stands for the exception of a
      corrupt encoding. */
  type Read<T> = Option<(T, nat)>

  // ------------------------------------------------------------------------------------------
  // Strings
  // ------------------------------------------------------------------------------------------

  function EncodeString(s: string): string { PutU32(|s|) + s }

  function ReadString(blob: string, pos: nat): (r: Read<string>)
    ensures r.Some? ==> pos < r.value.1 <= |blob|
  {
    if pos + 4 > |blob| then None
    else
      var len := GetU32(blob, pos);
      if pos + 4 + len > |blob| then None else Some((blob[pos + 4..pos + 4 + len], pos + 4 + len))
  }

  lemma ReadsString(blob: string, pos: nat, s: string)
    requires HoldsAt(blob, pos, EncodeString(s)) && |s| < U32
    ensures ReadString(blob, pos) == Some((s, pos + |EncodeString(s)|))
  {
    hide GetU32, PutU32;
    PutU32Size(|s|);
    HoldsSplit(blob, pos, PutU32(|s|), s);
    HoldsU32(blob, pos, |s|);
  }

  lemma PutU32Size(n: nat)
    ensures |PutU32(n)| == 4
  {
  }

  // ------------------------------------------------------------------------------------------
  // Rows
  // ------------------------------------------------------------------------------------------

  function EncodeValues(values: Row): string
    decreases |values|
  {
    if values == [] then "" else EncodeString(values[0]) + EncodeValues(values[1..])
  }

  function EncodeRow(values: Row): string { PutU32(|values|) + EncodeValues(values) }

  function DecodeValues(blob: string, pos: nat, count: nat): Option<Row>
    decreases count
  {
    if count == 0 then Some([])
    else
      match ReadString(blob, pos)
      case None => None
      case Some(first) =>
        match DecodeValues(blob, first.1, count - 1)
        case None => None
        case Some(rest) => Some([first.0] + rest)
  }

  function DecodeRow(blob: string): Option<Row> {
    if |blob| < 4 then None else DecodeValues(blob, 4, GetU32(blob, 0))
  }

  predicate RowFitsFormat(values: Row) {
    |values| < U32 && forall i :: 0 <= i < |values| ==> |values[i]| < U32
  }

  lemma {:induction false} DecodesValues(blob: string, pos: nat, values: Row)
    requires HoldsAt(blob, pos, EncodeValues(values)) && forall i :: 0 <= i < |values| ==> |values[i]| < U32
    ensures DecodeValues(blob, pos, |values|) == Some(values)
    decreases |values|
  {
    hide ReadString, EncodeString;
    if values != [] {
      HoldsSplit(blob, pos, EncodeString(values[0]), EncodeValues(values[1..]));
      ReadsString(blob, pos, values[0]);
      DecodesValues(blob, pos + |EncodeString(values[0])|, values[1..]);
      assert [values[0]] + values[1..] == values;
    }
  }

  /** A stored row reads back unchanged, whatever bytes its values hold. */
  lemma RowRoundTrip(values: Row)
    requires RowFitsFormat(values)
    ensures DecodeRow(EncodeRow(values)) == Some(values)
  {
    hide GetU32, PutU32, EncodeValues, DecodeValues;
    var blob := EncodeRow(values);
    PutU32Size(|values|);
    HoldsSplit(blob, 0, PutU32(|values|), EncodeValues(values));
    HoldsU32(blob, 0, |values|);
    DecodesValues(blob, 4, values);
  }

  method EncodeRowLoop(values: Row) returns (blob: string)
    ensures blob == EncodeRow(values)
  {
    hide PutU32;
    blob := PutU32(|values|);
    var i := 0;
    assert values[0..] == values;
    while i < |values|
      invariant 0 <= i <= |values|
      invariant blob + EncodeValues(values[i..]) == EncodeRow(values)
    {
      assert values[i..][1..] == values[i + 1..];
      EncodeStep(blob, values[i..]);
      blob := blob + PutU32(|values[i]|);
      blob := blob + values[i];
      i := i + 1;
    }
    assert blob + "" == blob;
  }

  lemma EncodeStep(blob: string, values: Row)
    requires values != []
    ensures blob + EncodeValues(values) == blob + PutU32(|values[0]|) + values[0] + EncodeValues(values[1..])
  {
    hide PutU32;
  }

  function After(values: Row, rest: Option<Row>): Option<Row> {
    if rest.None? then None else Some(values + rest.value)
  }

  lemma AfterNothing(rest: Option<Row>)
    ensures After([], rest) == rest
  {
    if rest.Some? { assert [] + rest.value == rest.value; }
  }

  lemma AfterEverything(values: Row, blob: string, pos: nat)
    ensures After(values, DecodeValues(blob, pos, 0)) == Some(values)
  {
    assert values + [] == values;
  }

  lemma DecodeStep(values: Row, blob: string, pos: nat, count: nat)
    requires count > 0
    ensures After(values, DecodeValues(blob, pos, count)) ==
            match ReadString(blob, pos)
            case None => None
            case Some(first) => After(values + [first.0], DecodeValues(blob, first.1, count - 1))
  {
    hide ReadString;
    var first := ReadString(blob, pos);
    if first.Some? && DecodeValues(blob, first.value.1, count - 1).Some? {
      var rest := DecodeValues(blob, first.value.1, count - 1).value;
      assert values + ([first.value.0] + rest) == values + [first.value.0] + rest;
    }
  }

  method DecodeRowLoop(blob: string) returns (row: Option<Row>)
    ensures row == DecodeRow(blob)
  {
    hide GetU32, DecodeValues, After;
    if |blob| < 4 { return None; }
    var pos: nat, count: nat := 4, GetU32(blob, 0);
    var values: Row := [];
    AfterNothing(DecodeValues(blob, 4, count));
    var i: nat := 0;
    while i < count
      invariant 0 <= i <= count
      invariant DecodeRow(blob) == After(values, DecodeValues(blob, pos, count - i))
    {
      DecodeStep(values, blob, pos, count - i);
      if pos + 4 > |blob| { return None; }
      var len := GetU32(blob, pos);
      if pos + 4 + len > |blob| { return None; }
      values := values + [blob[pos + 4..pos + 4 + len]];
      pos := pos + 4 + len;
      i := i + 1;
    }
    AfterEverything(values, blob, pos);
    return Some(values);
  }

  // ------------------------------------------------------------------------------------------
  // Schemas
  // ------------------------------------------------------------------------------------------

  function Flag(b: bool): string { if b then [1 as char] else [0 as char] }

  function EncodeColumn(c: ColumnDef): string {
    EncodeString(c.name) + (Flag(c.columnType == Int) + Flag(c.primaryKey) + Flag(c.defaultValue.Some?)
      + if c.defaultValue.Some? then EncodeString(c.defaultValue.value) else "")
  }

  function ReadColumn(blob: string, pos: nat): (r: Read<ColumnDef>)
    ensures r.Some? ==> pos < r.value.1 <= |blob|
  {
    match ReadString(blob, pos)
    case None => None
    case Some(name) =>
      var at := name.1;
      if at + 3 > |blob| then None
      else
        var columnType := if blob[at] as int != 0 then Int else Text;
        var primary := blob[at + 1] as int != 0;
        if blob[at + 2] as int == 0 then Some((ColumnDef(name.0, columnType, primary, None), at + 3))
        else
          match ReadString(blob, at + 3)
          case None => None
          case Some(value) => Some((ColumnDef(name.0, columnType, primary, Some(value.0)), value.1))
  }

  function EncodeColumns(columns: seq<ColumnDef>): string
    decreases |columns|
  {
    if columns == [] then "" else EncodeColumn(columns[0]) + EncodeColumns(columns[1..])
  }

  function Serialize(schema: Schema): string { PutU32(|schema.columns|) + EncodeColumns(schema.columns) }

  function ReadColumns(blob: string, pos: nat, count: nat): Option<seq<ColumnDef>>
    decreases count
  {
    if count == 0 then Some([])
    else
      match ReadColumn(blob, pos)
      case None => None
      case Some(first) =>
        match ReadColumns(blob, first.1, count - 1)
        case None => None
        case Some(rest) => Some([first.0] + rest)
  }

  /** None also stands for the exception of an empty column list. */
  function Deserialize(blob: string): Option<Schema> {
    if |blob| < 4 then None
    else
      match ReadColumns(blob, 4, GetU32(blob, 0))
      case None => None
      case Some(columns) => if columns == [] then None else Some(Schema(columns))
  }

  predicate ColumnFitsFormat(c: ColumnDef) {
    |c.name| < U32 && (c.defaultValue.Some? ==> |c.defaultValue.value| < U32)
  }

  /** The three flag bytes of a column. */
  function Flags(c: ColumnDef): string { Flag(c.columnType == Int) + Flag(c.primaryKey) + Flag(c.defaultValue.Some?) }

  function DefaultBytes(c: ColumnDef): string { if c.defaultValue.Some? then EncodeString(c.defaultValue.value) else "" }

  lemma ReadsFlags(blob: string, at: nat, c: ColumnDef)
    requires HoldsAt(blob, at, Flags(c))
    ensures at + 3 <= |blob| && |Flags(c)| == 3
    ensures (blob[at] as int != 0) == (c.columnType == Int)
    ensures (blob[at + 1] as int != 0) == c.primaryKey
    ensures (blob[at + 2] as int != 0) == c.defaultValue.Some?
  {
    hide EncodeString;
    var flags := Flags(c);
    assert blob[at..at + 3] == flags;
    assert blob[at] == flags[0] && blob[at + 1] == flags[1] && blob[at + 2] == flags[2];
  }

  lemma ColumnParts(c: ColumnDef)
    ensures EncodeColumn(c) == EncodeString(c.name) + (Flags(c) + DefaultBytes(c))
  {
    hide EncodeString, Flag;
  }

  lemma ReadsColumn(blob: string, pos: nat, c: ColumnDef)
    requires HoldsAt(blob, pos, EncodeColumn(c)) && ColumnFitsFormat(c)
    ensures ReadColumn(blob, pos) == Some((c, pos + |EncodeColumn(c)|))
  {
    hide ReadString, EncodeString, EncodeColumn, HoldsAt, Flags;
    ColumnParts(c);
    var at := pos + |EncodeString(c.name)|;
    HoldsSplit(blob, pos, EncodeString(c.name), Flags(c) + DefaultBytes(c));
    HoldsSplit(blob, at, Flags(c), DefaultBytes(c));
    ReadsString(blob, pos, c.name);
    ReadsFlags(blob, at, c);
    if c.defaultValue.Some? { ReadsString(blob, at + 3, c.defaultValue.value); }
  }

  lemma {:induction false} ReadsColumns(blob: string, pos: nat, columns: seq<ColumnDef>)
    requires HoldsAt(blob, pos, EncodeColumns(columns)) && forall i :: 0 <= i < |columns| ==> ColumnFitsFormat(columns[i])
    ensures ReadColumns(blob, pos, |columns|) == Some(columns)
    decreases |columns|
  {
    hide ReadColumn, EncodeColumn, ColumnFitsFormat;
    if columns != [] {
      HoldsSplit(blob, pos, EncodeColumn(columns[0]), EncodeColumns(columns[1..]));
      ReadsColumn(blob, pos, columns[0]);
      ReadsColumns(blob, pos + |EncodeColumn(columns[0])|, columns[1..]);
      assert [columns[0]] + columns[1..] == columns;
    }
  }

  /** A schema within the format's lengths reads back unchanged exactly if it has a column. */
  lemma SchemaRoundTrip(schema: Schema)
    requires |schema.columns| < U32 && forall i :: 0 <= i < |schema.columns| ==> ColumnFitsFormat(schema.columns[i])
    ensures Deserialize(Serialize(schema)) == if schema.columns == [] then None else Some(schema)
  {
    hide GetU32, PutU32, EncodeColumns, ReadColumns, ColumnFitsFormat;
    var blob := Serialize(schema);
    PutU32Size(|schema.columns|);
    HoldsSplit(blob, 0, PutU32(|schema.columns|), EncodeColumns(schema.columns));
    HoldsU32(blob, 0, |schema.columns|);
    ReadsColumns(blob, 4, schema.columns);
  }
}
