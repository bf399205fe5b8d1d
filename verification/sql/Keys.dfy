/** How databases, tables and rows map onto the key space of the storage engine. */
module SqlKeys {
  import opened Strings

  function DatabaseKey(db: string): string { "__database__/" + db }

  function SchemaKey(db: string, table: string): string { "__schema__/" + db + "/" + table }

  function RowPrefix(db: string, table: string): string { "__row__/" + db + "/" + table + "/" }

  function RowKey(db: string, table: string, pk: string): string { RowPrefix(db, table) + pk }

  /** What every identifier satisfies. */
  predicate NameOk(name: string) { '/' !in name }

  // ------------------------------------------------------------------------------------------
  // Reading a row key back
  // ------------------------------------------------------------------------------------------

  const ROW_TAG: string := "__row__/"

  /** The part before the first slash. */
  function Head(s: string): string {
    if s == [] || s[0] == '/' then [] else [s[0]] + Head(s[1..])
  }

  /** The part after the first slash. */
  function Tail(s: string): string {
    if s == [] then [] else if s[0] == '/' then s[1..] else Tail(s[1..])
  }

  lemma {:induction false} HeadTail(name: string, rest: string)
    requires NameOk(name)
    ensures Head(name + "/" + rest) == name && Tail(name + "/" + rest) == rest
    decreases |name|
  {
    if name == [] {
      assert name + "/" + rest == "/" + rest;
    } else {
      HeadTail(name[1..], rest);
      assert (name + "/" + rest)[1..] == name[1..] + "/" + rest;
    }
  }

  predicate IsRowKey(k: string) { StartsWith(k, ROW_TAG) }

  lemma RowKeyIsRowKey(db: string, table: string, pk: string)
    ensures IsRowKey(RowKey(db, table, pk))
  {
    assert RowKey(db, table, pk)[..|ROW_TAG|] == ROW_TAG;
  }

  lemma PrefixedIsRowKey(db: string, table: string, k: string)
    requires StartsWith(k, RowPrefix(db, table))
    ensures IsRowKey(k)
  {
    assert k[..|ROW_TAG|] == RowPrefix(db, table)[..|ROW_TAG|] == ROW_TAG;
  }

  function KeyDb(k: string): string { if IsRowKey(k) then Head(k[|ROW_TAG|..]) else "" }

  function KeyTable(k: string): string { if IsRowKey(k) then Head(Tail(k[|ROW_TAG|..])) else "" }

  function KeyPk(k: string): string { if IsRowKey(k) then Tail(Tail(k[|ROW_TAG|..])) else "" }

  lemma RowKeyParts(db: string, table: string, pk: string)
    requires NameOk(db) && NameOk(table)
    ensures var k := RowKey(db, table, pk); IsRowKey(k) && KeyDb(k) == db && KeyTable(k) == table && KeyPk(k) == pk
  {
    var rest := table + "/" + pk;
    var k := RowKey(db, table, pk);
    assert k == ROW_TAG + (db + "/" + rest);
    assert k[|ROW_TAG|..] == db + "/" + rest;
    HeadTail(db, rest);
    HeadTail(table, pk);
  }

  /** A row key of some table. */
  predicate Shaped(k: string) {
    && NameOk(KeyDb(k)) && NameOk(KeyTable(k)) && k == RowKey(KeyDb(k), KeyTable(k), KeyPk(k))
  }

  lemma RowKeyShaped(db: string, table: string, pk: string)
    requires NameOk(db) && NameOk(table)
    ensures Shaped(RowKey(db, table, pk))
  {
    RowKeyParts(db, table, pk);
  }

  /** A table's prefix picks out exactly that table's row keys. */
  lemma PrefixSelects(db: string, table: string, k: string)
    requires NameOk(db) && NameOk(table)
    ensures StartsWith(k, RowPrefix(db, table)) <==> Shaped(k) && IsRowKey(k) && KeyDb(k) == db && KeyTable(k) == table
    ensures StartsWith(k, RowPrefix(db, table)) ==> k == RowKey(db, table, KeyPk(k))
  {
    var prefix := RowPrefix(db, table);
    if StartsWith(k, prefix) {
      var pk := k[|prefix|..];
      assert k == RowKey(db, table, pk);
      RowKeyParts(db, table, pk);
    }
  }

  /** The three kinds of keys never meet. */
  lemma KindsApart(k: string, db: string, table: string, name: string)
    ensures IsRowKey(k) ==> k != SchemaKey(db, table) && k != DatabaseKey(name)
    ensures SchemaKey(db, table) != DatabaseKey(name)
    ensures !IsRowKey(SchemaKey(db, table)) && !IsRowKey(DatabaseKey(name))
  {
    ThirdLetter(k);
    ThirdLetter(SchemaKey(db, table));
    ThirdLetter(DatabaseKey(name));
    assert SchemaKey(db, table)[2] == 's' && DatabaseKey(name)[2] == 'd';
  }

  lemma ThirdLetter(k: string)
    ensures IsRowKey(k) ==> k[2] == 'r'
  {
    assert IsRowKey(k) ==> k[..|ROW_TAG|][2] == k[2];
  }

  lemma SchemaKeyInjective(db: string, table: string, db': string, table': string)
    requires NameOk(db) && NameOk(db') && SchemaKey(db, table) == SchemaKey(db', table')
    ensures db == db' && table == table'
  {
    var tag := "__schema__/";
    assert SchemaKey(db, table) == tag + (db + "/" + table) && SchemaKey(db', table') == tag + (db' + "/" + table');
    assert SchemaKey(db, table)[|tag|..] == db + "/" + table;
    assert SchemaKey(db', table')[|tag|..] == db' + "/" + table';
    HeadTail(db, table);
    HeadTail(db', table');
  }
}
