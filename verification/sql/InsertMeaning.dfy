/** What definitions and INSERT put into the store, and when; what the two listings of names show; and which
    row a statement is pinned to. */
module SqlInsertMeaning {
  import opened Options
  import opened Strings
  import opened SortedStrings
  import opened SqlAst
  import opened SqlKeys
  import opened SqlNumbers
  import opened SqlExecution

  // ------------------------------------------------------------------------------------------
  // Insert
  // ------------------------------------------------------------------------------------------

  /** The i-th column of the statement is there, and the i-th value may go into it. */
  predicate Enterable(schema: Schema, columns: seq<string>, values: seq<string>, i: nat)
    requires i < |columns|
  {
    var j := ColumnIndex(schema, columns[i]);
    j.Some? && i < |values| && (schema.columns[j.value].columnType == Int ==> ValidInt(values[i]))
  }

  /** No two columns of the statement mean the same one. */
  predicate NoneTwice(schema: Schema, columns: seq<string>) {
    forall i, k :: 0 <= i < k < |columns| ==> ColumnIndex(schema, columns[i]) != ColumnIndex(schema, columns[k])
  }

  /** The values stand in the columns they are for. */
  ghost predicate Entered(schema: Schema, columns: seq<string>, values: seq<string>, row: Row) {
    forall i {:trigger columns[i]} :: 0 <= i < |columns| && i < |values| ==>
      var j := ColumnIndex(schema, columns[i]); j.Some? && j.value < |row| && row[j.value] == values[i]
  }

  /** The columns of the statement, after those filled already, can all be entered. */
  ghost predicate CanFill(schema: Schema, columns: seq<string>, values: seq<string>, filled: seq<bool>)
    requires |filled| == |schema.columns|
  {
    && (forall i :: 0 <= i < |columns| ==> Enterable(schema, columns, values, i) && !filled[ColumnIndex(schema, columns[i]).value])
    && NoneTwice(schema, columns)
  }

  lemma CanFillHead(schema: Schema, columns: seq<string>, values: seq<string>, filled: seq<bool>)
    requires |filled| == |schema.columns| && columns != []
    ensures CanFill(schema, columns, values, filled) <==>
              && Enterable(schema, columns, values, 0) && !filled[ColumnIndex(schema, columns[0]).value]
              && CanFill(schema, columns[1..], values[1..], filled[ColumnIndex(schema, columns[0]).value := true])
  {
    hide FirstIndex, ValidInt;
    if values != [] && ColumnIndex(schema, columns[0]).Some? {
      assert forall i :: 0 < i < |columns| ==> columns[i] == columns[1..][i - 1];
      assert forall i :: 0 < i < |values| ==> values[i] == values[1..][i - 1];
      var filled' := filled[ColumnIndex(schema, columns[0]).value := true];
      if CanFill(schema, columns, values, filled) {
        forall i | 0 <= i < |columns[1..]|
          ensures Enterable(schema, columns[1..], values[1..], i) && !filled'[ColumnIndex(schema, columns[1..][i]).value]
        {
          assert Enterable(schema, columns, values, i + 1);
        }
      }
      if Enterable(schema, columns, values, 0) && CanFill(schema, columns[1..], values[1..], filled') {
        forall i | 0 < i < |columns|
          ensures Enterable(schema, columns, values, i) && !filled[ColumnIndex(schema, columns[i]).value]
                  && ColumnIndex(schema, columns[i]) != ColumnIndex(schema, columns[0])
        {
          assert Enterable(schema, columns[1..], values[1..], i - 1) && !filled'[ColumnIndex(schema, columns[1..][i - 1]).value];
        }
        if !filled[ColumnIndex(schema, columns[0]).value] {
          forall i, k | 0 <= i < k < |columns| ensures ColumnIndex(schema, columns[i]) != ColumnIndex(schema, columns[k]) {
            if i > 0 { assert columns[i] == columns[1..][i - 1] && columns[k] == columns[1..][k - 1]; }
          }
        }
      }
    }
  }

  lemma {:induction false} FillMeaning(schema: Schema, columns: seq<string>, values: seq<string>, row: Row, filled: seq<bool>)
    requires |row| == |filled| == |schema.columns|
    ensures var f := FillRow(schema, columns, values, row, filled);
            && (f.Filling? <==> CanFill(schema, columns, values, filled))
            && (f.Filling? ==> |f.row| == |row| && Entered(schema, columns, values, f.row)
                               && forall j :: 0 <= j < |row| && filled[j] ==> f.row[j] == row[j])
    decreases |columns|
  {
    hide FirstIndex, ValidInt, CanFill;
    if columns == [] {
      NothingToFill(schema, values, filled);
    } else {
      CanFillHead(schema, columns, values, filled);
      var j := ColumnIndex(schema, columns[0]);
      if j.Some? && !filled[j.value] && values != [] {
        FillMeaning(schema, columns[1..], values[1..], row[j.value := values[0]], filled[j.value := true]);
        var f := FillRow(schema, columns, values, row, filled);
        if f.Filling? {
          forall i | 0 <= i < |columns| && i < |values|
            ensures var k := ColumnIndex(schema, columns[i]); k.Some? && k.value < |f.row| && f.row[k.value] == values[i]
          {
            if i > 0 { assert columns[i] == columns[1..][i - 1] && values[i] == values[1..][i - 1]; }
          }
        }
      }
    }
  }

  lemma NothingToFill(schema: Schema, values: seq<string>, filled: seq<bool>)
    requires |filled| == |schema.columns|
    ensures CanFill(schema, [], values, filled)
  {
  }

  /** INSERT may enter this row: it names every column, each once, with values that fit. */
  predicate Insertable(schema: Schema, columns: seq<string>, values: seq<string>) {
    && |columns| == |schema.columns| && NoneTwice(schema, columns)
    && forall i :: 0 <= i < |columns| ==> Enterable(schema, columns, values, i)
  }

  /** INSERT, by the cells before and after: it succeeds exactly if it names every column once with values that
      fit, and the row's key is free; then there is that one cell more, with each value in its column. Otherwise
      nothing changes. */
  lemma InsertMeaning(store: Store, db: string, table: string, columns: seq<string>, values: seq<string>) returns (row: Row)
    requires LoadSchema(store, db, table).Some? && PrimaryKeyIndex(LoadSchema(store, db, table).value).Some?
    ensures var schema := LoadSchema(store, db, table).value; var pk := PrimaryKeyIndex(schema).value;
            var (store', result) := Execute(store, Insert(db, table, columns, values));
            && |row| == |schema.columns| && (Insertable(schema, columns, values) ==> Entered(schema, columns, values, row))
            && (result.Ok? <==> Insertable(schema, columns, values) && RowKey(db, table, row[pk]) !in store)
            && (result.Ok? ==> result == Ok(Done) && store' == store[RowKey(db, table, row[pk]) := RowCell(row)])
            && (!result.Ok? ==> store' == store)
  {
    hide FillRow, FirstPrimary, RowKey, SchemaKey, CanFill, Entered, FirstIndex, ValidInt;
    var schema := LoadSchema(store, db, table).value;
    var n := |schema.columns|;
    row := Blank(n);
    if |columns| == n {
      FillMeaning(schema, columns, values, Blank(n), Unfilled(n));
      CanFillBlank(schema, columns, values);
      var f := InsertRow(schema, columns, values);
      if f.Filling? { row := f.row; }
    }
  }

  lemma CanFillBlank(schema: Schema, columns: seq<string>, values: seq<string>)
    requires |columns| == |schema.columns|
    ensures CanFill(schema, columns, values, Unfilled(|schema.columns|)) <==> Insertable(schema, columns, values)
  {
    hide FirstIndex, ValidInt, NoneTwice;
    var none := Unfilled(|schema.columns|);
    if Insertable(schema, columns, values) {
      forall i | 0 <= i < |columns| ensures Enterable(schema, columns, values, i) && !none[ColumnIndex(schema, columns[i]).value] {
        assert Enterable(schema, columns, values, i);
      }
    }
    if CanFill(schema, columns, values, none) {
      forall i | 0 <= i < |columns| ensures Enterable(schema, columns, values, i) {}
    }
  }

  // ------------------------------------------------------------------------------------------
  // Definitions
  // ------------------------------------------------------------------------------------------

  /** One cell more or another one, or nothing and an error. */
  ghost predicate Defines(store: Store, stmt: Statement, allowed: bool, key: string, cell: Cell) {
    var (store', result) := Execute(store, stmt);
    if allowed then result == Ok(Done) && store' == store[key := cell] else result.Failed? && store' == store
  }

  /** CREATE DATABASE and CREATE TABLE succeed exactly if the name is new, and the database there; ALTER TABLE
      exactly if the table is there, the column new, and a default given that fits its type. Each then leaves just
      its own cell. */
  lemma DefinitionsMeaning(store: Store, db: string, table: string, columns: seq<ColumnDef>, column: ColumnDef)
    ensures Defines(store, CreateDatabase(db), DatabaseKey(db) !in store, DatabaseKey(db), Marker)
    ensures Defines(store, CreateTable(db, table, columns), DatabaseKey(db) in store && SchemaKey(db, table) !in store,
                    SchemaKey(db, table), SchemaCell(Schema(columns)))
    ensures var schema := LoadSchema(store, db, table);
            Defines(store, AddColumn(db, table, column),
              && schema.Some? && (forall c :: c in schema.value.columns ==> c.name != column.name) && column.defaultValue.Some?
              && (column.columnType == Int ==> ValidInt(column.defaultValue.value)),
              SchemaKey(db, table), SchemaCell(Schema((if schema.Some? then schema.value.columns else []) + [column])))
  {
    hide FirstIndex, ValidInt, SchemaKey, DatabaseKey;
    var schema := LoadSchema(store, db, table);
    if schema.Some? && ColumnIndex(schema.value, column.name).Some? {
      assert schema.value.columns[ColumnIndex(schema.value, column.name).value] in schema.value.columns;
    }
  }

  // ------------------------------------------------------------------------------------------
  // Pinned rows
  // ------------------------------------------------------------------------------------------

  /** The i-th condition is the first that equates the key column with a literal. */
  ghost predicate Pins(name: string, where: seq<Condition>, i: nat) {
    && i < |where| && where[i].column == name && where[i].op == Eq
    && forall k :: 0 <= k < i ==> !(where[k].column == name && where[k].op == Eq)
  }

  lemma {:induction false} EqualityMeaning(name: string, where: seq<Condition>) returns (i: nat)
    ensures FindPkEquality(name, where).Some? ==> Pins(name, where, i) && FindPkEquality(name, where) == Some(where[i].literal)
    ensures FindPkEquality(name, where).None? ==> forall c :: c in where ==> !(c.column == name && c.op == Eq)
    decreases |where|
  {
    i := 0;
    if where != [] && !(where[0].column == name && where[0].op == Eq) {
      var later := EqualityMeaning(name, where[1..]);
      i := later + 1;
      assert forall k :: 0 < k < |where| ==> where[k] == where[1..][k - 1];
    }
  }

  /** The i-th column of an INSERT is the first to be the key column. */
  ghost predicate NamesKey(name: string, columns: seq<string>, values: seq<string>, i: nat) {
    i < |columns| && i < |values| && columns[i] == name && forall k :: 0 <= k < i ==> columns[k] != name
  }

  lemma {:induction false} KeyValueMeaning(name: string, columns: seq<string>, values: seq<string>) returns (i: nat)
    ensures FindPkValue(name, columns, values).Some? ==> NamesKey(name, columns, values, i) && FindPkValue(name, columns, values) == Some(values[i])
    ensures FindPkValue(name, columns, values).None? ==> forall k :: 0 <= k < |columns| && k < |values| ==> columns[k] != name
    decreases |columns|
  {
    i := 0;
    if columns != [] && values != [] && columns[0] != name {
      var later := KeyValueMeaning(name, columns[1..], values[1..]);
      i := later + 1;
      assert forall k :: 0 < k < |columns| ==> columns[k] == columns[1..][k - 1];
      assert forall k :: 0 < k < |values| ==> values[k] == values[1..][k - 1];
    }
  }

  /** The row a statement is about: none if its table or a key column is missing or the statement does not say;
      otherwise the one under the literal it first gives for the key column. */
  lemma PinnedMeaning(store: Store, stmt: Statement) returns (i: nat)
    requires stmt.Insert? || stmt.Select? || stmt.Update? || stmt.Delete?
    ensures var name := PkName(store, stmt.db, stmt.table); var key := TryExtractRowKey(store, stmt);
            && (name.None? ==> key.None?)
            && (name.Some? && stmt.Insert? ==>
                 if key.Some? then NamesKey(name.value, stmt.columns, stmt.values, i) && key == Some(RowKey(stmt.db, stmt.table, stmt.values[i]))
                 else forall k :: 0 <= k < |stmt.columns| && k < |stmt.values| ==> stmt.columns[k] != name.value)
            && (name.Some? && !stmt.Insert? ==>
                 if key.Some? then Pins(name.value, stmt.where, i) && key == Some(RowKey(stmt.db, stmt.table, stmt.where[i].literal))
                 else forall c :: c in stmt.where ==> !(c.column == name.value && c.op == Eq))
  {
    hide LoadSchema, FirstPrimary, FindPkEquality, FindPkValue, RowKey;
    i := 0;
    var name := PkName(store, stmt.db, stmt.table);
    if name.Some? {
      if stmt.Insert? { i := KeyValueMeaning(name.value, stmt.columns, stmt.values); }
      else { i := EqualityMeaning(name.value, stmt.where); }
    }
  }

  // ------------------------------------------------------------------------------------------
  // Listings of names
  // ------------------------------------------------------------------------------------------

  /** A common prefix does not matter to the order. */
  lemma {:induction false} LessConcat(prefix: string, a: string, b: string)
    ensures Less(prefix + a, prefix + b) == Less(a, b)
    decreases |prefix|
  {
    if prefix == [] {
      assert prefix + a == a && prefix + b == b;
    } else {
      LessConcat(prefix[1..], a, b);
      assert (prefix + a)[1..] == prefix[1..] + a && (prefix + b)[1..] == prefix[1..] + b;
    }
  }

  /** One name a row, in order, each once, and exactly those whose key is in the store. */
  ghost predicate ListsNames(store: Store, prefix: string, rows: seq<Row>) {
    && (forall r :: 0 <= r < |rows| ==> |rows[r]| == 1 && prefix + rows[r][0] in store)
    && (forall r, q :: 0 <= r < q < |rows| ==> Less(rows[r][0], rows[q][0]))
    && (forall name: string :: prefix + name in store ==> [name] in rows)
  }

  lemma {:induction false} SuffixesAre(keys: seq<string>, n: nat)
    ensures |Suffixes(keys, n)| == |keys|
    ensures forall i :: 0 <= i < |keys| ==> Suffixes(keys, n)[i] == [if n <= |keys[i]| then keys[i][n..] else ""]
    decreases |keys|
  {
    if keys != [] {
      SuffixesAre(keys[1..], n);
      assert forall i :: 0 < i < |keys| ==> keys[i] == keys[1..][i - 1];
    }
  }

  lemma ScannedName(store: Store, prefix: string, i: nat)
    requires i < |ScanKeys(store, prefix)|
    ensures var key := ScanKeys(store, prefix)[i]; |prefix| <= |key| && prefix + key[|prefix|..] == key && key in store
  {
    assert ScanKeys(store, prefix)[i] in KeysUnder(store, prefix);
  }

  lemma NameScanned(store: Store, prefix: string, name: string) returns (i: nat)
    requires prefix + name in store
    ensures i < |ScanKeys(store, prefix)| && ScanKeys(store, prefix)[i] == prefix + name
  {
    hide ScanKeys;
    assert prefix + name in KeysUnder(store, prefix);
    assert prefix + name in ScanKeys(store, prefix) by { InScan(store, prefix, prefix + name); }
    i :| 0 <= i < |ScanKeys(store, prefix)| && ScanKeys(store, prefix)[i] == prefix + name;
  }

  lemma InScan(store: Store, prefix: string, k: string)
    ensures k in ScanKeys(store, prefix) <==> k in KeysUnder(store, prefix)
    ensures AscendingKeys(ScanKeys(store, prefix))
  {
  }

  lemma ScanListsNames(store: Store, prefix: string)
    ensures ListsNames(store, prefix, Suffixes(ScanKeys(store, prefix), |prefix|))
  {
    hide Less, ScanKeys, Suffixes;
    var keys := ScanKeys(store, prefix);
    var rows := Suffixes(keys, |prefix|);
    SuffixesAre(keys, |prefix|);
    InScan(store, prefix, "");
    forall r | 0 <= r < |rows| ensures |rows[r]| == 1 && prefix + rows[r][0] in store { ScannedName(store, prefix, r); }
    forall r, q | 0 <= r < q < |rows| ensures Less(rows[r][0], rows[q][0]) {
      ScannedName(store, prefix, r);
      ScannedName(store, prefix, q);
      LessConcat(prefix, rows[r][0], rows[q][0]);
    }
    forall name: string | prefix + name in store ensures [name] in rows {
      var i := NameScanned(store, prefix, name);
      assert rows[i] == [name];
    }
  }

  /** SHOW TABLES lists exactly the tables of the database, by name. */
  lemma ShowTablesMeaning(store: Store, db: string)
    ensures var (store', result) := Execute(store, ShowTables(db));
            && store' == store && (result.Ok? <==> DatabaseKey(db) in store)
            && (result.Ok? ==> result.output.Listing? && result.output.headers == ["table"]
                               && ListsNames(store, "__schema__/" + db + "/", result.output.rows))
    ensures forall table: string :: "__schema__/" + db + "/" + table == SchemaKey(db, table)
  {
    hide ListsNames, Suffixes, ScanKeys, DatabaseKey;
    ScanListsNames(store, "__schema__/" + db + "/");
  }

  /** SHOW DATABASES lists exactly the databases, by name. */
  lemma ShowDatabasesMeaning(store: Store)
    ensures var (store', result) := Execute(store, ShowDatabases);
            && store' == store && result.Ok? && result.output.Listing? && result.output.headers == ["database"]
            && ListsNames(store, "__database__/", result.output.rows)
    ensures forall db: string :: "__database__/" + db == DatabaseKey(db)
  {
    hide ListsNames, Suffixes, ScanKeys;
    ScanListsNames(store, "__database__/");
  }
}
