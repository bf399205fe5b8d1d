/**
 What statements do, said of the cells before and after: which rows a where-clause picks, what SELECT shows
 of them, what UPDATE, DELETE and INSERT leave in the store, and which numbers literals stand for.
 */
module SqlMeaning {
  import opened Options
  import opened Strings
  import opened SortedStrings
  import opened SqlAst
  import opened SqlKeys
  import opened SqlNumbers
  import opened SqlExecution

  // ------------------------------------------------------------------------------------------
  // Columns and comparisons
  // ------------------------------------------------------------------------------------------

  /** The column a name means: the first that bears it. */
  ghost predicate Named(schema: Schema, name: string, j: nat) {
    j < |schema.columns| && schema.columns[j].name == name && forall k :: 0 <= k < j ==> schema.columns[k].name != name
  }

  lemma {:induction false} FirstNamed(columns: seq<ColumnDef>, name: string)
    ensures var i := FirstIndex(columns, name); i.Some? ==> forall k :: 0 <= k < i.value ==> columns[k].name != name
    decreases |columns|
  {
    if columns != [] && columns[0].name != name { FirstNamed(columns[1..], name); }
  }

  lemma NamedIff(schema: Schema, name: string, j: nat)
    ensures Named(schema, name, j) <==> ColumnIndex(schema, name) == Some(j)
  {
    hide FirstIndex;
    FirstNamed(schema.columns, name);
  }

  /** The six relations, on texts by their bytes and on numbers by their values. */
  predicate Stands(columnType: ColumnType, lhs: string, op: CompareOp, rhs: string)
    requires columnType == Int ==> ReadNumber(lhs).Some? && ReadNumber(rhs).Some?
  {
    match columnType
    case Text => (
      match op
      case Eq => lhs == rhs
      case Ne => lhs != rhs
      case Lt => Less(lhs, rhs)
      case Le => Less(lhs, rhs) || lhs == rhs
      case Gt => Less(rhs, lhs)
      case Ge => Less(rhs, lhs) || lhs == rhs)
    case Int =>
      var a, b := ReadNumber(lhs).value, ReadNumber(rhs).value;
      match op
      case Eq => a == b
      case Ne => a != b
      case Lt => a < b
      case Le => a <= b
      case Gt => a > b
      case Ge => a >= b
  }

  predicate Readable(columnType: ColumnType, value: string) { columnType == Int ==> ReadNumber(value).Some? }

  lemma StandsIff(columnType: ColumnType, lhs: string, op: CompareOp, rhs: string)
    ensures var holds := CompareLiterals(columnType, lhs, op, rhs);
            && (holds.Some? <==> Readable(columnType, lhs) && Readable(columnType, rhs))
            && (holds.Some? ==> (holds.value <==> Stands(columnType, lhs, op, rhs)))
  {
    hide ReadNumber, Less;
    LessTotal(lhs, rhs);
    LessIrreflexive(lhs);
    if Less(lhs, rhs) { LessAsymmetric(lhs, rhs); }
  }

  /** The condition can be evaluated on this row: its column is there and the numbers read. */
  predicate Evaluable(schema: Schema, row: Row, c: Condition) {
    var j := ColumnIndex(schema, c.column);
    && j.Some? && j.value < |row|
    && Readable(schema.columns[j.value].columnType, row[j.value]) && Readable(schema.columns[j.value].columnType, c.literal)
  }

  predicate Meets(schema: Schema, row: Row, c: Condition) {
    Evaluable(schema, row, c) &&
    var j := ColumnIndex(schema, c.column).value;
    Stands(schema.columns[j].columnType, row[j], c.op, c.literal)
  }

  predicate MeetsAll(schema: Schema, row: Row, where: seq<Condition>) { forall c :: c in where ==> Meets(schema, row, c) }

  /** Reading the conditions in order comes to one that cannot be evaluated. */
  ghost predicate Trips(schema: Schema, row: Row, where: seq<Condition>) {
    exists i :: 0 <= i < |where| && !Evaluable(schema, row, where[i]) && MeetsAll(schema, row, where[..i])
  }

  lemma MeetsHead(schema: Schema, row: Row, c: Condition, rest: seq<Condition>)
    ensures MeetsAll(schema, row, [c] + rest) <==> Meets(schema, row, c) && MeetsAll(schema, row, rest)
  {
    hide Meets;
  }

  lemma TripsHead(schema: Schema, row: Row, where: seq<Condition>)
    requires where != []
    ensures Trips(schema, row, where) <==> !Evaluable(schema, row, where[0]) || (Meets(schema, row, where[0]) && Trips(schema, row, where[1..]))
  {
    hide Evaluable, Meets, MeetsAll;
    var rest := where[1..];
    forall i | 0 < i <= |where| ensures MeetsAll(schema, row, where[..i]) <==> Meets(schema, row, where[0]) && MeetsAll(schema, row, rest[..i - 1]) {
      assert where[..i] == [where[0]] + rest[..i - 1];
      MeetsHead(schema, row, where[0], rest[..i - 1]);
    }
    NoConditions(schema, row);
    assert where[..0] == [];
    if Trips(schema, row, where) {
      var i :| 0 <= i < |where| && !Evaluable(schema, row, where[i]) && MeetsAll(schema, row, where[..i]);
      if i > 0 { assert rest[i - 1] == where[i]; }
    }
    if Meets(schema, row, where[0]) && Trips(schema, row, rest) {
      var i :| 0 <= i < |rest| && !Evaluable(schema, row, rest[i]) && MeetsAll(schema, row, rest[..i]);
      assert where[i + 1] == rest[i] && MeetsAll(schema, row, where[..i + 1]);
    }
  }

  /** A where-clause matches a row exactly if all of its conditions stand, and throws exactly if it comes to one
      that cannot be evaluated. */
  lemma {:induction false} WhereMeaning(schema: Schema, row: Row, where: seq<Condition>)
    ensures MatchesWhere(schema, row, where).Match? <==> MeetsAll(schema, row, where)
    ensures MatchesWhere(schema, row, where).Throws? <==> Trips(schema, row, where)
    decreases |where|
  {
    hide ReadNumber, Less, MeetsAll, Trips, FirstIndex, CompareLiterals, Stands, Readable;
    if where == [] {
      assert MeetsAll(schema, row, where) && !Trips(schema, row, where) by { NoConditions(schema, row); }
    } else {
      var c := where[0];
      var j := ColumnIndex(schema, c.column);
      TripsHead(schema, row, where);
      assert where == [c] + where[1..];
      MeetsHead(schema, row, c, where[1..]);
      if j.Some? && j.value < |row| { StandsIff(schema.columns[j.value].columnType, row[j.value], c.op, c.literal); }
      WhereMeaning(schema, row, where[1..]);
    }
  }

  lemma NoConditions(schema: Schema, row: Row)
    ensures MeetsAll(schema, row, []) && !Trips(schema, row, [])
  {
  }

  /** On a row as long as its schema, with known columns and readable numbers, nothing throws. */
  lemma WhereDecides(schema: Schema, row: Row, where: seq<Condition>)
    requires forall c :: c in where ==> Evaluable(schema, row, c)
    ensures MatchesWhere(schema, row, where) == if MeetsAll(schema, row, where) then Match else NoMatch
  {
    hide MatchesWhere, Evaluable, MeetsAll;
    WhereMeaning(schema, row, where);
  }

  // ------------------------------------------------------------------------------------------
  // Rows as they are seen
  // ------------------------------------------------------------------------------------------

  /** Every column a row lacks has a default. */
  predicate Complete(schema: Schema, row: Row) { forall j :: |row| <= j < |schema.columns| ==> schema.columns[j].defaultValue.Some? }

  /** The row with the defaults of the columns it lacks. */
  function Full(schema: Schema, row: Row): (full: Row)
    requires Complete(schema, row)
    ensures |full| == if |row| > |schema.columns| then |row| else |schema.columns|
  {
    var n := if |row| > |schema.columns| then |row| else |schema.columns|;
    seq(n, j requires 0 <= j < n => if j < |row| then row[j] else schema.columns[j].defaultValue.value)
  }

  lemma {:induction false} PadMeaning(schema: Schema, row: Row)
    ensures PadRow(schema, row) == if Complete(schema, row) then Some(Full(schema, row)) else None
    decreases |schema.columns| - |row|
  {
    if |row| < |schema.columns| {
      if schema.columns[|row|].defaultValue.Some? {
        var more := row + [schema.columns[|row|].defaultValue.value];
        PadMeaning(schema, more);
        assert Complete(schema, row) <==> Complete(schema, more);
        if Complete(schema, row) { assert Full(schema, row) == Full(schema, more); }
      }
    } else {
      assert Full(schema, row) == row;
    }
  }

  /** The row is seen and meets the where-clause. */
  predicate Picks(schema: Schema, row: Row, where: seq<Condition>) { Complete(schema, row) && MeetsAll(schema, Full(schema, row), where) }

  /** Looking at the row throws. */
  ghost predicate Throwing(schema: Schema, row: Row, where: seq<Condition>) { Complete(schema, row) ==> Trips(schema, Full(schema, row), where) }

  /** What the loops over a table's rows do with one row. */
  lemma RowVerdict(schema: Schema, row: Row, where: seq<Condition>)
    ensures PadRow(schema, row) == if Complete(schema, row) then Some(Full(schema, row)) else None
    ensures Complete(schema, row) ==>
              var v := MatchesWhere(schema, Full(schema, row), where);
              (v.Match? <==> Picks(schema, row, where)) && (v.Throws? <==> Throwing(schema, row, where))
    ensures Picks(schema, row, where) ==> Complete(schema, row) && !Throwing(schema, row, where)
    ensures !Complete(schema, row) ==> Throwing(schema, row, where)
  {
    hide Full, Complete, MatchesWhere, MeetsAll, Trips;
    PadMeaning(schema, row);
    if Complete(schema, row) { WhereMeaning(schema, Full(schema, row), where); }
  }

  // ------------------------------------------------------------------------------------------
  // Loops over entries
  // ------------------------------------------------------------------------------------------

  type Entries = seq<SqlExecution.Entry>

  ghost predicate KeysApart(es: Entries) { forall i, j :: 0 <= i < j < |es| ==> es[i].key != es[j].key }

  /** The loop over the entries comes to the first that throws, or through. */
  ghost predicate Stops(schema: Schema, es: Entries, where: seq<Condition>, n: nat) {
    && n <= |es| && (forall i :: 0 <= i < n ==> !Throwing(schema, es[i].row, where))
    && (n < |es| ==> Throwing(schema, es[n].row, where))
  }

  lemma StopsHead(schema: Schema, es: Entries, where: seq<Condition>, n: nat)
    requires es != [] && !Throwing(schema, es[0].row, where) && Stops(schema, es[1..], where, n)
    ensures Stops(schema, es, where, n + 1)
  {
    hide Throwing;
    forall i | 0 <= i < n + 1 ensures !Throwing(schema, es[i].row, where) {
      if i > 0 { assert es[i] == es[1..][i - 1]; }
    }
  }

  /** One of the first n entries has this key and is picked. */
  ghost predicate PickedAt(schema: Schema, es: Entries, where: seq<Condition>, n: nat, key: string)
    requires n <= |es|
  {
    exists i :: 0 <= i < n && es[i].key == key && Picks(schema, es[i].row, where)
  }

  lemma PickedHead(schema: Schema, es: Entries, where: seq<Condition>, n: nat, key: string)
    requires es != [] && n <= |es[1..]|
    ensures PickedAt(schema, es, where, n + 1, key) <==>
              (es[0].key == key && Picks(schema, es[0].row, where)) || PickedAt(schema, es[1..], where, n, key)
  {
    hide Picks;
    if PickedAt(schema, es, where, n + 1, key) {
      var i :| 0 <= i < n + 1 && es[i].key == key && Picks(schema, es[i].row, where);
      if i > 0 { assert es[1..][i - 1] == es[i]; }
    }
    if PickedAt(schema, es[1..], where, n, key) {
      var i :| 0 <= i < n && es[1..][i].key == key && Picks(schema, es[1..][i].row, where);
      assert es[i + 1] == es[1..][i];
    }
  }

  /** The picked of the first n entries are rewritten, and no other cell. */
  ghost predicate Rewrites(store: Store, store': Store, schema: Schema, es: Entries, where: seq<Condition>, changes: seq<(nat, string)>, n: nat)
    requires n <= |es|
  {
    && (forall i :: 0 <= i < n && Picks(schema, es[i].row, where) ==>
          es[i].key in store' && store'[es[i].key] == RowCell(Change(Full(schema, es[i].row), changes)))
    && (forall k :: !PickedAt(schema, es, where, n, k) ==> (k in store' <==> k in store) && (k in store' ==> store'[k] == store[k]))
  }

  lemma {:induction false} UpdateLoop(store: Store, schema: Schema, es: Entries, where: seq<Condition>, changes: seq<(nat, string)>, count: nat) returns (n: nat)
    requires KeysApart(es)
    ensures n <= |es| && Stops(schema, es, where, n)
    ensures var (store', result) := UpdateOver(store, schema, es, where, changes, count);
            Rewrites(store, store', schema, es, where, changes, n) && (result.Ok? <==> n == |es|)
            && (result.Ok? ==> result == Ok(Changed(count + |PickedKeys(schema, es, where)|)))
    decreases |es|
  {
    hide PadRow, MatchesWhere, Complete, Full, Picks, Throwing, Change, Rewrites, Stops;
    if es == [] {
      n := 0;
      NothingRewritten(store, schema, where, changes);
    } else {
      RowVerdict(schema, es[0].row, where);
      var rest := es[1..];
      if Throwing(schema, es[0].row, where) {
        n := 0;
        StopsAtOnce(schema, es, where);
        NoneRewritten(store, schema, es, where, changes);
      } else {
        CountHead(schema, es, where);
        if Picks(schema, es[0].row, where) {
          var store1 := store[es[0].key := RowCell(Change(Full(schema, es[0].row), changes))];
          n := UpdateLoop(store1, schema, rest, where, changes, count + 1);
          RewritesHead(store, store1, UpdateOver(store1, schema, rest, where, changes, count + 1).0, schema, es, where, changes, n);
        } else {
          n := UpdateLoop(store, schema, rest, where, changes, count);
          RewritesHead(store, store, UpdateOver(store, schema, rest, where, changes, count).0, schema, es, where, changes, n);
        }
        StopsHead(schema, es, where, n);
        n := n + 1;
      }
    }
  }

  lemma StopsAtOnce(schema: Schema, es: Entries, where: seq<Condition>)
    requires es == [] || Throwing(schema, es[0].row, where)
    ensures Stops(schema, es, where, 0)
  {
  }

  lemma NothingRewritten(store: Store, schema: Schema, where: seq<Condition>, changes: seq<(nat, string)>)
    ensures Rewrites(store, store, schema, [], where, changes, 0) && Stops(schema, [], where, 0) && PickedKeys(schema, [], where) == {}
  {
  }

  lemma NoneRewritten(store: Store, schema: Schema, es: Entries, where: seq<Condition>, changes: seq<(nat, string)>)
    ensures Rewrites(store, store, schema, es, where, changes, 0)
  {
  }

  lemma RewritesHead(store: Store, store1: Store, store': Store, schema: Schema, es: Entries, where: seq<Condition>, changes: seq<(nat, string)>, n: nat)
    requires es != [] && KeysApart(es) && n <= |es[1..]| && Rewrites(store1, store', schema, es[1..], where, changes, n)
    requires if Picks(schema, es[0].row, where) then store1 == store[es[0].key := RowCell(Change(Full(schema, es[0].row), changes))] else store1 == store
    ensures Rewrites(store, store', schema, es, where, changes, n + 1)
  {
    hide MeetsAll, Complete, Full, Change, PickedAt;
    forall k ensures PickedAt(schema, es, where, n + 1, k) <==> (es[0].key == k && Picks(schema, es[0].row, where)) || PickedAt(schema, es[1..], where, n, k) {
      PickedHead(schema, es, where, n, k);
    }
    NotPickedAgain(schema, es, where, n);
    forall i | 0 <= i < n + 1 && Picks(schema, es[i].row, where)
      ensures es[i].key in store' && store'[es[i].key] == RowCell(Change(Full(schema, es[i].row), changes))
    {
      if i > 0 { assert es[i] == es[1..][i - 1]; }
    }
  }

  lemma NotPickedAgain(schema: Schema, es: Entries, where: seq<Condition>, n: nat)
    requires es != [] && KeysApart(es) && n <= |es[1..]|
    ensures !PickedAt(schema, es[1..], where, n, es[0].key)
  {
    hide Picks;
  }

  /** The keys of the picked entries. */
  ghost function PickedKeys(schema: Schema, es: Entries, where: seq<Condition>): set<string> {
    set i | 0 <= i < |es| && Picks(schema, es[i].row, where) :: es[i].key
  }

  lemma CountHead(schema: Schema, es: Entries, where: seq<Condition>)
    requires es != [] && KeysApart(es)
    ensures |PickedKeys(schema, es, where)| == |PickedKeys(schema, es[1..], where)| + if Picks(schema, es[0].row, where) then 1 else 0
  {
    hide Picks;
    var rest := PickedKeys(schema, es[1..], where);
    assert es[0].key !in rest;
    forall k ensures k in PickedKeys(schema, es, where) <==> (k == es[0].key && Picks(schema, es[0].row, where)) || k in rest {
      if k in PickedKeys(schema, es, where) {
        var i :| 0 <= i < |es| && Picks(schema, es[i].row, where) && es[i].key == k;
        if i > 0 { assert es[1..][i - 1] == es[i]; }
      }
      if k in rest {
        var i :| 0 <= i < |es[1..]| && Picks(schema, es[1..][i].row, where) && es[1..][i].key == k;
        assert es[i + 1] == es[1..][i];
      }
    }
    assert PickedKeys(schema, es, where) == if Picks(schema, es[0].row, where) then rest + {es[0].key} else rest;
  }

  // ------------------------------------------------------------------------------------------
  // Assignments
  // ------------------------------------------------------------------------------------------

  /** The a-th change is the last for column j. */
  ghost predicate LastFor(changes: seq<(nat, string)>, j: nat, a: nat) {
    a < |changes| && changes[a].0 == j && forall b :: a < b < |changes| ==> changes[b].0 != j
  }

  lemma {:induction false} ChangeMeaning(row: Row, changes: seq<(nat, string)>, j: nat)
    requires j < |row|
    ensures forall a: nat :: LastFor(changes, j, a) ==> Change(row, changes)[j] == changes[a].1
    ensures (forall a :: 0 <= a < |changes| ==> changes[a].0 != j) ==> Change(row, changes)[j] == row[j]
    decreases |changes|
  {
    if changes != [] {
      var c, rest := changes[0], changes[1..];
      var row1 := if c.0 < |row| then row[c.0 := c.1] else row;
      ChangeMeaning(row1, rest, j);
      assert forall b :: 0 < b < |changes| ==> changes[b] == rest[b - 1];
      forall a: nat | LastFor(changes, j, a) ensures Change(row, changes)[j] == changes[a].1 {
        if a > 0 {
          assert LastFor(rest, j, a - 1);
        } else {
          assert forall b :: 0 <= b < |rest| ==> rest[b].0 != j by { assert forall b :: 0 <= b < |rest| ==> rest[b] == changes[b + 1]; }
        }
      }
    }
  }

  type Assignments = seq<(string, string)>

  /** UPDATE may assign this. */
  predicate Assignable(schema: Schema, assignment: (string, string)) {
    var j := ColumnIndex(schema, assignment.0);
    j.Some? && j != PrimaryKeyIndex(schema) && (schema.columns[j.value].columnType == Int ==> ValidInt(assignment.1))
  }

  lemma {:induction false} PlanMeaning(schema: Schema, assignments: Assignments)
    ensures PlanUpdate(schema, assignments).Plan? <==> forall a :: 0 <= a < |assignments| ==> Assignable(schema, assignments[a])
    ensures PlanUpdate(schema, assignments).Plan? ==>
              var changes := PlanUpdate(schema, assignments).changes;
              |changes| == |assignments|
              && forall a :: 0 <= a < |changes| ==> Some(changes[a].0) == ColumnIndex(schema, assignments[a].0) && changes[a].1 == assignments[a].1
    decreases |assignments|
  {
    hide FirstIndex, FirstPrimary, ValidInt;
    if assignments != [] {
      var rest := assignments[1..];
      PlanMeaning(schema, rest);
      assert forall a :: 0 < a < |assignments| ==> assignments[a] == rest[a - 1];
      if Assignable(schema, assignments[0]) && PlanUpdate(schema, rest).Plan? {
        forall a | 0 <= a < |assignments| ensures Assignable(schema, assignments[a]) { if a > 0 { assert Assignable(schema, rest[a - 1]); } }
      }
      if forall a :: 0 <= a < |assignments| ==> Assignable(schema, assignments[a]) {
        forall a | 0 <= a < |rest| ensures Assignable(schema, rest[a]) { assert rest[a] == assignments[a + 1]; }
      }
    }
  }

  /** The a-th assignment is the last to column j. */
  ghost predicate LastAssigned(schema: Schema, assignments: Assignments, j: nat, a: nat) {
    && a < |assignments| && ColumnIndex(schema, assignments[a].0) == Some(j)
    && forall b :: a < b < |assignments| ==> ColumnIndex(schema, assignments[b].0) != Some(j)
  }

  /** `updated` is `full` with the assigned columns holding the last literal assigned to them, all others as they were. */
  ghost predicate IsUpdate(schema: Schema, full: Row, assignments: Assignments, updated: Row) {
    && |updated| == |full|
    && (forall j: nat, a: nat :: j < |full| && LastAssigned(schema, assignments, j, a) ==> updated[j] == assignments[a].1)
    && (forall j: nat :: j < |full| && (forall a :: 0 <= a < |assignments| ==> ColumnIndex(schema, assignments[a].0) != Some(j)) ==> updated[j] == full[j])
  }

  lemma ChangesUpdate(schema: Schema, full: Row, assignments: Assignments)
    requires PlanUpdate(schema, assignments).Plan?
    ensures IsUpdate(schema, full, assignments, Change(full, PlanUpdate(schema, assignments).changes))
  {
    hide PlanUpdate, Change, FirstIndex;
    PlanMeaning(schema, assignments);
    var changes := PlanUpdate(schema, assignments).changes;
    forall j: nat, a: nat | j < |full| && LastAssigned(schema, assignments, j, a) ensures Change(full, changes)[j] == assignments[a].1 {
      ChangeMeaning(full, changes, j);
      assert LastFor(changes, j, a);
    }
    forall j: nat | j < |full| && (forall a :: 0 <= a < |assignments| ==> ColumnIndex(schema, assignments[a].0) != Some(j))
      ensures Change(full, changes)[j] == full[j]
    {
      ChangeMeaning(full, changes, j);
    }
  }

  // ------------------------------------------------------------------------------------------
  // A table
  // ------------------------------------------------------------------------------------------

  /** The row cells of a table. */
  predicate InTable(store: Store, db: string, table: string, k: string) { k in store && StartsWith(k, RowPrefix(db, table)) }

  /** No row of the table up to this key, in key order, throws. */
  ghost predicate Reached(store: Store, db: string, table: string, schema: Schema, where: seq<Condition>, k: string) {
    forall k' :: InTable(store, db, table, k') && (k' == k || Less(k', k)) ==> !Throwing(schema, RowAt(store, k'), where)
  }

  /** No row of the table throws at all. */
  ghost predicate Quiet(store: Store, db: string, table: string, schema: Schema, where: seq<Condition>) {
    forall k :: InTable(store, db, table, k) ==> !Throwing(schema, RowAt(store, k), where)
  }

  ghost predicate PickedIn(store: Store, db: string, table: string, schema: Schema, where: seq<Condition>, k: string) {
    InTable(store, db, table, k) && Picks(schema, RowAt(store, k), where)
  }

  lemma ScanIsTable(store: Store, db: string, table: string)
    ensures var keys := ScanKeys(store, RowPrefix(db, table)); var es := ScanRows(store, db, table);
            && AscendingKeys(keys) && (forall k :: k in keys <==> InTable(store, db, table, k))
            && |es| == |keys| && (forall i :: 0 <= i < |es| ==> es[i] == SqlExecution.Entry(keys[i], RowAt(store, keys[i]))) && KeysApart(es)
  {
    hide StartsWith, RowAt;
    var keys := ScanKeys(store, RowPrefix(db, table));
    forall i, j | 0 <= i < j < |keys| ensures keys[i] != keys[j] { LessIrreflexive(keys[i]); }
    forall k ensures k in keys <==> InTable(store, db, table, k) { assert k in keys <==> k in KeysUnder(store, RowPrefix(db, table)); }
  }

  /** Of the scanned rows, those reached are the first ones. */
  lemma ReachedIff(store: Store, db: string, table: string, schema: Schema, where: seq<Condition>, n: nat, i: nat)
    requires Stops(schema, ScanRows(store, db, table), where, n) && i < |ScanRows(store, db, table)|
    ensures Reached(store, db, table, schema, where, ScanRows(store, db, table)[i].key) <==> i < n
  {
    hide Throwing, ScanRows, ScanKeys, RowAt, InTable;
    ScanIsTable(store, db, table);
    var keys, es := ScanKeys(store, RowPrefix(db, table)), ScanRows(store, db, table);
    if i < n {
      forall k' | InTable(store, db, table, k') && (k' == keys[i] || Less(k', keys[i])) ensures !Throwing(schema, RowAt(store, k'), where) {
        var j :| 0 <= j < |keys| && keys[j] == k';
        LessIrreflexive(keys[i]);
        if j > i { LessTransitive(keys[i], keys[j], keys[i]); }
        assert es[j].row == RowAt(store, k');
      }
    } else {
      assert es[n].key == keys[n] && (keys[n] == keys[i] || Less(keys[n], keys[i]));
      assert Throwing(schema, RowAt(store, keys[n]), where) && keys[n] in keys;
    }
  }

  lemma QuietIff(store: Store, db: string, table: string, schema: Schema, where: seq<Condition>, n: nat)
    requires Stops(schema, ScanRows(store, db, table), where, n)
    ensures Quiet(store, db, table, schema, where) <==> n == |ScanRows(store, db, table)|
  {
    hide Throwing, ScanRows, ScanKeys, RowAt, InTable;
    ScanIsTable(store, db, table);
    var keys, es := ScanKeys(store, RowPrefix(db, table)), ScanRows(store, db, table);
    if n < |es| {
      assert Throwing(schema, RowAt(store, keys[n]), where) && keys[n] in keys;
    } else {
      forall k | InTable(store, db, table, k) ensures !Throwing(schema, RowAt(store, k), where) {
        var j :| 0 <= j < |keys| && keys[j] == k;
        assert es[j].row == RowAt(store, k);
      }
    }
  }

  /** A key is picked among the first n scanned rows exactly if it is picked in the table and reached. */
  lemma PickedReached(store: Store, db: string, table: string, schema: Schema, where: seq<Condition>, n: nat, k: string)
    requires Stops(schema, ScanRows(store, db, table), where, n) && n <= |ScanRows(store, db, table)|
    ensures PickedAt(schema, ScanRows(store, db, table), where, n, k)
       <==> PickedIn(store, db, table, schema, where, k) && Reached(store, db, table, schema, where, k)
  {
    hide ScanRows, ScanKeys, RowAt, InTable, Stops, Reached, Picks;
    ScanIsTable(store, db, table);
    var keys, es := ScanKeys(store, RowPrefix(db, table)), ScanRows(store, db, table);
    if PickedAt(schema, es, where, n, k) {
      var i :| 0 <= i < n && es[i].key == k && Picks(schema, es[i].row, where);
      ReachedIff(store, db, table, schema, where, n, i);
      assert keys[i] in keys;
    }
    if PickedIn(store, db, table, schema, where, k) && Reached(store, db, table, schema, where, k) {
      var i :| 0 <= i < |keys| && keys[i] == k;
      ReachedIff(store, db, table, schema, where, n, i);
      assert es[i].key == k && es[i].row == RowAt(store, k);
    }
  }

  /** The keys of the rows a where-clause picks. */
  ghost function PickedSet(store: Store, db: string, table: string, schema: Schema, where: seq<Condition>): set<string> {
    set k | k in store && PickedIn(store, db, table, schema, where, k)
  }

  lemma PickedSetIs(store: Store, db: string, table: string, schema: Schema, where: seq<Condition>)
    ensures PickedKeys(schema, ScanRows(store, db, table), where) == PickedSet(store, db, table, schema, where)
  {
    hide ScanRows, ScanKeys, RowAt, Picks;
    ScanIsTable(store, db, table);
    var keys, es := ScanKeys(store, RowPrefix(db, table)), ScanRows(store, db, table);
    forall k ensures k in PickedKeys(schema, es, where) <==> PickedIn(store, db, table, schema, where, k) && k in store {
      if k in PickedKeys(schema, es, where) {
        var i :| 0 <= i < |es| && Picks(schema, es[i].row, where) && es[i].key == k;
        assert keys[i] in keys;
      }
      if PickedIn(store, db, table, schema, where, k) {
        var i :| 0 <= i < |keys| && keys[i] == k;
        assert es[i].key == k && es[i].row == RowAt(store, k);
      }
    }
  }

  /** What UPDATE leaves under a key: in a row it picks, up to the first row that throws, the assigned columns
      hold the last literals assigned to them and the others what they showed; any other cell is as it was. */
  ghost predicate UpdatedCell(store: Store, store': Store, db: string, table: string, schema: Schema, assignments: Assignments, where: seq<Condition>, k: string)
    requires k in store && k in store'
  {
    if PickedIn(store, db, table, schema, where, k) && Reached(store, db, table, schema, where, k)
    then store'[k].RowCell? && IsUpdate(schema, Full(schema, RowAt(store, k)), assignments, store'[k].row)
    else store'[k] == store[k]
  }

  /** UPDATE, by the cells before and after. It succeeds exactly if no row of the table throws, and then
      answers with the number of rows it picked. */
  lemma UpdateMeaning(store: Store, db: string, table: string, assignments: Assignments, where: seq<Condition>)
    requires LoadSchema(store, db, table).Some?
    requires forall a :: 0 <= a < |assignments| ==> Assignable(LoadSchema(store, db, table).value, assignments[a])
    ensures var schema := LoadSchema(store, db, table).value; var (store', result) := Execute(store, Update(db, table, assignments, where));
            && store'.Keys == store.Keys
            && (forall k {:trigger UpdatedCell(store, store', db, table, schema, assignments, where, k)} | k in store ::
                  k in store' && UpdatedCell(store, store', db, table, schema, assignments, where, k))
            && (result.Ok? <==> Quiet(store, db, table, schema, where))
            && (result.Ok? ==> result == Ok(Changed(|PickedSet(store, db, table, schema, where)|)))
  {
    hide LoadSchema, PlanUpdate, UpdateOver, ScanRows, Picks, Reached, Quiet, Stops, PickedAt, IsUpdate, Complete, Full, RowAt, Change, PickedKeys,
         Assignable, PickedSet, InTable;
    var schema := LoadSchema(store, db, table).value;
    var es := ScanRows(store, db, table);
    PlanMeaning(schema, assignments);
    var changes := PlanUpdate(schema, assignments).changes;
    ScanIsTable(store, db, table);
    var n := UpdateLoop(store, schema, es, where, changes, 0);
    QuietIff(store, db, table, schema, where, n);
    PickedSetIs(store, db, table, schema, where);
    var store' := UpdateOver(store, schema, es, where, changes, 0).0;
    forall k ensures k in store' <==> k in store { KeyKept(store, store', db, table, schema, where, changes, n, k); }
    forall k | k in store ensures UpdatedCell(store, store', db, table, schema, assignments, where, k) {
      CellRewritten(store, store', db, table, schema, assignments, where, n, k);
    }
  }

  lemma KeyKept(store: Store, store': Store, db: string, table: string, schema: Schema, where: seq<Condition>, changes: seq<(nat, string)>, n: nat, k: string)
    requires n <= |ScanRows(store, db, table)| && Rewrites(store, store', schema, ScanRows(store, db, table), where, changes, n)
    ensures k in store' <==> k in store
  {
    hide ScanRows, Picks, Change, Full, RowAt, ScanKeys;
    ScanIsTable(store, db, table);
    var keys, es := ScanKeys(store, RowPrefix(db, table)), ScanRows(store, db, table);
    if PickedAt(schema, es, where, n, k) {
      var i :| 0 <= i < n && es[i].key == k && Picks(schema, es[i].row, where);
      assert keys[i] in keys;
    }
  }

  lemma CellRewritten(store: Store, store': Store, db: string, table: string, schema: Schema, assignments: Assignments, where: seq<Condition>, n: nat, k: string)
    requires k in store && k in store' && PlanUpdate(schema, assignments).Plan? && n <= |ScanRows(store, db, table)|
    requires Stops(schema, ScanRows(store, db, table), where, n)
    requires Rewrites(store, store', schema, ScanRows(store, db, table), where, PlanUpdate(schema, assignments).changes, n)
    ensures UpdatedCell(store, store', db, table, schema, assignments, where, k)
  {
    hide ScanRows, MeetsAll, Change, Complete, Full, RowAt, ScanKeys, Stops, Reached, IsUpdate, PlanUpdate;
    ScanIsTable(store, db, table);
    PickedReached(store, db, table, schema, where, n, k);
    var keys, es := ScanKeys(store, RowPrefix(db, table)), ScanRows(store, db, table);
    if PickedAt(schema, es, where, n, k) {
      var i :| 0 <= i < n && es[i].key == k && Picks(schema, es[i].row, where);
      assert es[i].row == RowAt(store, k);
      ChangesUpdate(schema, Full(schema, RowAt(store, k)), assignments);
    }
  }

  // ------------------------------------------------------------------------------------------
  // Delete
  // ------------------------------------------------------------------------------------------

  /** The picked of the first n entries are gone, and no other cell. */
  ghost predicate Removes(store: Store, store': Store, schema: Schema, es: Entries, where: seq<Condition>, n: nat)
    requires n <= |es|
  {
    forall k :: (k in store' <==> k in store && !PickedAt(schema, es, where, n, k)) && (k in store' ==> store'[k] == store[k])
  }

  lemma {:induction false} DeleteLoop(store: Store, schema: Schema, es: Entries, where: seq<Condition>, count: nat) returns (n: nat)
    requires KeysApart(es)
    ensures n <= |es| && Stops(schema, es, where, n)
    ensures var (store', result) := DeleteOver(store, schema, es, where, count);
            Removes(store, store', schema, es, where, n) && (result.Ok? <==> n == |es|)
            && (result.Ok? ==> result == Ok(Changed(count + |PickedKeys(schema, es, where)|)))
    decreases |es|
  {
    hide PadRow, MatchesWhere, Complete, Full, Picks, Throwing, Removes, Stops;
    if es == [] {
      n := 0;
      NothingRemoved(store, schema, [], where);
    } else {
      RowVerdict(schema, es[0].row, where);
      var rest := es[1..];
      if Throwing(schema, es[0].row, where) {
        n := 0;
        StopsAtOnce(schema, es, where);
        NothingRemoved(store, schema, es, where);
      } else {
        CountHead(schema, es, where);
        if Picks(schema, es[0].row, where) {
          n := DeleteLoop(store - {es[0].key}, schema, rest, where, count + 1);
          RemovesHead(store, DeleteOver(store - {es[0].key}, schema, rest, where, count + 1).0, schema, es, where, n);
        } else {
          n := DeleteLoop(store, schema, rest, where, count);
          RemovesHead(store, DeleteOver(store, schema, rest, where, count).0, schema, es, where, n);
        }
        StopsHead(schema, es, where, n);
        n := n + 1;
      }
    }
  }

  lemma NothingRemoved(store: Store, schema: Schema, es: Entries, where: seq<Condition>)
    ensures Removes(store, store, schema, es, where, 0)
    ensures es == [] ==> Stops(schema, es, where, 0) && PickedKeys(schema, es, where) == {}
  {
  }

  lemma RemovesHead(store: Store, store': Store, schema: Schema, es: Entries, where: seq<Condition>, n: nat)
    requires es != [] && KeysApart(es) && n <= |es[1..]|
    requires Removes(if Picks(schema, es[0].row, where) then store - {es[0].key} else store, store', schema, es[1..], where, n)
    ensures Removes(store, store', schema, es, where, n + 1)
  {
    hide Picks, PickedAt;
    forall k ensures PickedAt(schema, es, where, n + 1, k) <==> (es[0].key == k && Picks(schema, es[0].row, where)) || PickedAt(schema, es[1..], where, n, k) {
      PickedHead(schema, es, where, n, k);
    }
    NotPickedAgain(schema, es, where, n);
  }

  /** DELETE, by the cells before and after: exactly the rows it picks are gone, up to the first that throws. */
  lemma DeleteMeaning(store: Store, db: string, table: string, where: seq<Condition>)
    requires LoadSchema(store, db, table).Some?
    ensures var schema := LoadSchema(store, db, table).value; var (store', result) := Execute(store, Delete(db, table, where));
            && (forall k :: (k in store' <==> k in store && !(PickedIn(store, db, table, schema, where, k) && Reached(store, db, table, schema, where, k)))
                            && (k in store' ==> store'[k] == store[k]))
            && (result.Ok? <==> Quiet(store, db, table, schema, where))
            && (result.Ok? ==> result == Ok(Changed(|PickedSet(store, db, table, schema, where)|)))
  {
    hide LoadSchema, DeleteOver, ScanRows, PickedIn, Reached, Quiet, Stops, PickedAt, PickedKeys, PickedSet;
    var schema := LoadSchema(store, db, table).value;
    ScanIsTable(store, db, table);
    var n := DeleteLoop(store, schema, ScanRows(store, db, table), where, 0);
    QuietIff(store, db, table, schema, where, n);
    PickedSetIs(store, db, table, schema, where);
    forall k ensures PickedAt(schema, ScanRows(store, db, table), where, n, k)
                <==> PickedIn(store, db, table, schema, where, k) && Reached(store, db, table, schema, where, k)
    {
      PickedReached(store, db, table, schema, where, n, k);
    }
  }

  // ------------------------------------------------------------------------------------------
  // Select
  // ------------------------------------------------------------------------------------------

  ghost predicate InKeyOrder(es: Entries) { forall i, j :: 0 <= i < j < |es| ==> Less(es[i].key, es[j].key) }

  /** The picked entries, in key order. */
  ghost predicate Chooses(schema: Schema, es: Entries, where: seq<Condition>, chosen: Entries) {
    InKeyOrder(chosen) && forall e :: e in chosen <==> e in es && Picks(schema, e.row, where)
  }

  /** Each row of a listing is a chosen row, projected. */
  ghost predicate Projects(schema: Schema, chosen: Entries, indices: seq<nat>, rows: seq<Row>) {
    |rows| == |chosen| && forall r :: 0 <= r < |rows| ==> Complete(schema, chosen[r].row) && rows[r] == Pick(Full(schema, chosen[r].row), indices)
  }

  lemma ChoosesHead(schema: Schema, e: SqlExecution.Entry, rest: Entries, where: seq<Condition>, later: Entries)
    requires InKeyOrder([e] + rest) && Chooses(schema, rest, where, later)
    ensures Chooses(schema, [e] + rest, where, if Picks(schema, e.row, where) then [e] + later else later)
  {
    hide Picks, Less;
    forall x | x in later ensures Less(e.key, x.key) {
      var i :| 0 <= i < |rest| && rest[i] == x;
      assert ([e] + rest)[i + 1] == x && ([e] + rest)[0] == e;
    }
  }

  lemma {:induction false} SelectLoop(schema: Schema, es: Entries, where: seq<Condition>, indices: seq<nat>) returns (chosen: Entries)
    requires InKeyOrder(es)
    ensures var picked := SelectOver(schema, es, where, indices);
            && (picked.Picked? <==> forall e :: e in es ==> !Throwing(schema, e.row, where))
            && (picked.Picked? ==> Chooses(schema, es, where, chosen) && Projects(schema, chosen, indices, picked.rows))
    decreases |es|
  {
    hide PadRow, MatchesWhere, Complete, Full, Picks, Throwing, Pick, Chooses, Projects;
    if es == [] {
      chosen := [];
      NothingChosen(schema, where, indices);
    } else {
      var e, rest := es[0], es[1..];
      RowVerdict(schema, e.row, where);
      assert es == [e] + rest;
      chosen := SelectLoop(schema, rest, where, indices);
      var later := SelectOver(schema, rest, where, indices);
      if later.Picked? {
        ChoosesHead(schema, e, rest, where, chosen);
        if Picks(schema, e.row, where) { ProjectsHead(schema, e, chosen, indices, later.rows); }
      }
      if Picks(schema, e.row, where) { chosen := [e] + chosen; }
    }
  }

  lemma NothingChosen(schema: Schema, where: seq<Condition>, indices: seq<nat>)
    ensures Chooses(schema, [], where, []) && Projects(schema, [], indices, [])
  {
  }

  lemma ProjectsHead(schema: Schema, e: SqlExecution.Entry, chosen: Entries, indices: seq<nat>, rows: seq<Row>)
    requires Projects(schema, chosen, indices, rows) && Complete(schema, e.row)
    ensures Projects(schema, [e] + chosen, indices, [Pick(Full(schema, e.row), indices)] + rows)
  {
    hide Complete, Full, Pick;
  }

  lemma {:induction false} PickMeaning(row: Row, indices: seq<nat>)
    requires forall i :: 0 <= i < |indices| ==> indices[i] < |row|
    ensures |Pick(row, indices)| == |indices| && forall i :: 0 <= i < |indices| ==> Pick(row, indices)[i] == row[indices[i]]
    decreases |indices|
  {
    if indices != [] {
      PickMeaning(row, indices[1..]);
      assert forall i :: 0 < i < |indices| ==> indices[i] == indices[1..][i - 1];
    }
  }

  // What a column list asks for; the empty list is the star.

  function Width(schema: Schema, columns: seq<string>): nat { if columns == [] then |schema.columns| else |columns| }

  function SourceOf(schema: Schema, columns: seq<string>, c: nat): Option<nat>
    requires c < Width(schema, columns)
  {
    if columns == [] then Some(c) else ColumnIndex(schema, columns[c])
  }

  function HeaderOf(schema: Schema, columns: seq<string>, c: nat): string
    requires c < Width(schema, columns)
  {
    if columns == [] then schema.columns[c].name else columns[c]
  }

  predicate AllKnown(schema: Schema, columns: seq<string>) { forall name :: name in columns ==> ColumnIndex(schema, name).Some? }

  lemma {:induction false} ProjectMeaning(schema: Schema, columns: seq<string>)
    ensures Project(schema, columns).Projection? <==> AllKnown(schema, columns)
    ensures Project(schema, columns).Projection? ==>
              var indices := Project(schema, columns).indices;
              |indices| == |columns| && forall c :: 0 <= c < |indices| ==> Some(indices[c]) == ColumnIndex(schema, columns[c])
    decreases |columns|
  {
    hide FirstIndex;
    if columns != [] {
      ProjectMeaning(schema, columns[1..]);
      assert columns == [columns[0]] + columns[1..];
    }
  }

  lemma {:induction false} NamesMeaning(columns: seq<ColumnDef>)
    ensures |Names(columns)| == |columns| && forall c :: 0 <= c < |columns| ==> Names(columns)[c] == columns[c].name
    decreases |columns|
  {
    if columns != [] { NamesMeaning(columns[1..]); }
  }

  lemma WantedMeaning(schema: Schema, columns: seq<string>)
    ensures ProjectionOf(schema, columns).Projection? <==> AllKnown(schema, columns)
    ensures var headers := HeadersOf(schema, columns);
            |headers| == Width(schema, columns) && forall c :: 0 <= c < |headers| ==> headers[c] == HeaderOf(schema, columns, c)
    ensures ProjectionOf(schema, columns).Projection? ==>
              var indices := ProjectionOf(schema, columns).indices;
              |indices| == Width(schema, columns)
              && forall c :: 0 <= c < |indices| ==> indices[c] < |schema.columns| && Some(indices[c]) == SourceOf(schema, columns, c)
  {
    hide FirstIndex, Project;
    ProjectMeaning(schema, columns);
    NamesMeaning(schema.columns);
  }

  /** A row as a SELECT lists it. */
  ghost predicate ListedAs(schema: Schema, row: Row, columns: seq<string>, listed: Row) {
    && Complete(schema, row) && |listed| == Width(schema, columns)
    && forall c :: 0 <= c < |listed| ==>
         var j := SourceOf(schema, columns, c); j.Some? && j.value < |Full(schema, row)| && listed[c] == Full(schema, row)[j.value]
  }

  lemma ProjectsListed(schema: Schema, columns: seq<string>, row: Row)
    requires Complete(schema, row) && ProjectionOf(schema, columns).Projection?
    ensures ListedAs(schema, row, columns, Pick(Full(schema, row), ProjectionOf(schema, columns).indices))
  {
    hide ProjectionOf, Complete, SourceOf;
    WantedMeaning(schema, columns);
    PickMeaning(Full(schema, row), ProjectionOf(schema, columns).indices);
  }

  /** SELECT changes nothing. It succeeds exactly if the columns are known and no row throws, and then lists
      exactly the rows it picks, in key order, each with the wanted columns under their names. */
  lemma SelectMeaning(store: Store, db: string, table: string, columns: seq<string>, where: seq<Condition>) returns (keys: seq<string>)
    requires LoadSchema(store, db, table).Some?
    ensures var schema := LoadSchema(store, db, table).value; var (store', result) := Execute(store, Select(db, table, columns, where));
            && store' == store
            && (result.Ok? <==> AllKnown(schema, columns) && Quiet(store, db, table, schema, where))
            && (result.Ok? ==>
                  && result.output.Listing? && |result.output.headers| == Width(schema, columns)
                  && (forall c :: 0 <= c < Width(schema, columns) ==> result.output.headers[c] == HeaderOf(schema, columns, c)))
    ensures var schema := LoadSchema(store, db, table).value; var result := Execute(store, Select(db, table, columns, where)).1;
            result.Ok? && result.output.Listing? ==>
              && AscendingKeys(keys) && (forall k :: k in keys <==> PickedIn(store, db, table, schema, where, k))
              && |result.output.rows| == |keys|
              && forall r :: 0 <= r < |keys| ==> ListedAs(schema, RowAt(store, keys[r]), columns, result.output.rows[r])
  {
    hide LoadSchema, SelectOver, ScanRows, ScanKeys, Quiet, Picks, Throwing, ProjectionOf, HeadersOf, RowAt, InTable, ListedAs, HeaderOf, Width, AllKnown, Complete,
         Full, Pick;
    var schema := LoadSchema(store, db, table).value;
    keys := [];
    WantedMeaning(schema, columns);
    if ProjectionOf(schema, columns).Projection? {
      var indices := ProjectionOf(schema, columns).indices;
      ScanIsTable(store, db, table);
      var es, scanned := ScanRows(store, db, table), ScanKeys(store, RowPrefix(db, table));
      var chosen := SelectLoop(schema, es, where, indices);
      QuietScan(store, db, table, schema, where);
      keys := seq(|chosen|, r requires 0 <= r < |chosen| => chosen[r].key);
      var picked := SelectOver(schema, es, where, indices);
      if picked.Picked? {
        ChosenKeys(store, db, table, schema, where, chosen, keys);
        forall r | 0 <= r < |keys| ensures ListedAs(schema, RowAt(store, keys[r]), columns, picked.rows[r]) {
          ProjectsListed(schema, columns, RowAt(store, keys[r]));
        }
      }
    }
  }

  lemma QuietScan(store: Store, db: string, table: string, schema: Schema, where: seq<Condition>)
    ensures Quiet(store, db, table, schema, where) <==> forall e :: e in ScanRows(store, db, table) ==> !Throwing(schema, e.row, where)
    ensures InKeyOrder(ScanRows(store, db, table))
  {
    hide ScanRows, ScanKeys, Throwing, RowAt, InTable, Less;
    ScanIsTable(store, db, table);
    var es, keys := ScanRows(store, db, table), ScanKeys(store, RowPrefix(db, table));
    if forall e :: e in es ==> !Throwing(schema, e.row, where) {
      forall k | InTable(store, db, table, k) ensures !Throwing(schema, RowAt(store, k), where) {
        var i :| 0 <= i < |keys| && keys[i] == k;
        assert es[i] in es;
      }
    }
    if Quiet(store, db, table, schema, where) {
      forall e | e in es ensures !Throwing(schema, e.row, where) {
        var i :| 0 <= i < |es| && es[i] == e;
        assert keys[i] in keys;
      }
    }
  }

  lemma ChosenKeys(store: Store, db: string, table: string, schema: Schema, where: seq<Condition>, chosen: Entries, keys: seq<string>)
    requires Chooses(schema, ScanRows(store, db, table), where, chosen)
    requires |keys| == |chosen| && forall r :: 0 <= r < |keys| ==> keys[r] == chosen[r].key
    ensures AscendingKeys(keys) && forall k :: k in keys <==> PickedIn(store, db, table, schema, where, k)
    ensures forall r :: 0 <= r < |chosen| ==> chosen[r].row == RowAt(store, keys[r])
  {
    hide ScanRows, ScanKeys, Picks, RowAt, InTable, Less;
    ScanIsTable(store, db, table);
    var es, scanned := ScanRows(store, db, table), ScanKeys(store, RowPrefix(db, table));
    forall r | 0 <= r < |chosen| ensures chosen[r].row == RowAt(store, keys[r]) && PickedIn(store, db, table, schema, where, keys[r]) {
      assert chosen[r] in chosen;
      var i :| 0 <= i < |es| && es[i] == chosen[r];
      assert scanned[i] in scanned;
    }
    forall k | PickedIn(store, db, table, schema, where, k) ensures k in keys {
      var i :| 0 <= i < |scanned| && scanned[i] == k;
      assert es[i] in es && es[i] in chosen;
      var r :| 0 <= r < |chosen| && chosen[r] == es[i];
      assert keys[r] == k;
    }
  }
}
