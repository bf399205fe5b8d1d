/**
 The recursive-descent parser, as functions on the tokens still to be read, and that it undoes
 writing a statement out.
 */
module SqlParser {
  import opened Options
  import opened SqlAst
  import opened SqlLexer

  /** Thrown stands for an exception. */
  datatype Attempt<+T> = Read(value: T) | Thrown {
    predicate IsFailure() { Thrown? }
    function PropagateFailure<U>(): Attempt<U> requires IsFailure() { Thrown }
    function Extract(): T requires !IsFailure() { value }
  }

  /** What the lexer yields. */
  predicate Lexed(ts: seq<Token>) { Ended(ts) && Named(ts) }

  /** Something was read, and the end token was not. */
  predicate Leaves(ts: seq<Token>, rest: seq<Token>) { |rest| < |ts| && (Lexed(ts) ==> Lexed(rest)) }

  function UpperChar(c: char): char { if 'a' <= c <= 'z' then (c as int - 32) as char else c }

  function Upper(s: string): string { seq(|s|, i requires 0 <= i < |s| => UpperChar(s[i])) }

  predicate MatchesKeyword(t: Token, keyword: string) { t.kind == Identifier && Upper(t.text) == keyword }

  predicate MatchesSymbol(t: Token, symbol: string) { t.kind == Symbol && t.text == symbol }

  predicate CheckKeyword(ts: seq<Token>, keyword: string) { ts != [] && MatchesKeyword(ts[0], keyword) }

  predicate CheckSymbol(ts: seq<Token>, symbol: string) { ts != [] && MatchesSymbol(ts[0], symbol) }

  function Advance(ts: seq<Token>): (rest: seq<Token>)
    requires ts != [] && ts[0].kind != End
    ensures Leaves(ts, rest)
  {
    ts[1..]
  }

  function ExpectKeyword(ts: seq<Token>, keyword: string): (r: Attempt<seq<Token>>)
    ensures r.Read? ==> Leaves(ts, r.value)
  {
    if CheckKeyword(ts, keyword) then Read(Advance(ts)) else Thrown
  }

  function ExpectSymbol(ts: seq<Token>, symbol: string): (r: Attempt<seq<Token>>)
    ensures r.Read? ==> Leaves(ts, r.value)
  {
    if CheckSymbol(ts, symbol) then Read(Advance(ts)) else Thrown
  }

  function ExpectIdentifier(ts: seq<Token>): (r: Attempt<(string, seq<Token>)>)
    ensures r.Read? ==> Leaves(ts, r.value.1) && (Lexed(ts) ==> IsIdentifier(r.value.0))
  {
    if ts != [] && ts[0].kind == Identifier then Read((ts[0].text, Advance(ts))) else Thrown
  }

  function ExpectLiteral(ts: seq<Token>): (r: Attempt<(string, seq<Token>)>)
    ensures r.Read? ==> Leaves(ts, r.value.1)
  {
    if ts != [] && (ts[0].kind == TokenKind.Text || ts[0].kind == Number) then Read((ts[0].text, Advance(ts))) else Thrown
  }

  function SkipSemicolon(ts: seq<Token>): (rest: seq<Token>)
    ensures |rest| <= |ts| && (Lexed(ts) ==> Lexed(rest))
  {
    if CheckSymbol(ts, ";") then Advance(ts) else ts
  }

  function SkipKeyword(ts: seq<Token>, keyword: string): (rest: seq<Token>)
    ensures |rest| <= |ts| && (Lexed(ts) ==> Lexed(rest))
  {
    if CheckKeyword(ts, keyword) then Advance(ts) else ts
  }

  function ExpectTable(ts: seq<Token>): (r: Attempt<((string, string), seq<Token>)>)
    ensures r.Read? ==> Leaves(ts, r.value.1) && (Lexed(ts) ==> IsIdentifier(r.value.0.0) && IsIdentifier(r.value.0.1))
  {
    var (db, ts) :- ExpectIdentifier(ts);
    var ts :- ExpectSymbol(ts, ".");
    var (table, ts) :- ExpectIdentifier(ts);
    Read(((db, table), ts))
  }

  // ------------------------------------------------------------------------------------------
  // Lists
  // ------------------------------------------------------------------------------------------

  predicate NamesOk(names: seq<string>) { forall i :: 0 <= i < |names| ==> IsIdentifier(names[i]) }

  function ParseNames(ts: seq<Token>): (r: Attempt<(seq<string>, seq<Token>)>)
    ensures r.Read? ==> Leaves(ts, r.value.1) && r.value.0 != [] && (Lexed(ts) ==> NamesOk(r.value.0))
    decreases |ts|
  {
    var (name, ts) :- ExpectIdentifier(ts);
    if CheckSymbol(ts, ",") then
      var (names, ts) :- ParseNames(Advance(ts));
      Read(([name] + names, ts))
    else Read(([name], ts))
  }

  function ParseLiterals(ts: seq<Token>): (r: Attempt<(seq<string>, seq<Token>)>)
    ensures r.Read? ==> Leaves(ts, r.value.1) && r.value.0 != []
    decreases |ts|
  {
    var (literal, ts) :- ExpectLiteral(ts);
    if CheckSymbol(ts, ",") then
      var (literals, ts) :- ParseLiterals(Advance(ts));
      Read(([literal] + literals, ts))
    else Read(([literal], ts))
  }

  predicate AssignmentsOk(assignments: seq<(string, string)>) {
    forall i :: 0 <= i < |assignments| ==> IsIdentifier(assignments[i].0)
  }

  function ParseAssignments(ts: seq<Token>): (r: Attempt<(seq<(string, string)>, seq<Token>)>)
    ensures r.Read? ==> Leaves(ts, r.value.1) && r.value.0 != [] && (Lexed(ts) ==> AssignmentsOk(r.value.0))
    decreases |ts|
  {
    var (column, ts) :- ExpectIdentifier(ts);
    var ts :- ExpectSymbol(ts, "=");
    var (literal, ts) :- ExpectLiteral(ts);
    if CheckSymbol(ts, ",") then
      var (assignments, ts) :- ParseAssignments(Advance(ts));
      Read(([(column, literal)] + assignments, ts))
    else Read(([(column, literal)], ts))
  }

  function OpOf(symbol: string): Attempt<CompareOp> {
    if symbol == "=" then Read(Eq)
    else if symbol == "!=" then Read(Ne)
    else if symbol == "<" then Read(Lt)
    else if symbol == "<=" then Read(Le)
    else if symbol == ">" then Read(Gt)
    else if symbol == ">=" then Read(Ge)
    else Thrown
  }

  function ParseOp(ts: seq<Token>): (r: Attempt<(CompareOp, seq<Token>)>)
    ensures r.Read? ==> Leaves(ts, r.value.1)
  {
    if ts != [] && ts[0].kind == Symbol then
      var op :- OpOf(ts[0].text);
      Read((op, Advance(ts)))
    else Thrown
  }

  function ParseCondition(ts: seq<Token>): (r: Attempt<(Condition, seq<Token>)>)
    ensures r.Read? ==> Leaves(ts, r.value.1) && (Lexed(ts) ==> IsIdentifier(r.value.0.column))
  {
    var (column, ts) :- ExpectIdentifier(ts);
    var (op, ts) :- ParseOp(ts);
    var (literal, ts) :- ExpectLiteral(ts);
    Read((Condition(column, op, literal), ts))
  }

  predicate ConditionsOk(where: seq<Condition>) { forall i :: 0 <= i < |where| ==> IsIdentifier(where[i].column) }

  function ParseConditions(ts: seq<Token>): (r: Attempt<(seq<Condition>, seq<Token>)>)
    ensures r.Read? ==> Leaves(ts, r.value.1) && (Lexed(ts) ==> ConditionsOk(r.value.0))
    decreases |ts|
  {
    var (condition, ts) :- ParseCondition(ts);
    if CheckKeyword(ts, "AND") then
      var (conditions, ts) :- ParseConditions(Advance(ts));
      Read(([condition] + conditions, ts))
    else Read(([condition], ts))
  }

  function ParseWhere(ts: seq<Token>): (r: Attempt<(seq<Condition>, seq<Token>)>)
    ensures r.Read? ==> |r.value.1| <= |ts| && (Lexed(ts) ==> Lexed(r.value.1) && ConditionsOk(r.value.0))
  {
    if CheckKeyword(ts, "WHERE") then ParseConditions(Advance(ts)) else Read(([], ts))
  }

  // ------------------------------------------------------------------------------------------
  // Columns
  // ------------------------------------------------------------------------------------------

  function ParseType(ts: seq<Token>): (r: Attempt<(ColumnType, seq<Token>)>)
    ensures r.Read? ==> Leaves(ts, r.value.1)
  {
    var (name, ts) :- ExpectIdentifier(ts);
    if Upper(name) == "TEXT" then Read((ColumnType.Text, ts))
    else if Upper(name) == "INT" then Read((Int, ts))
    else Thrown
  }

  function ParsePrimary(ts: seq<Token>): (r: Attempt<(bool, seq<Token>)>)
    ensures r.Read? ==> |r.value.1| <= |ts| && (Lexed(ts) ==> Lexed(r.value.1))
  {
    if CheckKeyword(ts, "PRIMARY") then
      var ts :- ExpectKeyword(Advance(ts), "KEY");
      Read((true, ts))
    else Read((false, ts))
  }

  predicate DefinitionOk(column: ColumnDef) { IsIdentifier(column.name) && column.defaultValue.None? }

  predicate DefinitionsOk(columns: seq<ColumnDef>) { forall i :: 0 <= i < |columns| ==> DefinitionOk(columns[i]) }

  function PrimaryCount(columns: seq<ColumnDef>): nat {
    if columns == [] then 0 else (if columns[0].primaryKey then 1 else 0) + PrimaryCount(columns[1..])
  }

  function ParseDefinition(ts: seq<Token>): (r: Attempt<(ColumnDef, seq<Token>)>)
    ensures r.Read? ==> Leaves(ts, r.value.1) && (Lexed(ts) ==> DefinitionOk(r.value.0))
  {
    var (name, ts) :- ExpectIdentifier(ts);
    var (columnType, ts) :- ParseType(ts);
    var (primary, ts) :- ParsePrimary(ts);
    Read((ColumnDef(name, columnType, primary, None), ts))
  }

  /** `hasPk` says whether a primary key was seen before. */
  function ParseDefinitions(ts: seq<Token>, hasPk: bool): (r: Attempt<(seq<ColumnDef>, seq<Token>)>)
    ensures r.Read? ==>
              && Leaves(ts, r.value.1) && (Lexed(ts) ==> DefinitionsOk(r.value.0))
              && (if hasPk then 1 else 0) + PrimaryCount(r.value.0) <= 1
    decreases |ts|
  {
    var (column, ts) :- ParseDefinition(ts);
    if column.primaryKey && hasPk then Thrown
    else if CheckSymbol(ts, ",") then
      var (columns, ts) :- ParseDefinitions(Advance(ts), hasPk || column.primaryKey);
      Read(([column] + columns, ts))
    else Read(([column], ts))
  }

  // ------------------------------------------------------------------------------------------
  // Statements
  // ------------------------------------------------------------------------------------------

  /** The statements that have a text. */
  predicate Expressible(stmt: Statement) {
    match stmt
    case CreateDatabase(name) => IsIdentifier(name)
    case CreateTable(db, table, definitions) =>
      IsIdentifier(db) && IsIdentifier(table) && DefinitionsOk(definitions) && PrimaryCount(definitions) == 1
    case AddColumn(db, table, column) =>
      IsIdentifier(db) && IsIdentifier(table) && IsIdentifier(column.name) && column.defaultValue.Some? && !column.primaryKey
    case Insert(db, table, columns, values) =>
      IsIdentifier(db) && IsIdentifier(table) && NamesOk(columns) && columns != [] && |columns| == |values|
    case Select(db, table, columns, where) => IsIdentifier(db) && IsIdentifier(table) && NamesOk(columns) && ConditionsOk(where)
    case Update(db, table, assignments, where) =>
      IsIdentifier(db) && IsIdentifier(table) && AssignmentsOk(assignments) && assignments != [] && ConditionsOk(where)
    case Delete(db, table, where) => IsIdentifier(db) && IsIdentifier(table) && ConditionsOk(where)
    case ShowTables(db) => IsIdentifier(db)
    case ShowDatabases => true
  }

  type StatementRead = Attempt<(Statement, seq<Token>)>

  /** A statement with a text was read, and the end token was not. */
  predicate Reads(ts: seq<Token>, r: StatementRead) {
    r.Read? ==> Leaves(ts, r.value.1) && (Lexed(ts) ==> Expressible(r.value.0))
  }

  function ParseCreateDatabase(ts: seq<Token>): (r: StatementRead)
    ensures Reads(ts, r)
  {
    var ts :- ExpectKeyword(ts, "CREATE");
    var ts :- ExpectKeyword(ts, "DATABASE");
    var (name, ts) :- ExpectIdentifier(ts);
    Read((CreateDatabase(name), SkipSemicolon(ts)))
  }

  function ParseCreateTable(ts: seq<Token>): (r: StatementRead)
    ensures Reads(ts, r)
  {
    var ts :- ExpectKeyword(ts, "CREATE");
    var ts :- ExpectKeyword(ts, "TABLE");
    var ((db, table), ts) :- ExpectTable(ts);
    var ts :- ExpectSymbol(ts, "(");
    var (definitions, ts) :- ParseDefinitions(ts, false);
    var ts :- ExpectSymbol(ts, ")");
    if PrimaryCount(definitions) == 0 then Thrown else Read((CreateTable(db, table, definitions), SkipSemicolon(ts)))
  }

  function ParseAlterTable(ts: seq<Token>): (r: StatementRead)
    ensures Reads(ts, r)
  {
    var ts :- ExpectKeyword(ts, "ALTER");
    var ts :- ExpectKeyword(ts, "TABLE");
    var ((db, table), ts) :- ExpectTable(ts);
    var ts :- ExpectKeyword(ts, "ADD");
    var ts := SkipKeyword(ts, "COLUMN");
    var (name, ts) :- ExpectIdentifier(ts);
    var (columnType, ts) :- ParseType(ts);
    var ts :- ExpectKeyword(ts, "DEFAULT");
    var (literal, ts) :- ExpectLiteral(ts);
    Read((AddColumn(db, table, ColumnDef(name, columnType, false, Some(literal))), SkipSemicolon(ts)))
  }

  function ParseInsert(ts: seq<Token>): (r: StatementRead)
    ensures Reads(ts, r)
  {
    var ts :- ExpectKeyword(ts, "INSERT");
    var ts :- ExpectKeyword(ts, "INTO");
    var ((db, table), ts) :- ExpectTable(ts);
    var ts :- ExpectSymbol(ts, "(");
    var (columns, ts) :- ParseNames(ts);
    var ts :- ExpectSymbol(ts, ")");
    var ts :- ExpectKeyword(ts, "VALUES");
    var ts :- ExpectSymbol(ts, "(");
    var (values, ts) :- ParseLiterals(ts);
    var ts :- ExpectSymbol(ts, ")");
    if |columns| != |values| then Thrown else Read((Insert(db, table, columns, values), SkipSemicolon(ts)))
  }

  /** No columns stand for all of them. */
  function ParseSelected(ts: seq<Token>): (r: Attempt<(seq<string>, seq<Token>)>)
    ensures r.Read? ==> Leaves(ts, r.value.1) && (Lexed(ts) ==> NamesOk(r.value.0))
  {
    if CheckSymbol(ts, "*") then Read(([], Advance(ts))) else ParseNames(ts)
  }

  function ParseSelect(ts: seq<Token>): (r: StatementRead)
    ensures Reads(ts, r)
  {
    var ts :- ExpectKeyword(ts, "SELECT");
    var (columns, ts) :- ParseSelected(ts);
    var ts :- ExpectKeyword(ts, "FROM");
    var ((db, table), ts) :- ExpectTable(ts);
    var (where, ts) :- ParseWhere(ts);
    Read((Select(db, table, columns, where), SkipSemicolon(ts)))
  }

  function ParseUpdate(ts: seq<Token>): (r: StatementRead)
    ensures Reads(ts, r)
  {
    var ts :- ExpectKeyword(ts, "UPDATE");
    var ((db, table), ts) :- ExpectTable(ts);
    var ts :- ExpectKeyword(ts, "SET");
    var (assignments, ts) :- ParseAssignments(ts);
    var (where, ts) :- ParseWhere(ts);
    Read((Update(db, table, assignments, where), SkipSemicolon(ts)))
  }

  function ParseDelete(ts: seq<Token>): (r: StatementRead)
    ensures Reads(ts, r)
  {
    var ts :- ExpectKeyword(ts, "DELETE");
    var ts :- ExpectKeyword(ts, "FROM");
    var ((db, table), ts) :- ExpectTable(ts);
    var (where, ts) :- ParseWhere(ts);
    Read((Delete(db, table, where), SkipSemicolon(ts)))
  }

  function ParseShowTables(ts: seq<Token>): (r: StatementRead)
    ensures Reads(ts, r)
  {
    var ts :- ExpectKeyword(ts, "SHOW");
    var ts :- ExpectKeyword(ts, "TABLES");
    var ts :- ExpectKeyword(ts, "FROM");
    var (db, ts) :- ExpectIdentifier(ts);
    Read((ShowTables(db), SkipSemicolon(ts)))
  }

  function ParseShowDatabases(ts: seq<Token>): (r: StatementRead)
    ensures Reads(ts, r)
  {
    var ts :- ExpectKeyword(ts, "SHOW");
    var ts :- ExpectKeyword(ts, "DATABASES");
    Read((ShowDatabases, SkipSemicolon(ts)))
  }

  /** The second token tells statements with the same first word apart. */
  predicate SecondKeyword(ts: seq<Token>, keyword: string) { |ts| > 1 && MatchesKeyword(ts[1], keyword) }

  function ParseStatement(ts: seq<Token>): (r: StatementRead)
    ensures Reads(ts, r)
  {
    if CheckKeyword(ts, "CREATE") then
      if SecondKeyword(ts, "DATABASE") then ParseCreateDatabase(ts) else ParseCreateTable(ts)
    else if CheckKeyword(ts, "ALTER") then ParseAlterTable(ts)
    else if CheckKeyword(ts, "INSERT") then ParseInsert(ts)
    else if CheckKeyword(ts, "SELECT") then ParseSelect(ts)
    else if CheckKeyword(ts, "UPDATE") then ParseUpdate(ts)
    else if CheckKeyword(ts, "DELETE") then ParseDelete(ts)
    else if CheckKeyword(ts, "SHOW") then
      if SecondKeyword(ts, "DATABASES") then ParseShowDatabases(ts) else ParseShowTables(ts)
    else Thrown
  }

  /** From text to statement; anything after the statement is ignored. */
  function ParseText(sql: string): Attempt<Statement> {
    match Lex(sql)
    case None => Thrown
    case Some(ts) =>
      var (stmt, _) :- ParseStatement(ts);
      Read(stmt)
  }

  // ------------------------------------------------------------------------------------------
  // Writing statements
  // ------------------------------------------------------------------------------------------

  function Put(t: Token, rest: seq<Token>): (ts: seq<Token>)
    ensures ts != [] && ts[0] == t && ts[1..] == rest
    ensures Writable(t) && Finished(rest) ==> Finished(ts)
  {
    [t] + rest
  }

  function Word(text: string): Token { Token(Identifier, text) }

  function Sign(text: string): Token { Token(Symbol, text) }

  function Quote(text: string): Token { Token(TokenKind.Text, text) }

  // Each of these writes its argument before what follows it.

  function PrintTable(db: string, table: string, rest: seq<Token>): seq<Token> {
    Put(Word(db), Put(Sign("."), Put(Word(table), rest)))
  }

  function PrintNames(names: seq<string>, rest: seq<Token>): seq<Token>
    requires names != []
    decreases |names|
  {
    Put(Word(names[0]), if |names| == 1 then rest else Put(Sign(","), PrintNames(names[1..], rest)))
  }

  function PrintLiterals(literals: seq<string>, rest: seq<Token>): seq<Token>
    requires literals != []
    decreases |literals|
  {
    Put(Quote(literals[0]), if |literals| == 1 then rest else Put(Sign(","), PrintLiterals(literals[1..], rest)))
  }

  function PrintAssignments(assignments: seq<(string, string)>, rest: seq<Token>): seq<Token>
    requires assignments != []
    decreases |assignments|
  {
    Put(Word(assignments[0].0), Put(Sign("="), Put(Quote(assignments[0].1),
      if |assignments| == 1 then rest else Put(Sign(","), PrintAssignments(assignments[1..], rest)))))
  }

  function SymbolOf(op: CompareOp): string {
    match op
    case Eq => "="
    case Ne => "!="
    case Lt => "<"
    case Le => "<="
    case Gt => ">"
    case Ge => ">="
  }

  function PrintCondition(c: Condition, rest: seq<Token>): seq<Token> {
    Put(Word(c.column), Put(Sign(SymbolOf(c.op)), Put(Quote(c.literal), rest)))
  }

  function PrintConditions(where: seq<Condition>, rest: seq<Token>): seq<Token>
    requires where != []
    decreases |where|
  {
    PrintCondition(where[0], if |where| == 1 then rest else Put(Word("AND"), PrintConditions(where[1..], rest)))
  }

  function PrintWhere(where: seq<Condition>, rest: seq<Token>): seq<Token> {
    if where == [] then rest else Put(Word("WHERE"), PrintConditions(where, rest))
  }

  function TypeName(columnType: ColumnType): string { if columnType == Int then "INT" else "TEXT" }

  function PrintDefinition(column: ColumnDef, rest: seq<Token>): seq<Token> {
    Put(Word(column.name), Put(Word(TypeName(column.columnType)),
      if column.primaryKey then Put(Word("PRIMARY"), Put(Word("KEY"), rest)) else rest))
  }

  function PrintDefinitions(columns: seq<ColumnDef>, rest: seq<Token>): seq<Token>
    requires columns != []
    decreases |columns|
  {
    PrintDefinition(columns[0], if |columns| == 1 then rest else Put(Sign(","), PrintDefinitions(columns[1..], rest)))
  }

  function PrintCreateTable(db: string, table: string, definitions: seq<ColumnDef>, rest: seq<Token>): seq<Token>
    requires definitions != []
  {
    Put(Word("CREATE"), Put(Word("TABLE"), PrintTable(db, table,
      Put(Sign("("), PrintDefinitions(definitions, Put(Sign(")"), rest))))))
  }

  function PrintAddColumn(db: string, table: string, column: ColumnDef, literal: string, rest: seq<Token>): seq<Token> {
    Put(Word("ALTER"), Put(Word("TABLE"), PrintTable(db, table, Put(Word("ADD"), Put(Word("COLUMN"),
      Put(Word(column.name), Put(Word(TypeName(column.columnType)), Put(Word("DEFAULT"), Put(Quote(literal), rest)))))))))
  }

  function PrintInsert(db: string, table: string, columns: seq<string>, values: seq<string>, rest: seq<Token>): seq<Token>
    requires columns != [] && values != []
  {
    Put(Word("INSERT"), Put(Word("INTO"), PrintTable(db, table,
      Put(Sign("("), PrintNames(columns, Put(Sign(")"),
        Put(Word("VALUES"), Put(Sign("("), PrintLiterals(values, Put(Sign(")"), rest))))))))))
  }

  function PrintSelected(columns: seq<string>, rest: seq<Token>): seq<Token> {
    if columns == [] then Put(Sign("*"), rest) else PrintNames(columns, rest)
  }

  function PrintSelect(db: string, table: string, columns: seq<string>, where: seq<Condition>, rest: seq<Token>): seq<Token> {
    Put(Word("SELECT"), PrintSelected(columns, Put(Word("FROM"), PrintTable(db, table, PrintWhere(where, rest)))))
  }

  function PrintUpdate(db: string, table: string, assignments: seq<(string, string)>, where: seq<Condition>, rest: seq<Token>): seq<Token>
    requires assignments != []
  {
    Put(Word("UPDATE"), PrintTable(db, table, Put(Word("SET"), PrintAssignments(assignments, PrintWhere(where, rest)))))
  }

  function PrintDelete(db: string, table: string, where: seq<Condition>, rest: seq<Token>): seq<Token> {
    Put(Word("DELETE"), Put(Word("FROM"), PrintTable(db, table, PrintWhere(where, rest))))
  }

  function PrintStatement(stmt: Statement, rest: seq<Token>): seq<Token>
    requires Expressible(stmt)
  {
    match stmt
    case CreateDatabase(name) => Put(Word("CREATE"), Put(Word("DATABASE"), Put(Word(name), rest)))
    case CreateTable(db, table, definitions) => PrintCreateTable(db, table, definitions, rest)
    case AddColumn(db, table, column) => PrintAddColumn(db, table, column, column.defaultValue.value, rest)
    case Insert(db, table, columns, values) => PrintInsert(db, table, columns, values, rest)
    case Select(db, table, columns, where) => PrintSelect(db, table, columns, where, rest)
    case Update(db, table, assignments, where) => PrintUpdate(db, table, assignments, where, rest)
    case Delete(db, table, where) => PrintDelete(db, table, where, rest)
    case ShowTables(db) => Put(Word("SHOW"), Put(Word("TABLES"), Put(Word("FROM"), Put(Word(db), rest))))
    case ShowDatabases => Put(Word("SHOW"), Put(Word("DATABASES"), rest))
  }

  /** The end of a text, with a semicolon or without. */
  function Ending(semicolon: bool): seq<Token> { if semicolon then Put(Sign(";"), [END]) else [END] }

  function StatementText(stmt: Statement, semicolon: bool): string
    requires Expressible(stmt)
  {
    RenderAll(PrintStatement(stmt, Ending(semicolon)))
  }

  // ------------------------------------------------------------------------------------------
  // Reading it back
  // ------------------------------------------------------------------------------------------

  predicate Keyword(w: string) { w != [] && forall i :: 0 <= i < |w| ==> 'A' <= w[i] <= 'Z' }

  lemma SchemaKeywords()
    ensures Keyword("CREATE") && Keyword("DATABASE") && Keyword("TABLE") && Keyword("PRIMARY") && Keyword("KEY")
    ensures Keyword("ALTER") && Keyword("ADD") && Keyword("COLUMN") && Keyword("DEFAULT") && Keyword("TEXT") && Keyword("INT")
  {
  }

  lemma RowKeywords()
    ensures Keyword("INSERT") && Keyword("INTO") && Keyword("VALUES") && Keyword("SELECT") && Keyword("FROM") && Keyword("WHERE")
    ensures Keyword("AND") && Keyword("UPDATE") && Keyword("SET") && Keyword("DELETE") && Keyword("SHOW") && Keyword("TABLES")
    ensures Keyword("DATABASES")
  {
  }

  lemma KeywordReads(w: string)
    requires Keyword(w)
    ensures Upper(w) == w && IsIdentifier(w)
  {
  }

  /** A keyword matches itself and nothing else. */
  lemma WordMatches(w: string, keyword: string)
    requires Keyword(w)
    ensures MatchesKeyword(Word(w), keyword) <==> w == keyword
    ensures Writable(Word(w)) && !MatchesSymbol(Word(w), keyword)
  {
    hide Keyword, Upper, IsIdentifier;
    KeywordReads(w);
  }

  lemma WordReads(w: string, rest: seq<Token>)
    requires Keyword(w) && Finished(rest)
    ensures ExpectKeyword(Put(Word(w), rest), w) == Read(rest)
    ensures CheckKeyword(Put(Word(w), rest), w) && !CheckSymbol(Put(Word(w), rest), ",")
    ensures Finished(Put(Word(w), rest))
  {
    hide Keyword, Lexed, Finished, Writable, MatchesKeyword, Word;
    WordMatches(w, w);
    WordMatches(w, ",");
    assert !MatchesSymbol(Word(w), ",");
  }

  lemma SignReads(symbol: string, rest: seq<Token>)
    requires IsSymbol(symbol) && Finished(rest)
    ensures ExpectSymbol(Put(Sign(symbol), rest), symbol) == Read(rest)
    ensures CheckSymbol(Put(Sign(symbol), rest), symbol) && Finished(Put(Sign(symbol), rest))
    ensures forall keyword :: !CheckKeyword(Put(Sign(symbol), rest), keyword)
    ensures CheckSymbol(Put(Sign(symbol), rest), ",") <==> symbol == ","
  {
    hide Lexed, Finished, IsSymbol;
  }

  lemma NameReads(name: string, rest: seq<Token>)
    requires IsIdentifier(name) && Finished(rest)
    ensures ExpectIdentifier(Put(Word(name), rest)) == Read((name, rest)) && Finished(Put(Word(name), rest))
    ensures !CheckSymbol(Put(Word(name), rest), "*")
  {
    hide Lexed, Finished, IsIdentifier;
  }

  lemma QuoteReads(literal: string, rest: seq<Token>)
    requires Finished(rest)
    ensures ExpectLiteral(Put(Quote(literal), rest)) == Read((literal, rest)) && Finished(Put(Quote(literal), rest))
  {
    hide Lexed, Finished;
  }

  lemma Signs()
    ensures IsSymbol(".") && IsSymbol(",") && IsSymbol("=") && IsSymbol("(") && IsSymbol(")") && IsSymbol("*") && IsSymbol(";")
  {
  }

  lemma TableReads(db: string, table: string, rest: seq<Token>)
    requires IsIdentifier(db) && IsIdentifier(table) && Finished(rest)
    ensures ExpectTable(PrintTable(db, table, rest)) == Read(((db, table), rest)) && Finished(PrintTable(db, table, rest))
  {
    hide Lexed, Finished, IsIdentifier, IsSymbol, Put, ExpectIdentifier, ExpectSymbol, Writable;
    Signs();
    NameReads(table, rest);
    SignReads(".", Put(Word(table), rest));
    NameReads(db, Put(Sign("."), Put(Word(table), rest)));
  }

  lemma {:induction false} NamesRead(names: seq<string>, rest: seq<Token>)
    requires names != [] && NamesOk(names) && Finished(rest) && !CheckSymbol(rest, ",")
    ensures ParseNames(PrintNames(names, rest)) == Read((names, rest)) && Finished(PrintNames(names, rest))
    ensures !CheckSymbol(PrintNames(names, rest), "*")
    decreases |names|
  {
    hide Lexed, Finished, IsIdentifier, IsSymbol, Put, ExpectIdentifier, CheckSymbol, Advance;
    if |names| == 1 {
      NameReads(names[0], rest);
      assert [names[0]] == names;
    } else {
      NamesRead(names[1..], rest);
      var more := PrintNames(names[1..], rest);
      Commas(more);
      NameReads(names[0], Put(Sign(","), more));
      assert [names[0]] + names[1..] == names;
    }
  }

  lemma Commas(rest: seq<Token>)
    requires Finished(rest)
    ensures CheckSymbol(Put(Sign(","), rest), ",") && Finished(Put(Sign(","), rest)) && Advance(Put(Sign(","), rest)) == rest
  {
    hide Lexed, Finished, IsSymbol;
    Signs();
    SignReads(",", rest);
  }

  lemma {:induction false} LiteralsRead(literals: seq<string>, rest: seq<Token>)
    requires literals != [] && Finished(rest) && !CheckSymbol(rest, ",")
    ensures ParseLiterals(PrintLiterals(literals, rest)) == Read((literals, rest)) && Finished(PrintLiterals(literals, rest))
    decreases |literals|
  {
    hide Lexed, Finished, IsSymbol, Put, ExpectLiteral, CheckSymbol, Advance;
    if |literals| == 1 {
      QuoteReads(literals[0], rest);
      assert [literals[0]] == literals;
    } else {
      LiteralsRead(literals[1..], rest);
      var more := PrintLiterals(literals[1..], rest);
      Commas(more);
      QuoteReads(literals[0], Put(Sign(","), more));
      assert [literals[0]] + literals[1..] == literals;
    }
  }

  lemma AssignmentReads(name: string, literal: string, rest: seq<Token>)
    requires IsIdentifier(name) && Finished(rest)
    ensures var q := Put(Quote(literal), rest); var e := Put(Sign("="), q); var n := Put(Word(name), e);
            && ExpectIdentifier(n) == Read((name, e)) && ExpectSymbol(e, "=") == Read(q)
            && ExpectLiteral(q) == Read((literal, rest)) && Finished(n)
  {
    hide Lexed, Finished, IsSymbol, IsIdentifier, Put, ExpectLiteral, ExpectIdentifier, ExpectSymbol;
    Signs();
    QuoteReads(literal, rest);
    SignReads("=", Put(Quote(literal), rest));
    NameReads(name, Put(Sign("="), Put(Quote(literal), rest)));
  }

  lemma {:induction false} AssignmentsRead(assignments: seq<(string, string)>, rest: seq<Token>)
    requires assignments != [] && AssignmentsOk(assignments) && Finished(rest) && !CheckSymbol(rest, ",")
    ensures ParseAssignments(PrintAssignments(assignments, rest)) == Read((assignments, rest))
    ensures Finished(PrintAssignments(assignments, rest))
    decreases |assignments|
  {
    hide Lexed, Finished, IsIdentifier, IsSymbol, Put, ExpectIdentifier, ExpectLiteral, ExpectSymbol, CheckSymbol, Advance;
    var (name, literal) := assignments[0];
    if |assignments| == 1 {
      AssignmentReads(name, literal, rest);
      assert [(name, literal)] == assignments;
    } else {
      AssignmentsRead(assignments[1..], rest);
      var more := PrintAssignments(assignments[1..], rest);
      Commas(more);
      AssignmentReads(name, literal, Put(Sign(","), more));
      assert [(name, literal)] + assignments[1..] == assignments;
    }
  }

  lemma OpReads(op: CompareOp, rest: seq<Token>)
    requires Finished(rest)
    ensures var ts := Put(Sign(SymbolOf(op)), rest); ParseOp(ts) == Read((op, rest)) && Finished(ts)
  {
    hide Lexed, Finished;
    OpRead(op);
  }

  lemma OpRead(op: CompareOp)
    ensures OpOf(SymbolOf(op)) == Read(op) && IsSymbol(SymbolOf(op))
  {
  }

  lemma ConditionReads(c: Condition, rest: seq<Token>)
    requires IsIdentifier(c.column) && Finished(rest)
    ensures ParseCondition(PrintCondition(c, rest)) == Read((c, rest)) && Finished(PrintCondition(c, rest))
  {
    hide Lexed, Finished, IsSymbol, IsIdentifier, Put, ExpectLiteral, ExpectIdentifier, ParseOp, SymbolOf;
    QuoteReads(c.literal, rest);
    OpReads(c.op, Put(Quote(c.literal), rest));
    NameReads(c.column, Put(Sign(SymbolOf(c.op)), Put(Quote(c.literal), rest)));
  }

  lemma {:induction false} ConditionsRead(where: seq<Condition>, rest: seq<Token>)
    requires where != [] && ConditionsOk(where) && Finished(rest) && !CheckKeyword(rest, "AND")
    ensures ParseConditions(PrintConditions(where, rest)) == Read((where, rest)) && Finished(PrintConditions(where, rest))
    decreases |where|
  {
    hide Lexed, Finished, IsIdentifier, Put, ParseCondition, PrintCondition, CheckKeyword, Advance;
    if |where| == 1 {
      ConditionReads(where[0], rest);
      assert [where[0]] == where;
    } else {
      ConditionsRead(where[1..], rest);
      var more := PrintConditions(where[1..], rest);
      Skips("AND", more);
      ConditionReads(where[0], Put(Word("AND"), more));
      assert [where[0]] + where[1..] == where;
    }
  }

  lemma Skips(w: string, rest: seq<Token>)
    requires w in ["AND", "WHERE", "COLUMN", "PRIMARY"] && Finished(rest)
    ensures CheckKeyword(Put(Word(w), rest), w) && Finished(Put(Word(w), rest)) && Advance(Put(Word(w), rest)) == rest
    ensures !CheckSymbol(Put(Word(w), rest), ",")
  {
    hide Lexed, Finished, Keyword, IsSymbol;
    SchemaKeywords();
    RowKeywords();
    WordReads(w, rest);
  }

  /** A place where a statement may stop. */
  predicate Stops(rest: seq<Token>) {
    && Finished(rest) && !CheckSymbol(rest, ",") && !CheckKeyword(rest, "AND") && !CheckKeyword(rest, "WHERE")
  }

  lemma WhereReads(where: seq<Condition>, rest: seq<Token>)
    requires ConditionsOk(where) && Stops(rest)
    ensures ParseWhere(PrintWhere(where, rest)) == Read((where, rest)) && Finished(PrintWhere(where, rest))
    ensures !CheckSymbol(PrintWhere(where, rest), ",")
  {
    hide Lexed, Finished, ConditionsOk, Put, ParseConditions, PrintConditions, CheckKeyword, CheckSymbol, Advance;
    if where != [] {
      ConditionsRead(where, rest);
      Skips("WHERE", PrintConditions(where, rest));
    }
  }

  lemma TypeReads(columnType: ColumnType, rest: seq<Token>)
    requires Finished(rest)
    ensures var ts := Put(Word(TypeName(columnType)), rest); ParseType(ts) == Read((columnType, rest)) && Finished(ts)
  {
    hide Lexed, Finished, Keyword, Upper, IsIdentifier;
    SchemaKeywords();
    KeywordReads(TypeName(columnType));
    NameReads(TypeName(columnType), rest);
    assert "TEXT" != "INT";
  }

  lemma PrimaryReads(primary: bool, rest: seq<Token>)
    requires Finished(rest) && !CheckKeyword(rest, "PRIMARY")
    ensures var ts := if primary then Put(Word("PRIMARY"), Put(Word("KEY"), rest)) else rest;
            ParsePrimary(ts) == Read((primary, rest)) && Finished(ts)
  {
    hide Lexed, Finished, Keyword, Put, CheckKeyword, Advance, ExpectKeyword;
    SchemaKeywords();
    WordReads("KEY", rest);
    Skips("PRIMARY", Put(Word("KEY"), rest));
  }

  lemma DefinitionReads(column: ColumnDef, rest: seq<Token>)
    requires DefinitionOk(column) && Finished(rest) && !CheckKeyword(rest, "PRIMARY")
    ensures ParseDefinition(PrintDefinition(column, rest)) == Read((column, rest)) && Finished(PrintDefinition(column, rest))
  {
    hide Lexed, Finished, IsIdentifier, Put, ExpectIdentifier, ParseType, ParsePrimary, CheckKeyword, TypeName;
    var primary := if column.primaryKey then Put(Word("PRIMARY"), Put(Word("KEY"), rest)) else rest;
    PrimaryReads(column.primaryKey, rest);
    TypeReads(column.columnType, primary);
    NameReads(column.name, Put(Word(TypeName(column.columnType)), primary));
  }

  lemma {:induction false} DefinitionsRead(columns: seq<ColumnDef>, rest: seq<Token>, hasPk: bool)
    requires columns != [] && DefinitionsOk(columns) && (if hasPk then 1 else 0) + PrimaryCount(columns) <= 1
    requires Finished(rest) && !CheckKeyword(rest, "PRIMARY") && !CheckSymbol(rest, ",")
    ensures ParseDefinitions(PrintDefinitions(columns, rest), hasPk) == Read((columns, rest))
    ensures Finished(PrintDefinitions(columns, rest))
    decreases |columns|
  {
    hide Lexed, Finished, Put, ParseDefinition, PrintDefinition, DefinitionOk, CheckKeyword, CheckSymbol, Advance;
    if |columns| == 1 {
      DefinitionReads(columns[0], rest);
      assert [columns[0]] == columns;
    } else {
      DefinitionsRead(columns[1..], rest, hasPk || columns[0].primaryKey);
      var more := PrintDefinitions(columns[1..], rest);
      Commas(more);
      NotPrimary(",", more);
      DefinitionReads(columns[0], Put(Sign(","), more));
      assert [columns[0]] + columns[1..] == columns;
    }
  }

  lemma NotPrimary(symbol: string, rest: seq<Token>)
    ensures !CheckKeyword(Put(Sign(symbol), rest), "PRIMARY")
  {
  }

  /** How the first two words decide. */
  lemma Dispatched(first: string, rest: seq<Token>)
    requires first in ["CREATE", "ALTER", "INSERT", "SELECT", "UPDATE", "DELETE", "SHOW"]
    ensures var ts := Put(Word(first), rest);
            ParseStatement(ts) ==
            if first == "CREATE" then
              if rest != [] && MatchesKeyword(rest[0], "DATABASE") then ParseCreateDatabase(ts) else ParseCreateTable(ts)
            else if first == "ALTER" then ParseAlterTable(ts)
            else if first == "INSERT" then ParseInsert(ts)
            else if first == "SELECT" then ParseSelect(ts)
            else if first == "UPDATE" then ParseUpdate(ts)
            else if first == "DELETE" then ParseDelete(ts)
            else if rest != [] && MatchesKeyword(rest[0], "DATABASES") then ParseShowDatabases(ts) else ParseShowTables(ts)
  {
    hide Lexed, Finished, Keyword, MatchesKeyword, Word, ParseCreateDatabase, ParseCreateTable, ParseAlterTable, ParseInsert, ParseSelect,
      ParseUpdate, ParseDelete, ParseShowDatabases, ParseShowTables;
    SchemaKeywords();
    RowKeywords();
    var ts := Put(Word(first), rest);
    assert |ts| > 1 ==> ts[1] == ts[1..][0];
    FirstMatches(first);
  }

  lemma FirstMatches(w: string)
    requires Keyword(w)
    ensures forall keyword :: MatchesKeyword(Word(w), keyword) <==> w == keyword
  {
    hide Keyword, MatchesKeyword, Word;
    forall keyword ensures MatchesKeyword(Word(w), keyword) <==> w == keyword { WordMatches(w, keyword); }
  }

  lemma DispatchedByTwo(first: string, second: string, rest: seq<Token>)
    requires first in ["CREATE", "SHOW"] && Keyword(second)
    ensures var ts := Put(Word(first), Put(Word(second), rest));
            ParseStatement(ts) ==
            if first == "CREATE" then if second == "DATABASE" then ParseCreateDatabase(ts) else ParseCreateTable(ts)
            else if second == "DATABASES" then ParseShowDatabases(ts) else ParseShowTables(ts)
  {
    hide Lexed, Finished, Keyword, MatchesKeyword, Word, ParseCreateDatabase, ParseCreateTable, ParseAlterTable, ParseInsert, ParseSelect,
      ParseUpdate, ParseDelete, ParseShowDatabases, ParseShowTables, ParseStatement;
    FirstMatches(second);
    Dispatched(first, Put(Word(second), rest));
  }

  lemma SemicolonSkipped(semicolon: bool)
    ensures SkipSemicolon(Ending(semicolon)) == [END] && Stops(Ending(semicolon))
  {
    Signs();
    assert Finished([END]);
    if semicolon { SignReads(";", [END]); }
  }

  lemma CreateDatabaseReads(name: string, rest: seq<Token>)
    requires IsIdentifier(name) && Finished(rest)
    ensures var ts := Put(Word("CREATE"), Put(Word("DATABASE"), Put(Word(name), rest)));
            ParseStatement(ts) == Read((CreateDatabase(name), SkipSemicolon(rest))) && Finished(ts)
  {
    hide ParseStatement, Lexed, Finished, Keyword, IsIdentifier, Put, ExpectKeyword, ExpectIdentifier, SkipSemicolon;
    SchemaKeywords();
    var ts := Put(Word(name), rest);
    NameReads(name, rest);
    WordReads("DATABASE", ts);
    WordReads("CREATE", Put(Word("DATABASE"), ts));
    DispatchedByTwo("CREATE", "DATABASE", ts);
  }

  lemma CreateTableReads(db: string, table: string, definitions: seq<ColumnDef>, rest: seq<Token>)
    requires Expressible(CreateTable(db, table, definitions)) && Finished(rest)
    ensures ParseStatement(PrintCreateTable(db, table, definitions, rest)) ==
            Read((CreateTable(db, table, definitions), SkipSemicolon(rest)))
    ensures Finished(PrintCreateTable(db, table, definitions, rest))
  {
    hide ParseStatement, Lexed, Finished, Keyword, IsIdentifier, IsSymbol, Put, PrintTable, PrintDefinitions, DefinitionsOk, SkipSemicolon,
      ExpectKeyword, ExpectSymbol, ExpectTable, ParseDefinitions, CheckKeyword, CheckSymbol;
    SchemaKeywords();
    Signs();
    var close := Put(Sign(")"), rest);
    SignReads(")", rest);
    DefinitionsRead(definitions, close, false);
    var columns := PrintDefinitions(definitions, close);
    SignReads("(", columns);
    var open := Put(Sign("("), columns);
    TableReads(db, table, open);
    WordReads("TABLE", PrintTable(db, table, open));
    WordReads("CREATE", Put(Word("TABLE"), PrintTable(db, table, open)));
    DispatchedByTwo("CREATE", "TABLE", PrintTable(db, table, open));
  }

  lemma ColumnReads(column: ColumnDef, literal: string, rest: seq<Token>)
    requires IsIdentifier(column.name) && Finished(rest)
    ensures var q := Put(Quote(literal), rest); var d := Put(Word("DEFAULT"), q);
            var t := Put(Word(TypeName(column.columnType)), d); var n := Put(Word(column.name), t);
            && ExpectIdentifier(n) == Read((column.name, t)) && ParseType(t) == Read((column.columnType, d))
            && ExpectKeyword(d, "DEFAULT") == Read(q) && ExpectLiteral(q) == Read((literal, rest)) && Finished(n)
  {
    hide Lexed, Finished, Keyword, IsIdentifier, Put, TypeName, ExpectKeyword, ExpectIdentifier, ExpectLiteral, ParseType;
    SchemaKeywords();
    var q := Put(Quote(literal), rest);
    QuoteReads(literal, rest);
    WordReads("DEFAULT", q);
    var d := Put(Word("DEFAULT"), q);
    TypeReads(column.columnType, d);
    NameReads(column.name, Put(Word(TypeName(column.columnType)), d));
  }

  lemma AddColumnReads(db: string, table: string, column: ColumnDef, literal: string, rest: seq<Token>)
    requires IsIdentifier(db) && IsIdentifier(table) && IsIdentifier(column.name) && Finished(rest)
    ensures var ts := PrintAddColumn(db, table, column, literal, rest);
            && ParseStatement(ts) ==
               Read((AddColumn(db, table, ColumnDef(column.name, column.columnType, false, Some(literal))), SkipSemicolon(rest)))
            && Finished(ts)
  {
    hide ParseStatement, Lexed, Finished, Keyword, IsIdentifier, IsSymbol, Put, PrintTable, SkipSemicolon, TypeName,
      ExpectKeyword, ExpectIdentifier, ExpectLiteral, ExpectTable, ParseType, CheckKeyword, Advance;
    SchemaKeywords();
    ColumnReads(column, literal, rest);
    var name := Put(Word(column.name), Put(Word(TypeName(column.columnType)), Put(Word("DEFAULT"), Put(Quote(literal), rest))));
    Skips("COLUMN", name);
    WordReads("ADD", Put(Word("COLUMN"), name));
    var add := Put(Word("ADD"), Put(Word("COLUMN"), name));
    TableReads(db, table, add);
    WordReads("TABLE", PrintTable(db, table, add));
    WordReads("ALTER", Put(Word("TABLE"), PrintTable(db, table, add)));
    Dispatched("ALTER", Put(Word("TABLE"), PrintTable(db, table, add)));
  }

  lemma InsertReads(db: string, table: string, columns: seq<string>, values: seq<string>, rest: seq<Token>)
    requires Expressible(Insert(db, table, columns, values)) && Finished(rest)
    ensures ParseStatement(PrintInsert(db, table, columns, values, rest)) == Read((Insert(db, table, columns, values), SkipSemicolon(rest)))
    ensures Finished(PrintInsert(db, table, columns, values, rest))
  {
    hide ParseStatement, Lexed, Finished, Keyword, IsIdentifier, IsSymbol, NamesOk, Put, PrintTable, PrintNames, PrintLiterals, SkipSemicolon,
      ExpectKeyword, ExpectSymbol, ExpectTable, ParseNames, ParseLiterals, CheckSymbol;
    RowKeywords();
    Signs();
    var close := Put(Sign(")"), rest);
    SignReads(")", rest);
    LiteralsRead(values, close);
    var open := Put(Sign("("), PrintLiterals(values, close));
    SignReads("(", PrintLiterals(values, close));
    WordReads("VALUES", open);
    var close1 := Put(Sign(")"), Put(Word("VALUES"), open));
    SignReads(")", Put(Word("VALUES"), open));
    NamesRead(columns, close1);
    var open1 := Put(Sign("("), PrintNames(columns, close1));
    SignReads("(", PrintNames(columns, close1));
    TableReads(db, table, open1);
    WordReads("INTO", PrintTable(db, table, open1));
    WordReads("INSERT", Put(Word("INTO"), PrintTable(db, table, open1)));
    Dispatched("INSERT", Put(Word("INTO"), PrintTable(db, table, open1)));
  }

  lemma SelectedReads(columns: seq<string>, rest: seq<Token>)
    requires NamesOk(columns) && Finished(rest) && !CheckSymbol(rest, ",")
    ensures ParseSelected(PrintSelected(columns, rest)) == Read((columns, rest)) && Finished(PrintSelected(columns, rest))
  {
    hide Lexed, Finished, IsSymbol, NamesOk, PrintNames, ParseNames;
    Signs();
    if columns == [] { SignReads("*", rest); } else { NamesRead(columns, rest); }
  }

  lemma SelectReads(db: string, table: string, columns: seq<string>, where: seq<Condition>, rest: seq<Token>)
    requires Expressible(Select(db, table, columns, where)) && Stops(rest)
    ensures ParseStatement(PrintSelect(db, table, columns, where, rest)) == Read((Select(db, table, columns, where), SkipSemicolon(rest)))
    ensures Finished(PrintSelect(db, table, columns, where, rest))
  {
    hide ParseStatement, Lexed, Finished, Stops, Keyword, IsIdentifier, NamesOk, ConditionsOk, Put, PrintTable, PrintSelected, PrintWhere, SkipSemicolon,
      ExpectKeyword, ExpectTable, ParseSelected, ParseWhere, CheckSymbol;
    RowKeywords();
    WhereReads(where, rest);
    TableReads(db, table, PrintWhere(where, rest));
    var rows := PrintTable(db, table, PrintWhere(where, rest));
    WordReads("FROM", rows);
    SelectedReads(columns, Put(Word("FROM"), rows));
    WordReads("SELECT", PrintSelected(columns, Put(Word("FROM"), rows)));
    Dispatched("SELECT", PrintSelected(columns, Put(Word("FROM"), rows)));
  }

  lemma UpdateReads(db: string, table: string, assignments: seq<(string, string)>, where: seq<Condition>, rest: seq<Token>)
    requires Expressible(Update(db, table, assignments, where)) && Stops(rest)
    ensures ParseStatement(PrintUpdate(db, table, assignments, where, rest)) ==
            Read((Update(db, table, assignments, where), SkipSemicolon(rest)))
    ensures Finished(PrintUpdate(db, table, assignments, where, rest))
  {
    hide ParseStatement, Lexed, Finished, Stops, Keyword, IsIdentifier, AssignmentsOk, ConditionsOk, Put, PrintTable, PrintAssignments, PrintWhere,
      SkipSemicolon, ExpectKeyword, ExpectTable, ParseAssignments, ParseWhere, CheckSymbol;
    RowKeywords();
    WhereReads(where, rest);
    AssignmentsRead(assignments, PrintWhere(where, rest));
    var changes := PrintAssignments(assignments, PrintWhere(where, rest));
    WordReads("SET", changes);
    TableReads(db, table, Put(Word("SET"), changes));
    WordReads("UPDATE", PrintTable(db, table, Put(Word("SET"), changes)));
    Dispatched("UPDATE", PrintTable(db, table, Put(Word("SET"), changes)));
  }

  lemma DeleteReads(db: string, table: string, where: seq<Condition>, rest: seq<Token>)
    requires Expressible(Delete(db, table, where)) && Stops(rest)
    ensures ParseStatement(PrintDelete(db, table, where, rest)) == Read((Delete(db, table, where), SkipSemicolon(rest)))
    ensures Finished(PrintDelete(db, table, where, rest))
  {
    hide ParseStatement, Lexed, Finished, Stops, Keyword, IsIdentifier, ConditionsOk, Put, PrintTable, PrintWhere, SkipSemicolon,
      ExpectKeyword, ExpectTable, ParseWhere;
    RowKeywords();
    WhereReads(where, rest);
    TableReads(db, table, PrintWhere(where, rest));
    WordReads("FROM", PrintTable(db, table, PrintWhere(where, rest)));
    WordReads("DELETE", Put(Word("FROM"), PrintTable(db, table, PrintWhere(where, rest))));
    Dispatched("DELETE", Put(Word("FROM"), PrintTable(db, table, PrintWhere(where, rest))));
  }

  lemma ShowTablesReads(db: string, rest: seq<Token>)
    requires IsIdentifier(db) && Finished(rest)
    ensures var ts := Put(Word("SHOW"), Put(Word("TABLES"), Put(Word("FROM"), Put(Word(db), rest))));
            ParseStatement(ts) == Read((ShowTables(db), SkipSemicolon(rest))) && Finished(ts)
  {
    hide ParseStatement, Lexed, Finished, Keyword, IsIdentifier, Put, ExpectKeyword, ExpectIdentifier, SkipSemicolon;
    RowKeywords();
    NameReads(db, rest);
    var name := Put(Word(db), rest);
    WordReads("FROM", name);
    WordReads("TABLES", Put(Word("FROM"), name));
    WordReads("SHOW", Put(Word("TABLES"), Put(Word("FROM"), name)));
    DispatchedByTwo("SHOW", "TABLES", Put(Word("FROM"), name));
  }

  lemma ShowDatabasesReads(rest: seq<Token>)
    requires Finished(rest)
    ensures var ts := Put(Word("SHOW"), Put(Word("DATABASES"), rest));
            ParseStatement(ts) == Read((ShowDatabases, SkipSemicolon(rest))) && Finished(ts)
  {
    hide ParseStatement, Lexed, Finished, Keyword, IsIdentifier, Put, ExpectKeyword, ExpectIdentifier, SkipSemicolon;
    RowKeywords();
    WordReads("DATABASES", rest);
    WordReads("SHOW", Put(Word("DATABASES"), rest));
    DispatchedByTwo("SHOW", "DATABASES", rest);
  }

  lemma StatementReads(stmt: Statement, rest: seq<Token>)
    requires Expressible(stmt) && Stops(rest)
    ensures ParseStatement(PrintStatement(stmt, rest)) == Read((stmt, SkipSemicolon(rest))) && Finished(PrintStatement(stmt, rest))
  {
    hide Lexed, Finished, IsIdentifier, SkipSemicolon, ParseStatement, Put, PrintCreateTable, PrintAddColumn, PrintInsert, PrintSelect,
      PrintUpdate, PrintDelete;
    match stmt
    case CreateDatabase(name) => CreateDatabaseReads(name, rest);
    case CreateTable(db, table, definitions) => CreateTableReads(db, table, definitions, rest);
    case AddColumn(db, table, column) => AddColumnReads(db, table, column, column.defaultValue.value, rest);
    case Insert(db, table, columns, values) => InsertReads(db, table, columns, values, rest);
    case Select(db, table, columns, where) => SelectReads(db, table, columns, where, rest);
    case Update(db, table, assignments, where) => UpdateReads(db, table, assignments, where, rest);
    case Delete(db, table, where) => DeleteReads(db, table, where, rest);
    case ShowTables(db) => ShowTablesReads(db, rest);
    case ShowDatabases => ShowDatabasesReads(rest);
  }

  // ------------------------------------------------------------------------------------------
  // The theorems
  // ------------------------------------------------------------------------------------------

  /** Parsing undoes writing, for every statement that has a text. */
  lemma ParseUndoesPrint(stmt: Statement, semicolon: bool)
    requires Expressible(stmt)
    ensures ParseText(StatementText(stmt, semicolon)) == Read(stmt)
  {
    hide Expressible, PrintStatement, ParseStatement, Finished, Stops, SkipSemicolon, Lex, RenderAll;
    SemicolonSkipped(semicolon);
    StatementReads(stmt, Ending(semicolon));
    LexRender(PrintStatement(stmt, Ending(semicolon)));
  }

  /** Whatever the text, what the parser yields can be written. */
  lemma ParsedExpressible(sql: string)
    ensures ParseText(sql).Read? ==> Expressible(ParseText(sql).value)
  {
    hide Expressible, ParseStatement, Lex;
    LexShape(sql);
  }

  /** The statements that texts stand for are exactly the expressible ones. */
  lemma ExactlyExpressible(stmt: Statement)
    ensures Expressible(stmt) <==> exists sql :: ParseText(sql) == Read(stmt)
  {
    hide Expressible, ParseText, StatementText;
    if Expressible(stmt) { ParseUndoesPrint(stmt, true); }
    forall sql | ParseText(sql) == Read(stmt) ensures Expressible(stmt) { ParsedExpressible(sql); }
  }

  /** No two statements are written alike. */
  lemma TextsDiffer(a: Statement, b: Statement, semicolon: bool)
    requires Expressible(a) && Expressible(b) && StatementText(a, semicolon) == StatementText(b, semicolon)
    ensures a == b
  {
    hide Expressible, ParseText, StatementText;
    ParseUndoesPrint(a, semicolon);
    ParseUndoesPrint(b, semicolon);
  }
}
