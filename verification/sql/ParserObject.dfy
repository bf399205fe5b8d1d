/** The parser as an object whose position moves over the tokens. */
module SqlParsers {
  import opened Options
  import opened SqlAst
  import opened SqlLexer
  import opened SqlParser

  /** What a list read so far and the reading of the rest amount to. */
  function More<T>(done: seq<T>, rest: Attempt<(seq<T>, seq<Token>)>): Attempt<(seq<T>, seq<Token>)> {
    if rest.Thrown? then Thrown else Read((done + rest.value.0, rest.value.1))
  }

  lemma MoreNothing<T>(rest: Attempt<(seq<T>, seq<Token>)>)
    ensures More([], rest) == rest
  {
    if rest.Read? { assert [] + rest.value.0 == rest.value.0; }
  }

  lemma MoreOne<T>(done: seq<T>, x: T, rest: Attempt<(seq<T>, seq<Token>)>)
    ensures More(done, More([x], rest)) == More(done + [x], rest)
  {
    if rest.Read? { assert done + ([x] + rest.value.0) == done + [x] + rest.value.0; }
  }

  // One turn of each list loop.

  lemma NamesTurn(done: seq<string>, ts: seq<Token>)
    ensures More(done, ParseNames(ts)) ==
            match ExpectIdentifier(ts)
            case Thrown => Thrown
            case Read((name, ts')) =>
              if CheckSymbol(ts', ",") then More(done + [name], ParseNames(Advance(ts'))) else Read((done + [name], ts'))
  {
    hide ExpectIdentifier, Lexed;
    var head := ExpectIdentifier(ts);
    if head.Read? && CheckSymbol(head.value.1, ",") { MoreOne(done, head.value.0, ParseNames(Advance(head.value.1))); }
  }

  lemma LiteralsTurn(done: seq<string>, ts: seq<Token>)
    ensures More(done, ParseLiterals(ts)) ==
            match ExpectLiteral(ts)
            case Thrown => Thrown
            case Read((literal, ts')) =>
              if CheckSymbol(ts', ",") then More(done + [literal], ParseLiterals(Advance(ts'))) else Read((done + [literal], ts'))
  {
    hide ExpectLiteral, Lexed;
    var head := ExpectLiteral(ts);
    if head.Read? && CheckSymbol(head.value.1, ",") { MoreOne(done, head.value.0, ParseLiterals(Advance(head.value.1))); }
  }

  function ParseAssignment(ts: seq<Token>): (r: Attempt<((string, string), seq<Token>)>)
    ensures r.Read? ==> Leaves(ts, r.value.1)
  {
    var (column, ts) :- ExpectIdentifier(ts);
    var ts :- ExpectSymbol(ts, "=");
    var (literal, ts) :- ExpectLiteral(ts);
    Read(((column, literal), ts))
  }

  lemma AssignmentsTurn(done: seq<(string, string)>, ts: seq<Token>)
    ensures More(done, ParseAssignments(ts)) ==
            match ParseAssignment(ts)
            case Thrown => Thrown
            case Read((a, ts')) =>
              if CheckSymbol(ts', ",") then More(done + [a], ParseAssignments(Advance(ts'))) else Read((done + [a], ts'))
  {
    hide ExpectIdentifier, ExpectSymbol, ExpectLiteral, Lexed;
    var head := ParseAssignment(ts);
    if head.Read? && CheckSymbol(head.value.1, ",") { MoreOne(done, head.value.0, ParseAssignments(Advance(head.value.1))); }
  }

  lemma ConditionsTurn(done: seq<Condition>, ts: seq<Token>)
    ensures More(done, ParseConditions(ts)) ==
            match ParseCondition(ts)
            case Thrown => Thrown
            case Read((c, ts')) =>
              if CheckKeyword(ts', "AND") then More(done + [c], ParseConditions(Advance(ts'))) else Read((done + [c], ts'))
  {
    hide ParseCondition, Lexed;
    var head := ParseCondition(ts);
    if head.Read? && CheckKeyword(head.value.1, "AND") { MoreOne(done, head.value.0, ParseConditions(Advance(head.value.1))); }
  }

  lemma DefinitionsTurn(done: seq<ColumnDef>, ts: seq<Token>, hasPk: bool)
    ensures More(done, ParseDefinitions(ts, hasPk)) ==
            match ParseDefinition(ts)
            case Thrown => Thrown
            case Read((c, ts')) =>
              if c.primaryKey && hasPk then Thrown
              else if CheckSymbol(ts', ",") then More(done + [c], ParseDefinitions(Advance(ts'), hasPk || c.primaryKey))
              else Read((done + [c], ts'))
  {
    hide ParseDefinition, Lexed;
    var head := ParseDefinition(ts);
    if head.Read? && CheckSymbol(head.value.1, ",") {
      MoreOne(done, head.value.0, ParseDefinitions(Advance(head.value.1), hasPk || head.value.0.primaryKey));
    }
  }

  lemma {:induction false} PrimaryCountAppend(done: seq<ColumnDef>, c: ColumnDef)
    ensures PrimaryCount(done + [c]) == PrimaryCount(done) + if c.primaryKey then 1 else 0
    decreases |done|
  {
    if done == [] {
      assert [] + [c] == [c] && PrimaryCount([c][1..]) == 0;
    } else {
      PrimaryCountAppend(done[1..], c);
      assert (done + [c])[1..] == done[1..] + [c];
    }
  }

  class Parser {
    const tokens: seq<Token>
    var pos: nat

    ghost predicate Valid()
      reads this
    {
      pos < |tokens| && Lexed(tokens)
    }

    /** The tokens still to be read. */
    ghost function Rest(): seq<Token>
      reads this
      requires pos <= |tokens|
    {
      tokens[pos..]
    }

    /** A value was read and the tokens of `spec` are left, or both threw. */
    ghost predicate Ran<T(!new)>(r: Attempt<T>, spec: Attempt<(T, seq<Token>)>)
      reads this
      requires pos <= |tokens|
    {
      r.Thrown? == spec.Thrown? && (r.Read? ==> r.value == spec.value.0 && Rest() == spec.value.1)
    }

    ghost predicate Passed(r: Attempt<()>, spec: Attempt<seq<Token>>)
      reads this
      requires pos <= |tokens|
    {
      r.Thrown? == spec.Thrown? && (r.Read? ==> Rest() == spec.value)
    }

    constructor (tokens: seq<Token>)
      requires Lexed(tokens)
      ensures Valid() && Rest() == tokens
    {
      this.tokens := tokens;
      pos := 0;
    }

    function Peek(): (t: Token)
      reads this
      requires Valid()
      ensures Rest() != [] && t == Rest()[0]
    {
      tokens[pos]
    }

    /** Never called on the end token. */
    method Step() returns (t: Token)
      requires Valid() && Peek().kind != End
      modifies this`pos
      ensures Valid() && t == old(Peek()) && Rest() == old(Rest())[1..]
    {
      t := tokens[pos];
      pos := pos + 1;
    }

    predicate AtKeyword(keyword: string)
      reads this
      requires Valid()
      ensures AtKeyword(keyword) == CheckKeyword(Rest(), keyword)
    {
      MatchesKeyword(Peek(), keyword)
    }

    predicate AtSymbol(symbol: string)
      reads this
      requires Valid()
      ensures AtSymbol(symbol) == CheckSymbol(Rest(), symbol)
    {
      MatchesSymbol(Peek(), symbol)
    }

    method DoExpectKeyword(keyword: string) returns (r: Attempt<()>)
      requires Valid()
      modifies this`pos
      ensures Valid() && Passed(r, ExpectKeyword(old(Rest()), keyword))
    {
      if !AtKeyword(keyword) { return Thrown; }
      var _ := Step();
      return Read(());
    }

    method DoExpectSymbol(symbol: string) returns (r: Attempt<()>)
      requires Valid()
      modifies this`pos
      ensures Valid() && Passed(r, ExpectSymbol(old(Rest()), symbol))
    {
      if !AtSymbol(symbol) { return Thrown; }
      var _ := Step();
      return Read(());
    }

    method DoExpectIdentifier() returns (r: Attempt<string>)
      requires Valid()
      modifies this`pos
      ensures Valid() && Ran(r, ExpectIdentifier(old(Rest())))
    {
      if Peek().kind != Identifier { return Thrown; }
      var t := Step();
      return Read(t.text);
    }

    method DoExpectLiteral() returns (r: Attempt<string>)
      requires Valid()
      modifies this`pos
      ensures Valid() && Ran(r, ExpectLiteral(old(Rest())))
    {
      if Peek().kind != TokenKind.Text && Peek().kind != Number { return Thrown; }
      var t := Step();
      return Read(t.text);
    }

    method DoSkipSemicolon()
      requires Valid()
      modifies this`pos
      ensures Valid() && Rest() == SkipSemicolon(old(Rest()))
    {
      if AtSymbol(";") { var _ := Step(); }
    }

    method DoExpectTable() returns (r: Attempt<(string, string)>)
      requires Valid()
      modifies this`pos
      ensures Valid() && Ran(r, ExpectTable(old(Rest())))
    {
      hide Lexed, ExpectIdentifier, ExpectSymbol, CheckSymbol;
      var db :- DoExpectIdentifier();
      var _ :- DoExpectSymbol(".");
      var table :- DoExpectIdentifier();
      return Read((db, table));
    }

    method DoParseNames() returns (r: Attempt<seq<string>>)
      requires Valid()
      modifies this`pos
      ensures Valid() && Ran(r, ParseNames(old(Rest())))
    {
      hide Lexed, ExpectIdentifier, ParseNames;
      var names: seq<string> := [];
      MoreNothing(ParseNames(Rest()));
      while true
        invariant Valid() && ParseNames(old(Rest())) == More(names, ParseNames(Rest()))
        decreases |tokens| - pos
      {
        NamesTurn(names, Rest());
        var name :- DoExpectIdentifier();
        names := names + [name];
        if !AtSymbol(",") { return Read(names); }
        var _ := Step();
      }
    }

    method DoParseLiterals() returns (r: Attempt<seq<string>>)
      requires Valid()
      modifies this`pos
      ensures Valid() && Ran(r, ParseLiterals(old(Rest())))
    {
      hide Lexed, ExpectLiteral, ParseLiterals;
      var literals: seq<string> := [];
      MoreNothing(ParseLiterals(Rest()));
      while true
        invariant Valid() && ParseLiterals(old(Rest())) == More(literals, ParseLiterals(Rest()))
        decreases |tokens| - pos
      {
        LiteralsTurn(literals, Rest());
        var literal :- DoExpectLiteral();
        literals := literals + [literal];
        if !AtSymbol(",") { return Read(literals); }
        var _ := Step();
      }
    }

    method DoParseAssignments() returns (r: Attempt<seq<(string, string)>>)
      requires Valid()
      modifies this`pos
      ensures Valid() && Ran(r, ParseAssignments(old(Rest())))
    {
      hide Lexed, ExpectIdentifier, ExpectSymbol, ExpectLiteral, ParseAssignments;
      var assignments: seq<(string, string)> := [];
      MoreNothing(ParseAssignments(Rest()));
      while true
        invariant Valid() && ParseAssignments(old(Rest())) == More(assignments, ParseAssignments(Rest()))
        decreases |tokens| - pos
      {
        AssignmentsTurn(assignments, Rest());
        var column :- DoExpectIdentifier();
        var _ :- DoExpectSymbol("=");
        var literal :- DoExpectLiteral();
        assignments := assignments + [(column, literal)];
        if !AtSymbol(",") { return Read(assignments); }
        var _ := Step();
      }
    }

    method DoParseOp() returns (r: Attempt<CompareOp>)
      requires Valid()
      modifies this`pos
      ensures Valid() && Ran(r, ParseOp(old(Rest())))
    {
      if Peek().kind != Symbol { return Thrown; }
      var t := Step();
      return OpOf(t.text);
    }

    method DoParseConditions() returns (r: Attempt<seq<Condition>>)
      requires Valid()
      modifies this`pos
      ensures Valid() && Ran(r, ParseConditions(old(Rest())))
    {
      hide Lexed, ExpectIdentifier, ParseOp, ExpectLiteral, ParseConditions;
      var conditions: seq<Condition> := [];
      MoreNothing(ParseConditions(Rest()));
      while true
        invariant Valid() && ParseConditions(old(Rest())) == More(conditions, ParseConditions(Rest()))
        decreases |tokens| - pos
      {
        ConditionsTurn(conditions, Rest());
        var column :- DoExpectIdentifier();
        var op :- DoParseOp();
        var literal :- DoExpectLiteral();
        conditions := conditions + [Condition(column, op, literal)];
        if !AtKeyword("AND") { return Read(conditions); }
        var _ := Step();
      }
    }

    method DoParseWhere() returns (r: Attempt<seq<Condition>>)
      requires Valid()
      modifies this`pos
      ensures Valid() && Ran(r, ParseWhere(old(Rest())))
    {
      hide Lexed, ParseConditions;
      if !AtKeyword("WHERE") { return Read([]); }
      var _ := Step();
      r := DoParseConditions();
    }

    method DoParseType() returns (r: Attempt<ColumnType>)
      requires Valid()
      modifies this`pos
      ensures Valid() && Ran(r, ParseType(old(Rest())))
    {
      hide Lexed, ExpectIdentifier, Upper;
      var name :- DoExpectIdentifier();
      var typeName := Upper(name);
      if typeName == "TEXT" { return Read(ColumnType.Text); }
      if typeName == "INT" { return Read(Int); }
      return Thrown;
    }

    method DoParsePrimary() returns (r: Attempt<bool>)
      requires Valid()
      modifies this`pos
      ensures Valid() && Ran(r, ParsePrimary(old(Rest())))
    {
      hide Lexed, ExpectKeyword;
      if !AtKeyword("PRIMARY") { return Read(false); }
      var _ := Step();
      var _ :- DoExpectKeyword("KEY");
      return Read(true);
    }

    /** The columns, and whether one is the primary key. */
    method DoParseDefinitions() returns (r: Attempt<(seq<ColumnDef>, bool)>)
      requires Valid()
      modifies this`pos
      ensures Valid()
      ensures var spec := ParseDefinitions(old(Rest()), false);
              && r.Thrown? == spec.Thrown?
              && (r.Read? ==> r.value.0 == spec.value.0 && Rest() == spec.value.1 && r.value.1 == (PrimaryCount(spec.value.0) > 0))
    {
      hide Lexed, ExpectIdentifier, ParseType, ParsePrimary, ParseDefinitions, PrimaryCount;
      var columns: seq<ColumnDef> := [];
      var hasPk := false;
      MoreNothing(ParseDefinitions(Rest(), false));
      NoPrimary();
      while true
        invariant Valid() && ParseDefinitions(old(Rest()), false) == More(columns, ParseDefinitions(Rest(), hasPk))
        invariant hasPk == (PrimaryCount(columns) > 0)
        decreases |tokens| - pos
      {
        DefinitionsTurn(columns, Rest(), hasPk);
        var name :- DoExpectIdentifier();
        var columnType :- DoParseType();
        var primary :- DoParsePrimary();
        if primary && hasPk { return Thrown; }
        PrimaryCountAppend(columns, ColumnDef(name, columnType, primary, None));
        columns := columns + [ColumnDef(name, columnType, primary, None)];
        hasPk := hasPk || primary;
        if !AtSymbol(",") { return Read((columns, hasPk)); }
        var _ := Step();
      }
    }

    method DoParseCreateDatabase() returns (r: Attempt<Statement>)
      requires Valid()
      modifies this`pos
      ensures Valid() && Ran(r, ParseCreateDatabase(old(Rest())))
    {
      hide Lexed, ExpectKeyword, ExpectIdentifier, SkipSemicolon;
      var _ :- DoExpectKeyword("CREATE");
      var _ :- DoExpectKeyword("DATABASE");
      var name :- DoExpectIdentifier();
      DoSkipSemicolon();
      return Read(CreateDatabase(name));
    }

    method DoParseCreateTable() returns (r: Attempt<Statement>)
      requires Valid()
      modifies this`pos
      ensures Valid() && Ran(r, ParseCreateTable(old(Rest())))
    {
      hide Lexed, ExpectKeyword, ExpectSymbol, ExpectTable, ParseDefinitions, PrimaryCount, SkipSemicolon;
      var _ :- DoExpectKeyword("CREATE");
      var _ :- DoExpectKeyword("TABLE");
      var name :- DoExpectTable();
      var _ :- DoExpectSymbol("(");
      var columns :- DoParseDefinitions();
      var _ :- DoExpectSymbol(")");
      if !columns.1 { return Thrown; }
      DoSkipSemicolon();
      return Read(CreateTable(name.0, name.1, columns.0));
    }

    method DoParseAlterTable() returns (r: Attempt<Statement>)
      requires Valid()
      modifies this`pos
      ensures Valid() && Ran(r, ParseAlterTable(old(Rest())))
    {
      hide Lexed, ExpectKeyword, ExpectTable, ExpectIdentifier, ParseType, ExpectLiteral, SkipSemicolon;
      var _ :- DoExpectKeyword("ALTER");
      var _ :- DoExpectKeyword("TABLE");
      var table :- DoExpectTable();
      var _ :- DoExpectKeyword("ADD");
      if AtKeyword("COLUMN") { var _ := Step(); }
      var name :- DoExpectIdentifier();
      var columnType :- DoParseType();
      var _ :- DoExpectKeyword("DEFAULT");
      var literal :- DoExpectLiteral();
      DoSkipSemicolon();
      return Read(AddColumn(table.0, table.1, ColumnDef(name, columnType, false, Some(literal))));
    }

    method DoParseInsert() returns (r: Attempt<Statement>)
      requires Valid()
      modifies this`pos
      ensures Valid() && Ran(r, ParseInsert(old(Rest())))
    {
      hide Lexed, Leaves, NamesOk, IsIdentifier, Expressible, ExpectKeyword, ExpectSymbol, ExpectTable, ParseNames, ParseLiterals, SkipSemicolon;
      var _ :- DoExpectKeyword("INSERT");
      var _ :- DoExpectKeyword("INTO");
      var table :- DoExpectTable();
      var _ :- DoExpectSymbol("(");
      var columns :- DoParseNames();
      var _ :- DoExpectSymbol(")");
      var _ :- DoExpectKeyword("VALUES");
      var _ :- DoExpectSymbol("(");
      var values :- DoParseLiterals();
      var _ :- DoExpectSymbol(")");
      if |columns| != |values| { return Thrown; }
      DoSkipSemicolon();
      return Read(Insert(table.0, table.1, columns, values));
    }

    method DoParseSelect() returns (r: Attempt<Statement>)
      requires Valid()
      modifies this`pos
      ensures Valid() && Ran(r, ParseSelect(old(Rest())))
    {
      hide Lexed, ExpectKeyword, ExpectTable, ParseNames, ParseWhere, SkipSemicolon;
      var _ :- DoExpectKeyword("SELECT");
      var columns: seq<string> := [];
      if AtSymbol("*") {
        var _ := Step();
      } else {
        columns :- DoParseNames();
      }
      var _ :- DoExpectKeyword("FROM");
      var table :- DoExpectTable();
      var where :- DoParseWhere();
      DoSkipSemicolon();
      return Read(Select(table.0, table.1, columns, where));
    }

    method DoParseUpdate() returns (r: Attempt<Statement>)
      requires Valid()
      modifies this`pos
      ensures Valid() && Ran(r, ParseUpdate(old(Rest())))
    {
      hide Lexed, ExpectKeyword, ExpectTable, ParseAssignments, ParseWhere, SkipSemicolon;
      var _ :- DoExpectKeyword("UPDATE");
      var table :- DoExpectTable();
      var _ :- DoExpectKeyword("SET");
      var assignments :- DoParseAssignments();
      var where :- DoParseWhere();
      DoSkipSemicolon();
      return Read(Update(table.0, table.1, assignments, where));
    }

    method DoParseDelete() returns (r: Attempt<Statement>)
      requires Valid()
      modifies this`pos
      ensures Valid() && Ran(r, ParseDelete(old(Rest())))
    {
      hide Lexed, ExpectKeyword, ExpectTable, ParseWhere, SkipSemicolon;
      var _ :- DoExpectKeyword("DELETE");
      var _ :- DoExpectKeyword("FROM");
      var table :- DoExpectTable();
      var where :- DoParseWhere();
      DoSkipSemicolon();
      return Read(Delete(table.0, table.1, where));
    }

    method DoParseShowTables() returns (r: Attempt<Statement>)
      requires Valid()
      modifies this`pos
      ensures Valid() && Ran(r, ParseShowTables(old(Rest())))
    {
      hide Lexed, ExpectKeyword, ExpectIdentifier, SkipSemicolon;
      var _ :- DoExpectKeyword("SHOW");
      var _ :- DoExpectKeyword("TABLES");
      var _ :- DoExpectKeyword("FROM");
      var db :- DoExpectIdentifier();
      DoSkipSemicolon();
      return Read(ShowTables(db));
    }

    method DoParseShowDatabases() returns (r: Attempt<Statement>)
      requires Valid()
      modifies this`pos
      ensures Valid() && Ran(r, ParseShowDatabases(old(Rest())))
    {
      hide Lexed, ExpectKeyword, SkipSemicolon;
      var _ :- DoExpectKeyword("SHOW");
      var _ :- DoExpectKeyword("DATABASES");
      DoSkipSemicolon();
      return Read(ShowDatabases);
    }

    /** Whether the token after the next one is the keyword. */
    predicate NextKeyword(keyword: string)
      reads this
      requires Valid()
      ensures NextKeyword(keyword) == SecondKeyword(Rest(), keyword)
    {
      pos + 1 < |tokens| && MatchesKeyword(tokens[pos + 1], keyword)
    }

    method DoParseStatement() returns (r: Attempt<Statement>)
      requires Valid()
      modifies this`pos
      ensures Valid() && Ran(r, ParseStatement(old(Rest())))
    {
      hide Lexed, CheckKeyword, MatchesKeyword, ParseCreateDatabase, ParseCreateTable, ParseAlterTable, ParseInsert, ParseSelect,
        ParseUpdate, ParseDelete, ParseShowTables, ParseShowDatabases;
      if AtKeyword("CREATE") {
        if NextKeyword("DATABASE") { r := DoParseCreateDatabase(); } else { r := DoParseCreateTable(); }
        return;
      }
      if AtKeyword("ALTER") { r := DoParseAlterTable(); return; }
      if AtKeyword("INSERT") { r := DoParseInsert(); return; }
      if AtKeyword("SELECT") { r := DoParseSelect(); return; }
      if AtKeyword("UPDATE") { r := DoParseUpdate(); return; }
      if AtKeyword("DELETE") { r := DoParseDelete(); return; }
      if AtKeyword("SHOW") {
        if NextKeyword("DATABASES") { r := DoParseShowDatabases(); } else { r := DoParseShowTables(); }
        return;
      }
      return Thrown;
    }
  }

  lemma NoPrimary()
    ensures PrimaryCount([]) == 0
  {
  }

  /** Text to statement, through both loops. */
  method Parse(sql: string) returns (r: Attempt<Statement>)
    ensures r == ParseText(sql)
  {
    hide Lex, ParseStatement, Lexed;
    LexShape(sql);
    LexedOf(Lex(sql));
    var tokens := Tokenize(sql);
    if tokens.None? { return Thrown; }
    var parser := new Parser(tokens.value);
    r := parser.DoParseStatement();
  }

  lemma LexedOf(ts: Option<seq<Token>>)
    requires ts.Some? ==> Ended(ts.value) && Named(ts.value)
    ensures ts.Some? ==> Lexed(ts.value)
  {
  }
}
