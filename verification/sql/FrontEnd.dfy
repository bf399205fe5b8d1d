/** From text to effect: what the parser yields is what the executor's invariants ask for. */
module SqlFrontEnd {
  import opened Options
  import opened SqlAst
  import opened SqlKeys
  import opened SqlLexer
  import opened SqlParser
  import opened SqlExecution
  import opened SqlLazyAlter

  lemma IdentifierOk(name: string)
    requires IsIdentifier(name)
    ensures NameOk(name)
  {
    forall i | 0 <= i < |name| ensures name[i] != '/' { assert IsIdentChar(name[i]); }
  }

  lemma {:induction false} PrimaryFound(columns: seq<ColumnDef>)
    ensures FirstPrimary(columns).Some? <==> PrimaryCount(columns) > 0
    decreases |columns|
  {
    if columns != [] { PrimaryFound(columns[1..]); }
  }

  lemma ExpressibleWellFormed(stmt: Statement)
    requires Expressible(stmt)
    ensures WellFormed(stmt)
  {
    hide IsIdentifier, NameOk, FirstPrimary, PrimaryCount, NamesOk, DefinitionsOk, ConditionsOk, AssignmentsOk;
    match stmt
    case CreateDatabase(name) => IdentifierOk(name);
    case CreateTable(db, table, definitions) =>
      IdentifierOk(db);
      IdentifierOk(table);
      PrimaryFound(definitions);
    case AddColumn(db, table, _) =>
      IdentifierOk(db);
      IdentifierOk(table);
    case Insert(db, table, _, _) =>
      IdentifierOk(db);
      IdentifierOk(table);
    case Select(db, table, _, _) =>
      IdentifierOk(db);
      IdentifierOk(table);
    case Update(db, table, _, _) =>
      IdentifierOk(db);
      IdentifierOk(table);
    case Delete(db, table, _) =>
      IdentifierOk(db);
      IdentifierOk(table);
    case ShowTables(db) => IdentifierOk(db);
    case ShowDatabases =>
  }

  /** Any text that parses is a statement the refinement theorems cover. */
  lemma ParsedWellFormed(sql: string)
    ensures ParseText(sql).Read? ==> WellFormed(ParseText(sql).value)
  {
    hide Expressible, WellFormed, ParseText;
    ParsedExpressible(sql);
    if ParseText(sql).Read? { ExpressibleWellFormed(ParseText(sql).value); }
  }

  /** What executing a text yields: an answer, or the parser's exception. */
  datatype Outcome = Answered(result: Result) | SyntaxError

  ghost function ExecuteText(store: Store, sql: string): (Store, Outcome) {
    match ParseText(sql)
    case Thrown => (store, SyntaxError)
    case Read(stmt) => (Execute(store, stmt).0, Answered(Execute(store, stmt).1))
  }
}
