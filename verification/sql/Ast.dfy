/** Parsed statements, table schemas and what executing a statement yields. */
module SqlAst {
  import opened Options

  datatype ColumnType = Text | Int

  datatype ColumnDef = ColumnDef(name: string, columnType: ColumnType, primaryKey: bool, defaultValue: Option<string>)

  datatype CompareOp = Eq | Ne | Lt | Le | Gt | Ge

  datatype Condition = Condition(column: string, op: CompareOp, literal: string)

  datatype Statement =
    | CreateDatabase(name: string)
    | CreateTable(db: string, table: string, definitions: seq<ColumnDef>)
    | AddColumn(db: string, table: string, column: ColumnDef)
    | Insert(db: string, table: string, columns: seq<string>, values: seq<string>)
    | Select(db: string, table: string, columns: seq<string>, where: seq<Condition>)
    | Update(db: string, table: string, assignments: seq<(string, string)>, where: seq<Condition>)
    | Delete(db: string, table: string, where: seq<Condition>)
    | ShowTables(db: string)
    | ShowDatabases

  datatype Schema = Schema(columns: seq<ColumnDef>)

  type Row = seq<string>

  datatype SqlError =
    | NoSuchDatabase | DatabaseExists | NoSuchTable | TableExists
    | NoSuchColumn(column: string) | ColumnExists | MissingDefault | InvalidInteger(column: string)
    | WrongColumnCount | ColumnTwice(column: string) | DuplicateKey(pk: string) | UpdatesPrimaryKey
    | BadNumber | UnreadableRow

  datatype Output = Done | Changed(count: nat) | Listing(headers: seq<string>, rows: seq<Row>)

  /** Failed stands for a thrown exception. */
  datatype Result = Ok(output: Output) | Failed(error: SqlError)
}
