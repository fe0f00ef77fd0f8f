/** Entity tables: relations of typed cells, addressed by a unique key. */
module Sql {
  /** A numeric value: what `=` compares, however it was written. */
  datatype Num = Finite(value: real) | PosInfinity | NegInfinity | NotANumber

  datatype Cell =
    | Null
    | Text(text: string)
    | Int(n: int)
    | Numeric(num: Num)
    | Float(x: real)
    | Bool(flag: bool)
    | Json(json: string)
    | Array(element: PgType, cells: seq<Cell>)

  /** The Postgres column types the schema dialect maps to. */
  datatype PgType = TextT | IntegerT | BigintT | NumericT | DoubleT | BooleanT | JsonbT | ArrayT(element: PgType)

  /** A row: a cell for each column. */
  type Record = map<string, Cell>

  /** A table whose unique key is a tuple of cells. */
  type Relation = map<seq<Cell>, Record>

  /** The handler-owned tables of one database. */
  type Tables = map<string, Relation>
}
