/** The entity model a schema is resolved to, with the column each field is stored in. */
module Schema {
  import opened Prelude
  import opened Sql

  datatype Scalar = Id | String | IntS | BigInt | FloatS | Boolean | DateTime | Bytes | JsonS

  datatype FieldType =
    | ScalarF(scalar: Scalar)
    | ScalarList(scalar: Scalar)
    | EnumF(name: string)
    | RelationTo(name: string)

  datatype Field = Field(
    name: string,
    column: string,
    ty: FieldType,
    nullable: bool,
    indexed: bool,
    unique: bool,
    isId: bool)

  datatype Entity = Entity(name: string, table: string, fields: seq<Field>)

  datatype EnumDef = EnumDef(name: string, values: seq<string>)

  function ScalarOf(name: string): Option<Scalar> {
    match name
    case "ID" => Some(Id)
    case "String" => Some(String)
    case "Int" => Some(IntS)
    case "BigInt" => Some(BigInt)
    case "Float" => Some(FloatS)
    case "Boolean" => Some(Boolean)
    case "DateTime" => Some(DateTime)
    case "Bytes" => Some(Bytes)
    case "JSON" => Some(JsonS)
    case "JSONObject" => Some(JsonS)
    case _ => None
  }

  function GraphqlName(s: Scalar): string {
    match s
    case Id => "ID"
    case String => "String"
    case IntS => "Int"
    case BigInt => "BigInt"
    case FloatS => "Float"
    case Boolean => "Boolean"
    case DateTime => "DateTime"
    case Bytes => "Bytes"
    case JsonS => "JSON"
  }

  /** The scalars are those of the names they are known by, and `JSONObject`. */
  lemma ScalarNames(name: string)
    ensures forall s: Scalar ::
              ScalarOf(name) == Some(s) <==> name == GraphqlName(s) || (name == "JSONObject" && s == JsonS)
  {
  }

  function ColumnOfScalar(s: Scalar): PgType {
    match s
    case Id => TextT case String => TextT case Bytes => TextT
    case IntS => IntegerT
    case BigInt => NumericT
    case FloatS => DoubleT
    case Boolean => BooleanT
    case DateTime => BigintT
    case JsonS => JsonbT
  }

  /** The type of the column the migration declares. */
  function ColumnType(ty: FieldType): PgType {
    match ty
    case ScalarF(s) => ColumnOfScalar(s)
    case ScalarList(s) => ArrayT(ColumnOfScalar(s))
    case EnumF(_) => TextT
    case RelationTo(_) => TextT
  }

  /** The type a struct field's value is bound as, which is that of its Rust type:
      a `BigInt` is a `String` of decimals. */
  function BoundOfScalar(s: Scalar): PgType {
    match s
    case Id => TextT case String => TextT case BigInt => TextT case Bytes => TextT
    case IntS => IntegerT
    case FloatS => DoubleT
    case Boolean => BooleanT
    case DateTime => BigintT
    case JsonS => JsonbT
  }

  function BoundType(ty: FieldType): PgType {
    match ty
    case ScalarF(s) => BoundOfScalar(s)
    case ScalarList(s) => ArrayT(BoundOfScalar(s))
    case EnumF(_) => TextT
    case RelationTo(_) => TextT
  }
}
