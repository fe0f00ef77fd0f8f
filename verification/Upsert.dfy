/** The generated upsert: what is emitted for an entity, and what executing it does. */
module Upsert {
  import opened Prelude
  import opened Sql
  import opened Schema

  // ---- The statement ----

  /** `$n`, or `$n::text::numeric`. */
  datatype Placeholder = Param(n: nat, numeric: bool)

  datatype Conflict = DoNothing | DoUpdate(sets: seq<string>)

  /** `INSERT INTO table (columns) VALUES (values) ON CONFLICT (target) …`, column
      names in quoted form; a set entry `c` stands for `c = EXCLUDED.c`. `binds`
      are the struct fields passed as parameters, in order. */
  datatype Statement = Statement(
    table: string,
    columns: seq<string>,
    values: seq<Placeholder>,
    target: string,
    conflict: Conflict,
    binds: seq<string>)

  function DoubleQuotes(s: string): string {
    if |s| == 0 then ""
    else (if s[0] == '"' then "\"\"" else [s[0]]) + DoubleQuotes(s[1..])
  }

  function QuoteIdent(column: string): string {
    "\"" + DoubleQuotes(column) + "\""
  }

  function PlaceholderOf(n: nat, ty: FieldType): Placeholder {
    Param(n, ty == ScalarF(BigInt))
  }

  /** The fields an update overwrites: all but the primary key. */
  function Updated(fields: seq<Field>): seq<string> {
    if |fields| == 0 then []
    else
      var f := fields[|fields| - 1];
      Updated(fields[..|fields| - 1]) + if f.isId then [] else [QuoteIdent(f.column)]
  }

  function IdColumn(fields: seq<Field>): string {
    if |fields| == 0 then "id"
    else if fields[0].isId then fields[0].column
    else IdColumn(fields[1..])
  }

  function Rendered(e: Entity): Statement {
    var fs := e.fields;
    var sets := Updated(fs);
    Statement(
      e.table,
      seq(|fs|, (i: int) requires 0 <= i < |fs| => QuoteIdent(fs[i].column)),
      seq(|fs|, (i: int) requires 0 <= i < |fs| => PlaceholderOf(i + 1, fs[i].ty)),
      QuoteIdent(IdColumn(fs)),
      if |sets| == 0 then DoNothing else DoUpdate(sets),
      seq(|fs|, (i: int) requires 0 <= i < |fs| => fs[i].column))
  }

  /** One pass over the fields pushes onto the four lists that have to agree. */
  method RenderUpsert(e: Entity) returns (stmt: Statement)
    ensures stmt == Rendered(e)
  {
    var columns: seq<string> := [];
    var placeholders: seq<Placeholder> := [];
    var updates: seq<string> := [];
    var binds: seq<string> := [];
    for i := 0 to |e.fields|
      invariant columns == Rendered(e).columns[..i] && placeholders == Rendered(e).values[..i]
      invariant binds == Rendered(e).binds[..i] && updates == Updated(e.fields[..i])
    {
      var f := e.fields[i];
      assert e.fields[..i + 1][..i] == e.fields[..i];
      var col := QuoteIdent(f.column);
      columns := columns + [col];
      placeholders := placeholders + [PlaceholderOf(i + 1, f.ty)];
      if !f.isId {
        updates := updates + [col];
      }
      binds := binds + [f.column];
    }
    assert e.fields[..|e.fields|] == e.fields;
    var conflict := if |updates| == 0 then DoNothing else DoUpdate(updates);
    stmt := Statement(e.table, columns, placeholders, QuoteIdent(IdColumn(e.fields)), conflict, binds);
  }

  // ---- Quoting ----

  /** The text of a quoted identifier from its first inner character: the name, if
      the quote that ends it is the last character. */
  function UnquoteTail(s: string): Option<string> {
    if |s| == 0 then None
    else if s[0] != '"' then
      match UnquoteTail(s[1..]) case Some(t) => Some([s[0]] + t) case None => None
    else if |s| == 1 then Some("")
    else if s[1] == '"' then
      match UnquoteTail(s[2..]) case Some(t) => Some("\"" + t) case None => None
    else None
  }

  function Unquote(s: string): Option<string> {
    if |s| == 0 || s[0] != '"' then None else UnquoteTail(s[1..])
  }

  lemma {:induction false} UnquoteTailOf(c: string)
    ensures UnquoteTail(DoubleQuotes(c) + "\"") == Some(c)
  {
    if |c| > 0 {
      UnquoteTailOf(c[1..]);
      var rest := DoubleQuotes(c[1..]) + "\"";
      if c[0] == '"' {
        assert DoubleQuotes(c) + "\"" == "\"\"" + rest;
        assert ("\"\"" + rest)[2..] == rest;
      } else {
        assert DoubleQuotes(c) + "\"" == [c[0]] + rest;
        assert ([c[0]] + rest)[1..] == rest;
      }
      assert [c[0]] + c[1..] == c;
    }
  }

  /** A quoted column name reads back as the column, quotes inside it included. */
  lemma QuotedNameReadsBack(c: string)
    ensures Unquote(QuoteIdent(c)) == Some(c)
  {
    UnquoteTailOf(c);
    assert QuoteIdent(c)[1..] == DoubleQuotes(c) + "\"";
  }

  // ---- Execution ----

  datatype Outcome<+T> =
    | Done(result: T)
    | MissingTable
    | TypeMismatch
    | InvalidInput
    | NullViolation
    | UniqueViolation
    | UnknownColumn

  /** What the database makes of a value that is not null: the number a text casts
      to, and the value an uncast parameter is stored and compared as, `None` when
      it refuses the value; and the columns its tables were created with. */
  datatype Database = Database(
    cast: string -> Option<Num>,
    admit: Cell -> Option<Cell>,
    declared: map<string, seq<Field>>)

  ghost predicate Sane(db: Database) {
    forall c: Cell :: db.admit(c).Some? && c != Null ==> db.admit(c).value != Null
  }

  /** The type of a value expression; the explicit casts are text to text to numeric. */
  function ExprType(p: Placeholder, bound: PgType): Option<PgType> {
    if p.numeric then (if bound == TextT then Some(NumericT) else None) else Some(bound)
  }

  function Evaluate(db: Database, p: Placeholder, cell: Cell): Option<Cell> {
    if cell == Null then Some(Null)
    else if !p.numeric then db.admit(cell)
    else if !cell.Text? then None
    else match db.cast(cell.text) case Some(n) => Some(Numeric(n)) case None => None
  }

  function FieldAt(fields: seq<Field>, column: string): Option<Field> {
    if |fields| == 0 then None
    else if fields[|fields| - 1].column == column then Some(fields[|fields| - 1])
    else FieldAt(fields[..|fields| - 1], column)
  }

  function NameAt(stmt: Statement, i: nat): string
    requires i < |stmt.columns|
  {
    match Unquote(stmt.columns[i]) case Some(c) => c case None => ""
  }

  function CellAt(db: Database, stmt: Statement, self: Record, i: nat): Option<Cell>
    requires i < |stmt.values|
  {
    var p := stmt.values[i];
    if 1 <= p.n <= |stmt.binds| && stmt.binds[p.n - 1] in self then Evaluate(db, p, self[stmt.binds[p.n - 1]]) else None
  }

  /** The i-th value expression has the declared type of the i-th column. */
  predicate TypedAt(stmt: Statement, fields: seq<Field>, i: nat)
    requires i < |stmt.columns| && i < |stmt.values|
  {
    var p := stmt.values[i];
    && 1 <= p.n <= |stmt.binds|
    && var column, bound := FieldAt(fields, NameAt(stmt, i)), FieldAt(fields, stmt.binds[p.n - 1]);
    && column.Some? && bound.Some?
    && ExprType(p, BoundType(bound.value.ty)) == Some(ColumnType(column.value.ty))
  }

  predicate TypeChecks(stmt: Statement, fields: seq<Field>) {
    |stmt.columns| == |stmt.values| && forall i :: 0 <= i < |stmt.columns| ==> TypedAt(stmt, fields, i)
  }

  /** Every value expression has a value. */
  predicate Evaluates(db: Database, stmt: Statement, self: Record) {
    forall i :: 0 <= i < |stmt.values| ==> CellAt(db, stmt, self, i).Some?
  }

  /** The proposed row: the first `k` listed columns set to their value expressions. */
  function Proposed(db: Database, stmt: Statement, self: Record, k: nat): Record
    requires k <= |stmt.columns| == |stmt.values| && Evaluates(db, stmt, self)
  {
    if k == 0 then map[]
    else Proposed(db, stmt, self, k - 1)[NameAt(stmt, k - 1) := CellAt(db, stmt, self, k - 1).value]
  }

  /** The primary key and the columns declared `NOT NULL` have values. */
  predicate Complete(fields: seq<Field>, row: Record) {
    forall i :: 0 <= i < |fields| && (fields[i].isId || !fields[i].nullable) ==>
      fields[i].column in row && row[fields[i].column] != Null
  }

  /** `DO UPDATE SET`: each named column taken from the proposed row. */
  function ApplySets(existing: Record, proposed: Record, sets: seq<string>): Record {
    if |sets| == 0 then existing
    else
      var before := ApplySets(existing, proposed, sets[..|sets| - 1]);
      match Unquote(sets[|sets| - 1])
      case Some(c) => if c in proposed then before[c := proposed[c]] else before
      case None => before
  }

  /** Another row holds the same non-null value in a unique column. */
  ghost predicate Clashes(fields: seq<Field>, table: Relation, key: seq<Cell>, row: Record) {
    exists k, i :: k in table && k != key && 0 <= i < |fields| && fields[i].unique && !fields[i].isId
      && fields[i].column in row && fields[i].column in table[k]
      && row[fields[i].column] != Null && row[fields[i].column] == table[k][fields[i].column]
  }

  /** Insert the proposed row under its key, or resolve the conflict. */
  ghost function Place(conflict: Conflict, fields: seq<Field>, table: Relation, key: seq<Cell>, row: Record)
    : Outcome<Relation>
  {
    if key !in table then
      if Clashes(fields, table, key, row) then UniqueViolation else Done(table[key := row])
    else
      match conflict
      case DoNothing => Done(table)
      case DoUpdate(sets) =>
        var updated := ApplySets(table[key], row, sets);
        if Clashes(fields, table, key, updated) then UniqueViolation else Done(table[key := updated])
  }

  /** Executing an upsert on a table with the declared columns. */
  ghost function ExecuteIn(db: Database, stmt: Statement, fields: seq<Field>, self: Record, table: Relation)
    : Outcome<Relation>
  {
    if !TypeChecks(stmt, fields) then TypeMismatch
    else if !Evaluates(db, stmt, self) then InvalidInput
    else
      var row := Proposed(db, stmt, self, |stmt.columns|);
      match Unquote(stmt.target)
      case None => UnknownColumn
      case Some(target) =>
        if target !in row then UnknownColumn
        else if !Complete(fields, row) then NullViolation
        else Place(stmt.conflict, fields, table, [row[target]], row)
  }

  /** Executing an upsert: on the table that the statement names. */
  ghost function Execute(db: Database, stmt: Statement, self: Record, tables: Tables): Outcome<Tables> {
    if stmt.table !in tables || stmt.table !in db.declared then MissingTable
    else
      match ExecuteIn(db, stmt, db.declared[stmt.table], self, tables[stmt.table])
      case Done(table) => Done(tables[stmt.table := table])
      case MissingTable => MissingTable
      case TypeMismatch => TypeMismatch
      case InvalidInput => InvalidInput
      case NullViolation => NullViolation
      case UniqueViolation => UniqueViolation
      case UnknownColumn => UnknownColumn
  }

  // ---- What the generated statement does ----

  ghost predicate WellFormed(e: Entity) {
    && (forall i, j :: 0 <= i < j < |e.fields| ==> e.fields[i].column != e.fields[j].column)
    && (exists i :: 0 <= i < |e.fields| && e.fields[i].isId)
    && (forall i, j :: 0 <= i < j < |e.fields| ==> !(e.fields[i].isId && e.fields[j].isId))
    && (forall i :: 0 <= i < |e.fields| ==> !(e.fields[i].isId && e.fields[i].nullable))
  }

  ghost function Columns(e: Entity): set<string> {
    set i | 0 <= i < |e.fields| :: e.fields[i].column
  }

  /** A value of the type a struct field is bound as. */
  predicate HasType(cell: Cell, ty: PgType) {
    match ty
    case TextT => cell.Text?
    case IntegerT => cell.Int? && -0x8000_0000 <= cell.n <= 0x7FFF_FFFF
    case BigintT => cell.Int? && -(MAX_U64 / 2) - 1 <= cell.n <= MAX_U64 / 2
    case NumericT => false
    case DoubleT => cell.Float?
    case BooleanT => cell.Bool?
    case JsonbT => cell.Json?
    case ArrayT(t) => cell.Array? && cell.element == t && forall i :: 0 <= i < |cell.cells| ==>
        HasType(cell.cells[i], t)
  }

  /** The values of a field by its type: texts for ids, strings, decimals, bytes, enums
      and relations; 32-bit and 64-bit integers for `Int` and `DateTime`. */
  lemma StructValues(cell: Cell, ty: FieldType)
    ensures ty.EnumF? || ty.RelationTo? || ty in {ScalarF(Id), ScalarF(String), ScalarF(BigInt), ScalarF(Bytes)} ==>
              (HasType(cell, BoundType(ty)) <==> cell.Text?)
    ensures ty == ScalarF(IntS) ==>
              (HasType(cell, BoundType(ty)) <==> cell.Int? && -0x8000_0000 <= cell.n < 0x8000_0000)
    ensures ty == ScalarF(DateTime) ==>
              (HasType(cell, BoundType(ty))
               <==> cell.Int? && -0x8000_0000_0000_0000 <= cell.n < 0x8000_0000_0000_0000)
    ensures ty == ScalarF(FloatS) ==> (HasType(cell, BoundType(ty)) <==> cell.Float?)
    ensures ty == ScalarF(Boolean) ==> (HasType(cell, BoundType(ty)) <==> cell.Bool?)
    ensures ty == ScalarF(JsonS) ==> (HasType(cell, BoundType(ty)) <==> cell.Json?)
  {
  }

  /** A value of the generated struct: each field has its type, and only optional
      fields can be absent. */
  ghost predicate IsStruct(e: Entity, self: Record) {
    forall i :: 0 <= i < |e.fields| ==>
      var f := e.fields[i];
      f.column in self && if self[f.column] == Null then f.nullable else HasType(self[f.column], BoundType(f.ty))
  }

  /** The value a struct field's value is stored as. */
  function Stored(db: Database, ty: FieldType, cell: Cell): Option<Cell> {
    if cell == Null then Some(Null)
    else if ty != ScalarF(BigInt) then db.admit(cell)
    else if !cell.Text? then None
    else match db.cast(cell.text) case Some(n) => Some(Numeric(n)) case None => None
  }

  /** The database takes every value of the struct: its `BigInt` texts are numbers,
      and nothing else is refused. */
  ghost predicate Readable(db: Database, e: Entity, self: Record)
    requires IsStruct(e, self)
  {
    forall i :: 0 <= i < |e.fields| ==> Stored(db, e.fields[i].ty, self[e.fields[i].column]).Some?
  }

  /** The struct as a row: every field's value in its own column. */
  ghost predicate IsRowOf(db: Database, e: Entity, self: Record, row: Record)
    requires IsStruct(e, self)
  {
    && row.Keys == Columns(e)
    && forall i :: 0 <= i < |e.fields| ==>
         e.fields[i].column in row
             && Stored(db, e.fields[i].ty, self[e.fields[i].column]) == Some(row[e.fields[i].column])
  }

  /** A table the migration created and only upserts have filled: keyed by the id column. */
  ghost predicate TableOk(e: Entity, table: Relation) {
    forall k :: k in table ==>
        table[k].Keys == Columns(e) && IdColumn(e.fields) in table[k] && k == [table[k][IdColumn(e.fields)]]
  }

  /** A list of `BigInt` is bound as text and cast nowhere, but its column is numeric. */
  ghost predicate HasBigIntList(e: Entity) {
    exists i :: 0 <= i < |e.fields| && e.fields[i].ty == ScalarList(BigInt)
  }

  lemma {:induction false} FieldAtFinds(fields: seq<Field>, i: nat)
    requires i < |fields|
    requires forall j, k :: 0 <= j < k < |fields| ==> fields[j].column != fields[k].column
    ensures FieldAt(fields, fields[i].column) == Some(fields[i])
  {
    if i < |fields| - 1 {
      FieldAtFinds(fields[..|fields| - 1], i);
    }
  }

  /** The emitted statement type-checks exactly when no field is a list of `BigInt`. */
  lemma TypeChecksIff(e: Entity)
    requires WellFormed(e)
    ensures TypeChecks(Rendered(e), e.fields) <==> !HasBigIntList(e)
  {
    hide QuoteIdent, Updated, IdColumn, TypedAt;
    forall i | 0 <= i < |e.fields|
      ensures TypedAt(Rendered(e), e.fields, i) <==> e.fields[i].ty != ScalarList(BigInt)
    {
      TypedAtIff(e, i);
    }
  }

  lemma TypedAtIff(e: Entity, i: nat)
    requires WellFormed(e) && i < |e.fields|
    ensures TypedAt(Rendered(e), e.fields, i) <==> e.fields[i].ty != ScalarList(BigInt)
  {
    hide QuoteIdent, Unquote, Updated, IdColumn;
    FieldAtFinds(e.fields, i);
    QuotedNameReadsBack(e.fields[i].column);
  }

  lemma CellAtIs(db: Database, e: Entity, self: Record, i: nat)
    requires i < |e.fields| && e.fields[i].column in self
    ensures CellAt(db, Rendered(e), self, i) == Stored(db, e.fields[i].ty, self[e.fields[i].column])
  {
  }

  /** Every placeholder has a value exactly when the database takes every field's. */
  lemma EvaluatesIff(db: Database, e: Entity, self: Record)
    requires IsStruct(e, self)
    ensures Evaluates(db, Rendered(e), self) <==> Readable(db, e, self)
  {
    hide CellAt, Stored, Updated, IdColumn, QuoteIdent, HasType;
    forall i: nat | i < |e.fields|
      ensures CellAt(db, Rendered(e), self, i) == Stored(db, e.fields[i].ty, self[e.fields[i].column])
    {
      CellAtIs(db, e, self, i);
    }
  }

  lemma {:induction false} ProposedAt(db: Database, e: Entity, self: Record, k: nat, i: nat)
    requires WellFormed(e) && i < k <= |e.fields| && e.fields[i].column in self && Evaluates(db, Rendered(e), self)
    ensures var row := Proposed(db, Rendered(e), self, k);
            e.fields[i].column in row
                && Stored(db, e.fields[i].ty, self[e.fields[i].column]) == Some(row[e.fields[i].column])
  {
    hide QuoteIdent, Unquote, Updated, IdColumn, CellAt, Stored;
    QuotedNameReadsBack(e.fields[k - 1].column);
    if i == k - 1 {
      CellAtIs(db, e, self, i);
    } else {
      ProposedAt(db, e, self, k - 1, i);
    }
  }

  lemma {:induction false} ProposedOnly(db: Database, e: Entity, self: Record, k: nat, c: string)
    requires k <= |e.fields| && Evaluates(db, Rendered(e), self) && c in Proposed(db, Rendered(e), self, k)
    ensures c in Columns(e)
  {
    hide QuoteIdent, Unquote, Updated, IdColumn, CellAt;
    if k > 0 {
      QuotedNameReadsBack(e.fields[k - 1].column);
      if c != e.fields[k - 1].column {
        ProposedOnly(db, e, self, k - 1, c);
      }
    }
  }

  /** The row the statement proposes is the struct, every field in its own column. */
  lemma ProposedIs(db: Database, e: Entity, self: Record, row: Record)
    requires WellFormed(e) && IsStruct(e, self) && IsRowOf(db, e, self, row) && Evaluates(db, Rendered(e), self)
    ensures Proposed(db, Rendered(e), self, |e.fields|) == row
  {
    hide WellFormed, Proposed, Evaluates, HasType, Stored;
    var proposed := Proposed(db, Rendered(e), self, |e.fields|);
    forall c ensures (c in proposed <==> c in row) && (c in row ==> proposed[c] == row[c]) {
      if c in proposed {
        ProposedOnly(db, e, self, |e.fields|, c);
      }
      if c in Columns(e) {
        var i: nat :| i < |e.fields| && e.fields[i].column == c;
        ProposedAt(db, e, self, |e.fields|, i);
      }
    }
  }

  /** A struct never breaks a `NOT NULL`. */
  lemma RowIsComplete(db: Database, e: Entity, self: Record, row: Record)
    requires WellFormed(e) && Sane(db) && IsStruct(e, self) && IsRowOf(db, e, self, row)
    ensures Complete(e.fields, row)
  {
    hide HasType, Columns;
  }

  lemma {:induction false} IdColumnIs(fields: seq<Field>, i: nat)
    requires i < |fields| && fields[i].isId && forall j :: 0 <= j < i ==> !fields[j].isId
    ensures IdColumn(fields) == fields[i].column
  {
    if i > 0 {
      IdColumnIs(fields[1..], i - 1);
    }
  }

  lemma UpdatedStep(fields: seq<Field>)
    requires 0 < |fields|
    ensures var f, front := fields[|fields| - 1], fields[..|fields| - 1];
            Updated(fields) == if f.isId then Updated(front) else Updated(front) + [QuoteIdent(f.column)]
  {
  }

  lemma OneMoreSet(existing: Record, row: Record, sets: seq<string>, column: string)
    ensures var before := ApplySets(existing, row, sets);
            ApplySets(existing, row, sets + [QuoteIdent(column)])
            == if column in row then before[column := row[column]] else before
  {
    hide QuoteIdent, Unquote;
    QuotedNameReadsBack(column);
    assert (sets + [QuoteIdent(column)])[..|sets|] == sets;
  }

  /** One field more is one assignment more, unless the field is the id. */
  lemma ApplySetsStep(fields: seq<Field>, existing: Record, row: Record)
    ensures |fields| == 0 ==> ApplySets(existing, row, Updated(fields)) == existing
    ensures |fields| > 0 ==>
              var f := fields[|fields| - 1];
              var before := ApplySets(existing, row, Updated(fields[..|fields| - 1]));
              ApplySets(existing, row, Updated(fields))
              == if f.isId || f.column !in row then before else before[f.column := row[f.column]]
  {
    if |fields| > 0 {
      hide QuoteIdent, Updated, ApplySets;
      UpdatedStep(fields);
      OneMoreSet(existing, row, Updated(fields[..|fields| - 1]), fields[|fields| - 1].column);
    }
  }

  lemma {:induction false} ApplySetsAt(fields: seq<Field>, existing: Record, row: Record, c: string, i: nat)
    requires existing.Keys == row.Keys && c in row
    requires existing[c] == row[c] || (i < |fields| && !fields[i].isId && fields[i].column == c)
    ensures var updated := ApplySets(existing, row, Updated(fields));
            updated.Keys == row.Keys && updated[c] == row[c]
  {
    hide ApplySets, Updated;
    ApplySetsStep(fields, existing, row);
    ApplySetsKeys(fields, existing, row);
    if |fields| > 0 {
      var front := fields[..|fields| - 1];
      ApplySetsKeys(front, existing, row);
      if existing[c] == row[c] || i < |front| {
        ApplySetsAt(front, existing, row, c, i);
      }
    }
  }

  lemma {:induction false} ApplySetsKeys(fields: seq<Field>, existing: Record, row: Record)
    requires existing.Keys == row.Keys
    ensures ApplySets(existing, row, Updated(fields)).Keys == row.Keys
  {
    hide ApplySets, Updated;
    ApplySetsStep(fields, existing, row);
    if |fields| > 0 {
      ApplySetsKeys(fields[..|fields| - 1], existing, row);
    }
  }

  /** Updating every column but the id of a row with the same id gives the proposed row. */
  lemma UpdateIsReplacement(e: Entity, id: nat, existing: Record, row: Record)
    requires WellFormed(e) && id < |e.fields| && e.fields[id].isId
    requires existing.Keys == row.Keys == Columns(e) && existing[e.fields[id].column] == row[e.fields[id].column]
    ensures ApplySets(existing, row, Updated(e.fields)) == row
  {
    hide ApplySets, Updated;
    ApplySetsKeys(e.fields, existing, row);
    var updated := ApplySets(existing, row, Updated(e.fields));
    forall c | c in row ensures updated[c] == row[c] {
      var i: nat :| i < |e.fields| && e.fields[i].column == c;
      ApplySetsAt(e.fields, existing, row, c, i);
    }
  }

  lemma {:induction false} NothingUpdatedIff(fields: seq<Field>)
    ensures |Updated(fields)| == 0 <==> forall i :: 0 <= i < |fields| ==> fields[i].isId
  {
    if |fields| > 0 {
      NothingUpdatedIff(fields[..|fields| - 1]);
    }
  }

  /** With nothing to update there is only the id, so a row with that id is the same
      row, and no other column can clash. */
  lemma IdOnlyRow(e: Entity, id: nat, table: Relation, key: seq<Cell>, row: Record)
    requires WellFormed(e) && id < |e.fields| && e.fields[id].isId && |Updated(e.fields)| == 0
    requires key in table && table[key].Keys == row.Keys == Columns(e)
    requires table[key][e.fields[id].column] == row[e.fields[id].column]
    ensures table[key := row] == table && !Clashes(e.fields, table, key, row)
  {
    NothingUpdatedIff(e.fields);
    assert ApplySets(table[key], row, Updated(e.fields)) == table[key];
    UpdateIsReplacement(e, id, table[key], row);
  }

  /** What upserting the struct, as the row it is stored as, should do to its table. */
  ghost function ExpectedIn(db: Database, e: Entity, self: Record, table: Relation, row: Record): Outcome<Relation>
    requires IsStruct(e, self) && (Readable(db, e, self) ==> IdColumn(e.fields) in row)
  {
    if HasBigIntList(e) then TypeMismatch
    else if !Readable(db, e, self) then InvalidInput
    else
      var key := [row[IdColumn(e.fields)]];
      if Clashes(e.fields, table, key, row) then UniqueViolation else Done(table[key := row])
  }

  /** Inserting, updating and doing nothing all put the row under its key. */
  lemma PlacedUnderKey(e: Entity, id: nat, table: Relation, row: Record)
    requires WellFormed(e) && TableOk(e, table) && id < |e.fields| && e.fields[id].isId
    requires IdColumn(e.fields) == e.fields[id].column && row.Keys == Columns(e) && IdColumn(e.fields) in row
    ensures var key := [row[IdColumn(e.fields)]];
            Place(Rendered(e).conflict, e.fields, table, key, row)
            == if Clashes(e.fields, table, key, row) then UniqueViolation else Done(table[key := row])
  {
    var key := [row[IdColumn(e.fields)]];
    if key in table {
      assert table[key].Keys == Columns(e) && IdColumn(e.fields) in table[key]
          && key == [table[key][IdColumn(e.fields)]];
      hide QuoteIdent, WellFormed, Clashes, Updated, IdColumn, TableOk, Columns, ApplySets;
      UpdateIsReplacement(e, id, table[key], row);
      if |Updated(e.fields)| == 0 {
        IdOnlyRow(e, id, table, key, row);
      }
    }
  }

  /** The statement reaches the table with the struct's row, under its id. */
  lemma ReadableRowIsPlaced(db: Database, e: Entity, self: Record, table: Relation, row: Record)
    requires WellFormed(e) && Sane(db) && TableOk(e, table) && IsStruct(e, self)
    requires Readable(db, e, self) && IsRowOf(db, e, self, row)
    ensures Evaluates(db, Rendered(e), self) && Proposed(db, Rendered(e), self, |e.fields|) == row
    ensures Complete(e.fields, row) && Unquote(Rendered(e).target) == Some(IdColumn(e.fields))
        && IdColumn(e.fields) in row
    ensures var key := [row[IdColumn(e.fields)]];
            Place(Rendered(e).conflict, e.fields, table, key, row)
            == if Clashes(e.fields, table, key, row) then UniqueViolation else Done(table[key := row])
  {
    var id: nat :| id < |e.fields| && e.fields[id].isId;
    IdColumnIs(e.fields, id);
    assert row.Keys == Columns(e) && e.fields[id].column in row;
    hide QuoteIdent, Unquote, WellFormed, Clashes, Proposed, Updated, IdColumn,
      TableOk, IsRowOf, Columns, Place, Readable, Evaluates, Complete, IsStruct, Sane;
    EvaluatesIff(db, e, self);
    ProposedIs(db, e, self, row);
    RowIsComplete(db, e, self, row);
    QuotedNameReadsBack(IdColumn(e.fields));
    PlacedUnderKey(e, id, table, row);
  }

  lemma UpsertInTable(db: Database, e: Entity, self: Record, table: Relation, row: Record)
    requires WellFormed(e) && Sane(db) && TableOk(e, table) && IsStruct(e, self)
    requires Readable(db, e, self) ==> IsRowOf(db, e, self, row)
    ensures Readable(db, e, self) ==> IdColumn(e.fields) in row
    ensures ExecuteIn(db, Rendered(e), e.fields, self, table) == ExpectedIn(db, e, self, table, row)
  {
    hide TypeChecks, WellFormed, Clashes, HasBigIntList, TableOk, IsRowOf, Readable, Evaluates, IsStruct, Sane, Place,
      Complete, Proposed, IdColumn, Unquote;
    TypeChecksIff(e);
    EvaluatesIff(db, e, self);
    if Readable(db, e, self) {
      ReadableRowIsPlaced(db, e, self, table, row);
    }
  }

  /** The entity's table was created by its migration, and only upserts have filled it. */
  ghost predicate Migrated(db: Database, e: Entity, tables: Tables) {
    && e.table in tables && TableOk(e, tables[e.table])
    && e.table in db.declared && db.declared[e.table] == e.fields
  }

  /** The statement that is emitted names the entity's own table. */
  lemma NoTableNoUpsert(db: Database, e: Entity, self: Record, tables: Tables)
    requires e.table !in tables
    ensures Execute(db, Rendered(e), self, tables) == MissingTable
  {
  }

  /** The generated statement compiles the upsert correctly. For any struct, it
      runs exactly when no field is a list of `BigInt`, the database takes every
      value, and no other row has the same value in a unique column; then every
      field's value is in its own column of the row of the entity's table keyed by
      the id as stored, and no other row and no other table has changed. */
  lemma UpsertIsCorrect(db: Database, e: Entity, self: Record, tables: Tables, row: Record)
    requires WellFormed(e) && Sane(db) && Migrated(db, e, tables) && IsStruct(e, self)
    requires Readable(db, e, self) ==> IsRowOf(db, e, self, row)
    ensures Readable(db, e, self) ==> IdColumn(e.fields) in row
    ensures Execute(db, Rendered(e), self, tables)
         == if HasBigIntList(e) then TypeMismatch
            else if !Readable(db, e, self) then InvalidInput
            else
              var table, key := tables[e.table], [row[IdColumn(e.fields)]];
              if Clashes(e.fields, table, key, row) then UniqueViolation
              else Done(tables[e.table := table[key := row]])
  {
    hide ExecuteIn, WellFormed, Clashes, HasBigIntList, TableOk, IsRowOf, Readable, IsStruct, Sane, IdColumn;
    UpsertInTable(db, e, self, tables[e.table], row);
  }

  lemma TableStaysOk(db: Database, e: Entity, self: Record, table: Relation, row: Record)
    requires TableOk(e, table) && IsStruct(e, self) && IsRowOf(db, e, self, row) && IdColumn(e.fields) in row
    ensures TableOk(e, table[[row[IdColumn(e.fields)]] := row])
  {
  }

  lemma ClashesIgnoresOwnRow(fields: seq<Field>, table: Relation, key: seq<Cell>, row: Record)
    requires !Clashes(fields, table, key, row)
    ensures !Clashes(fields, table[key := row], key, row)
  {
  }

  /** Upserting the same struct again changes nothing. */
  lemma UpsertIsIdempotent(db: Database, e: Entity, self: Record, tables: Tables, row: Record)
    requires WellFormed(e) && Sane(db) && Migrated(db, e, tables) && IsStruct(e, self)
    requires Readable(db, e, self) ==> IsRowOf(db, e, self, row)
    requires Execute(db, Rendered(e), self, tables).Done?
    ensures var after := Execute(db, Rendered(e), self, tables).result;
            Migrated(db, e, after) && Execute(db, Rendered(e), self, after) == Done(after)
  {
    hide Execute, WellFormed, HasBigIntList, TableOk, IsRowOf, Clashes, Rendered, IdColumn, IsStruct, Readable, Sane;
    UpsertIsCorrect(db, e, self, tables, row);
    TableStaysOk(db, e, self, tables[e.table], row);
    var key := [row[IdColumn(e.fields)]];
    var table := tables[e.table][key := row];
    var after := tables[e.table := table];
    ClashesIgnoresOwnRow(e.fields, tables[e.table], key, row);
    UpsertIsCorrect(db, e, self, after, row);
    assert table[key := row] == table && after[e.table := table] == after;
  }

  // ---- Where it fails, and what counts as the same row ----

  /** The smallest schema the generated upsert does not work for. */
  function Wallet(): Entity {
    Entity("Wallet", "wallets", [Field("id", "id", ScalarF(Id), false, false, false, true),
                                 Field("amounts", "amounts", ScalarList(BigInt), false, false, false, false)])
  }

  lemma WalletFacts()
    ensures WellFormed(Wallet()) && HasBigIntList(Wallet())
  {
    assert Wallet().fields[0].isId && Wallet().fields[1].ty == ScalarList(BigInt);
  }

  /** A list of `BigInt` is never stored, whatever is in it. */
  lemma BigIntListIsNeverStored(db: Database, self: Record, tables: Tables)
    requires Migrated(db, Wallet(), tables)
    ensures Execute(db, Rendered(Wallet()), self, tables) == TypeMismatch
  {
    hide Wallet, WellFormed, HasBigIntList, TypeChecks, TableOk, Evaluates, Proposed, Place, Unquote, Complete;
    WalletFacts();
    TypeChecksIff(Wallet());
  }

  predicate IsDigits(s: string) {
    0 < |s| && forall i :: 0 <= i < |s| ==> '0' <= s[i] <= '9'
  }

  /** The number a decimal text stands for. */
  function Value(s: string): nat
    requires forall i :: 0 <= i < |s| ==> '0' <= s[i] <= '9'
  {
    if |s| == 0 then 0 else 10 * Value(s[..|s| - 1]) + (s[|s| - 1] as int - '0' as int)
  }

  /** A database that reads decimal texts as the numbers they stand for, and takes
      every text as it is. */
  ghost predicate ReadsDecimals(db: Database) {
    && (forall s: string :: IsDigits(s) ==> db.cast(s) == Some(Finite(Value(s) as real)))
    && (forall s: string :: db.admit(Text(s)) == Some(Text(s)))
  }

  lemma {:induction false} PaddingIsNothing(s: string)
    requires forall i :: 0 <= i < |s| ==> '0' <= s[i] <= '9'
    ensures Value("0" + s) == Value(s)
  {
    var padded := "0" + s;
    if |s| > 0 {
      assert padded[..|padded| - 1] == "0" + s[..|s| - 1];
      PaddingIsNothing(s[..|s| - 1]);
    } else {
      assert padded[..0] == "";
    }
  }

  function Account(): Entity {
    Entity("Account", "accounts", [Field("id", "id", ScalarF(BigInt), false, false, false, true),
                                   Field("name", "name", ScalarF(String), false, false, false, false)])
  }

  function AccountOf(id: string, name: string): Record {
    map["id" := Text(id), "name" := Text(name)]
  }

  function AccountRow(id: Num, name: string): Record {
    map["id" := Numeric(id), "name" := Text(name)]
  }

  /** The account as a struct and as a row. */
  lemma AccountFacts(db: Database, id: string, name: string)
    requires db.admit(Text(name)) == Some(Text(name))
    ensures var e, self := Account(), AccountOf(id, name);
            && WellFormed(e) && !HasBigIntList(e) && IdColumn(e.fields) == "id" && IsStruct(e, self)
            && (Readable(db, e, self) <==> db.cast(id).Some?)
            && (db.cast(id).Some? ==> IsRowOf(db, e, self, AccountRow(db.cast(id).value, name)))
  {
    var e := Account();
    AccountColumns();
    assert e.fields[0].isId && e.fields[1].column == "name";
    assert Stored(db, e.fields[0].ty, AccountOf(id, name)["id"]).Some? <==> db.cast(id).Some?;
  }

  /** The accounts after one more upsert. */
  function WithAccount(tables: Tables, n: Num, name: string): Tables
    requires "accounts" in tables
  {
    tables["accounts" := tables["accounts"][[Numeric(n)] := AccountRow(n, name)]]
  }

  lemma AccountUpsert(db: Database, tables: Tables, id: string, name: string)
    requires Sane(db) && Migrated(db, Account(), tables) && db.admit(Text(name)) == Some(Text(name))
    ensures "accounts" in tables
    ensures Execute(db, Rendered(Account()), AccountOf(id, name), tables)
         == match db.cast(id)
            case None => InvalidInput
            case Some(n) => Done(WithAccount(tables, n, name))
  {
    AccountFacts(db, id, name);
    var row := AccountRow(match db.cast(id) case Some(n) => n case None => NotANumber, name);
    assert Account().table == "accounts";
    NoUniqueNoClash(tables["accounts"], [row["id"]], row);
    hide Execute, Rendered, TableOk, WellFormed, HasBigIntList, IdColumn, IsStruct, Readable, IsRowOf, Sane, Clashes,
      Account, AccountOf;
    UpsertIsCorrect(db, Account(), AccountOf(id, name), tables, row);
  }

  lemma NoUniqueNoClash(table: Relation, key: seq<Cell>, row: Record)
    ensures !Clashes(Account().fields, table, key, row)
  {
  }

  lemma AccountTableOk(table: Relation, n: Num, name: string)
    requires TableOk(Account(), table)
    ensures TableOk(Account(), table[[Numeric(n)] := AccountRow(n, name)])
  {
    AccountColumns();
    assert Account().fields[0].isId && IdColumn(Account().fields) == "id";
  }

  lemma AccountColumns()
    ensures Columns(Account()) == {"id", "name"}
  {
    assert Account().fields[0].column in Columns(Account()) && Account().fields[1].column in Columns(Account());
  }

  /** A `BigInt` text that is not a number is refused. */
  lemma NonNumberIsRefused(db: Database, tables: Tables, id: string, name: string)
    requires Sane(db) && Migrated(db, Account(), tables) && db.admit(Text(name)) == Some(Text(name))
    requires db.cast(id).None?
    ensures Execute(db, Rendered(Account()), AccountOf(id, name), tables) == InvalidInput
  {
    AccountUpsert(db, tables, id, name);
  }

  /** Two `BigInt` ids that differ only in a leading zero are two structs but one
      row: the second upsert overwrites what the first stored. */
  lemma PaddedIdIsTheSameRow(db: Database, tables: Tables, id: string, name: string, name': string)
    requires Sane(db) && ReadsDecimals(db) && Migrated(db, Account(), tables) && IsDigits(id)
    ensures "accounts" in tables
    ensures var stmt, n := Rendered(Account()), Finite(Value(id) as real);
            && Execute(db, stmt, AccountOf(id, name), tables) == Done(WithAccount(tables, n, name))
            && Execute(db, stmt, AccountOf("0" + id, name'), WithAccount(tables, n, name))
               == Done(WithAccount(tables, n, name'))
  {
    var n := Finite(Value(id) as real);
    PaddingIsNothing(id);
    assert IsDigits("0" + id);
    StillMigrated(db, tables, n, name);
    hide Execute, Rendered, Migrated, WithAccount, Account, AccountOf, AccountRow, Sane, Value;
    AccountUpsert(db, tables, id, name);
    AccountUpsert(db, WithAccount(tables, n, name), "0" + id, name');
    OneAccount(tables, n, name, name');
  }

  lemma StillMigrated(db: Database, tables: Tables, n: Num, name: string)
    requires Migrated(db, Account(), tables)
    ensures "accounts" in tables && Migrated(db, Account(), WithAccount(tables, n, name))
  {
    hide TableOk, AccountRow;
    AccountTableOk(tables["accounts"], n, name);
  }

  lemma OneAccount(tables: Tables, n: Num, name: string, name': string)
    requires "accounts" in tables && "accounts" in WithAccount(tables, n, name)
    ensures WithAccount(WithAccount(tables, n, name), n, name') == WithAccount(tables, n, name')
  {
    var key, t := [Numeric(n)], tables["accounts"];
    var once, twice := t[key := AccountRow(n, name)], t[key := AccountRow(n, name')];
    assert once[key := AccountRow(n, name')] == twice;
    hide AccountRow;
    assert tables["accounts" := once]["accounts" := twice] == tables["accounts" := twice];
  }
}
