/** Resolving a parsed schema document into entities: names first, then fields,
    so that a field may name a type declared later. */
module SchemaResolver {
  import opened Naming
  import opened Prelude
  import opened Schema
  import Upsert

  // ---- The document ----

  datatype TypeRef = TypeRef(base: BaseType, nullable: bool)
  datatype BaseType = Named(name: string) | ListOf(inner: TypeRef)

  datatype FieldDef = FieldDef(name: string, ty: TypeRef, directives: seq<string>)

  datatype Kind = ObjectKind(fields: seq<FieldDef>) | EnumKind(values: seq<string>) | OtherKind

  datatype Definition = TypeDefinition(name: string, kind: Kind, directives: seq<string>) | OtherDefinition

  datatype ParseError =
    | NoEntities
    | DuplicateEntity(entity: string)
    | DuplicateField(entity: string, field: string)
    | UnknownType(entity: string, field: string, ty: string)
    | ListNotSupported(entity: string, field: string, inner: string)
    | NullableId(entity: string, field: string)
    | MissingId(entity: string)

  datatype Parsed<T> = Parsed(value: T) | Rejected(error: ParseError)

  datatype Model = Model(entities: seq<Entity>, enums: seq<EnumDef>)

  predicate IsEntity(d: Definition) {
    d.TypeDefinition? && d.kind.ObjectKind? && "entity" in d.directives
  }

  predicate IsEnum(d: Definition) {
    d.TypeDefinition? && d.kind.EnumKind?
  }

  /** A field that has a column: not the virtual side of a relation. */
  predicate IsStored(f: FieldDef) {
    "derivedFrom" !in f.directives
  }

  // ---- Pass one: names ----

  /** The results of `f` on each definition, in order. */
  function Collect<T>(f: Definition -> seq<T>, defs: seq<Definition>): seq<T> {
    if |defs| == 0 then [] else Collect(f, defs[..|defs| - 1]) + f(defs[|defs| - 1])
  }

  function EntityName(d: Definition): seq<string> {
    if IsEntity(d) then [d.name] else []
  }

  function EnumOf(d: Definition): seq<EnumDef> {
    if IsEnum(d) then [EnumDef(d.name, d.kind.values)] else []
  }

  function EntityNames(defs: seq<Definition>): seq<string> {
    Collect(EntityName, defs)
  }

  function EnumDefs(defs: seq<Definition>): seq<EnumDef> {
    Collect(EnumOf, defs)
  }

  datatype Names = Names(enums: seq<EnumDef>, entities: seq<string>)

  function NamesOf(defs: seq<Definition>): Names {
    Names(EnumDefs(defs), EntityNames(defs))
  }

  predicate NamesEnum(names: Names, name: string) {
    exists e :: e in names.enums && e.name == name
  }

  // ---- Pass two: fields ----

  /** A scalar first, then an enum, then an entity; lists hold scalars only. */
  function ResolveType(names: Names, ty: TypeRef): Option<FieldType> {
    match ty.base
    case Named(n) =>
      (match ScalarOf(n)
       case Some(s) => Some(ScalarF(s))
       case None =>
         if NamesEnum(names, n) then Some(EnumF(n))
         else if n in names.entities then Some(RelationTo(n))
         else None)
    case ListOf(inner) =>
      match inner.base
      case Named(n) => (match ScalarOf(n) case Some(s) => Some(ScalarList(s)) case None => None)
      case ListOf(_) => None
  }

  function FieldOf(names: Names, f: FieldDef): seq<Field> {
    match ResolveType(names, f.ty)
    case Some(ty) =>
      if IsStored(f) then
        [Field(f.name, SnakeCase(f.name), ty, f.ty.nullable, "index" in f.directives, "unique" in f.directives,
            f.name == "id")]
      else []
    case None => []
  }

  function FieldsOf(names: Names, fields: seq<FieldDef>): seq<Field> {
    if |fields| == 0 then []
    else FieldsOf(names, fields[..|fields| - 1]) + FieldOf(names, fields[|fields| - 1])
  }

  function EntityOf(names: Names, d: Definition): seq<Entity> {
    if IsEntity(d) then [Entity(d.name, TableName(d.name), FieldsOf(names, d.kind.fields))] else []
  }

  function EntitiesOf(names: Names, defs: seq<Definition>): seq<Entity> {
    Collect((d: Definition) => EntityOf(names, d), defs)
  }

  // ---- What is accepted ----

  /** Every stored field has a type, and the primary key is not nullable. */
  ghost predicate FieldOk(names: Names, f: FieldDef) {
    IsStored(f) ==> ResolveType(names, f.ty).Some? && !(f.name == "id" && f.ty.nullable)
  }

  /** No field repeats the name of a stored field before it. A virtual field may be
      repeated by a stored one after it, but not the other way round. */
  ghost predicate NoRepeats(fields: seq<FieldDef>) {
    forall i, j :: 0 <= i < j < |fields| && IsStored(fields[i]) ==> fields[i].name != fields[j].name
  }

  ghost predicate HasStored(fields: seq<FieldDef>, name: string) {
    exists f :: f in fields && IsStored(f) && f.name == name
  }

  ghost predicate FieldsOk(names: Names, fields: seq<FieldDef>) {
    (forall i :: 0 <= i < |fields| ==> FieldOk(names, fields[i])) && NoRepeats(fields) && HasStored(fields, "id")
  }

  ghost predicate Repeats(s: seq<string>, n: string) {
    exists i, j :: 0 <= i < j < |s| && s[i] == s[j] == n
  }

  ghost predicate Distinct(s: seq<string>) {
    forall i, j :: 0 <= i < j < |s| ==> s[i] != s[j]
  }

  /** The documents that are accepted, in no particular order of definitions. */
  ghost predicate Accepts(defs: seq<Definition>) {
    && EntityNames(defs) != [] && Distinct(EntityNames(defs))
    && forall d :: d in defs && IsEntity(d) ==> FieldsOk(NamesOf(defs), d.kind.fields)
  }

  /** How an error calls the element type of a list. */
  function Unlisted(inner: TypeRef): string {
    match inner.base case Named(n) => n case ListOf(_) => "nested list"
  }

  /** The error tells what is wrong with the fields of the entity it names. */
  ghost predicate FieldsFault(names: Names, entity: string, fields: seq<FieldDef>, e: ParseError) {
    match e
    case DuplicateField(n, f) => n == entity
      && exists i, j :: 0 <= i < j < |fields| && IsStored(fields[i]) && fields[i].name == fields[j].name == f
    case UnknownType(n, f, ty) => n == entity
      && exists i :: 0 <= i < |fields| && IsStored(fields[i]) && fields[i].name == f
           && fields[i].ty.base == Named(ty) && ResolveType(names, fields[i].ty).None?
    case ListNotSupported(n, f, inner) => n == entity
      && exists i :: 0 <= i < |fields| && IsStored(fields[i]) && fields[i].name == f
           && fields[i].ty.base.ListOf? && ResolveType(names, fields[i].ty).None?
           && inner == Unlisted(fields[i].ty.base.inner)
    case NullableId(n, f) => n == entity
      && exists i :: 0 <= i < |fields| && IsStored(fields[i]) && fields[i].name == f == "id" && fields[i].ty.nullable
    case MissingId(n) => n == entity && !HasStored(fields, "id")
    case _ => false
  }

  ghost predicate Fault(defs: seq<Definition>, e: ParseError) {
    match e
    case NoEntities => EntityNames(defs) == []
    case DuplicateEntity(n) => Repeats(EntityNames(defs), n)
    case _ => exists d :: d in defs && IsEntity(d) && FieldsFault(NamesOf(defs), d.name, d.kind.fields, e)
  }

  // ---- What comes out ----

  ghost predicate DefinesEntity(defs: seq<Definition>, name: string) {
    exists d :: d in defs && d.TypeDefinition? && d.kind.ObjectKind? && "entity" in d.directives && d.name == name
  }

  ghost predicate DefinesEnum(defs: seq<Definition>, name: string) {
    exists d :: d in defs && d.TypeDefinition? && d.kind.EnumKind? && d.name == name
  }

  /** The type is the one the document means: a scalar of that name; else an enum it
      defines; else one of its entities; or a list of a scalar. */
  ghost predicate TypeTells(defs: seq<Definition>, ty: TypeRef, out: FieldType) {
    match out
    case ScalarF(s) => ty.base.Named? && ScalarOf(ty.base.name) == Some(s)
    case ScalarList(s) =>
      ty.base.ListOf? && ty.base.inner.base.Named? && ScalarOf(ty.base.inner.base.name) == Some(s)
    case EnumF(n) => ty.base == Named(n) && ScalarOf(n).None? && DefinesEnum(defs, n)
    case RelationTo(n) => ty.base == Named(n) && ScalarOf(n).None? && !DefinesEnum(defs, n) && DefinesEntity(defs, n)
  }

  /** The document has a meaning for the type. */
  ghost predicate Typed(defs: seq<Definition>, ty: TypeRef) {
    match ty.base
    case Named(n) => ScalarOf(n).Some? || DefinesEnum(defs, n) || DefinesEntity(defs, n)
    case ListOf(inner) => inner.base.Named? && ScalarOf(inner.base.name).Some?
  }

  ghost predicate FieldTells(defs: seq<Definition>, f: FieldDef, x: Field) {
    && x.name == f.name && x.column == SnakeCase(f.name) && TypeTells(defs, f.ty, x.ty)
    && x.nullable == f.ty.nullable
    && (x.indexed <==> "index" in f.directives) && (x.unique <==> "unique" in f.directives)
    && (x.isId <==> f.name == "id")
  }

  /** One column for each field that is not virtual, in order. */
  ghost predicate FieldsAre(defs: seq<Definition>, fs: seq<Field>, at: seq<nat>, fields: seq<FieldDef>) {
    && |at| == |fs| && Increasing(at)
    && (forall k: nat :: k in at <==> k < |fields| && "derivedFrom" !in fields[k].directives)
    && (forall i :: 0 <= i < |fs| ==> at[i] < |fields| && FieldTells(defs, fields[at[i]], fs[i]))
  }

  ghost predicate EntityTells(defs: seq<Definition>, d: Definition, e: Entity) {
    && d.TypeDefinition? && d.kind.ObjectKind? && e.name == d.name && e.table == TableName(d.name)
    && exists at: seq<nat> :: FieldsAre(defs, e.fields, at, d.kind.fields)
  }

  /** One entity for each object type marked as one, in order. The types mean what
      they mean in the whole document. */
  ghost predicate EntitiesAre(all: seq<Definition>, entities: seq<Entity>, at: seq<nat>, defs: seq<Definition>) {
    && |at| == |entities| && Increasing(at)
    && (forall k: nat :: k in at <==>
          k < |defs| && defs[k].TypeDefinition? && defs[k].kind.ObjectKind? && "entity" in defs[k].directives)
    && (forall i :: 0 <= i < |entities| ==> at[i] < |defs| && EntityTells(all, defs[at[i]], entities[i]))
  }

  /** One enum for each enum type, in order, with its values. */
  ghost predicate EnumsAre(defs: seq<Definition>, enums: seq<EnumDef>, at: seq<nat>) {
    && |at| == |enums| && Increasing(at)
    && (forall k: nat :: k in at <==> k < |defs| && defs[k].TypeDefinition? && defs[k].kind.EnumKind?)
    && (forall i :: 0 <= i < |enums| ==>
          at[i] < |defs| && defs[at[i]].TypeDefinition? && defs[at[i]].kind.EnumKind?
          && enums[i] == EnumDef(defs[at[i]].name, defs[at[i]].kind.values))
  }

  /** The model says what the document says. */
  ghost predicate ModelOf(model: Model, defs: seq<Definition>) {
    && (exists at: seq<nat> :: EntitiesAre(defs, model.entities, at, defs))
    && (exists at: seq<nat> :: EnumsAre(defs, model.enums, at))
  }

  lemma {:induction false} EntityNamesAre(defs: seq<Definition>, name: string)
    ensures name in EntityNames(defs) <==> DefinesEntity(defs, name)
  {
    if |defs| > 0 {
      var front, d := defs[..|defs| - 1], defs[|defs| - 1];
      EntityNamesAre(front, name);
      assert defs == front + [d];
      assert DefinesEntity(defs, name) <==> DefinesEntity(front, name) || (IsEntity(d) && d.name == name);
    }
  }

  lemma {:induction false} EnumNamesAre(defs: seq<Definition>, name: string)
    ensures (exists e :: e in EnumDefs(defs) && e.name == name) <==> DefinesEnum(defs, name)
  {
    if |defs| > 0 {
      var front, d := defs[..|defs| - 1], defs[|defs| - 1];
      EnumNamesAre(front, name);
      assert defs == front + [d];
      assert DefinesEnum(defs, name) <==> DefinesEnum(front, name) || (IsEnum(d) && d.name == name);
      if IsEnum(d) {
        assert EnumDefs(defs) == EnumDefs(front) + [EnumDef(d.name, d.kind.values)];
        assert EnumDef(d.name, d.kind.values) in EnumDefs(defs);
      } else {
        assert EnumDefs(defs) == EnumDefs(front);
      }
    }
  }

  lemma ResolvedTypeTells(defs: seq<Definition>, ty: TypeRef)
    ensures ResolveType(NamesOf(defs), ty).Some? <==> Typed(defs, ty)
    ensures ResolveType(NamesOf(defs), ty).Some? ==> TypeTells(defs, ty, ResolveType(NamesOf(defs), ty).value)
  {
    if ty.base.Named? {
      hide ScalarOf, EntityNames, EnumDefs, DefinesEntity, DefinesEnum;
      EntityNamesAre(defs, ty.base.name);
      EnumNamesAre(defs, ty.base.name);
    }
  }

  lemma FieldTold(defs: seq<Definition>, f: FieldDef)
    requires FieldOk(NamesOf(defs), f) && IsStored(f)
    ensures |FieldOf(NamesOf(defs), f)| == 1 && FieldTells(defs, f, FieldOf(NamesOf(defs), f)[0])
  {
    hide ResolveType, SnakeCase, TypeTells, NamesOf;
    ResolvedTypeTells(defs, f.ty);
  }

  lemma FieldsOfGrows(names: Names, front: seq<FieldDef>, f: FieldDef)
    ensures FieldsOf(names, front + [f]) == FieldsOf(names, front) + FieldOf(names, f)
  {
    assert (front + [f])[..|front|] == front;
  }

  lemma {:induction false} FieldsPick(defs: seq<Definition>, fields: seq<FieldDef>) returns (at: seq<nat>)
    requires forall i :: 0 <= i < |fields| ==> FieldOk(NamesOf(defs), fields[i])
    ensures FieldsAre(defs, FieldsOf(NamesOf(defs), fields), at, fields)
  {
    at := [];
    if |fields| > 0 {
      var front, f, names := fields[..|fields| - 1], fields[|fields| - 1], NamesOf(defs);
      assert fields == front + [f] && (!IsStored(f) ==> FieldOf(names, f) == []);
      hide FieldOk, FieldOf, FieldsOf, FieldsAre, NamesOf;
      at := FieldsPick(defs, front);
      FieldsOfGrows(names, front, f);
      if IsStored(f) {
        FieldTold(defs, f);
        FieldsAreMore(defs, FieldsOf(names, front), at, front, f, FieldOf(names, f)[0]);
        at := at + [|front|];
      } else {
        FieldsAreSame(defs, FieldsOf(names, front), at, front, f);
      }
    }
  }

  lemma FieldsAreSame(defs: seq<Definition>, fs: seq<Field>, at: seq<nat>, front: seq<FieldDef>, f: FieldDef)
    requires FieldsAre(defs, fs, at, front) && !IsStored(f)
    ensures FieldsAre(defs, fs, at, front + [f])
  {
    hide FieldTells;
    var all := front + [f];
    assert forall i :: 0 <= i < |at| ==> at[i] in at && all[at[i]] == front[at[i]];
  }

  lemma FieldsAreMore(defs: seq<Definition>, fs: seq<Field>, at: seq<nat>, front: seq<FieldDef>, f: FieldDef, x: Field)
    requires FieldsAre(defs, fs, at, front) && IsStored(f) && FieldTells(defs, f, x)
    ensures FieldsAre(defs, fs + [x], at + [|front|], front + [f])
  {
    hide FieldTells;
    var more, all := at + [|front|], front + [f];
    assert forall k: nat :: k in more <==> k in at || k == |front|;
    assert forall i :: 0 <= i < |at| ==> at[i] in at && all[at[i]] == front[at[i]];
  }

  lemma {:induction false} EnumsPick(defs: seq<Definition>) returns (at: seq<nat>)
    ensures EnumsAre(defs, EnumDefs(defs), at)
  {
    at := [];
    if |defs| > 0 {
      hide EnumsAre, Collect;
      var front, d := defs[..|defs| - 1], defs[|defs| - 1];
      assert defs == front + [d];
      at := EnumsPick(front);
      CollectStep(EnumOf, front, d);
      OneMoreEnum(front, EnumDefs(front), at, d);
      at := if IsEnum(d) then at + [|front|] else at;
    }
  }

  lemma OneMoreEnum(front: seq<Definition>, enums: seq<EnumDef>, at: seq<nat>, d: Definition)
    requires EnumsAre(front, enums, at)
    ensures EnumsAre(front + [d], enums + EnumOf(d), if IsEnum(d) then at + [|front|] else at)
  {
    var more, defs := at + [|front|], front + [d];
    assert forall i :: 0 <= i < |at| ==> at[i] in at && defs[at[i]] == front[at[i]];
    if IsEnum(d) {
      assert forall k: nat :: k in more <==> k in at || k == |front|;
    }
  }

  lemma {:induction false} EntitiesPick(all: seq<Definition>, defs: seq<Definition>) returns (at: seq<nat>)
    requires forall d :: d in defs && IsEntity(d) ==> FieldsOk(NamesOf(all), d.kind.fields)
    ensures EntitiesAre(all, EntitiesOf(NamesOf(all), defs), at, defs)
  {
    at := [];
    if |defs| > 0 {
      hide FieldsOk, FieldsOf, EntityTells, NamesOf, EntitiesAre, Collect;
      var front, d, f := defs[..|defs| - 1], defs[|defs| - 1], (x: Definition) => EntityOf(NamesOf(all), x);
      assert defs == front + [d];
      at := EntitiesPick(all, front);
      CollectStep(f, front, d);
      if IsEntity(d) {
        OneEntityTells(all, d);
        EntitiesAreMore(all, EntitiesOf(NamesOf(all), front), at, front, d, EntityOf(NamesOf(all), d)[0]);
        at := at + [|front|];
      } else {
        EntitiesAreSame(all, EntitiesOf(NamesOf(all), front), at, front, d);
      }
    }
  }

  lemma EntitiesAreMore(
      all: seq<Definition>, es: seq<Entity>, at: seq<nat>, front: seq<Definition>, d: Definition, e: Entity)
    requires EntitiesAre(all, es, at, front) && IsEntity(d) && EntityTells(all, d, e)
    ensures EntitiesAre(all, es + [e], at + [|front|], front + [d])
  {
    hide EntityTells;
    var more, defs := at + [|front|], front + [d];
    assert forall k: nat :: k in more <==> k in at || k == |front|;
    assert forall i :: 0 <= i < |at| ==> at[i] in at && defs[at[i]] == front[at[i]];
  }

  lemma EntitiesAreSame(all: seq<Definition>, es: seq<Entity>, at: seq<nat>, front: seq<Definition>, d: Definition)
    requires EntitiesAre(all, es, at, front) && !IsEntity(d)
    ensures EntitiesAre(all, es, at, front + [d])
  {
    hide EntityTells;
    var defs := front + [d];
    assert forall i :: 0 <= i < |at| ==> at[i] in at && defs[at[i]] == front[at[i]];
  }

  lemma OneEntityTells(all: seq<Definition>, d: Definition)
    requires IsEntity(d) && FieldsOk(NamesOf(all), d.kind.fields)
    ensures EntityTells(all, d, EntityOf(NamesOf(all), d)[0])
  {
    hide FieldsAre, FieldsOf, FieldOk;
    var at := FieldsPick(all, d.kind.fields);
  }

  /** The definitions resolved in order are a model of the document. */
  lemma ResolvedIsModel(defs: seq<Definition>)
    requires Accepts(defs)
    ensures ModelOf(Model(EntitiesOf(NamesOf(defs), defs), EnumDefs(defs)), defs)
  {
    hide FieldsOk, EntitiesAre, EnumsAre;
    var at := EntitiesPick(defs, defs);
    var enumsAt := EnumsPick(defs);
  }

  // ---- What is accepted, said of the document ----

  /** The columns have types, no field repeats the name of a column before it, and
      there is a column `id`, which is not nullable. */
  ghost predicate FieldsFit(defs: seq<Definition>, fields: seq<FieldDef>) {
    && (forall i :: 0 <= i < |fields| && "derivedFrom" !in fields[i].directives ==>
          Typed(defs, fields[i].ty) && !(fields[i].name == "id" && fields[i].ty.nullable))
    && (forall i, j :: 0 <= i < j < |fields| && "derivedFrom" !in fields[i].directives ==>
          fields[i].name != fields[j].name)
    && (exists i :: 0 <= i < |fields| && "derivedFrom" !in fields[i].directives && fields[i].name == "id")
  }

  ghost predicate MarksEntity(d: Definition, name: string) {
    d.TypeDefinition? && d.kind.ObjectKind? && "entity" in d.directives && d.name == name
  }

  ghost predicate EntitiesApart(defs: seq<Definition>) {
    forall i, j, n :: 0 <= i < j < |defs| && MarksEntity(defs[i], n) ==> !MarksEntity(defs[j], n)
  }

  lemma FieldsFitIff(defs: seq<Definition>, fields: seq<FieldDef>)
    ensures FieldsOk(NamesOf(defs), fields) <==> FieldsFit(defs, fields)
  {
    hide ResolveType, Typed, NamesOf;
    forall i | 0 <= i < |fields|
      ensures ResolveType(NamesOf(defs), fields[i].ty).Some? <==> Typed(defs, fields[i].ty)
    {
      ResolvedTypeTells(defs, fields[i].ty);
    }
  }

  lemma {:induction false} EntitiesApartIff(defs: seq<Definition>)
    ensures Distinct(EntityNames(defs)) <==> EntitiesApart(defs)
    ensures EntityNames(defs) != [] <==> exists d, n :: d in defs && MarksEntity(d, n)
  {
    if |defs| > 0 {
      var front, d := defs[..|defs| - 1], defs[|defs| - 1];
      assert defs == front + [d];
      EntitiesApartIff(front);
      OneMoreEntity(front, d);
      CollectStep(EntityName, front, d);
      hide EntitiesApart, Distinct, Collect, DefinesEntity;
      if IsEntity(d) {
        assert MarksEntity(d, d.name);
        EntityNamesAre(front, d.name);
        OneMoreName(EntityNames(front), d.name);
      } else {
        assert EntityNames(defs) == EntityNames(front);
      }
    }
  }

  lemma OneMoreName(names: seq<string>, name: string)
    ensures Distinct(names + [name]) <==> Distinct(names) && name !in names
  {
    var all := names + [name];
    assert all[|names|] == name && forall k :: 0 <= k < |names| ==> all[k] == names[k];
  }

  lemma OneMoreEntity(front: seq<Definition>, d: Definition)
    ensures EntitiesApart(front + [d])
        <==> EntitiesApart(front) && (IsEntity(d) ==> !DefinesEntity(front, d.name))
  {
    var all := front + [d];
    assert all[|front|] == d && forall k :: 0 <= k < |front| ==> all[k] == front[k];
    if IsEntity(d) && DefinesEntity(front, d.name) {
      var k :| 0 <= k < |front| && MarksEntity(front[k], d.name);
      assert MarksEntity(all[k], d.name) && MarksEntity(all[|front|], d.name);
    }
  }

  /** A document is accepted exactly when it marks an entity, no two entities have
      one name, and the fields of every entity fit, whatever the order in which
      types are defined and used. */
  lemma AcceptsIff(defs: seq<Definition>)
    ensures Accepts(defs)
       <==> && (exists d, n :: d in defs && MarksEntity(d, n)) && EntitiesApart(defs)
            && (forall d, n :: d in defs && MarksEntity(d, n) ==> FieldsFit(defs, d.kind.fields))
  {
    hide EntitiesApart, FieldsFit, FieldsOk, EntityNames, Distinct;
    EntitiesApartIff(defs);
    forall d | d in defs && IsEntity(d)
      ensures MarksEntity(d, d.name) && (FieldsOk(NamesOf(defs), d.kind.fields) <==> FieldsFit(defs, d.kind.fields))
    {
      FieldsFitIff(defs, d.kind.fields);
    }
  }

  // ---- The resolver ----

  predicate HasField(fields: seq<Field>, name: string) {
    exists x :: x in fields && x.name == name
  }

  /** The columns of an entity are those of its stored fields. */
  lemma {:induction false} FieldsOfHas(names: Names, fields: seq<FieldDef>, name: string)
    requires forall i :: 0 <= i < |fields| ==> FieldOk(names, fields[i])
    ensures HasField(FieldsOf(names, fields), name) <==> HasStored(fields, name)
  {
    hide ResolveType;
    if |fields| > 0 {
      var front, f := fields[..|fields| - 1], fields[|fields| - 1];
      FieldsOfHas(names, front, name);
      assert fields == front + [f];
      assert FieldOk(names, f);
      var before, added := FieldsOf(names, front), FieldOf(names, f);
      assert HasField(before + added, name) <==> HasField(before, name) || HasField(added, name);
      assert HasStored(fields, name) <==> HasStored(front, name) || (IsStored(f) && f.name == name);
      assert IsStored(f) ==> added[0].name == f.name;
    }
  }

  lemma {:induction false} IdsAreNamedId(names: Names, fields: seq<FieldDef>)
    requires forall i :: 0 <= i < |fields| ==> FieldOk(names, fields[i])
    ensures forall x :: x in FieldsOf(names, fields) ==> x.isId == (x.name == "id") && !(x.isId && x.nullable)
  {
    if |fields| > 0 {
      hide ResolveType, SnakeCase;
      var front, f := fields[..|fields| - 1], fields[|fields| - 1];
      IdsAreNamedId(names, front);
      assert FieldOk(names, f);
      assert forall x :: x in FieldsOf(names, fields) ==> x in FieldsOf(names, front) || x in FieldOf(names, f);
    }
  }

  /** The type of one stored field. */
  method ParseType(names: Names, entity: string, f: FieldDef) returns (r: Parsed<FieldType>)
    ensures r.Parsed? ==> ResolveType(names, f.ty) == Some(r.value)
    ensures r.Rejected? && IsStored(f) ==> FieldsFault(names, entity, [f], r.error) && !r.error.MissingId?
  {
    assert [f][0] == f;
    match f.ty.base {
      case Named(n) =>
        var scalar := ScalarOf(n);
        if scalar.Some? {
          return Parsed(ScalarF(scalar.value));
        } else if NamesEnum(names, n) {
          return Parsed(EnumF(n));
        } else if n in names.entities {
          return Parsed(RelationTo(n));
        } else {
          return Rejected(UnknownType(entity, f.name, n));
        }
      case ListOf(inner) =>
        match inner.base {
          case Named(n) =>
            var scalar := ScalarOf(n);
            return if scalar.Some? then Parsed(ScalarList(scalar.value))
                   else Rejected(ListNotSupported(entity, f.name, n));
          case ListOf(_) =>
            return Rejected(ListNotSupported(entity, f.name, "nested list"));
        }
    }
  }

  /** A fault of one field is a fault of the entity. */
  lemma FaultSpreads(names: Names, entity: string, fields: seq<FieldDef>, i: nat, e: ParseError)
    requires i < |fields| && FieldsFault(names, entity, [fields[i]], e) && !e.MissingId?
    ensures FieldsFault(names, entity, fields, e)
  {
  }

  lemma NullableIdIsFault(names: Names, entity: string, fields: seq<FieldDef>, i: nat)
    requires i < |fields| && IsStored(fields[i]) && fields[i].name == "id" && fields[i].ty.nullable
    ensures FieldsFault(names, entity, fields, NullableId(entity, "id"))
  {
  }

  lemma NoRepeatsGrows(names: Names, entity: string, fields: seq<FieldDef>, i: nat)
    requires i < |fields| && NoRepeats(fields[..i])
    ensures if HasStored(fields[..i], fields[i].name)
            then FieldsFault(names, entity, fields, DuplicateField(entity, fields[i].name))
            else NoRepeats(fields[..i + 1])
  {
  }

  /** An entity without a stored `id` has no primary key. */
  lemma HasIdIff(names: Names, entity: string, fields: seq<FieldDef>)
    requires forall i :: 0 <= i < |fields| ==> FieldOk(names, fields[i])
    ensures (exists x :: x in FieldsOf(names, fields) && x.isId) <==> HasStored(fields, "id")
    ensures !HasStored(fields, "id") ==> FieldsFault(names, entity, fields, MissingId(entity))
  {
    hide FieldsOf, FieldOk, ResolveType, HasStored;
    FieldsOfHas(names, fields, "id");
    IdsAreNamedId(names, fields);
  }

  lemma FieldsOfStep(names: Names, fields: seq<FieldDef>)
    requires 0 < |fields| && FieldOk(names, fields[|fields| - 1])
    ensures var front, f := fields[..|fields| - 1], fields[|fields| - 1];
            if IsStored(f)
            then |FieldOf(names, f)| == 1 && FieldOf(names, f)[0].column == SnakeCase(f.name)
                 && FieldsOf(names, fields) == FieldsOf(names, front) + [FieldOf(names, f)[0]]
            else FieldsOf(names, fields) == FieldsOf(names, front)
  {
  }

  /** The first `i` fields passed the checks, and these are their columns. */
  ghost predicate ParsedUpTo(names: Names, defs: seq<FieldDef>, i: nat, fields: seq<Field>) {
    && i <= |defs| && fields == FieldsOf(names, defs[..i]) && NoRepeats(defs[..i])
    && forall j :: 0 <= j < i ==> FieldOk(names, defs[j])
  }

  /** A column of that name there already is a fault; if there is none, a field that
      passes the other checks adds its column, and a virtual one adds none. */
  lemma OneFieldParsed(names: Names, entity: string, defs: seq<FieldDef>, i: nat, fields: seq<Field>)
    requires ParsedUpTo(names, defs, i, fields) && i < |defs|
    ensures HasField(fields, defs[i].name) ==>
              FieldsFault(names, entity, defs, DuplicateField(entity, defs[i].name))
    ensures var f := defs[i];
            !HasField(fields, f.name) ==>
              && (!IsStored(f) ==> ParsedUpTo(names, defs, i + 1, fields))
              && (IsStored(f) && ResolveType(names, f.ty).Some? && !(f.name == "id" && f.ty.nullable) ==>
                    ParsedUpTo(names, defs, i + 1,
                      fields + [Field(f.name, SnakeCase(f.name), ResolveType(names, f.ty).value, f.ty.nullable,
                                      "index" in f.directives, "unique" in f.directives, f.name == "id")]))
  {
    FieldsOfHas(names, defs[..i], defs[i].name);
    NoRepeatsGrows(names, entity, defs, i);
    hide ResolveType, SnakeCase, HasField, HasStored, FieldsFault, NoRepeats;
    assert defs[..i + 1][..i] == defs[..i];
  }

  lemma AllFieldsParsed(names: Names, entity: string, defs: seq<FieldDef>, fields: seq<Field>)
    requires ParsedUpTo(names, defs, |defs|, fields)
    ensures fields == FieldsOf(names, defs)
    ensures if exists x :: x in fields && x.isId then FieldsOk(names, defs)
            else FieldsFault(names, entity, defs, MissingId(entity))
  {
    hide FieldsOf, FieldOk, NoRepeats, HasStored;
    assert defs[..|defs|] == defs;
    HasIdIff(names, entity, defs);
  }

  /** Pass two for one entity. */
  method ParseFields(names: Names, entity: string, defs: seq<FieldDef>) returns (r: Parsed<seq<Field>>)
    ensures r.Parsed? ==> FieldsOk(names, defs) && r.value == FieldsOf(names, defs)
    ensures r.Rejected? ==> FieldsFault(names, entity, defs, r.error)
  {
    var fields: seq<Field> := [];
    assert ParsedUpTo(names, defs, 0, fields);
    hide ResolveType, NamesEnum, FieldsFault, FieldsOk, HasField, FieldsOf, ParsedUpTo, SnakeCase;
    for i := 0 to |defs|
      invariant ParsedUpTo(names, defs, i, fields)
    {
      var f := defs[i];
      OneFieldParsed(names, entity, defs, i, fields);
      if HasField(fields, f.name) {
        return Rejected(DuplicateField(entity, f.name));
      }
      if "derivedFrom" in f.directives {
        continue;
      }
      var ty := ParseType(names, entity, f);
      if ty.Rejected? {
        FaultSpreads(names, entity, defs, i, ty.error);
        return Rejected(ty.error);
      }
      if f.name == "id" && f.ty.nullable {
        NullableIdIsFault(names, entity, defs, i);
        return Rejected(NullableId(entity, f.name));
      }
      fields := fields + [Field(f.name, SnakeCase(f.name), ty.value, f.ty.nullable,
                                "index" in f.directives, "unique" in f.directives, f.name == "id")];
    }
    AllFieldsParsed(names, entity, defs, fields);
    if !exists x :: x in fields && x.isId {
      return Rejected(MissingId(entity));
    }
    return Parsed(fields);
  }

  /** Pass one: the enums and the entity names, refusing a repeated entity. */
  method CollectNames(defs: seq<Definition>) returns (r: Parsed<Names>)
    ensures r.Parsed? ==> r.value == NamesOf(defs) && EntityNames(defs) != [] && Distinct(EntityNames(defs))
    ensures r.Rejected? ==> Fault(defs, r.error) && (r.error.NoEntities? || r.error.DuplicateEntity?)
  {
    var enums: seq<EnumDef>, entities: seq<string> := [], [];
    for i := 0 to |defs|
      invariant enums == EnumDefs(defs[..i]) && entities == EntityNames(defs[..i]) && Distinct(entities)
    {
      var d := defs[i];
      assert defs[..i + 1][..i] == defs[..i];
      if IsEntity(d) {
        if d.name in entities {
          RepeatStays(defs, i);
          return Rejected(DuplicateEntity(d.name));
        }
        entities := entities + [d.name];
      } else if IsEnum(d) {
        enums := enums + [EnumDef(d.name, d.kind.values)];
      }
    }
    assert defs[..|defs|] == defs;
    if |entities| == 0 {
      return Rejected(NoEntities);
    }
    return Parsed(Names(enums, entities));
  }

  lemma {:induction false} RepeatStays(defs: seq<Definition>, i: nat)
    requires i < |defs| && IsEntity(defs[i]) && defs[i].name in EntityNames(defs[..i])
    ensures Repeats(EntityNames(defs), defs[i].name)
  {
    var front := defs[..|defs| - 1];
    var names, all := EntityNames(front), EntityNames(defs);
    if i == |front| {
      var k :| 0 <= k < |names| && names[k] == defs[i].name;
      assert all[k] == all[|names|];
    } else {
      assert front[..i] == defs[..i];
      RepeatStays(front, i);
      var j, k :| 0 <= j < k < |names| && names[j] == names[k] == defs[i].name;
      assert all[j] == all[k] == defs[i].name;
    }
  }

  /** The two passes. What is accepted and what comes out are said without
      reference to either pass; a rejection names a fault the document has. */
  method ParseSchema(defs: seq<Definition>) returns (r: Parsed<Model>)
    ensures r.Parsed? <==> Accepts(defs)
    ensures r.Parsed? ==> r.value == Model(EntitiesOf(NamesOf(defs), defs), EnumDefs(defs))
    ensures r.Parsed? ==> ModelOf(r.value, defs)
    ensures r.Rejected? ==> Fault(defs, r.error)
  {
    hide ModelOf;
    var collected := CollectNames(defs);
    if collected.Rejected? {
      return Rejected(collected.error);
    }
    var names := collected.value;
    var entities: seq<Entity> := [];
    for i := 0 to |defs|
      invariant entities == EntitiesOf(names, defs[..i])
      invariant forall d :: d in defs[..i] && IsEntity(d) ==> FieldsOk(names, d.kind.fields)
    {
      var d := defs[i];
      assert defs[..i + 1][..i] == defs[..i];
      if !IsEntity(d) {
        continue;
      }
      var fields := ParseFields(names, d.name, d.kind.fields);
      if fields.Rejected? {
        FaultIsNotOk(names, d.name, d.kind.fields, fields.error);
        return Rejected(fields.error);
      }
      entities := entities + [Entity(d.name, TableName(d.name), fields.value)];
    }
    assert defs[..|defs|] == defs;
    ResolvedIsModel(defs);
    return Parsed(Model(entities, names.enums));
  }

  lemma FaultIsNotOk(names: Names, entity: string, fields: seq<FieldDef>, e: ParseError)
    requires FieldsFault(names, entity, fields, e)
    ensures !FieldsOk(names, fields) && !e.NoEntities? && !e.DuplicateEntity?
  {
  }

  // ---- Accepted entities ----

  lemma {:induction false} FieldNamesDistinct(names: Names, fields: seq<FieldDef>)
    requires NoRepeats(fields) && forall i :: 0 <= i < |fields| ==> FieldOk(names, fields[i])
    ensures var fs := FieldsOf(names, fields);
            forall j, k :: 0 <= j < k < |fs| ==> fs[j].name != fs[k].name
  {
    if |fields| > 0 {
      var front, f := fields[..|fields| - 1], fields[|fields| - 1];
      FieldNamesDistinct(names, front);
      FieldsOfHas(names, front, f.name);
    }
  }

  /** No two stored fields are given the same column. */
  ghost predicate ColumnsApart(fields: seq<FieldDef>) {
    forall i, j :: 0 <= i < j < |fields| && IsStored(fields[i]) && IsStored(fields[j]) ==>
      SnakeCase(fields[i].name) != SnakeCase(fields[j].name)
  }

  predicate HasColumn(fields: seq<Field>, column: string) {
    exists x :: x in fields && x.column == column
  }

  ghost predicate StoresColumn(fields: seq<FieldDef>, column: string) {
    exists f :: f in fields && IsStored(f) && SnakeCase(f.name) == column
  }

  lemma {:induction false} FieldsOfHasColumn(names: Names, fields: seq<FieldDef>, column: string)
    requires forall i :: 0 <= i < |fields| ==> FieldOk(names, fields[i])
    ensures HasColumn(FieldsOf(names, fields), column) <==> StoresColumn(fields, column)
  {
    hide ResolveType;
    if |fields| > 0 {
      var front, f := fields[..|fields| - 1], fields[|fields| - 1];
      FieldsOfHasColumn(names, front, column);
      assert fields == front + [f];
      assert FieldOk(names, f);
      var before, added := FieldsOf(names, front), FieldOf(names, f);
      assert HasColumn(before + added, column) <==> HasColumn(before, column) || HasColumn(added, column);
      assert StoresColumn(fields, column)
          <==> StoresColumn(front, column) || (IsStored(f) && SnakeCase(f.name) == column);
      assert IsStored(f) ==> added[0].column == SnakeCase(f.name);
    }
  }

  ghost predicate DistinctColumns(fs: seq<Field>) {
    forall j, k :: 0 <= j < k < |fs| ==> fs[j].column != fs[k].column
  }

  lemma OneMoreColumn(fs: seq<Field>, x: Field)
    ensures DistinctColumns(fs + [x]) <==> DistinctColumns(fs) && !HasColumn(fs, x.column)
  {
    var all := fs + [x];
    assert all[|fs|] == x && forall k :: 0 <= k < |fs| ==> all[k] == fs[k];
  }

  lemma OneMoreField(front: seq<FieldDef>, f: FieldDef)
    ensures ColumnsApart(front + [f])
        <==> ColumnsApart(front) && (IsStored(f) ==> !StoresColumn(front, SnakeCase(f.name)))
  {
    hide SnakeCase;
    var all := front + [f];
    assert all[|front|] == f && forall k :: 0 <= k < |front| ==> all[k] == front[k];
  }

  lemma {:induction false} ColumnsDistinctIff(names: Names, fields: seq<FieldDef>)
    requires forall i :: 0 <= i < |fields| ==> FieldOk(names, fields[i])
    ensures DistinctColumns(FieldsOf(names, fields)) <==> ColumnsApart(fields)
  {
    if |fields| > 0 {
      hide FieldOk, FieldOf, FieldsOf, SnakeCase, DistinctColumns, ColumnsApart, HasColumn, StoresColumn;
      var front, f := fields[..|fields| - 1], fields[|fields| - 1];
      ColumnsDistinctIff(names, front);
      FieldsOfHasColumn(names, front, SnakeCase(f.name));
      FieldsOfStep(names, fields);
      assert fields == front + [f];
      OneMoreField(front, f);
      if IsStored(f) {
        OneMoreColumn(FieldsOf(names, front), FieldOf(names, f)[0]);
      }
    }
  }

  /** An accepted entity is one the upsert generator can be trusted with exactly
      when no two of its stored fields have the same snake-case name: names are
      checked for repeats, columns are not. */
  lemma AcceptedIsWellFormedIff(names: Names, d: Definition)
    requires IsEntity(d) && FieldsOk(names, d.kind.fields)
    ensures Upsert.WellFormed(EntityOf(names, d)[0]) <==> ColumnsApart(d.kind.fields)
  {
    hide ResolveType, FieldsOf;
    var fs := FieldsOf(names, d.kind.fields);
    ColumnsDistinctIff(names, d.kind.fields);
    FieldNamesDistinct(names, d.kind.fields);
    IdsAreNamedId(names, d.kind.fields);
    FieldsOfHas(names, d.kind.fields, "id");
    var x :| x in fs && x.name == "id";
    assert x.isId;
  }

  /** Which is so whenever the fields are named in camel case. */
  lemma CamelFieldsAreWellFormed(names: Names, d: Definition)
    requires IsEntity(d) && FieldsOk(names, d.kind.fields)
    requires forall i :: 0 <= i < |d.kind.fields| ==> IsCamel(d.kind.fields[i].name)
    ensures Upsert.WellFormed(EntityOf(names, d)[0])
  {
    var fields := d.kind.fields;
    forall i, j | 0 <= i < j < |fields| && IsStored(fields[i]) && IsStored(fields[j])
      ensures SnakeCase(fields[i].name) != SnakeCase(fields[j].name)
    {
      CamelNamesStayApart(fields[i].name, fields[j].name);
    }
    AcceptedIsWellFormedIff(names, d);
  }

  // ---- The order of definitions ----

  lemma CollectStep<T>(f: Definition -> seq<T>, front: seq<Definition>, last: Definition)
    ensures Collect(f, front + [last]) == Collect(f, front) + f(last)
  {
  }

  lemma {:induction false} CollectWithout<T>(f: Definition -> seq<T>, defs: seq<Definition>, k: nat)
    requires k < |defs|
    ensures multiset(Collect(f, defs)) == multiset(Collect(f, defs[..k] + defs[k + 1..])) + multiset(f(defs[k]))
  {
    hide Collect;
    var front, last := defs[..|defs| - 1], defs[|defs| - 1];
    assert defs == front + [last];
    CollectStep(f, front, last);
    if k == |front| {
      assert defs[..k] + defs[k + 1..] == front;
    } else {
      CollectWithout(f, front, k);
      var rest := front[..k] + front[k + 1..];
      assert defs[..k] + defs[k + 1..] == rest + [last];
      CollectStep(f, rest, last);
    }
  }

  /** A sequence that holds `x` can be taken apart at one of its places. */
  lemma PlaceOf(ys: seq<Definition>, x: Definition) returns (k: nat)
    requires x in multiset(ys)
    ensures k < |ys| && ys[k] == x && multiset(ys[..k] + ys[k + 1..]) == multiset(ys) - multiset{x}
  {
    k :| k < |ys| && ys[k] == x;
    assert ys == ys[..k] + [x] + ys[k + 1..];
  }

  lemma {:induction false} CollectPermutes<T>(f: Definition -> seq<T>, xs: seq<Definition>, ys: seq<Definition>)
    requires multiset(xs) == multiset(ys)
    ensures multiset(Collect(f, xs)) == multiset(Collect(f, ys))
  {
    if |xs| == 0 {
      assert |multiset(ys)| == 0;
      assert ys == [];
    } else {
      var front, x := xs[..|xs| - 1], xs[|xs| - 1];
      assert xs == front + [x];
      var k := PlaceOf(ys, x);
      assert multiset(front) == multiset(xs) - multiset{x};
      CollectPermutes(f, front, ys[..k] + ys[k + 1..]);
      CollectWithout(f, ys, k);
    }
  }

  lemma {:induction false} CollectSame<T>(f: Definition -> seq<T>, g: Definition -> seq<T>, defs: seq<Definition>)
    requires forall d :: f(d) == g(d)
    ensures Collect(f, defs) == Collect(g, defs)
  {
    if |defs| > 0 {
      CollectSame(f, g, defs[..|defs| - 1]);
    }
  }

  lemma {:induction false} DistinctIff(s: seq<string>)
    ensures Distinct(s) <==> forall n :: multiset(s)[n] <= 1
  {
    if |s| > 0 {
      var front, last := s[..|s| - 1], s[|s| - 1];
      DistinctIff(front);
      assert s == front + [last];
      if last in front {
        assert multiset(front)[last] >= 1 && multiset(s)[last] >= 2;
        var k :| 0 <= k < |front| && front[k] == last;
        assert s[k] == s[|front|];
      } else {
        assert multiset(front)[last] == 0;
        assert forall n :: multiset(s)[n] == multiset(front)[n] + if n == last then 1 else 0;
        assert forall i :: 0 <= i < |front| ==> s[i] == front[i] && front[i] in front;
      }
    }
  }

  /** Documents with the same names resolve the same types. */
  ghost predicate SameNames(m: Names, n: Names) {
    (forall e :: e in m.enums <==> e in n.enums) && (forall name :: name in m.entities <==> name in n.entities)
  }

  lemma SameTypes(m: Names, n: Names, ty: TypeRef)
    requires SameNames(m, n)
    ensures ResolveType(m, ty) == ResolveType(n, ty)
  {
  }

  lemma {:induction false} SameFields(m: Names, n: Names, fields: seq<FieldDef>)
    requires SameNames(m, n)
    ensures FieldsOf(m, fields) == FieldsOf(n, fields)
    ensures FieldsOk(m, fields) <==> FieldsOk(n, fields)
  {
    hide ResolveType;
    forall i | 0 <= i < |fields| ensures ResolveType(m, fields[i].ty) == ResolveType(n, fields[i].ty) {
      SameTypes(m, n, fields[i].ty);
    }
    if |fields| > 0 {
      SameFields(m, n, fields[..|fields| - 1]);
    }
  }

  /** Definitions may come in any order: what is accepted, and the entities and
      enums that come out, do not depend on it. */
  lemma OrderDoesNotMatter(xs: seq<Definition>, ys: seq<Definition>)
    requires multiset(xs) == multiset(ys)
    ensures Accepts(xs) <==> Accepts(ys)
    ensures multiset(EntitiesOf(NamesOf(xs), xs)) == multiset(EntitiesOf(NamesOf(ys), ys))
    ensures multiset(EnumDefs(xs)) == multiset(EnumDefs(ys))
  {
    hide FieldsOk, FieldsOf, Collect;
    var m, n := NamesOf(xs), NamesOf(ys);
    CollectPermutes(EntityName, xs, ys);
    CollectPermutes(EnumOf, xs, ys);
    assert SameNames(m, n) by {
      forall e ensures e in m.enums <==> e in n.enums { assert e in multiset(m.enums) <==> e in multiset(n.enums); }
      forall x ensures x in m.entities <==> x in n.entities {
        assert x in multiset(m.entities) <==> x in multiset(n.entities);
      }
    }
    DistinctIff(m.entities);
    DistinctIff(n.entities);
    assert |m.entities| == |multiset(m.entities)| == |n.entities|;
    forall d ensures d in xs <==> d in ys { assert d in multiset(xs) <==> d in multiset(ys); }
    forall d | IsEntity(d)
      ensures FieldsOk(m, d.kind.fields) <==> FieldsOk(n, d.kind.fields)
      ensures EntityOf(m, d) == EntityOf(n, d)
    {
      SameFields(m, n, d.kind.fields);
    }
    var f, g := (d: Definition) => EntityOf(m, d), (d: Definition) => EntityOf(n, d);
    CollectSame(f, g, ys);
    CollectPermutes(f, xs, ys);
  }
}
