/** The contract compiler: one contract tree read as a runtime validator and as a JSON Schema. */
module Contracts {
  import opened Domain
  import opened JsonSchema

  datatype Kind =
    | StringKind
    | BooleanKind
    | UnsignedKind
    | PositiveKind
    | StringArray
    | Shape(contract: Contract)
    | ArrayOf(item: Kind)
    | BoundedArray(item: Kind, maximum: nat)
    | MapOf(item: Kind)
    | OneOf(kinds: seq<Kind>)
    | BooleanOrEnum(values: seq<string>)
    | Enum(values: seq<string>)

  datatype Field = Field(name: string, kind: Kind, required: bool)

  datatype Contract = Contract(fields: seq<Field>, minProperties: nat, exactlyOneOf: seq<string>)

  const U64_BOUND := 0x1_0000_0000_0000_0000

  /** The unsigned 64-bit reading of a value; a number written as a float has none. */
  function AsUnsigned(v: Json): Option<nat> {
    if v.Int? && 0 <= v.number < U64_BOUND then Some(v.number) else None
  }

  function FindField(fields: seq<Field>, name: string): (i: nat)
    ensures i <= |fields| && (i < |fields| ==> fields[i].name == name)
    ensures forall j :: 0 <= j < i ==> fields[j].name != name
  {
    if fields == [] then 0 else if fields[0].name == name then 0 else 1 + FindField(fields[1..], name)
  }

  function Present(names: seq<string>, given: map<string, Json>): nat {
    if names == [] then 0
    else Present(names[..|names| - 1], given) + if names[|names| - 1] in given then 1 else 0
  }

  predicate RequiredPresent(fields: seq<Field>, given: map<string, Json>) {
    forall f | f in fields :: f.required ==> f.name in given
  }

  // ---- The runtime validator -----------------------------------------------

  predicate Accepts(kind: Kind, v: Json)
    decreases kind
  {
    match kind
    case StringKind => v.Str?
    case BooleanKind => v.Bool?
    case UnsignedKind => AsUnsigned(v).Some?
    case PositiveKind => AsUnsigned(v).Some? && AsUnsigned(v).value > 0
    case StringArray => v.Arr? && forall x | x in v.items :: x.Str?
    case Shape(contract) =>
      && v.Obj? && |v.fields| >= contract.minProperties
      && RequiredPresent(contract.fields, v.fields)
      && (contract.exactlyOneOf != [] ==> Present(contract.exactlyOneOf, v.fields) == 1)
      && FieldsAccepted(contract.fields, v.fields)
    case ArrayOf(item) => v.Arr? && forall x | x in v.items :: Accepts(item, x)
    case BoundedArray(item, maximum) =>
      v.Arr? && |v.items| <= maximum && forall x | x in v.items :: Accepts(item, x)
    case MapOf(item) => v.Obj? && forall n | n in v.fields :: Accepts(item, v.fields[n])
    case OneOf(kinds) => Accepting(kinds, v) == 1
    case BooleanOrEnum(values) => v.Bool? || (v.Str? && v.text in values)
    case Enum(values) => v.Str? && v.text in values
  }

  /** Every property is named by a field, and the first such field accepts it. */
  predicate FieldsAccepted(fields: seq<Field>, given: map<string, Json>)
    decreases fields
  {
    forall n | n in given ::
      var i := FindField(fields, n);
      i < |fields| && Accepts(fields[i].kind, given[n])
  }

  function Accepting(kinds: seq<Kind>, v: Json): nat
    decreases kinds
  {
    if kinds == [] then 0
    else Accepting(kinds[..|kinds| - 1], v) + if Accepts(kinds[|kinds| - 1], v) then 1 else 0
  }

  // ---- The compiled schema -------------------------------------------------

  function Typed(t: TypeName): Schema {
    ANYTHING.(typeName := Some(t))
  }

  function EnumSchema(values: seq<string>): Schema {
    ANYTHING.(typeName := Some(StringType), enumeration := Some(values))
  }

  function RequireName(name: string): Schema {
    ANYTHING.(required := [name])
  }

  function RequireEach(names: seq<string>): (r: seq<Schema>)
    ensures |r| == |names|
  {
    seq(|names|, i requires 0 <= i < |names| => RequireName(names[i]))
  }

  function SchemaOf(kind: Kind): Schema
    decreases kind
  {
    match kind
    case StringKind => Typed(StringType)
    case BooleanKind => Typed(BooleanType)
    case UnsignedKind => ANYTHING.(typeName := Some(IntegerType), minimum := Some(0))
    case PositiveKind => ANYTHING.(typeName := Some(IntegerType), minimum := Some(1))
    case StringArray => ANYTHING.(typeName := Some(ArrayType), items := Some(Typed(StringType)))
    case Shape(contract) =>
      var schema := FieldsSchema(contract.fields);
      schema.(minProperties := contract.minProperties,
              oneOf :=
                if contract.exactlyOneOf == [] then NoAlternatives
                else ExactlyOne(RequireEach(contract.exactlyOneOf)))
    case ArrayOf(item) => ANYTHING.(typeName := Some(ArrayType), items := Some(SchemaOf(item)))
    case BoundedArray(item, maximum) =>
      ANYTHING.(typeName := Some(ArrayType), items := Some(SchemaOf(item)), maxItems := Some(maximum))
    case MapOf(item) => ANYTHING.(typeName := Some(ObjectType), additional := Some(SchemaOf(item)))
    case OneOf(kinds) => ANYTHING.(oneOf := ExactlyOne(SchemasOf(kinds)))
    case BooleanOrEnum(values) => ANYTHING.(oneOf := ExactlyOne([Typed(BooleanType), EnumSchema(values)]))
    case Enum(values) => EnumSchema(values)
  }

  function SchemasOf(kinds: seq<Kind>): (r: seq<Schema>)
    ensures |r| == |kinds|
    decreases kinds
  {
    if kinds == [] then [] else SchemasOf(kinds[..|kinds| - 1]) + [SchemaOf(kinds[|kinds| - 1])]
  }

  /** The object schema of a field list: a later field of the same name replaces an earlier one. */
  function FieldsSchema(fields: seq<Field>): (s: Schema)
    ensures s.Keywords?
    decreases fields, 1
  {
    ANYTHING.(typeName := Some(ObjectType), properties := Properties(fields), required := RequiredNames(fields),
              additional := Some(Never))
  }

  function Properties(fields: seq<Field>): map<string, Schema>
    decreases fields, 0
  {
    if fields == [] then map[]
    else
      var last := fields[|fields| - 1];
      Properties(fields[..|fields| - 1])[last.name := SchemaOf(last.kind)]
  }

  function RequiredNames(fields: seq<Field>): seq<string> {
    if fields == [] then []
    else
      var last := fields[|fields| - 1];
      RequiredNames(fields[..|fields| - 1]) + if last.required then [last.name] else []
  }

  // ---- When the two readings can be compared -------------------------------

  predicate DistinctNames(fields: seq<Field>) {
    forall i, j | 0 <= i < j < |fields| :: fields[i].name != fields[j].name
  }

  /** Field names are distinct at every level of the tree. */
  predicate Distinct(kind: Kind)
    decreases kind
  {
    match kind
    case Shape(contract) => DistinctNames(contract.fields) && forall f | f in contract.fields :: Distinct(f.kind)
    case ArrayOf(item) => Distinct(item)
    case BoundedArray(item, _) => Distinct(item)
    case MapOf(item) => Distinct(item)
    case OneOf(kinds) => forall k | k in kinds :: Distinct(k)
    case _ => true
  }

  /** Integers fit 64 bits and no whole number is written as a float. */
  predicate Ordinary(v: Json)
    decreases v
  {
    match v
    case Int(n) => n < U64_BOUND
    case Float(r) => !Integral(r)
    case Arr(items) => forall x | x in items :: Ordinary(x)
    case Obj(fields) => forall n | n in fields :: Ordinary(fields[n])
    case _ => true
  }

  // ---- The two readings agree ----------------------------------------------

  lemma PlainKeywords(v: Json, s: Schema)
    requires s.Keywords? && s.properties == map[] && s.additional.None? && s.items.None? && s.allOf == []
    requires s.oneOf.NoAlternatives?
    ensures Satisfies(v, s) <==>
              && (s.typeName.Some? ==> HasType(s.typeName.value, v))
              && (s.minimum.Some? ==> AtLeast(v, s.minimum.value))
              && (s.enumeration.Some? ==> v.Str? && v.text in s.enumeration.value)
              && ShapeOk(s, v)
  {
  }

  lemma IntegersAgree(v: Json, least: nat)
    requires Ordinary(v)
    ensures Satisfies(v, ANYTHING.(typeName := Some(IntegerType), minimum := Some(least)))
            <==> AsUnsigned(v).Some? && AsUnsigned(v).value >= least
  {
    PlainKeywords(v, ANYTHING.(typeName := Some(IntegerType), minimum := Some(least)));
  }

  lemma EnumAgrees(v: Json, values: seq<string>)
    ensures Satisfies(v, EnumSchema(values)) <==> v.Str? && v.text in values
    ensures forall t :: Satisfies(v, Typed(t)) <==> HasType(t, v)
  {
    PlainKeywords(v, EnumSchema(values));
    forall t
      ensures Satisfies(v, Typed(t)) <==> HasType(t, v)
    {
      PlainKeywords(v, Typed(t));
    }
  }

  lemma ArrayAgrees(v: Json, item: Schema, maxItems: Option<nat>)
    ensures Satisfies(v, ANYTHING.(typeName := Some(ArrayType), items := Some(item), maxItems := maxItems))
            <==> v.Arr? && (maxItems.Some? ==> |v.items| <= maxItems.value)
                 && forall x :: x in v.items ==> Satisfies(x, item)
  {
  }

  lemma MapAgrees(v: Json, item: Schema)
    ensures Satisfies(v, ANYTHING.(typeName := Some(ObjectType), additional := Some(item)))
            <==> v.Obj? && forall n :: n in v.fields ==> Satisfies(v.fields[n], item)
  {
  }

  lemma OneOfAgrees(v: Json, schemas: seq<Schema>)
    ensures Satisfies(v, ANYTHING.(oneOf := ExactlyOne(schemas))) <==> Matches(v, schemas) == 1
  {
  }

  lemma EitherAgrees(v: Json, a: Schema, b: Schema)
    requires !(Satisfies(v, a) && Satisfies(v, b))
    ensures Satisfies(v, ANYTHING.(oneOf := ExactlyOne([a, b]))) <==> Satisfies(v, a) || Satisfies(v, b)
  {
    OneOfAgrees(v, [a, b]);
    assert [a, b][..1] == [a] && [a][..0] == [];
    assert Matches(v, [a]) == if Satisfies(v, a) then 1 else 0;
  }

  /** Requiring each name in turn counts the names that are present. */
  lemma {:induction false} RequireCounts(given: map<string, Json>, names: seq<string>)
    ensures Matches(Obj(given), RequireEach(names)) == Present(names, given)
  {
    if names != [] {
      var shorter := names[..|names| - 1];
      RequireCounts(given, shorter);
      assert RequireEach(names)[..|names| - 1] == RequireEach(shorter);
      PlainKeywords(Obj(given), RequireName(names[|names| - 1]));
    }
  }

  lemma {:induction false} RequiredAgree(fields: seq<Field>, given: map<string, Json>)
    ensures (forall r :: r in RequiredNames(fields) ==> r in given) <==> RequiredPresent(fields, given)
  {
    if fields != [] {
      var shorter, last := fields[..|fields| - 1], fields[|fields| - 1];
      RequiredAgree(shorter, given);
      assert fields == shorter + [last];
    }
  }

  /** With distinct names the property map holds the schema of the field that is found. */
  lemma {:induction false} PropertyOf(fields: seq<Field>, name: string)
    requires DistinctNames(fields)
    ensures name in Properties(fields) <==> FindField(fields, name) < |fields|
    ensures name in Properties(fields) ==>
              Properties(fields)[name] == SchemaOf(fields[FindField(fields, name)].kind)
  {
    if fields != [] {
      var shorter := fields[..|fields| - 1];
      PropertyOf(shorter, name);
      var i, j := FindField(fields, name), FindField(shorter, name);
      assert j < |shorter| ==> fields[j].name == name;
      assert i < |shorter| ==> shorter[i].name == name;
    }
  }

  /** What the schema of an object says, keyword by keyword. */
  lemma ObjectKeywords(v: Json, s: Schema)
    requires s.Keywords? && s.typeName == Some(ObjectType) && s.additional == Some(Never)
    requires s.minimum.None? && s.enumeration.None? && s.items.None? && s.maxItems.None?
    ensures Satisfies(v, s) <==>
              && v.Obj? && |v.fields| >= s.minProperties
              && (forall r :: r in s.required ==> r in v.fields)
              && (forall n :: n in v.fields ==> n in s.properties && Satisfies(v.fields[n], s.properties[n]))
              && (s.oneOf.ExactlyOne? ==> Matches(v, s.oneOf.schemas) == 1)
              && (forall x :: x in s.allOf ==> Satisfies(v, x))
  {
    assert forall x :: !Satisfies(x, Never);
  }

  /** On ordinary values the two readings coincide. */
  lemma {:induction false} OrdinaryAgrees(kind: Kind, v: Json)
    requires Distinct(kind) && Ordinary(v)
    ensures Accepts(kind, v) <==> Satisfies(v, SchemaOf(kind))
    decreases kind
  {
    hide Satisfies, FieldsAccepted, Properties, RequiredNames;
    match kind
    case StringKind => EnumAgrees(v, []);
    case BooleanKind => EnumAgrees(v, []);
    case UnsignedKind => IntegersAgree(v, 0);
    case PositiveKind => IntegersAgree(v, 1);
    case StringArray =>
      ArrayAgrees(v, Typed(StringType), None);
      forall x { EnumAgrees(x, []); }
    case Shape(contract) => ShapeAgrees(contract, v);
    case ArrayOf(item) =>
      ArrayAgrees(v, SchemaOf(item), None);
      if v.Arr? {
        forall x | x in v.items { OrdinaryAgrees(item, x); }
      }
    case BoundedArray(item, maximum) =>
      ArrayAgrees(v, SchemaOf(item), Some(maximum));
      if v.Arr? {
        forall x | x in v.items { OrdinaryAgrees(item, x); }
      }
    case MapOf(item) =>
      MapAgrees(v, SchemaOf(item));
      if v.Obj? {
        forall n | n in v.fields { OrdinaryAgrees(item, v.fields[n]); }
      }
    case OneOf(kinds) =>
      OneOfAgrees(v, SchemasOf(kinds));
      KindsAgree(kinds, v);
    case BooleanOrEnum(values) =>
      EnumAgrees(v, values);
      EitherAgrees(v, Typed(BooleanType), EnumSchema(values));
    case Enum(values) => EnumAgrees(v, values);
  }

  lemma {:induction false} KindsAgree(kinds: seq<Kind>, v: Json)
    requires Ordinary(v) && forall k :: k in kinds ==> Distinct(k)
    ensures Accepting(kinds, v) == Matches(v, SchemasOf(kinds))
    decreases kinds
  {
    hide Satisfies, Accepts, SchemaOf, Distinct, Ordinary;
    if kinds != [] {
      var shorter, last := kinds[..|kinds| - 1], kinds[|kinds| - 1];
      KindsAgree(shorter, v);
      OrdinaryAgrees(last, v);
      assert SchemasOf(kinds)[..|kinds| - 1] == SchemasOf(shorter);
    }
  }

  lemma {:induction false} FieldsAgree(fields: seq<Field>, given: map<string, Json>)
    requires DistinctNames(fields) && (forall f :: f in fields ==> Distinct(f.kind))
    requires forall n :: n in given ==> Ordinary(given[n])
    ensures FieldsAccepted(fields, given) <==>
              forall n :: n in given ==> n in Properties(fields) && Satisfies(given[n], Properties(fields)[n])
    decreases fields
  {
    hide Satisfies, Accepts, SchemaOf, Distinct, Ordinary, Properties;
    forall n | n in given
      ensures n in Properties(fields) <==> FindField(fields, n) < |fields|
      ensures n in Properties(fields) ==>
                (Accepts(fields[FindField(fields, n)].kind, given[n]) <==> Satisfies(given[n], Properties(fields)[n]))
    {
      PropertyOf(fields, n);
      var i := FindField(fields, n);
      if i < |fields| {
        OrdinaryAgrees(fields[i].kind, given[n]);
      }
    }
  }

  lemma FieldsKeywords(fields: seq<Field>)
    ensures FieldsSchema(fields) == ANYTHING.(
              typeName := Some(ObjectType), properties := Properties(fields), required := RequiredNames(fields),
              additional := Some(Never))
  {
  }

  lemma {:induction false} ShapeAgrees(contract: Contract, v: Json)
    requires Distinct(Shape(contract)) && Ordinary(v)
    ensures Accepts(Shape(contract), v) <==> Satisfies(v, SchemaOf(Shape(contract)))
    decreases contract
  {
    hide Satisfies, FieldsAccepted, Properties, RequiredNames, RequireEach;
    FieldsKeywords(contract.fields);
    ObjectKeywords(v, SchemaOf(Shape(contract)));
    if v.Obj? {
      RequiredAgree(contract.fields, v.fields);
      RequireCounts(v.fields, contract.exactlyOneOf);
      FieldsAgree(contract.fields, v.fields);
    }
  }

  // ---- Exactly where the two readings agree --------------------------------

  /** Whatever a validator accepts is ordinary: no kind accepts a float or an integer beyond 64 bits. */
  lemma {:induction false} AcceptedIsOrdinary(kind: Kind, v: Json)
    requires Accepts(kind, v)
    ensures Ordinary(v)
    decreases kind
  {
    hide FieldsAccepted, Present;
    match kind
    case Shape(contract) => AcceptedFieldsOrdinary(contract.fields, v.fields);
    case ArrayOf(item) =>
      forall x | x in v.items { AcceptedIsOrdinary(item, x); }
    case BoundedArray(item, _) =>
      forall x | x in v.items { AcceptedIsOrdinary(item, x); }
    case MapOf(item) =>
      forall n | n in v.fields { AcceptedIsOrdinary(item, v.fields[n]); }
    case OneOf(kinds) => SomeAcceptedOrdinary(kinds, v);
    case _ =>
  }

  lemma {:induction false} SomeAcceptedOrdinary(kinds: seq<Kind>, v: Json)
    requires Accepting(kinds, v) > 0
    ensures Ordinary(v)
    decreases kinds
  {
    hide Accepts, Ordinary;
    var shorter, last := kinds[..|kinds| - 1], kinds[|kinds| - 1];
    if Accepts(last, v) {
      AcceptedIsOrdinary(last, v);
    } else {
      SomeAcceptedOrdinary(shorter, v);
    }
  }

  lemma {:induction false} AcceptedFieldsOrdinary(fields: seq<Field>, given: map<string, Json>)
    requires FieldsAccepted(fields, given)
    ensures forall n :: n in given ==> Ordinary(given[n])
    decreases fields
  {
    hide Accepts, Ordinary;
    forall n | n in given
      ensures Ordinary(given[n])
    {
      AcceptedIsOrdinary(fields[FindField(fields, n)].kind, given[n]);
    }
  }

  /**
   Compilation preserves meaning, for every contract tree with distinct field names and every JSON
   value: the runtime validator accepts exactly the ordinary values among those the published
   schema allows.
   */
  lemma CompilationPreservesMeaning(kind: Kind, v: Json)
    requires Distinct(kind)
    ensures Accepts(kind, v) <==> Ordinary(v) && Satisfies(v, SchemaOf(kind))
  {
    hide Satisfies, Accepts, SchemaOf, Ordinary, Distinct;
    if Ordinary(v) {
      OrdinaryAgrees(kind, v);
    } else if Accepts(kind, v) {
      AcceptedIsOrdinary(kind, v);
    }
  }

  // ---- Inputs on which they part --------------------------------------------

  /** On any value at all, an unsigned field agrees with its schema exactly outside these numbers. */
  lemma UnsignedExact(v: Json)
    ensures (Accepts(UnsignedKind, v) <==> Satisfies(v, SchemaOf(UnsignedKind)))
            <==> !(v.Float? && Integral(v.real_) && v.real_ >= 0.0) && !(v.Int? && v.number >= U64_BOUND)
  {
    PlainKeywords(v, SchemaOf(UnsignedKind));
  }

  /** The number 1.0 is an integer to the schema and no integer to the validator. */
  lemma WholeFloatDisagrees()
    ensures !Accepts(UnsignedKind, Float(1.0)) && Satisfies(Float(1.0), SchemaOf(UnsignedKind))
  {
    UnsignedExact(Float(1.0));
  }

  /** With a repeated name the validator follows the first field and the schema the last. */
  lemma RepeatedNameDisagrees(name: string)
    ensures var contract := Contract([Field(name, StringKind, false), Field(name, BooleanKind, false)], 0, []);
            var v := Obj(map[name := Str("x")]);
            Accepts(Shape(contract), v) && !Satisfies(v, SchemaOf(Shape(contract)))
  {
    var fields := [Field(name, StringKind, false), Field(name, BooleanKind, false)];
    var contract := Contract(fields, 0, []);
    var given := map[name := Str("x")];
    assert FindField(fields, name) == 0;
    assert forall n :: n in given ==> n == name;
    assert Accepts(Shape(contract), Obj(given));
    FieldsKeywords(fields);
    ObjectKeywords(Obj(given), SchemaOf(Shape(contract)));
    assert Properties(fields)[name] == Typed(BooleanType);
    EnumAgrees(given[name], []);
  }

  // ---- Whole methods -------------------------------------------------------

  /** A method's parameters: its fields, common ones included, and groups of which exactly one is given. */
  datatype MethodContract = MethodContract(fields: seq<Field>, exactlyOneOf: seq<seq<string>>)

  predicate MethodAccepts(c: MethodContract, v: Json) {
    && v.Obj? && FieldsAccepted(c.fields, v.fields) && RequiredPresent(c.fields, v.fields)
    && forall g | g in c.exactlyOneOf :: Present(g, v.fields) == 1
  }

  function GroupSchema(names: seq<string>): Schema {
    ANYTHING.(oneOf := ExactlyOne(RequireEach(names)))
  }

  function GroupSchemas(groups: seq<seq<string>>): (r: seq<Schema>)
    ensures |r| == |groups|
  {
    seq(|groups|, i requires 0 <= i < |groups| => GroupSchema(groups[i]))
  }

  function MethodSchema(c: MethodContract): Schema {
    var schema := FieldsSchema(c.fields);
    schema.(allOf := GroupSchemas(c.exactlyOneOf))
  }

  lemma GroupAgrees(names: seq<string>, given: map<string, Json>)
    ensures Satisfies(Obj(given), GroupSchema(names)) <==> Present(names, given) == 1
  {
    OneOfAgrees(Obj(given), RequireEach(names));
    RequireCounts(given, names);
  }

  /** A method accepts exactly the ordinary parameters that satisfy its published schema. */
  lemma MethodsAgree(c: MethodContract, v: Json)
    requires DistinctNames(c.fields) && (forall f :: f in c.fields ==> Distinct(f.kind))
    ensures MethodAccepts(c, v) <==> Ordinary(v) && Satisfies(v, MethodSchema(c))
  {
    hide Satisfies, FieldsAccepted, MethodSchema, RequiredPresent;
    if Ordinary(v) {
      OrdinaryMethodsAgree(c, v);
    } else if MethodAccepts(c, v) {
      AcceptedFieldsOrdinary(c.fields, v.fields);
    }
  }

  lemma OrdinaryMethodsAgree(c: MethodContract, v: Json)
    requires DistinctNames(c.fields) && (forall f :: f in c.fields ==> Distinct(f.kind)) && Ordinary(v)
    ensures MethodAccepts(c, v) <==> Satisfies(v, MethodSchema(c))
  {
    hide Satisfies, FieldsAccepted, Properties, RequiredNames, GroupSchemas, FieldsSchema, RequiredPresent;
    FieldsKeywords(c.fields);
    ObjectKeywords(v, MethodSchema(c));
    if v.Obj? {
      RequiredAgree(c.fields, v.fields);
      FieldsAgree(c.fields, v.fields);
      GroupsAgree(c.exactlyOneOf, v.fields);
    }
  }

  lemma GroupsAgree(groups: seq<seq<string>>, given: map<string, Json>)
    ensures (forall x :: x in GroupSchemas(groups) ==> Satisfies(Obj(given), x))
            <==> forall g :: g in groups ==> Present(g, given) == 1
  {
    hide Satisfies, GroupSchema;
    forall i | 0 <= i < |groups|
      ensures Satisfies(Obj(given), GroupSchemas(groups)[i]) <==> Present(groups[i], given) == 1
    {
      GroupAgrees(groups[i], given);
    }
    if forall x :: x in GroupSchemas(groups) ==> Satisfies(Obj(given), x) {
      forall g | g in groups
        ensures Present(g, given) == 1
      {
        var i :| 0 <= i < |groups| && groups[i] == g;
        assert GroupSchemas(groups)[i] in GroupSchemas(groups);
      }
    }
    if forall g :: g in groups ==> Present(g, given) == 1 {
      forall x | x in GroupSchemas(groups)
        ensures Satisfies(Obj(given), x)
      {
        var i :| 0 <= i < |groups| && GroupSchemas(groups)[i] == x;
        assert groups[i] in groups;
      }
    }
  }

  // ---- The loops that build a schema and validate a request ----------------

  method CompileFields(fields: seq<Field>) returns (s: Schema)
    ensures s == FieldsSchema(fields)
  {
    hide SchemaOf;
    var properties: map<string, Schema> := map[];
    var required: seq<string> := [];
    for i := 0 to |fields|
      invariant properties == Properties(fields[..i]) && required == RequiredNames(fields[..i])
    {
      assert fields[..i + 1][..i] == fields[..i];
      properties := properties[fields[i].name := SchemaOf(fields[i].kind)];
      if fields[i].required {
        required := required + [fields[i].name];
      }
    }
    assert fields[..|fields|] == fields;
    FieldsKeywords(fields);
    s := ANYTHING.(typeName := Some(ObjectType), properties := properties, required := required,
         additional := Some(Never));
  }

  datatype Verdict = Valid | NotAnObject | Unknown(name: string) | Refused(name: string) | Missing(name: string)
    | NotExactlyOne(group: seq<string>)

  method CountPresent(names: seq<string>, given: map<string, Json>) returns (count: nat)
    ensures count == Present(names, given)
  {
    count := 0;
    for i := 0 to |names|
      invariant count == Present(names[..i], given)
    {
      assert names[..i + 1][..i] == names[..i];
      if names[i] in given {
        count := count + 1;
      }
    }
    assert names[..|names|] == names;
  }

  /** The first property that no field names or that its field refuses. */
  method CheckProperties(fields: seq<Field>, given: map<string, Json>) returns (r: Verdict)
    ensures r == Valid <==> FieldsAccepted(fields, given)
    ensures r == Valid || r.Unknown? || r.Refused?
    ensures r.Unknown? ==> r.name in given && FindField(fields, r.name) == |fields|
    ensures r.Refused? ==>
              && r.name in given && FindField(fields, r.name) < |fields|
              && !Accepts(fields[FindField(fields, r.name)].kind, given[r.name])
  {
    hide Accepts;
    var rest := given.Keys;
    while rest != {}
      invariant rest <= given.Keys
      invariant forall n :: n in given && n !in rest ==>
                  var i := FindField(fields, n);
                  i < |fields| && Accepts(fields[i].kind, given[n])
      decreases |rest|
    {
      var n :| n in rest;
      var i := FindField(fields, n);
      if i == |fields| {
        return Verdict.Unknown(n);
      }
      if !Accepts(fields[i].kind, given[n]) {
        return Refused(n);
      }
      rest := rest - {n};
    }
    return Valid;
  }

  method CheckRequired(fields: seq<Field>, given: map<string, Json>) returns (r: Verdict)
    ensures r == Valid <==> RequiredPresent(fields, given)
    ensures r == Valid || (r.Missing? && r.name !in given)
  {
    for i := 0 to |fields|
      invariant forall j :: 0 <= j < i ==> fields[j].required ==> fields[j].name in given
    {
      if fields[i].required && fields[i].name !in given {
        return Missing(fields[i].name);
      }
    }
    return Valid;
  }

  method CheckGroups(groups: seq<seq<string>>, given: map<string, Json>) returns (r: Verdict)
    ensures r == Valid <==> forall g | g in groups :: Present(g, given) == 1
    ensures r == Valid || (r.NotExactlyOne? && r.group in groups && Present(r.group, given) != 1)
  {
    for i := 0 to |groups|
      invariant forall j :: 0 <= j < i ==> Present(groups[j], given) == 1
    {
      var count := CountPresent(groups[i], given);
      if count != 1 {
        return NotExactlyOne(groups[i]);
      }
    }
    return Valid;
  }

  /** Properties first, then required fields, then the groups; the first complaint is the verdict. */
  method Validate(c: MethodContract, v: Json) returns (r: Verdict)
    ensures r == Valid <==> MethodAccepts(c, v)
    ensures r.NotAnObject? <==> !v.Obj?
    ensures r.Unknown? ==> r.name in v.fields && FindField(c.fields, r.name) == |c.fields|
    ensures r.Refused? ==>
              && r.name in v.fields && FindField(c.fields, r.name) < |c.fields|
              && !Accepts(c.fields[FindField(c.fields, r.name)].kind, v.fields[r.name])
    ensures r.Missing? ==> FieldsAccepted(c.fields, v.fields) && r.name !in v.fields
    ensures r.NotExactlyOne? ==> r.group in c.exactlyOneOf && Present(r.group, v.fields) != 1
  {
    hide Accepts, FieldsAccepted, RequiredPresent, Present;
    if !v.Obj? {
      return NotAnObject;
    }
    r := CheckProperties(c.fields, v.fields);
    if r == Valid {
      r := CheckRequired(c.fields, v.fields);
    }
    if r == Valid {
      r := CheckGroups(c.exactlyOneOf, v.fields);
    }
  }
}
