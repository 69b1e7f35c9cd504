/**
 JSON values and the part of JSON Schema draft 2020-12 that contracts compile to: a schema is either
 the schema `false` or a set of keywords, and a value satisfies it when it satisfies every keyword.
 */
module JsonSchema {
  import opened Domain

  datatype Json =
    | Null
    | Bool(truth: bool)
    | Int(number: int)
    | Float(real_: real)
    | Str(text: string)
    | Arr(items: seq<Json>)
    | Obj(fields: map<string, Json>)

  datatype TypeName = StringType | BooleanType | IntegerType | ArrayType | ObjectType

  datatype Schema =
    | Never
    | Keywords(
        typeName: Option<TypeName>, minimum: Option<int>, enumeration: Option<seq<string>>,
        items: Option<Schema>, maxItems: Option<nat>,
        properties: map<string, Schema>, additional: Option<Schema>, required: seq<string>,
        minProperties: nat, oneOf: Alternatives, allOf: seq<Schema>)

  datatype Alternatives = NoAlternatives | ExactlyOne(schemas: seq<Schema>)

  const ANYTHING := Keywords(None, None, None, None, None, map[], None, [], 0, NoAlternatives, [])

  predicate Integral(r: real) {
    r.Floor as real == r
  }

  /** Section 6.1.1 of JSON Schema Validation: a number with a zero fraction is an integer. */
  predicate HasType(t: TypeName, v: Json) {
    match t
    case StringType => v.Str?
    case BooleanType => v.Bool?
    case IntegerType => v.Int? || (v.Float? && Integral(v.real_))
    case ArrayType => v.Arr?
    case ObjectType => v.Obj?
  }

  /** Section 6.2.4: the keyword constrains numbers only. */
  predicate AtLeast(v: Json, minimum: int) {
    (v.Int? ==> v.number >= minimum) && (v.Float? ==> v.real_ >= minimum as real)
  }

  /** Sections 6.4 and 6.5: array and object keywords that need no subschema. */
  predicate ShapeOk(k: Schema, v: Json)
    requires k.Keywords?
  {
    && (v.Arr? && k.maxItems.Some? ==> |v.items| <= k.maxItems.value)
    && (v.Obj? ==> |v.fields| >= k.minProperties && forall r | r in k.required :: r in v.fields)
  }

  predicate Satisfies(v: Json, s: Schema)
    decreases s
  {
    match s
    case Never => false
    case Keywords(typeName, minimum, enumeration, items, _, properties, additional, _, _, oneOf, allOf) =>
      && (typeName.Some? ==> HasType(typeName.value, v))
      && (minimum.Some? ==> AtLeast(v, minimum.value))
      && (enumeration.Some? ==> v.Str? && v.text in enumeration.value)
      && ShapeOk(s, v)
      && (v.Arr? && items.Some? ==> forall x | x in v.items :: Satisfies(x, items.value))
      && (v.Obj? ==>
            && (forall n | n in v.fields && n in properties :: Satisfies(v.fields[n], properties[n]))
            && (additional.Some? ==>
                  forall n | n in v.fields && n !in properties :: Satisfies(v.fields[n], additional.value)))
      && (oneOf.ExactlyOne? ==> Matches(v, oneOf.schemas) == 1)
      && (forall x | x in allOf :: Satisfies(v, x))
  }

  /** How many of the schemas the value satisfies. */
  function Matches(v: Json, schemas: seq<Schema>): nat
    decreases schemas
  {
    if schemas == [] then 0
    else Matches(v, schemas[..|schemas| - 1]) + if Satisfies(v, schemas[|schemas| - 1]) then 1 else 0
  }
}
