/**
 What a schema accepts, in OpenAPI 3.0.3 and in JSON Schema 2020-12 (the dialect of
 OpenAPI 3.1).

 `leaf` stands for every assertion keyword that the two dialects share and the translation
 does not look at (`pattern`, `maxLength`, `required`, ...): the theorem holds for every
 such function.  References are followed through an environment `env`, at most `n` deep,
 so recursive schemas are covered at every depth.
 */
module SchemaMeaning {
  import opened Prelude
  import opened Json
  import opened SchemaNormaliser
  import opened CanonicalForm
  import opened KeyOrder

  datatype Dialect = OpenApi303 | Draft2020

  type Leaf = (string, Json, Json) -> bool
  type Environment = map<string, Json>

  /** Assertion keywords with scalar or flat-list arguments, read by `leaf`. */
  const LEAF_KEYWORDS := {
    "multipleOf", "maxLength", "minLength", "pattern", "maxItems", "minItems", "uniqueItems",
    "maxProperties", "minProperties", "required", "format"}

  const ANNOTATIONS := {
    "title", "description", "default", "discriminator", "readOnly", "writeOnly", "xml",
    "externalDocs", "example", "deprecated"}

  // ---------- well-formed 3.0.3 schema objects (OpenAPI 3.0.3, section 4.7.24) ----------

  ghost predicate Flat(value: Json) {
    match value
    case Obj(_) => false
    case Arr(items) => forall i :: 0 <= i < |items| ==> !items[i].Obj? && !items[i].Arr?
    case _ => true
  }

  ghost predicate WellFormed(schema: Json)
    decreases schema, 1
  {
    && schema.Obj?
    && UniqueKeys(schema.fields)
    && (Has(schema.fields, "$ref") ==> |schema.fields| == 1)
    && forall i :: 0 <= i < |schema.fields| ==> WellFormedKeyword(schema.fields[i])
  }

  ghost predicate WellFormedKeyword(field: Field)
    decreases field, 2
  {
    var Field(key, item) := field;
    if key == "$ref" || key == "type" then item.Str?
    else if key == "nullable" || key == "exclusiveMinimum" || key == "exclusiveMaximum" then item.Bool?
    else if key == "minimum" || key == "maximum" then item.Num?
    else if key == "enum" then item.Arr?
    else if key == "properties" then
      item.Obj? && UniqueKeys(item.fields) && forall i :: 0 <= i < |item.fields| ==> WellFormed(item.fields[i].value)
    else if key == "items" || key == "not" then WellFormed(item)
    else if key == "additionalProperties" then item.Bool? || WellFormed(item)
    else if key == "allOf" || key == "anyOf" || key == "oneOf" then
      item.Arr? && forall i :: 0 <= i < |item.items| ==> WellFormed(item.items[i])
    else if key in LEAF_KEYWORDS then Flat(item)
    else key in ANNOTATIONS || IsExtension(key)
  }

  // ---------- meaning ----------

  predicate TypeMatches(name: string, value: Json) {
    match value
    case Null => name == "null"
    case Bool(_) => name == "boolean"
    case Num(number) => name == "number" || (name == "integer" && number.Floor as real == number)
    case Str(_) => name == "string"
    case Arr(_) => name == "array"
    case Obj(_) => name == "object"
  }

  predicate Nullable(fields: seq<Field>) {
    Lookup(fields, "nullable") == Some(Bool(true))
  }

  /** Section 4.7.24 of OpenAPI 3.0.3 / section 6.1.1 of JSON Schema Validation 2020-12. */
  ghost predicate TypeAccepts(dialect: Dialect, fields: seq<Field>, value: Json) {
    match Lookup(fields, "type")
    case Some(Str(name)) => TypeMatches(name, value) || (dialect == OpenApi303 && Nullable(fields) && value.Null?)
    case Some(Arr(names)) =>
      exists i :: 0 <= i < |names| && names[i].Str? && TypeMatches(names[i].text, value)
    case _ => true
  }

  /** Sections 6.2.2 to 6.2.5 of JSON Schema Validation 2020-12; a boolean modifier in 3.0.3. */
  predicate LowerBoundAccepts(dialect: Dialect, fields: seq<Field>, value: Json) {
    value.Num? ==>
      && (match Lookup(fields, "minimum")
          case Some(Num(bound)) =>
            if dialect == OpenApi303 && Lookup(fields, "exclusiveMinimum") == Some(Bool(true)) then value.number > bound
            else value.number >= bound
          case _ => true)
      && (match Lookup(fields, "exclusiveMinimum")
          case Some(Num(bound)) => dialect == Draft2020 ==> value.number > bound
          case _ => true)
  }

  predicate UpperBoundAccepts(dialect: Dialect, fields: seq<Field>, value: Json) {
    value.Num? ==>
      && (match Lookup(fields, "maximum")
          case Some(Num(bound)) =>
            if dialect == OpenApi303 && Lookup(fields, "exclusiveMaximum") == Some(Bool(true)) then value.number < bound
            else value.number <= bound
          case _ => true)
      && (match Lookup(fields, "exclusiveMaximum")
          case Some(Num(bound)) => dialect == Draft2020 ==> value.number < bound
          case _ => true)
  }

  /** JSON equality ignores key order. */
  ghost predicate EnumAccepts(fields: seq<Field>, value: Json) {
    match Lookup(fields, "enum")
    case Some(Arr(choices)) => exists i :: 0 <= i < |choices| && Canonical(choices[i]) == Canonical(value)
    case _ => true
  }

  ghost predicate LeavesAccept(leaf: Leaf, fields: seq<Field>, value: Json) {
    forall key :: key in LEAF_KEYWORDS && Has(fields, key) ==> leaf(key, Lookup(fields, key).value, value)
  }

  ghost predicate LocalAccept(dialect: Dialect, leaf: Leaf, fields: seq<Field>, value: Json) {
    && LowerBoundAccepts(dialect, fields, value)
    && UpperBoundAccepts(dialect, fields, value)
    && EnumAccepts(fields, value)
    && LeavesAccept(leaf, fields, value)
  }

  ghost predicate Accepts(dialect: Dialect, leaf: Leaf, env: Environment, n: nat, schema: Json, value: Json)
    decreases n, schema, 9
  {
    match schema
    case Bool(flag) => flag
    case Obj(fields) =>
      if Has(fields, "$ref") then
        var reference := Lookup(fields, "$ref").value;
        reference.Str? && reference.text in env && n > 0
        && Accepts(dialect, leaf, env, n - 1, env[reference.text], value)
      else
        || (dialect == OpenApi303 && Nullable(fields) && !Has(fields, "type") && value.Null?)
        || KeywordsAccept(dialect, leaf, env, n, schema, value)
    case _ => true
  }

  ghost predicate KeywordsAccept(dialect: Dialect, leaf: Leaf, env: Environment, n: nat, schema: Json, value: Json)
    requires schema.Obj?
    decreases n, schema, 8
  {
    && TypeAccepts(dialect, schema.fields, value)
    && ConstraintsAccept(dialect, leaf, env, n, schema, value)
  }

  ghost predicate ConstraintsAccept(dialect: Dialect, leaf: Leaf, env: Environment, n: nat, schema: Json, value: Json)
    requires schema.Obj?
    decreases n, schema, 7
  {
    && LocalAccept(dialect, leaf, schema.fields, value)
    && PropertiesHolds(dialect, leaf, env, n, schema, value)
    && AdditionalHolds(dialect, leaf, env, n, schema, value)
    && ItemsHolds(dialect, leaf, env, n, schema, value)
    && AllOfHolds(dialect, leaf, env, n, schema, value)
    && AnyOfHolds(dialect, leaf, env, n, schema, value)
    && OneOfHolds(dialect, leaf, env, n, schema, value)
    && NotHolds(dialect, leaf, env, n, schema, value)
  }

  ghost predicate PropertiesHolds(dialect: Dialect, leaf: Leaf, env: Environment, n: nat, schema: Json, value: Json)
    requires schema.Obj?
    decreases n, schema, 6
  {
    match Lookup(schema.fields, "properties")
    case Some(item) => PropertiesAccept(dialect, leaf, env, n, item, value)
    case None => true
  }

  ghost predicate AdditionalHolds(dialect: Dialect, leaf: Leaf, env: Environment, n: nat, schema: Json, value: Json)
    requires schema.Obj?
    decreases n, schema, 6
  {
    match Lookup(schema.fields, "additionalProperties")
    case Some(item) => AdditionalAccept(dialect, leaf, env, n, schema.fields, item, value)
    case None => true
  }

  ghost predicate ItemsHolds(dialect: Dialect, leaf: Leaf, env: Environment, n: nat, schema: Json, value: Json)
    requires schema.Obj?
    decreases n, schema, 6
  {
    match Lookup(schema.fields, "items")
    case Some(item) => ItemsAccept(dialect, leaf, env, n, item, value)
    case None => true
  }

  ghost predicate AllOfHolds(dialect: Dialect, leaf: Leaf, env: Environment, n: nat, schema: Json, value: Json)
    requires schema.Obj?
    decreases n, schema, 6
  {
    match Lookup(schema.fields, "allOf")
    case Some(item) => AllOfAccepts(dialect, leaf, env, n, item, value)
    case None => true
  }

  ghost predicate AnyOfHolds(dialect: Dialect, leaf: Leaf, env: Environment, n: nat, schema: Json, value: Json)
    requires schema.Obj?
    decreases n, schema, 6
  {
    match Lookup(schema.fields, "anyOf")
    case Some(item) => AnyOfAccepts(dialect, leaf, env, n, item, value)
    case None => true
  }

  ghost predicate OneOfHolds(dialect: Dialect, leaf: Leaf, env: Environment, n: nat, schema: Json, value: Json)
    requires schema.Obj?
    decreases n, schema, 6
  {
    match Lookup(schema.fields, "oneOf")
    case Some(item) => OneOfAccepts(dialect, leaf, env, n, item, value)
    case None => true
  }

  ghost predicate NotHolds(dialect: Dialect, leaf: Leaf, env: Environment, n: nat, schema: Json, value: Json)
    requires schema.Obj?
    decreases n, schema, 6
  {
    match Lookup(schema.fields, "not")
    case Some(item) => !Accepts(dialect, leaf, env, n, item, value)
    case None => true
  }

  ghost predicate PropertiesAccept(dialect: Dialect, leaf: Leaf, env: Environment, n: nat, item: Json, value: Json)
    decreases n, item, 10
  {
    item.Obj? && value.Obj? ==>
      forall i :: 0 <= i < |item.fields| && Has(value.fields, item.fields[i].key) ==>
        Accepts(dialect, leaf, env, n, item.fields[i].value, Lookup(value.fields, item.fields[i].key).value)
  }

  predicate IsDeclared(fields: seq<Field>, key: string) {
    match Lookup(fields, "properties")
    case Some(Obj(properties)) => Has(properties, key)
    case _ => false
  }

  ghost predicate AdditionalAccept(
    dialect: Dialect, leaf: Leaf, env: Environment, n: nat, fields: seq<Field>, item: Json, value: Json)
    decreases n, item, 10
  {
    value.Obj? ==>
      forall i :: 0 <= i < |value.fields| && !IsDeclared(fields, value.fields[i].key) ==>
        Accepts(dialect, leaf, env, n, item, value.fields[i].value)
  }

  ghost predicate ItemsAccept(dialect: Dialect, leaf: Leaf, env: Environment, n: nat, item: Json, value: Json)
    decreases n, item, 10
  {
    value.Arr? ==> forall i :: 0 <= i < |value.items| ==> Accepts(dialect, leaf, env, n, item, value.items[i])
  }

  ghost predicate AllOfAccepts(dialect: Dialect, leaf: Leaf, env: Environment, n: nat, item: Json, value: Json)
    decreases n, item, 10
  {
    item.Arr? ==> forall i :: 0 <= i < |item.items| ==> Accepts(dialect, leaf, env, n, item.items[i], value)
  }

  ghost predicate AnyOfAccepts(dialect: Dialect, leaf: Leaf, env: Environment, n: nat, item: Json, value: Json)
    decreases n, item, 10
  {
    item.Arr? ==> exists i :: 0 <= i < |item.items| && Accepts(dialect, leaf, env, n, item.items[i], value)
  }

  ghost predicate OneOfAccepts(dialect: Dialect, leaf: Leaf, env: Environment, n: nat, item: Json, value: Json)
    decreases n, item, 10
  {
    item.Arr? ==> exists i :: 0 <= i < |item.items| && AcceptsOnly(dialect, leaf, env, n, item.items, i, value)
  }

  ghost predicate AcceptsOnly(
    dialect: Dialect, leaf: Leaf, env: Environment, n: nat, items: seq<Json>, i: nat, value: Json)
    requires i < |items|
    decreases n, items, 10
  {
    forall j :: 0 <= j < |items| ==> (Accepts(dialect, leaf, env, n, items[j], value) <==> j == i)
  }
}
