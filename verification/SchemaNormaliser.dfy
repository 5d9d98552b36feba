/**
 The OpenAPI 3.0.3 to 3.1 translation: `_canonical`, `_normalize_openapi_document` and
 `_normalize_schema`.  The functions say what the three procedures compute; the methods
 at the end compute it the way the source does, filling and popping a `dict` in loops.
 */
module SchemaNormaliser {
  import opened Prelude
  import opened Json
  import opened KeyOrder

  /**
   A boolean exclusive bound without a number (`OpenAPIContractError`), or a `type` array
   whose entries cannot be dictionary keys (`TypeError`).
   */
  datatype Refusal = LossyNormalization(path: string) | UnhashableType(path: string)

  type Outcome<T> = Result<T, Refusal>

  const SCHEMA_MAP_KEYWORDS := {"properties", "patternProperties", "dependentSchemas", "$defs", "definitions"}
  const SCHEMA_LIST_KEYWORDS := {"allOf", "anyOf", "oneOf", "prefixItems"}
  const SCHEMA_KEYWORDS := {
    "items", "contains", "additionalProperties", "unevaluatedProperties", "propertyNames",
    "not", "if", "then", "else", "contentSchema"}
  const SCHEMA_DATA_KEYWORDS := {"example", "examples", "default", "enum", "const"}
  const DOCUMENT_DATA_KEYS := {"example", "default", "enum", "const", "value"}

  predicate IsExtension(key: string) {
    |key| >= 2 && key[0] == 'x' && key[1] == '-'
  }

  predicate IsSchemaData(key: string) {
    key in SCHEMA_DATA_KEYWORDS || IsExtension(key)
  }

  predicate IsDocumentData(key: string) {
    key in DOCUMENT_DATA_KEYS || IsExtension(key)
  }

  // ---------- `_canonical` ----------

  /** Same document, keys of every object sorted. */
  function Canonical(value: Json): Json
    decreases value, 1
  {
    match value
    case Arr(items) => Arr(CanonicalItems(items))
    case Obj(fields) => Obj(SortFields(CanonicalFields(fields)))
    case _ => value
  }

  function CanonicalItems(items: seq<Json>): (r: seq<Json>)
    ensures |r| == |items|
    ensures forall i :: 0 <= i < |items| ==> r[i] == Canonical(items[i])
    decreases items, 0
  {
    if |items| == 0 then [] else [Canonical(items[0])] + CanonicalItems(items[1..])
  }

  function CanonicalFields(fields: seq<Field>): (r: seq<Field>)
    ensures |r| == |fields|
    ensures forall i :: 0 <= i < |fields| ==> r[i] == Field(fields[i].key, Canonical(fields[i].value))
    decreases fields, 0
  {
    if |fields| == 0 then []
    else [Field(fields[0].key, Canonical(fields[0].value))] + CanonicalFields(fields[1..])
  }

  // ---------- `_normalize_openapi_document` and `_normalize_schema` ----------

  /** What the values of an object are, which decides how each is treated. */
  datatype Holder = OpenApiObject | SchemaObject | SchemaMap | DependencyMap

  function NormalizeDocument(value: Json, from30: bool, path: string): Outcome<Json>
    decreases value, 3
  {
    match value
    case Arr(items) =>
      var list :- NormalizeItems(false, items, from30, path, 0);
      Ok(Arr(list))
    case Obj(fields) =>
      var members :- NormalizeFields(OpenApiObject, fields, from30, path);
      Ok(Obj(members))
    case _ => Ok(value)
  }

  function NormalizeSchema(value: Json, from30: bool, path: string): Outcome<Json>
    decreases value, 3
  {
    match value
    case Obj(fields) =>
      var members :- NormalizeFields(SchemaObject, fields, from30, path);
      if from30 then
        var lower :- FixBound(fields, members, "minimum", "exclusiveMinimum", path);
        var upper :- FixBound(fields, lower, "maximum", "exclusiveMaximum", path);
        FixNullable(fields, upper, path)
      else Ok(Obj(members))
    case _ => Ok(value)
  }

  /** A list of OpenAPI values, or of schemas. */
  function NormalizeItems(schemas: bool, items: seq<Json>, from30: bool, path: string, index: nat): Outcome<seq<Json>>
    decreases items, 0
  {
    if |items| == 0 then Ok([])
    else
      var childPath := path + "/" + Decimal(index);
      var first :- if schemas then NormalizeSchema(items[0], from30, childPath)
                   else NormalizeDocument(items[0], from30, childPath);
      var rest :- NormalizeItems(schemas, items[1..], from30, path, index + 1);
      Ok([first] + rest)
  }

  predicate Dropped(holder: Holder, key: string, from30: bool) {
    holder == SchemaObject && from30 && key == "nullable"
  }

  /** The values of one object, in order; the first refusal wins. */
  function NormalizeFields(holder: Holder, fields: seq<Field>, from30: bool, path: string): Outcome<seq<Field>>
    decreases fields, 0
  {
    if |fields| == 0 then Ok([])
    else if Dropped(holder, fields[0].key, from30) then NormalizeFields(holder, fields[1..], from30, path)
    else
      var first :- NormalizeField(holder, fields[0], from30, path);
      var rest :- NormalizeFields(holder, fields[1..], from30, path);
      Ok([Field(fields[0].key, first)] + rest)
  }

  function NormalizeField(holder: Holder, field: Field, from30: bool, path: string): Outcome<Json>
    decreases field, 5
  {
    var childPath := path + "/" + field.key;
    match holder
    case OpenApiObject => NormalizeMember(field, from30, path)
    case SchemaObject => NormalizeKeyword(field, from30, childPath)
    case SchemaMap => NormalizeSchema(field.value, from30, childPath)
    case DependencyMap =>
      if field.value.Obj? then NormalizeSchema(field.value, from30, childPath) else Ok(Canonical(field.value))
  }

  /** The four branches on one key of an OpenAPI object at `path`. */
  function NormalizeMember(field: Field, from30: bool, path: string): Outcome<Json>
    decreases field, 4
  {
    var Field(key, item) := field;
    var childPath := path + "/" + key;
    if key == "schema" then NormalizeSchema(item, from30, childPath)
    else if path == "/components" && key == "schemas" && item.Obj? then
      var schemas :- NormalizeFields(SchemaMap, item.fields, from30, childPath);
      Ok(Obj(schemas))
    else if IsDocumentData(key) then Ok(Canonical(item))
    else NormalizeDocument(item, from30, childPath)
  }

  /** The six branches on one keyword of a schema, whose argument is at `path`. */
  function NormalizeKeyword(field: Field, from30: bool, path: string): Outcome<Json>
    decreases field, 4
  {
    var Field(key, item) := field;
    if IsSchemaData(key) then Ok(Canonical(item))
    else if key in SCHEMA_MAP_KEYWORDS && item.Obj? then
      var schemas :- NormalizeFields(SchemaMap, item.fields, from30, path);
      Ok(Obj(schemas))
    else if key in SCHEMA_LIST_KEYWORDS && item.Arr? then
      var schemas :- NormalizeItems(true, item.items, from30, path, 0);
      Ok(Arr(schemas))
    else if key in SCHEMA_KEYWORDS && item.Obj? then NormalizeSchema(item, from30, path)
    else if key == "dependencies" && item.Obj? then
      var dependencies :- NormalizeFields(DependencyMap, item.fields, from30, path);
      Ok(Obj(dependencies))
    else NormalizeDocument(item, from30, path)
  }

  /** Boolean exclusive bound: dropped when false, made the number when true. */
  function FixBound(source: seq<Field>, members: seq<Field>, bound: string, exclusive: string, path: string)
    : Outcome<seq<Field>>
  {
    match Lookup(source, exclusive)
    case Some(Bool(flag)) =>
      if !flag then Ok(Without(members, exclusive))
      else (
        match Lookup(source, bound)
        case Some(Num(number)) => Ok(Put(Without(members, bound), exclusive, Num(number)))
        case _ => Err(LossyNormalization(path + "/" + exclusive)))
    case _ => Ok(members)
  }

  const NULL_SCHEMA := Obj([Field("type", Str("null"))])

  /** `nullable: true`: a type array, or `anyOf` with the null type when there is no type. */
  function FixNullable(source: seq<Field>, members: seq<Field>, path: string): Outcome<Json> {
    if Lookup(source, "nullable") == Some(Bool(true)) then
      match Lookup(members, "type")
      case Some(Str(name)) => Ok(Obj(Put(members, "type", Arr([Str(name), Str("null")]))))
      case Some(Arr(names)) =>
        if Hashable(names) then Ok(Obj(Put(members, "type", Arr(Distinct(names + [Str("null")])))))
        else Err(UnhashableType(path))
      case _ => Ok(Obj([Field("anyOf", Arr([Obj(members), NULL_SCHEMA]))]))
    else Ok(Obj(members))
  }

  predicate Hashable(values: seq<Json>) {
    forall i :: 0 <= i < |values| ==> !values[i].Arr? && !values[i].Obj?
  }

  /** `list(dict.fromkeys(values))`: first occurrences, in order. */
  function Distinct(values: seq<Json>): (r: seq<Json>)
    ensures forall x :: x in r <==> x in values
    ensures forall i, j :: 0 <= i < j < |r| ==> r[i] != r[j]
  {
    if |values| == 0 then []
    else
      var last := values[|values| - 1];
      var init := Distinct(values[..|values| - 1]);
      assert values == values[..|values| - 1] + [last];
      if last in init then init else init + [last]
  }

  // ---------- one key of the result ----------

  /** `members` holds under `key` the translation of what `fields` holds under it. */
  predicate FieldTranslated(
    holder: Holder, fields: seq<Field>, members: seq<Field>, from30: bool, path: string, key: string)
  {
    if Dropped(holder, key, from30) || !Has(fields, key) then !Has(members, key)
    else
      && Has(members, key)
      && NormalizeField(holder, Field(key, Lookup(fields, key).value), from30, path) == Ok(Lookup(members, key).value)
  }

  lemma {:induction false} FieldsLookup(holder: Holder, fields: seq<Field>, from30: bool, path: string, key: string)
    requires NormalizeFields(holder, fields, from30, path).Ok?
    ensures FieldTranslated(holder, fields, NormalizeFields(holder, fields, from30, path).value, from30, path, key)
  {
    if |fields| != 0 {
      FieldsLookup(holder, fields[1..], from30, path, key);
      if !Dropped(holder, fields[0].key, from30) {
        var first := NormalizeField(holder, fields[0], from30, path).value;
        var rest := NormalizeFields(holder, fields[1..], from30, path).value;
        assert ([Field(fields[0].key, first)] + rest)[1..] == rest;
        assert fields[0] == Field(fields[0].key, fields[0].value);
      }
    }
  }

  lemma {:induction false} FieldsKeepKeys(holder: Holder, fields: seq<Field>, from30: bool, path: string)
    requires UniqueKeys(fields) && NormalizeFields(holder, fields, from30, path).Ok?
    ensures UniqueKeys(NormalizeFields(holder, fields, from30, path).value)
  {
    if |fields| != 0 {
      FieldsKeepKeys(holder, fields[1..], from30, path);
      if !Dropped(holder, fields[0].key, from30) {
        FieldsLookup(holder, fields[1..], from30, path, fields[0].key);
        assert Lookup(fields[1..], fields[0].key).None?;
      }
    }
  }

  lemma {:induction false} FixBoundLookup(source: seq<Field>, members: seq<Field>, bound: string, exclusive: string, path: string, key: string)
    requires UniqueKeys(members) && bound != exclusive
    requires FixBound(source, members, bound, exclusive, path).Ok?
    ensures var fixed := FixBound(source, members, bound, exclusive, path).value;
            && UniqueKeys(fixed)
            && (key != bound && key != exclusive ==> Lookup(fixed, key) == Lookup(members, key))
            && (match Lookup(source, exclusive)
                case Some(Bool(flag)) =>
                  if flag then
                    && Lookup(fixed, bound) == None
                    && Lookup(source, bound).Some? && Lookup(source, bound).value.Num?
                    && Lookup(fixed, exclusive) == Lookup(source, bound)
                  else Lookup(fixed, exclusive) == None && Lookup(fixed, bound) == Lookup(members, bound)
                case _ => fixed == members)
  {
    match Lookup(source, exclusive)
    case Some(Bool(flag)) =>
      if flag {
        var without := Without(members, bound);
        WithoutSubset(members, bound);
        PutUnique(without, exclusive, Lookup(source, bound).value);
        LookupWithout(members, bound, bound);
        LookupPut(without, exclusive, Lookup(source, bound).value, bound);
        LookupPut(without, exclusive, Lookup(source, bound).value, exclusive);
        LookupWithout(members, bound, key);
        LookupPut(without, exclusive, Lookup(source, bound).value, key);
      } else {
        WithoutSubset(members, exclusive);
        LookupWithout(members, exclusive, bound);
        LookupWithout(members, exclusive, exclusive);
        LookupWithout(members, exclusive, key);
      }
    case _ =>
  }
}
