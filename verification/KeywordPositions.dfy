/**
 Which members of a schema and of an OpenAPI object hold schemas, by name, and what the
 3.0.3 translation puts in their place.
 */
module KeywordPositions {
  import opened Prelude
  import opened Json
  import opened KeyOrder
  import opened SchemaNormaliser
  import opened KeywordKinds
  import opened SchemaResidue
  import opened MeaningPreservation
  import opened DocumentImage

  /** What `after` holds under the name is the translation of the schema `before` holds under it. */
  ghost predicate SchemaByName(before: seq<Field>, after: seq<Field>, path: string, name: string) {
    match Lookup(before, name)
    case Some(schema) =>
      Has(after, name) && NormalizeSchema(schema, true, path + "/" + name) == Ok(Lookup(after, name).value)
    case None => !Has(after, name)
  }

  ghost predicate SchemasByName(before: seq<Field>, after: Json, path: string) {
    after.Obj? && forall name :: SchemaByName(before, after.fields, path, name)
  }

  ghost predicate SchemasInOrder(before: seq<Json>, after: Json, path: string) {
    && after.Arr? && |after.items| == |before|
    && forall i :: 0 <= i < |before| ==> NormalizeSchema(before[i], true, path + "/" + Decimal(i)) == Ok(after.items[i])
  }

  lemma {:induction false} MapByName(fields: seq<Field>, path: string)
    requires NormalizeFields(SchemaMap, fields, true, path).Ok?
    ensures SchemasByName(fields, Obj(NormalizeFields(SchemaMap, fields, true, path).value), path)
  {
    var after := NormalizeFields(SchemaMap, fields, true, path).value;
    forall name ensures SchemaByName(fields, after, path, name) {
      FieldsLookup(SchemaMap, fields, true, path, name);
    }
  }

  lemma {:induction false} ListInOrder(items: seq<Json>, path: string)
    requires NormalizeItems(true, items, true, path, 0).Ok?
    ensures SchemasInOrder(items, Arr(NormalizeItems(true, items, true, path, 0).value), path)
  {
    if |items| != 0 {
      ListElement(items, true, path, 0, 0);
    }
    forall i | 0 <= i < |items|
      ensures NormalizeSchema(items[i], true, path + "/" + Decimal(i)) == Ok(NormalizeItems(true, items, true, path, 0).value[i])
    {
      ListElement(items, true, path, 0, i);
    }
  }

  // ---------- by name ----------

  const DATA_NAMES := {"example", "examples", "default", "enum", "const"}
  const MAP_NAMES := {"properties", "patternProperties", "dependentSchemas", "$defs", "definitions"}
  const LIST_NAMES := {"allOf", "anyOf", "oneOf", "prefixItems"}
  const SCHEMA_NAMES := {
    "items", "contains", "additionalProperties", "unevaluatedProperties", "propertyNames", "not", "if", "then", "else",
    "contentSchema"}

  predicate IsBound(key: string) {
    key in BOUNDS || key in EXCLUSIVE_BOUNDS
  }

  predicate HoldsData(key: string) {
    key in DATA_NAMES || IsExtension(key)
  }

  lemma KindByName(key: string)
    ensures KindOf(key) ==
      if HoldsData(key) then DataKeyword
      else if key in MAP_NAMES then MapKeyword
      else if key in LIST_NAMES then ListKeyword
      else if key in SCHEMA_NAMES then SchemaKeyword
      else if key == "dependencies" then DependencyKeyword
      else OtherKeyword
  {
  }

  lemma {:induction false} KeywordImage(fields: seq<Field>, path: string, key: string)
    requires UniqueKeys(fields) && Bounded(fields, path).Ok? && Has(fields, key)
    requires key != "nullable" && !IsBound(key)
    ensures var item := Lookup(fields, key).value;
      && Has(Bounded(fields, path).value, key)
      && Image(ArgumentRole(KindOf(key), item), item, path + "/" + key) == Ok(Lookup(Bounded(fields, path).value, key).value)
  {
    BoundedAt(fields, path, key);
    FieldsLookup(SchemaObject, fields, true, path, key);
    var item := Lookup(fields, key).value;
    KeywordByKind(Field(key, item), path + "/" + key);
    ArgumentImage(KindOf(key), item, path + "/" + key);
  }

  /**
   A keyword of a translated schema other than the bounds and `nullable`, before `null` is
   added to the types: data is only sorted, and schemas are translated where the keyword
   holds one, a list of them or a map of them.
   */
  lemma {:induction false} KeywordTranslated(fields: seq<Field>, path: string, key: string)
    requires UniqueKeys(fields) && Bounded(fields, path).Ok? && Has(fields, key)
    requires key != "nullable" && !IsBound(key)
    ensures Has(Bounded(fields, path).value, key)
    ensures var item, result, at := Lookup(fields, key).value, Lookup(Bounded(fields, path).value, key).value, path + "/" + key;
      && (HoldsData(key) ==> result == Canonical(item))
      && (key in MAP_NAMES && item.Obj? ==> SchemasByName(item.fields, result, at))
      && (key in LIST_NAMES && item.Arr? ==> SchemasInOrder(item.items, result, at))
      && (key in SCHEMA_NAMES && item.Obj? ==> NormalizeSchema(item, true, at) == Ok(result))
  {
    KindByName(key);
    NamesApart(key);
    KeywordImage(fields, path, key);
    ArgumentTranslated(KindOf(key), Lookup(fields, key).value, Lookup(Bounded(fields, path).value, key).value, path + "/" + key);
  }

  lemma {:induction false} ArgumentTranslated(kind: Kind, item: Json, result: Json, at: string)
    requires Image(ArgumentRole(kind, item), item, at) == Ok(result)
    ensures kind == DataKeyword ==> result == Canonical(item)
    ensures kind == MapKeyword && item.Obj? ==> SchemasByName(item.fields, result, at)
    ensures kind == ListKeyword && item.Arr? ==> SchemasInOrder(item.items, result, at)
    ensures kind == SchemaKeyword && item.Obj? ==> NormalizeSchema(item, true, at) == Ok(result)
  {
    if kind == MapKeyword && item.Obj? {
      MapByName(item.fields, at);
    } else if kind == ListKeyword && item.Arr? {
      ListInOrder(item.items, at);
    }
  }

  lemma NamesApart(key: string)
    ensures key in MAP_NAMES || key in LIST_NAMES || key in SCHEMA_NAMES ==> !HoldsData(key)
    ensures key in LIST_NAMES || key in SCHEMA_NAMES ==> key !in MAP_NAMES
    ensures key in SCHEMA_NAMES ==> key !in LIST_NAMES
  {
    if key in MAP_NAMES || key in LIST_NAMES || key in SCHEMA_NAMES {
      assert key[0] != 'x';
    }
  }

  // ---------- OpenAPI objects ----------

  lemma {:induction false} MemberKept(fields: seq<Field>, path: string, key: string)
    requires NormalizeFields(OpenApiObject, fields, true, path).Ok? && Has(fields, key)
    ensures var members := NormalizeFields(OpenApiObject, fields, true, path).value;
      && Has(members, key)
      && NormalizeMember(Field(key, Lookup(fields, key).value), true, path) == Ok(Lookup(members, key).value)
  {
    FieldsLookup(OpenApiObject, fields, true, path, key);
  }

  /**
   A member of an OpenAPI object in a translated document: what is called `schema` and the
   component schemas are translated as schemas, data is only sorted.
   */
  lemma {:induction false} MemberTranslated(fields: seq<Field>, path: string, key: string)
    requires NormalizeFields(OpenApiObject, fields, true, path).Ok? && Has(fields, key)
    ensures Has(NormalizeFields(OpenApiObject, fields, true, path).value, key)
    ensures var item, at := Lookup(fields, key).value, path + "/" + key;
      var result := Lookup(NormalizeFields(OpenApiObject, fields, true, path).value, key).value;
      && (key == "schema" ==> NormalizeSchema(item, true, at) == Ok(result))
      && (path == "/components" && key == "schemas" && item.Obj? ==> SchemasByName(item.fields, result, at))
      && (key in {"example", "default", "enum", "const", "value"} || IsExtension(key) ==> result == Canonical(item))
  {
    MemberKept(fields, path, key);
    var item := Lookup(fields, key).value;
    MemberBranches(Field(key, item), path);
    if path == "/components" && key == "schemas" && item.Obj? {
      MapByName(item.fields, path + "/" + key);
    }
  }

  lemma {:induction false} MemberBranches(field: Field, path: string)
    ensures field.key == "schema" ==> NormalizeMember(field, true, path) == NormalizeSchema(field.value, true, path + "/" + field.key)
    ensures path == "/components" && field.key == "schemas" && field.value.Obj? ==>
      var schemas := NormalizeFields(SchemaMap, field.value.fields, true, path + "/" + field.key);
      if schemas.Ok? then NormalizeMember(field, true, path) == Ok(Obj(schemas.value)) else NormalizeMember(field, true, path).Err?
    ensures field.key in {"example", "default", "enum", "const", "value"} || IsExtension(field.key) ==>
      NormalizeMember(field, true, path) == Ok(Canonical(field.value))
  {
  }

  // ---------- the list of types ----------

  predicate FirstAt(values: seq<Json>, x: Json, i: nat) {
    i < |values| && values[i] == x && forall k :: 0 <= k < i ==> values[k] != x
  }

  lemma {:induction false} HasFirst(values: seq<Json>, x: Json) returns (i: nat)
    requires x in values
    ensures FirstAt(values, x, i)
  {
    i := 0;
    while values[i] != x
      invariant i < |values| && forall k :: 0 <= k < i ==> values[k] != x
      decreases |values| - i
    {
      assert exists k :: i < k < |values| && values[k] == x by {
        var k :| 0 <= k < |values| && values[k] == x;
      }
      i := i + 1;
    }
  }

  ghost predicate FirstsInOrder(values: seq<Json>, r: seq<Json>) {
    forall i, j, k: nat, l: nat :: 0 <= i < j < |r| && FirstAt(values, r[i], k) && FirstAt(values, r[j], l) ==> k < l
  }

  /** Of equal types the first stays, and those that stay keep their order. */
  lemma {:induction false} DistinctInOrder(values: seq<Json>)
    ensures FirstsInOrder(values, Distinct(values))
  {
    if |values| != 0 {
      var n := |values| - 1;
      var init := Distinct(values[..n]);
      DistinctInOrder(values[..n]);
      var r := Distinct(values);
      forall i, j, k: nat, l: nat | 0 <= i < j < |r| && FirstAt(values, r[i], k) && FirstAt(values, r[j], l) ensures k < l {
        assert r[i] == init[i] && init[i] in values[..n];
        var k' := HasFirst(values[..n], init[i]);
        assert k == k';
        if j < |init| {
          assert init[j] in values[..n];
          var l' := HasFirst(values[..n], init[j]);
          assert l == l';
        }
      }
    }
  }
}
