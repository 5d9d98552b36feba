/** The theorem that `_normalize_schema` keeps the meaning of a schema. */
module MeaningPreservation {
  import opened Prelude
  import opened Json
  import opened SchemaNormaliser
  import opened SchemaMeaning
  import opened CanonicalForm
  import opened KeyOrder

  // ---------- what the translation does to single keywords ----------

  lemma {:induction false} MapElement(fields: seq<Field>, from30: bool, path: string, i: nat)
    requires NormalizeFields(SchemaMap, fields, from30, path).Ok? && i < |fields|
    ensures var schemas := NormalizeFields(SchemaMap, fields, from30, path).value;
            && |schemas| == |fields|
            && schemas[i].key == fields[i].key
            && NormalizeSchema(fields[i].value, from30, path + "/" + fields[i].key) == Ok(schemas[i].value)
  {
    if i > 0 {
      MapElement(fields[1..], from30, path, i - 1);
    } else if |fields| > 1 {
      MapElement(fields[1..], from30, path, 0);
    }
  }

  lemma {:induction false} MapKeys(fields: seq<Field>, from30: bool, path: string, key: string)
    requires NormalizeFields(SchemaMap, fields, from30, path).Ok?
    ensures Has(NormalizeFields(SchemaMap, fields, from30, path).value, key) <==> Has(fields, key)
    ensures |NormalizeFields(SchemaMap, fields, from30, path).value| == |fields|
  {
    FieldsLookup(SchemaMap, fields, from30, path, key);
    if |fields| != 0 {
      MapElement(fields, from30, path, 0);
    }
  }

  lemma {:induction false} ListElement(items: seq<Json>, from30: bool, path: string, index: nat, i: nat)
    requires NormalizeItems(true, items, from30, path, index).Ok? && i < |items|
    ensures var schemas := NormalizeItems(true, items, from30, path, index).value;
            && |schemas| == |items|
            && NormalizeSchema(items[i], from30, path + "/" + Decimal(index + i)) == Ok(schemas[i])
  {
    if i > 0 {
      ListElement(items[1..], from30, path, index + 1, i - 1);
    } else if |items| > 1 {
      ListElement(items[1..], from30, path, index + 1, 0);
    }
  }

  lemma {:induction false} FlatItemsUnchanged(items: seq<Json>, from30: bool, path: string, index: nat)
    requires forall i :: 0 <= i < |items| ==> !items[i].Obj? && !items[i].Arr?
    ensures NormalizeItems(false, items, from30, path, index) == Ok(items)
  {
    if |items| != 0 {
      FlatItemsUnchanged(items[1..], from30, path, index + 1);
      assert items == [items[0]] + items[1..];
    }
  }

  lemma {:induction false} FlatUnchanged(value: Json, from30: bool, path: string)
    requires Flat(value)
    ensures NormalizeDocument(value, from30, path) == Ok(value)
  {
    if value.Arr? {
      FlatItemsUnchanged(value.items, from30, path, 0);
    }
  }

  // ---------- the translated keyword list ----------

  /** How the keywords of `target` come from those of the 3.0.3 schema `source`. */
  ghost predicate Translated(source: seq<Field>, target: seq<Field>, path: string) {
    && SubschemasTranslated(source, target, path)
    && LeavesTranslated(source, target)
    && EnumTranslated(source, target)
    && BoundTranslated(source, target, "minimum", "exclusiveMinimum")
    && BoundTranslated(source, target, "maximum", "exclusiveMaximum")
  }

  ghost predicate SubschemasTranslated(source: seq<Field>, target: seq<Field>, path: string) {
    && KeywordTranslated(source, target, path, "properties")
    && KeywordTranslated(source, target, path, "additionalProperties")
    && KeywordTranslated(source, target, path, "items")
    && KeywordTranslated(source, target, path, "allOf")
    && KeywordTranslated(source, target, path, "anyOf")
    && KeywordTranslated(source, target, path, "oneOf")
    && KeywordTranslated(source, target, path, "not")
  }

  ghost predicate KeywordTranslated(source: seq<Field>, target: seq<Field>, path: string, key: string) {
    match Lookup(source, key)
    case None => Lookup(target, key) == None
    case Some(item) =>
      Lookup(target, key).Some?
      && NormalizeKeyword(Field(key, item), true, path + "/" + key) == Ok(Lookup(target, key).value)
  }

  ghost predicate LeavesTranslated(source: seq<Field>, target: seq<Field>) {
    forall key :: key in LEAF_KEYWORDS ==> Lookup(target, key) == Lookup(source, key)
  }

  predicate EnumTranslated(source: seq<Field>, target: seq<Field>) {
    match Lookup(source, "enum")
    case None => Lookup(target, "enum") == None
    case Some(choices) => Lookup(target, "enum") == Some(Canonical(choices))
  }

  predicate BoundTranslated(source: seq<Field>, target: seq<Field>, bound: string, exclusive: string) {
    if Lookup(source, exclusive) == Some(Bool(true)) then
      && Lookup(source, bound).Some? && Lookup(source, bound).value.Num?
      && Lookup(target, bound) == None
      && Lookup(target, exclusive) == Lookup(source, bound)
    else
      && Lookup(target, bound) == Lookup(source, bound)
      && Lookup(target, exclusive) == None
  }

  /** The keyword list just before `nullable` is dealt with. */
  function Bounded(fields: seq<Field>, path: string): Outcome<seq<Field>> {
    var members :- NormalizeFields(SchemaObject, fields, true, path);
    var lower :- FixBound(fields, members, "minimum", "exclusiveMinimum", path);
    FixBound(fields, lower, "maximum", "exclusiveMaximum", path)
  }

  lemma {:induction false} WellFormedAt(fields: seq<Field>, key: string)
    requires WellFormed(Obj(fields)) && Has(fields, key)
    ensures WellFormedKeyword(Field(key, Lookup(fields, key).value))
  {
  }

  /** Every keyword except the four bounds goes through unchanged by the bound fixes. */
  lemma {:induction false} BoundedLookup(fields: seq<Field>, path: string, key: string)
    requires WellFormed(Obj(fields)) && Bounded(fields, path).Ok?
    ensures UniqueKeys(Bounded(fields, path).value)
    ensures key !in {"minimum", "exclusiveMinimum", "maximum", "exclusiveMaximum"} ==>
              Lookup(Bounded(fields, path).value, key) == Lookup(NormalizeFields(SchemaObject, fields, true, path).value, key)
    ensures BoundTranslated(fields, Bounded(fields, path).value, "minimum", "exclusiveMinimum")
    ensures BoundTranslated(fields, Bounded(fields, path).value, "maximum", "exclusiveMaximum")
  {
    var members := NormalizeFields(SchemaObject, fields, true, path).value;
    FieldsKeepKeys(SchemaObject, fields, true, path);
    var lower := FixBound(fields, members, "minimum", "exclusiveMinimum", path).value;
    BoundKeywordUnchanged(fields, path, "minimum");
    BoundKeywordUnchanged(fields, path, "exclusiveMinimum");
    BoundKeywordUnchanged(fields, path, "maximum");
    BoundKeywordUnchanged(fields, path, "exclusiveMaximum");
    ExclusiveIsBoolean(fields, "exclusiveMinimum");
    ExclusiveIsBoolean(fields, "exclusiveMaximum");
    FixBoundLookup(fields, members, "minimum", "exclusiveMinimum", path, key);
    FixBoundLookup(fields, members, "minimum", "exclusiveMinimum", path, "maximum");
    FixBoundLookup(fields, members, "minimum", "exclusiveMinimum", path, "exclusiveMaximum");
    FixBoundLookup(fields, lower, "maximum", "exclusiveMaximum", path, key);
    FixBoundLookup(fields, lower, "maximum", "exclusiveMaximum", path, "minimum");
    FixBoundLookup(fields, lower, "maximum", "exclusiveMaximum", path, "exclusiveMinimum");
  }

  lemma {:induction false} ExclusiveIsBoolean(fields: seq<Field>, key: string)
    requires WellFormed(Obj(fields)) && (key == "exclusiveMinimum" || key == "exclusiveMaximum")
    ensures Lookup(fields, key) in {None, Some(Bool(true)), Some(Bool(false))}
  {
    if Has(fields, key) {
      WellFormedAt(fields, key);
    }
  }


  lemma {:induction false} BoundKeywordUnchanged(fields: seq<Field>, path: string, key: string)
    requires key == "minimum" || key == "exclusiveMinimum" || key == "maximum" || key == "exclusiveMaximum"
    requires WellFormed(Obj(fields)) && NormalizeFields(SchemaObject, fields, true, path).Ok?
    ensures Lookup(NormalizeFields(SchemaObject, fields, true, path).value, key) == Lookup(fields, key)
  {
    FieldsLookup(SchemaObject, fields, true, path, key);
    if Has(fields, key) {
      WellFormedAt(fields, key);
      BoundItemUnchanged(key, Lookup(fields, key).value, path + "/" + key);
    }
  }

  lemma {:induction false} BoundItemUnchanged(key: string, item: Json, path: string)
    requires key == "minimum" || key == "exclusiveMinimum" || key == "maximum" || key == "exclusiveMaximum"
    requires WellFormedKeyword(Field(key, item))
    ensures NormalizeKeyword(Field(key, item), true, path) == Ok(item)
  {
    assert !IsSchemaData(key);
  }

  lemma SubschemaIsTranslated(fields: seq<Field>, path: string, key: string)
    requires WellFormed(Obj(fields)) && Bounded(fields, path).Ok?
    requires key !in {"minimum", "exclusiveMinimum", "maximum", "exclusiveMaximum"} && key != "nullable"
    ensures KeywordTranslated(fields, Bounded(fields, path).value, path, key)
  {
    BoundedLookup(fields, path, key);
    OtherKeyword(fields, path, key);
  }

  lemma SubschemasAreTranslated(fields: seq<Field>, path: string)
    requires WellFormed(Obj(fields)) && Bounded(fields, path).Ok?
    ensures SubschemasTranslated(fields, Bounded(fields, path).value, path)
  {
    SubschemaIsTranslated(fields, path, "properties");
    SubschemaIsTranslated(fields, path, "additionalProperties");
    SubschemaIsTranslated(fields, path, "items");
    SubschemaIsTranslated(fields, path, "allOf");
    SubschemaIsTranslated(fields, path, "anyOf");
    SubschemaIsTranslated(fields, path, "oneOf");
    SubschemaIsTranslated(fields, path, "not");
  }

  lemma {:induction false} LeafIsTranslated(fields: seq<Field>, path: string, key: string)
    requires WellFormed(Obj(fields)) && Bounded(fields, path).Ok? && key in LEAF_KEYWORDS
    ensures Lookup(Bounded(fields, path).value, key) == Lookup(fields, key)
  {
    LeafIsNoOtherKeyword(key);
    BoundedLookup(fields, path, key);
    OtherKeyword(fields, path, key);
    if Has(fields, key) {
      WellFormedAt(fields, key);
      LeafItemUnchanged(key, Lookup(fields, key).value, path + "/" + key);
    }
  }

  lemma {:induction false} OtherKeyword(fields: seq<Field>, path: string, key: string)
    requires UniqueKeys(fields) && NormalizeFields(SchemaObject, fields, true, path).Ok? && key != "nullable"
    ensures KeywordTranslated(fields, NormalizeFields(SchemaObject, fields, true, path).value, path, key)
  {
    FieldsLookup(SchemaObject, fields, true, path, key);
  }

  lemma {:induction false} LeafItemUnchanged(key: string, item: Json, path: string)
    requires key in LEAF_KEYWORDS && WellFormedKeyword(Field(key, item))
    ensures NormalizeKeyword(Field(key, item), true, path) == Ok(item)
  {
    LeafIsNoOtherKeyword(key);
    FlatUnchanged(item, true, path);
  }

  /** The keyword classes do not overlap. */
  lemma LeafIsNoOtherKeyword(key: string)
    requires key in LEAF_KEYWORDS
    ensures !IsSchemaData(key) && key !in SCHEMA_MAP_KEYWORDS && key !in SCHEMA_LIST_KEYWORDS
    ensures key !in SCHEMA_KEYWORDS && key != "dependencies"
    ensures key !in {"minimum", "exclusiveMinimum", "maximum", "exclusiveMaximum"}
    ensures key !in {"$ref", "type", "enum", "nullable"}
  {
  }

  lemma EnumIsTranslated(fields: seq<Field>, path: string)
    requires WellFormed(Obj(fields)) && Bounded(fields, path).Ok?
    ensures EnumTranslated(fields, Bounded(fields, path).value)
  {
    SubschemaIsTranslated(fields, path, "enum");
    if Has(fields, "enum") {
      EnumItemCanonical(Lookup(fields, "enum").value, path + "/" + "enum");
    }
  }

  lemma {:induction false} EnumItemCanonical(item: Json, path: string)
    ensures NormalizeKeyword(Field("enum", item), true, path) == Ok(Canonical(item))
  {
  }

  lemma BoundedIsTranslated(fields: seq<Field>, path: string)
    requires WellFormed(Obj(fields)) && Bounded(fields, path).Ok?
    ensures Translated(fields, Bounded(fields, path).value, path)
  {
    SubschemasAreTranslated(fields, path);
    EnumIsTranslated(fields, path);
    BoundedLookup(fields, path, "enum");
    forall key | key in LEAF_KEYWORDS
      ensures Lookup(Bounded(fields, path).value, key) == Lookup(fields, key)
    {
      LeafIsTranslated(fields, path, key);
    }
  }

  // ---------- keyword by keyword ----------

  ghost predicate SameEnvironment(env: Environment, translated: Environment) {
    && env.Keys == translated.Keys
    && forall reference :: reference in env ==>
         WellFormed(env[reference]) && IsTranslation(env[reference], translated[reference])
  }

  ghost predicate IsTranslation(schema: Json, translated: Json) {
    exists path: string :: NormalizeSchema(schema, true, path) == Ok(translated)
  }

  lemma {:induction false} BoundsAreNumbers(fields: seq<Field>, key: string)
    requires WellFormed(Obj(fields)) && (key == "minimum" || key == "maximum")
    ensures Lookup(fields, key).Some? ==> Lookup(fields, key).value.Num?
  {
    if Has(fields, key) {
      WellFormedAt(fields, key);
    }
  }

  lemma {:induction false} LowerBoundPreserved(source: seq<Field>, target: seq<Field>, value: Json)
    requires BoundTranslated(source, target, "minimum", "exclusiveMinimum")
    requires Lookup(source, "minimum").Some? ==> Lookup(source, "minimum").value.Num?
    requires Lookup(source, "exclusiveMinimum") in {None, Some(Bool(true)), Some(Bool(false))}
    ensures LowerBoundAccepts(OpenApi303, source, value) <==> LowerBoundAccepts(Draft2020, target, value)
  {
  }

  lemma {:induction false} UpperBoundPreserved(source: seq<Field>, target: seq<Field>, value: Json)
    requires BoundTranslated(source, target, "maximum", "exclusiveMaximum")
    requires Lookup(source, "maximum").Some? ==> Lookup(source, "maximum").value.Num?
    requires Lookup(source, "exclusiveMaximum") in {None, Some(Bool(true)), Some(Bool(false))}
    ensures UpperBoundAccepts(OpenApi303, source, value) <==> UpperBoundAccepts(Draft2020, target, value)
  {
  }

  lemma EnumPreserved(source: seq<Field>, target: seq<Field>, value: Json)
    requires EnumTranslated(source, target)
    ensures EnumAccepts(source, value) <==> EnumAccepts(target, value)
  {
    match Lookup(source, "enum")
    case Some(Arr(choices)) =>
      var translated := CanonicalItems(choices);
      assert Lookup(target, "enum") == Some(Arr(translated));
      forall i | 0 <= i < |choices|
        ensures Canonical(translated[i]) == Canonical(choices[i])
      {
        CanonicalIdempotent(choices[i]);
      }
    case _ =>
  }

  lemma LeavesPreserved(leaf: Leaf, source: seq<Field>, target: seq<Field>, value: Json)
    requires LeavesTranslated(source, target)
    ensures LeavesAccept(leaf, source, value) <==> LeavesAccept(leaf, target, value)
  {
    forall key | key in LEAF_KEYWORDS
      ensures Lookup(target, key) == Lookup(source, key)
    {
    }
  }

  /** The subschema keywords that hold one schema, a list of schemas or a map of schemas. */
  lemma {:induction false} SingleKeyword(key: string, item: Json, path: string)
    requires key == "items" || key == "not" || key == "additionalProperties"
    requires WellFormedKeyword(Field(key, item))
    ensures item.Obj? ==>
              WellFormed(item) && NormalizeKeyword(Field(key, item), true, path) == NormalizeSchema(item, true, path)
    ensures !item.Obj? ==> item.Bool? && NormalizeKeyword(Field(key, item), true, path) == Ok(item)
  {
    assert !IsSchemaData(key) && key !in SCHEMA_MAP_KEYWORDS && key !in SCHEMA_LIST_KEYWORDS;
    assert key in SCHEMA_KEYWORDS && key != "dependencies";
  }

  lemma {:induction false} ListKeyword(key: string, item: Json, path: string)
    requires key == "allOf" || key == "anyOf" || key == "oneOf"
    requires WellFormedKeyword(Field(key, item))
    ensures item.Arr? && forall i :: 0 <= i < |item.items| ==> WellFormed(item.items[i])
    ensures NormalizeKeyword(Field(key, item), true, path)
            == match NormalizeItems(true, item.items, true, path, 0)
               case Ok(schemas) => Ok(Arr(schemas))
               case Err(refusal) => Err(refusal)
  {
    assert !IsSchemaData(key) && key !in SCHEMA_MAP_KEYWORDS && key in SCHEMA_LIST_KEYWORDS;
  }

  lemma {:induction false} MapKeyword(item: Json, path: string)
    requires WellFormedKeyword(Field("properties", item))
    ensures item.Obj? && forall i :: 0 <= i < |item.fields| ==> WellFormed(item.fields[i].value)
    ensures NormalizeKeyword(Field("properties", item), true, path)
            == match NormalizeFields(SchemaMap, item.fields, true, path)
               case Ok(schemas) => Ok(Obj(schemas))
               case Err(refusal) => Err(refusal)
  {
    assert !IsSchemaData("properties") && "properties" in SCHEMA_MAP_KEYWORDS;
  }

  lemma {:induction false} ListPreserved(
    leaf: Leaf, env: Environment, translated: Environment, n: nat,
    schemas: seq<Json>, path: string, value: Json)
    requires SameEnvironment(env, translated)
    requires forall i :: 0 <= i < |schemas| ==> WellFormed(schemas[i])
    requires NormalizeItems(true, schemas, true, path, 0).Ok?
    ensures var targets := NormalizeItems(true, schemas, true, path, 0).value;
            && |targets| == |schemas|
            && forall i :: 0 <= i < |schemas| ==>
                 (Accepts(OpenApi303, leaf, env, n, schemas[i], value)
                  <==> Accepts(Draft2020, leaf, translated, n, targets[i], value))
    decreases n, schemas, 0
  {
    var targets := NormalizeItems(true, schemas, true, path, 0).value;
    if |schemas| != 0 {
      ListElement(schemas, true, path, 0, 0);
    }
    forall i | 0 <= i < |schemas|
      ensures Accepts(OpenApi303, leaf, env, n, schemas[i], value)
              <==> Accepts(Draft2020, leaf, translated, n, targets[i], value)
    {
      ListElement(schemas, true, path, 0, i);
      MeaningPreserved(leaf, env, translated, n, schemas[i], path + "/" + Decimal(i), value);
    }
  }

  lemma {:induction false} PropertiesPreserved(
    leaf: Leaf, env: Environment, translated: Environment, n: nat,
    item: Json, result: Json, path: string, value: Json)
    requires SameEnvironment(env, translated)
    requires WellFormedKeyword(Field("properties", item))
    requires NormalizeKeyword(Field("properties", item), true, path) == Ok(result)
    ensures PropertiesAccept(OpenApi303, leaf, env, n, item, value)
            <==> PropertiesAccept(Draft2020, leaf, translated, n, result, value)
    decreases n, item, 8
  {
    MapKeyword(item, path);
    MapPreserved(leaf, env, translated, n, item.fields, path, value);
  }

  lemma {:induction false} MapPreserved(
    leaf: Leaf, env: Environment, translated: Environment, n: nat,
    schemas: seq<Field>, path: string, value: Json)
    requires SameEnvironment(env, translated)
    requires forall i :: 0 <= i < |schemas| ==> WellFormed(schemas[i].value)
    requires NormalizeFields(SchemaMap, schemas, true, path).Ok?
    ensures PropertiesAccept(OpenApi303, leaf, env, n, Obj(schemas), value)
            <==> PropertiesAccept(Draft2020, leaf, translated, n, Obj(NormalizeFields(SchemaMap, schemas, true, path).value), value)
    decreases n, schemas, 0
  {
    var targets := NormalizeFields(SchemaMap, schemas, true, path).value;
    MapKeys(schemas, true, path, "");
    if value.Obj? {
      forall i | 0 <= i < |schemas|
        ensures targets[i].key == schemas[i].key
        ensures Has(value.fields, schemas[i].key) ==>
                  (Accepts(OpenApi303, leaf, env, n, schemas[i].value, Lookup(value.fields, schemas[i].key).value)
                   <==> Accepts(Draft2020, leaf, translated, n, targets[i].value, Lookup(value.fields, schemas[i].key).value))
      {
        MapElement(schemas, true, path, i);
        if Has(value.fields, schemas[i].key) {
          MeaningPreserved(leaf, env, translated, n, schemas[i].value, path + "/" + schemas[i].key,
                           Lookup(value.fields, schemas[i].key).value);
        }
      }
    }
  }

  lemma DeclaredPreserved(source: seq<Field>, target: seq<Field>, path: string, key: string)
    requires WellFormed(Obj(source)) && KeywordTranslated(source, target, path, "properties")
    ensures IsDeclared(source, key) <==> IsDeclared(target, key)
  {
    if Has(source, "properties") {
      var item := Lookup(source, "properties").value;
      WellFormedAt(source, "properties");
      MapKeyword(item, path + "/" + "properties");
      MapKeys(item.fields, true, path + "/" + "properties", key);
    }
  }

  /** The schema held by `items`, `not` or `additionalProperties`, on any value. */
  lemma {:induction false} SinglePreserved(
    leaf: Leaf, env: Environment, translated: Environment, n: nat,
    key: string, item: Json, result: Json, path: string, value: Json)
    requires key == "items" || key == "not" || key == "additionalProperties"
    requires SameEnvironment(env, translated)
    requires WellFormedKeyword(Field(key, item))
    requires NormalizeKeyword(Field(key, item), true, path) == Ok(result)
    ensures Accepts(OpenApi303, leaf, env, n, item, value) <==> Accepts(Draft2020, leaf, translated, n, result, value)
    decreases n, item, 8
  {
    SingleKeyword(key, item, path);
    if item.Obj? {
      MeaningPreserved(leaf, env, translated, n, item, path, value);
    }
  }

  lemma {:induction false} AdditionalPointwise(
    leaf: Leaf, env: Environment, translated: Environment, n: nat,
    source: seq<Field>, target: seq<Field>, item: Json, result: Json, members: seq<Field>)
    requires forall i :: 0 <= i < |members| ==>
      (IsDeclared(source, members[i].key) <==> IsDeclared(target, members[i].key))
    requires forall i :: 0 <= i < |members| ==>
      (Accepts(OpenApi303, leaf, env, n, item, members[i].value)
       <==> Accepts(Draft2020, leaf, translated, n, result, members[i].value))
    ensures AdditionalAccept(OpenApi303, leaf, env, n, source, item, Obj(members))
            <==> AdditionalAccept(Draft2020, leaf, translated, n, target, result, Obj(members))
  {
  }

  lemma AllDeclaredPreserved(source: seq<Field>, target: seq<Field>, at: string, members: seq<Field>)
    requires WellFormed(Obj(source)) && KeywordTranslated(source, target, at, "properties")
    ensures forall i :: 0 <= i < |members| ==>
      (IsDeclared(source, members[i].key) <==> IsDeclared(target, members[i].key))
  {
    forall i | 0 <= i < |members|
      ensures IsDeclared(source, members[i].key) <==> IsDeclared(target, members[i].key)
    {
      DeclaredPreserved(source, target, at, members[i].key);
    }
  }

  lemma {:induction false} AdditionalPreserved(
    leaf: Leaf, env: Environment, translated: Environment, n: nat,
    source: seq<Field>, target: seq<Field>, item: Json, result: Json, at: string, path: string, value: Json)
    requires SameEnvironment(env, translated)
    requires WellFormed(Obj(source)) && KeywordTranslated(source, target, at, "properties")
    requires WellFormedKeyword(Field("additionalProperties", item))
    requires NormalizeKeyword(Field("additionalProperties", item), true, path) == Ok(result)
    ensures AdditionalAccept(OpenApi303, leaf, env, n, source, item, value)
            <==> AdditionalAccept(Draft2020, leaf, translated, n, target, result, value)
    decreases n, item, 9
  {
    if value.Obj? {
      AllDeclaredPreserved(source, target, at, value.fields);
      forall i | 0 <= i < |value.fields|
        ensures Accepts(OpenApi303, leaf, env, n, item, value.fields[i].value)
                <==> Accepts(Draft2020, leaf, translated, n, result, value.fields[i].value)
      {
        SinglePreserved(leaf, env, translated, n, "additionalProperties", item, result, path, value.fields[i].value);
      }
      AdditionalPointwise(leaf, env, translated, n, source, target, item, result, value.fields);
    }
  }

  lemma {:induction false} ItemsPreserved(
    leaf: Leaf, env: Environment, translated: Environment, n: nat,
    item: Json, result: Json, path: string, value: Json)
    requires SameEnvironment(env, translated)
    requires WellFormedKeyword(Field("items", item))
    requires NormalizeKeyword(Field("items", item), true, path) == Ok(result)
    ensures ItemsAccept(OpenApi303, leaf, env, n, item, value)
            <==> ItemsAccept(Draft2020, leaf, translated, n, result, value)
    decreases n, item, 9
  {
    if value.Arr? {
      forall i | 0 <= i < |value.items|
        ensures Accepts(OpenApi303, leaf, env, n, item, value.items[i])
                <==> Accepts(Draft2020, leaf, translated, n, result, value.items[i])
      {
        SinglePreserved(leaf, env, translated, n, "items", item, result, path, value.items[i]);
      }
    }
  }

  lemma {:induction false} AllOfPreserved(
    leaf: Leaf, env: Environment, translated: Environment, n: nat,
    item: Json, result: Json, path: string, value: Json)
    requires SameEnvironment(env, translated)
    requires WellFormedKeyword(Field("allOf", item))
    requires NormalizeKeyword(Field("allOf", item), true, path) == Ok(result)
    ensures AllOfAccepts(OpenApi303, leaf, env, n, item, value) <==> AllOfAccepts(Draft2020, leaf, translated, n, result, value)
    decreases n, item, 8
  {
    ListKeyword("allOf", item, path);
    ListPreserved(leaf, env, translated, n, item.items, path, value);
  }

  lemma {:induction false} AnyOfPreserved(
    leaf: Leaf, env: Environment, translated: Environment, n: nat,
    item: Json, result: Json, path: string, value: Json)
    requires SameEnvironment(env, translated)
    requires WellFormedKeyword(Field("anyOf", item))
    requires NormalizeKeyword(Field("anyOf", item), true, path) == Ok(result)
    ensures AnyOfAccepts(OpenApi303, leaf, env, n, item, value) <==> AnyOfAccepts(Draft2020, leaf, translated, n, result, value)
    decreases n, item, 8
  {
    ListKeyword("anyOf", item, path);
    ListPreserved(leaf, env, translated, n, item.items, path, value);
  }

  lemma {:induction false} OneOfPointwise(
    leaf: Leaf, env: Environment, translated: Environment, n: nat,
    sources: seq<Json>, targets: seq<Json>, value: Json)
    requires |sources| == |targets|
    requires forall i :: 0 <= i < |sources| ==>
               (Accepts(OpenApi303, leaf, env, n, sources[i], value)
                <==> Accepts(Draft2020, leaf, translated, n, targets[i], value))
    ensures OneOfAccepts(OpenApi303, leaf, env, n, Arr(sources), value)
            <==> OneOfAccepts(Draft2020, leaf, translated, n, Arr(targets), value)
  {
    forall i: nat | i < |sources|
      ensures AcceptsOnly(OpenApi303, leaf, env, n, sources, i, value)
              <==> AcceptsOnly(Draft2020, leaf, translated, n, targets, i, value)
    {
    }
  }

  lemma {:induction false} OneOfPreserved(
    leaf: Leaf, env: Environment, translated: Environment, n: nat,
    item: Json, result: Json, path: string, value: Json)
    requires SameEnvironment(env, translated)
    requires WellFormedKeyword(Field("oneOf", item))
    requires NormalizeKeyword(Field("oneOf", item), true, path) == Ok(result)
    ensures OneOfAccepts(OpenApi303, leaf, env, n, item, value) <==> OneOfAccepts(Draft2020, leaf, translated, n, result, value)
    decreases n, item, 8
  {
    ListKeyword("oneOf", item, path);
    ListPreserved(leaf, env, translated, n, item.items, path, value);
    OneOfPointwise(leaf, env, translated, n, item.items, result.items, value);
  }

  lemma LocalPreserved(leaf: Leaf, source: seq<Field>, target: seq<Field>, path: string, value: Json)
    requires WellFormed(Obj(source)) && Translated(source, target, path)
    ensures LocalAccept(OpenApi303, leaf, source, value) <==> LocalAccept(Draft2020, leaf, target, value)
  {
    BoundsAreNumbers(source, "minimum");
    BoundsAreNumbers(source, "maximum");
    ExclusiveIsBoolean(source, "exclusiveMinimum");
    ExclusiveIsBoolean(source, "exclusiveMaximum");
    LowerBoundPreserved(source, target, value);
    UpperBoundPreserved(source, target, value);
    EnumPreserved(source, target, value);
    LeavesPreserved(leaf, source, target, value);
  }

  lemma {:induction false} ConstraintsPreserved(
    leaf: Leaf, env: Environment, translated: Environment, n: nat,
    source: seq<Field>, target: seq<Field>, path: string, value: Json)
    requires SameEnvironment(env, translated)
    requires WellFormed(Obj(source)) && Translated(source, target, path)
    ensures ConstraintsAccept(OpenApi303, leaf, env, n, Obj(source), value)
            <==> ConstraintsAccept(Draft2020, leaf, translated, n, Obj(target), value)
    decreases n, Obj(source), 3
  {
    LocalPreserved(leaf, source, target, path, value);
    PropertiesPreservedAt(leaf, env, translated, n, source, target, path, value);
    AdditionalPreservedAt(leaf, env, translated, n, source, target, path, value);
    ItemsPreservedAt(leaf, env, translated, n, source, target, path, value);
    AllOfPreservedAt(leaf, env, translated, n, source, target, path, value);
    AnyOfPreservedAt(leaf, env, translated, n, source, target, path, value);
    OneOfPreservedAt(leaf, env, translated, n, source, target, path, value);
    NotPreservedAt(leaf, env, translated, n, source, target, path, value);
  }

  lemma {:induction false} PropertiesPreservedAt(
    leaf: Leaf, env: Environment, translated: Environment, n: nat,
    source: seq<Field>, target: seq<Field>, path: string, value: Json)
    requires SameEnvironment(env, translated)
    requires WellFormed(Obj(source)) && KeywordTranslated(source, target, path, "properties")
    ensures PropertiesHolds(OpenApi303, leaf, env, n, Obj(source), value)
            <==> PropertiesHolds(Draft2020, leaf, translated, n, Obj(target), value)
    decreases n, Obj(source), 2
  {
    if Has(source, "properties") {
      WellFormedAt(source, "properties");
      var item, result, at := Lookup(source, "properties").value, Lookup(target, "properties").value, path + "/" + "properties";
      PropertiesPreserved(leaf, env, translated, n, item, result, at, value);
    }
  }

  lemma {:induction false} AdditionalPreservedAt(
    leaf: Leaf, env: Environment, translated: Environment, n: nat,
    source: seq<Field>, target: seq<Field>, path: string, value: Json)
    requires SameEnvironment(env, translated)
    requires WellFormed(Obj(source)) && KeywordTranslated(source, target, path, "additionalProperties")
    requires KeywordTranslated(source, target, path, "properties")
    ensures AdditionalHolds(OpenApi303, leaf, env, n, Obj(source), value)
            <==> AdditionalHolds(Draft2020, leaf, translated, n, Obj(target), value)
    decreases n, Obj(source), 2
  {
    if Has(source, "additionalProperties") {
      WellFormedAt(source, "additionalProperties");
      var item, result, at := Lookup(source, "additionalProperties").value, Lookup(target, "additionalProperties").value, path + "/" + "additionalProperties";
      AdditionalPreserved(leaf, env, translated, n, source, target, item, result, path, at, value);
    }
  }

  lemma {:induction false} ItemsPreservedAt(
    leaf: Leaf, env: Environment, translated: Environment, n: nat,
    source: seq<Field>, target: seq<Field>, path: string, value: Json)
    requires SameEnvironment(env, translated)
    requires WellFormed(Obj(source)) && KeywordTranslated(source, target, path, "items")
    ensures ItemsHolds(OpenApi303, leaf, env, n, Obj(source), value)
            <==> ItemsHolds(Draft2020, leaf, translated, n, Obj(target), value)
    decreases n, Obj(source), 2
  {
    if Has(source, "items") {
      WellFormedAt(source, "items");
      var item, result, at := Lookup(source, "items").value, Lookup(target, "items").value, path + "/" + "items";
      ItemsPreserved(leaf, env, translated, n, item, result, at, value);
    }
  }

  lemma {:induction false} AllOfPreservedAt(
    leaf: Leaf, env: Environment, translated: Environment, n: nat,
    source: seq<Field>, target: seq<Field>, path: string, value: Json)
    requires SameEnvironment(env, translated)
    requires WellFormed(Obj(source)) && KeywordTranslated(source, target, path, "allOf")
    ensures AllOfHolds(OpenApi303, leaf, env, n, Obj(source), value)
            <==> AllOfHolds(Draft2020, leaf, translated, n, Obj(target), value)
    decreases n, Obj(source), 2
  {
    if Has(source, "allOf") {
      WellFormedAt(source, "allOf");
      var item, result, at := Lookup(source, "allOf").value, Lookup(target, "allOf").value, path + "/" + "allOf";
      AllOfPreserved(leaf, env, translated, n, item, result, at, value);
    }
  }

  lemma {:induction false} AnyOfPreservedAt(
    leaf: Leaf, env: Environment, translated: Environment, n: nat,
    source: seq<Field>, target: seq<Field>, path: string, value: Json)
    requires SameEnvironment(env, translated)
    requires WellFormed(Obj(source)) && KeywordTranslated(source, target, path, "anyOf")
    ensures AnyOfHolds(OpenApi303, leaf, env, n, Obj(source), value)
            <==> AnyOfHolds(Draft2020, leaf, translated, n, Obj(target), value)
    decreases n, Obj(source), 2
  {
    if Has(source, "anyOf") {
      WellFormedAt(source, "anyOf");
      var item, result, at := Lookup(source, "anyOf").value, Lookup(target, "anyOf").value, path + "/" + "anyOf";
      AnyOfPreserved(leaf, env, translated, n, item, result, at, value);
    }
  }

  lemma {:induction false} OneOfPreservedAt(
    leaf: Leaf, env: Environment, translated: Environment, n: nat,
    source: seq<Field>, target: seq<Field>, path: string, value: Json)
    requires SameEnvironment(env, translated)
    requires WellFormed(Obj(source)) && KeywordTranslated(source, target, path, "oneOf")
    ensures OneOfHolds(OpenApi303, leaf, env, n, Obj(source), value)
            <==> OneOfHolds(Draft2020, leaf, translated, n, Obj(target), value)
    decreases n, Obj(source), 2
  {
    if Has(source, "oneOf") {
      WellFormedAt(source, "oneOf");
      var item, result, at := Lookup(source, "oneOf").value, Lookup(target, "oneOf").value, path + "/" + "oneOf";
      OneOfPreserved(leaf, env, translated, n, item, result, at, value);
    }
  }

  lemma {:induction false} NotPreservedAt(
    leaf: Leaf, env: Environment, translated: Environment, n: nat,
    source: seq<Field>, target: seq<Field>, path: string, value: Json)
    requires SameEnvironment(env, translated)
    requires WellFormed(Obj(source)) && KeywordTranslated(source, target, path, "not")
    ensures NotHolds(OpenApi303, leaf, env, n, Obj(source), value)
            <==> NotHolds(Draft2020, leaf, translated, n, Obj(target), value)
    decreases n, Obj(source), 2
  {
    if Has(source, "not") {
      WellFormedAt(source, "not");
      var item, result, at := Lookup(source, "not").value, Lookup(target, "not").value, path + "/" + "not";
      SinglePreserved(leaf, env, translated, n, "not", item, result, at, value);
    }
  }

  // ---------- `type` and `nullable` ----------

  lemma {:induction false} PlainStringKeyword(fields: seq<Field>, path: string, key: string)
    requires key == "type" || key == "$ref"
    requires WellFormed(Obj(fields)) && Bounded(fields, path).Ok?
    ensures Lookup(Bounded(fields, path).value, key) == Lookup(fields, key)
    ensures Has(fields, key) ==> Lookup(fields, key).value.Str?
  {
    BoundedLookup(fields, path, key);
    OtherKeyword(fields, path, key);
    if Has(fields, key) {
      WellFormedAt(fields, key);
      StringKeywordUnchanged(key, Lookup(fields, key).value, path + "/" + key);
    }
  }

  lemma {:induction false} StringKeywordUnchanged(key: string, item: Json, path: string)
    requires key == "type" || key == "$ref"
    requires WellFormedKeyword(Field(key, item))
    ensures item.Str? && NormalizeKeyword(Field(key, item), true, path) == Ok(item)
  {
    assert !IsSchemaData(key);
  }

  lemma {:induction false} PutTypeLookup(target: seq<Field>, types: Json, key: string)
    ensures key != "type" ==> Lookup(Put(target, "type", types), key) == Lookup(target, key)
    ensures Lookup(Put(target, "type", types), "type") == Some(types)
  {
    LookupPut(target, "type", types, key);
    LookupPut(target, "type", types, "type");
  }

  lemma {:induction false} PutTypeTranslated(source: seq<Field>, target: seq<Field>, path: string, types: Json)
    requires Translated(source, target, path)
    ensures Translated(source, Put(target, "type", types), path)
  {
    PutTypeLookup(target, types, "properties");
    PutTypeLookup(target, types, "additionalProperties");
    PutTypeLookup(target, types, "items");
    PutTypeLookup(target, types, "allOf");
    PutTypeLookup(target, types, "anyOf");
    PutTypeLookup(target, types, "oneOf");
    PutTypeLookup(target, types, "not");
    PutTypeLookup(target, types, "enum");
    PutTypeLookup(target, types, "minimum");
    PutTypeLookup(target, types, "exclusiveMinimum");
    PutTypeLookup(target, types, "maximum");
    PutTypeLookup(target, types, "exclusiveMaximum");
    forall key | key in LEAF_KEYWORDS
      ensures Lookup(Put(target, "type", types), key) == Lookup(source, key)
    {
      LeafIsNoOtherKeyword(key);
      PutTypeLookup(target, types, key);
    }
  }

  lemma {:induction false} TypeArrayAccepts(fields: seq<Field>, name: string, value: Json)
    requires Lookup(fields, "type") == Some(Arr([Str(name), Str("null")]))
    ensures TypeAccepts(Draft2020, fields, value) <==> TypeMatches(name, value) || value.Null?
  {
    var names := [Str(name), Str("null")];
    assert names[0] == Str(name) && names[1] == Str("null");
  }

  /** `anyOf: [schema, {type: null}]` accepts what the schema accepts, and null. */
  lemma {:induction false} AnyOfNullAccepts(leaf: Leaf, env: Environment, n: nat, schema: Json, value: Json)
    requires schema.Obj?
    ensures Accepts(Draft2020, leaf, env, n, Obj([Field("anyOf", Arr([schema, NULL_SCHEMA]))]), value)
            <==> Accepts(Draft2020, leaf, env, n, schema, value) || value.Null?
  {
    var pair := [schema, NULL_SCHEMA];
    NullSchemaAccepts(leaf, env, n, value);
    assert pair[0] == schema && pair[1] == NULL_SCHEMA;
    OnlyAnyOf(leaf, env, n, Arr(pair), value);
  }

  /** No bound, enum, leaf or subschema keyword other than `anyOf`. */
  ghost predicate OnlyTypeAndAnyOf(fields: seq<Field>) {
    && Lookup(fields, "minimum") == Lookup(fields, "exclusiveMinimum") == None
    && Lookup(fields, "maximum") == Lookup(fields, "exclusiveMaximum") == None
    && Lookup(fields, "enum") == Lookup(fields, "properties") == Lookup(fields, "additionalProperties") == None
    && Lookup(fields, "items") == Lookup(fields, "allOf") == Lookup(fields, "oneOf") == Lookup(fields, "not") == None
    && (forall key :: key in LEAF_KEYWORDS ==> Lookup(fields, key) == None)
  }

  lemma {:induction false} OnlyTypeAndAnyOfAccept(leaf: Leaf, env: Environment, n: nat, schema: Json, value: Json)
    requires schema.Obj? && OnlyTypeAndAnyOf(schema.fields)
    ensures ConstraintsAccept(Draft2020, leaf, env, n, schema, value)
            <==> AnyOfHolds(Draft2020, leaf, env, n, schema, value)
  {
  }

  lemma OneFieldOnly(field: Field)
    requires field.key == "type" || field.key == "anyOf"
    ensures OnlyTypeAndAnyOf([field])
    ensures Lookup([field], "$ref") == None
    ensures Lookup([field], "type") == if field.key == "type" then Some(field.value) else None
    ensures Lookup([field], "anyOf") == if field.key == "anyOf" then Some(field.value) else None
  {
    OnlyKey(field);
    NoLeafHere(field.key);
  }

  lemma {:induction false} OnlyAnyOf(leaf: Leaf, env: Environment, n: nat, item: Json, value: Json)
    ensures Accepts(Draft2020, leaf, env, n, Obj([Field("anyOf", item)]), value)
            <==> AnyOfAccepts(Draft2020, leaf, env, n, item, value)
  {
    OneFieldOnly(Field("anyOf", item));
    OnlyTypeAndAnyOfAccept(leaf, env, n, Obj([Field("anyOf", item)]), value);
  }

  lemma {:induction false} NullSchemaAccepts(leaf: Leaf, env: Environment, n: nat, value: Json)
    ensures Accepts(Draft2020, leaf, env, n, NULL_SCHEMA, value) <==> value.Null?
  {
    OneFieldOnly(Field("type", Str("null")));
    OnlyTypeAndAnyOfAccept(leaf, env, n, NULL_SCHEMA, value);
  }

  lemma NoLeafHere(key: string)
    requires key == "type" || key == "anyOf"
    ensures key !in LEAF_KEYWORDS
  {
  }

  lemma OnlyKey(field: Field)
    ensures forall key :: Lookup([field], key) == if key == field.key then Some(field.value) else None
  {
    assert [field][1..] == [];
  }

  lemma {:induction false} SchemaIsBounded(fields: seq<Field>, path: string)
    ensures Bounded(fields, path).Ok? ==>
              NormalizeSchema(Obj(fields), true, path) == FixNullable(fields, Bounded(fields, path).value, path)
    ensures Bounded(fields, path).Err? ==> NormalizeSchema(Obj(fields), true, path).Err?
  {
  }

  lemma {:induction false} ReferenceShape(source: seq<Field>, path: string)
    requires WellFormed(Obj(source)) && Bounded(source, path).Ok? && Has(source, "$ref")
    ensures !Nullable(source)
    ensures Lookup(source, "$ref").value.Str?
    ensures Lookup(Bounded(source, path).value, "$ref") == Lookup(source, "$ref")
  {
    PlainStringKeyword(source, path, "$ref");
    assert source[0].key == "$ref";
  }

  ghost predicate EntryAccepts(
    dialect: Dialect, leaf: Leaf, env: Environment, n: nat, reference: string, value: Json)
  {
    reference in env && n > 0 && Accepts(dialect, leaf, env, n - 1, env[reference], value)
  }

  lemma {:induction false} ReferenceAccepts(
    dialect: Dialect, leaf: Leaf, env: Environment, n: nat, fields: seq<Field>, reference: string, value: Json)
    requires Lookup(fields, "$ref") == Some(Str(reference))
    ensures Accepts(dialect, leaf, env, n, Obj(fields), value) <==> EntryAccepts(dialect, leaf, env, n, reference, value)
  {
  }

  lemma {:induction false} ObjectAccepts(dialect: Dialect, leaf: Leaf, env: Environment, n: nat, fields: seq<Field>, value: Json)
    requires !Has(fields, "$ref")
    ensures Accepts(dialect, leaf, env, n, Obj(fields), value)
            <==> (dialect == OpenApi303 && Nullable(fields) && !Has(fields, "type") && value.Null?)
                 || (TypeAccepts(dialect, fields, value)
                     && ConstraintsAccept(dialect, leaf, env, n, Obj(fields), value))
  {
  }

  lemma EntryPath(env: Environment, translated: Environment, reference: string) returns (path: string)
    requires SameEnvironment(env, translated) && reference in env
    ensures WellFormed(env[reference]) && NormalizeSchema(env[reference], true, path) == Ok(translated[reference])
  {
    path :| NormalizeSchema(env[reference], true, path) == Ok(translated[reference]);
  }

  lemma {:induction false} EntryUnfolds(dialect: Dialect, leaf: Leaf, env: Environment, n: nat, reference: string, value: Json)
    requires reference in env
    ensures EntryAccepts(dialect, leaf, env, n + 1, reference, value) <==> Accepts(dialect, leaf, env, n, env[reference], value)
  {
  }

  lemma {:induction false} EntryPreserved(
    leaf: Leaf, env: Environment, translated: Environment, n: nat, reference: string, value: Json)
    requires SameEnvironment(env, translated) && reference in env
    ensures EntryAccepts(OpenApi303, leaf, env, n + 1, reference, value)
            <==> EntryAccepts(Draft2020, leaf, translated, n + 1, reference, value)
    decreases n, env[reference], 8
  {
    KnownReference(env, translated, reference);
    EntryUnfolds(OpenApi303, leaf, env, n, reference, value);
    EntryUnfolds(Draft2020, leaf, translated, n, reference, value);
    var path := EntryPath(env, translated, reference);
    MeaningPreserved(leaf, env, translated, n, env[reference], path, value);
  }

  lemma KnownReference(env: Environment, translated: Environment, reference: string)
    requires SameEnvironment(env, translated)
    ensures reference in env <==> reference in translated
  {
  }

  lemma {:induction false} ReferencePreserved(
    leaf: Leaf, env: Environment, translated: Environment, n: nat, schema: Json, reference: string, value: Json)
    requires SameEnvironment(env, translated)
    ensures EntryAccepts(OpenApi303, leaf, env, n, reference, value)
            <==> EntryAccepts(Draft2020, leaf, translated, n, reference, value)
    decreases n, schema, 4
  {
    KnownReference(env, translated, reference);
    if n > 0 && reference in env {
      EntryPreserved(leaf, env, translated, n - 1, reference, value);
    }
  }

  lemma {:induction false} TypedPreserved(source: seq<Field>, target: seq<Field>, name: string, value: Json)
    requires Lookup(source, "type") == Some(Str(name)) && Nullable(source)
    ensures TypeAccepts(OpenApi303, source, value)
            <==> TypeAccepts(Draft2020, Put(target, "type", Arr([Str(name), Str("null")])), value)
  {
    PutTypeLookup(target, Arr([Str(name), Str("null")]), "type");
    TypeArrayAccepts(Put(target, "type", Arr([Str(name), Str("null")])), name, value);
  }

  /** No `nullable`, or no `type` beside it: the keyword list itself is the translation. */
  lemma {:induction false} UntypedPreserved(
    leaf: Leaf, env: Environment, translated: Environment, n: nat,
    source: seq<Field>, target: seq<Field>, path: string, value: Json)
    requires SameEnvironment(env, translated)
    requires WellFormed(Obj(source)) && Translated(source, target, path)
    requires !Has(target, "$ref")
    requires Lookup(target, "type") == Lookup(source, "type")
    requires Has(source, "type") ==> Lookup(source, "type").value.Str?
    requires !(Nullable(source) && Has(source, "type"))
    ensures TypeAccepts(OpenApi303, source, value) && ConstraintsAccept(OpenApi303, leaf, env, n, Obj(source), value)
            <==> Accepts(Draft2020, leaf, translated, n, Obj(target), value)
    decreases n, Obj(source), 4
  {
    ObjectAccepts(Draft2020, leaf, translated, n, target, value);
    ConstraintsPreserved(leaf, env, translated, n, source, target, path, value);
  }

  /** `nullable: true` beside a `type`: the type array takes over. */
  lemma {:induction false} NullableTypePreserved(
    leaf: Leaf, env: Environment, translated: Environment, n: nat,
    source: seq<Field>, target: seq<Field>, name: string, path: string, value: Json)
    requires SameEnvironment(env, translated)
    requires WellFormed(Obj(source)) && Translated(source, target, path)
    requires !Has(target, "$ref")
    requires Nullable(source) && Lookup(source, "type") == Some(Str(name))
    ensures TypeAccepts(OpenApi303, source, value) && ConstraintsAccept(OpenApi303, leaf, env, n, Obj(source), value)
            <==> Accepts(Draft2020, leaf, translated, n, Obj(Put(target, "type", Arr([Str(name), Str("null")]))), value)
    decreases n, Obj(source), 5
  {
    var types := Arr([Str(name), Str("null")]);
    PutTypeLookup(target, types, "$ref");
    TypedPreserved(source, target, name, value);
    ObjectAccepts(Draft2020, leaf, translated, n, Put(target, "type", types), value);
    NullableTypeConstraints(leaf, env, translated, n, source, target, path, types, value);
  }

  lemma {:induction false} NullableTypeConstraints(
    leaf: Leaf, env: Environment, translated: Environment, n: nat,
    source: seq<Field>, target: seq<Field>, path: string, types: Json, value: Json)
    requires SameEnvironment(env, translated)
    requires WellFormed(Obj(source)) && Translated(source, target, path)
    ensures ConstraintsAccept(OpenApi303, leaf, env, n, Obj(source), value)
            <==> ConstraintsAccept(Draft2020, leaf, translated, n, Obj(Put(target, "type", types)), value)
    decreases n, Obj(source), 4
  {
    PutTypeTranslated(source, target, path, types);
    ConstraintsPreserved(leaf, env, translated, n, source, Put(target, "type", types), path, value);
  }

  lemma {:induction false} FixNullableShape(source: seq<Field>, target: seq<Field>, path: string)
    requires Has(source, "type") ==> Lookup(source, "type").value.Str?
    requires Lookup(target, "type") == Lookup(source, "type")
    ensures FixNullable(source, target, path)
            == Ok(if !Nullable(source) then Obj(target)
                  else if Has(source, "type") then Obj(Put(target, "type", Arr([Lookup(source, "type").value, Str("null")])))
                  else Obj([Field("anyOf", Arr([Obj(target), NULL_SCHEMA]))]))
  {
  }

  lemma {:induction false} ObjectPreserved(
    leaf: Leaf, env: Environment, translated: Environment, n: nat,
    source: seq<Field>, target: seq<Field>, path: string, value: Json)
    requires SameEnvironment(env, translated)
    requires WellFormed(Obj(source)) && Translated(source, target, path)
    requires !Has(source, "$ref") && !Has(target, "$ref")
    requires Lookup(target, "type") == Lookup(source, "type")
    requires Has(source, "type") ==> Lookup(source, "type").value.Str?
    ensures FixNullable(source, target, path).Ok?
    ensures Accepts(OpenApi303, leaf, env, n, Obj(source), value)
            <==> Accepts(Draft2020, leaf, translated, n, FixNullable(source, target, path).value, value)
    decreases n, Obj(source), 6
  {
    FixNullableShape(source, target, path);
    ObjectAccepts(OpenApi303, leaf, env, n, source, value);
    if Nullable(source) && Has(source, "type") {
      NullableTypePreserved(leaf, env, translated, n, source, target, Lookup(source, "type").value.text, path, value);
    } else {
      UntypedPreserved(leaf, env, translated, n, source, target, path, value);
      if Nullable(source) {
        AnyOfNullAccepts(leaf, translated, n, Obj(target), value);
      }
    }
  }

  /**
   Translating a well-formed 3.0.3 schema that is not refused keeps its meaning, if every
   reference leads to the translation of what it led to: at every reference depth and on
   every value, the 3.0.3 reading of the source and the 2020-12 reading of the result agree.
   */
  lemma {:induction false} MeaningPreserved(
    leaf: Leaf, env: Environment, translated: Environment, n: nat,
    schema: Json, path: string, value: Json)
    requires SameEnvironment(env, translated)
    requires WellFormed(schema) && NormalizeSchema(schema, true, path).Ok?
    ensures Accepts(OpenApi303, leaf, env, n, schema, value)
            <==> Accepts(Draft2020, leaf, translated, n, NormalizeSchema(schema, true, path).value, value)
    decreases n, schema, 7
  {
    var source := schema.fields;
    SchemaIsBounded(source, path);
    var target := Bounded(source, path).value;
    if Has(source, "$ref") {
      ReferenceShape(source, path);
      var reference := Lookup(source, "$ref").value.text;
      ReferencePreserved(leaf, env, translated, n, schema, reference, value);
      ReferenceAccepts(OpenApi303, leaf, env, n, source, reference, value);
      ReferenceAccepts(Draft2020, leaf, translated, n, target, reference, value);
    } else {
      BoundedIsTranslated(source, path);
      PlainStringKeyword(source, path, "$ref");
      PlainStringKeyword(source, path, "type");
      ObjectPreserved(leaf, env, translated, n, source, target, path, value);
    }
  }
}
