/**
 What is gone after the translation: no `nullable` and no boolean exclusive bound in any
 schema position the translation visits.  It goes by names, and visits nothing below a key
 it takes for data.
 */
module SchemaResidue {
  import opened Prelude
  import opened Json
  import opened KeyOrder
  import opened SchemaNormaliser
  import opened CanonicalForm
  import opened KeywordKinds

  /** Where an OpenAPI object sits: `/components` is the only path that matters. */
  datatype Place = Root | Components | Inside

  function PlaceOf(path: string): Place {
    if path == "" then Root else if path == "/components" then Components else Inside
  }

  function Below(place: Place, key: string): Place {
    if place == Root && key == "components" then Components else Inside
  }

  lemma BelowPath(path: string, key: string)
    ensures PlaceOf(path + "/" + key) == Below(PlaceOf(path), key)
  {
    var child, components := path + "/" + key, "/components";
    assert child[|path|] == '/';
    assert forall i :: 0 < i < |components| ==> components[i] != '/';
    if path == "" {
      assert child == "/" + key;
      assert child == components <==> key == components[1..];
      assert components[1..] == "components";
    }
  }

  lemma {:induction false} IndexPath(path: string, index: nat)
    ensures PlaceOf(path + "/" + Decimal(index)) == Inside
  {
    BelowPath(path, Decimal(index));
    assert Decimal(index)[0] != 'c';
    assert path + "/" + Decimal(index) != "";
  }

  ghost predicate CleanSchema(value: Json)
    decreases value, 3
  {
    value.Obj? ==>
      && forall i :: 0 <= i < |value.fields| ==> CleanKeyword(value.fields[i])
  }

  /** One keyword of a translated schema, and every schema position below it. */
  ghost predicate CleanKeyword(field: Field)
    decreases field, 4
  {
    var Field(key, item) := field;
    && key != "nullable"
    && (key == "exclusiveMinimum" || key == "exclusiveMaximum" ==> !item.Bool?)
    && CleanBelow(KindOf(key), item)
  }

  ghost predicate CleanBelow(kind: Kind, item: Json)
    decreases item, 4
  {
    match (kind, item)
    case (DataKeyword, _) => true
    case (MapKeyword, Obj(fields)) => forall i :: 0 <= i < |fields| ==> CleanSchema(fields[i].value)
    case (DependencyKeyword, Obj(fields)) => forall i :: 0 <= i < |fields| ==> CleanSchema(fields[i].value)
    case (ListKeyword, Arr(items)) => forall i :: 0 <= i < |items| ==> CleanSchema(items[i])
    case (SchemaKeyword, Obj(_)) => CleanSchema(item)
    case _ => CleanDocument(Inside, item)
  }

  ghost predicate CleanDocument(place: Place, value: Json)
    decreases value, 3
  {
    match value
    case Arr(items) => forall i :: 0 <= i < |items| ==> CleanDocument(Inside, items[i])
    case Obj(fields) => forall i :: 0 <= i < |fields| ==> CleanMember(place, fields[i])
    case _ => true
  }

  ghost predicate CleanMember(place: Place, field: Field)
    decreases field, 4
  {
    var Field(key, item) := field;
    if key == "schema" then CleanSchema(item)
    else if place == Components && key == "schemas" && item.Obj? then
      forall i :: 0 <= i < |item.fields| ==> CleanSchema(item.fields[i].value)
    else if IsDocumentData(key) then true
    else CleanDocument(Below(place, key), item)
  }

  const EXCLUSIVE_BOUNDS := {"exclusiveMinimum", "exclusiveMaximum"}

  ghost predicate CleanField(holder: Holder, path: string, field: Field) {
    match holder
    case OpenApiObject => CleanMember(PlaceOf(path), field)
    case SchemaObject =>
      // The two exclusive bounds are settled after the keywords, so they may still be flags here.
      CleanKeyword(field) || (field.key in EXCLUSIVE_BOUNDS && field.value.Bool?)
    case SchemaMap => CleanSchema(field.value)
    case DependencyMap => field.value.Obj? ==> CleanSchema(field.value)
  }

  // ---------- the translation leaves nothing behind ----------

  lemma {:induction false} DocumentClean(value: Json, path: string)
    requires Keyed(value) && NormalizeDocument(value, true, path).Ok?
    ensures CleanDocument(PlaceOf(path), NormalizeDocument(value, true, path).value)
    decreases value, 3
  {
    match value
    case Arr(items) =>
      DocumentItemsClean(items, path, 0);
    case Obj(fields) =>
      FieldsClean(OpenApiObject, fields, path);
    case _ =>
  }

  lemma {:induction false} DocumentItemsClean(items: seq<Json>, path: string, index: nat)
    requires Keyed(Arr(items)) && NormalizeItems(false, items, true, path, index).Ok?
    ensures forall i :: 0 <= i < |NormalizeItems(false, items, true, path, index).value| ==>
              CleanDocument(Inside, NormalizeItems(false, items, true, path, index).value[i])
    decreases items, 0
  {
    if |items| != 0 {
      assert Keyed(items[0]);
      DocumentClean(items[0], path + "/" + Decimal(index));
      BelowPath(path, Decimal(index));
      assert Decimal(index)[0] != 'c';
      DocumentItemsClean(items[1..], path, index + 1);
    }
  }

  lemma {:induction false} SchemaItemsClean(items: seq<Json>, path: string, index: nat)
    requires Keyed(Arr(items)) && path != "" && NormalizeItems(true, items, true, path, index).Ok?
    ensures forall i :: 0 <= i < |NormalizeItems(true, items, true, path, index).value| ==>
              CleanSchema(NormalizeItems(true, items, true, path, index).value[i])
    decreases items, 0
  {
    if |items| != 0 {
      assert Keyed(items[0]);
      SchemaClean(items[0], path + "/" + Decimal(index));
      SchemaItemsClean(items[1..], path, index + 1);
    }
  }

  lemma {:induction false} FieldsClean(holder: Holder, fields: seq<Field>, path: string)
    requires Keyed(Obj(fields)) && (holder != OpenApiObject ==> path != "")
    requires NormalizeFields(holder, fields, true, path).Ok?
    ensures forall i :: 0 <= i < |NormalizeFields(holder, fields, true, path).value| ==>
              CleanField(holder, path, NormalizeFields(holder, fields, true, path).value[i])
    decreases fields, 0
  {
    if |fields| != 0 {
      FieldsClean(holder, fields[1..], path);
      if !Dropped(holder, fields[0].key, true) {
        assert Keyed(fields[0].value);
        FieldClean(holder, fields[0], path);
      }
    }
  }

  lemma {:induction false} FieldClean(holder: Holder, field: Field, path: string)
    requires Keyed(field.value) && (holder != OpenApiObject ==> path != "") && !Dropped(holder, field.key, true)
    requires NormalizeField(holder, field, true, path).Ok?
    ensures CleanField(holder, path, Field(field.key, NormalizeField(holder, field, true, path).value))
    decreases field, 5
  {
    var childPath := path + "/" + field.key;
    match holder
    case OpenApiObject => MemberClean(field, path);
    case SchemaObject => BelowPath(path, field.key); KeywordClean(field, childPath);
    case SchemaMap => SchemaClean(field.value, childPath);
    case DependencyMap =>
      if field.value.Obj? {
        SchemaClean(field.value, childPath);
      } else {
        assert !Canonical(field.value).Obj?;
      }
  }

  lemma {:induction false} MemberClean(field: Field, path: string)
    requires Keyed(field.value) && NormalizeMember(field, true, path).Ok?
    ensures CleanMember(PlaceOf(path), Field(field.key, NormalizeMember(field, true, path).value))
    decreases field, 4
  {
    var Field(key, item) := field;
    var childPath := path + "/" + key;
    BelowPath(path, key);
    if key == "schema" {
      SchemaClean(item, childPath);
    } else if path == "/components" && key == "schemas" && item.Obj? {
      FieldsClean(SchemaMap, item.fields, childPath);
    } else if !IsDocumentData(key) {
      DocumentClean(item, childPath);
    }
  }

  lemma {:induction false} KeywordClean(field: Field, path: string)
    requires Keyed(field.value) && field.key != "nullable" && path != "" && PlaceOf(path) == Inside
    requires NormalizeKeyword(field, true, path).Ok?
    ensures CleanField(SchemaObject, path, Field(field.key, NormalizeKeyword(field, true, path).value))
    decreases field, 4
  {
    KeywordByKind(field, path);
    ArgumentClean(KindOf(field.key), field.value, path);
  }

  lemma {:induction false} ArgumentClean(kind: Kind, item: Json, path: string)
    requires Keyed(item) && path != "" && PlaceOf(path) == Inside && NormalizeArgument(kind, item, path).Ok?
    ensures CleanBelow(kind, NormalizeArgument(kind, item, path).value)
    decreases item, 5
  {
    match (kind, item)
    case (DataKeyword, _) =>
    case (MapKeyword, Obj(fields)) => FieldsClean(SchemaMap, fields, path);
    case (ListKeyword, Arr(items)) => SchemaItemsClean(items, path, 0);
    case (SchemaKeyword, Obj(_)) => SchemaArgumentClean(item, path);
    case (DependencyKeyword, Obj(fields)) => FieldsClean(DependencyMap, fields, path);
    case _ => DocumentClean(item, path); DocumentStaysPut(item, path);
  }

  lemma {:induction false} SchemaArgumentClean(item: Json, path: string)
    requires Keyed(item) && item.Obj? && path != "" && NormalizeSchema(item, true, path).Ok?
    ensures CleanBelow(SchemaKeyword, NormalizeSchema(item, true, path).value)
    decreases item, 4
  {
    SchemaClean(item, path);
    SchemaStaysObject(item.fields, path);
    SchemaIsCleanArgument(NormalizeSchema(item, true, path).value);
  }

  lemma {:induction false} SchemaStaysObject(fields: seq<Field>, path: string)
    requires NormalizeSchema(Obj(fields), true, path).Ok?
    ensures NormalizeSchema(Obj(fields), true, path).value.Obj?
  {
  }

  /** Translating an object gives an object, a list a list. */
  lemma {:induction false} DocumentStaysPut(value: Json, path: string)
    requires NormalizeDocument(value, true, path).Ok?
    ensures var result := NormalizeDocument(value, true, path).value;
      result.Obj? == value.Obj? && result.Arr? == value.Arr?
  {
  }

  lemma {:induction false} SchemaIsCleanArgument(schema: Json)
    requires CleanSchema(schema) && schema.Obj?
    ensures CleanBelow(SchemaKeyword, schema)
  {
  }

  lemma {:induction false} FlatIsClean(kind: Kind, items: seq<Json>)
    requires forall i :: 0 <= i < |items| ==> !items[i].Arr? && !items[i].Obj?
    ensures CleanBelow(kind, Arr(items))
  {
  }

  ghost predicate CleanExcept(fields: seq<Field>, flags: set<string>) {
    forall i :: 0 <= i < |fields| ==> CleanKeyword(fields[i]) || (fields[i].key in flags && fields[i].value.Bool?)
  }

  /** Settling one bound removes its flag. */
  lemma {:induction false} FixBoundClean(
    source: seq<Field>, members: seq<Field>, bound: string, exclusive: string, path: string, flags: set<string>)
    requires bound == "minimum" || bound == "maximum"
    requires exclusive in EXCLUSIVE_BOUNDS
    requires UniqueKeys(members) && FixBound(source, members, bound, exclusive, path).Ok?
    requires CleanExcept(members, flags + {exclusive})
    requires Has(members, exclusive) && Lookup(members, exclusive).value.Bool? ==>
               Lookup(source, exclusive) == Lookup(members, exclusive)
    ensures CleanExcept(FixBound(source, members, bound, exclusive, path).value, flags)
  {
    var fixed := FixBound(source, members, bound, exclusive, path).value;
    FixBoundLookup(source, members, bound, exclusive, path, exclusive);
    WithoutSubset(members, exclusive);
    WithoutSubset(members, bound);
    forall i | 0 <= i < |fixed|
      ensures CleanKeyword(fixed[i]) || (fixed[i].key in flags && fixed[i].value.Bool?)
    {
      LookupAt(fixed, i);
      assert fixed[i] in fixed;
      match Lookup(source, exclusive)
      case Some(Bool(flag)) =>
        if flag {
          PutMembers(Without(members, bound), exclusive, Lookup(source, bound).value);
          if fixed[i] == Field(exclusive, Lookup(source, bound).value) {
            NumberIsClean(exclusive, Lookup(source, bound).value);
          }
        }
      case _ =>
    }
  }

  lemma {:induction false} NumberIsClean(key: string, value: Json)
    requires key in EXCLUSIVE_BOUNDS && value.Num?
    ensures CleanKeyword(Field(key, value))
  {
  }

  /** A flag after the keyword loop is the flag of the source. */
  lemma {:induction false} FlagIsSource(fields: seq<Field>, path: string, exclusive: string)
    requires exclusive in EXCLUSIVE_BOUNDS && NormalizeFields(SchemaObject, fields, true, path).Ok?
    ensures var members := NormalizeFields(SchemaObject, fields, true, path).value;
            Has(members, exclusive) && Lookup(members, exclusive).value.Bool? ==>
              Lookup(fields, exclusive) == Lookup(members, exclusive)
  {
    FieldsLookup(SchemaObject, fields, true, path, exclusive);
    if Has(fields, exclusive) {
      ExclusiveArgument(exclusive, Lookup(fields, exclusive).value, path + "/" + exclusive);
    }
  }

  lemma {:induction false} ExclusiveArgument(key: string, item: Json, path: string)
    requires key in EXCLUSIVE_BOUNDS
    ensures NormalizeKeyword(Field(key, item), true, path) == NormalizeDocument(item, true, path)
    ensures NormalizeDocument(item, true, path).Ok? && NormalizeDocument(item, true, path).value.Bool? ==>
              NormalizeDocument(item, true, path).value == item
  {
    assert !IsSchemaData(key) && key != "dependencies";
    assert key !in SCHEMA_MAP_KEYWORDS && key !in SCHEMA_LIST_KEYWORDS;
    assert key !in SCHEMA_KEYWORDS;
  }

  lemma FixNullableClean(source: seq<Field>, members: seq<Field>, path: string)
    requires UniqueKeys(members) && CleanExcept(members, {}) && FixNullable(source, members, path).Ok?
    ensures CleanSchema(FixNullable(source, members, path).value)
  {
    assert CleanSchema(Obj(members));
    if Lookup(source, "nullable") == Some(Bool(true)) {
      match Lookup(members, "type")
      case Some(Str(name)) =>
        FlatIsClean(KindOf("type"), [Str(name), Str("null")]);
        PutClean(members, "type", Arr([Str(name), Str("null")]));
      case Some(Arr(names)) =>
        var types := Distinct(names + [Str("null")]);
        forall i | 0 <= i < |types| ensures !types[i].Arr? && !types[i].Obj? {
          assert types[i] in names + [Str("null")];
        }
        FlatIsClean(KindOf("type"), types);
        PutClean(members, "type", Arr(types));
      case _ =>
        AnyOfIsClean(Obj(members));
    }
  }

  lemma {:induction false} PutClean(members: seq<Field>, key: string, value: Json)
    requires UniqueKeys(members) && CleanExcept(members, {}) && CleanKeyword(Field(key, value))
    ensures CleanSchema(Obj(Put(members, key, value)))
  {
    PutMembers(members, key, value);
    var put := Put(members, key, value);
    forall i | 0 <= i < |put| ensures CleanKeyword(put[i]) {
      assert put[i] in put;
    }
  }

  lemma {:induction false} AnyOfIsClean(schema: Json)
    requires CleanSchema(schema)
    ensures CleanSchema(Obj([Field("anyOf", Arr([schema, NULL_SCHEMA]))]))
  {
    var pair := [schema, NULL_SCHEMA];
    assert CleanSchema(NULL_SCHEMA);
    assert forall i :: 0 <= i < |pair| ==> CleanSchema(pair[i]);
    assert CleanKeyword(Field("anyOf", Arr(pair)));
  }

  /** No `nullable` and no boolean exclusive bound is left in a translated schema, at any depth. */
  lemma {:induction false} SchemaClean(value: Json, path: string)
    requires Keyed(value) && path != "" && NormalizeSchema(value, true, path).Ok?
    ensures CleanSchema(NormalizeSchema(value, true, path).value)
    decreases value, 3
  {
    if value.Obj? {
      FieldsClean(SchemaObject, value.fields, path);
      FieldsKeepKeys(SchemaObject, value.fields, true, path);
      RewritesClean(value.fields, path);
    }
  }

  lemma {:induction false} RewritesClean(fields: seq<Field>, path: string)
    requires NormalizeSchema(Obj(fields), true, path).Ok?
    requires UniqueKeys(NormalizeFields(SchemaObject, fields, true, path).value)
    requires CleanExcept(NormalizeFields(SchemaObject, fields, true, path).value, EXCLUSIVE_BOUNDS)
    ensures CleanSchema(NormalizeSchema(Obj(fields), true, path).value)
  {
    var members := NormalizeFields(SchemaObject, fields, true, path).value;
    var lower := FixBound(fields, members, "minimum", "exclusiveMinimum", path).value;
    var upper := FixBound(fields, lower, "maximum", "exclusiveMaximum", path).value;
    FlagIsSource(fields, path, "exclusiveMinimum");
    FlagIsSource(fields, path, "exclusiveMaximum");
    FixBoundLookup(fields, members, "minimum", "exclusiveMinimum", path, "exclusiveMaximum");
    FixBoundClean(fields, members, "minimum", "exclusiveMinimum", path, {"exclusiveMaximum"});
    FixBoundLookup(fields, lower, "maximum", "exclusiveMaximum", path, "");
    FixBoundClean(fields, lower, "maximum", "exclusiveMaximum", path, {});
    FixNullableClean(fields, upper, path);
  }

  /** A translated document is clean everywhere the translation looks, which leaves out every key it reads as data. */
  lemma {:induction false} TranslatedDocumentIsClean(document: Json)
    requires Keyed(document) && NormalizeDocument(document, true, "").Ok?
    ensures CleanDocument(Root, NormalizeDocument(document, true, "").value)
  {
    DocumentClean(document, "");
  }

  lemma {:induction false} OneMember(key: string, item: Json, path: string)
    ensures NormalizeMember(Field(key, item), true, path).Ok? ==>
              NormalizeDocument(Obj([Field(key, item)]), true, path)
              == Ok(Obj([Field(key, NormalizeMember(Field(key, item), true, path).value)]))
  {
    var fields := [Field(key, item)];
    assert fields[1..] == [];
    assert NormalizeFields(OpenApiObject, fields[1..], true, path) == Ok([]);
    assert NormalizeField(OpenApiObject, fields[0], true, path) == NormalizeMember(Field(key, item), true, path);
    if NormalizeMember(Field(key, item), true, path).Ok? {
      var result := [Field(key, NormalizeMember(Field(key, item), true, path).value)];
      assert result + [] == result;
      assert NormalizeFields(OpenApiObject, fields, true, path) == Ok(result);
    }
  }

  /** A response object whose inline schema is `{nullable: true}`. */
  const NULLABLE_RESPONSE := Obj([Field("schema", Obj([Field("nullable", Bool(true))]))])
}
