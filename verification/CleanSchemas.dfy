/** Where nothing is left to translate, the translation changes only key order. */
module CleanSchemas {
  import opened Prelude
  import opened Json
  import opened KeyOrder
  import opened SchemaNormaliser
  import opened CanonicalForm
  import opened KeywordKinds
  import opened SchemaResidue

  ghost predicate CleanHeld(holder: Holder, path: string, field: Field) {
    match holder
    case OpenApiObject => CleanMember(PlaceOf(path), field)
    case SchemaObject => CleanKeyword(field)
    case SchemaMap => CleanSchema(field.value)
    case DependencyMap => CleanSchema(field.value)
  }

  /** Translated, and the same but for key order. */
  predicate Kept(outcome: Outcome<Json>, value: Json) {
    outcome.Ok? && Canonical(outcome.value) == Canonical(value)
  }

  lemma {:induction false} CleanFieldsKept(holder: Holder, fields: seq<Field>, path: string)
    requires holder != OpenApiObject ==> path != ""
    requires forall i :: 0 <= i < |fields| ==> CleanHeld(holder, path, fields[i])
    ensures NormalizeFields(holder, fields, true, path).Ok?
    ensures CanonicalFields(NormalizeFields(holder, fields, true, path).value) == CanonicalFields(fields)
    decreases fields, 0
  {
    if |fields| != 0 {
      CleanFieldKept(holder, fields[0], path);
      CleanFieldsKept(holder, fields[1..], path);
      var result := NormalizeFields(holder, fields, true, path).value;
      assert result[1..] == NormalizeFields(holder, fields[1..], true, path).value;
    }
  }

  lemma {:induction false} CleanItemsKept(schemas: bool, items: seq<Json>, path: string, index: nat)
    requires forall i :: 0 <= i < |items| ==> if schemas then CleanSchema(items[i]) else CleanDocument(Inside, items[i])
    ensures NormalizeItems(schemas, items, true, path, index).Ok?
    ensures CanonicalItems(NormalizeItems(schemas, items, true, path, index).value) == CanonicalItems(items)
    decreases items, 0
  {
    if |items| != 0 {
      var childPath := path + "/" + Decimal(index);
      IndexPath(path, index);
      if schemas {
        CleanSchemaKept(items[0], childPath);
      } else {
        CleanDocumentKept(items[0], childPath);
      }
      CleanItemsKept(schemas, items[1..], path, index + 1);
      var result := NormalizeItems(schemas, items, true, path, index).value;
      assert result[1..] == NormalizeItems(schemas, items[1..], true, path, index + 1).value;
    }
  }

  lemma {:induction false} CleanFieldKept(holder: Holder, field: Field, path: string)
    requires (holder != OpenApiObject ==> path != "") && CleanHeld(holder, path, field)
    ensures !Dropped(holder, field.key, true) && Kept(NormalizeField(holder, field, true, path), field.value)
    decreases field, 5
  {
    var childPath := path + "/" + field.key;
    CanonicalIdempotent(field.value);
    match holder
    case OpenApiObject => CleanMemberKept(field, path);
    case SchemaObject =>
      BelowPath(path, field.key);
      KeywordByKind(field, childPath);
      CleanArgumentKept(KindOf(field.key), field.value, childPath);
    case SchemaMap => CleanSchemaKept(field.value, childPath);
    case DependencyMap => CleanSchemaKept(field.value, childPath);
  }

  lemma {:induction false} CleanMemberKept(field: Field, path: string)
    requires CleanMember(PlaceOf(path), field)
    ensures Kept(NormalizeMember(field, true, path), field.value)
    decreases field, 4
  {
    var Field(key, item) := field;
    var childPath := path + "/" + key;
    BelowPath(path, key);
    CanonicalIdempotent(item);
    if key == "schema" {
      CleanSchemaKept(item, childPath);
    } else if path == "/components" && key == "schemas" && item.Obj? {
      CleanFieldsKept(SchemaMap, item.fields, childPath);
    } else if !IsDocumentData(key) {
      CleanDocumentKept(item, childPath);
    }
  }

  lemma {:induction false} CleanArgumentKept(kind: Kind, item: Json, path: string)
    requires CleanBelow(kind, item) && path != "" && PlaceOf(path) == Inside
    ensures Kept(NormalizeArgument(kind, item, path), item)
    decreases item, 4
  {
    CanonicalIdempotent(item);
    match (kind, item)
    case (DataKeyword, _) =>
    case (MapKeyword, Obj(fields)) => CleanFieldsKept(SchemaMap, fields, path);
    case (ListKeyword, Arr(items)) => CleanItemsKept(true, items, path, 0);
    case (SchemaKeyword, Obj(_)) => CleanSchemaKept(item, path);
    case (DependencyKeyword, Obj(fields)) => CleanFieldsKept(DependencyMap, fields, path);
    case _ => CleanDocumentKept(item, path);
  }

  lemma {:induction false} CleanDocumentKept(value: Json, path: string)
    requires CleanDocument(PlaceOf(path), value)
    ensures Kept(NormalizeDocument(value, true, path), value)
    decreases value, 3
  {
    match value
    case Arr(items) => CleanItemsKept(false, items, path, 0);
    case Obj(fields) => CleanFieldsKept(OpenApiObject, fields, path);
    case _ =>
  }

  /** A schema without residue is translated to itself, up to key order. */
  lemma {:induction false} CleanSchemaKept(value: Json, path: string)
    requires CleanSchema(value) && path != ""
    ensures Kept(NormalizeSchema(value, true, path), value)
    decreases value, 3
  {
    if value.Obj? {
      CleanFieldsKept(SchemaObject, value.fields, path);
      NothingToSettle(value.fields, path);
    }
  }

  lemma {:induction false} NothingToSettle(fields: seq<Field>, path: string)
    requires CleanSchema(Obj(fields)) && NormalizeFields(SchemaObject, fields, true, path).Ok?
    ensures NormalizeSchema(Obj(fields), true, path) == Ok(Obj(NormalizeFields(SchemaObject, fields, true, path).value))
  {
    CleanKeywordAt(fields, "nullable");
    CleanKeywordAt(fields, "exclusiveMinimum");
    CleanKeywordAt(fields, "exclusiveMaximum");
  }

  lemma {:induction false} CleanKeywordAt(fields: seq<Field>, key: string)
    requires CleanSchema(Obj(fields))
    ensures Has(fields, key) ==> CleanKeyword(Field(key, Lookup(fields, key).value))
  {
  }
}
