/** A schema has one translation: where it stands decides only what an error says. */
module TranslationPlace {
  import opened Prelude
  import opened Json
  import opened KeyOrder
  import opened SchemaNormaliser
  import opened CanonicalForm
  import opened KeywordKinds
  import opened SchemaResidue

  predicate SameValue<T(==)>(a: Outcome<T>, b: Outcome<T>) {
    (a.Ok? <==> b.Ok?) && (a.Ok? && b.Ok? ==> a.value == b.value)
  }

  /** Paths at which the values of an object are treated alike. */
  predicate Alike(holder: Holder, p: string, q: string) {
    if holder == OpenApiObject then PlaceOf(p) == PlaceOf(q) else p != "" && q != ""
  }

  lemma {:induction false} DocumentByPlace(value: Json, p: string, q: string)
    requires PlaceOf(p) == PlaceOf(q)
    ensures SameValue(NormalizeDocument(value, true, p), NormalizeDocument(value, true, q))
    decreases value, 3
  {
    match value
    case Arr(items) => ItemsByPlace(false, items, p, q, 0);
    case Obj(fields) => FieldsByPlace(OpenApiObject, fields, p, q);
    case _ =>
  }

  lemma {:induction false} ItemsByPlace(schemas: bool, items: seq<Json>, p: string, q: string, index: nat)
    ensures SameValue(NormalizeItems(schemas, items, true, p, index), NormalizeItems(schemas, items, true, q, index))
    decreases items, 0
  {
    if |items| != 0 {
      var left, right := p + "/" + Decimal(index), q + "/" + Decimal(index);
      IndexPath(p, index);
      IndexPath(q, index);
      if schemas {
        SchemaByPlace(items[0], left, right);
      } else {
        DocumentByPlace(items[0], left, right);
      }
      ItemsByPlace(schemas, items[1..], p, q, index + 1);
    }
  }

  lemma {:induction false} FieldsByPlace(holder: Holder, fields: seq<Field>, p: string, q: string)
    requires Alike(holder, p, q)
    ensures SameValue(NormalizeFields(holder, fields, true, p), NormalizeFields(holder, fields, true, q))
    decreases fields, 0
  {
    if |fields| != 0 {
      FieldByPlace(holder, fields[0], p, q);
      FieldsByPlace(holder, fields[1..], p, q);
    }
  }

  lemma {:induction false} FieldByPlace(holder: Holder, field: Field, p: string, q: string)
    requires Alike(holder, p, q)
    ensures SameValue(NormalizeField(holder, field, true, p), NormalizeField(holder, field, true, q))
    decreases field, 5
  {
    var left, right := p + "/" + field.key, q + "/" + field.key;
    BelowPath(p, field.key);
    BelowPath(q, field.key);
    match holder
    case OpenApiObject => MemberByPlace(field, p, q);
    case SchemaObject =>
      KeywordByKind(field, left);
      KeywordByKind(field, right);
      ArgumentByPlace(KindOf(field.key), field.value, left, right);
    case SchemaMap => SchemaByPlace(field.value, left, right);
    case DependencyMap =>
      if field.value.Obj? {
        SchemaByPlace(field.value, left, right);
      }
  }

  lemma {:induction false} MemberByPlace(field: Field, p: string, q: string)
    requires PlaceOf(p) == PlaceOf(q)
    ensures SameValue(NormalizeMember(field, true, p), NormalizeMember(field, true, q))
    decreases field, 4
  {
    var Field(key, item) := field;
    var left, right := p + "/" + key, q + "/" + key;
    BelowPath(p, key);
    BelowPath(q, key);
    if key == "schema" {
      SchemaByPlace(item, left, right);
    } else if p == "/components" && key == "schemas" && item.Obj? {
      FieldsByPlace(SchemaMap, item.fields, left, right);
    } else if !IsDocumentData(key) {
      DocumentByPlace(item, left, right);
    }
  }

  lemma {:induction false} ArgumentByPlace(kind: Kind, item: Json, p: string, q: string)
    requires p != "" && q != "" && PlaceOf(p) == PlaceOf(q)
    ensures SameValue(NormalizeArgument(kind, item, p), NormalizeArgument(kind, item, q))
    decreases item, 4
  {
    match (kind, item)
    case (DataKeyword, _) =>
    case (MapKeyword, Obj(fields)) => FieldsByPlace(SchemaMap, fields, p, q);
    case (ListKeyword, Arr(items)) => ItemsByPlace(true, items, p, q, 0);
    case (SchemaKeyword, Obj(_)) => SchemaByPlace(item, p, q);
    case (DependencyKeyword, Obj(fields)) => FieldsByPlace(DependencyMap, fields, p, q);
    case _ => DocumentByPlace(item, p, q);
  }

  /** Anywhere but at the root, a schema has the same translation, or is refused. */
  lemma {:induction false} SchemaByPlace(value: Json, p: string, q: string)
    requires p != "" && q != ""
    ensures SameValue(NormalizeSchema(value, true, p), NormalizeSchema(value, true, q))
    decreases value, 3
  {
    if value.Obj? {
      FieldsByPlace(SchemaObject, value.fields, p, q);
      var left, right := NormalizeFields(SchemaObject, value.fields, true, p), NormalizeFields(SchemaObject, value.fields, true, q);
      if left.Ok? {
        RewrittenByPlace(value.fields, left.value, p, q);
      }
    }
  }

  lemma RewrittenByPlace(fields: seq<Field>, members: seq<Field>, p: string, q: string)
    ensures SameValue(Rewritten(fields, members, p), Rewritten(fields, members, q))
  {
    BoundByPlace(fields, members, "minimum", "exclusiveMinimum", p, q);
    var lower := FixBound(fields, members, "minimum", "exclusiveMinimum", p);
    if lower.Ok? {
      BoundByPlace(fields, lower.value, "maximum", "exclusiveMaximum", p, q);
    }
  }

  lemma BoundByPlace(fields: seq<Field>, members: seq<Field>, bound: string, exclusive: string, p: string, q: string)
    ensures SameValue(FixBound(fields, members, bound, exclusive, p), FixBound(fields, members, bound, exclusive, q))
  {
  }
}
