/**
 A schema that stands where an OpenAPI value is expected: what the translation makes of it
 there is its translation as a schema exactly when that leaves no residue.
 */
module MisplacedSchemas {
  import opened Prelude
  import opened Json
  import opened KeyOrder
  import opened SchemaNormaliser
  import opened CanonicalForm
  import opened KeywordKinds
  import opened SchemaMeaning
  import opened MeaningPreservation
  import opened SchemaResidue
  import opened DocumentFrames
  import opened CleanSchemas

  /** Both translations of one member succeed, and differ in key order at most. */
  predicate Agree(schema: Outcome<Json>, document: Json) {
    schema.Ok? && Canonical(schema.value) == Canonical(document)
  }

  lemma {:induction false} HeadAndRest(holder: Holder, fields: seq<Field>, path: string)
    requires |fields| > 0 && !Dropped(holder, fields[0].key, true)
    ensures NormalizeFields(holder, fields, true, path).Ok? <==>
      NormalizeField(holder, fields[0], true, path).Ok? && NormalizeFields(holder, fields[1..], true, path).Ok?
    ensures NormalizeFields(holder, fields, true, path).Ok? ==>
      NormalizeFields(holder, fields, true, path).value ==
        [Field(fields[0].key, NormalizeField(holder, fields[0], true, path).value)]
        + NormalizeFields(holder, fields[1..], true, path).value
  {
  }

  lemma {:induction false} CanonicalHead(field: Field, rest: seq<Field>)
    ensures CanonicalFields([field] + rest) == [Field(field.key, Canonical(field.value))] + CanonicalFields(rest)
  {
    assert ([field] + rest)[1..] == rest;
  }

  /** Two lists of members with the same keys, head and rest. */
  lemma {:induction false} HeadsAgree(key: string, left: Json, right: Json, leftRest: seq<Field>, rightRest: seq<Field>)
    requires Canonical(left) == Canonical(right) && CanonicalFields(leftRest) == CanonicalFields(rightRest)
    ensures CanonicalFields([Field(key, left)] + leftRest) == CanonicalFields([Field(key, right)] + rightRest)
  {
    CanonicalHead(Field(key, left), leftRest);
    CanonicalHead(Field(key, right), rightRest);
  }

  lemma {:induction false} PropertiesAgree(properties: seq<Field>, path: string)
    requires path != "" && PlaceOf(path) == Inside
    requires forall i :: 0 <= i < |properties| ==> WellFormed(properties[i].value)
    requires NormalizeFields(OpenApiObject, properties, true, path).Ok?
    requires var members := NormalizeFields(OpenApiObject, properties, true, path).value;
      forall i :: 0 <= i < |members| ==> CleanSchema(members[i].value)
    ensures NormalizeFields(SchemaMap, properties, true, path).Ok?
    ensures CanonicalFields(NormalizeFields(SchemaMap, properties, true, path).value)
      == CanonicalFields(NormalizeFields(OpenApiObject, properties, true, path).value)
    decreases properties, 0
  {
    if |properties| != 0 {
      var members, rest := NormalizeFields(OpenApiObject, properties, true, path).value, properties[1..];
      HeadAndRest(OpenApiObject, properties, path);
      HeadAndRest(SchemaMap, properties, path);
      var others := NormalizeFields(OpenApiObject, rest, true, path).value;
      assert CleanSchema(members[0].value);
      assert forall i :: 0 <= i < |others| ==> others[i] == members[i + 1];
      PropertyAgrees(properties[0], path);
      PropertiesAgree(rest, path);
      HeadsAgree(properties[0].key, NormalizeSchema(properties[0].value, true, path + "/" + properties[0].key).value,
                 NormalizeMember(properties[0], true, path).value,
                 NormalizeFields(SchemaMap, rest, true, path).value, others);
    }
  }

  lemma {:induction false} PropertyAgrees(property: Field, path: string)
    requires path != "" && PlaceOf(path) == Inside && WellFormed(property.value)
    requires NormalizeMember(property, true, path).Ok? && CleanSchema(NormalizeMember(property, true, path).value)
    ensures Agree(NormalizeSchema(property.value, true, path + "/" + property.key), NormalizeMember(property, true, path).value)
    decreases property, 5
  {
    var Field(name, schema) := property;
    var childPath := path + "/" + name;
    BelowPath(path, name);
    if name == "schema" {
    } else if IsDocumentData(name) {
      CanonicalSchemaClean(schema);
      CleanSchemaKept(schema, childPath);
      CanonicalIdempotent(schema);
    } else {
      DocumentAgrees(schema, childPath);
    }
  }

  lemma {:induction false} ListAgrees(schemas: seq<Json>, path: string, index: nat)
    requires forall i :: 0 <= i < |schemas| ==> WellFormed(schemas[i])
    requires NormalizeItems(false, schemas, true, path, index).Ok?
    requires var members := NormalizeItems(false, schemas, true, path, index).value;
      forall i :: 0 <= i < |members| ==> CleanSchema(members[i])
    ensures NormalizeItems(true, schemas, true, path, index).Ok?
    ensures CanonicalItems(NormalizeItems(true, schemas, true, path, index).value)
      == CanonicalItems(NormalizeItems(false, schemas, true, path, index).value)
    decreases schemas, 0
  {
    if |schemas| != 0 {
      var members, rest := NormalizeItems(false, schemas, true, path, index).value, schemas[1..];
      assert members[1..] == NormalizeItems(false, rest, true, path, index + 1).value;
      assert CleanSchema(members[0]);
      DocumentAgrees(schemas[0], path + "/" + Decimal(index));
      ListAgrees(rest, path, index + 1);
      var results := NormalizeItems(true, schemas, true, path, index).value;
      assert results[1..] == NormalizeItems(true, rest, true, path, index + 1).value;
    }
  }

  /** How a keyword of a well-formed schema is read in both translations. */
  predicate ReadAlike(key: string) {
    key != "schema" && key != "schemas"
    && match KindOf(key)
       case DataKeyword => IsDocumentData(key)
       case OtherKeyword => !IsDocumentData(key)
       case MapKeyword => key == "properties" && !IsDocumentData(key)
       case ListKeyword => key in {"allOf", "anyOf", "oneOf"} && !IsDocumentData(key)
       case SchemaKeyword => key in {"items", "not", "additionalProperties"} && !IsDocumentData(key)
       case DependencyKeyword => false
  }

  lemma {:induction false} KeywordReadAlike(field: Field)
    requires WellFormedKeyword(field)
    ensures ReadAlike(field.key)
  {
    var key := field.key;
    if key in LEAF_KEYWORDS {
      LeafReadAlike(key);
    } else if key in ANNOTATIONS || IsExtension(key) {
      AnnotationReadAlike(key);
    }
  }

  lemma LeafReadAlike(key: string)
    requires key in LEAF_KEYWORDS
    ensures ReadAlike(key)
  {
    LeafIsNoOtherKeyword(key);
  }

  lemma AnnotationReadAlike(key: string)
    requires key in ANNOTATIONS || IsExtension(key)
    ensures ReadAlike(key)
  {
  }

  lemma {:induction false} KeywordAgrees(field: Field, path: string)
    requires path != "" && WellFormedKeyword(field)
    requires NormalizeMember(field, true, path).Ok?
    requires CleanKeyword(Field(field.key, NormalizeMember(field, true, path).value))
    ensures Agree(NormalizeKeyword(field, true, path + "/" + field.key), NormalizeMember(field, true, path).value)
    decreases field, 5
  {
    var Field(key, item) := field;
    var childPath := path + "/" + key;
    BelowPath(path, key);
    KeywordReadAlike(field);
    KeywordByKind(field, childPath);
    match KindOf(key)
    case DataKeyword =>
    case OtherKeyword =>
    case MapKeyword => PropertiesAgree(item.fields, childPath);
    case ListKeyword => ListAgrees(item.items, childPath, 0);
    case SchemaKeyword =>
      if item.Obj? {
        DocumentAgrees(item, childPath);
      }
  }

  lemma {:induction false} KeywordsAgree(fields: seq<Field>, path: string)
    requires path != "" && forall i :: 0 <= i < |fields| ==> WellFormedKeyword(fields[i])
    requires NormalizeFields(OpenApiObject, fields, true, path).Ok?
    requires CleanSchema(Obj(NormalizeFields(OpenApiObject, fields, true, path).value))
    ensures NormalizeFields(SchemaObject, fields, true, path).Ok?
    ensures CanonicalFields(NormalizeFields(SchemaObject, fields, true, path).value)
      == CanonicalFields(NormalizeFields(OpenApiObject, fields, true, path).value)
    ensures forall i :: 0 <= i < |fields| ==> fields[i].key != "nullable" && fields[i].key !in EXCLUSIVE_BOUNDS
    decreases fields, 0
  {
    if |fields| != 0 {
      var members, rest := NormalizeFields(OpenApiObject, fields, true, path).value, fields[1..];
      HeadAndRest(OpenApiObject, fields, path);
      var others := NormalizeFields(OpenApiObject, rest, true, path).value;
      assert CleanKeyword(members[0]);
      assert forall i :: 0 <= i < |others| ==> others[i] == members[i + 1];
      HeadAndRest(SchemaObject, fields, path);
      KeywordAgrees(fields[0], path);
      ExclusiveIsResidue(fields[0], path);
      KeywordsAgree(rest, path);
      HeadsAgree(fields[0].key, NormalizeKeyword(fields[0], true, path + "/" + fields[0].key).value,
                 NormalizeMember(fields[0], true, path).value,
                 NormalizeFields(SchemaObject, rest, true, path).value, others);
    }
  }

  /** A boolean exclusive bound stays one in a document. */
  lemma {:induction false} ExclusiveIsResidue(field: Field, path: string)
    requires WellFormedKeyword(field) && NormalizeMember(field, true, path).Ok?
    requires CleanKeyword(Field(field.key, NormalizeMember(field, true, path).value))
    ensures field.key !in EXCLUSIVE_BOUNDS
  {
    if field.key in EXCLUSIVE_BOUNDS {
      KeywordReadAlike(field);
      assert false;
    }
  }

  /** A well-formed schema translated as an OpenAPI value without residue is translated as a schema. */
  lemma {:induction false} DocumentAgrees(schema: Json, path: string)
    requires WellFormed(schema) && path != ""
    requires NormalizeDocument(schema, true, path).Ok? && CleanSchema(NormalizeDocument(schema, true, path).value)
    ensures Agree(NormalizeSchema(schema, true, path), NormalizeDocument(schema, true, path).value)
    decreases schema, 3
  {
    KeywordsAgree(schema.fields, path);
    NothingToRewrite(schema.fields, path);
  }

  lemma {:induction false} NothingToRewrite(fields: seq<Field>, path: string)
    requires forall i :: 0 <= i < |fields| ==> fields[i].key != "nullable" && fields[i].key !in EXCLUSIVE_BOUNDS
    requires NormalizeFields(SchemaObject, fields, true, path).Ok?
    ensures NormalizeSchema(Obj(fields), true, path) == Ok(Obj(NormalizeFields(SchemaObject, fields, true, path).value))
  {
    assert Lookup(fields, "nullable") == None;
    assert Lookup(fields, "exclusiveMinimum") == None && Lookup(fields, "exclusiveMaximum") == None;
  }
}
