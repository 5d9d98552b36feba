/** Two documents that are accepted, and whose normalised forms are not. */
module UploadedTwice {
  import opened Prelude
  import opened Json
  import opened KeyOrder
  import opened SchemaNormaliser
  import opened CanonicalForm
  import opened KeywordKinds
  import opened SchemaMeaning
  import opened JsonPointer
  import opened RefResolution
  import opened DocumentImage
  import opened MovedReferences
  import opened DocumentMeaning
  import opened TranslatedDepth
  import opened ContractPipeline

  // ---------- objects of one and of two members ----------

  lemma OneMemberHeight(field: Field)
    ensures Height(Obj([field])) == 1 + Height(field.value)
  {
    assert [field][1..] == [];
    assert HighestField([field][1..]) == 0;
  }

  lemma TwoMembersHeight(first: Field, second: Field)
    ensures Height(Obj([first, second])) == 1 + Max(Height(first.value), Height(second.value))
  {
    assert [first, second][1..] == [second];
    OneMemberHeight(second);
  }

  lemma OneMemberRefs(field: Field)
    requires field.key != REF
    ensures Refs(Obj([field])) == Refs(field.value)
    ensures AllLocal(field.value) ==> AllLocal(Obj([field]))
  {
    OnlyField(field, REF);
    assert [field][0] == field;
  }

  lemma TwoMembersRefs(first: Field, second: Field)
    requires first.key != REF && second.key != REF && first.key != second.key
    ensures Refs(Obj([first, second])) == Refs(first.value) + Refs(second.value)
    ensures AllLocal(first.value) && AllLocal(second.value) ==> AllLocal(Obj([first, second]))
  {
    var fields := [first, second];
    TwoLookups(first, second);
    assert fields[0] == first && fields[1] == second;
  }

  /** Nesting, references and version of a document of component schemas only. */
  lemma SchemaDocumentShape(schemas: seq<Field>)
    ensures Height(Obj(SchemaDocument(schemas))) == 2 + Height(Obj(schemas))
    ensures Refs(Obj(SchemaDocument(schemas))) == Refs(Obj(schemas))
    ensures AllLocal(Obj(schemas)) ==> AllLocal(Obj(SchemaDocument(schemas)))
  {
    var inside := Field("schemas", Obj(schemas));
    var version, components := Field(VERSION_KEY, Str("3.0.3")), Field("components", Obj([inside]));
    OneMemberHeight(inside);
    TwoMembersHeight(version, components);
    OneMemberRefs(inside);
    TwoMembersRefs(version, components);
  }

  // ---------- a reference into a nullable schema without a type ----------

  lemma {:induction false} HeldHeight(fields: seq<Field>, key: string)
    requires Has(fields, key)
    ensures HighestField(fields) >= 1
  {
    HighestFieldIs(fields);
    var i :| 0 <= i < |fields| && fields[i] == Field(key, Lookup(fields, key).value);
  }

  /** The translation adds two levels to a level at most. */
  lemma {:induction false} DepthBound(role: Role, value: Json, path: string)
    ensures DepthOf(role, value, path) <= 3 * Height(value)
    decreases value, 1
  {
    match value
    case Arr(items) => ItemsBound(ElementRole(role), items, path, 0);
    case Obj(fields) =>
      FieldsBound(role, fields, fields, path);
      if Nullable(fields) {
        HeldHeight(fields, "nullable");
      }
    case _ =>
  }

  lemma {:induction false} ItemsBound(role: Role, items: seq<Json>, path: string, index: nat)
    ensures DeepestItem(role, items, path, index) <= 3 * HighestItem(items)
    ensures HighestItem(items) > 0 ==> DeepestItem(role, items, path, index) <= 3 * HighestItem(items) - 2
    decreases items, 0
  {
    if |items| != 0 {
      DepthBound(role, items[0], path + "/" + Decimal(index));
      ItemsBound(role, items[1..], path, index + 1);
    }
  }

  lemma {:induction false} FieldsBound(role: Role, all: seq<Field>, fields: seq<Field>, path: string)
    ensures DeepestField(role, all, fields, path) <= 3 * HighestField(fields)
    ensures HighestField(fields) > 0 ==> DeepestField(role, all, fields, path) <= 3 * HighestField(fields) - 2
    decreases fields, 0
  {
    if |fields| != 0 {
      DepthBound(MemberRole(role, path, fields[0]), fields[0].value, path + "/" + fields[0].key);
      FieldsBound(role, all, fields[1..], path);
    }
  }

  lemma ReferrerShape(reference: string)
    requires IsPointer(reference)
    ensures Height(Referrer(reference)) == 1 && Refs(Referrer(reference)) == {reference} && AllLocal(Referrer(reference))
  {
    var field := Field(REF, Str(reference));
    OneMemberHeight(field);
    OnlyField(field, REF);
    assert [field][0] == field;
  }

  lemma ParentShape(names: Names)
    requires names.property != REF
    ensures Height(Obj(Parent(names, TEXT))) == 3
    ensures Refs(Obj(Parent(names, TEXT))) == {} && AllLocal(Obj(Parent(names, TEXT)))
  {
    var kind, property := Field("type", Str("string")), Field(names.property, TEXT);
    var nullable, properties := Field("nullable", Bool(true)), Field("properties", Obj([property]));
    OneMemberHeight(kind);
    OneMemberHeight(property);
    TwoMembersHeight(nullable, properties);
    OneMemberRefs(kind);
    OneMemberRefs(property);
    TwoMembersRefs(nullable, properties);
  }

  lemma ParentSchemasShape(names: Names, reference: string)
    requires REF !in {names.parent, names.referrer, names.property} && names.parent != names.referrer
    requires IsPointer(reference)
    ensures var schemas := Obj(ParentSchemas(names, TEXT, reference));
      Height(schemas) == 4 && Refs(schemas) == {reference} && AllLocal(schemas)
  {
    ParentShape(names);
    ReferrerShape(reference);
    var first, second := Field(names.parent, Obj(Parent(names, TEXT))), Field(names.referrer, Referrer(reference));
    TwoMembersHeight(first, second);
    TwoMembersRefs(first, second);
  }

  ghost predicate Refused(fields: seq<Field>) {
    Parsed(fields).Ok? && Parsed(fields).value.Obj? && Parsed(Parsed(fields).value.fields).Err?
  }

  lemma ReferrerRefers(fields: seq<Field>, name: string, reference: string)
    requires IsTranslated(fields) && IsComponent(fields, name, Referrer(reference))
    ensures reference in Refs(Normalized(fields).value)
  {
    ReferrerStays(fields, name, reference);
    TargetRefs(Normalized(fields).value, "#" + JsonPath(SchemaPath(name)));
    OnlyField(Field(REF, Str(reference)), REF);
  }

  lemma RefusedFor(fields: seq<Field>, name: string, reference: string)
    requires IsTranslated(fields) && IsComponent(fields, name, Referrer(reference))
    requires Height(Obj(fields)) <= 21 && AllLocal(Obj(fields)) && Refs(Obj(fields)) == {reference}
    requires Pointer(Obj(fields), reference).Some? && Pointer(Normalized(fields).value, reference).None?
    ensures Refused(fields) && Parsed(Parsed(fields).value.fields).error.UnresolvedRef?
  {
    ParsedExact(fields);
    ParsedAgain(fields);
    ReferrerRefers(fields, name, reference);
    NormalizedAccepted(fields);
    DepthBound(AsDocument, Obj(fields), "");
  }

  /** A document whose one reference resolves is accepted; its normalised form is refused for that reference. */
  lemma RefusedForReference(names: Names)
    requires REF !in {names.parent, names.referrer, names.property} && names.parent != names.referrer
    ensures var fields := SchemaDocument(ParentSchemas(names, TEXT, ParentReference(names)));
      Refused(fields) && Parsed(Parsed(fields).value.fields).error.UnresolvedRef?
  {
    var reference := ParentReference(names);
    var schemas := ParentSchemas(names, TEXT, reference);
    PathTokens(SchemaPath(names.parent) + PropertyPath(names));
    ReferenceLost(names);
    ParentSchemasShape(names, reference);
    SchemaDocumentShape(schemas);
    RefusedFor(SchemaDocument(schemas), names.referrer, reference);
  }

  // ---------- a nullable type at the greatest depth ----------

  /** A nullable schema with a type below `n` times `not`. */
  function Deep(n: nat): Json {
    if n == 0 then Obj([Field("type", Str("string")), Field("nullable", Bool(true))]) else Obj([Field("not", Deep(n - 1))])
  }

  lemma {:induction false} DeepShape(n: nat)
    ensures Keyed(Deep(n)) && Height(Deep(n)) == n + 1 && Refs(Deep(n)) == {} && AllLocal(Deep(n))
  {
    if n == 0 {
      var kind, nullable := Field("type", Str("string")), Field("nullable", Bool(true));
      TwoMembersHeight(kind, nullable);
      TwoMembersRefs(kind, nullable);
      TwoLookups(kind, nullable);
    } else {
      DeepShape(n - 1);
      OneMemberHeight(Field("not", Deep(n - 1)));
      OneMemberRefs(Field("not", Deep(n - 1)));
    }
  }

  lemma {:induction false} DeepTranslates(n: nat, path: string)
    ensures NormalizeSchema(Deep(n), true, path).Ok?
  {
    if n == 0 {
      var kind, nullable := Field("type", Str("string")), Field("nullable", Bool(true));
      TwoLookups(kind, nullable);
      TypeArgument(Str("string"), path + "/" + "type");
      assert [kind, nullable][1..] == [nullable] && [nullable][1..] == [];
      assert NormalizeFields(SchemaObject, [nullable], true, path) == Ok([]);
      assert NormalizeField(SchemaObject, kind, true, path) == Ok(Str("string"));
      assert NormalizeFields(SchemaObject, [kind, nullable], true, path) == Ok([kind] + []);
    } else {
      var field := Field("not", Deep(n - 1));
      DeepTranslates(n - 1, path + "/" + "not");
      assert KindOf("not") == SchemaKeyword;
      KeywordByKind(field, path + "/" + "not");
      OneKept(SchemaObject, field, path, NormalizeSchema(Deep(n - 1), true, path + "/" + "not").value);
      OnlyField(field, "nullable");
      OnlyField(field, "exclusiveMinimum");
      OnlyField(field, "exclusiveMaximum");
    }
  }

  lemma {:induction false} NotDepth(schema: Json, path: string)
    requires schema.Obj?
    ensures DepthOf(AsSchema, Obj([Field("not", schema)]), path) == 1 + DepthOf(AsSchema, schema, path + "/" + "not")
  {
    var field := Field("not", schema);
    assert KindOf("not") == SchemaKeyword;
    assert MemberRole(AsSchema, path, field) == AsSchema;
    OnlyField(field, "nullable");
    assert [field][1..] == [];
    assert DeepestField(AsSchema, [field], [field][1..], path) == 0;
    assert !Skipped(AsSchema, [field], "not");
  }

  lemma {:induction false} NullableTypedDepth(path: string)
    ensures DepthOf(AsSchema, Deep(0), path) == 2
  {
    var kind, nullable := Field("type", Str("string")), Field("nullable", Bool(true));
    var fields := [kind, nullable];
    TwoLookups(kind, nullable);
    assert fields[1..] == [nullable] && [nullable][1..] == [];
    assert DeepestField(AsSchema, fields, [nullable], path) == 0;
    assert DeepestField(AsSchema, fields, fields, path) <= 1;
  }

  lemma {:induction false} DeepDepth(n: nat, path: string)
    ensures DepthOf(AsSchema, Deep(n), path) == n + 2
  {
    if n == 0 {
      NullableTypedDepth(path);
    } else {
      DeepDepth(n - 1, path + "/" + "not");
      NotDepth(Deep(n - 1), path);
    }
  }

  lemma {:induction false} SchemasDepth(schemas: seq<Field>, components: string)
    requires components == "/components"
    ensures DepthOf(AsDocument, Obj([Field("schemas", Obj(schemas))]), components)
      >= 1 + DepthOf(AsSchemaMap, Obj(schemas), components + "/" + "schemas")
  {
    MemberDepth(AsDocument, [Field("schemas", Obj(schemas))], 0, components);
  }

  /** Such a document is at least as deep as the schema, three levels down. */
  lemma {:induction false} OneSchemaDepth(name: string, schema: Json, components: string)
    requires components == "" + "/" + "components"
    ensures Depth(Whole(SchemaDocument([Field(name, schema)])))
      >= 3 + DepthOf(AsSchema, schema, components + "/" + "schemas" + "/" + name)
  {
    TwoLevels([Field(name, schema)], components);
    MemberDepth(AsSchemaMap, [Field(name, schema)], 0, components + "/" + "schemas");
  }

  lemma {:induction false} TwoLevels(schemas: seq<Field>, components: string)
    requires components == "" + "/" + "components"
    ensures Depth(Whole(SchemaDocument(schemas))) >= 2 + DepthOf(AsSchemaMap, Obj(schemas), components + "/" + "schemas")
  {
    assert components == "/components";
    SchemasDepth(schemas, components);
    ComponentsDepth(Obj([Field("schemas", Obj(schemas))]), components);
  }

  lemma {:induction false} ComponentsDepth(inside: Json, components: string)
    requires components == "" + "/" + "components"
    ensures DepthOf(AsDocument, Obj([Field(VERSION_KEY, Str("3.0.3")), Field("components", inside)]), "")
      >= 1 + DepthOf(AsDocument, inside, components)
  {
    assert !IsDocumentData("components");
    MemberDepth(AsDocument, [Field(VERSION_KEY, Str("3.0.3")), Field("components", inside)], 1, "");
  }

  lemma {:induction false} MemberDepth(role: Role, fields: seq<Field>, i: nat, path: string)
    requires role != AsSchema && i < |fields|
    ensures 1 + DepthOf(MemberRole(role, path, fields[i]), fields[i].value, path + "/" + fields[i].key)
      <= DepthOf(role, Obj(fields), path)
  {
    DeepestFieldIs(role, fields, fields, path);
    assert FieldDepth(role, fields[i], path) <= DeepestField(role, fields, fields, path);
  }

  /** A nullable type as deep as a document may be: the type array in its normalised form is too deep. */
  lemma {:induction false} RefusedForDepth(name: string, n: nat)
    requires name != REF && n + 4 == MAX_DEPTH
    ensures var fields := SchemaDocument([Field(name, Deep(n))]);
      && Height(Obj(fields)) == MAX_DEPTH
      && Refused(fields)
      && Parsed(Parsed(fields).value.fields).error.NotWalked?
      && Parsed(Parsed(fields).value.fields).error.rejection.TooDeep?
  {
    var components := "" + "/" + "components";
    var path := components + "/" + "schemas";
    DeepShape(n);
    DeepTranslates(n, path + "/" + name);
    DeepDepth(n, path + "/" + name);
    OneSchemaTranslates(name, Deep(n), path);
    OneSchemaDepth(name, Deep(n), components);
    OneSchemaShape(name, Deep(n));
    TooDeepAgain(SchemaDocument([Field(name, Deep(n))]));
  }

  lemma {:induction false} OneSchemaShape(name: string, schema: Json)
    requires name != REF && Refs(schema) == {} && AllLocal(schema)
    ensures var document := Obj(SchemaDocument([Field(name, schema)]));
      Height(document) == 3 + Height(schema) && Refs(document) == {} && AllLocal(document)
  {
    OneMemberHeight(Field(name, schema));
    OneMemberRefs(Field(name, schema));
    SchemaDocumentShape([Field(name, schema)]);
  }

  lemma TooDeepAgain(fields: seq<Field>)
    requires IsTranslated(fields) && AllLocal(Obj(fields)) && Refs(Obj(fields)) == {}
    requires Height(Obj(fields)) <= MAX_DEPTH < Depth(Whole(fields))
    ensures Refused(fields)
    ensures Parsed(Parsed(fields).value.fields).error.NotWalked?
    ensures Parsed(Parsed(fields).value.fields).error.rejection.TooDeep?
  {
    ParsedExact(fields);
    ParsedAgain(fields);
  }
}
