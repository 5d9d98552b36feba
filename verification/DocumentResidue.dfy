/**
 Residue by position.  The translation goes by names: a translated document is free of
 residue exactly when the entries it takes for something else were.
 */
module DocumentResidue {
  import opened Prelude
  import opened Json
  import opened KeyOrder
  import opened SchemaNormaliser
  import opened CanonicalForm
  import opened KeywordKinds
  import opened SchemaResidue
  import opened DocumentFrames
  import opened DocumentImage
  import opened TranslatedResidue

  /**
   The entries the translation takes by their names for what they are not: those it takes for
   data have no residue, and those it takes for schemas are left none by that.
   */
  ghost predicate MisreadClean(frame: Frame, place: Place, value: Json)
    decreases value, 3
  {
    match value
    case Arr(items) => forall i :: 0 <= i < |items| ==> MisreadClean(FixedFields, Inside, items[i])
    case Obj(fields) => forall i :: 0 <= i < |fields| ==> MisreadCleanField(frame, place, fields[i])
    case _ => true
  }

  ghost predicate MisreadCleanField(frame: Frame, place: Place, field: Field)
    decreases field, 4
  {
    var entry, inside := FrameBelow(frame, place, field.key), Below(place, field.key);
    if IsRealData(frame, field.key) || HoldsSchema(frame, field.key) || HoldsSchemas(place, field) then true
    else if field.key == "schema" then CleanAfter(Entries(entry, inside), AsSchema, inside, field.value)
    else if IsDocumentData(field.key) then RealCleanField(frame, place, field)
    else MisreadClean(entry, inside, field.value)
  }

  // ---------- the translation, position by position ----------

  lemma {:induction false} FieldElement(holder: Holder, fields: seq<Field>, path: string, i: nat)
    requires holder != SchemaObject && NormalizeFields(holder, fields, true, path).Ok? && i < |fields|
    ensures var members := NormalizeFields(holder, fields, true, path).value;
      && |members| == |fields|
      && NormalizeField(holder, fields[i], true, path) == Ok(members[i].value) && members[i].key == fields[i].key
  {
    if i > 0 {
      FieldElement(holder, fields[1..], path, i - 1);
    } else if |fields| > 1 {
      FieldElement(holder, fields[1..], path, 0);
    }
  }

  lemma {:induction false} DocumentExact(frame: Frame, value: Json, path: string)
    requires Keyed(value) && NormalizeDocument(value, true, path).Ok?
    ensures RealClean(frame, PlaceOf(path), NormalizeDocument(value, true, path).value)
      <==> MisreadClean(frame, PlaceOf(path), value)
    decreases value, 3
  {
    match value
    case Arr(items) =>
      var members := NormalizeItems(false, items, true, path, 0).value;
      forall i | 0 <= i < |items|
        ensures |members| == |items|
        ensures RealClean(FixedFields, Inside, members[i]) <==> MisreadClean(FixedFields, Inside, items[i])
      {
        ItemElement(items, path, 0, i);
        IndexPath(path, i);
        DocumentExact(FixedFields, items[i], path + "/" + Decimal(i));
      }
      if |items| == 0 {
        assert members == [];
      }
    case Obj(fields) =>
      var members := NormalizeFields(OpenApiObject, fields, true, path).value;
      forall i | 0 <= i < |fields|
        ensures |members| == |fields|
        ensures RealCleanField(frame, PlaceOf(path), members[i]) <==> MisreadCleanField(frame, PlaceOf(path), fields[i])
      {
        FieldElement(OpenApiObject, fields, path, i);
        assert NormalizeMember(fields[i], true, path) == Ok(members[i].value);
        FieldExact(frame, fields[i], path);
        assert members[i] == Field(fields[i].key, members[i].value);
      }
      if |fields| == 0 {
        assert members == [];
      }
    case _ =>
  }

  lemma {:induction false} FieldExact(frame: Frame, field: Field, path: string)
    requires Keyed(field.value) && NormalizeMember(field, true, path).Ok?
    ensures RealCleanField(frame, PlaceOf(path), Field(field.key, NormalizeMember(field, true, path).value))
      <==> MisreadCleanField(frame, PlaceOf(path), field)
    decreases field, 4
  {
    var place, childPath := PlaceOf(path), path + "/" + field.key;
    BelowPath(path, field.key);
    if IsRealData(frame, field.key) {
    } else if HoldsSchema(frame, field.key) {
      SchemaClean(field.value, childPath);
    } else if HoldsSchemas(place, field) {
      FieldsClean(SchemaMap, field.value.fields, childPath);
    } else if field.key == "schema" {
      NamedSchemaExact(FrameBelow(frame, place, field.key), field.value, childPath);
    } else if IsDocumentData(field.key) {
      CanonicalRealCleanField(frame, place, field);
    } else {
      DocumentExact(FrameBelow(frame, place, field.key), field.value, childPath);
    }
  }

  /** An entry named `schema`: translated as a schema, and read as what it is. */
  lemma {:induction false} NamedSchemaExact(frame: Frame, value: Json, path: string)
    requires Keyed(value) && NormalizeSchema(value, true, path).Ok?
    ensures RealClean(frame, PlaceOf(path), NormalizeSchema(value, true, path).value)
      <==> CleanAfter(Entries(frame, PlaceOf(path)), AsSchema, PlaceOf(path), value)
  {
    AfterExact(Entries(frame, PlaceOf(path)), AsSchema, value, path);
    CleanMeans(Entries(frame, PlaceOf(path)), NormalizeSchema(value, true, path).value);
  }

  lemma {:induction false} PutAll(members: seq<Field>, key: string, value: Json, p: Field -> bool)
    requires UniqueKeys(members) && Has(members, key)
    requires p(Field(key, value)) && p(Field(key, Lookup(members, key).value))
    ensures (forall i :: 0 <= i < |Put(members, key, value)| ==> p(Put(members, key, value)[i]))
      <==> (forall i :: 0 <= i < |members| ==> p(members[i]))
  {
    var put := Put(members, key, value);
    PutMembers(members, key, value);
    forall i | 0 <= i < |put| ensures put[i] == Field(key, value) || put[i] in members {
      assert put[i] in put;
    }
    forall i | 0 <= i < |members| ensures members[i].key == key ==> members[i] == Field(key, Lookup(members, key).value)
      ensures members[i].key != key ==> members[i] in put
    {
      LookupAt(members, i);
      LookupPut(members, key, value, members[i].key);
    }
  }

  lemma {:induction false} TextIsClean(frame: Frame, place: Place, key: string, text: string)
    ensures RealCleanField(frame, place, Field(key, Str(text)))
  {
  }

  lemma {:induction false} PutVersion(frame: Frame, place: Place, members: seq<Field>)
    requires UniqueKeys(members) && Has(members, VERSION_KEY) && Lookup(members, VERSION_KEY).value.Str?
    ensures RealClean(frame, place, Obj(Put(members, VERSION_KEY, Str("3.1.0")))) <==> RealClean(frame, place, Obj(members))
  {
    TextIsClean(frame, place, VERSION_KEY, Lookup(members, VERSION_KEY).value.text);
    TextIsClean(frame, place, VERSION_KEY, "3.1.0");
    PutAll(members, VERSION_KEY, Str("3.1.0"), f => RealCleanField(frame, place, f));
  }

  /**
   Exactly when a normalised 3.0.3 document has no `nullable` and no boolean exclusive bound
   in any schema position, with responses, headers, parameters and media types told by where
   they stand: when those whose names the translation takes for data had none to begin with,
   and those named `schema` are left none by being translated as schemas.
   */
  lemma {:induction false} NormalizedResidueExact(fields: seq<Field>)
    requires Keyed(Obj(fields)) && Lookup(fields, VERSION_KEY) == Some(Str("3.0.3")) && Normalized(fields).Ok?
    ensures RealClean(FixedFields, Root, Normalized(fields).value) <==> MisreadClean(FixedFields, Root, Obj(fields))
  {
    var members := NormalizeFields(OpenApiObject, fields, true, "").value;
    DocumentExact(FixedFields, Obj(fields), "");
    FieldsKeepKeys(OpenApiObject, fields, true, "");
    FieldsLookup(OpenApiObject, fields, true, "", VERSION_KEY);
    PutVersion(FixedFields, Root, members);
    CanonicalRealClean(FixedFields, Root, Obj(Put(members, VERSION_KEY, Str("3.1.0"))));
  }

  // ---------- the misread names ----------

  /**
   One response or header: what decides is all of it when its name reads as data, what is
   left of it when it is named `schema`, and else what is misread inside it.
   */
  lemma {:induction false} EntryResidue(frame: Frame, name: string, item: Json, path: string)
    requires frame != FixedFields && path != "" && !IsRealData(frame, name) && Keyed(item)
    requires PlaceOf(path) == Inside && NormalizeDocument(Obj([Field(name, item)]), true, path).Ok?
    ensures RealClean(frame, Inside, NormalizeDocument(Obj([Field(name, item)]), true, path).value) <==>
      if name == "schema" then CleanAfter(Entries(FixedFields, Inside), AsSchema, Inside, item)
      else if IsDocumentData(name) then RealClean(FixedFields, Inside, item)
      else MisreadClean(FixedFields, Inside, item)
  {
    var fields := [Field(name, item)];
    assert UniqueKeys(fields);
    DocumentExact(frame, Obj(fields), path);
  }

  /** An entry of any name that reads as data keeps `nullable`: a header `x-rate-limit`, a response `default`. */
  lemma {:induction false} MisreadNamesKeepNullable(frame: Frame, name: string, path: string)
    requires frame != FixedFields && IsDocumentData(name) && !IsRealData(frame, name)
    ensures NormalizeDocument(Obj([Field(name, NULLABLE_RESPONSE)]), true, path)
      == Ok(Obj([Field(name, NULLABLE_RESPONSE)]))
    ensures !RealClean(frame, Inside, Obj([Field(name, NULLABLE_RESPONSE)]))
    ensures IsDocumentData("x-rate-limit") && !IsRealData(NameMap, "x-rate-limit")
    ensures IsDocumentData("default") && !IsRealData(ResponseMap, "default")
  {
    NullableResponseStays();
    DataIsNeitherSchema(name);
    OneMember(name, NULLABLE_RESPONSE, path);
    NullableEntry(frame, name);
  }

  lemma DataIsNeitherSchema(name: string)
    requires IsDocumentData(name)
    ensures name != "schema" && name != "schemas"
  {
  }

  lemma NullableResponseStays()
    ensures Canonical(NULLABLE_RESPONSE) == NULLABLE_RESPONSE
  {
    var nullable := [Field("nullable", Bool(true))];
    assert IsCanonical(Obj(nullable));
    assert IsCanonical(NULLABLE_RESPONSE);
    CanonicalFixed(NULLABLE_RESPONSE);
  }

  lemma {:induction false} NullableEntry(frame: Frame, name: string)
    requires frame != FixedFields && !IsRealData(frame, name)
    ensures !RealClean(frame, Inside, Obj([Field(name, NULLABLE_RESPONSE)]))
  {
    var nullable := [Field("nullable", Bool(true))];
    assert !CleanKeyword(nullable[0]);
    assert !CleanSchema(Obj(nullable));
    assert !RealCleanField(FixedFields, Inside, NULLABLE_RESPONSE.fields[0]);
    assert !RealClean(FixedFields, Inside, NULLABLE_RESPONSE);
    assert !RealCleanField(frame, Inside, [Field(name, NULLABLE_RESPONSE)][0]);
  }

  /** A header that is itself named `schema` is read as a schema, and its own schema is not: it keeps `nullable`. */
  lemma {:induction false} HeaderNamedSchema(path: string)
    ensures NormalizeMember(Field("schema", NULLABLE_RESPONSE), true, path) == Ok(NULLABLE_RESPONSE)
    ensures !RealClean(NameMap, Inside, Obj([Field("schema", NULLABLE_RESPONSE)]))
  {
    var nullable := [Field("nullable", Bool(true))];
    var childPath := path + "/schema";
    OneMember("nullable", Bool(true), childPath + "/schema");
    assert NormalizeDocument(Obj(nullable), true, childPath + "/schema") == Ok(Obj(nullable));
    var header := [Field("schema", Obj(nullable))];
    assert NormalizeKeyword(header[0], true, childPath + "/schema") == Ok(Obj(nullable));
    assert NormalizeField(SchemaObject, header[0], true, childPath) == Ok(Obj(nullable));
    assert header[1..] == [];
    assert NormalizeFields(SchemaObject, header[1..], true, childPath) == Ok([]);
    assert [Field("schema", Obj(nullable))] + [] == header;
    assert NormalizeFields(SchemaObject, header, true, childPath) == Ok(header);
    assert Lookup(header[1..], "nullable") == None && Lookup(header[1..], "exclusiveMinimum") == None
      && Lookup(header[1..], "exclusiveMaximum") == None;
    NullableEntry(NameMap, "schema");
  }

  lemma {:induction false} MemberOfClean(reading: Reading, role: Role, place: Place, fields: seq<Field>, key: string, item: Json)
    requires CleanAfter(reading, role, place, Obj(fields)) && Lookup(fields, key) == Some(item) && !Settled(role, fields, key)
    ensures var within := if role == AsSchema && Wrapped(fields) then InsideAnyOf(reading) else reading;
      MemberCleanAfter(within, role, place, Field(key, item))
  {
    var i :| 0 <= i < |fields| && fields[i] == Field(key, item);
  }

  /** Whatever else such a header says: its own schema is left without residue only if it had no such keyword. */
  lemma {:induction false} NamedSchemaNeeds(header: seq<Field>, schema: seq<Field>, key: string)
    requires Lookup(header, "schema") == Some(Obj(schema)) && Has(schema, key)
    requires CleanAfter(Entries(FixedFields, Inside), AsSchema, Inside, Obj(header))
    ensures !IsResidue(Schema, Field(key, Lookup(schema, key).value))
  {
    var reading, field := Entries(FixedFields, Inside), Field("schema", Obj(schema));
    assert InsideAnyOf(reading) == reading;
    MemberOfClean(reading, AsSchema, Inside, header, "schema", Obj(schema));
    SchemaInHeader(schema);
    MemberOfClean(Schema, AsDocument, Inside, schema, key, Lookup(schema, key).value);
  }

  /** The member `schema` of a header is read as a schema; in a header translated as one it is an OpenAPI value. */
  lemma SchemaInHeader(schema: seq<Field>)
    requires MemberCleanAfter(Entries(FixedFields, Inside), AsSchema, Inside, Field("schema", Obj(schema)))
    ensures CleanAfter(Schema, AsDocument, Inside, Obj(schema))
  {
    assert KindOf("schema") == OtherKeyword;
  }
}
