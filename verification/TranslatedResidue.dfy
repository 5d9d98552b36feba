/**
 What residue the translation leaves in a value, read off the source, when the value is
 translated as one thing and read as another: a header that is named `schema` is
 translated as a schema, and the schema inside it as an OpenAPI value.
 */
module TranslatedResidue {
  import opened Prelude
  import opened Json
  import opened KeyOrder
  import opened SchemaNormaliser
  import opened CanonicalForm
  import opened KeywordKinds
  import opened SchemaMeaning
  import opened MeaningPreservation
  import opened SchemaResidue
  import opened DocumentFrames
  import opened JsonPointer
  import opened DocumentImage
  import opened TranslatedDepth

  // ---------- readings ----------

  /** How a value is read: by position, as a schema, as a map or list of schemas, as the translation visits it, or not at all. */
  datatype Reading = Entries(frame: Frame, place: Place) | Schema | Schemas | Visited(place: Place) | Unread

  function MemberReading(reading: Reading, field: Field): Reading {
    match reading
    case Entries(frame, place) =>
      if IsRealData(frame, field.key) then Unread
      else if HoldsSchema(frame, field.key) then Schema
      else if HoldsSchemas(place, field) then Schemas
      else Entries(FrameBelow(frame, place, field.key), Below(place, field.key))
    case Schema => ArgumentReading(KindOf(field.key), field.value)
    case Schemas => Schema
    case Visited(place) =>
      if field.key == "schema" then Schema
      else if HoldsSchemas(place, field) then Schemas
      else if IsDocumentData(field.key) then Unread
      else Visited(Below(place, field.key))
    case Unread => Unread
  }

  function ArgumentReading(kind: Kind, item: Json): Reading {
    match (kind, item)
    case (DataKeyword, _) => Unread
    case (MapKeyword, Obj(_)) => Schemas
    case (DependencyKeyword, Obj(_)) => Schemas
    case (ListKeyword, Arr(_)) => Schemas
    case (SchemaKeyword, Obj(_)) => Schema
    case _ => Visited(Inside)
  }

  function ElementReading(reading: Reading): Reading {
    match reading
    case Entries(_, _) => Entries(FixedFields, Inside)
    case Schemas => Schema
    case Visited(_) => Visited(Inside)
    case _ => Unread
  }

  /** A member that a translated schema must not have. */
  predicate IsResidue(reading: Reading, field: Field) {
    reading == Schema && (field.key == "nullable" || (field.key in EXCLUSIVE_BOUNDS && field.value.Bool?))
  }

  /** No residue in any schema position of the reading. */
  predicate Clean(reading: Reading, value: Json)
    decreases value, 1
  {
    match value
    case Arr(items) => forall i :: 0 <= i < |items| ==> Clean(ElementReading(reading), items[i])
    case Obj(fields) => forall i :: 0 <= i < |fields| ==> CleanIn(reading, fields[i])
    case _ => true
  }

  predicate CleanIn(reading: Reading, field: Field)
    decreases field, 2
  {
    !IsResidue(reading, field) && Clean(MemberReading(reading, field), field.value)
  }

  ghost predicate Means(reading: Reading, value: Json) {
    match reading
    case Entries(frame, place) => RealClean(frame, place, value)
    case Schema => CleanSchema(value)
    case Schemas =>
      (match value
       case Obj(fields) => forall i :: 0 <= i < |fields| ==> CleanSchema(fields[i].value)
       case Arr(items) => forall i :: 0 <= i < |items| ==> CleanSchema(items[i])
       case _ => true)
    case Visited(place) => CleanDocument(place, value)
    case Unread => true
  }

  lemma {:induction false} ArgumentMeans(kind: Kind, item: Json)
    ensures CleanBelow(kind, item) <==> Means(ArgumentReading(kind, item), item)
  {
  }

  /** The readings are those of the document frames, of schemas and of the translation's own visit. */
  lemma {:induction false} CleanMeans(reading: Reading, value: Json)
    ensures Clean(reading, value) <==> Means(reading, value)
    decreases value, 1
  {
    match value
    case Arr(items) =>
      forall i | 0 <= i < |items| ensures Clean(ElementReading(reading), items[i]) <==> Means(ElementReading(reading), items[i]) {
        CleanMeans(ElementReading(reading), items[i]);
      }
    case Obj(fields) =>
      forall i | 0 <= i < |fields| ensures CleanIn(reading, fields[i]) <==> MeansIn(reading, fields[i]) {
        CleanMeans(MemberReading(reading, fields[i]), fields[i].value);
      }
      MembersMean(reading, fields);
    case _ =>
  }

  ghost predicate MeansIn(reading: Reading, field: Field) {
    !IsResidue(reading, field) && Means(MemberReading(reading, field), field.value)
  }

  lemma MembersMean(reading: Reading, fields: seq<Field>)
    ensures Means(reading, Obj(fields)) <==> forall i :: 0 <= i < |fields| ==> MeansIn(reading, fields[i])
  {
    forall i | 0 <= i < |fields|
      ensures MeansIn(reading, fields[i]) <==>
        match reading
        case Entries(frame, place) => RealCleanField(frame, place, fields[i])
        case Schema => CleanKeyword(fields[i])
        case Schemas => CleanSchema(fields[i].value)
        case Visited(place) => CleanMember(place, fields[i])
        case Unread => true
    {
      ArgumentMeans(KindOf(fields[i].key), fields[i].value);
    }
  }

  // ---------- residue after the translation, on the source ----------

  /** The role of a member, by the place of its object. */
  function RoleIn(role: Role, place: Place, field: Field): Role {
    if role == AsDocument && field.key != "schema" && HoldsSchemas(place, field) then AsSchemaMap
    else MemberRole(role, "", field)
  }

  lemma RoleByPlace(role: Role, path: string, field: Field)
    ensures RoleIn(role, PlaceOf(path), field) == MemberRole(role, path, field)
  {
  }

  /** A keyword that is gone after the translation, or a flag that has become a number. */
  predicate Settled(role: Role, all: seq<Field>, key: string) {
    role == AsSchema && (Gone(all, key) || IsFlag(all, key))
  }

  /** Where the keywords of a wrapped schema are read: in a list under `anyOf`. */
  function InsideAnyOf(reading: Reading): Reading {
    ElementReading(MemberReading(reading, Field("anyOf", Arr([]))))
  }

  /** The translation of the value has no residue. */
  predicate CleanAfter(reading: Reading, role: Role, place: Place, value: Json)
    decreases value, 1
  {
    match value
    case Arr(items) =>
      forall i :: 0 <= i < |items| ==> CleanAfter(ElementReading(reading), ElementRole(role), Inside, items[i])
    case Obj(fields) =>
      var within := if role == AsSchema && Wrapped(fields) then InsideAnyOf(reading) else reading;
      forall i :: 0 <= i < |fields| ==> Settled(role, fields, fields[i].key) || MemberCleanAfter(within, role, place, fields[i])
    case _ => true
  }

  predicate MemberCleanAfter(reading: Reading, role: Role, place: Place, field: Field)
    decreases field, 2
  {
    && !IsResidue(reading, field)
    && CleanAfter(MemberReading(reading, field), RoleIn(role, place, field), Below(place, field.key), field.value)
  }

  /** The translation of the keywords of a schema has none, wrapped or not. */
  ghost predicate KeywordsCleanAfter(reading: Reading, place: Place, fields: seq<Field>) {
    forall i :: 0 <= i < |fields| ==>
      Settled(AsSchema, fields, fields[i].key) || MemberCleanAfter(reading, AsSchema, place, fields[i])
  }

  // ---------- and what it says is so ----------

  ghost predicate CleanAt(reading: Reading, fields: seq<Field>, key: string) {
    Has(fields, key) ==> CleanIn(reading, Field(key, Lookup(fields, key).value))
  }

  lemma {:induction false} CleanByKey(reading: Reading, fields: seq<Field>)
    requires UniqueKeys(fields)
    ensures Clean(reading, Obj(fields)) <==> forall key :: CleanAt(reading, fields, key)
  {
    forall i | 0 <= i < |fields| ensures CleanAt(reading, fields, fields[i].key) <==> CleanIn(reading, fields[i]) {
      LookupAt(fields, i);
      assert fields[i] == Field(fields[i].key, fields[i].value);
    }
    forall key | !CleanAt(reading, fields, key)
      ensures exists i :: 0 <= i < |fields| && !CleanIn(reading, fields[i])
    {
      var i :| 0 <= i < |fields| && fields[i] == Field(key, Lookup(fields, key).value);
    }
  }

  /** Translating a value keeps what kind of value it is. */
  lemma ImageKind(role: Role, value: Json, path: string)
    requires Image(role, value, path).Ok?
    ensures var image := Image(role, value, path).value;
      image.Obj? == value.Obj? && image.Arr? == value.Arr? && image.Bool? == value.Bool?
  {
    if role == AsSchema && value.Obj? {
      SchemaStaysObject(value.fields, path);
    }
  }

  lemma SameReading(reading: Reading, key: string, item: Json, image: Json)
    requires image.Obj? == item.Obj? && image.Arr? == item.Arr? && image.Bool? == item.Bool?
    ensures MemberReading(reading, Field(key, image)) == MemberReading(reading, Field(key, item))
    ensures IsResidue(reading, Field(key, image)) <==> IsResidue(reading, Field(key, item))
  {
  }

  lemma {:induction false} ScalarIsClean(reading: Reading, value: Json)
    requires value.Str? || value.Num?
    ensures Clean(reading, value)
  {
  }

  lemma {:induction false} FlatIsCleanHere(reading: Reading, items: seq<Json>)
    requires Hashable(items)
    ensures Clean(reading, Arr(items))
  {
  }

  lemma {:induction false} ElementImage(role: Role, items: seq<Json>, path: string, i: nat)
    requires Image(role, Arr(items), path).Ok? && i < |items|
    ensures var image := Image(role, Arr(items), path).value;
      && image.Arr? && |image.items| == |items|
      && Image(ElementRole(role), items[i], path + "/" + Decimal(i)) == Ok(image.items[i])
  {
    match role
    case AsDocument => ItemElement(items, path, 0, i);
    case AsSchemaList => ListElement(items, true, path, 0, i);
    case _ =>
  }

  lemma ElementsImage(role: Role, items: seq<Json>, path: string)
    requires Image(role, Arr(items), path).Ok?
    ensures Image(role, Arr(items), path).value.Arr? && |Image(role, Arr(items), path).value.items| == |items|
  {
    if |items| == 0 {
      assert NormalizeItems(false, items, true, path, 0) == NormalizeItems(true, items, true, path, 0) == Ok([]);
    } else {
      ElementImage(role, items, path, 0);
    }
  }

  ghost predicate Translates(role: Role, value: Json, path: string) {
    Keyed(value) && Image(role, value, path).Ok?
  }

  /** A member of the translation that stands for a member of the source. */
  lemma {:induction false} ChildClean(reading: Reading, role: Role, fields: seq<Field>, path: string, key: string, image: Json)
    requires Keyed(Obj(fields)) && Has(fields, key)
    requires Image(MemberRole(role, path, Field(key, Lookup(fields, key).value)), Lookup(fields, key).value, path + "/" + key)
      == Ok(image)
    ensures CleanIn(reading, Field(key, image))
      <==> MemberCleanAfter(reading, role, PlaceOf(path), Field(key, Lookup(fields, key).value))
    decreases Obj(fields), 0
  {
    var item := Lookup(fields, key).value;
    var field := Field(key, item);
    var i :| 0 <= i < |fields| && fields[i] == field;
    RoleByPlace(role, path, field);
    BelowPath(path, key);
    ImageKind(MemberRole(role, path, field), item, path + "/" + key);
    SameReading(reading, key, item, image);
    AfterExact(MemberReading(reading, field), MemberRole(role, path, field), item, path + "/" + key);
  }

  /** What a step finds on the source, and in the translation, under a key that is not settled. */
  ghost predicate Corresponds(role: Role, fields: seq<Field>, members: seq<Field>, path: string, key: string) {
    && (Has(members, key) <==> Has(fields, key))
    && (Has(fields, key) ==>
          Image(MemberRole(role, path, Field(key, Lookup(fields, key).value)), Lookup(fields, key).value, path + "/" + key)
          == Ok(Lookup(members, key).value))
  }

  lemma {:induction false} MembersClean(reading: Reading, role: Role, fields: seq<Field>, members: seq<Field>, path: string)
    requires Keyed(Obj(fields)) && UniqueKeys(members)
    requires forall key :: !Settled(role, fields, key) ==> Corresponds(role, fields, members, path, key)
    requires forall key :: Settled(role, fields, key) ==> CleanAt(reading, members, key)
    ensures Clean(reading, Obj(members)) <==>
      forall i :: 0 <= i < |fields| ==>
        Settled(role, fields, fields[i].key) || MemberCleanAfter(reading, role, PlaceOf(path), fields[i])
    decreases Obj(fields), 1
  {
    CleanByKey(reading, members);
    forall i | 0 <= i < |fields| && !Settled(role, fields, fields[i].key)
      ensures CleanAt(reading, members, fields[i].key) <==> MemberCleanAfter(reading, role, PlaceOf(path), fields[i])
    {
      LookupAt(fields, i);
      assert fields[i] == Field(fields[i].key, fields[i].value);
      assert Corresponds(role, fields, members, path, fields[i].key);
      ChildClean(reading, role, fields, path, fields[i].key, Lookup(members, fields[i].key).value);
    }
    forall key | !CleanAt(reading, members, key)
      ensures exists i :: 0 <= i < |fields| && fields[i].key == key && !Settled(role, fields, key)
    {
      assert Corresponds(role, fields, members, path, key);
      var i :| 0 <= i < |fields| && fields[i] == Field(key, Lookup(fields, key).value);
    }
  }

  lemma {:induction false} AfterExact(reading: Reading, role: Role, value: Json, path: string)
    requires Translates(role, value, path)
    ensures Clean(reading, Image(role, value, path).value) <==> CleanAfter(reading, role, PlaceOf(path), value)
    decreases value, 3
  {
    match value
    case Arr(items) =>
      ElementsImage(role, items, path);
      var images := Image(role, value, path).value.items;
      forall i | 0 <= i < |items|
        ensures Clean(ElementReading(reading), images[i]) <==> CleanAfter(ElementReading(reading), ElementRole(role), Inside, items[i])
      {
        ElementImage(role, items, path, i);
        IndexPath(path, i);
        AfterExact(ElementReading(reading), ElementRole(role), items[i], path + "/" + Decimal(i));
      }
    case Obj(fields) =>
      if role == AsSchema {
        SchemaAfter(reading, fields, path);
      } else {
        ObjectAfter(reading, role, fields, path);
      }
    case _ => ScalarAfter(reading, role, value, path);
  }

  lemma {:induction false} ScalarAfter(reading: Reading, role: Role, value: Json, path: string)
    requires Image(role, value, path).Ok? && !value.Arr? && !value.Obj?
    ensures Clean(reading, Image(role, value, path).value)
  {
    ImageKind(role, value, path);
  }

  lemma {:induction false} ObjectAfter(reading: Reading, role: Role, fields: seq<Field>, path: string)
    requires Translates(role, Obj(fields), path) && role != AsSchema
    ensures Clean(reading, Image(role, Obj(fields), path).value) <==> CleanAfter(reading, role, PlaceOf(path), Obj(fields))
    decreases Obj(fields), 2
  {
    ImageKind(role, Obj(fields), path);
    ImageKeyed(role, Obj(fields), path);
    var members := Image(role, Obj(fields), path).value.fields;
    forall key ensures Corresponds(role, fields, members, path, key) {
      EscapeRoundTrip(key);
      AtAgrees(role, Obj(fields), path, Escape(key));
    }
    MembersClean(reading, role, fields, members, path);
  }

  /** A settled keyword leaves nothing, or a number. */
  lemma SettledClean(reading: Reading, fields: seq<Field>, path: string, key: string)
    requires UniqueKeys(fields) && Bounded(fields, path).Ok? && Settled(AsSchema, fields, key)
    ensures CleanAt(reading, Bounded(fields, path).value, key)
  {
    BoundedAt(fields, path, key);
    if IsFlag(fields, key) && !Gone(fields, key) {
      ScalarIsClean(MemberReading(reading, Field(key, Lookup(fields, BoundOf(key)).value)), Lookup(fields, BoundOf(key)).value);
    }
  }

  lemma KeywordCorresponds(fields: seq<Field>, path: string, key: string)
    requires UniqueKeys(fields) && Bounded(fields, path).Ok? && !Settled(AsSchema, fields, key)
    ensures Corresponds(AsSchema, fields, Bounded(fields, path).value, path, key)
  {
    EscapeRoundTrip(key);
    InnerAgrees(fields, path, Escape(key));
    PlainStep(fields, path, Escape(key));
  }

  lemma PlainStep(fields: seq<Field>, path: string, token: string)
    requires !Settled(AsSchema, fields, Unescape(token))
    ensures InnerStep(fields, path, token) == Child(AsSchema, Obj(fields), path, token)
  {
  }

  lemma {:induction false} KeywordsAfter(reading: Reading, fields: seq<Field>, path: string)
    requires Keyed(Obj(fields)) && Bounded(fields, path).Ok?
    ensures Clean(reading, Obj(Bounded(fields, path).value)) <==> KeywordsCleanAfter(reading, PlaceOf(path), fields)
    decreases Obj(fields), 2, 0
  {
    var members := Bounded(fields, path).value;
    BoundedAt(fields, path, "");
    forall key | !Settled(AsSchema, fields, key) ensures Corresponds(AsSchema, fields, members, path, key) {
      KeywordCorresponds(fields, path, key);
    }
    forall key | Settled(AsSchema, fields, key) ensures CleanAt(reading, members, key) {
      SettledClean(reading, fields, path, key);
    }
    MembersClean(reading, AsSchema, fields, members, path);
  }

  /** Neither `type` nor the array that replaces it is residue. */
  lemma {:induction false} TypeClean(reading: Reading, members: seq<Field>, types: Json)
    requires UniqueKeys(members)
    requires types.Arr? && Hashable(types.items)
    requires Has(members, "type") ==>
      var item := Lookup(members, "type").value; item.Str? || (item.Arr? && Hashable(item.items))
    ensures Clean(reading, Obj(Put(members, "type", types))) <==> Clean(reading, Obj(members))
  {
    PutUnique(members, "type", types);
    CleanByKey(reading, members);
    CleanByKey(reading, Put(members, "type", types));
    forall key ensures CleanAt(reading, Put(members, "type", types), key) <==> CleanAt(reading, members, key) {
      LookupPut(members, "type", types, key);
      if key == "type" {
        ScalarsCleanIn(reading, types);
        if Has(members, "type") {
          ScalarsCleanIn(reading, Lookup(members, "type").value);
        }
      }
    }
  }

  lemma {:induction false} ScalarsCleanIn(reading: Reading, item: Json)
    requires item.Str? || (item.Arr? && Hashable(item.items))
    ensures CleanIn(reading, Field("type", item))
  {
    assert !IsResidue(reading, Field("type", item));
    if item.Arr? {
      FlatIsCleanHere(MemberReading(reading, Field("type", item)), item.items);
    }
  }

  lemma NullableTypeIsFlat(item: Json)
    requires item.Str? || (item.Arr? && Hashable(item.items))
    ensures NullableType(item).Arr? && Hashable(NullableType(item).items)
  {
    if item.Arr? {
      var types := NullableType(item).items;
      forall i | 0 <= i < |types| ensures !types[i].Arr? && !types[i].Obj? {
        assert types[i] in item.items + [Str("null")];
      }
    }
  }

  lemma {:induction false} TypeMember(fields: seq<Field>, path: string)
    requires UniqueKeys(fields) && Bounded(fields, path).Ok? && Has(fields, "type")
    requires var item := Lookup(fields, "type").value; item.Str? || (item.Arr? && Hashable(item.items))
    ensures var members := Bounded(fields, path).value;
      Has(members, "type")
      && var item := Lookup(members, "type").value; item.Str? || (item.Arr? && Hashable(item.items))
  {
    TypeBefore(fields, path);
    var item := Lookup(fields, "type").value;
    if item.Arr? {
      ScalarsStay(item.items, path + "/type", 0);
    }
  }

  lemma {:induction false} TypedAfter(reading: Reading, fields: seq<Field>, path: string)
    requires UniqueKeys(fields) && NormalizeSchema(Obj(fields), true, path).Ok? && Nullable(fields) && !Wrapped(fields)
    ensures Bounded(fields, path).Ok?
    ensures Clean(reading, NormalizeSchema(Obj(fields), true, path).value) <==> Clean(reading, Obj(Bounded(fields, path).value))
  {
    SchemaShape(fields, path);
    TypeMember(fields, path);
    BoundedAt(fields, path, "");
    NullableTypeIsFlat(Lookup(fields, "type").value);
    TypeClean(reading, Bounded(fields, path).value, NullableType(Lookup(fields, "type").value));
  }

  /** A wrapped schema is read in its list. */
  lemma {:induction false} WrappedAfter(reading: Reading, schema: Json)
    ensures Clean(reading, Obj([Field("anyOf", Arr([schema, NULL_SCHEMA]))])) <==> Clean(InsideAnyOf(reading), schema)
  {
    var pair := [schema, NULL_SCHEMA];
    var field := Field("anyOf", Arr(pair));
    SameReading(reading, "anyOf", Arr([]), Arr(pair));
    assert !IsResidue(reading, field);
    NullSchemaIsClean(InsideAnyOf(reading));
    assert [field][0] == field;
    assert pair[0] == schema && pair[1] == NULL_SCHEMA;
    assert Clean(MemberReading(reading, field), Arr(pair)) <==> Clean(InsideAnyOf(reading), pair[0]) && Clean(InsideAnyOf(reading), pair[1]);
    assert Clean(reading, Obj([field])) <==> CleanIn(reading, [field][0]);
  }

  lemma {:induction false} NullSchemaIsClean(reading: Reading)
    ensures Clean(reading, NULL_SCHEMA)
  {
    assert !IsResidue(reading, NULL_SCHEMA.fields[0]);
    ScalarIsClean(MemberReading(reading, NULL_SCHEMA.fields[0]), Str("null"));
  }

  lemma {:induction false} SchemaAfter(reading: Reading, fields: seq<Field>, path: string)
    requires Translates(AsSchema, Obj(fields), path)
    ensures Clean(reading, Image(AsSchema, Obj(fields), path).value) <==> CleanAfter(reading, AsSchema, PlaceOf(path), Obj(fields))
    decreases Obj(fields), 2, 1
  {
    SchemaShape(fields, path);
    if Wrapped(fields) {
      WrappedAfter(reading, Obj(Bounded(fields, path).value));
      KeywordsAfter(InsideAnyOf(reading), fields, path);
    } else {
      if Nullable(fields) {
        TypedAfter(reading, fields, path);
      }
      KeywordsAfter(reading, fields, path);
    }
  }
}
