/**
 References into the `anyOf` of a nullable schema without a type.  The translation puts the
 schema into an `anyOf` of its own, so such a reference comes to something else.
 */
module DivertedReferences {
  import opened Prelude
  import opened Json
  import opened KeyOrder
  import opened SchemaNormaliser
  import opened CanonicalForm
  import opened KeywordKinds
  import opened SchemaMeaning
  import opened MeaningPreservation
  import opened JsonPointer
  import opened RefResolution
  import opened DocumentImage
  import opened TranslatedDepth
  import opened TranslatedResidue
  import opened TranslationPlace
  import opened MovedReferences
  import opened DocumentMeaning
  import opened ContractPipeline

  /** The reference leads straight to a wrapped schema in n steps, and on through the schema's own `anyOf`. */
  ghost predicate IntoAnyOf(fields: seq<Field>, reference: string, n: nat, schema: seq<Field>, path: string) {
    && IsPointer(reference) && |TokensOf(reference)| >= n + 2
    && var tokens := TokensOf(reference);
    && Located(Whole(fields), tokens[..n]) == Some(At(AsSchema, Obj(schema), path))
    && Nowhere(Whole(fields), tokens[..n], Bends)
    && Wrapped(schema) && Unescape(tokens[n]) == "anyOf"
  }

  /** It ends at the i-th of the schema's own alternatives. */
  ghost predicate IntoAlternative(
    fields: seq<Field>, reference: string, n: nat, schema: seq<Field>, path: string, alternatives: seq<Json>, i: nat)
  {
    && IntoAnyOf(fields, reference, n, schema, path) && |TokensOf(reference)| == n + 2
    && Lookup(schema, "anyOf") == Some(Arr(alternatives))
    && var index := Unescape(TokensOf(reference)[n + 1]);
    && IsDigits(index) && ParseNat(index) == i < |alternatives|
  }

  lemma {:induction false} StepsInto(p: Position, q: Position, tokens: seq<string>)
    requires |tokens| >= 2 && Moved(p, tokens[0]) == Some(q)
    ensures Trail(p, tokens) == match Moved(q, tokens[1]) case Some(r) => Trail(r, tokens[2..]) case None => None
  {
    var rest := tokens[1..];
    assert rest[0] == tokens[1] && rest[1..] == tokens[2..];
    assert Trail(q, rest) == match Moved(q, rest[0]) case Some(r) => Trail(r, rest[1..]) case None => None;
  }

  /** After the translation the rest of the reference goes on in the whole inner schema, in the null schema, or nowhere. */
  lemma DivertedLanding(fields: seq<Field>, reference: string, n: nat, schema: seq<Field>, path: string)
    requires IntoAnyOf(fields, reference, n, schema, path)
    ensures var index, rest := Unescape(TokensOf(reference)[n + 1]), TokensOf(reference)[n + 2..];
      Landing(fields, reference) ==
        if IsDigits(index) && ParseNat(index) == 0 then Trail(Inner(schema, path), rest)
        else if IsDigits(index) && ParseNat(index) == 1 then Trail(Made(NULL_SCHEMA), rest)
        else None
  {
    var tokens := TokensOf(reference);
    StraightTrail(Whole(fields), tokens[..n]);
    TrailPrefix(Whole(fields), tokens, n);
    StepsInto(At(AsSchema, Obj(schema), path), Pair(schema, path), tokens[n..]);
    assert tokens[n..][2..] == tokens[n + 2..];
  }

  lemma {:induction false} TwoDescents(value: Json, child: Json, tokens: seq<string>)
    requires |tokens| == 2 && Descend(value, tokens[0]) == Some(child)
    ensures DescendAll(value, tokens) == Descend(child, tokens[1])
  {
    var rest := tokens[1..];
    assert rest[0] == tokens[1] && rest[1..] == [];
    assert DescendAll(child, rest) == match Descend(child, rest[0]) case Some(r) => DescendAll(r, rest[1..]) case None => None;
  }

  /** What the reference finds before the translation, and where it comes to after it. */
  lemma AlternativeLanding(
    fields: seq<Field>, reference: string, n: nat, schema: seq<Field>, path: string, alternatives: seq<Json>, i: nat)
    requires IsTranslated(fields) && IntoAlternative(fields, reference, n, schema, path, alternatives, i)
    ensures Keyed(Obj(schema)) && Image(AsSchema, Obj(schema), path).Ok?
    ensures Pointer(Obj(fields), reference) == Some(alternatives[i])
    ensures Landing(fields, reference) ==
      if i == 0 then Some(Inner(schema, path)) else if i == 1 then Some(Made(NULL_SCHEMA)) else None
  {
    var tokens := TokensOf(reference);
    LocatedExact(Whole(fields), tokens[..n]);
    NodeKeyed(Obj(fields), tokens[..n]);
    DescendPrefix(Obj(fields), tokens, n);
    TwoDescents(Obj(schema), Arr(alternatives), tokens[n..]);
    StraightTrail(Whole(fields), tokens[..n]);
    StampedKeyed(fields);
    TrailExact(Whole(fields), tokens[..n]);
    DivertedLanding(fields, reference, n, schema, path);
    assert tokens[n + 2..] == [];
  }

  /** The alternatives of the schema after its keywords are translated. */
  lemma {:induction false} AlternativesImage(schema: seq<Field>, path: string, alternatives: seq<Json>)
    requires UniqueKeys(schema) && Bounded(schema, path).Ok? && Lookup(schema, "anyOf") == Some(Arr(alternatives))
    ensures var members := Bounded(schema, path).value;
      Has(members, "anyOf") && Image(AsSchemaList, Arr(alternatives), path + "/" + "anyOf") == Ok(Lookup(members, "anyOf").value)
  {
    KeywordCorresponds(schema, path, "anyOf");
    assert KindOf("anyOf") == ListKeyword;
  }

  lemma {:induction false} HeldInList(members: seq<Field>, key: string, items: seq<Json>, i: nat)
    requires Lookup(members, key) == Some(Arr(items)) && i < |items|
    ensures Height(items[i]) < Height(Obj(members))
  {
    HighestItemIs(items);
    HighestFieldIs(members);
    var k :| 0 <= k < |members| && members[k] == Field(key, Arr(items));
  }

  /** The first alternative of the schema, translated, is inside the schema's own keywords translated. */
  lemma {:induction false} FirstIsDeeper(schema: seq<Field>, path: string, alternatives: seq<Json>, translated: Json)
    requires Keyed(Obj(schema)) && Bounded(schema, path).Ok?
    requires Lookup(schema, "anyOf") == Some(Arr(alternatives)) && |alternatives| > 0
    requires TranslatesTo(alternatives[0], translated)
    ensures Height(translated) < Height(Obj(Bounded(schema, path).value))
  {
    var at := path + "/" + "anyOf";
    AlternativesImage(schema, path, alternatives);
    ElementImage(AsSchemaList, alternatives, at, 0);
    var other :| other != "" && NormalizeSchema(alternatives[0], true, other) == Ok(translated);
    SchemaByPlace(alternatives[0], other, at + "/" + Decimal(0));
    var members := Bounded(schema, path).value;
    HeldInList(members, "anyOf", Lookup(members, "anyOf").value.items, 0);
  }

  lemma InnerFound(fields: seq<Field>, reference: string, schema: seq<Field>, path: string)
    requires IsTranslated(fields) && Landing(fields, reference) == Some(Inner(schema, path)) && Bounded(schema, path).Ok?
    ensures Pointer(Normalized(fields).value, reference) == Some(Canonical(Obj(Bounded(schema, path).value)))
  {
    ReferenceExact(fields, reference);
  }

  lemma FirstFinds(
    fields: seq<Field>, reference: string, n: nat, schema: seq<Field>, path: string, alternatives: seq<Json>)
    requires IsTranslated(fields) && IntoAlternative(fields, reference, n, schema, path, alternatives, 0)
    ensures Keyed(Obj(schema)) && Bounded(schema, path).Ok?
    ensures Pointer(Obj(fields), reference) == Some(alternatives[0])
    ensures Pointer(Normalized(fields).value, reference) == Some(Canonical(Obj(Bounded(schema, path).value)))
  {
    AlternativeLanding(fields, reference, n, schema, path, alternatives, 0);
    SchemaIsBounded(schema, path);
    InnerFound(fields, reference, schema, path);
  }

  lemma FirstIsNotCarried(
    fields: seq<Field>, reference: string, n: nat, schema: seq<Field>, path: string, alternatives: seq<Json>)
    requires IsTranslated(fields) && IntoAlternative(fields, reference, n, schema, path, alternatives, 0)
    ensures Bounded(schema, path).Ok?
    ensures Pointer(Normalized(fields).value, reference) == Some(Canonical(Obj(Bounded(schema, path).value)))
    ensures !Carried(fields, reference)
  {
    FirstFinds(fields, reference, n, schema, path, alternatives);
    forall translated ensures !CarriesTo(fields, reference, translated) {
      if CarriesTo(fields, reference, translated) {
        FirstDiffers(schema, path, alternatives, translated);
      }
    }
  }

  lemma {:induction false} FirstDiffers(schema: seq<Field>, path: string, alternatives: seq<Json>, translated: Json)
    requires Keyed(Obj(schema)) && Bounded(schema, path).Ok?
    requires Lookup(schema, "anyOf") == Some(Arr(alternatives)) && |alternatives| > 0
    requires TranslatesTo(alternatives[0], translated)
    ensures Canonical(Obj(Bounded(schema, path).value)) != Canonical(translated)
  {
    FirstIsDeeper(schema, path, alternatives, translated);
    BoundedKeyed(schema, path);
    AlternativeKeyed(schema, alternatives, 0, translated);
    CanonicalHeight(Obj(Bounded(schema, path).value));
    CanonicalHeight(translated);
  }

  lemma {:induction false} AlternativeKeyed(schema: seq<Field>, alternatives: seq<Json>, i: nat, translated: Json)
    requires Keyed(Obj(schema)) && Lookup(schema, "anyOf") == Some(Arr(alternatives)) && i < |alternatives|
    requires TranslatesTo(alternatives[i], translated)
    ensures Keyed(alternatives[i]) && Keyed(translated)
  {
    var j :| 0 <= j < |schema| && schema[j] == Field("anyOf", Arr(alternatives));
    assert Keyed(Arr(alternatives));
    var path :| path != "" && NormalizeSchema(alternatives[i], true, path) == Ok(translated);
    SchemaKeyed(alternatives[i], true, path);
  }

  // ---------- the null schema ----------

  /** The schema says `type: null`, and nothing else that stays. */
  predicate IsJustNull(schema: Json) {
    && schema.Obj?
    && !Nullable(schema.fields)
    && Lookup(schema.fields, "type") == Some(Str("null"))
    && forall i :: 0 <= i < |schema.fields| ==> schema.fields[i].key == "type" || Gone(schema.fields, schema.fields[i].key)
  }

  lemma NullSchemaIsCanonical()
    ensures Canonical(NULL_SCHEMA) == NULL_SCHEMA && Keyed(NULL_SCHEMA)
  {
    assert IsCanonical(NULL_SCHEMA);
    CanonicalFixed(NULL_SCHEMA);
  }

  predicate NullAt(members: seq<Field>, key: string) {
    Lookup(members, key) == if key == "type" then Some(Str("null")) else None
  }

  /** The same object as the null schema, but for key order, of which it has none. */
  lemma NullSchemaSame(members: seq<Field>)
    requires Keyed(Obj(members))
    ensures Canonical(Obj(members)) == NULL_SCHEMA <==> forall key :: NullAt(members, key)
  {
    var only := NULL_SCHEMA.fields;
    NullSchemaIsCanonical();
    CanonicalIdentifies(Obj(members), NULL_SCHEMA);
    assert Same(Obj(members), NULL_SCHEMA) <==> SameFields(members, only);
    forall key ensures SameAt(members, only, key) <==> NullAt(members, key) {
      OnlyField(only[0], key);
    }
  }

  lemma {:induction false} JustNullExact(schema: Json, path: string)
    requires Keyed(schema) && NormalizeSchema(schema, true, path).Ok?
    ensures Canonical(NormalizeSchema(schema, true, path).value) == NULL_SCHEMA <==> IsJustNull(schema)
  {
    if schema.Obj? {
      SchemaKeyed(schema, true, path);
      SchemaShape(schema.fields, path);
      var members := NormalizeSchema(schema, true, path).value.fields;
      NullSchemaSame(members);
      if Nullable(schema.fields) {
        NullableIsMore(schema.fields, path);
      } else {
        PlainNullExact(schema.fields, path);
      }
    }
  }

  lemma {:induction false} NullableIsMore(fields: seq<Field>, path: string)
    requires UniqueKeys(fields) && NormalizeSchema(Obj(fields), true, path).Ok? && Nullable(fields)
    ensures NormalizeSchema(Obj(fields), true, path).value.Obj?
    ensures !NullAt(NormalizeSchema(Obj(fields), true, path).value.fields, "type")
  {
    SchemaShape(fields, path);
    if Wrapped(fields) {
      OnlyField(NormalizeSchema(Obj(fields), true, path).value.fields[0], "type");
    } else {
      PutTypeLookup(Bounded(fields, path).value, NullableType(Lookup(fields, "type").value), "type");
    }
  }

  lemma PlainNullExact(fields: seq<Field>, path: string)
    requires UniqueKeys(fields) && Bounded(fields, path).Ok? && !Nullable(fields)
    ensures (forall key :: NullAt(Bounded(fields, path).value, key)) <==> IsJustNull(Obj(fields))
  {
    var members := Bounded(fields, path).value;
    if IsJustNull(Obj(fields)) {
      forall key ensures NullAt(members, key) {
        JustNullAt(fields, path, key);
      }
    }
    if forall key :: NullAt(members, key) {
      forall i | 0 <= i < |fields| ensures fields[i].key == "type" || Gone(fields, fields[i].key) {
        LookupAt(fields, i);
        assert NullAt(members, fields[i].key);
        StaysExact(fields, path, fields[i].key);
      }
      assert NullAt(members, "type");
      TypeIsText(fields, path);
    }
  }

  lemma {:induction false} TypeIsText(fields: seq<Field>, path: string)
    requires UniqueKeys(fields) && Bounded(fields, path).Ok?
    ensures Lookup(Bounded(fields, path).value, "type") == Some(Str("null")) <==> Lookup(fields, "type") == Some(Str("null"))
  {
    TypeBefore(fields, path);
  }

  lemma JustNullAt(fields: seq<Field>, path: string, key: string)
    requires UniqueKeys(fields) && Bounded(fields, path).Ok? && IsJustNull(Obj(fields))
    ensures NullAt(Bounded(fields, path).value, key)
  {
    TypeIsText(fields, path);
    StaysExact(fields, path, key);
    if Has(fields, key) {
      var i :| 0 <= i < |fields| && fields[i] == Field(key, Lookup(fields, key).value);
    }
  }

  lemma StaysExact(fields: seq<Field>, path: string, key: string)
    requires UniqueKeys(fields) && Bounded(fields, path).Ok?
    ensures Has(Bounded(fields, path).value, key) <==> Has(fields, key) && !Gone(fields, key)
  {
    BoundedAt(fields, path, key);
    FieldsLookup(SchemaObject, fields, true, path, key);
  }

  // ---------- where each alternative goes ----------

  /** The second alternative, translated. */
  lemma SecondImage(schema: seq<Field>, path: string, alternatives: seq<Json>) returns (translated: Json)
    requires Keyed(Obj(schema)) && Bounded(schema, path).Ok?
    requires Lookup(schema, "anyOf") == Some(Arr(alternatives)) && |alternatives| > 1
    ensures TranslatesTo(alternatives[1], translated)
    ensures forall other :: TranslatesTo(alternatives[1], other) ==> other == translated
    ensures Canonical(translated) == NULL_SCHEMA <==> IsJustNull(alternatives[1])
  {
    var at := path + "/" + "anyOf" + "/" + Decimal(1);
    AlternativesImage(schema, path, alternatives);
    ElementImage(AsSchemaList, alternatives, path + "/" + "anyOf", 1);
    assert Image(AsSchema, alternatives[1], at).Ok?;
    translated := NormalizeSchema(alternatives[1], true, at).value;
    assert TranslatesTo(alternatives[1], translated);
    AlternativeKeyed(schema, alternatives, 1, translated);
    JustNullExact(alternatives[1], at);
    forall other | TranslatesTo(alternatives[1], other) ensures other == translated {
      OneTranslation(alternatives[1], at, other);
    }
  }

  lemma {:induction false} OneTranslation(schema: Json, path: string, other: Json)
    requires path != "" && NormalizeSchema(schema, true, path).Ok? && TranslatesTo(schema, other)
    ensures NormalizeSchema(schema, true, path) == Ok(other)
  {
    var elsewhere :| elsewhere != "" && NormalizeSchema(schema, true, elsewhere) == Ok(other);
    SchemaByPlace(schema, elsewhere, path);
  }

  lemma SecondFinds(
    fields: seq<Field>, reference: string, n: nat, schema: seq<Field>, path: string, alternatives: seq<Json>)
    requires IsTranslated(fields) && IntoAlternative(fields, reference, n, schema, path, alternatives, 1)
    ensures Keyed(Obj(schema)) && Bounded(schema, path).Ok?
    ensures Pointer(Obj(fields), reference) == Some(alternatives[1])
    ensures Pointer(Normalized(fields).value, reference) == Some(NULL_SCHEMA)
  {
    AlternativeLanding(fields, reference, n, schema, path, alternatives, 1);
    SchemaIsBounded(schema, path);
    MadeFound(fields, reference, NULL_SCHEMA);
    NullSchemaIsCanonical();
  }

  lemma {:induction false} MadeFound(fields: seq<Field>, reference: string, made: Json)
    requires IsTranslated(fields) && Landing(fields, reference) == Some(Made(made))
    ensures Pointer(Normalized(fields).value, reference) == Some(Canonical(made))
  {
    ReferenceExact(fields, reference);
  }

  lemma SecondExact(
    fields: seq<Field>, reference: string, n: nat, schema: seq<Field>, path: string, alternatives: seq<Json>)
    requires IsTranslated(fields) && IntoAlternative(fields, reference, n, schema, path, alternatives, 1)
    ensures Pointer(Normalized(fields).value, reference) == Some(NULL_SCHEMA)
    ensures Carried(fields, reference) <==> IsJustNull(alternatives[1])
  {
    SecondFinds(fields, reference, n, schema, path, alternatives);
    var translated := SecondImage(schema, path, alternatives);
    OneCarried(fields, reference, alternatives[1], translated, NULL_SCHEMA);
  }

  lemma {:induction false} OneCarried(fields: seq<Field>, reference: string, schema: Json, translated: Json, found: Json)
    requires Normalized(fields).Ok? && Pointer(Obj(fields), reference) == Some(schema)
    requires TranslatesTo(schema, translated) && forall other :: TranslatesTo(schema, other) ==> other == translated
    requires Pointer(Normalized(fields).value, reference) == Some(found)
    ensures Carried(fields, reference) <==> Canonical(translated) == found
  {
    assert CarriesTo(fields, reference, translated) <==> Canonical(translated) == found;
  }

  lemma LaterIsLost(
    fields: seq<Field>, reference: string, n: nat, schema: seq<Field>, path: string, alternatives: seq<Json>, i: nat)
    requires IsTranslated(fields) && IntoAlternative(fields, reference, n, schema, path, alternatives, i) && i >= 2
    ensures Pointer(Normalized(fields).value, reference) == None && !Carried(fields, reference)
  {
    AlternativeLanding(fields, reference, n, schema, path, alternatives, i);
    ReferenceExact(fields, reference);
  }

  /**
   Exactly what becomes of a reference to an alternative of a wrapped schema.  To the first:
   it finds the whole inner schema, which is never what the alternative is translated to.  To
   the second: it finds the null schema, and carries its meaning over exactly when the
   alternative says no more than that.  To any later one: it finds nothing.
   */
  lemma AlternativeExact(
    fields: seq<Field>, reference: string, n: nat, schema: seq<Field>, path: string, alternatives: seq<Json>, i: nat)
    requires IsTranslated(fields) && IntoAlternative(fields, reference, n, schema, path, alternatives, i)
    ensures Pointer(Obj(fields), reference) == Some(alternatives[i])
    ensures i == 0 ==> Bounded(schema, path).Ok?
    ensures Pointer(Normalized(fields).value, reference) ==
      if i == 0 then Some(Canonical(Obj(Bounded(schema, path).value))) else if i == 1 then Some(NULL_SCHEMA) else None
    ensures Carried(fields, reference) <==> i == 1 && IsJustNull(alternatives[1])
  {
    AlternativeLanding(fields, reference, n, schema, path, alternatives, i);
    if i == 0 {
      FirstIsNotCarried(fields, reference, n, schema, path, alternatives);
    } else if i == 1 {
      SecondExact(fields, reference, n, schema, path, alternatives);
    } else {
      LaterIsLost(fields, reference, n, schema, path, alternatives, i);
    }
  }

  // ---------- a diverted reference ----------

  /** A nullable schema without a type, with two alternatives. */
  function Choice(first: Json, second: Json): seq<Field> {
    [Field("nullable", Bool(true)), AnyOf(first, second)]
  }

  function AnyOf(first: Json, second: Json): Field {
    Field("anyOf", Arr([first, second]))
  }

  lemma {:induction false} TwoSchemas(first: Json, second: Json, path: string)
    requires NormalizeSchema(first, true, path + "/" + Decimal(0)) == Ok(first)
    requires NormalizeSchema(second, true, path + "/" + Decimal(1)) == Ok(second)
    ensures NormalizeItems(true, [first, second], true, path, 0) == Ok([first, second])
  {
    assert [second][1..] == [] && [first, second][1..] == [second];
    assert NormalizeItems(true, [second][1..], true, path, 2) == Ok([]);
    assert [second] + [] == [second];
    assert NormalizeItems(true, [second], true, path, 1) == Ok([second]);
    assert [first] + [second] == [first, second];
  }

  lemma {:induction false} ChoiceTranslates(first: Json, second: Json, path: string)
    requires NormalizeSchema(first, true, path + "/" + "anyOf" + "/" + Decimal(0)) == Ok(first)
    requires NormalizeSchema(second, true, path + "/" + "anyOf" + "/" + Decimal(1)) == Ok(second)
    ensures NormalizeSchema(Obj(Choice(first, second)), true, path).Ok?
    ensures Bounded(Choice(first, second), path) == Ok([AnyOf(first, second)])
  {
    var anyOf, at := AnyOf(first, second), path + "/" + "anyOf";
    TwoSchemas(first, second, at);
    assert KindOf("anyOf") == ListKeyword;
    KeywordByKind(anyOf, at);
    OneKept(SchemaObject, anyOf, path, anyOf.value);
    assert Choice(first, second)[1..] == [anyOf];
    assert NormalizeFields(SchemaObject, Choice(first, second), true, path) == Ok([anyOf]);
    TwoLookups(Field("nullable", Bool(true)), anyOf);
    OnlyField(anyOf, "type");
  }

  /** The path to an alternative of a component schema; `key` is `anyOf`. */
  function AlternativePath(name: string, key: string, i: nat): seq<Step> {
    SchemaPath(name) + [Key(key), Index(i)]
  }

  lemma {:induction false} TokenAt(path: seq<Step>, i: nat)
    requires i < |path|
    ensures Tokens(path)[i] == Token(path[i])
  {
    if i > 0 {
      TokenAt(path[1..], i - 1);
    }
  }

  lemma {:induction false} AlternativeTokens(name: string, key: string, i: nat)
    ensures var tokens := Tokens(AlternativePath(name, key, i));
      && |tokens| == 5 && tokens[..3] == Tokens(SchemaPath(name))
      && Unescape(tokens[3]) == key && Unescape(tokens[4]) == Decimal(i)
  {
    var path := AlternativePath(name, key, i);
    TokensPrefix(path, 3);
    assert path[..3] == SchemaPath(name) && path[3] == Key(key) && path[4] == Index(i);
    TokenAt(path, 3);
    TokenAt(path, 4);
    EscapeRoundTrip(key);
    EscapeRoundTrip(Decimal(i));
  }

  /** A reference to an alternative of a component schema that is wrapped. */
  lemma {:induction false} ComponentAlternative(
    fields: seq<Field>, name: string, schema: seq<Field>, key: string, alternatives: seq<Json>, i: nat)
    requires IsComponent(fields, name, Obj(schema)) && Wrapped(schema) && key == "anyOf"
    requires Lookup(schema, key) == Some(Arr(alternatives)) && i < |alternatives|
    ensures IntoAlternative(fields, "#" + JsonPath(AlternativePath(name, key, i)), 3, schema,
                            "/components/schemas/" + name, alternatives, i)
  {
    var reference, tokens := "#" + JsonPath(AlternativePath(name, key, i)), Tokens(AlternativePath(name, key, i));
    PathTokens(AlternativePath(name, key, i));
    AlternativeTokens(name, key, i);
    ComponentPosition(fields, name, Obj(schema));
    IntoByTokens(fields, reference, tokens, schema, "/components/schemas/" + name, alternatives, i);
  }

  lemma {:induction false} IntoByTokens(
    fields: seq<Field>, reference: string, tokens: seq<string>, schema: seq<Field>, path: string,
    alternatives: seq<Json>, i: nat)
    requires IsPointer(reference) && TokensOf(reference) == tokens && |tokens| == 5
    requires Located(Whole(fields), tokens[..3]) == Some(At(AsSchema, Obj(schema), path))
    requires Nowhere(Whole(fields), tokens[..3], Bends) && Wrapped(schema)
    requires Unescape(tokens[3]) == "anyOf" && Unescape(tokens[4]) == Decimal(i)
    requires Lookup(schema, "anyOf") == Some(Arr(alternatives)) && i < |alternatives|
    ensures IntoAlternative(fields, reference, 3, schema, path, alternatives, i)
  {
    DecimalRoundTrip(i);
  }

  /** The reference leads to the first alternative before the translation, and to the whole choice after it. */
  lemma ChoiceDiverted(fields: seq<Field>, name: string, key: string, first: Json, second: Json)
    requires IsTranslated(fields) && IsComponent(fields, name, Obj(Choice(first, second))) && key == "anyOf"
    requires Bounded(Choice(first, second), "/components/schemas/" + name) == Ok([AnyOf(first, second)])
    ensures var reference := "#" + JsonPath(AlternativePath(name, key, 0));
      && Pointer(Obj(fields), reference) == Some(first)
      && Pointer(Normalized(fields).value, reference) == Some(Canonical(Obj([AnyOf(first, second)])))
      && !Carried(fields, reference)
  {
    TwoLookups(Field("nullable", Bool(true)), AnyOf(first, second));
    ComponentAlternative(fields, name, Choice(first, second), key, [first, second], 0);
    AlternativeExact(fields, "#" + JsonPath(AlternativePath(name, key, 0)), 3, Choice(first, second),
                     "/components/schemas/" + name, [first, second], 0);
  }

  const NUMBER := Obj([Field("type", Str("number"))])

  lemma {:induction false} ChoiceKeyed(first: Json, second: Json)
    requires Keyed(first) && Keyed(second)
    ensures Keyed(Obj(Choice(first, second)))
  {
    TwoLookups(Field("nullable", Bool(true)), AnyOf(first, second));
    assert Keyed(Arr([first, second]));
  }

  lemma {:induction false} ChoiceDocument(name: string, path: string, first: Json, second: Json)
    requires path == "/components" + "/" + "schemas" && Keyed(first) && Keyed(second)
    requires NormalizeSchema(first, true, path + "/" + name + "/" + "anyOf" + "/" + Decimal(0)) == Ok(first)
    requires NormalizeSchema(second, true, path + "/" + name + "/" + "anyOf" + "/" + Decimal(1)) == Ok(second)
    ensures IsTranslated(SchemaDocument([Field(name, Obj(Choice(first, second)))]))
    ensures Bounded(Choice(first, second), "/components/schemas/" + name) == Ok([AnyOf(first, second)])
  {
    ChoiceTranslates(first, second, path + "/" + name);
    ChoiceKeyed(first, second);
    OneSchemaTranslates(name, Obj(Choice(first, second)), path);
    assert path + "/" + name == "/components/schemas/" + name;
  }

  lemma OneSchemaComponent(name: string, schema: Json)
    ensures IsComponent(SchemaDocument([Field(name, schema)]), name, schema)
  {
    OnlyField(Field(name, schema), name);
    SchemaDocumentComponent([Field(name, schema)], name, schema);
  }

  /** A reference to a text is one to a text or a number after the translation. */
  lemma ReferenceDiverted(name: string, key: string)
    requires key == "anyOf"
    ensures var fields := SchemaDocument([Field(name, Obj(Choice(TEXT, NUMBER)))]);
      var reference := "#" + JsonPath(AlternativePath(name, key, 0));
      && IsTranslated(fields)
      && Pointer(Obj(fields), reference) == Some(TEXT)
      && Pointer(Normalized(fields).value, reference) == Some(Canonical(Obj([AnyOf(TEXT, NUMBER)])))
      && !Carried(fields, reference)
  {
    var path := "/components" + "/" + "schemas";
    OneScalar("type", "string", path + "/" + name + "/" + "anyOf" + "/" + Decimal(0));
    OneScalar("type", "number", path + "/" + name + "/" + "anyOf" + "/" + Decimal(1));
    assert Keyed(TEXT) && Keyed(NUMBER);
    ChoiceDocument(name, path, TEXT, NUMBER);
    OneSchemaComponent(name, Obj(Choice(TEXT, NUMBER)));
    ChoiceDiverted(SchemaDocument([Field(name, Obj(Choice(TEXT, NUMBER)))]), name, key, TEXT, NUMBER);
  }
}
