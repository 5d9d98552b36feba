/**
 The meaning of the schemas of a document, with its references read from the document:
 which references lead after the translation to the translation of what they led to
 before, and what the schemas then accept.
 */
module DocumentMeaning {
  import opened Prelude
  import opened Json
  import opened KeyOrder
  import opened SchemaNormaliser
  import opened CanonicalForm
  import opened KeywordKinds
  import opened SchemaMeaning
  import opened MeaningPreservation
  import opened SchemaResidue
  import opened DocumentFrames
  import opened JsonPointer
  import opened RefResolution
  import opened DocumentImage
  import opened MovedReferences
  import opened CanonicalMeaning
  import opened CleanSchemas
  import opened MisplacedSchemas
  import opened TranslatedResidue

  // ---------- references that carry their meaning over ----------

  /** A translation of the schema, made anywhere but at the root. */
  ghost predicate TranslatesTo(schema: Json, translated: Json) {
    exists path: string :: path != "" && NormalizeSchema(schema, true, path) == Ok(translated)
  }

  ghost predicate CarriesTo(fields: seq<Field>, reference: string, translated: Json)
    requires Normalized(fields).Ok?
  {
    && Pointer(Obj(fields), reference).Some?
    && TranslatesTo(Pointer(Obj(fields), reference).value, translated)
    && Pointer(Normalized(fields).value, reference) == Some(Canonical(translated))
  }

  /** After the translation the reference leads to the translation of what it led to before, in canonical form. */
  ghost predicate Carried(fields: seq<Field>, reference: string)
    requires Normalized(fields).Ok?
  {
    exists translated :: CarriesTo(fields, reference, translated)
  }

  /**
   The treatment of a schema in its place amounts to that of a schema: it is one, or it is
   taken for data and has nothing to translate, or it is taken for an OpenAPI value and that
   leaves no residue.  Where it stands for a map of schemas the two results are compared.
   */
  ghost predicate TreatedAsSchema(role: Role, schema: Json, path: string)
    requires Image(role, schema, path).Ok?
  {
    match role
    case AsSchema => true
    case AsData => CleanSchema(schema)
    case AsIs => CleanSchema(schema)
    case AsDocument => CleanAfter(Schema, AsDocument, PlaceOf(path), schema)
    case _ =>
      exists translated :: TranslatesTo(schema, translated)
        && Canonical(Image(role, schema, path).value) == Canonical(translated)
  }

  lemma {:induction false} BelowRoot(p: Position, tokens: seq<string>)
    requires InSource(p) && Located(p, tokens).Some?
    requires |tokens| > 0 || (p.At? && p.path != "")
    ensures Located(p, tokens).value.At? && Located(p, tokens).value.path != ""
    decreases tokens
  {
    if |tokens| != 0 {
      BelowRoot(SourceStep(p, tokens[0]).value, tokens[1..]);
    }
  }

  /** A way to an object that is neither blocked nor diverted does not bend. */
  lemma {:induction false} ObjectStraight(p: Position, tokens: seq<string>)
    requires InSource(p) && Sourced(p) && Found(p).Ok?
    requires p.Whole? ==> Lookup(p.fields, VERSION_KEY) == Some(Str("3.0.3"))
    requires Located(p, tokens).Some? && Located(p, tokens).value.At? && Located(p, tokens).value.value.Obj?
    requires Nowhere(p, tokens, Diverted) && Nowhere(p, tokens, Blocked)
    ensures Nowhere(p, tokens, Bends)
    decreases tokens
  {
    if |tokens| != 0 {
      assert !Diverted(p, tokens) && !Blocked(p, tokens);
      if Bends(p, [tokens[0]]) {
        BendsToScalar(p, tokens);
      } else {
        SourceStepSound(p, tokens[0]);
        ObjectStraight(SourceStep(p, tokens[0]).value, tokens[1..]);
        assert !Bends(p, tokens);
      }
    }
  }

  lemma {:induction false} BendsToScalar(p: Position, tokens: seq<string>)
    requires InSource(p) && Sourced(p) && Found(p).Ok?
    requires p.Whole? ==> Lookup(p.fields, VERSION_KEY) == Some(Str("3.0.3"))
    requires |tokens| > 0 && Located(p, tokens).Some?
    requires Bends(p, [tokens[0]]) && !Diverted(p, tokens) && !Blocked(p, tokens)
    ensures InSource(Located(p, tokens).value) && !SourceOf(Located(p, tokens).value).Obj?
  {
    var next := SourceStep(p, tokens[0]).value;
    LocatedExact(p, tokens);
    if p.Whole? {
      ScalarEnds(next, tokens[1..]);
    } else {
      var fields, name := p.value.fields, Unescape(tokens[0]);
      SchemaShape(fields, p.path);
      if Nullable(fields) && name == "type" {
        var item := Lookup(fields, "type").value;
        if item.Str? {
          ScalarEnds(next, tokens[1..]);
        } else {
          ScalarListHasNoObject(next.role, item.items, next.path, tokens[1..]);
        }
      } else {
        FlagEnds(p, tokens);
      }
    }
  }

  lemma {:induction false} ScalarListHasNoObject(role: Role, items: seq<Json>, path: string, tokens: seq<string>)
    requires Hashable(items) && Located(At(role, Arr(items), path), tokens).Some?
    ensures var q := Located(At(role, Arr(items), path), tokens).value; InSource(q) && !SourceOf(q).Obj?
  {
    ScalarListEnds(role, items, path, tokens);
  }

  ghost predicate Steady(fields: seq<Field>, reference: string) {
    && IsPointer(reference)
    && Located(Whole(fields), TokensOf(reference)).Some?
    && Nowhere(Whole(fields), TokensOf(reference), Bends)
    && match Located(Whole(fields), TokensOf(reference)).value
       case At(role, schema, path) => Image(role, schema, path).Ok? && TreatedAsSchema(role, schema, path)
       case _ => false
  }

  lemma SteadyIsCarried(fields: seq<Field>, reference: string)
    requires IsTranslated(fields) && Steady(fields, reference)
    requires Pointer(Obj(fields), reference).Some? && WellFormed(Pointer(Obj(fields), reference).value)
    ensures Carried(fields, reference)
  {
    var At(role, schema, path) := Located(Whole(fields), TokensOf(reference)).value;
    StraightReference(fields, reference, role, schema, path);
    assert TokensOf(reference) != [];
    BelowRoot(Whole(fields), TokensOf(reference));
    CanonicalIdempotent(schema);
    match role
    case AsSchema => assert CarriesTo(fields, reference, NormalizeSchema(schema, true, path).value);
    case AsData => CleanSchemaKept(schema, path); assert CarriesTo(fields, reference, NormalizeSchema(schema, true, path).value);
    case AsIs => CleanSchemaKept(schema, path); assert CarriesTo(fields, reference, NormalizeSchema(schema, true, path).value);
    case AsDocument =>
      MisplacedExact(schema, path);
      DocumentAgrees(schema, path);
      assert CarriesTo(fields, reference, NormalizeSchema(schema, true, path).value);
    case _ =>
      var translated :| TranslatesTo(schema, translated) && Canonical(Image(role, schema, path).value) == Canonical(translated);
      assert CarriesTo(fields, reference, translated);
  }

  /** A translated schema has no residue, nor has what has the same canonical form. */
  lemma {:induction false} SameAsTranslation(schema: Json, other: Json, translated: Json)
    requires Keyed(schema) && TranslatesTo(schema, translated) && Canonical(other) == Canonical(translated)
    ensures CleanSchema(other)
  {
    var path :| path != "" && NormalizeSchema(schema, true, path) == Ok(translated);
    SchemaClean(schema, path);
    CanonicalSchemaClean(other);
    CanonicalSchemaClean(translated);
  }

  /** No residue after the translation as an OpenAPI value, on the source and on the result. */
  lemma {:induction false} MisplacedExact(schema: Json, path: string)
    requires Keyed(schema) && NormalizeDocument(schema, true, path).Ok?
    ensures CleanAfter(Schema, AsDocument, PlaceOf(path), schema) <==> CleanSchema(NormalizeDocument(schema, true, path).value)
  {
    AfterExact(Schema, AsDocument, schema, path);
    CleanMeans(Schema, NormalizeDocument(schema, true, path).value);
  }

  /**
   What a diverted reference leads to happens to be the translation of what it led to: it
   comes to another schema, and the two have translations that differ in key order at most.
   */
  ghost predicate Twins(fields: seq<Field>, reference: string) {
    && Pointer(Obj(fields), reference).Some?
    && Landing(fields, reference).Some? && Found(Landing(fields, reference).value).Ok?
    && exists translated :: TranslatesTo(Pointer(Obj(fields), reference).value, translated)
         && Canonical(Found(Landing(fields, reference).value).value) == Canonical(translated)
  }

  predicate IsDiverted(fields: seq<Field>, reference: string)
    requires IsPointer(reference) && Located(Whole(fields), TokensOf(reference)).Some?
  {
    !Nowhere(Whole(fields), TokensOf(reference), Diverted)
  }

  /**
   Exactly which references to well-formed schemas carry their meaning over: the way there
   does not bend and the schema is treated as one in its place; or the reference is diverted
   and comes to a schema of the same translation.
   */
  lemma CarriedExact(fields: seq<Field>, reference: string)
    requires IsTranslated(fields) && Pointer(Obj(fields), reference).Some?
    requires WellFormed(Pointer(Obj(fields), reference).value)
    ensures IsPointer(reference) && Located(Whole(fields), TokensOf(reference)).Some?
    ensures Carried(fields, reference) <==>
      if IsDiverted(fields, reference) then Twins(fields, reference) else Steady(fields, reference)
  {
    ReferenceSurvives(fields, reference);
    if IsDiverted(fields, reference) {
      DivertedCarried(fields, reference);
    } else {
      if Steady(fields, reference) {
        SteadyIsCarried(fields, reference);
      }
      if Carried(fields, reference) {
        CarriedIsSteady(fields, reference);
      }
    }
  }

  lemma DivertedCarried(fields: seq<Field>, reference: string)
    requires IsTranslated(fields) && Pointer(Obj(fields), reference).Some?
    ensures Carried(fields, reference) <==> Twins(fields, reference)
  {
    ReferenceExact(fields, reference);
    if Carried(fields, reference) {
      var translated :| CarriesTo(fields, reference, translated);
      assert Canonical(Found(Landing(fields, reference).value).value) == Canonical(translated);
    }
    if Twins(fields, reference) {
      var translated :| TranslatesTo(Pointer(Obj(fields), reference).value, translated)
        && Canonical(Found(Landing(fields, reference).value).value) == Canonical(translated);
      assert CarriesTo(fields, reference, translated);
    }
  }

  lemma {:induction false} RootIsNoSchema(fields: seq<Field>)
    requires Lookup(fields, VERSION_KEY) == Some(Str("3.0.3"))
    ensures !WellFormed(Obj(fields))
  {
    if WellFormed(Obj(fields)) {
      WellFormedAt(fields, VERSION_KEY);
      assert false;
    }
  }

  lemma CarriedIsSteady(fields: seq<Field>, reference: string)
    requires IsTranslated(fields) && Carried(fields, reference)
    requires WellFormed(Pointer(Obj(fields), reference).value)
    requires IsPointer(reference) && Located(Whole(fields), TokensOf(reference)).Some?
    requires Nowhere(Whole(fields), TokensOf(reference), Diverted)
    ensures Steady(fields, reference)
  {
    var tokens := TokensOf(reference);
    LocatedExact(Whole(fields), tokens);
    RootIsNoSchema(fields);
    BelowRoot(Whole(fields), tokens);
    var At(role, schema, path) := Located(Whole(fields), tokens).value;
    var translated :| CarriesTo(fields, reference, translated);
    StampedKeyed(fields);
    ReferenceSurvives(fields, reference);
    ObjectStraight(Whole(fields), tokens);
    StraightReference(fields, reference, role, schema, path);
    CanonicalIdempotent(schema);
    match role
    case AsData => SameAsTranslation(schema, schema, translated);
    case AsIs => SameAsTranslation(schema, schema, translated);
    case AsDocument =>
      SameAsTranslation(schema, NormalizeDocument(schema, true, path).value, translated);
      MisplacedExact(schema, path);
    case _ =>
  }

  // ---------- the theorem for documents ----------

  /** What a set of references reads in a document. */
  function ReadFrom(document: Json, references: set<string>): Environment {
    map reference | reference in references && Pointer(document, reference).Some? :: Pointer(document, reference).value
  }

  ghost function TranslationAt(fields: seq<Field>, reference: string): Json
    requires Normalized(fields).Ok? && Carried(fields, reference)
  {
    var translated :| CarriesTo(fields, reference, translated);
    translated
  }

  ghost predicate AllCarried(fields: seq<Field>, references: set<string>)
    requires Normalized(fields).Ok?
  {
    forall reference :: reference in references ==>
      Carried(fields, reference) && WellFormed(Pointer(Obj(fields), reference).value)
  }

  /** The translations of what a set of references reads, before they are put in canonical form. */
  ghost function TranslationsOf(fields: seq<Field>, references: set<string>): Environment
    requires Normalized(fields).Ok? && AllCarried(fields, references)
  {
    map reference | reference in references :: TranslationAt(fields, reference)
  }

  lemma EnvironmentsCorrespond(fields: seq<Field>, references: set<string>)
    requires IsTranslated(fields) && AllCarried(fields, references)
    ensures SameEnvironment(ReadFrom(Obj(fields), references), TranslationsOf(fields, references))
    ensures KeyedEnvironment(TranslationsOf(fields, references))
    ensures CanonicalEnvironment(TranslationsOf(fields, references)) == ReadFrom(Normalized(fields).value, references)
  {
    var env, translations := ReadFrom(Obj(fields), references), TranslationsOf(fields, references);
    forall reference | reference in references
      ensures reference in env && WellFormed(env[reference])
      ensures IsTranslation(env[reference], translations[reference])
      ensures Keyed(translations[reference])
      ensures Pointer(Normalized(fields).value, reference) == Some(Canonical(translations[reference]))
    {
      EntryCorresponds(fields, reference);
    }
  }

  lemma EntryCorresponds(fields: seq<Field>, reference: string)
    requires IsTranslated(fields) && Carried(fields, reference)
    ensures CarriesTo(fields, reference, TranslationAt(fields, reference))
    ensures IsTranslation(Pointer(Obj(fields), reference).value, TranslationAt(fields, reference))
    ensures Keyed(TranslationAt(fields, reference))
  {
    var schema, translated := Pointer(Obj(fields), reference).value, TranslationAt(fields, reference);
    var path :| path != "" && NormalizeSchema(schema, true, path) == Ok(translated);
    if reference != "#" {
      NodeKeyed(Obj(fields), Split(reference[2..]));
    }
    SchemaKeyed(schema, true, path);
  }

  /**
   With the references of the schemas read from the document on both sides, and all of them
   carried over: what a schema of the document accepts under 3.0.3 is what the schema in its
   place in the normalised document accepts under 2020-12.
   */
  lemma {:induction false} DocumentMeaningPreserved(
    fields: seq<Field>, references: set<string>, leaf: Leaf, n: nat, reference: string, value: Json)
    requires IsTranslated(fields) && AllCarried(fields, references) && OrderBlind(leaf)
    requires reference in references
    ensures Pointer(Obj(fields), reference).Some? && Pointer(Normalized(fields).value, reference).Some?
    ensures
      var document, normalized := Obj(fields), Normalized(fields).value;
      Accepts(OpenApi303, leaf, ReadFrom(document, references), n, Pointer(document, reference).value, value)
      <==> Accepts(Draft2020, leaf, ReadFrom(normalized, references), n, Pointer(normalized, reference).value, value)
  {
    var env, translations := ReadFrom(Obj(fields), references), TranslationsOf(fields, references);
    EnvironmentsCorrespond(fields, references);
    EntryCorresponds(fields, reference);
    var schema, translated := Pointer(Obj(fields), reference).value, TranslationAt(fields, reference);
    var path :| path != "" && NormalizeSchema(schema, true, path) == Ok(translated);
    MeaningPreserved(leaf, env, translations, n, schema, path, value);
    CanonicalAccepts(Draft2020, leaf, translations, n, translated, value);
  }

  // ---------- component schemas ----------

  function ComponentReference(name: string): string {
    "#" + JsonPath(SchemaPath(name))
  }

  /** A reference to a whole component schema is always carried over. */
  lemma ComponentIsCarried(fields: seq<Field>, name: string, schema: Json)
    requires IsTranslated(fields) && IsComponent(fields, name, schema)
    ensures Pointer(Obj(fields), ComponentReference(name)) == Some(schema)
    ensures Carried(fields, ComponentReference(name))
  {
    ComponentSchema(fields, name, schema);
    CarriedBy(fields, ComponentReference(name), schema, "/components/schemas/" + name);
  }

  lemma {:induction false} CarriedBy(fields: seq<Field>, reference: string, schema: Json, path: string)
    requires Normalized(fields).Ok? && Pointer(Obj(fields), reference) == Some(schema)
    requires path != "" && NormalizeSchema(schema, true, path).Ok?
    requires Pointer(Normalized(fields).value, reference) == Some(Canonical(NormalizeSchema(schema, true, path).value))
    ensures Carried(fields, reference)
  {
    var translated := NormalizeSchema(schema, true, path).value;
    assert TranslatesTo(schema, translated);
    assert CarriesTo(fields, reference, translated);
  }

  ghost predicate AreComponents(fields: seq<Field>, names: set<string>) {
    forall name :: name in names ==> exists schema :: IsComponent(fields, name, schema) && WellFormed(schema)
  }

  function ComponentReferences(names: set<string>): set<string> {
    set name | name in names :: ComponentReference(name)
  }

  /** Where all references are to whole component schemas, no component changes its meaning. */
  lemma {:induction false} ComponentsKeepTheirMeaning(
    fields: seq<Field>, names: set<string>, leaf: Leaf, n: nat, name: string, value: Json)
    requires IsTranslated(fields) && AreComponents(fields, names) && OrderBlind(leaf) && name in names
    ensures
      var document, normalized, references := Obj(fields), Normalized(fields).value, ComponentReferences(names);
      && Pointer(document, ComponentReference(name)).Some? && Pointer(normalized, ComponentReference(name)).Some?
      && (Accepts(OpenApi303, leaf, ReadFrom(document, references), n, Pointer(document, ComponentReference(name)).value, value)
          <==> Accepts(Draft2020, leaf, ReadFrom(normalized, references), n,
                       Pointer(normalized, ComponentReference(name)).value, value))
  {
    forall reference | reference in ComponentReferences(names)
      ensures Carried(fields, reference) && WellFormed(Pointer(Obj(fields), reference).value)
    {
      var one :| one in names && reference == ComponentReference(one);
      var schema :| IsComponent(fields, one, schema) && WellFormed(schema);
      ComponentIsCarried(fields, one, schema);
    }
    assert ComponentReference(name) in ComponentReferences(names);
    DocumentMeaningPreserved(fields, ComponentReferences(names), leaf, n, ComponentReference(name), value);
  }

  // ---------- a meaning that is lost ----------

  lemma {:induction false} TextAccepts(leaf: Leaf, env: Environment, n: nat, text: string)
    ensures Accepts(OpenApi303, leaf, env, n, TEXT, Str(text))
  {
    OneFieldOnly(Field("type", Str("string")));
    OnlyField(Field("type", Str("string")), "nullable");
    ObjectAccepts(OpenApi303, leaf, env, n, TEXT.fields, Str(text));
  }

  /**
   The schema that refers to a property of a nullable schema without a type accepts text
   before the translation, and nothing after it.
   */
  lemma {:induction false} MeaningLost(names: Names, leaf: Leaf, text: string, n: nat, value: Json)
    requires names.parent != names.referrer
    ensures
      var fields, reference := SchemaDocument(ParentSchemas(names, TEXT, ParentReference(names))), ParentReference(names);
      var referrer := "#" + JsonPath(SchemaPath(names.referrer));
      && IsTranslated(fields)
      && Pointer(Obj(fields), referrer) == Pointer(Normalized(fields).value, referrer) == Some(Referrer(reference))
      && Accepts(OpenApi303, leaf, ReadFrom(Obj(fields), {reference}), 1, Referrer(reference), Str(text))
      && !Accepts(Draft2020, leaf, ReadFrom(Normalized(fields).value, {reference}), n, Referrer(reference), value)
  {
    var reference := ParentReference(names);
    var fields := SchemaDocument(ParentSchemas(names, TEXT, reference));
    ReferenceLost(names);
    ReferrerStays(fields, names.referrer, reference);
    var before, after := ReadFrom(Obj(fields), {reference}), ReadFrom(Normalized(fields).value, {reference});
    OnlyField(Field(REF, Str(reference)), REF);
    ReferenceAccepts(OpenApi303, leaf, before, 1, [Field(REF, Str(reference))], reference, Str(text));
    ReferenceAccepts(Draft2020, leaf, after, n, [Field(REF, Str(reference))], reference, value);
    TextAccepts(leaf, before, 0, text);
  }

  lemma ReferrerStays(fields: seq<Field>, name: string, reference: string)
    requires IsTranslated(fields) && IsComponent(fields, name, Referrer(reference))
    ensures var at := "#" + JsonPath(SchemaPath(name));
      Pointer(Obj(fields), at) == Pointer(Normalized(fields).value, at) == Some(Referrer(reference))
  {
    ComponentSchema(fields, name, Referrer(reference));
    OneScalar(REF, reference, "/components/schemas/" + name);
    var member := Field(REF, Str(reference));
    assert CanonicalFields([member]) == [member];
    SortedStays([member]);
  }
}
