/**
 What becomes of a reference.  The check that every `$ref` resolves reads the document
 before the translation, which then moves, drops and replaces nodes.
 */
module MovedReferences {
  import opened Prelude
  import opened Json
  import opened KeyOrder
  import opened SchemaNormaliser
  import opened CanonicalForm
  import opened KeywordKinds
  import opened SchemaMeaning
  import opened MeaningPreservation
  import opened SchemaResidue
  import opened JsonPointer
  import opened RefResolution
  import opened DocumentImage

  ghost predicate IsTranslated(fields: seq<Field>) {
    Keyed(Obj(fields)) && Lookup(fields, VERSION_KEY) == Some(Str("3.0.3")) && Normalized(fields).Ok?
  }

  predicate IsPointer(reference: string) {
    reference == "#" || (|reference| >= 2 && reference[0] == '#' && reference[1] == '/')
  }

  function TokensOf(reference: string): seq<string>
    requires IsPointer(reference)
  {
    if reference == "#" then [] else Split(reference[2..])
  }

  /** Where a reference leads in the normalised document. */
  function Landing(fields: seq<Field>, reference: string): Option<Position> {
    if IsPointer(reference) then Trail(Whole(fields), TokensOf(reference)) else None
  }

  /** Exactly what any reference finds in the normalised document. */
  lemma ReferenceExact(fields: seq<Field>, reference: string)
    requires IsTranslated(fields)
    ensures match Landing(fields, reference)
            case Some(p) => Found(p).Ok? && Pointer(Normalized(fields).value, reference) == Some(Canonical(Found(p).value))
            case None => Pointer(Normalized(fields).value, reference) == None
  {
    var whole := Whole(fields);
    StampedKeyed(fields);
    PointerCanonical(Found(whole).value, reference);
    if IsPointer(reference) {
      TrailExact(whole, TokensOf(reference));
    }
  }

  lemma StampedKeyed(fields: seq<Field>)
    requires IsTranslated(fields)
    ensures Found(Whole(fields)).Ok? && Keyed(Found(Whole(fields)).value)
    ensures Normalized(fields).value == Canonical(Found(Whole(fields)).value)
  {
    FieldsKeyed(OpenApiObject, fields, true, "");
    PutKeyed(NormalizeFields(OpenApiObject, fields, true, "").value, VERSION_KEY, Str("3.1.0"));
  }

  // ---------- the way of a reference through the source ----------

  predicate InSource(p: Position) {
    p.Whole? || p.At?
  }

  function SourceOf(p: Position): Json
    requires InSource(p)
  {
    match p case Whole(fields) => Obj(fields) case At(_, value, _) => value
  }

  function SourceStep(p: Position, token: string): Option<Position>
    requires InSource(p)
  {
    match p
    case Whole(fields) => Child(AsDocument, Obj(fields), "", token)
    case At(role, value, path) => Child(role, value, path, token)
  }

  /** The position of a node of the source, with the role it has there. */
  function Located(p: Position, tokens: seq<string>): Option<Position>
    requires InSource(p)
    decreases tokens
  {
    if |tokens| == 0 then Some(p)
    else match SourceStep(p, tokens[0]) case Some(q) => Located(q, tokens[1..]) case None => None
  }

  lemma {:induction false} LocatedExact(p: Position, tokens: seq<string>)
    requires InSource(p)
    ensures match Located(p, tokens)
            case Some(q) => InSource(q) && DescendAll(SourceOf(p), tokens) == Some(SourceOf(q))
            case None => DescendAll(SourceOf(p), tokens) == None
    decreases tokens
  {
    if |tokens| != 0 && SourceStep(p, tokens[0]).Some? {
      LocatedExact(SourceStep(p, tokens[0]).value, tokens[1..]);
    }
  }

  /** No step of the way is `bad`. */
  predicate Nowhere(p: Position, tokens: seq<string>, bad: (Position, seq<string>) -> bool)
    requires InSource(p) && Located(p, tokens).Some?
    decreases tokens
  {
    |tokens| == 0 || (!bad(p, tokens) && Nowhere(SourceStep(p, tokens[0]).value, tokens[1..], bad))
  }

  /** The step does not lead to the translation of what it leads to in the source. */
  predicate Bends(p: Position, tokens: seq<string>) {
    |tokens| > 0
    && var name := Unescape(tokens[0]);
       match p
       case Whole(_) => name == VERSION_KEY
       case At(AsSchema, Obj(fields), _) =>
         Wrapped(fields) || Gone(fields, name) || IsFlag(fields, name) || (Nullable(fields) && name == "type")
       case _ => false
  }

  /** The step goes into the `anyOf` of a schema that is itself put into an `anyOf`. */
  predicate Diverted(p: Position, tokens: seq<string>) {
    |tokens| > 0
    && match p
       case At(AsSchema, Obj(fields), _) => Wrapped(fields) && Unescape(tokens[0]) == "anyOf"
       case _ => false
  }

  predicate LeadsNowhere(fields: seq<Field>, name: string) {
    if Wrapped(fields) then name != "anyOf" else Gone(fields, name)
  }

  /**
   The step leads nowhere: any other way into a wrapped schema, a keyword that is gone, or
   an entry of a `type` array beyond what is left of the array without repetitions.
   */
  predicate Blocked(p: Position, tokens: seq<string>) {
    |tokens| > 0
    && var name := Unescape(tokens[0]);
       match p
       case At(AsSchema, Obj(fields), _) =>
         || LeadsNowhere(fields, name)
         || (Nullable(fields) && !Wrapped(fields) && name == "type" && |tokens| > 1 && Beyond(fields, tokens[1]))
       case _ => false
  }

  predicate Beyond(fields: seq<Field>, token: string) {
    match Lookup(fields, "type")
    case Some(Arr(names)) => IsDigits(Unescape(token)) && ParseNat(Unescape(token)) >= |Distinct(names + [Str("null")])|
    case _ => false
  }

  /** A way that does not bend leads to the translation of the node it leads to in the source. */
  lemma {:induction false} StraightTrail(p: Position, tokens: seq<string>)
    requires InSource(p) && Located(p, tokens).Some? && Nowhere(p, tokens, Bends)
    ensures Trail(p, tokens) == Located(p, tokens)
    decreases tokens
  {
    if |tokens| != 0 {
      assert !Bends(p, tokens);
      assert Moved(p, tokens[0]) == SourceStep(p, tokens[0]);
      StraightTrail(SourceStep(p, tokens[0]).value, tokens[1..]);
    }
  }

  /** A scalar ends a way. */
  lemma {:induction false} ScalarEnds(p: Position, tokens: seq<string>)
    requires InSource(p) && Located(p, tokens).Some? && !SourceOf(p).Obj? && !SourceOf(p).Arr?
    ensures tokens == []
  {
  }

  lemma {:induction false} FlagEnds(p: Position, tokens: seq<string>)
    requires p.At? && p.role == AsSchema && p.value.Obj? && Sourced(p) && Found(p).Ok?
    requires |tokens| > 0 && Located(p, tokens).Some?
    requires !Wrapped(p.value.fields) && IsFlag(p.value.fields, Unescape(tokens[0]))
    ensures Trail(p, tokens).Some? && tokens[1..] == []
  {
    var fields, name := p.value.fields, Unescape(tokens[0]);
    SchemaShape(fields, p.path);
    BoundedAt(fields, p.path, name);
    ScalarEnds(SourceStep(p, tokens[0]).value, tokens[1..]);
    assert Gone(fields, name) == false;
    assert Moved(p, tokens[0]) == Some(Made(Lookup(fields, BoundOf(name)).value));
  }

  lemma {:induction false} ScalarListEnds(role: Role, items: seq<Json>, path: string, tokens: seq<string>)
    requires Hashable(items) && Located(At(role, Arr(items), path), tokens).Some?
    ensures |tokens| <= 1
    ensures |tokens| == 1 ==> IsDigits(Unescape(tokens[0]))
  {
    if |tokens| > 0 {
      ScalarEnds(SourceStep(At(role, Arr(items), path), tokens[0]).value, tokens[1..]);
    }
  }

  lemma {:induction false} MadeTrail(made: Json, tokens: seq<string>)
    requires |tokens| <= 1
    ensures Trail(Made(made), tokens).Some? <==> |tokens| == 0 || Descend(made, tokens[0]).Some?
  {
  }

  lemma {:induction false} TypeEnds(p: Position, tokens: seq<string>)
    requires p.At? && p.role == AsSchema && p.value.Obj? && Sourced(p) && Found(p).Ok?
    requires |tokens| > 0 && Located(p, tokens).Some?
    requires Nullable(p.value.fields) && !Wrapped(p.value.fields) && Unescape(tokens[0]) == "type"
    ensures Trail(p, tokens).Some? <==> !(|tokens| > 1 && Beyond(p.value.fields, tokens[1]))
    ensures |tokens| <= 2
  {
    var fields, next := p.value.fields, SourceStep(p, tokens[0]).value;
    SchemaShape(fields, p.path);
    var item := Lookup(fields, "type").value;
    assert next.value == item;
    assert Moved(p, tokens[0]) == Some(Made(NullableType(item)));
    assert item.Str? || item.Arr?;
    if item.Str? {
      ScalarEnds(next, tokens[1..]);
    } else {
      ScalarListEnds(next.role, item.items, next.path, tokens[1..]);
    }
    MadeTrail(NullableType(item), tokens[1..]);
  }

  lemma SourceStepSound(p: Position, token: string)
    requires InSource(p) && Sourced(p) && Found(p).Ok? && SourceStep(p, token).Some? && !Bends(p, [token])
    ensures var q := SourceStep(p, token).value; InSource(q) && Sourced(q) && Found(q).Ok?
  {
    assert Moved(p, token) == SourceStep(p, token);
    StepAgrees(p, token);
    StepSourced(p, token);
  }

  /** What a reference finds in the list put around a schema: the schema itself, or the null schema. */
  predicate SurvivesInPair(schema: seq<Field>, path: string, tokens: seq<string>) {
    |tokens| == 0
    || (var name := Unescape(tokens[0]);
        IsDigits(name)
        && (|| (ParseNat(name) == 0 && Trail(Inner(schema, path), tokens[1..]).Some?)
            || (ParseNat(name) == 1 && DescendAll(NULL_SCHEMA, tokens[1..]).Some?)))
  }

  /** No step of the way is blocked, and after a diversion the rest leads somewhere where it has come. */
  predicate Survives(p: Position, tokens: seq<string>)
    requires InSource(p) && Located(p, tokens).Some?
    decreases tokens
  {
    |tokens| == 0
    || (if Diverted(p, tokens) then SurvivesInPair(p.value.fields, p.path, tokens[1..])
        else !Blocked(p, tokens) && Survives(SourceStep(p, tokens[0]).value, tokens[1..]))
  }

  lemma {:induction false} Undiverted(p: Position, tokens: seq<string>)
    requires InSource(p) && Located(p, tokens).Some? && Nowhere(p, tokens, Diverted)
    ensures Survives(p, tokens) <==> Nowhere(p, tokens, Blocked)
    decreases tokens
  {
    if |tokens| != 0 {
      assert !Diverted(p, tokens);
      Undiverted(SourceStep(p, tokens[0]).value, tokens[1..]);
    }
  }

  lemma {:induction false} MadeFinds(made: Json, tokens: seq<string>)
    ensures Trail(Made(made), tokens).Some? <==> DescendAll(made, tokens).Some?
    decreases tokens
  {
    if |tokens| != 0 && Descend(made, tokens[0]).Some? {
      MadeFinds(Descend(made, tokens[0]).value, tokens[1..]);
    }
  }

  lemma {:induction false} PairFinds(schema: seq<Field>, path: string, tokens: seq<string>)
    ensures Trail(Pair(schema, path), tokens).Some? <==> SurvivesInPair(schema, path, tokens)
  {
    if |tokens| > 0 {
      MadeFinds(NULL_SCHEMA, tokens[1..]);
    }
  }

  lemma WrappedMove(schema: seq<Field>, path: string, token: string)
    requires Wrapped(schema) && Unescape(token) == "anyOf"
    ensures Moved(At(AsSchema, Obj(schema), path), token) == Some(Pair(schema, path))
  {
  }

  lemma {:induction false} OneMove(p: Position, q: Position, tokens: seq<string>)
    requires |tokens| > 0 && Moved(p, tokens[0]) == Some(q)
    ensures Trail(p, tokens) == Trail(q, tokens[1..])
  {
  }

  lemma {:induction false} DivertedSurvives(schema: seq<Field>, path: string, tokens: seq<string>)
    requires |tokens| > 0 && Wrapped(schema) && Unescape(tokens[0]) == "anyOf"
    ensures Trail(At(AsSchema, Obj(schema), path), tokens).Some? <==> SurvivesInPair(schema, path, tokens[1..])
  {
    WrappedMove(schema, path, tokens[0]);
    OneMove(At(AsSchema, Obj(schema), path), Pair(schema, path), tokens);
    PairFinds(schema, path, tokens[1..]);
  }

  /** A reference that resolves before the translation resolves after it exactly when it survives. */
  lemma {:induction false} SurvivesExact(p: Position, tokens: seq<string>)
    requires InSource(p) && Sourced(p) && Found(p).Ok?
    requires p.Whole? ==> Lookup(p.fields, VERSION_KEY) == Some(Str("3.0.3"))
    requires Located(p, tokens).Some?
    ensures Trail(p, tokens).Some? <==> Survives(p, tokens)
    decreases tokens
  {
    if |tokens| != 0 {
      if Diverted(p, tokens) {
        DivertedSurvives(p.value.fields, p.path, tokens);
      } else if Bends(p, [tokens[0]]) {
        BendSurvives(p, tokens);
        BendEnds(p, tokens);
      } else {
        SourceStepSound(p, tokens[0]);
        SurvivesExact(SourceStep(p, tokens[0]).value, tokens[1..]);
        assert Moved(p, tokens[0]) == SourceStep(p, tokens[0]);
        assert !Blocked(p, tokens);
      }
    }
  }

  /** After a bend that is not blocked there is one more step at most, and no other bend. */
  lemma {:induction false} BendEnds(p: Position, tokens: seq<string>)
    requires InSource(p) && Sourced(p) && Found(p).Ok?
    requires p.Whole? ==> Lookup(p.fields, VERSION_KEY) == Some(Str("3.0.3"))
    requires Located(p, tokens).Some? && |tokens| > 0 && Bends(p, [tokens[0]]) && !Diverted(p, tokens)
    ensures Survives(p, tokens) <==> Nowhere(p, tokens, Blocked)
  {
    if !Blocked(p, tokens) {
      var next := SourceStep(p, tokens[0]).value;
      ShortAfterBend(p, tokens);
      assert |tokens| == 2 ==> !Diverted(next, tokens[1..]) && tokens[1..][1..] == [];
      Undiverted(next, tokens[1..]);
    }
  }

  lemma {:induction false} ShortAfterBend(p: Position, tokens: seq<string>)
    requires InSource(p) && Sourced(p) && Found(p).Ok?
    requires p.Whole? ==> Lookup(p.fields, VERSION_KEY) == Some(Str("3.0.3"))
    requires Located(p, tokens).Some? && |tokens| > 0 && Bends(p, [tokens[0]])
    requires !Diverted(p, tokens) && !Blocked(p, tokens)
    ensures |tokens| <= 2
    ensures |tokens| == 2 ==> var next := SourceStep(p, tokens[0]).value; next.At? && next.role != AsSchema
  {
    if p.Whole? {
      ScalarEnds(SourceStep(p, tokens[0]).value, tokens[1..]);
    } else if Nullable(p.value.fields) && Unescape(tokens[0]) == "type" {
      TypeEnds(p, tokens);
      TypeRole(p.value.fields, p.path, tokens[0]);
    } else {
      FlagEnds(p, tokens);
    }
  }

  lemma TypeRole(fields: seq<Field>, path: string, token: string)
    requires Unescape(token) == "type" && Child(AsSchema, Obj(fields), path, token).Some?
    ensures Child(AsSchema, Obj(fields), path, token).value.role == AsDocument
  {
    assert KindOf("type") == OtherKeyword;
  }

  lemma {:induction false} BendSurvives(p: Position, tokens: seq<string>)
    requires InSource(p) && Sourced(p) && Found(p).Ok?
    requires p.Whole? ==> Lookup(p.fields, VERSION_KEY) == Some(Str("3.0.3"))
    requires Located(p, tokens).Some? && |tokens| > 0 && Bends(p, [tokens[0]]) && !Diverted(p, tokens)
    ensures Trail(p, tokens).Some? <==> Nowhere(p, tokens, Blocked)
  {
    if p.Whole? {
      ScalarEnds(SourceStep(p, tokens[0]).value, tokens[1..]);
    } else {
      var fields, name := p.value.fields, Unescape(tokens[0]);
      if Wrapped(fields) || Gone(fields, name) {
        BlockedEnds(fields, p.path, tokens);
      } else if Nullable(fields) && name == "type" {
        TypeBends(p, tokens);
      } else {
        FlagEnds(p, tokens);
        FlagOpen(fields, p.path, tokens);
      }
    }
  }

  lemma NoStep(fields: seq<Field>, path: string, token: string)
    requires LeadsNowhere(fields, Unescape(token))
    ensures Moved(At(AsSchema, Obj(fields), path), token) == None
  {
    assert !Gone(fields, "type");
  }

  lemma {:induction false} BlockedEnds(fields: seq<Field>, path: string, tokens: seq<string>)
    requires |tokens| > 0 && Located(At(AsSchema, Obj(fields), path), tokens).Some?
    requires LeadsNowhere(fields, Unescape(tokens[0]))
    ensures Trail(At(AsSchema, Obj(fields), path), tokens) == None
    ensures !Nowhere(At(AsSchema, Obj(fields), path), tokens, Blocked)
  {
    NoStep(fields, path, tokens[0]);
    assert Blocked(At(AsSchema, Obj(fields), path), tokens);
  }

  lemma {:induction false} FlagOpen(fields: seq<Field>, path: string, tokens: seq<string>)
    requires |tokens| > 0 && tokens[1..] == [] && Located(At(AsSchema, Obj(fields), path), tokens).Some?
    requires !Wrapped(fields) && !Gone(fields, Unescape(tokens[0]))
    ensures Nowhere(At(AsSchema, Obj(fields), path), tokens, Blocked)
  {
    assert !Blocked(At(AsSchema, Obj(fields), path), tokens);
  }

  lemma {:induction false} TypeBends(p: Position, tokens: seq<string>)
    requires p.At? && p.role == AsSchema && p.value.Obj? && Sourced(p) && Found(p).Ok?
    requires |tokens| > 0 && Located(p, tokens).Some?
    requires Nullable(p.value.fields) && !Wrapped(p.value.fields) && Unescape(tokens[0]) == "type"
    ensures Trail(p, tokens).Some? <==> Nowhere(p, tokens, Blocked)
  {
    TypeEnds(p, tokens);
    if |tokens| > 1 && !Blocked(p, tokens) {
      LastStep(SourceStep(p, tokens[0]).value, tokens[1..]);
    }
  }

  /** The one step left after a `type` array is into a list, where nothing is blocked. */
  lemma {:induction false} LastStep(p: Position, tokens: seq<string>)
    requires p.At? && p.role != AsSchema && |tokens| == 1 && Located(p, tokens).Some?
    ensures Nowhere(p, tokens, Blocked)
  {
    assert !Blocked(p, tokens);
    assert tokens[1..] == [];
  }

  /** Every reference that resolves in a 3.0.3 document: exactly when it still does, diverted or not. */
  lemma ReferenceSurvives(fields: seq<Field>, reference: string)
    requires IsTranslated(fields) && Pointer(Obj(fields), reference).Some?
    ensures IsPointer(reference) && Located(Whole(fields), TokensOf(reference)).Some?
    ensures Pointer(Normalized(fields).value, reference).Some? <==> Survives(Whole(fields), TokensOf(reference))
    ensures Nowhere(Whole(fields), TokensOf(reference), Diverted) ==>
      (Survives(Whole(fields), TokensOf(reference)) <==> Nowhere(Whole(fields), TokensOf(reference), Blocked))
  {
    LocatedExact(Whole(fields), TokensOf(reference));
    ReferenceExact(fields, reference);
    SurvivesExact(Whole(fields), TokensOf(reference));
    if Nowhere(Whole(fields), TokensOf(reference), Diverted) {
      Undiverted(Whole(fields), TokensOf(reference));
    }
  }

  // ---------- component schemas ----------

  /** The way `_json_path` writes a path is read back as its tokens. */
  lemma {:induction false} PathTokens(path: seq<Step>)
    requires |path| > 0
    ensures IsPointer("#" + JsonPath(path)) && TokensOf("#" + JsonPath(path)) == Tokens(path)
  {
    TokensHaveNoSlash(path);
    SplitJoin(Tokens(path));
    PointerText("#" + JsonPath(path), Join(Tokens(path)));
  }

  lemma {:induction false} PointerText(reference: string, text: string)
    requires reference == "#" + ("/" + text)
    ensures IsPointer(reference) && TokensOf(reference) == Split(text)
  {
    assert reference[2..] == text;
  }

  lemma {:induction false} TokensHaveNoSlash(path: seq<Step>)
    ensures forall i :: 0 <= i < |path| ==> '/' !in Tokens(path)[i]
  {
    if |path| != 0 {
      EscapeRoundTrip(match path[0] case Key(name) => name case Index(index) => Decimal(index));
      TokensHaveNoSlash(path[1..]);
    }
  }

  function SchemaPath(name: string): seq<Step> {
    [Key("components"), Key("schemas"), Key(name)]
  }

  predicate IsComponent(fields: seq<Field>, name: string, schema: Json) {
    match Lookup(fields, "components")
    case Some(Obj(components)) =>
      (match Lookup(components, "schemas")
       case Some(Obj(schemas)) => Lookup(schemas, name) == Some(schema)
       case _ => false)
    case _ => false
  }

  /** One straight step in front of a straight way. */
  lemma {:induction false} StraightStep(p: Position, q: Position, r: Position, tokens: seq<string>)
    requires InSource(p) && InSource(q) && |tokens| > 0
    requires SourceStep(p, tokens[0]) == Some(q) && !Bends(p, tokens)
    requires Located(q, tokens[1..]) == Some(r) && Nowhere(q, tokens[1..], Bends)
    ensures Located(p, tokens) == Some(r) && Nowhere(p, tokens, Bends)
  {
  }

  /** The three steps of the way to a component schema, last one first. */
  lemma {:induction false} LastLeg(schemas: seq<Field>, name: string, schema: Json, tokens: seq<string>)
    requires Lookup(schemas, name) == Some(schema) && tokens == [Escape(name)]
    ensures var second := At(AsSchemaMap, Obj(schemas), "/components/schemas");
      Located(second, tokens) == Some(At(AsSchema, schema, "/components/schemas/" + name)) && Nowhere(second, tokens, Bends)
  {
    var second, third := At(AsSchemaMap, Obj(schemas), "/components/schemas"), At(AsSchema, schema, "/components/schemas/" + name);
    EscapeRoundTrip(name);
    ThirdStep(schemas, tokens[0], name, schema);
    NoBend(second, tokens);
    assert tokens[1..] == [];
    StraightStep(second, third, third, tokens);
  }

  lemma {:induction false} MiddleLeg(components: seq<Field>, schemas: seq<Field>, name: string, schema: Json, tokens: seq<string>)
    requires Lookup(components, "schemas") == Some(Obj(schemas))
    requires Lookup(schemas, name) == Some(schema) && tokens == [Escape("schemas"), Escape(name)]
    ensures var first := At(AsDocument, Obj(components), "/components");
      Located(first, tokens) == Some(At(AsSchema, schema, "/components/schemas/" + name)) && Nowhere(first, tokens, Bends)
  {
    var first, second := At(AsDocument, Obj(components), "/components"), At(AsSchemaMap, Obj(schemas), "/components/schemas");
    EscapeRoundTrip("schemas");
    SecondStep(components, tokens[0], Obj(schemas));
    NoBend(first, tokens);
    LastLeg(schemas, name, schema, tokens[1..]);
    StraightStep(first, second, At(AsSchema, schema, "/components/schemas/" + name), tokens);
  }

  /** Where a component schema stands: the way to it is straight. */
  lemma ComponentPosition(fields: seq<Field>, name: string, schema: Json)
    requires IsComponent(fields, name, schema)
    ensures var tokens := Tokens(SchemaPath(name));
      && Located(Whole(fields), tokens) == Some(At(AsSchema, schema, "/components/schemas/" + name))
      && Nowhere(Whole(fields), tokens, Bends)
  {
    var tokens := Tokens(SchemaPath(name));
    var components := Lookup(fields, "components").value;
    var first := At(AsDocument, components, "/components");
    ThreeTokens(SchemaPath(name));
    EscapeRoundTrip("components");
    FirstStep(fields, tokens[0], components);
    NoBend(Whole(fields), tokens);
    MiddleLeg(components.fields, Lookup(components.fields, "schemas").value.fields, name, schema, tokens[1..]);
    StraightStep(Whole(fields), first, At(AsSchema, schema, "/components/schemas/" + name), tokens);
  }

  lemma NoBend(p: Position, tokens: seq<string>)
    requires |tokens| > 0
    requires if p.Whole? then Unescape(tokens[0]) != VERSION_KEY else p.At? && p.role != AsSchema
    ensures !Bends(p, tokens)
  {
  }

  lemma {:induction false} ThirdStep(fields: seq<Field>, token: string, name: string, schema: Json)
    requires Unescape(token) == name && Lookup(fields, name) == Some(schema)
    ensures SourceStep(At(AsSchemaMap, Obj(fields), "/components/schemas"), token)
      == Some(At(AsSchema, schema, "/components/schemas/" + name))
  {
    assert "/components/schemas" + "/" + name == "/components/schemas/" + name;
  }

  lemma {:induction false} FirstStep(fields: seq<Field>, token: string, components: Json)
    requires Unescape(token) == "components" && Lookup(fields, "components") == Some(components)
    ensures SourceStep(Whole(fields), token) == Some(At(AsDocument, components, "/components"))
  {
    assert "" + "/" + "components" == "/components";
    assert !IsDocumentData("components");
  }

  lemma {:induction false} SecondStep(fields: seq<Field>, token: string, schemas: Json)
    requires Unescape(token) == "schemas" && Lookup(fields, "schemas") == Some(schemas) && schemas.Obj?
    ensures SourceStep(At(AsDocument, Obj(fields), "/components"), token)
      == Some(At(AsSchemaMap, schemas, "/components/schemas"))
  {
    assert "/components" + "/" + "schemas" == "/components/schemas";
  }

  lemma {:induction false} ThreeTokens(path: seq<Step>)
    requires |path| == 3
    ensures Tokens(path) == [Token(path[0]), Token(path[1]), Token(path[2])]
  {
    assert path[1..][1..] == [path[2]] && path[1..][0] == path[1];
    assert Tokens([path[2]]) == [Token(path[2])];
  }

  /** A straight way: what stands at the end of it, before and after. */
  lemma {:induction false} StraightReference(fields: seq<Field>, reference: string, role: Role, value: Json, path: string)
    requires IsTranslated(fields) && IsPointer(reference)
    requires Located(Whole(fields), TokensOf(reference)) == Some(At(role, value, path))
    requires Nowhere(Whole(fields), TokensOf(reference), Bends)
    ensures Pointer(Obj(fields), reference) == Some(value) && Keyed(value)
    ensures Image(role, value, path).Ok?
    ensures Pointer(Normalized(fields).value, reference) == Some(Canonical(Image(role, value, path).value))
  {
    var tokens := TokensOf(reference);
    LocatedExact(Whole(fields), tokens);
    NodeKeyed(Obj(fields), tokens);
    StraightTrail(Whole(fields), tokens);
    ReferenceExact(fields, reference);
  }

  /** The pointer to a component schema finds the canonical form of its translation. */
  lemma {:induction false} ComponentSchema(fields: seq<Field>, name: string, schema: Json)
    requires IsTranslated(fields) && IsComponent(fields, name, schema)
    ensures var reference := "#" + JsonPath(SchemaPath(name));
      var translation := NormalizeSchema(schema, true, "/components/schemas/" + name);
      && Pointer(Obj(fields), reference) == Some(schema)
      && translation.Ok?
      && Pointer(Normalized(fields).value, reference) == Some(Canonical(translation.value))
  {
    PathTokens(SchemaPath(name));
    ComponentPosition(fields, name, schema);
    StraightReference(fields, "#" + JsonPath(SchemaPath(name)), AsSchema, schema, "/components/schemas/" + name);
  }

  // ---------- nodes below a nullable component without a type ----------

  lemma {:induction false} TrailPrefix(p: Position, tokens: seq<string>, n: nat)
    requires n <= |tokens|
    ensures Trail(p, tokens) == match Trail(p, tokens[..n]) case Some(q) => Trail(q, tokens[n..]) case None => None
    decreases n
  {
    if n != 0 {
      assert tokens[..n][1..] == tokens[1..][..n - 1];
      assert tokens[n..] == tokens[1..][n - 1..];
      if Moved(p, tokens[0]).Some? {
        TrailPrefix(Moved(p, tokens[0]).value, tokens[1..], n - 1);
      }
    } else {
      assert tokens[0..] == tokens;
    }
  }

  lemma {:induction false} TokensPrefix(path: seq<Step>, n: nat)
    requires n <= |path|
    ensures Tokens(path)[..n] == Tokens(path[..n]) && Tokens(path)[n..] == Tokens(path[n..])
  {
    if n != 0 {
      TokensPrefix(path[1..], n - 1);
      assert path[..n][1..] == path[1..][..n - 1] && path[n..] == path[1..][n - 1..];
      assert Tokens(path)[..n] == [Token(path[0])] + Tokens(path[1..])[..n - 1];
      assert Tokens(path)[n..] == Tokens(path[1..])[n - 1..];
    } else {
      assert path[..0] == [] && path[0..] == path && Tokens(path)[0..] == Tokens(path);
    }
  }

  lemma {:induction false} WrappedStep(schema: seq<Field>, path: string, tokens: seq<string>)
    requires Wrapped(schema) && |tokens| > 0 && Unescape(tokens[0]) != "anyOf"
    ensures Trail(At(AsSchema, Obj(schema), path), tokens) == None
  {
  }

  /** Every reference into such a component is lost, unless it enters the component's own `anyOf`. */
  lemma WrappedComponent(fields: seq<Field>, name: string, schema: seq<Field>, below: seq<Step>)
    requires IsTranslated(fields) && IsComponent(fields, name, Obj(schema)) && Wrapped(schema)
    requires |below| > 0 && below[0] != Key("anyOf") && below[0].Key?
    ensures Pointer(Normalized(fields).value, "#" + JsonPath(SchemaPath(name) + below)) == None
  {
    var path := SchemaPath(name) + below;
    PathTokens(path);
    TokensPrefix(path, 3);
    assert path[..3] == SchemaPath(name) && path[3..] == below;
    EscapeRoundTrip(below[0].name);
    ComponentPosition(fields, name, Obj(schema));
    StraightTrail(Whole(fields), Tokens(path)[..3]);
    TrailPrefix(Whole(fields), Tokens(path), 3);
    WrappedStep(schema, "/components/schemas/" + name, Tokens(below));
    ReferenceExact(fields, "#" + JsonPath(path));
  }

  /** A document of component schemas only. */
  function SchemaDocument(schemas: seq<Field>): seq<Field> {
    [Field(VERSION_KEY, Str("3.0.3")), Field("components", Obj([Field("schemas", Obj(schemas))]))]
  }

  lemma {:induction false} OneKept(holder: Holder, field: Field, path: string, result: Json)
    requires !Dropped(holder, field.key, true) && NormalizeField(holder, field, true, path) == Ok(result)
    ensures NormalizeFields(holder, [field], true, path) == Ok([Field(field.key, result)])
  {
    assert [field][1..] == [];
    assert NormalizeFields(holder, [field][1..], true, path) == Ok([]);
    assert [Field(field.key, result)] + [] == [Field(field.key, result)];
  }

  lemma {:induction false} TwoKept(holder: Holder, first: Field, second: Field, path: string, result: Json, other: Json)
    requires !Dropped(holder, first.key, true) && NormalizeField(holder, first, true, path) == Ok(result)
    requires !Dropped(holder, second.key, true) && NormalizeField(holder, second, true, path) == Ok(other)
    ensures NormalizeFields(holder, [first, second], true, path) == Ok([Field(first.key, result), Field(second.key, other)])
  {
    OneKept(holder, second, path, other);
    assert [first, second][1..] == [second];
    assert [Field(first.key, result)] + [Field(second.key, other)] == [Field(first.key, result), Field(second.key, other)];
  }

  lemma TwoLookups(first: Field, second: Field)
    requires first.key != second.key
    ensures UniqueKeys([first, second])
    ensures Lookup([first, second], first.key) == Some(first.value) && Lookup([first, second], second.key) == Some(second.value)
    ensures forall key :: key != first.key && key != second.key ==> Lookup([first, second], key) == None
  {
    LookupAt([first, second], 0);
    LookupAt([first, second], 1);
  }

  lemma {:induction false} SchemaDocumentTranslates(schemas: seq<Field>, path: string)
    requires path == "/components" + "/" + "schemas" && Keyed(Obj(schemas))
    requires NormalizeFields(SchemaMap, schemas, true, path).Ok?
    ensures IsTranslated(SchemaDocument(schemas))
  {
    var results := NormalizeFields(SchemaMap, schemas, true, path).value;
    var inside := Field("schemas", Obj(schemas));
    assert NormalizeMember(inside, true, "/components") == Ok(Obj(results));
    OneKept(OpenApiObject, inside, "/components", Obj(results));
    VersionAndComponents(Obj([inside]), Obj([Field("schemas", Obj(results))]));
    assert Keyed(Obj([inside]));
  }

  lemma {:induction false} VersionAndComponents(components: Json, result: Json)
    requires NormalizeDocument(components, true, "/components") == Ok(result)
    ensures var fields := [Field(VERSION_KEY, Str("3.0.3")), Field("components", components)];
      && Normalized(fields).Ok? && UniqueKeys(fields) && Lookup(fields, VERSION_KEY) == Some(Str("3.0.3"))
  {
    var version, field := Field(VERSION_KEY, Str("3.0.3")), Field("components", components);
    assert "" + "/" + "components" == "/components";
    assert NormalizeMember(field, true, "") == Ok(result) by {
      assert !IsDocumentData("components");
    }
    assert NormalizeMember(version, true, "") == Ok(Str("3.0.3")) by {
      assert !IsDocumentData(VERSION_KEY);
    }
    TwoKept(OpenApiObject, version, field, "", Str("3.0.3"), result);
    TwoLookups(version, field);
  }

  lemma {:induction false} OneSchemaTranslates(name: string, schema: Json, path: string)
    requires Keyed(schema) && path == "/components" + "/" + "schemas"
    requires NormalizeSchema(schema, true, path + "/" + name).Ok?
    ensures IsTranslated(SchemaDocument([Field(name, schema)]))
  {
    OneKept(SchemaMap, Field(name, schema), path, NormalizeSchema(schema, true, path + "/" + name).value);
    OneSchemaKeyed(name, schema);
    SchemaDocumentTranslates([Field(name, schema)], path);
  }

  lemma {:induction false} OneSchemaKeyed(name: string, schema: Json)
    requires Keyed(schema)
    ensures Keyed(Obj([Field(name, schema)]))
  {
  }

  lemma {:induction false} SchemaDocumentComponent(schemas: seq<Field>, name: string, schema: Json)
    requires Lookup(schemas, name) == Some(schema)
    ensures IsComponent(SchemaDocument(schemas), name, schema)
  {
    TwoLookups(Field(VERSION_KEY, Str("3.0.3")), Field("components", Obj([Field("schemas", Obj(schemas))])));
    OnlyField(Field("schemas", Obj(schemas)), "schemas");
  }

  /** The names of two schemas, and of a property of the first. */
  datatype Names = Names(parent: string, referrer: string, property: string)

  /** A nullable schema with one property and no type. */
  function Parent(names: Names, plain: Json): seq<Field> {
    [Field("nullable", Bool(true)), Field("properties", Obj([Field(names.property, plain)]))]
  }

  function Referrer(reference: string): Json {
    Obj([Field(REF, Str(reference))])
  }

  /** One schema refers to the property of the other. */
  function ParentSchemas(names: Names, plain: Json, reference: string): seq<Field> {
    [Field(names.parent, Obj(Parent(names, plain))), Field(names.referrer, Referrer(reference))]
  }

  function PropertyPath(names: Names): seq<Step> {
    [Key("properties"), Key(names.property)]
  }

  function ParentReference(names: Names): string {
    "#" + JsonPath(SchemaPath(names.parent) + PropertyPath(names))
  }

  lemma {:induction false} OneScalar(key: string, text: string, path: string)
    requires key == "type" || key == REF
    ensures NormalizeSchema(Obj([Field(key, Str(text))]), true, path) == Ok(Obj([Field(key, Str(text))]))
  {
    var field := Field(key, Str(text));
    assert NormalizeKeyword(field, true, path + "/" + key) == Ok(Str(text)) by {
      assert !IsSchemaData(key);
    }
    OneKept(SchemaObject, field, path, Str(text));
    OnlyField(field, "nullable");
    OnlyField(field, "exclusiveMinimum");
    OnlyField(field, "exclusiveMaximum");
  }

  lemma {:induction false} ParentTranslates(names: Names, plain: Json, path: string)
    requires NormalizeSchema(plain, true, path + "/" + "properties" + "/" + names.property) == Ok(plain)
    ensures NormalizeSchema(Obj(Parent(names, plain)), true, path).Ok?
  {
    var properties := Field("properties", Obj([Field(names.property, plain)]));
    var childPath := path + "/" + "properties";
    OneKept(SchemaMap, Field(names.property, plain), childPath, plain);
    assert NormalizeKeyword(properties, true, childPath) == Ok(properties.value) by {
      assert !IsSchemaData("properties");
    }
    OneKept(SchemaObject, properties, path, properties.value);
    assert Parent(names, plain)[1..] == [properties];
    assert NormalizeFields(SchemaObject, Parent(names, plain), true, path) == Ok([properties]);
    TwoLookups(Field("nullable", Bool(true)), properties);
    OnlyField(properties, "type");
  }

  lemma {:induction false} ParentSchemasTranslate(names: Names, plain: Json, reference: string, path: string)
    requires NormalizeSchema(plain, true, path + "/" + names.parent + "/" + "properties" + "/" + names.property) == Ok(plain)
    ensures NormalizeFields(SchemaMap, ParentSchemas(names, plain, reference), true, path).Ok?
  {
    var parent, referrer := Obj(Parent(names, plain)), Referrer(reference);
    ParentTranslates(names, plain, path + "/" + names.parent);
    OneScalar(REF, reference, path + "/" + names.referrer);
    TwoKept(SchemaMap, Field(names.parent, parent), Field(names.referrer, referrer), path,
            NormalizeSchema(parent, true, path + "/" + names.parent).value, referrer);
  }

  lemma {:induction false} ParentSchemasKeyed(names: Names, plain: Json, reference: string)
    requires names.parent != names.referrer && Keyed(plain)
    ensures Keyed(Obj(ParentSchemas(names, plain, reference)))
  {
    var parent, b := Obj(Parent(names, plain)), Referrer(reference);
    TwoLookups(Field(names.parent, parent), Field(names.referrer, b));
    TwoLookups(Field("nullable", Bool(true)), Field("properties", Obj([Field(names.property, plain)])));
    assert Keyed(Obj([Field(names.property, plain)]));
    assert Keyed(parent);
    assert Keyed(b);
  }

  lemma {:induction false} FollowKey(fields: seq<Field>, path: seq<Step>, name: string, child: Json)
    requires |path| > 0 && path[0] == Key(name) && Lookup(fields, name) == Some(child)
    ensures Follow(Obj(fields), path) == Follow(child, path[1..])
  {
  }

  lemma {:induction false} ComponentFollowed(fields: seq<Field>, name: string, schema: Json, below: seq<Step>)
    requires IsComponent(fields, name, schema)
    ensures Follow(Obj(fields), SchemaPath(name) + below) == Follow(schema, below)
  {
    var path := SchemaPath(name) + below;
    var components := Lookup(fields, "components").value;
    var schemas := Lookup(components.fields, "schemas").value;
    FollowKey(fields, path, "components", components);
    FollowKey(components.fields, path[1..], "schemas", schemas);
    FollowKey(schemas.fields, path[2..], name, schema);
    assert path[1..][1..] == path[2..] && path[2..][1..] == below;
  }

  lemma ParentFollowed(names: Names, plain: Json)
    ensures Follow(Obj(Parent(names, plain)), PropertyPath(names)) == Some(plain)
    ensures Wrapped(Parent(names, plain))
  {
    TwoLookups(Field("nullable", Bool(true)), Field("properties", Obj([Field(names.property, plain)])));
    OnlyField(Field(names.property, plain), names.property);
    var path := PropertyPath(names);
    FollowKey(Parent(names, plain), path, "properties", Obj([Field(names.property, plain)]));
    FollowKey([Field(names.property, plain)], path[1..], names.property, plain);
    assert path[1..][1..] == [];
  }

  lemma {:induction false} ParentDocument(names: Names, plain: Json, reference: string, path: string)
    requires names.parent != names.referrer && Keyed(plain) && path == "/components" + "/" + "schemas"
    requires NormalizeSchema(plain, true, path + "/" + names.parent + "/" + "properties" + "/" + names.property) == Ok(plain)
    ensures IsTranslated(SchemaDocument(ParentSchemas(names, plain, reference)))
  {
    ParentSchemasTranslate(names, plain, reference, path);
    ParentSchemasKeyed(names, plain, reference);
    SchemaDocumentTranslates(ParentSchemas(names, plain, reference), path);
  }

  lemma ParentComponents(names: Names, plain: Json, reference: string)
    requires names.parent != names.referrer
    ensures var fields := SchemaDocument(ParentSchemas(names, plain, reference));
      && IsComponent(fields, names.parent, Obj(Parent(names, plain)))
      && IsComponent(fields, names.referrer, Referrer(reference))
  {
    var schemas := ParentSchemas(names, plain, reference);
    TwoLookups(schemas[0], schemas[1]);
    SchemaDocumentComponent(schemas, names.parent, schemas[0].value);
    SchemaDocumentComponent(schemas, names.referrer, schemas[1].value);
  }

  lemma ParentLoses(fields: seq<Field>, names: Names, plain: Json)
    requires IsTranslated(fields) && IsComponent(fields, names.parent, Obj(Parent(names, plain)))
    ensures Pointer(Obj(fields), ParentReference(names)) == Some(plain)
    ensures Pointer(Normalized(fields).value, ParentReference(names)) == None
  {
    ParentFollowed(names, plain);
    ComponentFollowed(fields, names.parent, Obj(Parent(names, plain)), PropertyPath(names));
    PointerRoundTrip(Obj(fields), SchemaPath(names.parent) + PropertyPath(names));
    WrappedComponent(fields, names.parent, Parent(names, plain), PropertyPath(names));
  }

  const TEXT := Obj([Field("type", Str("string"))])

  lemma ParentDocumentHolds(names: Names, reference: string)
    requires names.parent != names.referrer
    ensures var fields := SchemaDocument(ParentSchemas(names, TEXT, reference));
      && IsTranslated(fields)
      && IsComponent(fields, names.parent, Obj(Parent(names, TEXT)))
      && IsComponent(fields, names.referrer, Referrer(reference))
  {
    var path := "/components" + "/" + "schemas";
    OneScalar("type", "string", path + "/" + names.parent + "/" + "properties" + "/" + names.property);
    assert Keyed(TEXT);
    ParentDocument(names, TEXT, reference, path);
    ParentComponents(names, TEXT, reference);
  }

  /** A document whose one reference resolves, and does not after the translation. */
  lemma ReferenceLost(names: Names)
    requires names.parent != names.referrer
    ensures var fields := SchemaDocument(ParentSchemas(names, TEXT, ParentReference(names)));
      && IsTranslated(fields)
      && IsComponent(fields, names.referrer, Referrer(ParentReference(names)))
      && Pointer(Obj(fields), ParentReference(names)) == Some(TEXT)
      && Pointer(Normalized(fields).value, ParentReference(names)) == None
  {
    ParentDocumentHolds(names, ParentReference(names));
    ParentLoses(SchemaDocument(ParentSchemas(names, TEXT, ParentReference(names))), names, TEXT);
  }
}
