/**
 Which references the translated document makes, read off the source: those of the source
 outside the keywords that are gone, and all of them still local.
 */
module TranslatedRefs {
  import opened Prelude
  import opened Json
  import opened KeyOrder
  import opened SchemaNormaliser
  import opened CanonicalForm
  import opened KeywordKinds
  import opened SchemaMeaning
  import opened MeaningPreservation
  import opened SchemaResidue
  import opened JsonPointer
  import opened RefResolution
  import opened DocumentImage
  import opened TranslatedDepth

  // ---------- the references of the translation, on the source ----------

  /** The references made in a value, except in the keywords that are gone. */
  function LivingRefs(role: Role, value: Json, path: string): set<string>
    decreases value, 1
  {
    match value
    case Arr(items) => LivingItems(ElementRole(role), items, path, 0)
    case Obj(fields) => RefOf(value) + LivingFields(role, fields, fields, path)
    case _ => {}
  }

  function LivingItems(role: Role, items: seq<Json>, path: string, index: nat): set<string>
    decreases items, 0
  {
    if |items| == 0 then {}
    else LivingRefs(role, items[0], path + "/" + Decimal(index)) + LivingItems(role, items[1..], path, index + 1)
  }

  function LivingFields(role: Role, all: seq<Field>, fields: seq<Field>, path: string): set<string>
    decreases fields, 0
  {
    if |fields| == 0 then {}
    else
      var rest := LivingFields(role, all, fields[1..], path);
      if Skipped(role, all, fields[0].key) then rest
      else LivingRefs(MemberRole(role, path, fields[0]), fields[0].value, path + "/" + fields[0].key) + rest
  }

  function Living(p: Position): set<string> {
    match p
    case Whole(fields) => LivingRefs(AsDocument, Obj(fields), "")
    case At(role, value, path) => LivingRefs(role, value, path)
    case Pair(schema, at) => LivingRefs(AsSchema, Obj(schema), at)
    case Inner(schema, at) => LivingRefs(AsSchema, Obj(schema), at)
    case Made(made) => Refs(made)
  }

  function FieldRefs(role: Role, field: Field, path: string): set<string> {
    LivingRefs(MemberRole(role, path, field), field.value, path + "/" + field.key)
  }

  function ItemRefs(role: Role, items: seq<Json>, path: string, index: nat, i: nat): set<string>
    requires i < |items|
  {
    LivingRefs(role, items[i], path + "/" + Decimal(index + i))
  }

  lemma {:induction false} LivingFieldsAre(role: Role, all: seq<Field>, fields: seq<Field>, path: string, r: string)
    ensures r in LivingFields(role, all, fields, path)
      <==> exists i :: 0 <= i < |fields| && !Skipped(role, all, fields[i].key) && r in FieldRefs(role, fields[i], path)
  {
    if |fields| != 0 {
      var rest := fields[1..];
      LivingFieldsAre(role, all, rest, path, r);
      assert forall i :: 0 < i < |fields| ==> fields[i] == rest[i - 1];
      if r in LivingFields(role, all, rest, path) {
        var i :| 0 <= i < |rest| && !Skipped(role, all, rest[i].key) && r in FieldRefs(role, rest[i], path);
        assert fields[i + 1] == rest[i];
      }
    }
  }

  lemma {:induction false} LivingItemsAre(role: Role, items: seq<Json>, path: string, index: nat, r: string)
    ensures r in LivingItems(role, items, path, index)
      <==> exists i :: 0 <= i < |items| && r in ItemRefs(role, items, path, index, i)
  {
    if |items| != 0 {
      var rest := items[1..];
      LivingItemsAre(role, rest, path, index + 1, r);
      assert ItemRefs(role, items, path, index, 0) == LivingRefs(role, items[0], path + "/" + Decimal(index));
      forall i | 0 < i < |items|
        ensures ItemRefs(role, items, path, index, i) == ItemRefs(role, rest, path, index + 1, i - 1)
      {
        assert index + i == index + 1 + (i - 1);
      }
      if r in LivingItems(role, rest, path, index + 1) {
        var i :| 0 <= i < |rest| && r in ItemRefs(role, rest, path, index + 1, i);
        assert ItemRefs(role, items, path, index, i + 1) == ItemRefs(role, rest, path, index + 1, i);
      }
    }
  }

  lemma {:induction false} ChildRefs(role: Role, value: Json, path: string, token: string)
    requires Child(role, value, path, token).Some?
    requires value.Obj? ==> !Skipped(role, value.fields, Unescape(token))
    ensures Living(Child(role, value, path, token).value) <= LivingRefs(role, value, path)
  {
    var name := Unescape(token);
    forall r | r in Living(Child(role, value, path, token).value) ensures r in LivingRefs(role, value, path) {
      match value
      case Obj(fields) =>
        var i :| 0 <= i < |fields| && fields[i] == Field(name, Lookup(fields, name).value);
        LivingFieldsAre(role, fields, fields, path, r);
        assert r in FieldRefs(role, fields[i], path);
      case Arr(items) =>
        LivingItemsAre(ElementRole(role), items, path, 0, r);
        assert r in ItemRefs(ElementRole(role), items, path, 0, ParseNat(name));
    }
  }

  lemma {:induction false} InnerRefs(schema: seq<Field>, path: string, token: string)
    requires UniqueKeys(schema) && Bounded(schema, path).Ok? && InnerStep(schema, path, token).Some?
    ensures Living(InnerStep(schema, path, token).value) <= LivingRefs(AsSchema, Obj(schema), path)
  {
    var name := Unescape(token);
    BoundedAt(schema, path, name);
    if IsFlag(schema, name) {
      ChangedKeyword(schema, path, token);
    } else {
      ChildRefs(AsSchema, Obj(schema), path, token);
    }
  }

  lemma NullableTypeRefs(item: Json)
    requires item.Str? || (item.Arr? && Hashable(item.items))
    ensures Refs(NullableType(item)) == {}
  {
    var types := NullableType(item).items;
    forall i | 0 <= i < |types| ensures Refs(types[i]) == {} {
      if item.Arr? {
        assert types[i] in item.items + [Str("null")];
      }
    }
  }

  lemma NullSchemaRefs()
    ensures Refs(NULL_SCHEMA) == {}
  {
    OnlyField(NULL_SCHEMA.fields[0], REF);
  }

  lemma StepRefs(p: Position, token: string)
    requires Ready(p) && Moved(p, token).Some?
    ensures Living(Moved(p, token).value) <= Living(p)
  {
    match p
    case Whole(fields) =>
      if Unescape(token) != VERSION_KEY {
        ChildRefs(AsDocument, Obj(fields), "", token);
      }
    case At(role, value, path) =>
      if role == AsSchema && value.Obj? {
        SchemaStepRefs(value.fields, path, token);
      } else {
        ChildRefs(role, value, path, token);
      }
    case Inner(schema, at) => InnerRefs(schema, at, token);
    case Made(made) => NodeRefs(made, [token]);
    case Pair(_, _) => NullSchemaRefs();
  }

  lemma {:induction false} SchemaStepRefs(fields: seq<Field>, path: string, token: string)
    requires Keyed(Obj(fields)) && NormalizeSchema(Obj(fields), true, path).Ok? && SchemaStep(fields, path, token).Some?
    ensures Living(SchemaStep(fields, path, token).value) <= LivingRefs(AsSchema, Obj(fields), path)
  {
    SchemaShape(fields, path);
    if Wrapped(fields) {
    } else if Nullable(fields) && Unescape(token) == "type" {
      NullableTypeRefs(Lookup(fields, "type").value);
    } else {
      OtherStep(fields, path, token);
      InnerRefs(fields, path, token);
    }
  }

  // ---------- every living reference is made, and no other ----------

  lemma ImageText(role: Role, item: Json, path: string, text: string)
    requires Image(role, item, path).Ok?
    ensures Image(role, item, path).value == Str(text) <==> item == Str(text)
  {
    if role == AsSchema && item.Obj? {
      SchemaIsBounded(item.fields, path);
    }
  }

  /** The member `$ref` of a value of the source, and of its translation. */
  lemma OwnRefKept(role: Role, fields: seq<Field>, path: string, token: string, text: string)
    requires Unescape(token) == REF
    requires Child(role, Obj(fields), path, token).Some? ==> Found(Child(role, Obj(fields), path, token).value).Ok?
    ensures var child := Child(role, Obj(fields), path, token);
      child.Some? && Found(child.value) == Ok(Str(text)) <==> text in RefOf(Obj(fields))
  {
    if Has(fields, REF) {
      var item := Lookup(fields, REF).value;
      ImageText(MemberRole(role, path, Field(REF, item)), item, path + "/" + REF, text);
    }
  }

  lemma RefIsPlain(fields: seq<Field>, path: string, token: string)
    requires Unescape(token) == REF
    ensures InnerStep(fields, path, token) == Child(AsSchema, Obj(fields), path, token)
    ensures SchemaStep(fields, path, token) == if Wrapped(fields) then None else Child(AsSchema, Obj(fields), path, token)
  {
    assert !Gone(fields, REF) && !IsFlag(fields, REF);
  }

  /** The source of a position, when its keywords are still its own. */
  predicate HasOwnRef(p: Position) {
    match p
    case Whole(_) => true
    case At(role, value, _) => value.Obj? && !(role == AsSchema && Wrapped(value.fields))
    case Inner(_, _) => true
    case _ => false
  }

  function OwnFields(p: Position): seq<Field>
    requires HasOwnRef(p)
  {
    match p case Whole(fields) => fields case At(_, value, _) => value.fields case Inner(schema, _) => schema
  }

  lemma RefStep(p: Position, token: string)
    requires HasOwnRef(p) && Unescape(token) == REF
    ensures match p
            case Whole(fields) => Moved(p, token) == Child(AsDocument, Obj(fields), "", token)
            case At(role, value, path) => Moved(p, token) == Child(role, value, path, token)
            case Inner(schema, at) => Moved(p, token) == Child(AsSchema, Obj(schema), at, token)
            case _ => false
  {
    match p
    case At(AsSchema, Obj(fields), path) => RefIsPlain(fields, path, token);
    case Inner(schema, at) => RefIsPlain(schema, at, token);
    case _ =>
  }

  lemma RefByStep(value: Json, token: string, text: string)
    requires value.Obj? && Unescape(token) == REF
    ensures text in RefOf(value) <==> Descend(value, token) == Some(Str(text))
  {
  }

  lemma OwnRefs(p: Position, text: string)
    requires Ready(p) && HasOwnRef(p)
    ensures text in RefOf(Found(p).value) <==> text in RefOf(Obj(OwnFields(p)))
  {
    var token := Escape(REF);
    EscapeRoundTrip(REF);
    StepAgrees(p, token);
    RefStep(p, token);
    match p
    case Whole(fields) =>
      OwnRefKept(AsDocument, fields, "", token, text);
      RefByStep(Found(p).value, token, text);
    case At(role, Obj(fields), path) =>
      FoundIsObject(p);
      OwnRefKept(role, fields, path, token, text);
      RefByStep(Found(p).value, token, text);
    case Inner(schema, at) =>
      OwnRefKept(AsSchema, schema, at, token, text);
      RefByStep(Found(p).value, token, text);
  }

  lemma FoundIsObject(p: Position)
    requires p.At? && p.value.Obj? && Found(p).Ok?
    ensures Found(p).value.Obj?
  {
    if p.role == AsSchema {
      SchemaIsBounded(p.value.fields, p.path);
    }
  }

  lemma RefsReached(value: Json, r: string) returns (token: string)
    requires Keyed(value) && r in Refs(value) && r !in RefOf(value)
    ensures Descend(value, token).Some? && r in Refs(Descend(value, token).value)
  {
    match value
    case Obj(fields) =>
      var i :| 0 <= i < |fields| && r in Refs(fields[i].value);
      MemberToken(fields, i);
      token := Escape(fields[i].key);
    case Arr(items) =>
      var i :| 0 <= i < |items| && r in Refs(items[i]);
      ItemToken(items, i);
      token := Escape(Decimal(i));
  }

  lemma MemberReached(role: Role, fields: seq<Field>, path: string, r: string) returns (token: string)
    requires UniqueKeys(fields) && r in LivingFields(role, fields, fields, path)
    ensures Child(role, Obj(fields), path, token).Some? && !Skipped(role, fields, Unescape(token))
    ensures r in Living(Child(role, Obj(fields), path, token).value)
  {
    LivingFieldsAre(role, fields, fields, path, r);
    var i :| 0 <= i < |fields| && !Skipped(role, fields, fields[i].key) && r in FieldRefs(role, fields[i], path);
    MemberChild(role, fields, path, i);
    token := Escape(fields[i].key);
  }

  lemma ElementReached(role: Role, items: seq<Json>, path: string, r: string) returns (token: string)
    requires r in LivingRefs(role, Arr(items), path)
    ensures Child(role, Arr(items), path, token).Some?
    ensures r in Living(Child(role, Arr(items), path, token).value)
  {
    LivingItemsAre(ElementRole(role), items, path, 0, r);
    var i :| 0 <= i < |items| && r in ItemRefs(ElementRole(role), items, path, 0, i);
    ItemToken(items, i);
    token := Escape(Decimal(i));
  }

  /** A keyword with a reference in it is not rewritten. */
  lemma KeywordReached(schema: seq<Field>, path: string, r: string) returns (token: string)
    requires UniqueKeys(schema) && r in LivingFields(AsSchema, schema, schema, path)
    ensures InnerStep(schema, path, token).Some? && r in Living(InnerStep(schema, path, token).value)
    ensures Child(AsSchema, Obj(schema), path, token).Some?
    ensures r in Living(Child(AsSchema, Obj(schema), path, token).value)
  {
    token := MemberReached(AsSchema, schema, path, r);
    assert !IsFlag(schema, Unescape(token));
  }

  lemma {:induction false} ScalarsMakeNoRefs(item: Json, path: string)
    requires item.Str? || (item.Arr? && Hashable(item.items))
    ensures LivingRefs(AsDocument, item, path) == {}
  {
    if item.Arr? {
      forall r ensures r !in LivingItems(AsDocument, item.items, path, 0) {
        LivingItemsAre(AsDocument, item.items, path, 0, r);
      }
    }
  }

  lemma SchemaReached(fields: seq<Field>, path: string, r: string) returns (token: string)
    requires Keyed(Obj(fields)) && NormalizeSchema(Obj(fields), true, path).Ok? && !Wrapped(fields)
    requires r in LivingFields(AsSchema, fields, fields, path)
    ensures SchemaStep(fields, path, token).Some? && r in Living(SchemaStep(fields, path, token).value)
  {
    SchemaShape(fields, path);
    token := KeywordReached(fields, path, r);
    if Nullable(fields) && Unescape(token) == "type" {
      TypeChild(fields, path, token);
      ScalarsMakeNoRefs(Lookup(fields, "type").value, path + "/" + "type");
      assert false;
    }
    OtherStep(fields, path, token);
  }

  lemma AnyOfStep(fields: seq<Field>, path: string) returns (token: string)
    requires Wrapped(fields)
    ensures SchemaStep(fields, path, token) == Some(Pair(fields, path))
  {
    EscapeRoundTrip("anyOf");
    token := Escape("anyOf");
  }

  lemma FirstOfPair(schema: seq<Field>, path: string) returns (token: string)
    ensures Moved(Pair(schema, path), token) == Some(Inner(schema, path))
  {
    var i: nat := 0;
    EscapeRoundTrip(Decimal(i));
    DecimalRoundTrip(i);
    token := Escape(Decimal(i));
  }

  lemma AtReached(role: Role, value: Json, path: string, r: string) returns (token: string)
    requires Keyed(value) && Image(role, value, path).Ok? && r in LivingRefs(role, value, path)
    requires value.Obj? && !(role == AsSchema && Wrapped(value.fields)) ==> r !in RefOf(value)
    ensures Moved(At(role, value, path), token).Some? && r in Living(Moved(At(role, value, path), token).value)
  {
    match value
    case Obj(fields) =>
      if role != AsSchema {
        token := MemberReached(role, fields, path, r);
      } else if Wrapped(fields) {
        token := AnyOfStep(fields, path);
      } else {
        token := SchemaReached(fields, path, r);
      }
    case Arr(items) => token := ElementReached(role, items, path, r);
  }

  lemma LivingReached(p: Position, r: string) returns (token: string)
    requires Ready(p) && r in Living(p) && r !in RefOf(Found(p).value)
    ensures Moved(p, token).Some? && r in Living(Moved(p, token).value)
  {
    if HasOwnRef(p) {
      OwnRefs(p, r);
    }
    match p
    case Whole(fields) =>
      token := MemberReached(AsDocument, fields, "", r);
    case At(role, value, path) => token := AtReached(role, value, path, r);
    case Inner(schema, at) => token := KeywordReached(schema, at, r);
    case Pair(schema, at) => token := FirstOfPair(schema, at);
    case Made(made) => token := RefsReached(made, r);
  }

  lemma NoOwnRef(p: Position)
    requires Ready(p) && !HasOwnRef(p) && !p.Made?
    ensures !(Found(p).value.Obj? && Has(Found(p).value.fields, REF))
  {
    match p
    case At(role, Obj(fields), path) =>
      SchemaShape(fields, path);
      OnlyField(Found(p).value.fields[0], REF);
    case At(role, value, path) => NoObjectMade(role, value, path);
    case _ =>
  }

  lemma OwnRefLives(p: Position, r: string)
    requires Ready(p) && r in RefOf(Found(p).value)
    ensures r in Living(p)
  {
    if HasOwnRef(p) {
      OwnRefs(p, r);
    } else if !p.Made? {
      NoOwnRef(p);
    }
  }

  lemma NoObjectMade(role: Role, value: Json, path: string)
    requires !value.Obj? && Image(role, value, path).Ok?
    ensures !Image(role, value, path).value.Obj?
  {
  }

  /** The translation of a position makes exactly the references that live there. */
  lemma {:induction false} RefsExact(p: Position, r: string)
    requires Ready(p)
    ensures r in Refs(Found(p).value) <==> r in Living(p)
    decreases Height(Found(p).value)
  {
    var value := Found(p).value;
    FoundKeyed(p);
    if r in RefOf(value) {
      OwnRefLives(p, r);
    } else {
      if r in Refs(value) {
        var token := RefsReached(value, r);
        StepAgrees(p, token);
        ReadyStep(p, token);
        ChildIsLower(value, token);
        StepRefs(p, token);
        RefsExact(Moved(p, token).value, r);
      }
      if r in Living(p) {
        var token := LivingReached(p, r);
        ReadyStep(p, token);
        ChildIsLower(value, token);
        RefsExact(Moved(p, token).value, r);
        NodeRefs(value, [token]);
        assert DescendAll(value, [token]) == Descend(value, token);
      }
    }
  }

  // ---------- references stay local ----------

  function SourceValue(p: Position): Json {
    match p
    case Whole(fields) => Obj(fields)
    case At(_, value, _) => value
    case Pair(schema, _) => Obj(schema)
    case Inner(schema, _) => Obj(schema)
    case Made(made) => made
  }

  lemma {:induction false} LocalByChildren(value: Json)
    requires Keyed(value)
    requires forall token :: Descend(value, token).Some? ==> AllLocal(Descend(value, token).value)
    requires value.Obj? && Has(value.fields, REF) ==> IsLocal(Lookup(value.fields, REF).value)
    ensures AllLocal(value)
  {
    match value
    case Obj(fields) =>
      forall i | 0 <= i < |fields| ensures AllLocal(fields[i].value) && (fields[i].key == REF ==> IsLocal(fields[i].value)) {
        MemberToken(fields, i);
      }
    case Arr(items) =>
      forall i | 0 <= i < |items| ensures AllLocal(items[i]) {
        ItemToken(items, i);
      }
    case _ =>
  }

  lemma {:induction false} LocalMember(fields: seq<Field>, key: string)
    requires AllLocal(Obj(fields)) && Has(fields, key)
    ensures AllLocal(Lookup(fields, key).value)
    ensures key == REF ==> IsLocal(Lookup(fields, key).value)
  {
  }

  lemma NullableTypeLocal(item: Json)
    requires item.Str? || (item.Arr? && Hashable(item.items))
    ensures AllLocal(NullableType(item))
  {
    var types := NullableType(item).items;
    forall i | 0 <= i < |types| ensures AllLocal(types[i]) {
      if item.Arr? {
        assert types[i] in item.items + [Str("null")];
      }
    }
  }

  lemma {:induction false} ChildLocal(role: Role, value: Json, path: string, token: string)
    requires AllLocal(value) && Child(role, value, path, token).Some?
    ensures AllLocal(SourceValue(Child(role, value, path, token).value))
  {
    if value.Obj? {
      LocalMember(value.fields, Unescape(token));
    }
  }

  lemma {:induction false} SchemaStepLocal(fields: seq<Field>, path: string, token: string)
    requires Keyed(Obj(fields)) && NormalizeSchema(Obj(fields), true, path).Ok? && AllLocal(Obj(fields))
    requires SchemaStep(fields, path, token).Some?
    ensures AllLocal(SourceValue(SchemaStep(fields, path, token).value))
  {
    SchemaShape(fields, path);
    if Wrapped(fields) {
      WrappedLocal(fields, path, token);
    } else if Nullable(fields) && Unescape(token) == "type" {
      TypeLocal(fields, path, token);
    } else {
      OtherStep(fields, path, token);
      InnerLocal(fields, path, token);
    }
  }

  lemma WrappedLocal(fields: seq<Field>, path: string, token: string)
    requires AllLocal(Obj(fields)) && Wrapped(fields) && SchemaStep(fields, path, token).Some?
    ensures AllLocal(SourceValue(SchemaStep(fields, path, token).value))
  {
    assert SchemaStep(fields, path, token) == Some(Pair(fields, path));
  }

  lemma {:induction false} TypeLocal(fields: seq<Field>, path: string, token: string)
    requires Nullable(fields) && !Wrapped(fields) && Unescape(token) == "type"
    requires Lookup(fields, "type").Some? && Lookup(fields, "type").value.Arr? ==> Hashable(Lookup(fields, "type").value.items)
    ensures AllLocal(SourceValue(SchemaStep(fields, path, token).value))
  {
    NullableTypeLocal(Lookup(fields, "type").value);
    assert SchemaStep(fields, path, token) == Some(Made(NullableType(Lookup(fields, "type").value)));
  }

  lemma InnerLocal(schema: seq<Field>, path: string, token: string)
    requires UniqueKeys(schema) && Bounded(schema, path).Ok? && AllLocal(Obj(schema)) && InnerStep(schema, path, token).Some?
    ensures AllLocal(SourceValue(InnerStep(schema, path, token).value))
  {
    BoundedAt(schema, path, Unescape(token));
    if IsFlag(schema, Unescape(token)) {
      ChangedKeyword(schema, path, token);
    } else {
      ChildLocal(AsSchema, Obj(schema), path, token);
    }
  }

  lemma NullSchemaLocal()
    ensures AllLocal(NULL_SCHEMA)
  {
    assert NULL_SCHEMA.fields[0].key != REF;
  }

  lemma StepLocal(p: Position, token: string)
    requires Ready(p) && AllLocal(SourceValue(p)) && Moved(p, token).Some?
    ensures AllLocal(SourceValue(Moved(p, token).value))
  {
    match p
    case Whole(fields) =>
      if Unescape(token) != VERSION_KEY {
        ChildLocal(AsDocument, Obj(fields), "", token);
      }
    case At(role, value, path) =>
      if role == AsSchema && value.Obj? {
        SchemaStepLocal(value.fields, path, token);
      } else {
        ChildLocal(role, value, path, token);
      }
    case Inner(schema, at) => InnerLocal(schema, at, token);
    case Made(made) => ChildLocal(AsIs, made, "", token);
    case Pair(_, _) => NullSchemaLocal();
  }

  /** The member `$ref` of a translated object is the one of the source. */
  lemma OwnRefLocal(p: Position)
    requires Ready(p) && AllLocal(SourceValue(p)) && Found(p).value.Obj? && Has(Found(p).value.fields, REF)
    ensures IsLocal(Lookup(Found(p).value.fields, REF).value)
  {
    var token := Escape(REF);
    EscapeRoundTrip(REF);
    StepAgrees(p, token);
    if p.Made? {
      LocalMember(p.made.fields, REF);
    } else if HasOwnRef(p) {
      RefStep(p, token);
      LocalMember(OwnFields(p), REF);
      var child := Moved(p, token).value;
      ImageText(child.role, child.value, child.path, child.value.text);
    } else {
      NoOwnRef(p);
    }
  }

  /** If every reference of the source is local, so is every reference of the translation. */
  lemma {:induction false} LocalKept(p: Position)
    requires Ready(p) && AllLocal(SourceValue(p))
    ensures AllLocal(Found(p).value)
    decreases Height(Found(p).value)
  {
    var value := Found(p).value;
    FoundKeyed(p);
    if value.Obj? && Has(value.fields, REF) {
      OwnRefLocal(p);
    }
    forall token | Descend(value, token).Some? ensures AllLocal(Descend(value, token).value) {
      StepAgrees(p, token);
      ReadyStep(p, token);
      StepLocal(p, token);
      ChildIsLower(value, token);
      LocalKept(Moved(p, token).value);
    }
    LocalByChildren(value);
  }
}
