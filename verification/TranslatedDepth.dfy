/**
 How deep the translated document is, read off the source.  The translation adds levels
 (an `anyOf` list around a schema, a type array) and drops keywords, so a document within
 the limit can leave it.
 */
module TranslatedDepth {
  import opened Prelude
  import opened Json
  import opened KeyOrder
  import opened SchemaNormaliser
  import opened CanonicalForm
  import opened KeywordKinds
  import opened SchemaMeaning
  import opened MeaningPreservation
  import opened SchemaResidue
  import opened JsonPointer
  import opened RefResolution
  import opened DocumentImage

  // ---------- height by steps of a pointer ----------

  lemma {:induction false} HighestItemIs(items: seq<Json>)
    ensures forall i :: 0 <= i < |items| ==> 1 + Height(items[i]) <= HighestItem(items)
    ensures HighestItem(items) > 0 ==> exists i :: 0 <= i < |items| && HighestItem(items) == 1 + Height(items[i])
  {
    if |items| != 0 {
      HighestItemIs(items[1..]);
      assert forall i :: 0 < i < |items| ==> items[i] == items[1..][i - 1];
      assert HighestItem(items) == 1 + Height(items[0]) || HighestItem(items) == HighestItem(items[1..]);
    }
  }

  lemma {:induction false} HighestFieldIs(fields: seq<Field>)
    ensures forall i :: 0 <= i < |fields| ==> 1 + Height(fields[i].value) <= HighestField(fields)
    ensures HighestField(fields) > 0 ==> exists i :: 0 <= i < |fields| && HighestField(fields) == 1 + Height(fields[i].value)
  {
    if |fields| != 0 {
      HighestFieldIs(fields[1..]);
      assert forall i :: 0 < i < |fields| ==> fields[i] == fields[1..][i - 1];
      assert HighestField(fields) == 1 + Height(fields[0].value) || HighestField(fields) == HighestField(fields[1..]);
    }
  }

  lemma {:induction false} ChildIsLower(value: Json, token: string)
    requires Descend(value, token).Some?
    ensures Height(Descend(value, token).value) < Height(value)
  {
    match value
    case Obj(fields) => HighestFieldIs(fields);
    case Arr(items) => HighestItemIs(items);
  }

  /** The token of a member, and of an item. */
  lemma {:induction false} MemberToken(fields: seq<Field>, i: nat)
    requires UniqueKeys(fields) && i < |fields|
    ensures Unescape(Escape(fields[i].key)) == fields[i].key
    ensures Lookup(fields, fields[i].key) == Some(fields[i].value)
    ensures Descend(Obj(fields), Escape(fields[i].key)) == Some(fields[i].value)
  {
    EscapeRoundTrip(fields[i].key);
    LookupAt(fields, i);
  }

  lemma {:induction false} ItemToken(items: seq<Json>, i: nat)
    requires i < |items|
    ensures Unescape(Escape(Decimal(i))) == Decimal(i) && IsDigits(Decimal(i)) && ParseNat(Decimal(i)) == i
    ensures Descend(Arr(items), Escape(Decimal(i))) == Some(items[i])
  {
    EscapeRoundTrip(Decimal(i));
    DecimalRoundTrip(i);
  }

  lemma HighestChild(value: Json) returns (token: string)
    requires Keyed(value) && Height(value) > 0
    ensures Descend(value, token).Some? && Height(value) == 1 + Height(Descend(value, token).value)
  {
    match value
    case Obj(fields) =>
      HighestFieldIs(fields);
      var i :| 0 <= i < |fields| && HighestField(fields) == 1 + Height(fields[i].value);
      MemberToken(fields, i);
      token := Escape(fields[i].key);
    case Arr(items) =>
      HighestItemIs(items);
      var i :| 0 <= i < |items| && HighestItem(items) == 1 + Height(items[i]);
      ItemToken(items, i);
      token := Escape(Decimal(i));
  }

  // ---------- the height of the translation, on the source ----------

  /** Levels of nesting below the translation of a value. */
  function DepthOf(role: Role, value: Json, path: string): nat
    decreases value, 1
  {
    match value
    case Arr(items) => DeepestItem(ElementRole(role), items, path, 0)
    case Obj(fields) =>
      var deepest := DeepestField(role, fields, fields, path);
      if role != AsSchema then deepest
      else if Wrapped(fields) then 2 + Max(deepest, 1)
      else if Nullable(fields) then Max(deepest, 2)
      else deepest
    case _ => 0
  }

  function DeepestItem(role: Role, items: seq<Json>, path: string, index: nat): nat
    decreases items, 0
  {
    if |items| == 0 then 0
    else Max(1 + DepthOf(role, items[0], path + "/" + Decimal(index)), DeepestItem(role, items[1..], path, index + 1))
  }

  /** `all` are the keywords of the schema `fields` is the rest of. */
  function DeepestField(role: Role, all: seq<Field>, fields: seq<Field>, path: string): nat
    decreases fields, 0
  {
    if |fields| == 0 then 0
    else
      var rest := DeepestField(role, all, fields[1..], path);
      if Skipped(role, all, fields[0].key) then rest
      else Max(1 + DepthOf(MemberRole(role, path, fields[0]), fields[0].value, path + "/" + fields[0].key), rest)
  }

  predicate Skipped(role: Role, all: seq<Field>, key: string) {
    role == AsSchema && Gone(all, key)
  }

  function Depth(p: Position): nat {
    match p
    case Whole(fields) => DepthOf(AsDocument, Obj(fields), "")
    case At(role, value, path) => DepthOf(role, value, path)
    case Pair(schema, at) => 1 + Max(DeepestField(AsSchema, schema, schema, at), 1)
    case Inner(schema, at) => DeepestField(AsSchema, schema, schema, at)
    case Made(made) => Height(made)
  }

  function FieldDepth(role: Role, field: Field, path: string): nat {
    1 + DepthOf(MemberRole(role, path, field), field.value, path + "/" + field.key)
  }

  lemma {:induction false} DeepestFieldIs(role: Role, all: seq<Field>, fields: seq<Field>, path: string)
    ensures forall i :: 0 <= i < |fields| && !Skipped(role, all, fields[i].key) ==>
      FieldDepth(role, fields[i], path) <= DeepestField(role, all, fields, path)
    ensures DeepestField(role, all, fields, path) > 0 ==>
      exists i :: 0 <= i < |fields| && !Skipped(role, all, fields[i].key)
        && DeepestField(role, all, fields, path) == FieldDepth(role, fields[i], path)
  {
    if |fields| != 0 {
      var rest := fields[1..];
      DeepestFieldIs(role, all, rest, path);
      assert forall i :: 0 < i < |fields| ==> fields[i] == rest[i - 1];
      if DeepestField(role, all, fields, path) == DeepestField(role, all, rest, path) > 0 {
        var i :| 0 <= i < |rest| && !Skipped(role, all, rest[i].key)
          && DeepestField(role, all, rest, path) == FieldDepth(role, rest[i], path);
        assert fields[i + 1] == rest[i];
      }
    }
  }

  function ItemDepth(role: Role, items: seq<Json>, path: string, index: nat, i: nat): nat
    requires i < |items|
  {
    1 + DepthOf(role, items[i], path + "/" + Decimal(index + i))
  }

  lemma {:induction false} DeepestItemIs(role: Role, items: seq<Json>, path: string, index: nat)
    ensures forall i :: 0 <= i < |items| ==> ItemDepth(role, items, path, index, i) <= DeepestItem(role, items, path, index)
    ensures DeepestItem(role, items, path, index) > 0 ==>
      exists i :: 0 <= i < |items| && DeepestItem(role, items, path, index) == ItemDepth(role, items, path, index, i)
  {
    if |items| != 0 {
      var rest := items[1..];
      DeepestItemIs(role, rest, path, index + 1);
      forall i | 0 <= i < |items|
        ensures i > 0 ==> ItemDepth(role, items, path, index, i) == ItemDepth(role, rest, path, index + 1, i - 1)
      {
        if i > 0 {
          assert index + i == index + 1 + (i - 1);
        }
      }
      assert DeepestItem(role, items, path, index)
        == Max(ItemDepth(role, items, path, index, 0), DeepestItem(role, rest, path, index + 1));
      if DeepestItem(role, items, path, index) == DeepestItem(role, rest, path, index + 1) > 0 {
        var i :| 0 <= i < |rest| && DeepestItem(role, rest, path, index + 1) == ItemDepth(role, rest, path, index + 1, i);
        assert ItemDepth(role, items, path, index, i + 1) == ItemDepth(role, rest, path, index + 1, i);
      }
    }
  }

  /** A step into a child of the source goes down by one level at least. */
  lemma {:induction false} ChildDepth(role: Role, value: Json, path: string, token: string)
    requires Child(role, value, path, token).Some?
    requires value.Obj? ==> !Skipped(role, value.fields, Unescape(token))
    ensures value.Obj? || value.Arr?
    ensures value.Obj? ==>
      1 + Depth(Child(role, value, path, token).value) <= DeepestField(role, value.fields, value.fields, path)
    ensures value.Arr? ==> 1 + Depth(Child(role, value, path, token).value) <= DepthOf(role, value, path)
  {
    var name := Unescape(token);
    match value
    case Obj(fields) =>
      var item := Lookup(fields, name).value;
      var i :| 0 <= i < |fields| && fields[i] == Field(name, item);
      DeepestFieldIs(role, fields, fields, path);
    case Arr(items) =>
      DeepestItemIs(ElementRole(role), items, path, 0);
      assert ItemDepth(ElementRole(role), items, path, 0, ParseNat(name)) <= DepthOf(role, value, path);
  }

  lemma {:induction false} InnerDepth(schema: seq<Field>, path: string, token: string)
    requires UniqueKeys(schema) && InnerStep(schema, path, token).Some? && Bounded(schema, path).Ok?
    ensures 1 + Depth(InnerStep(schema, path, token).value) <= DeepestField(AsSchema, schema, schema, path)
  {
    if IsFlag(schema, Unescape(token)) {
      FlagDepth(schema, path, token);
    }
    ChildDepth(AsSchema, Obj(schema), path, token);
  }

  lemma NullableTypeHeight(item: Json)
    requires item.Str? || (item.Arr? && Hashable(item.items))
    ensures Height(NullableType(item)) == 1
  {
    var types := NullableType(item).items;
    if item.Arr? {
      assert Str("null") in item.items + [Str("null")];
    }
    assert |types| > 0;
    forall i | 0 <= i < |types| ensures Height(types[i]) == 0 {
      if item.Arr? {
        assert types[i] in item.items + [Str("null")];
      }
    }
    HighestItemIs(types);
  }

  lemma {:induction false} WrappedDepth(fields: seq<Field>, path: string, token: string)
    requires Wrapped(fields) && SchemaStep(fields, path, token).Some?
    ensures 1 + Depth(SchemaStep(fields, path, token).value) == DepthOf(AsSchema, Obj(fields), path)
  {
  }

  lemma {:induction false} TypeDepth(fields: seq<Field>, path: string, token: string)
    requires UniqueKeys(fields) && NormalizeSchema(Obj(fields), true, path).Ok?
    requires Nullable(fields) && !Wrapped(fields) && Unescape(token) == "type"
    ensures SchemaStep(fields, path, token).Some? && Depth(SchemaStep(fields, path, token).value) == 1
    ensures 2 <= DepthOf(AsSchema, Obj(fields), path)
  {
    SchemaShape(fields, path);
    NullableTypeHeight(Lookup(fields, "type").value);
  }

  /** Steps other than to a rewritten `type` are those into the keywords. */
  lemma {:induction false} OtherStep(fields: seq<Field>, path: string, token: string)
    requires !Wrapped(fields) && !(Nullable(fields) && Unescape(token) == "type")
    ensures SchemaStep(fields, path, token) == InnerStep(fields, path, token)
    ensures DeepestField(AsSchema, fields, fields, path) <= DepthOf(AsSchema, Obj(fields), path)
  {
  }

  lemma {:induction false} SchemaDepth(fields: seq<Field>, path: string, token: string)
    requires Keyed(Obj(fields)) && NormalizeSchema(Obj(fields), true, path).Ok? && SchemaStep(fields, path, token).Some?
    ensures 1 + Depth(SchemaStep(fields, path, token).value) <= DepthOf(AsSchema, Obj(fields), path)
  {
    if Wrapped(fields) {
      WrappedDepth(fields, path, token);
    } else if Nullable(fields) && Unescape(token) == "type" {
      TypeDepth(fields, path, token);
    } else {
      SchemaShape(fields, path);
      OtherStep(fields, path, token);
      InnerDepth(fields, path, token);
    }
  }

  /** A position of the translation of a 3.0.3 document. */
  ghost predicate Ready(p: Position) {
    Sourced(p) && Found(p).Ok? && (p.Whole? ==> Lookup(p.fields, VERSION_KEY) == Some(Str("3.0.3")))
  }

  lemma ReadyStep(p: Position, token: string)
    requires Ready(p) && Moved(p, token).Some?
    ensures Ready(Moved(p, token).value)
    ensures Descend(Found(p).value, token) == Some(Found(Moved(p, token).value).value)
  {
    StepAgrees(p, token);
    StepSourced(p, token);
  }

  lemma {:induction false} VersionDepth(fields: seq<Field>)
    requires Lookup(fields, VERSION_KEY) == Some(Str("3.0.3"))
    ensures DepthOf(AsDocument, Obj(fields), "") >= 1
  {
    var i :| 0 <= i < |fields| && fields[i] == Field(VERSION_KEY, Str("3.0.3"));
    DeepestFieldIs(AsDocument, fields, fields, "");
    assert !Skipped(AsDocument, fields, fields[i].key);
  }

  /** Every step through the translated document goes down by one level at least. */
  lemma StepDepth(p: Position, token: string)
    requires Ready(p) && Moved(p, token).Some?
    ensures 1 + Depth(Moved(p, token).value) <= Depth(p)
  {
    match p
    case Whole(fields) =>
      if Unescape(token) != VERSION_KEY {
        ChildDepth(AsDocument, Obj(fields), "", token);
      } else {
        VersionDepth(fields);
      }
    case At(role, value, path) =>
      if role == AsSchema && value.Obj? {
        SchemaDepth(value.fields, path, token);
      } else {
        ChildDepth(role, value, path, token);
      }
    case Inner(schema, at) => InnerDepth(schema, at, token);
    case Made(made) => ChildIsLower(made, token);
    case Pair(_, _) => NullSchemaHeight();
  }

  lemma NullSchemaHeight()
    ensures Height(NULL_SCHEMA) == 1
  {
    assert NULL_SCHEMA.fields[1..] == [];
  }

  // ---------- a step down by exactly one level ----------

  /** The child of the source at a member, or an item. */
  lemma MemberChild(role: Role, fields: seq<Field>, path: string, i: nat)
    requires UniqueKeys(fields) && i < |fields|
    ensures Child(role, Obj(fields), path, Escape(fields[i].key))
      == Some(At(MemberRole(role, path, fields[i]), fields[i].value, path + "/" + fields[i].key))
    ensures Unescape(Escape(fields[i].key)) == fields[i].key
  {
    MemberToken(fields, i);
    assert fields[i] == Field(fields[i].key, fields[i].value);
  }

  lemma DeepestMember(role: Role, fields: seq<Field>, path: string) returns (token: string)
    requires UniqueKeys(fields) && DeepestField(role, fields, fields, path) > 0
    ensures !Skipped(role, fields, Unescape(token))
    ensures Child(role, Obj(fields), path, token).Some?
    ensures DeepestField(role, fields, fields, path) == 1 + Depth(Child(role, Obj(fields), path, token).value)
  {
    DeepestFieldIs(role, fields, fields, path);
    var i :| 0 <= i < |fields| && !Skipped(role, fields, fields[i].key)
      && DeepestField(role, fields, fields, path) == FieldDepth(role, fields[i], path);
    MemberChild(role, fields, path, i);
    token := Escape(fields[i].key);
  }

  lemma DeepestElement(role: Role, items: seq<Json>, path: string) returns (token: string)
    requires DepthOf(role, Arr(items), path) > 0
    ensures Child(role, Arr(items), path, token).Some?
    ensures DepthOf(role, Arr(items), path) == 1 + Depth(Child(role, Arr(items), path, token).value)
  {
    DeepestItemIs(ElementRole(role), items, path, 0);
    var i :| 0 <= i < |items| && DeepestItem(ElementRole(role), items, path, 0) == ItemDepth(ElementRole(role), items, path, 0, i);
    ItemToken(items, i);
    token := Escape(Decimal(i));
  }

  /** A keyword that is not gone is as deep where it stands as in the source. */
  lemma KeywordDepth(schema: seq<Field>, path: string, token: string)
    requires UniqueKeys(schema) && Bounded(schema, path).Ok? && !Gone(schema, Unescape(token))
    requires Child(AsSchema, Obj(schema), path, token).Some?
    ensures InnerStep(schema, path, token).Some?
    ensures Depth(InnerStep(schema, path, token).value) == Depth(Child(AsSchema, Obj(schema), path, token).value)
  {
    if IsFlag(schema, Unescape(token)) {
      FlagDepth(schema, path, token);
    }
  }

  /** An exclusive flag and the number in its place are both scalars. */
  lemma FlagDepth(schema: seq<Field>, path: string, token: string)
    requires UniqueKeys(schema) && Bounded(schema, path).Ok? && IsFlag(schema, Unescape(token))
    ensures InnerStep(schema, path, token).Some? && Depth(InnerStep(schema, path, token).value) == 0
    ensures Child(AsSchema, Obj(schema), path, token).Some? && Depth(Child(AsSchema, Obj(schema), path, token).value) == 0
  {
    FlagNumberDepth(schema, path, token);
    FlagChildDepth(schema, path, token);
  }

  lemma FlagNumberDepth(schema: seq<Field>, path: string, token: string)
    requires UniqueKeys(schema) && Bounded(schema, path).Ok? && IsFlag(schema, Unescape(token))
    ensures InnerStep(schema, path, token).Some? && Depth(InnerStep(schema, path, token).value) == 0
  {
    FlagHasNumber(schema, path, Unescape(token));
    assert !Gone(schema, Unescape(token));
    ChangedKeyword(schema, path, token);
  }

  lemma {:induction false} FlagHasNumber(schema: seq<Field>, path: string, key: string)
    requires UniqueKeys(schema) && Bounded(schema, path).Ok? && IsFlag(schema, key)
    ensures Lookup(schema, BoundOf(key)).Some? && Lookup(schema, BoundOf(key)).value.Num?
  {
    BoundedAt(schema, path, key);
  }

  lemma FlagChildDepth(schema: seq<Field>, path: string, token: string)
    requires IsFlag(schema, Unescape(token))
    ensures Child(AsSchema, Obj(schema), path, token).Some? && Depth(Child(AsSchema, Obj(schema), path, token).value) == 0
  {
  }

  lemma {:induction false} TypeChild(schema: seq<Field>, path: string, token: string)
    requires Unescape(token) == "type" && Has(schema, "type")
    ensures Child(AsSchema, Obj(schema), path, token) == Some(At(AsDocument, Lookup(schema, "type").value, path + "/" + "type"))
  {
    assert KindOf("type") == OtherKeyword;
  }

  lemma DeepestKeyword(schema: seq<Field>, path: string) returns (token: string)
    requires UniqueKeys(schema) && Bounded(schema, path).Ok? && DeepestField(AsSchema, schema, schema, path) > 0
    ensures InnerStep(schema, path, token).Some? && Child(AsSchema, Obj(schema), path, token).Some?
    ensures DeepestField(AsSchema, schema, schema, path) == 1 + Depth(InnerStep(schema, path, token).value)
    ensures DeepestField(AsSchema, schema, schema, path) == 1 + Depth(Child(AsSchema, Obj(schema), path, token).value)
  {
    token := DeepestMember(AsSchema, schema, path);
    KeywordDepth(schema, path, token);
  }

  lemma {:induction false} ScalarsAreShallow(item: Json, path: string)
    requires item.Str? || (item.Arr? && Hashable(item.items))
    ensures DepthOf(AsDocument, item, path) <= 1
  {
    if item.Arr? {
      DeepestItemIs(AsDocument, item.items, path, 0);
    }
  }

  lemma DeepestTyped(fields: seq<Field>, path: string) returns (token: string)
    requires UniqueKeys(fields) && NormalizeSchema(Obj(fields), true, path).Ok? && Nullable(fields) && !Wrapped(fields)
    ensures SchemaStep(fields, path, token).Some?
    ensures 1 + Depth(SchemaStep(fields, path, token).value) == Max(DeepestField(AsSchema, fields, fields, path), 2)
  {
    SchemaShape(fields, path);
    if DeepestField(AsSchema, fields, fields, path) <= 2 {
      EscapeRoundTrip("type");
      token := Escape("type");
      TypeDepth(fields, path, token);
    } else {
      token := DeepestKeyword(fields, path);
      if Unescape(token) == "type" {
        TypeChild(fields, path, token);
        ScalarsAreShallow(Lookup(fields, "type").value, path + "/" + "type");
        assert false;
      }
      OtherStep(fields, path, token);
    }
  }

  lemma DeepestWrapped(fields: seq<Field>, path: string) returns (token: string)
    requires Wrapped(fields)
    ensures SchemaStep(fields, path, token).Some?
    ensures DepthOf(AsSchema, Obj(fields), path) == 1 + Depth(SchemaStep(fields, path, token).value)
  {
    EscapeRoundTrip("anyOf");
    token := Escape("anyOf");
    WrappedDepth(fields, path, token);
  }

  lemma DeepestSchemaStep(fields: seq<Field>, path: string) returns (token: string)
    requires Keyed(Obj(fields)) && NormalizeSchema(Obj(fields), true, path).Ok? && DepthOf(AsSchema, Obj(fields), path) > 0
    ensures SchemaStep(fields, path, token).Some?
    ensures DepthOf(AsSchema, Obj(fields), path) == 1 + Depth(SchemaStep(fields, path, token).value)
  {
    if Wrapped(fields) {
      token := DeepestWrapped(fields, path);
    } else if Nullable(fields) {
      token := DeepestTyped(fields, path);
    } else {
      SchemaShape(fields, path);
      token := DeepestKeyword(fields, path);
      OtherStep(fields, path, token);
    }
  }

  lemma DeepestInPair(schema: seq<Field>, path: string) returns (token: string)
    ensures Moved(Pair(schema, path), token).Some?
    ensures Depth(Pair(schema, path)) == 1 + Depth(Moved(Pair(schema, path), token).value)
  {
    NullSchemaHeight();
    var i := if DeepestField(AsSchema, schema, schema, path) >= 1 then 0 else 1;
    EscapeRoundTrip(Decimal(i));
    DecimalRoundTrip(i);
    token := Escape(Decimal(i));
  }

  lemma DeepestStep(p: Position) returns (token: string)
    requires Ready(p) && Depth(p) > 0
    ensures Moved(p, token).Some? && Depth(p) == 1 + Depth(Moved(p, token).value)
  {
    match p
    case Whole(fields) =>
      token := DeepestMember(AsDocument, fields, "");
      assert Unescape(token) == VERSION_KEY ==> Child(AsDocument, Obj(fields), "", token).value.value == Str("3.0.3");
    case At(role, value, path) =>
      match value {
        case Obj(fields) =>
          if role == AsSchema {
            token := DeepestSchemaStep(fields, path);
          } else {
            token := DeepestMember(role, fields, path);
          }
        case Arr(items) => token := DeepestElement(role, items, path);
      }
    case Inner(schema, at) => token := DeepestKeyword(schema, at);
    case Pair(schema, at) => token := DeepestInPair(schema, at);
    case Made(made) => token := HighestChild(made);
  }

  lemma FoundKeyed(p: Position)
    requires Ready(p)
    ensures Keyed(Found(p).value)
  {
    match p
    case Whole(fields) =>
      FieldsKeyed(OpenApiObject, fields, true, "");
      PutKeyed(NormalizeFields(OpenApiObject, fields, true, "").value, VERSION_KEY, Str("3.1.0"));
    case At(role, value, path) => ImageKeyed(role, value, path);
    case Inner(schema, at) => BoundedKeyed(schema, at);
    case Pair(schema, at) => BoundedKeyed(schema, at); PairKeyed(Bounded(schema, at).value);
    case Made(_) =>
  }

  lemma PairKeyed(members: seq<Field>)
    requires Keyed(Obj(members))
    ensures Keyed(Arr([Obj(members), NULL_SCHEMA]))
  {
  }

  lemma BoundedKeyed(schema: seq<Field>, path: string)
    requires Keyed(Obj(schema)) && Bounded(schema, path).Ok?
    ensures Keyed(Obj(Bounded(schema, path).value))
  {
    FieldsKeyed(SchemaObject, schema, true, path);
    var members := NormalizeFields(SchemaObject, schema, true, path).value;
    FixBoundKeyed(schema, members, "minimum", "exclusiveMinimum", path);
    var lower := FixBound(schema, members, "minimum", "exclusiveMinimum", path).value;
    FixBoundKeyed(schema, lower, "maximum", "exclusiveMaximum", path);
  }

  lemma {:induction false} ImageKeyed(role: Role, value: Json, path: string)
    requires Keyed(value) && Image(role, value, path).Ok?
    ensures Keyed(Image(role, value, path).value)
  {
    match (role, value)
    case (AsDocument, _) => DocumentKeyed(value, true, path);
    case (AsSchema, _) => SchemaKeyed(value, true, path);
    case (AsSchemaMap, Obj(fields)) => FieldsKeyed(SchemaMap, fields, true, path);
    case (AsSchemaList, Arr(items)) => ItemsKeyed(true, items, true, path, 0);
    case (AsDependencies, Obj(fields)) => FieldsKeyed(DependencyMap, fields, true, path);
    case (AsData, _) => CanonicalKeyed(value);
    case _ =>
  }

  /** The translation of a position is nested exactly as deep as its depth says. */
  lemma {:induction false} DepthExact(p: Position)
    requires Ready(p)
    ensures Height(Found(p).value) == Depth(p)
    decreases Height(Found(p).value)
  {
    var value := Found(p).value;
    if Height(value) > 0 {
      FoundKeyed(p);
      var token := HighestChild(value);
      StepAgrees(p, token);
      ReadyStep(p, token);
      StepDepth(p, token);
      DepthExact(Moved(p, token).value);
    }
    if Depth(p) > 0 {
      var token := DeepestStep(p);
      ReadyStep(p, token);
      ChildIsLower(value, token);
      DepthExact(Moved(p, token).value);
    }
  }
}
