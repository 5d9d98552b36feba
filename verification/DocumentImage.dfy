/**
 Where the translation puts things.  A position is a place of the translated document,
 named by what stands there in the source; `Moved` is one step of a JSON Pointer through
 the translated document, taken on the source.
 */
module DocumentImage {
  import opened Prelude
  import opened Json
  import opened KeyOrder
  import opened SchemaNormaliser
  import opened CanonicalForm
  import opened KeywordKinds
  import opened SchemaMeaning
  import opened MeaningPreservation
  import opened SchemaResidue
  import opened JsonPointer
  import opened RefResolution

  /** How the translation treats a value; `AsIs` is what it passes by, such as a list where a schema should be. */
  datatype Role = AsDocument | AsSchema | AsSchemaMap | AsSchemaList | AsDependencies | AsData | AsIs

  function Image(role: Role, value: Json, path: string): Outcome<Json> {
    match (role, value)
    case (AsDocument, _) => NormalizeDocument(value, true, path)
    case (AsSchema, _) => NormalizeSchema(value, true, path)
    case (AsSchemaMap, Obj(fields)) =>
      var schemas :- NormalizeFields(SchemaMap, fields, true, path);
      Ok(Obj(schemas))
    case (AsSchemaList, Arr(items)) =>
      var schemas :- NormalizeItems(true, items, true, path, 0);
      Ok(Arr(schemas))
    case (AsDependencies, Obj(fields)) =>
      var dependencies :- NormalizeFields(DependencyMap, fields, true, path);
      Ok(Obj(dependencies))
    case (AsData, _) => Ok(Canonical(value))
    case _ => Ok(value)
  }

  function ArgumentRole(kind: Kind, item: Json): Role {
    match (kind, item)
    case (DataKeyword, _) => AsData
    case (MapKeyword, Obj(_)) => AsSchemaMap
    case (ListKeyword, Arr(_)) => AsSchemaList
    case (SchemaKeyword, Obj(_)) => AsSchema
    case (DependencyKeyword, Obj(_)) => AsDependencies
    case _ => AsDocument
  }

  function MemberRole(role: Role, path: string, field: Field): Role {
    match role
    case AsDocument =>
      if field.key == "schema" then AsSchema
      else if path == "/components" && field.key == "schemas" && field.value.Obj? then AsSchemaMap
      else if IsDocumentData(field.key) then AsData
      else AsDocument
    case AsSchema => ArgumentRole(KindOf(field.key), field.value)
    case AsSchemaMap => AsSchema
    case AsDependencies => if field.value.Obj? then AsSchema else AsData
    case AsSchemaList => AsIs
    case _ => role
  }

  function ElementRole(role: Role): Role {
    match role
    case AsSchemaList => AsSchema
    case AsDocument => AsDocument
    case AsData => AsData
    case _ => AsIs
  }

  // ---------- positions ----------

  datatype Position =
    | Whole(fields: seq<Field>)                          // the document
    | At(role: Role, value: Json, path: string)          // a value of the source
    | Pair(schema: seq<Field>, at: string)               // the `anyOf` list around a nullable schema without a type
    | Inner(schema: seq<Field>, at: string)              // that schema, inside the list
    | Made(made: Json)                                   // a value the translation makes

  /** What stands at a position of the translated document. */
  function Found(p: Position): Outcome<Json> {
    match p
    case Whole(fields) =>
      var members :- NormalizeFields(OpenApiObject, fields, true, "");
      Ok(Obj(Put(members, VERSION_KEY, Str("3.1.0"))))
    case At(role, value, path) => Image(role, value, path)
    case Pair(schema, at) =>
      var members :- Bounded(schema, at);
      Ok(Arr([Obj(members), NULL_SCHEMA]))
    case Inner(schema, at) =>
      var members :- Bounded(schema, at);
      Ok(Obj(members))
    case Made(made) => Ok(made)
  }

  predicate HasTypeText(fields: seq<Field>) {
    match Lookup(fields, "type")
    case Some(Str(_)) => true
    case Some(Arr(_)) => true
    case _ => false
  }

  /** The schemas the translation moves one level down, into an `anyOf` list. */
  predicate Wrapped(fields: seq<Field>) {
    Nullable(fields) && !HasTypeText(fields)
  }

  /** The type array of a nullable schema with a type. */
  function NullableType(item: Json): Json {
    match item
    case Str(name) => Arr([Str(name), Str("null")])
    case Arr(names) => Arr(Distinct(names + [Str("null")]))
    case other => other
  }

  const BOUNDS := {"minimum", "maximum"}

  function Exclusive(bound: string): string {
    if bound == "minimum" then "exclusiveMinimum" else "exclusiveMaximum"
  }

  function BoundOf(exclusive: string): string {
    if exclusive == "exclusiveMinimum" then "minimum" else "maximum"
  }

  /** The keywords that are gone: `nullable`, a bound made exclusive, an exclusive flag that is false. */
  predicate Gone(fields: seq<Field>, name: string) {
    || name == "nullable"
    || (name in BOUNDS && Lookup(fields, Exclusive(name)) == Some(Bool(true)))
    || (name in EXCLUSIVE_BOUNDS && Lookup(fields, name) == Some(Bool(false)))
  }

  predicate IsFlag(fields: seq<Field>, name: string) {
    name in EXCLUSIVE_BOUNDS && Lookup(fields, name) == Some(Bool(true))
  }

  /** One step through the source. */
  function Child(role: Role, value: Json, path: string, token: string): Option<Position> {
    var name := Unescape(token);
    match value
    case Obj(fields) =>
      (match Lookup(fields, name)
       case Some(item) => Some(At(MemberRole(role, path, Field(name, item)), item, path + "/" + name))
       case None => None)
    case Arr(items) =>
      if IsDigits(name) && ParseNat(name) < |items| then
        Some(At(ElementRole(role), items[ParseNat(name)], path + "/" + Decimal(ParseNat(name))))
      else None
    case _ => None
  }

  function InnerStep(fields: seq<Field>, path: string, token: string): Option<Position> {
    var name := Unescape(token);
    if Gone(fields, name) then None
    else if IsFlag(fields, name) then (
      match Lookup(fields, BoundOf(name)) case Some(number) => Some(Made(number)) case None => None)
    else Child(AsSchema, Obj(fields), path, token)
  }

  function SchemaStep(fields: seq<Field>, path: string, token: string): Option<Position> {
    var name := Unescape(token);
    if Wrapped(fields) then if name == "anyOf" then Some(Pair(fields, path)) else None
    else if Nullable(fields) && name == "type" then Some(Made(NullableType(Lookup(fields, "type").value)))
    else InnerStep(fields, path, token)
  }

  /** One step of a pointer through the translated document. */
  function Moved(p: Position, token: string): Option<Position> {
    var name := Unescape(token);
    match p
    case Whole(fields) =>
      if name == VERSION_KEY then Some(Made(Str("3.1.0"))) else Child(AsDocument, Obj(fields), "", token)
    case At(role, value, path) =>
      if role == AsSchema && value.Obj? then SchemaStep(value.fields, path, token) else Child(role, value, path, token)
    case Pair(schema, at) =>
      if IsDigits(name) && ParseNat(name) == 0 then Some(Inner(schema, at))
      else if IsDigits(name) && ParseNat(name) == 1 then Some(Made(NULL_SCHEMA))
      else None
    case Inner(schema, at) => InnerStep(schema, at, token)
    case Made(made) => (match Descend(made, token) case Some(child) => Some(Made(child)) case None => None)
  }

  function Trail(p: Position, tokens: seq<string>): Option<Position>
    decreases tokens
  {
    if |tokens| == 0 then Some(p)
    else match Moved(p, tokens[0]) case Some(q) => Trail(q, tokens[1..]) case None => None
  }

  // ---------- the positions are those of the translated document ----------

  /** A step to `q`, or nowhere, where the translated value has `child`, or nothing. */
  predicate Agree(q: Option<Position>, child: Option<Json>) {
    match q
    case Some(p) => Found(p).Ok? && child == Some(Found(p).value)
    case None => child == None
  }

  lemma ArgumentImage(kind: Kind, item: Json, path: string)
    ensures NormalizeArgument(kind, item, path) == Image(ArgumentRole(kind, item), item, path)
  {
  }

  function HolderOf(role: Role): Holder {
    match role
    case AsSchema => SchemaObject
    case AsSchemaMap => SchemaMap
    case AsDependencies => DependencyMap
    case _ => OpenApiObject
  }

  lemma {:induction false} MemberImage(role: Role, field: Field, path: string)
    requires role in {AsDocument, AsSchema, AsSchemaMap, AsDependencies}
    ensures NormalizeField(HolderOf(role), field, true, path)
      == Image(MemberRole(role, path, field), field.value, path + "/" + field.key)
  {
    if role == AsSchema {
      KeywordByKind(field, path + "/" + field.key);
      ArgumentImage(KindOf(field.key), field.value, path + "/" + field.key);
    }
  }

  /** A step into a translated object, before the rewriting of schemas. */
  lemma {:induction false} MemberStep(role: Role, fields: seq<Field>, path: string, token: string)
    requires role in {AsDocument, AsSchema, AsSchemaMap, AsDependencies}
    requires NormalizeFields(HolderOf(role), fields, true, path).Ok?
    requires role == AsSchema ==> Unescape(token) != "nullable"
    ensures Agree(Child(role, Obj(fields), path, token),
                  Lookup(NormalizeFields(HolderOf(role), fields, true, path).value, Unescape(token)))
  {
    var name := Unescape(token);
    FieldsLookup(HolderOf(role), fields, true, path, name);
    if Has(fields, name) {
      MemberImage(role, Field(name, Lookup(fields, name).value), path);
    }
  }

  lemma {:induction false} ItemElement(items: seq<Json>, path: string, index: nat, i: nat)
    requires NormalizeItems(false, items, true, path, index).Ok? && i < |items|
    ensures var members := NormalizeItems(false, items, true, path, index).value;
      && |members| == |items|
      && NormalizeDocument(items[i], true, path + "/" + Decimal(index + i)) == Ok(members[i])
  {
    if i > 0 {
      ItemElement(items[1..], path, index + 1, i - 1);
    } else if |items| > 1 {
      ItemElement(items[1..], path, index + 1, 0);
    }
  }

  lemma ElementStep(role: Role, items: seq<Json>, path: string, token: string)
    requires Image(role, Arr(items), path).Ok?
    ensures Agree(Child(role, Arr(items), path, token), Descend(Image(role, Arr(items), path).value, token))
  {
    var name := Unescape(token);
    if |items| != 0 {
      var i := if IsDigits(name) && ParseNat(name) < |items| then ParseNat(name) else 0;
      match role
      case AsDocument => ItemElement(items, path, 0, i);
      case AsSchemaList => ListElement(items, true, path, 0, i);
      case _ =>
    } else {
      assert NormalizeItems(false, items, true, path, 0) == NormalizeItems(true, items, true, path, 0) == Ok([]);
    }
  }

  /** One keyword after one bound is settled. */
  lemma {:induction false} OneFixed(
    fields: seq<Field>, members: seq<Field>, bound: string, exclusive: string, path: string, key: string)
    requires UniqueKeys(members) && bound != exclusive && FixBound(fields, members, bound, exclusive, path).Ok?
    ensures var fixed, flag := FixBound(fields, members, bound, exclusive, path).value, Lookup(fields, exclusive);
      && UniqueKeys(fixed)
      && (flag == Some(Bool(true)) ==> Lookup(fields, bound).Some? && Lookup(fields, bound).value.Num?)
      && Lookup(fixed, key) ==
           if (key == bound && flag == Some(Bool(true))) || (key == exclusive && flag == Some(Bool(false))) then None
           else if key == exclusive && flag == Some(Bool(true)) then Lookup(fields, bound)
           else Lookup(members, key)
  {
    FixBoundLookup(fields, members, bound, exclusive, path, key);
  }

  /** One keyword after the two bounds are settled, whatever the keywords were translated to. */
  lemma {:induction false} FixedAt(fields: seq<Field>, members: seq<Field>, path: string, key: string)
    requires UniqueKeys(members) && FixBound(fields, members, "minimum", "exclusiveMinimum", path).Ok?
    requires var lower := FixBound(fields, members, "minimum", "exclusiveMinimum", path).value;
      FixBound(fields, lower, "maximum", "exclusiveMaximum", path).Ok?
    ensures var lower := FixBound(fields, members, "minimum", "exclusiveMinimum", path).value;
      var upper := FixBound(fields, lower, "maximum", "exclusiveMaximum", path).value;
      && UniqueKeys(upper)
      && Lookup(upper, key) ==
           (if key != "nullable" && Gone(fields, key) then None
            else if IsFlag(fields, key) then Lookup(fields, BoundOf(key))
            else Lookup(members, key))
      && (IsFlag(fields, key) ==> Lookup(fields, BoundOf(key)).Some? && Lookup(fields, BoundOf(key)).value.Num?)
  {
    var lower := FixBound(fields, members, "minimum", "exclusiveMinimum", path).value;
    OneFixed(fields, members, "minimum", "exclusiveMinimum", path, key);
    OneFixed(fields, lower, "maximum", "exclusiveMaximum", path, key);
  }

  /** One keyword of a schema after the two bounds are settled. */
  lemma {:induction false} BoundedAt(fields: seq<Field>, path: string, key: string)
    requires UniqueKeys(fields) && Bounded(fields, path).Ok?
    ensures var members := NormalizeFields(SchemaObject, fields, true, path).value;
      Lookup(Bounded(fields, path).value, key) ==
        if Gone(fields, key) then None
        else if IsFlag(fields, key) then Lookup(fields, BoundOf(key))
        else Lookup(members, key)
    ensures IsFlag(fields, key) ==> Lookup(fields, BoundOf(key)).Some? && Lookup(fields, BoundOf(key)).value.Num?
    ensures UniqueKeys(Bounded(fields, path).value)
  {
    var members := NormalizeFields(SchemaObject, fields, true, path).value;
    FieldsKeepKeys(SchemaObject, fields, true, path);
    FieldsLookup(SchemaObject, fields, true, path, "nullable");
    FixedAt(fields, members, path, key);
  }

  lemma InnerAgrees(fields: seq<Field>, path: string, token: string)
    requires UniqueKeys(fields) && Bounded(fields, path).Ok?
    ensures Agree(InnerStep(fields, path, token), Lookup(Bounded(fields, path).value, Unescape(token)))
  {
    var name := Unescape(token);
    BoundedAt(fields, path, name);
    if Gone(fields, name) || IsFlag(fields, name) {
      ChangedKeyword(fields, path, token);
    } else {
      MemberStep(AsSchema, fields, path, token);
      assert InnerStep(fields, path, token) == Child(AsSchema, Obj(fields), path, token);
    }
  }

  lemma {:induction false} ChangedKeyword(fields: seq<Field>, path: string, token: string)
    requires Gone(fields, Unescape(token)) || IsFlag(fields, Unescape(token))
    ensures var name := Unescape(token);
      InnerStep(fields, path, token) ==
        if Gone(fields, name) || Lookup(fields, BoundOf(name)).None? then None
        else Some(Made(Lookup(fields, BoundOf(name)).value))
  {
  }

  /** The `type` keyword before `nullable` is dealt with. */
  lemma {:induction false} TypeBefore(fields: seq<Field>, path: string)
    requires UniqueKeys(fields) && Bounded(fields, path).Ok?
    ensures var members := Bounded(fields, path).value;
      && (Has(members, "type") <==> Has(fields, "type"))
      && (Has(fields, "type") ==>
            && Lookup(members, "type").value.Str? == Lookup(fields, "type").value.Str?
            && Lookup(members, "type").value.Arr? == Lookup(fields, "type").value.Arr?
            && (Lookup(fields, "type").value.Str? ==> Lookup(members, "type") == Lookup(fields, "type"))
            && NormalizeDocument(Lookup(fields, "type").value, true, path + "/type") == Ok(Lookup(members, "type").value))
  {
    BoundedAt(fields, path, "type");
    FieldsLookup(SchemaObject, fields, true, path, "type");
    if Has(fields, "type") {
      var item := Lookup(fields, "type").value;
      assert path + "/" + "type" == path + "/type";
      TypeArgument(item, path + "/type");
      DocumentStaysPut(item, path + "/type");
      assert !item.Arr? && !item.Obj? ==> NormalizeDocument(item, true, path + "/type") == Ok(item);
    }
  }

  lemma {:induction false} TypeArgument(item: Json, path: string)
    ensures NormalizeKeyword(Field("type", item), true, path) == NormalizeDocument(item, true, path)
  {
    assert !IsSchemaData("type");
  }

  lemma HashableSplit(values: seq<Json>)
    requires |values| != 0
    ensures Hashable(values) <==> !values[0].Arr? && !values[0].Obj? && Hashable(values[1..])
  {
    assert forall i :: 0 < i < |values| ==> values[i] == values[1..][i - 1];
    assert forall i :: 0 <= i < |values[1..]| ==> values[1..][i] == values[i + 1];
  }

  /** A list of scalars is translated to itself, and only such a list to one. */
  lemma {:induction false} ScalarsStay(items: seq<Json>, path: string, index: nat)
    requires NormalizeItems(false, items, true, path, index).Ok?
    ensures var results := NormalizeItems(false, items, true, path, index).value;
      && (Hashable(results) <==> Hashable(items))
      && (Hashable(items) ==> results == items)
  {
    if |items| != 0 {
      var results := NormalizeItems(false, items, true, path, index).value;
      ScalarsStay(items[1..], path, index + 1);
      DocumentStaysPut(items[0], path + "/" + Decimal(index));
      assert results[1..] == NormalizeItems(false, items[1..], true, path, index + 1).value;
      HashableSplit(items);
      HashableSplit(results);
    }
  }

  /** The translation of a schema object, by its three shapes. */
  lemma {:induction false} SchemaShape(fields: seq<Field>, path: string)
    requires UniqueKeys(fields) && NormalizeSchema(Obj(fields), true, path).Ok?
    ensures Bounded(fields, path).Ok?
    ensures NormalizeSchema(Obj(fields), true, path).value ==
      var members := Bounded(fields, path).value;
      if Wrapped(fields) then Obj([Field("anyOf", Arr([Obj(members), NULL_SCHEMA]))])
      else if Nullable(fields) then Obj(Put(members, "type", NullableType(Lookup(fields, "type").value)))
      else Obj(members)
    ensures Nullable(fields) && Lookup(fields, "type").Some? && Lookup(fields, "type").value.Arr? ==>
      Hashable(Lookup(fields, "type").value.items)
  {
    SchemaIsBounded(fields, path);
    TypeBefore(fields, path);
    if Nullable(fields) && Has(fields, "type") && Lookup(fields, "type").value.Arr? {
      ScalarsStay(Lookup(fields, "type").value.items, path + "/type", 0);
    }
  }

  lemma {:induction false} OnlyField(field: Field, name: string)
    ensures Lookup([field], name) == if name == field.key then Some(field.value) else None
  {
    OnlyKey(field);
  }

  lemma {:induction false} SchemaAgrees(fields: seq<Field>, path: string, token: string)
    requires UniqueKeys(fields) && NormalizeSchema(Obj(fields), true, path).Ok?
    ensures Agree(SchemaStep(fields, path, token), Descend(NormalizeSchema(Obj(fields), true, path).value, token))
  {
    var name := Unescape(token);
    SchemaShape(fields, path);
    var members := Bounded(fields, path).value;
    if Wrapped(fields) {
      OnlyField(Field("anyOf", Arr([Obj(members), NULL_SCHEMA])), name);
    } else {
      InnerAgrees(fields, path, token);
      if Nullable(fields) {
        LookupPut(members, "type", NullableType(Lookup(fields, "type").value), name);
      }
    }
  }

  lemma WholeAgrees(fields: seq<Field>, token: string)
    requires Found(Whole(fields)).Ok?
    ensures Agree(Moved(Whole(fields), token), Descend(Found(Whole(fields)).value, token))
  {
    var members := NormalizeFields(OpenApiObject, fields, true, "").value;
    MemberStep(AsDocument, fields, "", token);
    LookupPut(members, VERSION_KEY, Str("3.1.0"), Unescape(token));
  }

  lemma {:induction false} AtAgrees(role: Role, value: Json, path: string, token: string)
    requires Keyed(value) && Image(role, value, path).Ok?
    ensures Agree(Moved(At(role, value, path), token), Descend(Image(role, value, path).value, token))
  {
    match value
    case Obj(fields) =>
      match role {
        case AsSchema => SchemaAgrees(fields, path, token);
        case AsDocument => MemberStep(role, fields, path, token);
        case AsSchemaMap => MemberStep(role, fields, path, token);
        case AsDependencies => MemberStep(role, fields, path, token);
        case AsData => DescendCanonical(value, token);
        case _ =>
      }
    case Arr(items) => ElementStep(role, items, path, token);
    case _ =>
  }

  ghost predicate Sourced(p: Position) {
    match p
    case Whole(fields) => Keyed(Obj(fields))
    case At(_, value, _) => Keyed(value)
    case Pair(schema, _) => Keyed(Obj(schema))
    case Inner(schema, _) => Keyed(Obj(schema))
    case Made(made) => Keyed(made)
  }

  /** One step through the translated document leads to what `Moved` says, and nowhere else. */
  lemma StepAgrees(p: Position, token: string)
    requires Sourced(p) && Found(p).Ok?
    ensures Agree(Moved(p, token), Descend(Found(p).value, token))
  {
    match p
    case Whole(fields) => WholeAgrees(fields, token);
    case At(role, value, path) => AtAgrees(role, value, path, token);
    case Inner(schema, at) => InnerAgrees(schema, at, token);
    case _ =>
  }

  lemma {:induction false} ChildKeyed(role: Role, value: Json, path: string, token: string)
    requires Keyed(value) && Child(role, value, path, token).Some?
    ensures Sourced(Child(role, value, path, token).value)
  {
  }

  lemma {:induction false} NullableTypeKeyed(item: Json)
    requires Keyed(item)
    ensures Keyed(NullableType(item))
  {
    match item
    case Arr(names) =>
      var types := Distinct(names + [Str("null")]);
      forall i | 0 <= i < |types| ensures Keyed(types[i]) {
        assert types[i] in names + [Str("null")];
      }
    case _ =>
  }

  lemma StepSourced(p: Position, token: string)
    requires Sourced(p) && Moved(p, token).Some?
    ensures Sourced(Moved(p, token).value)
  {
    match p
    case Whole(fields) =>
      if Unescape(token) != VERSION_KEY {
        ChildKeyed(AsDocument, Obj(fields), "", token);
      }
    case At(role, value, path) =>
      if role == AsSchema && value.Obj? {
        SchemaStepSourced(value.fields, path, token);
      } else {
        ChildKeyed(role, value, path, token);
      }
    case Inner(schema, at) => InnerStepSourced(schema, at, token);
    case Made(made) => ChildKeyed(AsIs, made, "", token);
    case _ =>
  }

  lemma InnerStepSourced(schema: seq<Field>, path: string, token: string)
    requires Keyed(Obj(schema)) && InnerStep(schema, path, token).Some?
    ensures Sourced(InnerStep(schema, path, token).value)
  {
    if Gone(schema, Unescape(token)) || IsFlag(schema, Unescape(token)) {
      ChangedKeyword(schema, path, token);
    } else {
      ChildKeyed(AsSchema, Obj(schema), path, token);
    }
  }

  lemma SchemaStepSourced(fields: seq<Field>, path: string, token: string)
    requires Keyed(Obj(fields)) && SchemaStep(fields, path, token).Some?
    ensures Sourced(SchemaStep(fields, path, token).value)
  {
    if !Wrapped(fields) {
      if Nullable(fields) && Unescape(token) == "type" {
        NullableTypeKeyed(Lookup(fields, "type").value);
      } else {
        InnerStepSourced(fields, path, token);
      }
    }
  }

  /**
   For any sequence of tokens, whether or not they lead anywhere in the source: the
   translated document has a node there exactly when the trail has a position, and then
   the translation of that position.
   */
  lemma {:induction false} TrailExact(p: Position, tokens: seq<string>)
    requires Sourced(p) && Found(p).Ok?
    ensures Agree(Trail(p, tokens), DescendAll(Found(p).value, tokens))
    ensures Trail(p, tokens).Some? ==> Sourced(Trail(p, tokens).value)
    decreases tokens
  {
    if |tokens| != 0 {
      StepAgrees(p, tokens[0]);
      if Moved(p, tokens[0]).Some? {
        StepSourced(p, tokens[0]);
        TrailExact(Moved(p, tokens[0]).value, tokens[1..]);
      }
    }
  }
}
