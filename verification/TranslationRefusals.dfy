/**
 What the 3.0.3 translation refuses.  A site is a schema object of the source that stands
 where the translation expects a schema, with the path an error would name; the sites are
 listed in the order in which the translation finishes with them.
 */
module TranslationRefusals {
  import opened Prelude
  import opened Json
  import opened SchemaNormaliser
  import opened KeyOrder
  import opened CanonicalForm
  import opened KeywordKinds
  import opened SchemaMeaning
  import opened MeaningPreservation
  import opened JsonPointer
  import opened DocumentImage

  datatype Site = Site(path: string, schema: seq<Field>)

  /** A schema comes after those inside it; what `nullable` holds is passed over. */
  function Sites(role: Role, value: Json, path: string): seq<Site>
    decreases value, 1
  {
    match value
    case Obj(fields) => MemberSites(role, fields, path) + if role == AsSchema then [Site(path, fields)] else []
    case Arr(items) => ElementSites(ElementRole(role), items, path, 0)
    case _ => []
  }

  function MemberSites(role: Role, fields: seq<Field>, path: string): seq<Site>
    decreases fields, 0
  {
    if |fields| == 0 then []
    else
      var Field(key, item) := fields[0];
      (if role == AsSchema && key == "nullable" then [] else Sites(MemberRole(role, path, fields[0]), item, path + "/" + key))
      + MemberSites(role, fields[1..], path)
  }

  function ElementSites(role: Role, items: seq<Json>, path: string, index: nat): seq<Site>
    decreases items, 0
  {
    if |items| == 0 then []
    else Sites(role, items[0], path + "/" + Decimal(index)) + ElementSites(role, items[1..], path, index + 1)
  }

  /** A bound is to be made exclusive, and there is no number to make it of. */
  predicate FlagWithoutNumber(schema: seq<Field>, exclusive: string, bound: string) {
    && Lookup(schema, exclusive) == Some(Bool(true))
    && !(Lookup(schema, bound).Some? && Lookup(schema, bound).value.Num?)
  }

  /** `null` is to be added to a list of types that holds a list or an object. */
  predicate UnhashableTypes(schema: seq<Field>) {
    && Lookup(schema, "nullable") == Some(Bool(true))
    && Lookup(schema, "type").Some? && Lookup(schema, "type").value.Arr?
    && var names := Lookup(schema, "type").value.items;
    exists i :: 0 <= i < |names| && (names[i].Arr? || names[i].Obj?)
  }

  function Objection(site: Site): Option<Refusal> {
    if FlagWithoutNumber(site.schema, "exclusiveMinimum", "minimum") then
      Some(LossyNormalization(site.path + "/" + "exclusiveMinimum"))
    else if FlagWithoutNumber(site.schema, "exclusiveMaximum", "maximum") then
      Some(LossyNormalization(site.path + "/" + "exclusiveMaximum"))
    else if UnhashableTypes(site.schema) then Some(UnhashableType(site.path))
    else None
  }

  predicate Translatable(sites: seq<Site>) {
    forall i :: 0 <= i < |sites| ==> Objection(sites[i]).None?
  }

  /** The refusal is the objection to the first site that has one. */
  predicate FirstRefusal(sites: seq<Site>, refusal: Refusal) {
    exists i :: 0 <= i < |sites| && Objection(sites[i]) == Some(refusal) && Translatable(sites[..i])
  }

  function FirstObjection(sites: seq<Site>): Option<Refusal> {
    if |sites| == 0 then None
    else if Objection(sites[0]).Some? then Objection(sites[0])
    else FirstObjection(sites[1..])
  }

  function RefusalOf<T>(outcome: Outcome<T>): Option<Refusal> {
    match outcome case Ok(_) => None case Err(refusal) => Some(refusal)
  }

  lemma {:induction false} FirstOfBoth(a: seq<Site>, b: seq<Site>)
    ensures FirstObjection(a + b) == if FirstObjection(a).Some? then FirstObjection(a) else FirstObjection(b)
  {
    if |a| == 0 {
      assert a + b == b;
    } else {
      assert (a + b)[1..] == a[1..] + b;
      FirstOfBoth(a[1..], b);
    }
  }

  lemma {:induction false} FirstObjectionExact(sites: seq<Site>)
    ensures FirstObjection(sites).None? <==> Translatable(sites)
    ensures FirstObjection(sites).Some? ==> FirstRefusal(sites, FirstObjection(sites).value)
  {
    if |sites| != 0 {
      FirstObjectionExact(sites[1..]);
      assert sites == [sites[0]] + sites[1..];
      if Objection(sites[0]).Some? {
        assert Translatable(sites[..0]);
      } else if FirstObjection(sites).Some? {
        var i :| 0 <= i < |sites[1..]| && Objection(sites[1..][i]) == FirstObjection(sites) && Translatable(sites[1..][..i]);
        var earlier := sites[..i + 1];
        forall j | 0 <= j < |earlier| ensures Objection(earlier[j]).None? {
          if j > 0 {
            assert earlier[j] == sites[1..][..i][j - 1];
          }
        }
        assert Objection(sites[i + 1]) == FirstObjection(sites);
      }
    }
  }

  // ---------- where there are no schemas ----------

  lemma {:induction false} NoSites(role: Role, value: Json, path: string)
    requires role == AsData || role == AsIs
    ensures Sites(role, value, path) == []
    decreases value, 1
  {
    match value
    case Obj(fields) => NoMemberSites(role, fields, path);
    case Arr(items) => NoElementSites(ElementRole(role), items, path, 0);
    case _ =>
  }

  lemma {:induction false} NoMemberSites(role: Role, fields: seq<Field>, path: string)
    requires role in {AsData, AsIs, AsSchemaList}
    ensures MemberSites(role, fields, path) == []
    decreases fields, 0
  {
    if |fields| != 0 {
      NoSites(MemberRole(role, path, fields[0]), fields[0].value, path + "/" + fields[0].key);
      NoMemberSites(role, fields[1..], path);
    }
  }

  lemma {:induction false} NoElementSites(role: Role, items: seq<Json>, path: string, index: nat)
    requires role == AsData || role == AsIs
    ensures ElementSites(role, items, path, index) == []
    decreases items, 0
  {
    if |items| != 0 {
      NoSites(role, items[0], path + "/" + Decimal(index));
      NoElementSites(role, items[1..], path, index + 1);
    }
  }

  // ---------- the translation refuses what the sites object to ----------

  lemma {:induction false} ImageRefuses(role: Role, value: Json, path: string)
    requires Keyed(value)
    ensures RefusalOf(Image(role, value, path)) == FirstObjection(Sites(role, value, path))
    decreases value, 2
  {
    match value
    case Obj(fields) =>
      if role == AsSchema {
        SchemaRefuses(fields, path);
      } else if role in {AsDocument, AsSchemaMap, AsDependencies} {
        MembersRefuse(role, fields, path);
        assert Sites(role, value, path) == MemberSites(role, fields, path);
      } else {
        NoMemberSites(role, fields, path);
      }
    case Arr(items) =>
      match role {
        case AsDocument => ElementsRefuse(false, items, path, 0);
        case AsSchemaList => ElementsRefuse(true, items, path, 0);
        case _ => NoElementSites(ElementRole(role), items, path, 0);
      }
    case _ =>
  }

  lemma {:induction false} MembersRefuse(role: Role, fields: seq<Field>, path: string)
    requires Keyed(Obj(fields)) && role in {AsDocument, AsSchema, AsSchemaMap, AsDependencies}
    ensures RefusalOf(NormalizeFields(HolderOf(role), fields, true, path)) == FirstObjection(MemberSites(role, fields, path))
    decreases fields, 0
  {
    if |fields| != 0 {
      MembersRefuse(role, fields[1..], path);
      if Dropped(HolderOf(role), fields[0].key, true) {
        assert MemberSites(role, fields, path) == MemberSites(role, fields[1..], path);
      } else {
        assert Keyed(fields[0].value);
        var below := MemberRole(role, path, fields[0]);
        MemberImage(role, fields[0], path);
        ImageRefuses(below, fields[0].value, path + "/" + fields[0].key);
        FirstOfBoth(Sites(below, fields[0].value, path + "/" + fields[0].key), MemberSites(role, fields[1..], path));
      }
    }
  }

  lemma {:induction false} ElementsRefuse(schemas: bool, items: seq<Json>, path: string, index: nat)
    requires Keyed(Arr(items))
    ensures RefusalOf(NormalizeItems(schemas, items, true, path, index))
      == FirstObjection(ElementSites(if schemas then AsSchema else AsDocument, items, path, index))
    decreases items, 0
  {
    if |items| != 0 {
      var role := if schemas then AsSchema else AsDocument;
      assert Keyed(items[0]);
      ImageRefuses(role, items[0], path + "/" + Decimal(index));
      ElementsRefuse(schemas, items[1..], path, index + 1);
      FirstOfBoth(Sites(role, items[0], path + "/" + Decimal(index)), ElementSites(role, items[1..], path, index + 1));
    }
  }

  lemma {:induction false} SchemaRefuses(fields: seq<Field>, path: string)
    requires Keyed(Obj(fields))
    ensures RefusalOf(NormalizeSchema(Obj(fields), true, path)) == FirstObjection(Sites(AsSchema, Obj(fields), path))
    decreases fields, 1
  {
    MembersRefuse(AsSchema, fields, path);
    FirstOfBoth(MemberSites(AsSchema, fields, path), [Site(path, fields)]);
    OneObjection(Site(path, fields));
    var members := NormalizeFields(SchemaObject, fields, true, path);
    if members.Ok? {
      OwnRefusal(fields, path);
    }
  }

  lemma OneObjection(site: Site)
    ensures FirstObjection([site]) == Objection(site)
  {
    assert [site][1..] == [];
  }

  /** Once what is inside a schema is translated, only the schema itself can be refused. */
  lemma {:induction false} OwnRefusal(fields: seq<Field>, path: string)
    requires UniqueKeys(fields) && NormalizeFields(SchemaObject, fields, true, path).Ok?
    ensures RefusalOf(NormalizeSchema(Obj(fields), true, path)) == Objection(Site(path, fields))
  {
    var bounded := Bounded(fields, path);
    BoundRefusal(fields, path);
    if bounded.Ok? {
      TypeBefore(fields, path);
      TypeRefusal(fields, path);
    }
  }

  lemma {:induction false} BoundRefusal(fields: seq<Field>, path: string)
    requires NormalizeFields(SchemaObject, fields, true, path).Ok?
    ensures RefusalOf(Bounded(fields, path)) ==
      if FlagWithoutNumber(fields, "exclusiveMinimum", "minimum") then Some(LossyNormalization(path + "/" + "exclusiveMinimum"))
      else if FlagWithoutNumber(fields, "exclusiveMaximum", "maximum") then Some(LossyNormalization(path + "/" + "exclusiveMaximum"))
      else None
    ensures Bounded(fields, path).Err? ==>
      NormalizeSchema(Obj(fields), true, path).Err? && NormalizeSchema(Obj(fields), true, path).error == Bounded(fields, path).error
    ensures Bounded(fields, path).Ok? ==>
      NormalizeSchema(Obj(fields), true, path) == FixNullable(fields, Bounded(fields, path).value, path)
  {
  }

  lemma TypeRefusal(fields: seq<Field>, path: string)
    requires UniqueKeys(fields) && Bounded(fields, path).Ok?
    ensures RefusalOf(FixNullable(fields, Bounded(fields, path).value, path)) ==
      if UnhashableTypes(fields) then Some(UnhashableType(path)) else None
  {
    TypeBefore(fields, path);
    if Has(fields, "type") && Lookup(fields, "type").value.Arr? {
      ScalarsStay(Lookup(fields, "type").value.items, path + "/type", 0);
    }
  }

  // ---------- exactly ----------

  /**
   A schema is translated exactly when, in every schema position at any depth, each
   exclusive bound that is `true` stands next to a number under its own bound, and a
   nullable schema's list of types holds no list or object; otherwise the refusal names the
   first that fails.
   */
  lemma {:induction false} SchemaRefusedExact(schema: Json, path: string)
    requires Keyed(schema)
    ensures NormalizeSchema(schema, true, path).Ok? <==> Translatable(Sites(AsSchema, schema, path))
    ensures NormalizeSchema(schema, true, path).Err? ==>
      FirstRefusal(Sites(AsSchema, schema, path), NormalizeSchema(schema, true, path).error)
  {
    ImageRefuses(AsSchema, schema, path);
    FirstObjectionExact(Sites(AsSchema, schema, path));
  }

  /** The schemas of a whole document; none are looked at unless it is to be rewritten. */
  function DocumentSites(fields: seq<Field>): seq<Site> {
    if Lookup(fields, VERSION_KEY) == Some(Str("3.0.3")) then Sites(AsDocument, Obj(fields), "") else []
  }

  /** The same for a 3.0.3 document; no other document is refused. */
  lemma DocumentRefusedExact(fields: seq<Field>)
    requires Keyed(Obj(fields))
    ensures Normalized(fields).Ok? <==> Translatable(DocumentSites(fields))
    ensures Normalized(fields).Err? ==> FirstRefusal(DocumentSites(fields), Normalized(fields).error)
  {
    if Lookup(fields, VERSION_KEY) == Some(Str("3.0.3")) {
      MembersRefuse(AsDocument, fields, "");
      assert Sites(AsDocument, Obj(fields), "") == MemberSites(AsDocument, fields, "");
      FirstObjectionExact(DocumentSites(fields));
    } else {
      PlainTranslation(fields);
    }
  }
}
