/**
 Canonical form: what `_canonical` and the translation do to key order, and why a
 normalised document is a fixed point of both.
 */
module CanonicalForm {
  import opened Prelude
  import opened Json
  import opened SchemaNormaliser
  import opened KeyOrder

  // ---------- `_canonical` sorts every level, once and for all ----------

  ghost predicate IsCanonical(value: Json) {
    match value
    case Arr(items) => forall i :: 0 <= i < |items| ==> IsCanonical(items[i])
    case Obj(fields) => Ordered(fields) && forall i :: 0 <= i < |fields| ==> IsCanonical(fields[i].value)
    case _ => true
  }

  lemma {:induction false} CanonicalIsCanonical(value: Json)
    ensures IsCanonical(Canonical(value))
  {
    match value
    case Arr(items) =>
      forall i | 0 <= i < |items| ensures IsCanonical(CanonicalItems(items)[i]) {
        CanonicalIsCanonical(items[i]);
      }
    case Obj(fields) =>
      var unsorted := CanonicalFields(fields);
      var sorted := SortFields(unsorted);
      SortOrdered(unsorted);
      SortMembers(unsorted);
      forall i | 0 <= i < |sorted| ensures IsCanonical(sorted[i].value) {
        assert sorted[i] in multiset(sorted);
        var j :| 0 <= j < |unsorted| && unsorted[j] == sorted[i];
        CanonicalIsCanonical(fields[j].value);
      }
    case _ =>
  }

  lemma {:induction false} CanonicalFixed(value: Json)
    requires IsCanonical(value)
    ensures Canonical(value) == value
  {
    match value
    case Arr(items) =>
      forall i | 0 <= i < |items| ensures Canonical(items[i]) == items[i] {
        CanonicalFixed(items[i]);
      }
      assert CanonicalItems(items) == items;
    case Obj(fields) =>
      forall i | 0 <= i < |fields| ensures Canonical(fields[i].value) == fields[i].value {
        CanonicalFixed(fields[i].value);
      }
      assert CanonicalFields(fields) == fields;
      SortedStays(fields);
    case _ =>
  }

  lemma {:induction false} CanonicalIdempotent(value: Json)
    ensures Canonical(Canonical(value)) == Canonical(value)
  {
    CanonicalIsCanonical(value);
    CanonicalFixed(Canonical(value));
  }

  // ---------- translation and canonical form together, and their fixed point ----------

  const VERSION_KEY := "openapi"

  /** Translate (3.0.3 only), stamp version 3.1.0, put in canonical form. */
  function Normalized(fields: seq<Field>): Outcome<Json> {
    var members :- NormalizeFields(OpenApiObject, fields, Lookup(fields, VERSION_KEY) == Some(Str("3.0.3")), "");
    Ok(Canonical(Obj(Put(members, VERSION_KEY, Str("3.1.0")))))
  }

  /** Without the 3.0.3 rewriting, a canonical value goes through untouched. */
  lemma {:induction false} DocumentFixed(value: Json, path: string)
    requires IsCanonical(value)
    ensures NormalizeDocument(value, false, path) == Ok(value)
    decreases value, 3
  {
    match value
    case Arr(items) => ItemsFixed(false, items, path, 0);
    case Obj(fields) => FieldsFixed(OpenApiObject, fields, path);
    case _ =>
  }

  lemma {:induction false} SchemaFixed(value: Json, path: string)
    requires IsCanonical(value)
    ensures NormalizeSchema(value, false, path) == Ok(value)
    decreases value, 3
  {
    if value.Obj? {
      FieldsFixed(SchemaObject, value.fields, path);
    }
  }

  lemma {:induction false} ItemsFixed(schemas: bool, items: seq<Json>, path: string, index: nat)
    requires forall i :: 0 <= i < |items| ==> IsCanonical(items[i])
    ensures NormalizeItems(schemas, items, false, path, index) == Ok(items)
    decreases items, 0
  {
    if |items| != 0 {
      var childPath := path + "/" + Decimal(index);
      if schemas {
        SchemaFixed(items[0], childPath);
      } else {
        DocumentFixed(items[0], childPath);
      }
      ItemsFixed(schemas, items[1..], path, index + 1);
      assert items == [items[0]] + items[1..];
    }
  }

  lemma {:induction false} FieldsFixed(holder: Holder, fields: seq<Field>, path: string)
    requires forall i :: 0 <= i < |fields| ==> IsCanonical(fields[i].value)
    ensures NormalizeFields(holder, fields, false, path) == Ok(fields)
    decreases fields, 0
  {
    if |fields| != 0 {
      FieldFixed(holder, fields[0], path);
      FieldsFixed(holder, fields[1..], path);
      assert fields == [fields[0]] + fields[1..];
      assert fields[0] == Field(fields[0].key, fields[0].value);
    }
  }

  lemma {:induction false} FieldFixed(holder: Holder, field: Field, path: string)
    requires IsCanonical(field.value)
    ensures NormalizeField(holder, field, false, path) == Ok(field.value)
    decreases field, 5
  {
    var Field(key, item) := field;
    var childPath := path + "/" + key;
    CanonicalFixed(item);
    SchemaFixed(item, childPath);
    DocumentFixed(item, childPath);
    match item
    case Obj(fields) =>
      FieldsFixed(SchemaMap, fields, childPath);
      FieldsFixed(DependencyMap, fields, childPath);
    case Arr(items) => ItemsFixed(true, items, childPath, 0);
    case _ =>
  }

  lemma {:induction false} PutAgain(fields: seq<Field>, key: string, value: Json)
    requires Lookup(fields, key) == Some(value)
    ensures Put(fields, key, value) == fields
  {
    if fields[0].key != key {
      PutAgain(fields[1..], key, value);
    }
    assert fields == [fields[0]] + fields[1..];
  }

  /** Translating a normalised document again, and putting it in canonical form, returns it unchanged. */
  lemma NormalizedIsFixedPoint(fields: seq<Field>)
    requires Keyed(Obj(fields)) && Normalized(fields).Ok?
    ensures Normalized(fields).value.Obj?
    ensures Normalized(Normalized(fields).value.fields) == Normalized(fields)
  {
    var from30 := Lookup(fields, VERSION_KEY) == Some(Str("3.0.3"));
    var members := NormalizeFields(OpenApiObject, fields, from30, "").value;
    FieldsKeyed(OpenApiObject, fields, from30, "");
    var stamped := Put(members, VERSION_KEY, Str("3.1.0"));
    PutUnique(members, VERSION_KEY, Str("3.1.0"));
    LookupPut(members, VERSION_KEY, Str("3.1.0"), VERSION_KEY);
    var document := Canonical(Obj(stamped));
    CanonicalLookup(stamped, VERSION_KEY);
    CanonicalIsCanonical(Obj(stamped));
    CanonicalFixed(document);
    FieldsFixed(OpenApiObject, document.fields, "");
    PutAgain(document.fields, VERSION_KEY, Str("3.1.0"));
  }

  // ---------- key order does not matter ----------

  /** Equal up to the order of object keys, at every depth. */
  ghost predicate Same(a: Json, b: Json) {
    match a
    case Arr(items) => b.Arr? && |items| == |b.items| && forall i :: 0 <= i < |items| ==> Same(items[i], b.items[i])
    case Obj(fields) => b.Obj? && SameFields(fields, b.fields)
    case _ => a == b
  }

  ghost predicate SameFields(fields: seq<Field>, others: seq<Field>)
    decreases fields, 1
  {
    forall key :: SameAt(fields, others, key)
  }

  ghost predicate SameAt(fields: seq<Field>, others: seq<Field>, key: string)
    decreases fields, 0
  {
    match Lookup(fields, key)
    case Some(value) => Has(others, key) && Same(value, Lookup(others, key).value)
    case None => !Has(others, key)
  }

  lemma {:induction false} SameReflexive(value: Json)
    ensures Same(value, value)
  {
    match value
    case Arr(items) =>
      forall i | 0 <= i < |items| ensures Same(items[i], items[i]) {
        SameReflexive(items[i]);
      }
    case Obj(fields) =>
      forall key ensures SameAt(fields, fields, key) {
        if Has(fields, key) {
          SameReflexive(Lookup(fields, key).value);
        }
      }
    case _ =>
  }

  lemma {:induction false} CanonicalLookup(fields: seq<Field>, key: string)
    requires UniqueKeys(fields)
    ensures UniqueKeys(Canonical(Obj(fields)).fields)
    ensures Has(Canonical(Obj(fields)).fields, key) <==> Has(fields, key)
    ensures Has(fields, key) ==>
              Lookup(Canonical(Obj(fields)).fields, key).value == Canonical(Lookup(fields, key).value)
  {
    SortUnique(CanonicalFields(fields));
    SortLookup(CanonicalFields(fields), key);
  }

  /** Two sorted objects with the same content are the same list. */
  lemma {:induction false} OrderedUnique(fields: seq<Field>, others: seq<Field>)
    requires Ordered(fields) && Ordered(others) && UniqueKeys(fields) && UniqueKeys(others)
    requires forall key :: Lookup(fields, key) == Lookup(others, key)
    ensures fields == others
  {
    if |fields| == 0 {
      assert |others| > 0 ==> Lookup(fields, others[0].key) == Lookup(others, others[0].key);
    } else {
      assert Lookup(others, fields[0].key) == Some(fields[0].value);
      var i :| 0 <= i < |others| && others[i] == Field(fields[0].key, fields[0].value);
      assert Lookup(fields, others[0].key) == Some(others[0].value);
      var j :| 0 <= j < |fields| && fields[j] == Field(others[0].key, others[0].value);
      LessIsTotal(fields[0].key, others[0].key);
      assert fields[0].key == others[0].key;
      forall key ensures Lookup(fields[1..], key) == Lookup(others[1..], key) {
        assert Lookup(fields, key) == Lookup(others, key);
      }
      OrderedUnique(fields[1..], others[1..]);
      assert fields == [fields[0]] + fields[1..] && others == [others[0]] + others[1..];
    }
  }

  /** `_canonical` identifies exactly the documents that differ in key order only. */
  lemma {:induction false} CanonicalIdentifies(a: Json, b: Json)
    requires Keyed(a) && Keyed(b)
    ensures Canonical(a) == Canonical(b) <==> Same(a, b)
    decreases a, 1
  {
    match a
    case Arr(items) =>
      if b.Arr? && |items| == |b.items| {
        forall i | 0 <= i < |items|
          ensures Canonical(items[i]) == Canonical(b.items[i]) <==> Same(items[i], b.items[i])
        {
          CanonicalIdentifies(items[i], b.items[i]);
        }
        assert CanonicalItems(items) == CanonicalItems(b.items)
          <==> forall i :: 0 <= i < |items| ==> CanonicalItems(items)[i] == CanonicalItems(b.items)[i];
      } else if b.Arr? {
        assert |CanonicalItems(items)| != |CanonicalItems(b.items)|;
      }
    case Obj(fields) =>
      if b.Obj? {
        ObjectsIdentified(fields, b.fields);
      }
    case _ =>
  }

  lemma {:induction false} ObjectsIdentified(fields: seq<Field>, others: seq<Field>)
    requires Keyed(Obj(fields)) && Keyed(Obj(others))
    ensures Canonical(Obj(fields)) == Canonical(Obj(others)) <==> Same(Obj(fields), Obj(others))
    decreases Obj(fields), 0
  {
    var left, right := Canonical(Obj(fields)).fields, Canonical(Obj(others)).fields;
    forall key
      ensures Lookup(left, key) == Lookup(right, key) <==> SameAt(fields, others, key)
    {
      CanonicalLookup(fields, key);
      CanonicalLookup(others, key);
      if Has(fields, key) && Has(others, key) {
        CanonicalIdentifies(Lookup(fields, key).value, Lookup(others, key).value);
      }
    }
    if SameFields(fields, others) {
      forall key ensures Lookup(left, key) == Lookup(right, key) {
        assert SameAt(fields, others, key);
      }
      CanonicalIsCanonical(Obj(fields));
      CanonicalIsCanonical(Obj(others));
      CanonicalLookup(fields, "");
      CanonicalLookup(others, "");
      OrderedUnique(left, right);
    }
    if left == right {
      forall key ensures SameAt(fields, others, key) {
        assert Lookup(left, key) == Lookup(right, key);
      }
      assert SameFields(fields, others);
    }
    assert Canonical(Obj(fields)) == Obj(left) && Canonical(Obj(others)) == Obj(right);
    assert Same(Obj(fields), Obj(others)) <==> SameFields(fields, others);
  }

  // ---------- the translation keeps objects well keyed ----------

  lemma {:induction false} CanonicalKeyed(value: Json)
    requires Keyed(value)
    ensures Keyed(Canonical(value))
  {
    match value
    case Arr(items) =>
      forall i | 0 <= i < |items| ensures Keyed(CanonicalItems(items)[i]) {
        CanonicalKeyed(items[i]);
      }
    case Obj(fields) =>
      var unsorted := CanonicalFields(fields);
      var sorted := SortFields(unsorted);
      CanonicalLookup(fields, "");
      SortMembers(unsorted);
      forall i | 0 <= i < |sorted| ensures Keyed(sorted[i].value) {
        assert sorted[i] in multiset(sorted);
        var j :| 0 <= j < |unsorted| && unsorted[j] == sorted[i];
        CanonicalKeyed(fields[j].value);
      }
    case _ =>
  }

  lemma {:induction false} DocumentKeyed(value: Json, from30: bool, path: string)
    requires Keyed(value) && NormalizeDocument(value, from30, path).Ok?
    ensures Keyed(NormalizeDocument(value, from30, path).value)
    decreases value, 3
  {
    match value
    case Arr(items) => ItemsKeyed(false, items, from30, path, 0);
    case Obj(fields) => FieldsKeyed(OpenApiObject, fields, from30, path);
    case _ =>
  }

  lemma {:induction false} ItemsKeyed(schemas: bool, items: seq<Json>, from30: bool, path: string, index: nat)
    requires Keyed(Arr(items)) && NormalizeItems(schemas, items, from30, path, index).Ok?
    ensures Keyed(Arr(NormalizeItems(schemas, items, from30, path, index).value))
    decreases items, 0
  {
    if |items| != 0 {
      var childPath := path + "/" + Decimal(index);
      assert Keyed(items[0]);
      if schemas {
        SchemaKeyed(items[0], from30, childPath);
      } else {
        DocumentKeyed(items[0], from30, childPath);
      }
      ItemsKeyed(schemas, items[1..], from30, path, index + 1);
    }
  }

  lemma {:induction false} FieldsKeyed(holder: Holder, fields: seq<Field>, from30: bool, path: string)
    requires Keyed(Obj(fields)) && NormalizeFields(holder, fields, from30, path).Ok?
    ensures Keyed(Obj(NormalizeFields(holder, fields, from30, path).value))
    decreases fields, 0
  {
    FieldsKeepKeys(holder, fields, from30, path);
    if |fields| != 0 {
      FieldsKeyed(holder, fields[1..], from30, path);
      if !Dropped(holder, fields[0].key, from30) {
        assert Keyed(fields[0].value);
        FieldKeyed(holder, fields[0], from30, path);
      }
    }
  }

  lemma {:induction false} FieldKeyed(holder: Holder, field: Field, from30: bool, path: string)
    requires Keyed(field.value) && NormalizeField(holder, field, from30, path).Ok?
    ensures Keyed(NormalizeField(holder, field, from30, path).value)
    decreases field, 5
  {
    CanonicalKeyed(field.value);
    match holder
    case OpenApiObject => MemberKeyed(field, from30, path);
    case SchemaObject => KeywordKeyed(field, from30, path + "/" + field.key);
    case SchemaMap => SchemaKeyed(field.value, from30, path + "/" + field.key);
    case DependencyMap =>
      if field.value.Obj? {
        SchemaKeyed(field.value, from30, path + "/" + field.key);
      }
  }

  lemma {:induction false} MemberKeyed(field: Field, from30: bool, path: string)
    requires Keyed(field.value) && NormalizeMember(field, from30, path).Ok?
    ensures Keyed(NormalizeMember(field, from30, path).value)
    decreases field, 4
  {
    var Field(key, item) := field;
    var childPath := path + "/" + key;
    if key == "schema" {
      SchemaKeyed(item, from30, childPath);
    } else if path == "/components" && key == "schemas" && item.Obj? {
      FieldsKeyed(SchemaMap, item.fields, from30, childPath);
    } else if IsDocumentData(key) {
      CanonicalKeyed(item);
    } else {
      DocumentKeyed(item, from30, childPath);
    }
  }

  lemma {:induction false} KeywordKeyed(field: Field, from30: bool, path: string)
    requires Keyed(field.value) && NormalizeKeyword(field, from30, path).Ok?
    ensures Keyed(NormalizeKeyword(field, from30, path).value)
    decreases field, 4
  {
    var Field(key, item) := field;
    if IsSchemaData(key) {
      CanonicalKeyed(item);
    } else if key in SCHEMA_MAP_KEYWORDS && item.Obj? {
      FieldsKeyed(SchemaMap, item.fields, from30, path);
    } else if key in SCHEMA_LIST_KEYWORDS && item.Arr? {
      ItemsKeyed(true, item.items, from30, path, 0);
    } else if key in SCHEMA_KEYWORDS && item.Obj? {
      SchemaKeyed(item, from30, path);
    } else if key == "dependencies" && item.Obj? {
      FieldsKeyed(DependencyMap, item.fields, from30, path);
    } else {
      DocumentKeyed(item, from30, path);
    }
  }

  lemma {:induction false} PutKeyed(fields: seq<Field>, key: string, value: Json)
    requires Keyed(Obj(fields)) && Keyed(value)
    ensures Keyed(Obj(Put(fields, key, value)))
  {
    PutUnique(fields, key, value);
    PutMembers(fields, key, value);
    var put := Put(fields, key, value);
    forall i | 0 <= i < |put| ensures Keyed(put[i].value) {
      assert put[i] in put;
    }
  }

  lemma {:induction false} WithoutKeyed(fields: seq<Field>, key: string)
    requires Keyed(Obj(fields))
    ensures Keyed(Obj(Without(fields, key)))
  {
    WithoutSubset(fields, key);
    var rest := Without(fields, key);
    forall i | 0 <= i < |rest| ensures Keyed(rest[i].value) {
      assert rest[i] in rest;
    }
  }

  lemma FixBoundKeyed(source: seq<Field>, members: seq<Field>, bound: string, exclusive: string, path: string)
    requires Keyed(Obj(members)) && FixBound(source, members, bound, exclusive, path).Ok?
    ensures Keyed(Obj(FixBound(source, members, bound, exclusive, path).value))
  {
    WithoutKeyed(members, exclusive);
    WithoutKeyed(members, bound);
    match Lookup(source, bound)
    case Some(Num(number)) => PutKeyed(Without(members, bound), exclusive, Num(number));
    case _ =>
  }

  lemma FixNullableKeyed(source: seq<Field>, members: seq<Field>, path: string)
    requires Keyed(Obj(members)) && FixNullable(source, members, path).Ok?
    ensures Keyed(FixNullable(source, members, path).value)
  {
    match Lookup(members, "type")
    case Some(Str(name)) => PutKeyed(members, "type", Arr([Str(name), Str("null")]));
    case Some(Arr(names)) =>
      if Hashable(names) {
        var types := Distinct(names + [Str("null")]);
        forall i | 0 <= i < |types| ensures Keyed(types[i]) {
          assert types[i] in names + [Str("null")];
        }
        PutKeyed(members, "type", Arr(types));
      }
    case _ =>
      var pair := [Obj(members), NULL_SCHEMA];
      assert forall i :: 0 <= i < |pair| ==> Keyed(pair[i]);
      assert Keyed(Arr(pair));
  }

  lemma {:induction false} SchemaKeyed(value: Json, from30: bool, path: string)
    requires Keyed(value) && NormalizeSchema(value, from30, path).Ok?
    ensures Keyed(NormalizeSchema(value, from30, path).value)
    decreases value, 3
  {
    if value.Obj? {
      FieldsKeyed(SchemaObject, value.fields, from30, path);
      if from30 {
        var members := NormalizeFields(SchemaObject, value.fields, from30, path).value;
        FixBoundKeyed(value.fields, members, "minimum", "exclusiveMinimum", path);
        var lower := FixBound(value.fields, members, "minimum", "exclusiveMinimum", path).value;
        FixBoundKeyed(value.fields, lower, "maximum", "exclusiveMaximum", path);
        var upper := FixBound(value.fields, lower, "maximum", "exclusiveMaximum", path).value;
        FixNullableKeyed(value.fields, upper, path);
      }
    }
  }

  // ---------- the translation does not look at key order ----------

  ghost predicate SameOutcome(a: Outcome<Json>, b: Outcome<Json>) {
    (a.Ok? <==> b.Ok?) && (a.Ok? && b.Ok? ==> Same(a.value, b.value))
  }

  ghost predicate SameFieldsOutcome(a: Outcome<seq<Field>>, b: Outcome<seq<Field>>) {
    (a.Ok? <==> b.Ok?) && (a.Ok? && b.Ok? ==> SameFields(a.value, b.value))
  }

  predicate FieldAccepted(holder: Holder, fields: seq<Field>, from30: bool, path: string, key: string) {
    Has(fields, key) && !Dropped(holder, key, from30) ==>
      NormalizeField(holder, Field(key, Lookup(fields, key).value), from30, path).Ok?
  }

  /** An object is refused exactly when one of its values is. */
  lemma {:induction false} FieldsRefused(holder: Holder, fields: seq<Field>, from30: bool, path: string)
    requires UniqueKeys(fields)
    ensures NormalizeFields(holder, fields, from30, path).Ok?
            <==> forall key :: FieldAccepted(holder, fields, from30, path, key)
  {
    if |fields| != 0 {
      var rest := fields[1..];
      FieldsRefused(holder, rest, from30, path);
      assert fields[0] == Field(fields[0].key, fields[0].value);
      forall key
        ensures FieldAccepted(holder, fields, from30, path, key)
                == if key == fields[0].key && !Dropped(holder, key, from30)
                   then NormalizeField(holder, fields[0], from30, path).Ok?
                   else FieldAccepted(holder, rest, from30, path, key)
      {
      }
      assert FieldAccepted(holder, rest, from30, path, fields[0].key);
      assert FieldAccepted(holder, fields, from30, path, fields[0].key)
        == (Dropped(holder, fields[0].key, from30) || NormalizeField(holder, fields[0], from30, path).Ok?);
    }
  }

  lemma {:induction false} DocumentRespects(a: Json, b: Json, from30: bool, path: string)
    requires Keyed(a) && Keyed(b) && Same(a, b)
    ensures SameOutcome(NormalizeDocument(a, from30, path), NormalizeDocument(b, from30, path))
    decreases a, 3
  {
    match a
    case Arr(items) => ItemsRespect(false, items, b.items, from30, path, 0);
    case Obj(fields) => FieldsRespect(OpenApiObject, fields, b.fields, from30, path);
    case _ =>
  }

  lemma {:induction false} ItemsRespect(
    schemas: bool, items: seq<Json>, others: seq<Json>, from30: bool, path: string, index: nat)
    requires |items| == |others|
    requires forall i :: 0 <= i < |items| ==> Keyed(items[i]) && Keyed(others[i]) && Same(items[i], others[i])
    ensures var left := NormalizeItems(schemas, items, from30, path, index);
            var right := NormalizeItems(schemas, others, from30, path, index);
            (left.Ok? <==> right.Ok?) && (left.Ok? && right.Ok? ==> Same(Arr(left.value), Arr(right.value)))
    decreases items, 0
  {
    if |items| != 0 {
      var childPath := path + "/" + Decimal(index);
      assert Same(items[0], others[0]);
      if schemas {
        SchemaRespects(items[0], others[0], from30, childPath);
      } else {
        DocumentRespects(items[0], others[0], from30, childPath);
      }
      ItemsRespect(schemas, items[1..], others[1..], from30, path, index + 1);
    }
  }

  lemma {:induction false} FieldsRespect(
    holder: Holder, fields: seq<Field>, others: seq<Field>, from30: bool, path: string)
    requires Keyed(Obj(fields)) && Keyed(Obj(others)) && SameFields(fields, others)
    ensures SameFieldsOutcome(NormalizeFields(holder, fields, from30, path), NormalizeFields(holder, others, from30, path))
    decreases fields, 0
  {
    forall key | Has(fields, key)
      ensures Has(others, key)
      ensures SameOutcome(NormalizeField(holder, Field(key, Lookup(fields, key).value), from30, path),
                          NormalizeField(holder, Field(key, Lookup(others, key).value), from30, path))
    {
      assert SameAt(fields, others, key);
      var i :| 0 <= i < |fields| && fields[i] == Field(key, Lookup(fields, key).value);
      var j :| 0 <= j < |others| && others[j] == Field(key, Lookup(others, key).value);
      FieldRespects(holder, fields[i], others[j], from30, path);
    }
    forall key
      ensures Has(fields, key) <==> Has(others, key)
      ensures FieldAccepted(holder, fields, from30, path, key) <==> FieldAccepted(holder, others, from30, path, key)
    {
      assert SameAt(fields, others, key);
    }
    FieldsRefused(holder, fields, from30, path);
    FieldsRefused(holder, others, from30, path);
    if NormalizeFields(holder, fields, from30, path).Ok? {
      var left := NormalizeFields(holder, fields, from30, path).value;
      var right := NormalizeFields(holder, others, from30, path).value;
      forall key
        ensures SameAt(left, right, key)
      {
        FieldsLookup(holder, fields, from30, path, key);
        FieldsLookup(holder, others, from30, path, key);
      }
    }
  }

  lemma {:induction false} FieldRespects(holder: Holder, field: Field, other: Field, from30: bool, path: string)
    requires field.key == other.key
    requires Keyed(field.value) && Keyed(other.value) && Same(field.value, other.value)
    ensures SameOutcome(NormalizeField(holder, field, from30, path), NormalizeField(holder, other, from30, path))
    decreases field, 5
  {
    match holder
    case OpenApiObject => MemberRespects(field, other, from30, path);
    case SchemaObject => KeywordRespects(field, other, from30, path + "/" + field.key);
    case SchemaMap => SchemaRespects(field.value, other.value, from30, path + "/" + field.key);
    case DependencyMap =>
      if field.value.Obj? {
        SchemaRespects(field.value, other.value, from30, path + "/" + field.key);
      } else {
        CanonicalIdentifies(field.value, other.value);
        SameReflexive(Canonical(field.value));
      }
  }

  lemma {:induction false} MemberRespects(field: Field, other: Field, from30: bool, path: string)
    requires field.key == other.key
    requires Keyed(field.value) && Keyed(other.value) && Same(field.value, other.value)
    ensures SameOutcome(NormalizeMember(field, from30, path), NormalizeMember(other, from30, path))
    decreases field, 4
  {
    var Field(key, item) := field;
    var childPath := path + "/" + key;
    if key == "schema" {
      SchemaRespects(item, other.value, from30, childPath);
    } else if path == "/components" && key == "schemas" && item.Obj? {
      FieldsRespect(SchemaMap, item.fields, other.value.fields, from30, childPath);
    } else if IsDocumentData(key) {
      CanonicalIdentifies(item, other.value);
      SameReflexive(Canonical(item));
    } else {
      DocumentRespects(item, other.value, from30, childPath);
    }
  }

  lemma {:induction false} KeywordRespects(field: Field, other: Field, from30: bool, path: string)
    requires field.key == other.key
    requires Keyed(field.value) && Keyed(other.value) && Same(field.value, other.value)
    ensures SameOutcome(NormalizeKeyword(field, from30, path), NormalizeKeyword(other, from30, path))
    decreases field, 4
  {
    var Field(key, item) := field;
    if IsSchemaData(key) {
      CanonicalIdentifies(item, other.value);
      SameReflexive(Canonical(item));
    } else if key in SCHEMA_MAP_KEYWORDS && item.Obj? {
      FieldsRespect(SchemaMap, item.fields, other.value.fields, from30, path);
    } else if key in SCHEMA_LIST_KEYWORDS && item.Arr? {
      ItemsRespect(true, item.items, other.value.items, from30, path, 0);
    } else if key in SCHEMA_KEYWORDS && item.Obj? {
      SchemaRespects(item, other.value, from30, path);
    } else if key == "dependencies" && item.Obj? {
      FieldsRespect(DependencyMap, item.fields, other.value.fields, from30, path);
    } else {
      DocumentRespects(item, other.value, from30, path);
    }
  }

  lemma {:induction false} PutRespects(fields: seq<Field>, others: seq<Field>, key: string, value: Json, other: Json)
    requires SameFields(fields, others) && Same(value, other)
    ensures SameFields(Put(fields, key, value), Put(others, key, other))
  {
    forall k ensures SameAt(Put(fields, key, value), Put(others, key, other), k) {
      LookupPut(fields, key, value, k);
      LookupPut(others, key, other, k);
      assert SameAt(fields, others, k);
    }
  }

  lemma {:induction false} WithoutRespects(fields: seq<Field>, others: seq<Field>, key: string)
    requires SameFields(fields, others) && UniqueKeys(fields) && UniqueKeys(others)
    ensures SameFields(Without(fields, key), Without(others, key))
  {
    forall k ensures SameAt(Without(fields, key), Without(others, key), k) {
      LookupWithout(fields, key, k);
      LookupWithout(others, key, k);
      assert SameAt(fields, others, k);
    }
  }

  /** Scalars are the same only when they are equal. */
  lemma {:induction false} SameLookup(fields: seq<Field>, others: seq<Field>, key: string)
    requires SameFields(fields, others)
    ensures Has(fields, key) <==> Has(others, key)
    ensures Has(fields, key) ==> Same(Lookup(fields, key).value, Lookup(others, key).value)
    ensures Has(fields, key) && !Lookup(fields, key).value.Arr? && !Lookup(fields, key).value.Obj? ==>
              Lookup(fields, key) == Lookup(others, key)
  {
    assert SameAt(fields, others, key);
  }

  lemma {:induction false} FixBoundRespects(
    source: seq<Field>, source': seq<Field>, members: seq<Field>, members': seq<Field>,
    bound: string, exclusive: string, path: string)
    requires SameFields(source, source') && SameFields(members, members')
    requires UniqueKeys(members) && UniqueKeys(members')
    ensures SameFieldsOutcome(FixBound(source, members, bound, exclusive, path),
                              FixBound(source', members', bound, exclusive, path))
  {
    SameLookup(source, source', exclusive);
    SameLookup(source, source', bound);
    WithoutRespects(members, members', exclusive);
    WithoutRespects(members, members', bound);
    match Lookup(source, bound)
    case Some(Num(number)) =>
      PutRespects(Without(members, bound), Without(members', bound), exclusive, Num(number), Num(number));
    case _ =>
  }

  lemma HashableSame(names: seq<Json>, others: seq<Json>)
    requires Same(Arr(names), Arr(others))
    ensures Hashable(names) <==> Hashable(others)
    ensures Hashable(names) ==> names == others
  {
    forall i | 0 <= i < |names|
      ensures (names[i].Arr? <==> others[i].Arr?) && (names[i].Obj? <==> others[i].Obj?)
      ensures !names[i].Arr? && !names[i].Obj? ==> names[i] == others[i]
    {
      assert Same(names[i], others[i]);
    }
  }

  lemma {:induction false} OrNullSame(members: seq<Field>, others: seq<Field>)
    requires SameFields(members, others)
    ensures Same(Obj([Field("anyOf", Arr([Obj(members), NULL_SCHEMA]))]),
                 Obj([Field("anyOf", Arr([Obj(others), NULL_SCHEMA]))]))
  {
    SameReflexive(NULL_SCHEMA);
    var left, right := [Obj(members), NULL_SCHEMA], [Obj(others), NULL_SCHEMA];
    assert Same(Obj(members), Obj(others));
    assert forall i :: 0 <= i < |left| ==> Same(left[i], right[i]);
    assert Same(Arr(left), Arr(right));
  }

  lemma {:induction false} FixNullableRespects(
    source: seq<Field>, source': seq<Field>, members: seq<Field>, members': seq<Field>, path: string)
    requires SameFields(source, source') && SameFields(members, members')
    ensures SameOutcome(FixNullable(source, members, path), FixNullable(source', members', path))
  {
    SameLookup(source, source', "nullable");
    SameLookup(members, members', "type");
    if Lookup(source, "nullable") == Some(Bool(true)) {
      match Lookup(members, "type")
      case Some(Str(name)) =>
        var types := Arr([Str(name), Str("null")]);
        SameReflexive(types);
        PutRespects(members, members', "type", types, types);
      case Some(Arr(names)) =>
        HashableSame(names, Lookup(members', "type").value.items);
        if Hashable(names) {
          var types := Arr(Distinct(names + [Str("null")]));
          SameReflexive(types);
          PutRespects(members, members', "type", types, types);
        }
      case _ => OrNullSame(members, members');
    }
  }

  lemma {:induction false} SchemaRespects(a: Json, b: Json, from30: bool, path: string)
    requires Keyed(a) && Keyed(b) && Same(a, b)
    ensures SameOutcome(NormalizeSchema(a, from30, path), NormalizeSchema(b, from30, path))
    decreases a, 3
  {
    if a.Obj? {
      FieldsRespect(SchemaObject, a.fields, b.fields, from30, path);
      if from30 && NormalizeFields(SchemaObject, a.fields, from30, path).Ok? {
        FieldsKeepKeys(SchemaObject, a.fields, from30, path);
        FieldsKeepKeys(SchemaObject, b.fields, from30, path);
        RewritesRespect(a.fields, b.fields,
                        NormalizeFields(SchemaObject, a.fields, from30, path).value,
                        NormalizeFields(SchemaObject, b.fields, from30, path).value, path);
      }
    }
  }

  function Rewritten(source: seq<Field>, members: seq<Field>, path: string): Outcome<Json> {
    var lower :- FixBound(source, members, "minimum", "exclusiveMinimum", path);
    var upper :- FixBound(source, lower, "maximum", "exclusiveMaximum", path);
    FixNullable(source, upper, path)
  }

  lemma {:induction false} RewritesRespect(
    source: seq<Field>, source': seq<Field>, members: seq<Field>, members': seq<Field>, path: string)
    requires SameFields(source, source') && SameFields(members, members')
    requires UniqueKeys(members) && UniqueKeys(members')
    ensures SameOutcome(Rewritten(source, members, path), Rewritten(source', members', path))
  {
    FixBoundRespects(source, source', members, members', "minimum", "exclusiveMinimum", path);
    var lower := FixBound(source, members, "minimum", "exclusiveMinimum", path);
    var lower' := FixBound(source', members', "minimum", "exclusiveMinimum", path);
    if lower.Ok? {
      FixBoundLookup(source, members, "minimum", "exclusiveMinimum", path, "");
      FixBoundLookup(source', members', "minimum", "exclusiveMinimum", path, "");
      FixBoundRespects(source, source', lower.value, lower'.value, "maximum", "exclusiveMaximum", path);
      var upper := FixBound(source, lower.value, "maximum", "exclusiveMaximum", path);
      var upper' := FixBound(source', lower'.value, "maximum", "exclusiveMaximum", path);
      if upper.Ok? {
        FixNullableRespects(source, source', upper.value, upper'.value, path);
      }
    }
  }

  /** Documents that differ only in key order normalise to the same document, or are both refused. */
  lemma KeyOrderDoesNotMatter(fields: seq<Field>, others: seq<Field>)
    requires Keyed(Obj(fields)) && Keyed(Obj(others)) && Same(Obj(fields), Obj(others))
    ensures Normalized(fields).Ok? <==> Normalized(others).Ok?
    ensures Normalized(fields).Ok? ==> Normalized(fields) == Normalized(others)
  {
    SameLookup(fields, others, VERSION_KEY);
    var from30 := Lookup(fields, VERSION_KEY) == Some(Str("3.0.3"));
    assert from30 == (Lookup(others, VERSION_KEY) == Some(Str("3.0.3")));
    FieldsRespect(OpenApiObject, fields, others, from30, "");
    if Normalized(fields).Ok? {
      var left := NormalizeFields(OpenApiObject, fields, from30, "").value;
      var right := NormalizeFields(OpenApiObject, others, from30, "").value;
      PutRespects(left, right, VERSION_KEY, Str("3.1.0"), Str("3.1.0"));
      FieldsKeyed(OpenApiObject, fields, from30, "");
      FieldsKeyed(OpenApiObject, others, from30, "");
      PutKeyed(left, VERSION_KEY, Str("3.1.0"));
      PutKeyed(right, VERSION_KEY, Str("3.1.0"));
      CanonicalIdentifies(Obj(Put(left, VERSION_KEY, Str("3.1.0"))), Obj(Put(right, VERSION_KEY, Str("3.1.0"))));
    }
  }

  /** Without the 3.0.3 rewriting the translation changes key order only. */
  lemma {:induction false} PlainTranslation(fields: seq<Field>)
    requires Keyed(Obj(fields))
    ensures NormalizeFields(OpenApiObject, fields, false, "").Ok?
    ensures Canonical(Obj(NormalizeFields(OpenApiObject, fields, false, "").value)) == Canonical(Obj(fields))
    ensures Keyed(Obj(NormalizeFields(OpenApiObject, fields, false, "").value))
  {
    var source, canonical := Obj(fields), Canonical(Obj(fields));
    CanonicalKeyed(source);
    CanonicalIsCanonical(source);
    CanonicalIdempotent(source);
    CanonicalIdentifies(source, canonical);
    DocumentRespects(source, canonical, false, "");
    DocumentFixed(canonical, "");
    var result := NormalizeDocument(source, false, "").value;
    DocumentKeyed(source, false, "");
    CanonicalIdentifies(result, canonical);
  }
}
