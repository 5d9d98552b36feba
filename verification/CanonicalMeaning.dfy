/** `_canonical` keeps the meaning of a schema, in either dialect. */
module CanonicalMeaning {
  import opened Prelude
  import opened Json
  import opened KeyOrder
  import opened SchemaNormaliser
  import opened CanonicalForm
  import opened SchemaMeaning
  import opened MeaningPreservation
  import opened DocumentFrames

  /** A reading of the shared keywords that does not look at key order inside an argument. */
  ghost predicate OrderBlind(leaf: Leaf) {
    forall key, item, value :: leaf(key, Canonical(item), value) == leaf(key, item, value)
  }

  function CanonicalEnvironment(env: Environment): Environment {
    map reference | reference in env :: Canonical(env[reference])
  }

  ghost predicate KeyedEnvironment(env: Environment) {
    forall reference :: reference in env ==> Keyed(env[reference])
  }

  lemma {:induction false} CanonicalMembers(fields: seq<Field>)
    requires UniqueKeys(fields)
    ensures var sorted := Canonical(Obj(fields)).fields;
      forall key :: Lookup(sorted, key) ==
        match Lookup(fields, key) case Some(item) => Some(Canonical(item)) case None => None
  {
    forall key
      ensures Lookup(Canonical(Obj(fields)).fields, key) ==
        match Lookup(fields, key) case Some(item) => Some(Canonical(item)) case None => None
    {
      CanonicalLookup(fields, key);
    }
  }

  /** `sorted` holds the canonical form of what `fields` holds, under every key. */
  ghost predicate HoldsCanonical(fields: seq<Field>, sorted: seq<Field>) {
    forall key :: Lookup(sorted, key) == match Lookup(fields, key) case Some(item) => Some(Canonical(item)) case None => None
  }

  lemma TypeSame(dialect: Dialect, fields: seq<Field>, sorted: seq<Field>, value: Json)
    requires HoldsCanonical(fields, sorted)
    ensures TypeAccepts(dialect, sorted, value) <==> TypeAccepts(dialect, fields, value)
    ensures Nullable(sorted) <==> Nullable(fields)
  {
    match Lookup(fields, "type")
    case Some(Arr(names)) =>
      var canonical := CanonicalItems(names);
      assert Lookup(sorted, "type") == Some(Arr(canonical));
      assert forall i :: 0 <= i < |names| ==> canonical[i].Str? == names[i].Str? && (names[i].Str? ==> canonical[i] == names[i]);
    case _ =>
  }

  lemma LowerBoundSame(dialect: Dialect, fields: seq<Field>, sorted: seq<Field>, value: Json)
    requires HoldsCanonical(fields, sorted)
    ensures LowerBoundAccepts(dialect, sorted, value) <==> LowerBoundAccepts(dialect, fields, value)
  {
  }

  lemma UpperBoundSame(dialect: Dialect, fields: seq<Field>, sorted: seq<Field>, value: Json)
    requires HoldsCanonical(fields, sorted)
    ensures UpperBoundAccepts(dialect, sorted, value) <==> UpperBoundAccepts(dialect, fields, value)
  {
  }

  lemma EnumSame(fields: seq<Field>, sorted: seq<Field>, value: Json)
    requires HoldsCanonical(fields, sorted)
    ensures EnumAccepts(sorted, value) <==> EnumAccepts(fields, value)
  {
    match Lookup(fields, "enum")
    case Some(Arr(choices)) =>
      var canonical := CanonicalItems(choices);
      assert Lookup(sorted, "enum") == Some(Arr(canonical));
      forall i | 0 <= i < |choices| ensures Canonical(canonical[i]) == Canonical(choices[i]) {
        CanonicalIdempotent(choices[i]);
      }
    case _ =>
  }

  lemma LeavesSame(leaf: Leaf, fields: seq<Field>, sorted: seq<Field>, value: Json)
    requires HoldsCanonical(fields, sorted) && OrderBlind(leaf)
    ensures LeavesAccept(leaf, sorted, value) <==> LeavesAccept(leaf, fields, value)
  {
    forall key | key in LEAF_KEYWORDS && Has(fields, key)
      ensures leaf(key, Lookup(sorted, key).value, value) == leaf(key, Lookup(fields, key).value, value)
    {
    }
  }

  lemma LocalSame(dialect: Dialect, leaf: Leaf, fields: seq<Field>, sorted: seq<Field>, value: Json)
    requires HoldsCanonical(fields, sorted) && OrderBlind(leaf)
    ensures LocalAccept(dialect, leaf, sorted, value) <==> LocalAccept(dialect, leaf, fields, value)
  {
    LowerBoundSame(dialect, fields, sorted, value);
    UpperBoundSame(dialect, fields, sorted, value);
    EnumSame(fields, sorted, value);
    LeavesSame(leaf, fields, sorted, value);
  }

  lemma {:induction false} DeclaredSame(fields: seq<Field>, sorted: seq<Field>, key: string)
    requires HoldsCanonical(fields, sorted)
    requires Has(fields, "properties") ==> Keyed(Lookup(fields, "properties").value)
    ensures IsDeclared(sorted, key) <==> IsDeclared(fields, key)
  {
    match Lookup(fields, "properties")
    case Some(Obj(properties)) => CanonicalLookup(properties, key);
    case _ =>
  }

  // ---------- schema by schema ----------

  lemma {:induction false} ListSame(
    dialect: Dialect, leaf: Leaf, env: Environment, n: nat, schemas: seq<Json>, value: Json)
    requires OrderBlind(leaf) && KeyedEnvironment(env)
    requires forall i :: 0 <= i < |schemas| ==> Keyed(schemas[i])
    ensures forall i :: 0 <= i < |schemas| ==>
      (Accepts(dialect, leaf, CanonicalEnvironment(env), n, CanonicalItems(schemas)[i], value)
       <==> Accepts(dialect, leaf, env, n, schemas[i], value))
    decreases n, schemas, 0
  {
    forall i | 0 <= i < |schemas|
      ensures Accepts(dialect, leaf, CanonicalEnvironment(env), n, CanonicalItems(schemas)[i], value)
              <==> Accepts(dialect, leaf, env, n, schemas[i], value)
    {
      CanonicalAccepts(dialect, leaf, env, n, schemas[i], value);
    }
  }

  lemma {:induction false} MapSame(
    dialect: Dialect, leaf: Leaf, env: Environment, n: nat, schemas: seq<Field>, value: Json)
    requires OrderBlind(leaf) && KeyedEnvironment(env) && Keyed(Obj(schemas))
    ensures PropertiesAccept(dialect, leaf, CanonicalEnvironment(env), n, Canonical(Obj(schemas)), value)
            <==> PropertiesAccept(dialect, leaf, env, n, Obj(schemas), value)
    decreases n, schemas, 0
  {
    if value.Obj? {
      var canonical, members := CanonicalEnvironment(env), value.fields;
      SortedAll(CanonicalFields(schemas),
                (f: Field) => Has(members, f.key) ==>
                  Accepts(dialect, leaf, canonical, n, f.value, Lookup(members, f.key).value));
      forall i | 0 <= i < |schemas| && Has(members, schemas[i].key)
        ensures Accepts(dialect, leaf, canonical, n, Canonical(schemas[i].value), Lookup(members, schemas[i].key).value)
                <==> Accepts(dialect, leaf, env, n, schemas[i].value, Lookup(members, schemas[i].key).value)
      {
        CanonicalAccepts(dialect, leaf, env, n, schemas[i].value, Lookup(members, schemas[i].key).value);
      }
    }
  }

  lemma {:induction false} PropertiesSame(
    dialect: Dialect, leaf: Leaf, env: Environment, n: nat, item: Json, value: Json)
    requires OrderBlind(leaf) && KeyedEnvironment(env) && Keyed(item)
    ensures PropertiesAccept(dialect, leaf, CanonicalEnvironment(env), n, Canonical(item), value)
            <==> PropertiesAccept(dialect, leaf, env, n, item, value)
    decreases n, item, 11
  {
    match item
    case Obj(schemas) => MapSame(dialect, leaf, env, n, schemas, value);
    case _ =>
  }

  lemma {:induction false} AdditionalSame(
    dialect: Dialect, leaf: Leaf, env: Environment, n: nat, fields: seq<Field>, sorted: seq<Field>, item: Json, value: Json)
    requires OrderBlind(leaf) && KeyedEnvironment(env) && Keyed(item) && HoldsCanonical(fields, sorted)
    requires Has(fields, "properties") ==> Keyed(Lookup(fields, "properties").value)
    ensures AdditionalAccept(dialect, leaf, CanonicalEnvironment(env), n, sorted, Canonical(item), value)
            <==> AdditionalAccept(dialect, leaf, env, n, fields, item, value)
    decreases n, item, 11
  {
    if value.Obj? {
      forall i | 0 <= i < |value.fields|
        ensures IsDeclared(sorted, value.fields[i].key) <==> IsDeclared(fields, value.fields[i].key)
        ensures Accepts(dialect, leaf, CanonicalEnvironment(env), n, Canonical(item), value.fields[i].value)
                <==> Accepts(dialect, leaf, env, n, item, value.fields[i].value)
      {
        DeclaredSame(fields, sorted, value.fields[i].key);
        CanonicalAccepts(dialect, leaf, env, n, item, value.fields[i].value);
      }
    }
  }

  lemma {:induction false} ItemsSame(
    dialect: Dialect, leaf: Leaf, env: Environment, n: nat, item: Json, value: Json)
    requires OrderBlind(leaf) && KeyedEnvironment(env) && Keyed(item)
    ensures ItemsAccept(dialect, leaf, CanonicalEnvironment(env), n, Canonical(item), value)
            <==> ItemsAccept(dialect, leaf, env, n, item, value)
    decreases n, item, 11
  {
    if value.Arr? {
      forall i | 0 <= i < |value.items|
        ensures Accepts(dialect, leaf, CanonicalEnvironment(env), n, Canonical(item), value.items[i])
                <==> Accepts(dialect, leaf, env, n, item, value.items[i])
      {
        CanonicalAccepts(dialect, leaf, env, n, item, value.items[i]);
      }
    }
  }

  lemma {:induction false} AllOfSame(
    dialect: Dialect, leaf: Leaf, env: Environment, n: nat, item: Json, value: Json)
    requires OrderBlind(leaf) && KeyedEnvironment(env) && Keyed(item)
    ensures AllOfAccepts(dialect, leaf, CanonicalEnvironment(env), n, Canonical(item), value)
            <==> AllOfAccepts(dialect, leaf, env, n, item, value)
    decreases n, item, 11
  {
    match item
    case Arr(schemas) =>
      ListSame(dialect, leaf, env, n, schemas, value);
    case _ =>
  }

  lemma {:induction false} AnyOfSame(
    dialect: Dialect, leaf: Leaf, env: Environment, n: nat, item: Json, value: Json)
    requires OrderBlind(leaf) && KeyedEnvironment(env) && Keyed(item)
    ensures AnyOfAccepts(dialect, leaf, CanonicalEnvironment(env), n, Canonical(item), value)
            <==> AnyOfAccepts(dialect, leaf, env, n, item, value)
    decreases n, item, 11
  {
    match item
    case Arr(schemas) =>
      ListSame(dialect, leaf, env, n, schemas, value);
    case _ =>
  }

  lemma {:induction false} OneOfPointwise(
    dialect: Dialect, leaf: Leaf, env: Environment, n: nat, schemas: seq<Json>, others: seq<Json>, value: Json)
    requires |others| == |schemas|
    requires forall i :: 0 <= i < |schemas| ==>
      (Accepts(dialect, leaf, CanonicalEnvironment(env), n, others[i], value)
       <==> Accepts(dialect, leaf, env, n, schemas[i], value))
    ensures OneOfAccepts(dialect, leaf, CanonicalEnvironment(env), n, Arr(others), value)
            <==> OneOfAccepts(dialect, leaf, env, n, Arr(schemas), value)
  {
    forall i | 0 <= i < |schemas|
      ensures AcceptsOnly(dialect, leaf, CanonicalEnvironment(env), n, others, i, value)
              <==> AcceptsOnly(dialect, leaf, env, n, schemas, i, value)
    {
    }
  }

  lemma {:induction false} OneOfSame(
    dialect: Dialect, leaf: Leaf, env: Environment, n: nat, item: Json, value: Json)
    requires OrderBlind(leaf) && KeyedEnvironment(env) && Keyed(item)
    ensures OneOfAccepts(dialect, leaf, CanonicalEnvironment(env), n, Canonical(item), value)
            <==> OneOfAccepts(dialect, leaf, env, n, item, value)
    decreases n, item, 11
  {
    match item
    case Arr(schemas) =>
      ListSame(dialect, leaf, env, n, schemas, value);
      OneOfPointwise(dialect, leaf, env, n, schemas, CanonicalItems(schemas), value);
    case _ =>
  }

  lemma {:induction false} ItemKeyed(fields: seq<Field>, key: string)
    requires Keyed(Obj(fields)) && Has(fields, key)
    ensures Keyed(Lookup(fields, key).value) && Lookup(fields, key).value < Obj(fields)
  {
    var i :| 0 <= i < |fields| && fields[i] == Field(key, Lookup(fields, key).value);
    assert fields[i] < Obj(fields);
  }

  lemma {:induction false} ConstraintsSame(
    dialect: Dialect, leaf: Leaf, env: Environment, n: nat, fields: seq<Field>, value: Json)
    requires OrderBlind(leaf) && KeyedEnvironment(env) && Keyed(Obj(fields))
    ensures ConstraintsAccept(dialect, leaf, CanonicalEnvironment(env), n, Canonical(Obj(fields)), value)
            <==> ConstraintsAccept(dialect, leaf, env, n, Obj(fields), value)
    decreases n, Obj(fields), 7
  {
    var sorted := Canonical(Obj(fields)).fields;
    CanonicalMembers(fields);
    LocalSame(dialect, leaf, fields, sorted, value);
    PropertiesHoldsSame(dialect, leaf, env, n, fields, sorted, value);
    AdditionalHoldsSame(dialect, leaf, env, n, fields, sorted, value);
    ItemsHoldsSame(dialect, leaf, env, n, fields, sorted, value);
    NotHoldsSame(dialect, leaf, env, n, fields, sorted, value);
    AllOfHoldsSame(dialect, leaf, env, n, fields, sorted, value);
    AnyOfHoldsSame(dialect, leaf, env, n, fields, sorted, value);
    OneOfHoldsSame(dialect, leaf, env, n, fields, sorted, value);
  }

  lemma {:induction false} PropertiesHoldsSame(
    dialect: Dialect, leaf: Leaf, env: Environment, n: nat, fields: seq<Field>, sorted: seq<Field>, value: Json)
    requires OrderBlind(leaf) && KeyedEnvironment(env) && Keyed(Obj(fields)) && HoldsCanonical(fields, sorted)
    ensures PropertiesHolds(dialect, leaf, CanonicalEnvironment(env), n, Obj(sorted), value)
            <==> PropertiesHolds(dialect, leaf, env, n, Obj(fields), value)
    decreases n, Obj(fields), 6
  {
    if Has(fields, "properties") {
      ItemKeyed(fields, "properties");
      PropertiesSame(dialect, leaf, env, n, Lookup(fields, "properties").value, value);
    }
  }

  lemma {:induction false} AdditionalHoldsSame(
    dialect: Dialect, leaf: Leaf, env: Environment, n: nat, fields: seq<Field>, sorted: seq<Field>, value: Json)
    requires OrderBlind(leaf) && KeyedEnvironment(env) && Keyed(Obj(fields)) && HoldsCanonical(fields, sorted)
    ensures AdditionalHolds(dialect, leaf, CanonicalEnvironment(env), n, Obj(sorted), value)
            <==> AdditionalHolds(dialect, leaf, env, n, Obj(fields), value)
    decreases n, Obj(fields), 6
  {
    if Has(fields, "additionalProperties") {
      ItemKeyed(fields, "additionalProperties");
      if Has(fields, "properties") {
        ItemKeyed(fields, "properties");
      }
      AdditionalSame(dialect, leaf, env, n, fields, sorted, Lookup(fields, "additionalProperties").value, value);
    }
  }

  lemma {:induction false} ItemsHoldsSame(
    dialect: Dialect, leaf: Leaf, env: Environment, n: nat, fields: seq<Field>, sorted: seq<Field>, value: Json)
    requires OrderBlind(leaf) && KeyedEnvironment(env) && Keyed(Obj(fields)) && HoldsCanonical(fields, sorted)
    ensures ItemsHolds(dialect, leaf, CanonicalEnvironment(env), n, Obj(sorted), value)
            <==> ItemsHolds(dialect, leaf, env, n, Obj(fields), value)
    decreases n, Obj(fields), 6
  {
    if Has(fields, "items") {
      ItemKeyed(fields, "items");
      ItemsSame(dialect, leaf, env, n, Lookup(fields, "items").value, value);
    }
  }

  lemma {:induction false} NotHoldsSame(
    dialect: Dialect, leaf: Leaf, env: Environment, n: nat, fields: seq<Field>, sorted: seq<Field>, value: Json)
    requires OrderBlind(leaf) && KeyedEnvironment(env) && Keyed(Obj(fields)) && HoldsCanonical(fields, sorted)
    ensures NotHolds(dialect, leaf, CanonicalEnvironment(env), n, Obj(sorted), value)
            <==> NotHolds(dialect, leaf, env, n, Obj(fields), value)
    decreases n, Obj(fields), 6
  {
    if Has(fields, "not") {
      ItemKeyed(fields, "not");
      CanonicalAccepts(dialect, leaf, env, n, Lookup(fields, "not").value, value);
    }
  }

  lemma {:induction false} AllOfHoldsSame(
    dialect: Dialect, leaf: Leaf, env: Environment, n: nat, fields: seq<Field>, sorted: seq<Field>, value: Json)
    requires OrderBlind(leaf) && KeyedEnvironment(env) && Keyed(Obj(fields)) && HoldsCanonical(fields, sorted)
    ensures AllOfHolds(dialect, leaf, CanonicalEnvironment(env), n, Obj(sorted), value)
            <==> AllOfHolds(dialect, leaf, env, n, Obj(fields), value)
    decreases n, Obj(fields), 6
  {
    if Has(fields, "allOf") {
      ItemKeyed(fields, "allOf");
      AllOfSame(dialect, leaf, env, n, Lookup(fields, "allOf").value, value);
    }
  }

  lemma {:induction false} AnyOfHoldsSame(
    dialect: Dialect, leaf: Leaf, env: Environment, n: nat, fields: seq<Field>, sorted: seq<Field>, value: Json)
    requires OrderBlind(leaf) && KeyedEnvironment(env) && Keyed(Obj(fields)) && HoldsCanonical(fields, sorted)
    ensures AnyOfHolds(dialect, leaf, CanonicalEnvironment(env), n, Obj(sorted), value)
            <==> AnyOfHolds(dialect, leaf, env, n, Obj(fields), value)
    decreases n, Obj(fields), 6
  {
    if Has(fields, "anyOf") {
      ItemKeyed(fields, "anyOf");
      AnyOfSame(dialect, leaf, env, n, Lookup(fields, "anyOf").value, value);
    }
  }

  lemma {:induction false} OneOfHoldsSame(
    dialect: Dialect, leaf: Leaf, env: Environment, n: nat, fields: seq<Field>, sorted: seq<Field>, value: Json)
    requires OrderBlind(leaf) && KeyedEnvironment(env) && Keyed(Obj(fields)) && HoldsCanonical(fields, sorted)
    ensures OneOfHolds(dialect, leaf, CanonicalEnvironment(env), n, Obj(sorted), value)
            <==> OneOfHolds(dialect, leaf, env, n, Obj(fields), value)
    decreases n, Obj(fields), 6
  {
    if Has(fields, "oneOf") {
      ItemKeyed(fields, "oneOf");
      OneOfSame(dialect, leaf, env, n, Lookup(fields, "oneOf").value, value);
    }
  }

  lemma {:induction false} EntrySame(
    dialect: Dialect, leaf: Leaf, env: Environment, n: nat, schema: Json, reference: string, value: Json)
    requires OrderBlind(leaf) && KeyedEnvironment(env)
    ensures EntryAccepts(dialect, leaf, CanonicalEnvironment(env), n, reference, value)
            <==> EntryAccepts(dialect, leaf, env, n, reference, value)
    decreases n, schema, 8
  {
    if n > 0 && reference in env {
      CanonicalAccepts(dialect, leaf, env, n - 1, env[reference], value);
      EntryUnfolds(dialect, leaf, env, n - 1, reference, value);
      EntryUnfolds(dialect, leaf, CanonicalEnvironment(env), n - 1, reference, value);
    }
  }

  lemma {:induction false} ReferenceSame(
    dialect: Dialect, leaf: Leaf, env: Environment, n: nat, fields: seq<Field>, sorted: seq<Field>, value: Json)
    requires OrderBlind(leaf) && KeyedEnvironment(env) && HoldsCanonical(fields, sorted) && Has(fields, "$ref")
    ensures Accepts(dialect, leaf, CanonicalEnvironment(env), n, Obj(sorted), value)
            <==> Accepts(dialect, leaf, env, n, Obj(fields), value)
    decreases n, Obj(fields), 9
  {
    match Lookup(fields, "$ref").value
    case Str(reference) =>
      EntrySame(dialect, leaf, env, n, Obj(fields), reference, value);
      ReferenceAccepts(dialect, leaf, env, n, fields, reference, value);
      ReferenceAccepts(dialect, leaf, CanonicalEnvironment(env), n, sorted, reference, value);
    case item =>
      assert Lookup(sorted, "$ref") == Some(Canonical(item)) && !Canonical(item).Str?;
      NotAReference(dialect, leaf, env, n, fields, value);
      NotAReference(dialect, leaf, CanonicalEnvironment(env), n, sorted, value);
  }

  lemma {:induction false} NotAReference(dialect: Dialect, leaf: Leaf, env: Environment, n: nat, fields: seq<Field>, value: Json)
    requires Has(fields, "$ref") && !Lookup(fields, "$ref").value.Str?
    ensures !Accepts(dialect, leaf, env, n, Obj(fields), value)
  {
  }

  lemma {:induction false} ObjectSame(
    dialect: Dialect, leaf: Leaf, env: Environment, n: nat, fields: seq<Field>, sorted: seq<Field>, value: Json)
    requires OrderBlind(leaf) && KeyedEnvironment(env) && Keyed(Obj(fields))
    requires HoldsCanonical(fields, sorted) && Obj(sorted) == Canonical(Obj(fields)) && !Has(fields, "$ref")
    ensures Accepts(dialect, leaf, CanonicalEnvironment(env), n, Obj(sorted), value)
            <==> Accepts(dialect, leaf, env, n, Obj(fields), value)
    decreases n, Obj(fields), 9
  {
    ObjectAccepts(dialect, leaf, env, n, fields, value);
    ObjectAccepts(dialect, leaf, CanonicalEnvironment(env), n, sorted, value);
    TypeSame(dialect, fields, sorted, value);
    ConstraintsSame(dialect, leaf, env, n, fields, value);
  }

  /**
   The canonical form of a schema, read with references to canonical forms, accepts what
   the schema accepts: at every reference depth and on every value.
   */
  lemma {:induction false} CanonicalAccepts(
    dialect: Dialect, leaf: Leaf, env: Environment, n: nat, schema: Json, value: Json)
    requires OrderBlind(leaf) && KeyedEnvironment(env) && Keyed(schema)
    ensures Accepts(dialect, leaf, CanonicalEnvironment(env), n, Canonical(schema), value)
            <==> Accepts(dialect, leaf, env, n, schema, value)
    decreases n, schema, 10
  {
    match schema
    case Obj(fields) =>
      var sorted := Canonical(schema).fields;
      CanonicalMembers(fields);
      if Has(fields, "$ref") {
        ReferenceSame(dialect, leaf, env, n, fields, sorted, value);
      } else {
        ObjectSame(dialect, leaf, env, n, fields, sorted, value);
      }
    case _ =>
  }
}
