/**
 Decoded JSON documents.  An object keeps its keys in insertion order, as a Python
 `dict` does, so that key order is part of the value.
 */
module Json {
  import opened Prelude

  datatype Json =
    | Null
    | Bool(flag: bool)
    | Num(number: real)
    | Str(text: string)
    | Arr(items: seq<Json>)
    | Obj(fields: seq<Field>)

  datatype Field = Field(key: string, value: Json)

  /** `dict.get(key)`. */
  function Lookup(fields: seq<Field>, key: string): (r: Option<Json>)
    ensures r.Some? ==> exists i :: 0 <= i < |fields| && fields[i] == Field(key, r.value)
    ensures r.None? <==> forall i :: 0 <= i < |fields| ==> fields[i].key != key
  {
    if |fields| == 0 then None
    else if fields[0].key == key then
      assert fields[0] == Field(key, fields[0].value);
      Some(fields[0].value)
    else
      var rest := Lookup(fields[1..], key);
      assert forall i :: 0 <= i < |fields[1..]| ==> fields[1..][i] == fields[i + 1];
      rest
  }

  predicate Has(fields: seq<Field>, key: string) {
    Lookup(fields, key).Some?
  }

  /** `dict[key] = value`: in place when the key is there, appended otherwise. */
  function Put(fields: seq<Field>, key: string, value: Json): seq<Field> {
    if |fields| == 0 then [Field(key, value)]
    else if fields[0].key == key then [Field(key, value)] + fields[1..]
    else [fields[0]] + Put(fields[1..], key, value)
  }

  /** `dict.pop(key, None)`. */
  function Without(fields: seq<Field>, key: string): seq<Field> {
    if |fields| == 0 then []
    else if fields[0].key == key then fields[1..]
    else [fields[0]] + Without(fields[1..], key)
  }

  ghost predicate UniqueKeys(fields: seq<Field>) {
    forall i, j :: 0 <= i < j < |fields| ==> fields[i].key != fields[j].key
  }

  /** Every object of the document has each key once, as every decoded `dict` does. */
  ghost predicate Keyed(value: Json) {
    match value
    case Arr(items) => forall i :: 0 <= i < |items| ==> Keyed(items[i])
    case Obj(fields) =>
      && UniqueKeys(fields)
      && forall i :: 0 <= i < |fields| ==> Keyed(fields[i].value)
    case _ => true
  }

  lemma {:induction false} LookupAt(fields: seq<Field>, i: nat)
    requires UniqueKeys(fields) && i < |fields|
    ensures Lookup(fields, fields[i].key) == Some(fields[i].value)
  {
    var found := Lookup(fields, fields[i].key);
    assert found.Some?;
    var j :| 0 <= j < |fields| && fields[j] == Field(fields[i].key, found.value);
    assert j == i;
  }

  lemma {:induction false} LookupPut(fields: seq<Field>, key: string, value: Json, other: string)
    ensures Lookup(Put(fields, key, value), other) == if other == key then Some(value) else Lookup(fields, other)
  {
    if |fields| != 0 && fields[0].key != key {
      var put := Put(fields, key, value);
      assert put[1..] == Put(fields[1..], key, value);
      LookupPut(fields[1..], key, value, other);
    } else if |fields| != 0 {
      assert Put(fields, key, value)[1..] == fields[1..];
    }
  }

  lemma {:induction false} LookupWithout(fields: seq<Field>, key: string, other: string)
    requires UniqueKeys(fields)
    ensures Lookup(Without(fields, key), other) == if other == key then None else Lookup(fields, other)
  {
    if |fields| != 0 {
      if fields[0].key != key {
        assert Without(fields, key)[1..] == Without(fields[1..], key);
        LookupWithout(fields[1..], key, other);
      }
    }
  }

  lemma {:induction false} PutUnique(fields: seq<Field>, key: string, value: Json)
    requires UniqueKeys(fields)
    ensures UniqueKeys(Put(fields, key, value))
  {
    if |fields| != 0 {
      var rest := Put(fields[1..], key, value);
      if fields[0].key == key {
        assert forall i :: 0 < i < |fields| ==> Put(fields, key, value)[i] == fields[i];
      } else {
        PutUnique(fields[1..], key, value);
        LookupPut(fields[1..], key, value, fields[0].key);
        assert Lookup(rest, fields[0].key).None?;
        assert Put(fields, key, value) == [fields[0]] + rest;
      }
    }
  }

  lemma {:induction false} WithoutSubset(fields: seq<Field>, key: string)
    requires UniqueKeys(fields)
    ensures UniqueKeys(Without(fields, key))
    ensures forall f :: f in Without(fields, key) ==> f in fields
  {
    if |fields| != 0 && fields[0].key != key {
      var rest := Without(fields[1..], key);
      WithoutSubset(fields[1..], key);
      LookupWithout(fields[1..], key, fields[0].key);
      assert Lookup(rest, fields[0].key).None?;
      assert Without(fields, key) == [fields[0]] + rest;
    }
  }

  lemma {:induction false} PutMembers(fields: seq<Field>, key: string, value: Json)
    requires UniqueKeys(fields)
    ensures forall f :: f in Put(fields, key, value) ==> f == Field(key, value) || (f in fields && f.key != key)
    ensures Field(key, value) in Put(fields, key, value)
  {
    if |fields| != 0 {
      if fields[0].key == key {
        forall f | f in Put(fields, key, value)
          ensures f == Field(key, value) || (f in fields && f.key != key)
        {
          if f != Field(key, value) {
            var i :| 0 <= i < |fields[1..]| && fields[1..][i] == f;
            assert fields[i + 1] == f;
          }
        }
      } else {
        PutMembers(fields[1..], key, value);
      }
    }
  }
}
