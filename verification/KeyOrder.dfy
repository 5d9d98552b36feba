/** String order and decimal numerals, as Python's `sorted` and `str` give them. */
module KeyOrder {
  import opened Prelude
  import opened Json

  /** Python's `<` on strings: by code point, a proper prefix first. */
  predicate Less(a: string, b: string) {
    if |b| == 0 then false
    else if |a| == 0 then true
    else a[0] < b[0] || (a[0] == b[0] && Less(a[1..], b[1..]))
  }

  lemma {:induction false} LessIsStrict(a: string)
    ensures !Less(a, a)
  {
    if |a| != 0 {
      LessIsStrict(a[1..]);
    }
  }

  lemma {:induction false} LessIsTotal(a: string, b: string)
    ensures a == b || Less(a, b) || Less(b, a)
  {
    if |a| != 0 && |b| != 0 && a[0] == b[0] {
      LessIsTotal(a[1..], b[1..]);
      assert a == [a[0]] + a[1..] && b == [b[0]] + b[1..];
    }
  }

  lemma {:induction false} LessIsTransitive(a: string, b: string, c: string)
    requires Less(a, b) && Less(b, c)
    ensures Less(a, c)
  {
    if |a| != 0 && a[0] == b[0] == c[0] {
      LessIsTransitive(a[1..], b[1..], c[1..]);
    }
  }

  /** No key is below an earlier one. */
  ghost predicate Ordered(fields: seq<Field>) {
    forall i, j :: 0 <= i < j < |fields| ==> !Less(fields[j].key, fields[i].key)
  }

  /** `sorted(value, key=...)` on one object's items: stable insertion. */
  function SortFields(fields: seq<Field>): seq<Field> {
    if |fields| == 0 then [] else InsertField(fields[0], SortFields(fields[1..]))
  }

  function InsertField(field: Field, sorted: seq<Field>): seq<Field> {
    if |sorted| == 0 then [field]
    else if Less(sorted[0].key, field.key) then [sorted[0]] + InsertField(field, sorted[1..])
    else [field] + sorted
  }

  lemma {:induction false} NotLessIsTransitive(a: string, b: string, c: string)
    requires !Less(b, a) && !Less(c, b)
    ensures !Less(c, a)
  {
    LessIsTotal(a, b);
    LessIsTotal(b, c);
    if Less(c, a) {
      if a != b {
        LessIsTransitive(c, a, b);
      }
    }
  }

  lemma {:induction false} InsertMembers(field: Field, sorted: seq<Field>)
    ensures multiset(InsertField(field, sorted)) == multiset(sorted) + multiset{field}
  {
    if |sorted| != 0 {
      assert sorted == [sorted[0]] + sorted[1..];
      if Less(sorted[0].key, field.key) {
        InsertMembers(field, sorted[1..]);
      }
    }
  }

  lemma {:induction false} SortMembers(fields: seq<Field>)
    ensures multiset(SortFields(fields)) == multiset(fields)
  {
    if |fields| != 0 {
      SortMembers(fields[1..]);
      InsertMembers(fields[0], SortFields(fields[1..]));
      assert fields == [fields[0]] + fields[1..];
    }
  }

  lemma {:induction false} InsertOrdered(field: Field, sorted: seq<Field>)
    requires Ordered(sorted)
    ensures Ordered(InsertField(field, sorted))
  {
    if |sorted| != 0 {
      if Less(sorted[0].key, field.key) {
        var rest := InsertField(field, sorted[1..]);
        InsertOrdered(field, sorted[1..]);
        InsertMembers(field, sorted[1..]);
        if Less(field.key, sorted[0].key) {
          LessIsTransitive(field.key, sorted[0].key, field.key);
          LessIsStrict(field.key);
        }
        forall j | 0 <= j < |rest|
          ensures !Less(rest[j].key, sorted[0].key)
        {
          assert rest[j] in multiset(rest);
          assert rest[j] == field || rest[j] in sorted[1..];
        }
      } else {
        forall j | 0 <= j < |sorted|
          ensures !Less(sorted[j].key, field.key)
        {
          if j > 0 {
            NotLessIsTransitive(field.key, sorted[0].key, sorted[j].key);
          }
        }
      }
    }
  }

  lemma {:induction false} SortOrdered(fields: seq<Field>)
    ensures Ordered(SortFields(fields))
  {
    if |fields| != 0 {
      SortOrdered(fields[1..]);
      InsertOrdered(fields[0], SortFields(fields[1..]));
    }
  }

  lemma {:induction false} SortedStays(fields: seq<Field>)
    requires Ordered(fields)
    ensures SortFields(fields) == fields
  {
    if |fields| != 0 {
      SortedStays(fields[1..]);
      assert |fields| > 1 ==> fields[1..][0] == fields[1];
      assert fields == [fields[0]] + fields[1..];
    }
  }

  /** Sorting changes the order of an object's keys and nothing else. */
  lemma {:induction false} SortUnique(fields: seq<Field>)
    requires UniqueKeys(fields)
    ensures UniqueKeys(SortFields(fields))
  {
    var sorted := SortFields(fields);
    SortMembers(fields);
    forall i, j | 0 <= i < j < |sorted|
      ensures sorted[i].key != sorted[j].key
    {
      if sorted[i].key == sorted[j].key {
        TwiceInMultiset(sorted, i, j);
        assert sorted[i] in multiset(fields) && sorted[j] in multiset(fields);
        var k :| 0 <= k < |fields| && fields[k] == sorted[i];
        var l :| 0 <= l < |fields| && fields[l] == sorted[j];
        assert k == l;
        OnceInMultiset(fields, k);
      }
    }
  }

  lemma TwiceInMultiset(fields: seq<Field>, i: nat, j: nat)
    requires i < j < |fields|
    ensures fields[i] == fields[j] ==> multiset(fields)[fields[i]] >= 2
  {
    assert fields == fields[..j] + [fields[j]] + fields[j + 1..];
    assert fields[..j] == fields[..i] + [fields[i]] + fields[i + 1..j];
  }

  lemma OnceInMultiset(fields: seq<Field>, i: nat)
    requires UniqueKeys(fields) && i < |fields|
    ensures multiset(fields)[fields[i]] == 1
  {
    var before, after := fields[..i], fields[i + 1..];
    assert fields == before + [fields[i]] + after;
    assert fields[i] !in before && fields[i] !in after;
  }

  lemma {:induction false} SortLookup(fields: seq<Field>, key: string)
    requires UniqueKeys(fields)
    ensures Lookup(SortFields(fields), key) == Lookup(fields, key)
  {
    var sorted := SortFields(fields);
    SortMembers(fields);
    SortUnique(fields);
    if Has(fields, key) {
      var field := Field(key, Lookup(fields, key).value);
      assert field in multiset(fields);
      assert field in sorted;
      var i :| 0 <= i < |sorted| && sorted[i] == field;
      LookupAt(sorted, i);
    } else {
      forall i | 0 <= i < |sorted| ensures sorted[i].key != key {
        assert sorted[i] in multiset(sorted);
        assert sorted[i] in fields;
      }
    }
  }

  /** `str(n)` of a list index. */
  function Decimal(n: nat): (r: string)
    ensures |r| >= 1
    ensures forall i :: 0 <= i < |r| ==> '0' <= r[i] <= '9'
  {
    if n < 10 then [Digit(n)] else Decimal(n / 10) + [Digit(n % 10)]
  }

  function Digit(d: nat): (c: char)
    requires d < 10
    ensures '0' <= c <= '9'
  {
    '0' + d as char
  }
}
