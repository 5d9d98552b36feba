/**
 `$ref` handling: `_walk` accepts a document and collects its references, `_resolve`
 follows them, cyclic ones included.
 */
module RefResolution {
  import opened Prelude
  import opened Json
  import opened KeyOrder
  import opened JsonPointer
  import opened SchemaNormaliser

  const REF := "$ref"
  const MAX_DEPTH := 64

  // ---------- the references of a document ----------

  /** The reference an object makes at its own top level. */
  function RefOf(value: Json): set<string> {
    if !value.Obj? then {}
    else
      match Lookup(value.fields, REF)
      case Some(Str(reference)) => {reference}
      case _ => {}
  }

  /** Every reference made anywhere in a document. */
  function Refs(value: Json): set<string> {
    match value
    case Arr(items) => set i, r | 0 <= i < |items| && r in Refs(items[i]) :: r
    case Obj(fields) => RefOf(value) + set i, r | 0 <= i < |fields| && r in Refs(fields[i].value) :: r
    case _ => {}
  }

  /** A node's references are references of the document. */
  lemma {:induction false} NodeRefs(value: Json, tokens: seq<string>)
    requires DescendAll(value, tokens).Some?
    ensures Refs(DescendAll(value, tokens).value) <= Refs(value)
  {
    if |tokens| != 0 {
      var child := Descend(value, tokens[0]).value;
      NodeRefs(child, tokens[1..]);
      assert Refs(child) <= Refs(value);
    }
  }

  lemma {:induction false} TargetRefs(document: Json, reference: string)
    requires Pointer(document, reference).Some?
    ensures RefOf(Pointer(document, reference).value) <= Refs(document)
  {
    if reference != "#" {
      NodeRefs(document, Split(reference[2..]));
    }
  }

  // ---------- `_resolve` ----------

  /** `{key: item for key, item in value.items() if key != "$ref"}`. */
  function Siblings(fields: seq<Field>): seq<Field> {
    if |fields| == 0 then []
    else (if fields[0].key == REF then [] else [fields[0]]) + Siblings(fields[1..])
  }

  /** `merged.update(extra)`. */
  function Update(fields: seq<Field>, extra: seq<Field>): seq<Field>
    decreases extra
  {
    if |extra| == 0 then fields
    else Update(Put(fields, extra[0].key, extra[0].value), extra[1..])
  }

  predicate MakesReference(value: Json) {
    value.Obj? && Lookup(value.fields, REF).Some? && Lookup(value.fields, REF).value.Str?
  }

  function Reference(value: Json): string
    requires MakesReference(value)
  {
    Lookup(value.fields, REF).value.text
  }

  /**
   `_resolve`; None where `_pointer` raises `KeyError`.  Terminates on every document,
   cyclic references included: each call puts a new reference of the document on the stack.
   */
  function Resolve(value: Json, document: Json, stack: set<string>): Option<Json>
    decreases |Refs(document) + RefOf(value) - stack|
  {
    if !MakesReference(value) then Some(value)
    else
      var reference := Reference(value);
      if reference in stack then Some(Obj(Siblings(value.fields)))
      else
        match Pointer(document, reference)
        case None => None
        case Some(target) =>
          MeasureDrops(value, target, document, stack);
          match Resolve(target, document, stack + {reference})
          case None => None
          case Some(Obj(fields)) => Some(Obj(Update(fields, Siblings(value.fields))))
          case Some(other) => Some(other)
  }

  lemma {:induction false} MeasureDrops(value: Json, target: Json, document: Json, stack: set<string>)
    requires MakesReference(value) && Reference(value) !in stack
    requires Pointer(document, Reference(value)) == Some(target)
    ensures |Refs(document) + RefOf(target) - (stack + {Reference(value)})| < |Refs(document) + RefOf(value) - stack|
  {
    TargetRefs(document, Reference(value));
    var before := Refs(document) + RefOf(value) - stack;
    var after := Refs(document) + RefOf(target) - (stack + {Reference(value)});
    assert Reference(value) in before;
    assert after <= before - {Reference(value)};
    Smaller(after, before - {Reference(value)});
  }

  lemma {:induction false} Smaller(a: set<string>, b: set<string>)
    requires a <= b
    ensures |a| <= |b|
  {
    if a != {} {
      var x :| x in a;
      Smaller(a - {x}, b - {x});
    }
  }

  // ---------- `_walk` ----------

  datatype Ref = Ref(reference: string, path: string)

  datatype Rejection = TooDeep(path: string) | ExternalRef(path: string)

  predicate IsLocal(value: Json) {
    value.Str? && |value.text| >= 1 && value.text[0] == '#'
  }

  function Walked(value: Json, path: string, depth: nat): Result<seq<Ref>, Rejection>
    decreases value, 1
  {
    if depth > MAX_DEPTH then Err(TooDeep(path))
    else
      match value
      case Obj(fields) => WalkedFields(fields, path, depth)
      case Arr(items) => WalkedItems(items, path, depth, 0)
      case _ => Ok([])
  }

  function WalkedField(field: Field, path: string, depth: nat): Result<seq<Ref>, Rejection>
    decreases field, 2
  {
    var childPath := path + "/" + field.key;
    if field.key == REF then
      if !IsLocal(field.value) then Err(ExternalRef(childPath))
      else
        var inner :- Walked(field.value, childPath, depth + 1);
        Ok([Ref(field.value.text, childPath)] + inner)
    else Walked(field.value, childPath, depth + 1)
  }

  function WalkedFields(fields: seq<Field>, path: string, depth: nat): Result<seq<Ref>, Rejection>
    decreases fields, 0
  {
    if |fields| == 0 then Ok([])
    else
      var first :- WalkedField(fields[0], path, depth);
      var rest :- WalkedFields(fields[1..], path, depth);
      Ok(first + rest)
  }

  function WalkedItems(items: seq<Json>, path: string, depth: nat, index: nat): Result<seq<Ref>, Rejection>
    decreases items, 0
  {
    if |items| == 0 then Ok([])
    else
      var first :- Walked(items[0], path + "/" + Decimal(index), depth + 1);
      var rest :- WalkedItems(items[1..], path, depth, index + 1);
      Ok(first + rest)
  }

  /** `refs` before the call, followed by what the call adds. */
  function After(refs: seq<Ref>, found: Result<seq<Ref>, Rejection>): Result<seq<Ref>, Rejection> {
    match found case Ok(more) => Ok(refs + more) case Err(e) => Err(e)
  }

  lemma AfterBoth(refs: seq<Ref>, first: seq<Ref>, rest: Result<seq<Ref>, Rejection>)
    ensures After(refs + first, rest) == match rest case Ok(more) => Ok(refs + (first + more)) case Err(e) => Err(e)
  {
    if rest.Ok? {
      assert refs + first + rest.value == refs + (first + rest.value);
    }
  }

  method Walk(value: Json, path: string, depth: nat, refs: seq<Ref>) returns (result: Result<seq<Ref>, Rejection>)
    ensures result == After(refs, Walked(value, path, depth))
    decreases value
  {
    if depth > MAX_DEPTH {
      return Err(TooDeep(path));
    }
    var found := refs;
    match value {
      case Obj(fields) =>
        for i := 0 to |fields|
          invariant After(refs, WalkedFields(fields, path, depth)) == After(found, WalkedFields(fields[i..], path, depth))
        {
          var key, item, childPath := fields[i].key, fields[i].value, path + "/" + fields[i].key;
          assert fields[i..][1..] == fields[i + 1..];
          ghost var before := found;
          if key == REF {
            if !IsLocal(item) {
              return Err(ExternalRef(childPath));
            }
            found := found + [Ref(item.text, childPath)];
          }
          var inner := Walk(item, childPath, depth + 1, found);
          if inner.Err? {
            return inner;
          }
          found := inner.value;
          ghost var added := WalkedField(fields[i], path, depth).value;
          assert found == before + added;
          AfterBoth(before, added, WalkedFields(fields[i + 1..], path, depth));
        }
      case Arr(items) =>
        for i := 0 to |items|
          invariant After(refs, WalkedItems(items, path, depth, 0)) == After(found, WalkedItems(items[i..], path, depth, i))
        {
          assert items[i..][1..] == items[i + 1..];
          var inner := Walk(items[i], path + "/" + Decimal(i), depth + 1, found);
          if inner.Err? {
            return inner;
          }
          AfterBoth(found, Walked(items[i], path + "/" + Decimal(i), depth + 1).value,
                    WalkedItems(items[i + 1..], path, depth, i + 1));
          found := inner.value;
        }
      case _ =>
    }
    assert found + [] == found;
    return Ok(found);
  }

  // ---------- what `_walk` accepts ----------

  /** Levels of nesting below a value. */
  function Height(value: Json): nat {
    match value
    case Arr(items) => HighestItem(items)
    case Obj(fields) => HighestField(fields)
    case _ => 0
  }

  function HighestItem(items: seq<Json>): nat {
    if |items| == 0 then 0 else Max(1 + Height(items[0]), HighestItem(items[1..]))
  }

  function HighestField(fields: seq<Field>): nat {
    if |fields| == 0 then 0 else Max(1 + Height(fields[0].value), HighestField(fields[1..]))
  }

  function Max(a: nat, b: nat): nat {
    if a < b then b else a
  }

  /** Every `$ref` anywhere is a string that starts with `#`. */
  predicate AllLocal(value: Json) {
    match value
    case Arr(items) => forall i :: 0 <= i < |items| ==> AllLocal(items[i])
    case Obj(fields) =>
      forall i :: 0 <= i < |fields| ==> (fields[i].key == REF ==> IsLocal(fields[i].value)) && AllLocal(fields[i].value)
    case _ => true
  }

  function Collected(refs: seq<Ref>): set<string> {
    set i | 0 <= i < |refs| :: refs[i].reference
  }

  lemma CollectedConcat(a: seq<Ref>, b: seq<Ref>)
    ensures Collected(a + b) == Collected(a) + Collected(b)
  {
    forall r | r in Collected(a) + Collected(b) ensures r in Collected(a + b) {
      if r in Collected(a) {
        var i :| 0 <= i < |a| && a[i].reference == r;
        assert (a + b)[i] == a[i];
      } else {
        var i :| 0 <= i < |b| && b[i].reference == r;
        assert (a + b)[|a| + i] == b[i];
      }
    }
  }

  /** `_walk` accepts a value exactly when it is shallow enough and all its `$ref`s are local. */
  lemma {:induction false} WalkAccepts(value: Json, path: string, depth: nat)
    requires Keyed(value)
    ensures Walked(value, path, depth).Ok? <==> depth + Height(value) <= MAX_DEPTH && AllLocal(value)
    ensures Walked(value, path, depth).Ok? ==> Collected(Walked(value, path, depth).value) == Refs(value)
    decreases value, 1
  {
    if depth <= MAX_DEPTH {
      match value
      case Arr(items) =>
        WalkItemsAccepts(items, path, depth, 0);
      case Obj(fields) =>
        WalkFieldsAccepts(fields, path, depth);
        FieldRefsAre(fields);
      case _ =>
    }
  }

  function ItemRefs(items: seq<Json>): set<string> {
    set i, r | 0 <= i < |items| && r in Refs(items[i]) :: r
  }

  function FieldRefs(fields: seq<Field>): set<string> {
    (set i, r | 0 <= i < |fields| && r in Refs(fields[i].value) :: r)
    + (set i, r | 0 <= i < |fields| && r in OwnRef(fields[i]) :: r)
  }

  function OwnRef(field: Field): set<string> {
    if field.key == REF && field.value.Str? then {field.value.text} else {}
  }

  lemma FieldRefsAre(fields: seq<Field>)
    requires UniqueKeys(fields)
    ensures Refs(Obj(fields)) == FieldRefs(fields)
  {
    forall i | 0 <= i < |fields| && fields[i].key == REF ensures Lookup(fields, REF) == Some(fields[i].value) {
      LookupAt(fields, i);
    }
    forall r | r in Refs(Obj(fields)) ensures r in FieldRefs(fields) {
      if r in RefOf(Obj(fields)) {
        var i :| 0 <= i < |fields| && fields[i] == Field(REF, Str(r));
        assert r in OwnRef(fields[i]);
      } else {
        var i :| 0 <= i < |fields| && r in Refs(fields[i].value);
      }
    }
  }

  lemma {:induction false} WalkItemsAccepts(items: seq<Json>, path: string, depth: nat, index: nat)
    requires depth <= MAX_DEPTH
    requires forall i :: 0 <= i < |items| ==> Keyed(items[i])
    ensures WalkedItems(items, path, depth, index).Ok? <==>
      depth + HighestItem(items) <= MAX_DEPTH && forall i :: 0 <= i < |items| ==> AllLocal(items[i])
    ensures WalkedItems(items, path, depth, index).Ok? ==>
      Collected(WalkedItems(items, path, depth, index).value) == ItemRefs(items)
    decreases items, 0
  {
    if |items| != 0 {
      var childPath := path + "/" + Decimal(index);
      WalkAccepts(items[0], childPath, depth + 1);
      WalkItemsAccepts(items[1..], path, depth, index + 1);
      assert items == [items[0]] + items[1..];
      var first, rest := Walked(items[0], childPath, depth + 1), WalkedItems(items[1..], path, depth, index + 1);
      if first.Ok? && rest.Ok? {
        CollectedConcat(first.value, rest.value);
        assert ItemRefs(items) == Refs(items[0]) + ItemRefs(items[1..]);
      }
    }
  }

  predicate FieldLocal(field: Field) {
    (field.key == REF ==> IsLocal(field.value)) && AllLocal(field.value)
  }

  lemma {:induction false} WalkFieldAccepts(field: Field, path: string, depth: nat)
    requires depth <= MAX_DEPTH && Keyed(field.value)
    ensures WalkedField(field, path, depth).Ok? <==> depth + 1 + Height(field.value) <= MAX_DEPTH && FieldLocal(field)
    ensures WalkedField(field, path, depth).Ok? ==>
      Collected(WalkedField(field, path, depth).value) == Refs(field.value) + OwnRef(field)
    decreases field, 2
  {
    var childPath := path + "/" + field.key;
    var inner := Walked(field.value, childPath, depth + 1);
    WalkAccepts(field.value, childPath, depth + 1);
    if inner.Ok? && field.key == REF && IsLocal(field.value) {
      var own := [Ref(field.value.text, childPath)];
      CollectedConcat(own, inner.value);
      assert own[0].reference in Collected(own);
    }
  }

  lemma {:induction false} WalkFieldsAccepts(fields: seq<Field>, path: string, depth: nat)
    requires depth <= MAX_DEPTH
    requires forall i :: 0 <= i < |fields| ==> Keyed(fields[i].value)
    ensures WalkedFields(fields, path, depth).Ok? <==>
      depth + HighestField(fields) <= MAX_DEPTH && forall i :: 0 <= i < |fields| ==> FieldLocal(fields[i])
    ensures WalkedFields(fields, path, depth).Ok? ==>
      Collected(WalkedFields(fields, path, depth).value) == FieldRefs(fields)
    decreases fields, 0
  {
    if |fields| != 0 {
      WalkFieldAccepts(fields[0], path, depth);
      WalkFieldsAccepts(fields[1..], path, depth);
      var first, rest := WalkedField(fields[0], path, depth), WalkedFields(fields[1..], path, depth);
      if first.Ok? && rest.Ok? {
        CollectedConcat(first.value, rest.value);
        FieldRefsSplit(fields);
      }
      assert forall i :: 0 < i < |fields| ==> fields[i] == fields[1..][i - 1];
    }
  }

  lemma FieldRefsSplit(fields: seq<Field>)
    requires |fields| > 0
    ensures FieldRefs(fields) == Refs(fields[0].value) + OwnRef(fields[0]) + FieldRefs(fields[1..])
  {
    assert fields == [fields[0]] + fields[1..];
  }

  // ---------- resolution on accepted documents ----------

  /** What the reference check of `parse_and_normalize_openapi` has established. */
  ghost predicate Accepted(document: Json) {
    && Keyed(document)
    && AllLocal(document)
    && forall r :: r in Refs(document) ==> Pointer(document, r).Some?
  }

  lemma {:induction false} NodeAllLocal(value: Json, tokens: seq<string>)
    requires DescendAll(value, tokens).Some? && AllLocal(value)
    ensures AllLocal(DescendAll(value, tokens).value)
  {
    if |tokens| != 0 {
      NodeAllLocal(Descend(value, tokens[0]).value, tokens[1..]);
    }
  }

  lemma {:induction false} SiblingsLookup(fields: seq<Field>, key: string)
    ensures Lookup(Siblings(fields), key) == if key == REF then None else Lookup(fields, key)
  {
    if |fields| != 0 {
      SiblingsLookup(fields[1..], key);
      var rest := Siblings(fields[1..]);
      if fields[0].key == REF {
        assert Siblings(fields) == rest;
      } else {
        assert Siblings(fields)[1..] == rest;
      }
    }
  }

  lemma {:induction false} SiblingsUnique(fields: seq<Field>)
    requires UniqueKeys(fields)
    ensures UniqueKeys(Siblings(fields))
    ensures forall f :: f in Siblings(fields) ==> f in fields
  {
    if |fields| != 0 {
      SiblingsUnique(fields[1..]);
      SiblingsLookup(fields[1..], fields[0].key);
      assert Lookup(fields[1..], fields[0].key).None? by {
        assert forall i :: 0 <= i < |fields[1..]| ==> fields[1..][i] == fields[i + 1];
      }
    }
  }

  lemma {:induction false} UpdateLookup(fields: seq<Field>, extra: seq<Field>, key: string)
    requires UniqueKeys(extra)
    ensures Lookup(Update(fields, extra), key) == if Has(extra, key) then Lookup(extra, key) else Lookup(fields, key)
    decreases extra
  {
    if |extra| != 0 {
      var put := Put(fields, extra[0].key, extra[0].value);
      UpdateLookup(put, extra[1..], key);
      LookupPut(fields, extra[0].key, extra[0].value, key);
      assert forall i :: 0 <= i < |extra[1..]| ==> extra[1..][i] == extra[i + 1];
    }
  }

  /** The values resolution passes through, from the value itself to where it stops. */
  function Chain(value: Json, document: Json, stack: set<string>): seq<Json>
    decreases |Refs(document) + RefOf(value) - stack|
  {
    if !MakesReference(value) || Reference(value) in stack || Pointer(document, Reference(value)).None? then [value]
    else
      var target := Pointer(document, Reference(value)).value;
      MeasureDrops(value, target, document, stack);
      [value] + Chain(target, document, stack + {Reference(value)})
  }

  /** A key's value in the first object of a chain that has it. */
  function Nearest(chain: seq<Json>, key: string): Option<Json> {
    if |chain| == 0 then None
    else if chain[0].Obj? && Has(chain[0].fields, key) then Lookup(chain[0].fields, key)
    else Nearest(chain[1..], key)
  }

  /** A value `_resolve` may start from: a node of the document, or one like it. */
  ghost predicate Sound(value: Json, document: Json) {
    Keyed(value) && AllLocal(value) && RefOf(value) <= Refs(document)
  }

  lemma {:induction false} TargetSound(document: Json, reference: string)
    requires Accepted(document) && reference in Refs(document)
    ensures Pointer(document, reference).Some? && Sound(Pointer(document, reference).value, document)
  {
    TargetRefs(document, reference);
    if reference != "#" {
      NodeAllLocal(document, Split(reference[2..]));
      NodeKeyed(document, Split(reference[2..]));
    }
  }

  lemma {:induction false} NodeKeyed(value: Json, tokens: seq<string>)
    requires DescendAll(value, tokens).Some? && Keyed(value)
    ensures Keyed(DescendAll(value, tokens).value)
  {
    if |tokens| != 0 {
      NodeKeyed(Descend(value, tokens[0]).value, tokens[1..]);
    }
  }

  /**
   A result faithful to the values passed through: found, an object without a top-level
   `$ref` whose other keys have their nearest definition, or else the last value itself.
   */
  ghost predicate Faithful(result: Option<Json>, chain: seq<Json>, key: string) {
    && result.Some?
    && |chain| > 0
    && match result.value
       case Obj(fields) =>
         && chain[|chain| - 1].Obj?
         && !Has(fields, REF)
         && (key != REF ==> Lookup(fields, key) == Nearest(chain, key))
       case other => other == chain[|chain| - 1]
  }

  /**
   On a document the check accepts, resolution never fails and its result is faithful to
   the references followed, whatever cycles they form and whatever stack it starts with.
   */
  lemma {:induction false} ResolveAccepted(value: Json, document: Json, stack: set<string>, key: string)
    requires Accepted(document) && Sound(value, document)
    ensures Faithful(Resolve(value, document, stack), Chain(value, document, stack), key)
    decreases |Refs(document) + RefOf(value) - stack|
  {
    if !MakesReference(value) {
      assert Chain(value, document, stack)[1..] == [];
    } else if Reference(value) in stack {
      SiblingsLookup(value.fields, key);
      SiblingsLookup(value.fields, REF);
      assert Chain(value, document, stack)[1..] == [];
    } else {
      var reference := Reference(value);
      TargetSound(document, reference);
      var target := Pointer(document, reference).value;
      MeasureDrops(value, target, document, stack);
      ResolveAccepted(target, document, stack + {reference}, key);
      ResolveUnfolds(value, target, document, stack);
      MergeFaithful(value, Resolve(target, document, stack + {reference}), Chain(target, document, stack + {reference}), key);
    }
  }

  /** Resolution and its chain, one reference further back. */
  lemma {:induction false} ResolveUnfolds(value: Json, target: Json, document: Json, stack: set<string>)
    requires MakesReference(value) && Reference(value) !in stack
    requires Pointer(document, Reference(value)) == Some(target)
    ensures Chain(value, document, stack) == [value] + Chain(target, document, stack + {Reference(value)})
    ensures Resolve(value, document, stack) == Merged(value.fields, Resolve(target, document, stack + {Reference(value)}))
  {
  }

  function Merged(fields: seq<Field>, resolved: Option<Json>): Option<Json> {
    match resolved
    case Some(Obj(base)) => Some(Obj(Update(base, Siblings(fields))))
    case other => other
  }

  lemma MergeFaithful(value: Json, resolved: Option<Json>, chain: seq<Json>, key: string)
    requires MakesReference(value) && UniqueKeys(value.fields) && Faithful(resolved, chain, key)
    ensures Faithful(Merged(value.fields, resolved), [value] + chain, key)
  {
    var longer := [value] + chain;
    assert longer[|longer| - 1] == chain[|chain| - 1] && longer[1..] == chain;
    if resolved.value.Obj? {
      MergedLookup(resolved.value.fields, value.fields, key);
      MergedLookup(resolved.value.fields, value.fields, REF);
    }
  }

  lemma {:induction false} MergedLookup(base: seq<Field>, fields: seq<Field>, key: string)
    requires UniqueKeys(fields)
    ensures Lookup(Update(base, Siblings(fields)), key) ==
      if key != REF && Has(fields, key) then Lookup(fields, key) else Lookup(base, key)
  {
    SiblingsUnique(fields);
    SiblingsLookup(fields, key);
    UpdateLookup(base, Siblings(fields), key);
  }

  // ---------- canonical form keeps every pointer ----------

  lemma {:induction false} DescendCanonical(value: Json, token: string)
    requires Keyed(value)
    ensures Descend(Canonical(value), token) ==
      match Descend(value, token) case Some(child) => Some(Canonical(child)) case None => None
  {
    match value
    case Obj(fields) =>
      var name, unsorted := Unescape(token), CanonicalFields(fields);
      assert UniqueKeys(unsorted);
      SortLookup(unsorted, name);
      if Has(fields, name) {
        var i :| 0 <= i < |fields| && fields[i] == Field(name, Lookup(fields, name).value);
        LookupAt(unsorted, i);
      }
    case Arr(items) =>
    case _ =>
  }

  lemma {:induction false} DescendAllCanonical(value: Json, tokens: seq<string>)
    requires Keyed(value)
    ensures DescendAll(Canonical(value), tokens) ==
      match DescendAll(value, tokens) case Some(node) => Some(Canonical(node)) case None => None
  {
    if |tokens| != 0 {
      DescendCanonical(value, tokens[0]);
      if Descend(value, tokens[0]).Some? {
        DescendAllCanonical(Descend(value, tokens[0]).value, tokens[1..]);
      }
    }
  }

  /** Putting a document in canonical form moves no node: every pointer finds the canonical form of what it found. */
  lemma {:induction false} PointerCanonical(document: Json, reference: string)
    requires Keyed(document)
    ensures Pointer(Canonical(document), reference) ==
      match Pointer(document, reference) case Some(node) => Some(Canonical(node)) case None => None
  {
    if reference != "#" && |reference| >= 2 {
      DescendAllCanonical(document, Split(reference[2..]));
    }
  }
}
