/**
 Reading the operations of a normalised document: `_operations`.  A document it accepts
 yields each route and each operation id once, which is what revisions are compared by.
 */
module OperationCatalogue {
  import opened Prelude
  import opened Json
  import opened KeyOrder
  import opened JsonPointer
  import opened RefResolution
  import opened OperationIdentity

  const METHOD_ORDER := ["get", "post", "put", "patch", "delete", "options", "head", "trace"]
  const MAX_OPERATIONS := 500

  datatype Refusal =
    | InvalidPaths
    | UnresolvedReference
    | MissingKey(path: string, verb: string)
    | InvalidOperation(path: string, verb: string)
    | MissingId(path: string, verb: string)
    | DuplicateId(path: string, verb: string)
    | InvalidTags(path: string, verb: string)
    | TooMany

  type Outcome<T> = Result<T, Refusal>

  // ---------- strings ----------

  function StripSlashes(text: string): string {
    if |text| > 0 && text[0] == '/' then StripSlashes(text[1..]) else text
  }

  /** The reference put on the stack before a path item is resolved. */
  function Seed(path: string): string {
    "#/paths/" + Escape(StripSlashes(path))
  }

  // ---------- reading operations ----------

  /** The keys that name the method once lower-cased, as that method, once each. */
  function KeysFor(fields: seq<Field>, verb: string): seq<string> {
    if |fields| == 0 then []
    else (if Lower(fields[0].key) == verb then [verb] else []) + KeysFor(fields[1..], verb)
  }

  /** The methods of a path item in the order of `METHOD_RANK`. */
  function MethodsOf(fields: seq<Field>, order: seq<string>): seq<string> {
    if |order| == 0 then [] else KeysFor(fields, order[0]) + MethodsOf(fields, order[1..])
  }

  /** The stripped `operationId` of an operation, if it has one that is not blank. */
  function IdOf(fields: seq<Field>): Option<string> {
    match Lookup(fields, "operationId")
    case Some(Str(text)) => if Strip(text) == "" then None else Some(Strip(text))
    case _ => None
  }

  predicate TagsValid(fields: seq<Field>) {
    match Lookup(fields, "tags")
    case None => true
    case Some(Arr(items)) => forall i :: 0 <= i < |items| ==> items[i].Str?
    case _ => false
  }

  predicate IdSeen(found: seq<Operation>, id: string) {
    exists i :: 0 <= i < |found| && found[i].operationId == id
  }

  /** One turn of the inner loop. */
  function ReadOperation(document: Json, found: seq<Operation>, path: string, item: seq<Field>, verb: string)
    : Outcome<seq<Operation>>
  {
    match Lookup(item, verb)
    case None => Err(MissingKey(path, verb))
    case Some(value) =>
      match Resolve(value, document, {})
      case None => Err(UnresolvedReference)
      case Some(Obj(fields)) =>
        (match IdOf(fields)
         case None => Err(MissingId(path, verb))
         case Some(id) =>
           if IdSeen(found, id) then Err(DuplicateId(path, verb))
           else if !TagsValid(fields) then Err(InvalidTags(path, verb))
           else if |found| + 1 > MAX_OPERATIONS then Err(TooMany)
           else Ok(found + [Operation(Route(Upper(verb), path), id)]))
      case Some(_) => Err(InvalidOperation(path, verb))
  }

  function ReadMethods(document: Json, found: seq<Operation>, path: string, item: seq<Field>, methods: seq<string>)
    : Outcome<seq<Operation>>
    decreases |methods|
  {
    if |methods| == 0 then Ok(found)
    else
      var next :- ReadOperation(document, found, path, item, methods[0]);
      ReadMethods(document, next, path, item, methods[1..])
  }

  predicate IsPath(key: string) {
    |key| > 0 && key[0] == '/'
  }

  /** One turn of the outer loop. */
  function ReadPath(document: Json, found: seq<Operation>, field: Field): Outcome<seq<Operation>> {
    if !IsPath(field.key) then Ok(found)
    else
      match Resolve(field.value, document, {Seed(field.key)})
      case None => Err(UnresolvedReference)
      case Some(Obj(item)) => ReadMethods(document, found, field.key, item, MethodsOf(item, METHOD_ORDER))
      case Some(_) => Ok(found)
  }

  function ReadPaths(document: Json, found: seq<Operation>, paths: seq<Field>): Outcome<seq<Operation>>
    decreases |paths|
  {
    if |paths| == 0 then Ok(found)
    else
      var next :- ReadPath(document, found, paths[0]);
      ReadPaths(document, next, paths[1..])
  }

  /** `_operations`. */
  function Operations(fields: seq<Field>): Outcome<seq<Operation>> {
    match Lookup(fields, "paths")
    case Some(Obj(paths)) => ReadPaths(Obj(fields), [], SortFields(paths))
    case _ => Err(InvalidPaths)
  }

  /** The inner loop, over the methods of one path item. */
  method CollectItem(document: Json, before: seq<Operation>, path: string, item: seq<Field>)
    returns (outcome: Outcome<seq<Operation>>)
    ensures outcome == ReadMethods(document, before, path, item, MethodsOf(item, METHOD_ORDER))
  {
    var methods := MethodsOf(item, METHOD_ORDER);
    var found := before;
    for m := 0 to |methods|
      invariant ReadMethods(document, before, path, item, methods) == ReadMethods(document, found, path, item, methods[m..])
    {
      assert methods[m..][1..] == methods[m + 1..];
      var one := ReadOperation(document, found, path, item, methods[m]);
      if one.Err? {
        return Err(one.error);
      }
      found := one.value;
    }
    return Ok(found);
  }

  method CollectOperations(fields: seq<Field>) returns (outcome: Outcome<seq<Operation>>)
    ensures outcome == Operations(fields)
  {
    var document := Obj(fields);
    var lookup := Lookup(fields, "paths");
    if lookup.None? || !lookup.value.Obj? {
      return Err(InvalidPaths);
    }
    var paths := SortFields(lookup.value.fields);
    var found: seq<Operation> := [];
    for p := 0 to |paths|
      invariant ReadPaths(document, [], paths) == ReadPaths(document, found, paths[p..])
    {
      assert paths[p..][1..] == paths[p + 1..];
      var path := paths[p].key;
      if IsPath(path) {
        var resolved := Resolve(paths[p].value, document, {Seed(path)});
        if resolved.None? {
          return Err(UnresolvedReference);
        }
        if resolved.value.Obj? {
          var more := CollectItem(document, found, path, resolved.value.fields);
          if more.Err? {
            return more;
          }
          found := more.value;
        }
      }
    }
    return Ok(found);
  }

  // ---------- what an accepted document yields ----------

  /** The id found at a path and method of the document. */
  function IdAt(document: Json, paths: seq<Field>, path: string, verb: string): Option<string> {
    match Lookup(paths, path)
    case None => None
    case Some(value) =>
      match Resolve(value, document, {Seed(path)})
      case Some(Obj(item)) =>
        (match Lookup(item, verb)
         case None => None
         case Some(operation) =>
           match Resolve(operation, document, {})
           case Some(Obj(fields)) => IdOf(fields)
           case _ => None)
      case _ => None
  }

  /** The operation stands in the document where its route says. */
  ghost predicate Stands(document: Json, paths: seq<Field>, o: Operation) {
    exists verb :: verb in METHOD_ORDER && o.route.verb == Upper(verb)
      && IdAt(document, paths, o.route.path, verb) == Some(o.operationId)
  }

  ghost predicate Listed(document: Json, paths: seq<Field>, found: seq<Operation>) {
    && (forall i :: 0 <= i < |found| ==> Stands(document, paths, found[i]))
    && (forall i, j :: 0 <= i < j < |found| ==> found[i].operationId != found[j].operationId)
    && |found| <= MAX_OPERATIONS
  }

  lemma {:induction false} KeysForAre(fields: seq<Field>, verb: string)
    ensures forall k :: 0 <= k < |KeysFor(fields, verb)| ==> KeysFor(fields, verb)[k] == verb
  {
    if |fields| != 0 {
      KeysForAre(fields[1..], verb);
    }
  }

  lemma {:induction false} MethodsAre(fields: seq<Field>, order: seq<string>, k: nat)
    requires k < |MethodsOf(fields, order)|
    ensures MethodsOf(fields, order)[k] in order
  {
    KeysForAre(fields, order[0]);
    var first := KeysFor(fields, order[0]);
    if k < |first| {
      assert MethodsOf(fields, order)[k] == order[0];
    } else {
      MethodsAre(fields, order[1..], k - |first|);
      assert MethodsOf(fields, order)[k] == MethodsOf(fields, order[1..])[k - |first|];
    }
  }

  lemma {:induction false} OneListed(document: Json, paths: seq<Field>, found: seq<Operation>, path: string, item: seq<Field>, verb: string)
    requires Listed(document, paths, found) && verb in METHOD_ORDER
    requires Lookup(paths, path).Some? && Resolve(Lookup(paths, path).value, document, {Seed(path)}) == Some(Obj(item))
    requires ReadOperation(document, found, path, item, verb).Ok?
    ensures Listed(document, paths, ReadOperation(document, found, path, item, verb).value)
    ensures found <= ReadOperation(document, found, path, item, verb).value
  {
    var next := ReadOperation(document, found, path, item, verb).value;
    var o := next[|found|];
    assert IdAt(document, paths, path, verb) == Some(o.operationId);
    assert Stands(document, paths, o);
    forall i | 0 <= i < |next| ensures Stands(document, paths, next[i]) {
      if i < |found| {
        assert next[i] == found[i];
      }
    }
  }

  lemma {:induction false} MethodsListed(document: Json, paths: seq<Field>, found: seq<Operation>, path: string, item: seq<Field>, methods: seq<string>)
    requires Listed(document, paths, found) && forall k :: 0 <= k < |methods| ==> methods[k] in METHOD_ORDER
    requires Lookup(paths, path).Some? && Resolve(Lookup(paths, path).value, document, {Seed(path)}) == Some(Obj(item))
    requires ReadMethods(document, found, path, item, methods).Ok?
    ensures Listed(document, paths, ReadMethods(document, found, path, item, methods).value)
    decreases |methods|
  {
    if |methods| != 0 {
      OneListed(document, paths, found, path, item, methods[0]);
      MethodsListed(document, paths, ReadOperation(document, found, path, item, methods[0]).value, path, item, methods[1..]);
    }
  }

  lemma {:induction false} PathListed(document: Json, paths: seq<Field>, found: seq<Operation>, field: Field)
    requires Listed(document, paths, found) && Lookup(paths, field.key) == Some(field.value)
    requires ReadPath(document, found, field).Ok?
    ensures Listed(document, paths, ReadPath(document, found, field).value)
  {
    if IsPath(field.key) {
      match Resolve(field.value, document, {Seed(field.key)})
      case Some(Obj(item)) =>
        var methods := MethodsOf(item, METHOD_ORDER);
        forall k | 0 <= k < |methods| ensures methods[k] in METHOD_ORDER {
          MethodsAre(item, METHOD_ORDER, k);
        }
        MethodsListed(document, paths, found, field.key, item, methods);
      case _ =>
    }
  }

  lemma {:induction false} PathsListed(document: Json, paths: seq<Field>, found: seq<Operation>, rest: seq<Field>)
    requires Listed(document, paths, found)
    requires forall k :: 0 <= k < |rest| ==> Lookup(paths, rest[k].key) == Some(rest[k].value)
    requires ReadPaths(document, found, rest).Ok?
    ensures Listed(document, paths, ReadPaths(document, found, rest).value)
    decreases |rest|
  {
    if |rest| != 0 {
      PathListed(document, paths, found, rest[0]);
      PathsListed(document, paths, ReadPath(document, found, rest[0]).value, rest[1..]);
    }
  }

  lemma UpperTwice(text: string)
    ensures Upper(Upper(text)) == Upper(text)
  {
  }

  /** The methods are written in lower case, so their upper-case forms differ as they do. */
  lemma UpperDistinct(a: string, b: string)
    requires a in METHOD_ORDER && b in METHOD_ORDER && Upper(a) == Upper(b)
    ensures a == b
  {
    LowerOfUpper(a);
    LowerOfUpper(b);
  }

  lemma LowerOfUpper(verb: string)
    requires verb in METHOD_ORDER
    ensures Lower(Upper(verb)) == verb
  {
    assert forall i :: 0 <= i < |verb| ==> 'a' <= verb[i] <= 'z';
  }

  lemma ListedIsCatalogue(document: Json, paths: seq<Field>, found: seq<Operation>)
    requires Listed(document, paths, found)
    ensures Catalogue(found)
  {
    forall i | 0 <= i < |found| ensures OldRoute(found[i]) == found[i].route {
      assert Stands(document, paths, found[i]);
      var verb :| verb in METHOD_ORDER && found[i].route.verb == Upper(verb);
      UpperTwice(verb);
    }
    forall i, j | 0 <= i < j < |found| ensures found[i].route != found[j].route {
      if found[i].route == found[j].route {
        SameRouteSameId(document, paths, found[i], found[j]);
        assert false;
      }
    }
  }

  lemma SameRouteSameId(document: Json, paths: seq<Field>, a: Operation, b: Operation)
    requires Stands(document, paths, a) && Stands(document, paths, b) && a.route == b.route
    ensures a.operationId == b.operationId
  {
    var v :| v in METHOD_ORDER && a.route.verb == Upper(v) && IdAt(document, paths, a.route.path, v) == Some(a.operationId);
    var w :| w in METHOD_ORDER && b.route.verb == Upper(w) && IdAt(document, paths, b.route.path, w) == Some(b.operationId);
    UpperDistinct(v, w);
  }

  /**
   The operations of an accepted document: each route and each id once, each standing in
   the document where its route says, at most 500.
   */
  lemma {:induction false} OperationsAreCatalogue(fields: seq<Field>)
    requires Keyed(Obj(fields)) && Operations(fields).Ok?
    ensures Catalogue(Operations(fields).value)
    ensures |Operations(fields).value| <= MAX_OPERATIONS
    ensures forall o :: o in Operations(fields).value ==>
      Lookup(fields, "paths").Some? && Lookup(fields, "paths").value.Obj?
      && Stands(Obj(fields), Lookup(fields, "paths").value.fields, o)
  {
    var paths := Lookup(fields, "paths").value.fields;
    var sorted := SortFields(paths);
    var i :| 0 <= i < |fields| && fields[i] == Field("paths", Obj(paths));
    assert Keyed(fields[i].value);
    SortUnique(paths);
    forall k | 0 <= k < |sorted| ensures Lookup(paths, sorted[k].key) == Some(sorted[k].value) {
      LookupAt(sorted, k);
      SortLookup(paths, sorted[k].key);
    }
    PathsListed(Obj(fields), paths, [], sorted);
    ListedIsCatalogue(Obj(fields), paths, Operations(fields).value);
  }

  // ---------- nothing is left out ----------

  lemma HasRouteKept(found: seq<Operation>, more: seq<Operation>, route: Route)
    requires found <= more && HasRoute(found, route)
    ensures HasRoute(more, route)
  {
    var o :| o in found && o.route == route;
    assert o in more;
  }

  lemma {:induction false} MethodsGrow(document: Json, found: seq<Operation>, path: string, item: seq<Field>, methods: seq<string>)
    requires ReadMethods(document, found, path, item, methods).Ok?
    ensures found <= ReadMethods(document, found, path, item, methods).value
    ensures forall k :: 0 <= k < |methods| ==>
      HasRoute(ReadMethods(document, found, path, item, methods).value, Route(Upper(methods[k]), path))
    decreases |methods|
  {
    if |methods| != 0 {
      var next := ReadOperation(document, found, path, item, methods[0]).value;
      var all := ReadMethods(document, found, path, item, methods).value;
      MethodsGrow(document, next, path, item, methods[1..]);
      assert next[|found|].route == Route(Upper(methods[0]), path);
      HasRouteKept(next, all, Route(Upper(methods[0]), path));
      forall k | 0 < k < |methods| ensures HasRoute(all, Route(Upper(methods[k]), path)) {
        assert methods[k] == methods[1..][k - 1];
      }
    }
  }

  lemma PathGrows(document: Json, found: seq<Operation>, field: Field)
    requires ReadPath(document, found, field).Ok?
    ensures found <= ReadPath(document, found, field).value
  {
    if IsPath(field.key) {
      match Resolve(field.value, document, {Seed(field.key)})
      case Some(Obj(item)) => MethodsGrow(document, found, field.key, item, MethodsOf(item, METHOD_ORDER));
      case _ =>
    }
  }

  lemma {:induction false} PathsGrow(document: Json, found: seq<Operation>, rest: seq<Field>)
    requires ReadPaths(document, found, rest).Ok?
    ensures found <= ReadPaths(document, found, rest).value
    decreases |rest|
  {
    if |rest| != 0 {
      PathGrows(document, found, rest[0]);
      PathsGrow(document, ReadPath(document, found, rest[0]).value, rest[1..]);
    }
  }

  lemma {:induction false} KeyPresent(fields: seq<Field>, verb: string)
    requires Lookup(fields, verb).Some? && Lower(verb) == verb
    ensures verb in KeysFor(fields, verb)
  {
    if fields[0].key != verb {
      KeyPresent(fields[1..], verb);
    } else {
      assert KeysFor(fields, verb)[0] == verb;
    }
  }

  lemma {:induction false} MethodPresent(fields: seq<Field>, order: seq<string>, verb: string)
    requires verb in order && Lookup(fields, verb).Some? && Lower(verb) == verb
    ensures verb in MethodsOf(fields, order)
  {
    if order[0] == verb {
      KeyPresent(fields, verb);
    } else {
      MethodPresent(fields, order[1..], verb);
    }
  }

  lemma {:induction false} PathReads(document: Json, found: seq<Operation>, field: Field, item: seq<Field>, verb: string)
    requires IsPath(field.key) && Resolve(field.value, document, {Seed(field.key)}) == Some(Obj(item))
    requires verb in METHOD_ORDER && Lookup(item, verb).Some? && ReadPath(document, found, field).Ok?
    ensures HasRoute(ReadPath(document, found, field).value, Route(Upper(verb), field.key))
  {
    var methods := MethodsOf(item, METHOD_ORDER);
    LowerCase(verb);
    MethodPresent(item, METHOD_ORDER, verb);
    var k :| 0 <= k < |methods| && methods[k] == verb;
    MethodsGrow(document, found, field.key, item, methods);
  }

  lemma LowerCase(verb: string)
    requires verb in METHOD_ORDER
    ensures Lower(verb) == verb
  {
    assert forall i :: 0 <= i < |verb| ==> 'a' <= verb[i] <= 'z';
  }

  lemma {:induction false} PathsRead(document: Json, found: seq<Operation>, rest: seq<Field>, k: nat, item: seq<Field>, verb: string)
    requires k < |rest| && IsPath(rest[k].key) && Resolve(rest[k].value, document, {Seed(rest[k].key)}) == Some(Obj(item))
    requires verb in METHOD_ORDER && Lookup(item, verb).Some? && ReadPaths(document, found, rest).Ok?
    ensures HasRoute(ReadPaths(document, found, rest).value, Route(Upper(verb), rest[k].key))
    decreases |rest|
  {
    var next := ReadPath(document, found, rest[0]).value;
    if k == 0 {
      PathReads(document, found, rest[0], item, verb);
      PathsGrow(document, next, rest[1..]);
      HasRouteKept(next, ReadPaths(document, found, rest).value, Route(Upper(verb), rest[0].key));
    } else {
      PathsRead(document, next, rest[1..], k - 1, item, verb);
    }
  }

  /** Every method of every path item of an accepted document is among its operations. */
  lemma {:induction false} OperationsComplete(fields: seq<Field>, paths: seq<Field>, path: string, item: seq<Field>, verb: string)
    requires Keyed(Obj(fields)) && Lookup(fields, "paths") == Some(Obj(paths)) && Operations(fields).Ok?
    requires IsPath(path) && Lookup(paths, path).Some?
    requires Resolve(Lookup(paths, path).value, Obj(fields), {Seed(path)}) == Some(Obj(item))
    requires verb in METHOD_ORDER && Lookup(item, verb).Some?
    ensures HasRoute(Operations(fields).value, Route(Upper(verb), path))
  {
    var sorted := SortFields(paths);
    var i :| 0 <= i < |fields| && fields[i] == Field("paths", Obj(paths));
    assert Keyed(fields[i].value);
    SortLookup(paths, path);
    var k :| 0 <= k < |sorted| && sorted[k] == Field(path, Lookup(sorted, path).value);
    PathsRead(Obj(fields), [], sorted, k, item, verb);
  }
}
