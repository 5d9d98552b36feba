/** Which documents yield a catalogue of operations, and exactly which operations. */
module CatalogueAnswers {
  import opened Prelude
  import opened Json
  import opened KeyOrder
  import opened RefResolution
  import opened OperationIdentity
  import opened OperationCatalogue

  const VERBS := ["get", "post", "put", "patch", "delete", "options", "head", "trace"]

  // ---------- names ----------

  lemma {:induction false} KeyNames(fields: seq<Field>, verb: string)
    ensures verb in KeysFor(fields, verb) <==> exists i :: 0 <= i < |fields| && Lower(fields[i].key) == verb
  {
    if |fields| != 0 {
      KeyNames(fields[1..], verb);
      var rest := KeysFor(fields[1..], verb);
      assert forall i :: 0 < i < |fields| ==> fields[i] == fields[1..][i - 1];
      if i :| 0 <= i < |fields[1..]| && Lower(fields[1..][i].key) == verb {
        assert Lower(fields[i + 1].key) == verb;
      }
      assert KeysFor(fields, verb) == (if Lower(fields[0].key) == verb then [verb] else []) + rest;
    }
  }

  lemma {:induction false} MethodNames(fields: seq<Field>, order: seq<string>, verb: string)
    ensures verb in MethodsOf(fields, order) <==>
      verb in order && exists i :: 0 <= i < |fields| && Lower(fields[i].key) == verb
  {
    if |order| != 0 {
      MethodNames(fields, order[1..], verb);
      KeyNames(fields, order[0]);
      KeysForAre(fields, order[0]);
      assert order == [order[0]] + order[1..];
    }
  }

  /** The methods of a path item are the eight HTTP methods some key of it spells, in any case. */
  lemma {:induction false} MethodsExact(fields: seq<Field>, verb: string)
    ensures verb in MethodsOf(fields, METHOD_ORDER) <==>
      verb in VERBS && exists i :: 0 <= i < |fields| && Lower(fields[i].key) == verb
  {
    MethodNames(fields, METHOD_ORDER, verb);
  }

  predicate Trimmed(text: string) {
    |text| > 0 && !IsSpace(text[0]) && !IsSpace(text[|text| - 1])
  }

  predicate Trims(text: string, before: string, middle: string, after: string) {
    text == before + middle + after && IsBlank(before) && IsBlank(after)
  }

  lemma TrimsMore(c: char, text: string, before: string, middle: string, after: string)
    requires IsSpace(c) && Trims(text, before, middle, after)
    ensures Trims([c] + text, [c] + before, middle, after)
    ensures Trims(text + [c], before, middle, after + [c])
  {
  }

  lemma {:induction false} StripTrims(text: string) returns (before: string, after: string)
    ensures Trims(text, before, Strip(text), after)
    ensures Strip(text) == "" || Trimmed(Strip(text))
  {
    before, after := "", "";
    if |text| > 0 && IsSpace(text[0]) {
      before, after := StripTrims(text[1..]);
      TrimsMore(text[0], text[1..], before, Strip(text[1..]), after);
      before := [text[0]] + before;
      assert text == [text[0]] + text[1..];
    } else if |text| > 0 && IsSpace(text[|text| - 1]) {
      var shorter := text[..|text| - 1];
      before, after := StripTrims(shorter);
      TrimsMore(text[|text| - 1], shorter, before, Strip(shorter), after);
      after := after + [text[|text| - 1]];
      assert text == shorter + [text[|text| - 1]];
    }
  }

  /** The id is what stands between the outer white space of a text, and there is one unless the text is blank. */
  lemma {:induction false} IdExact(fields: seq<Field>)
    ensures IdOf(fields).Some? <==>
      Lookup(fields, "operationId").Some? && Lookup(fields, "operationId").value.Str?
      && !IsBlank(Lookup(fields, "operationId").value.text)
    ensures IdOf(fields).Some? ==>
      Trimmed(IdOf(fields).value)
      && exists before, after :: IsBlank(before) && IsBlank(after)
           && Lookup(fields, "operationId") == Some(Str(before + IdOf(fields).value + after))
  {
    match Lookup(fields, "operationId")
    case Some(Str(text)) =>
      var before, after := StripTrims(text);
      if Strip(text) != "" {
        assert text[|before|] == Strip(text)[0];
      }
    case _ =>
  }

  // ---------- the operations in order ----------

  /** A method of a path item. */
  datatype Call = Call(path: string, item: seq<Field>, verb: string)

  function CallsOf(path: string, item: seq<Field>, verbs: seq<string>): seq<Call> {
    seq(|verbs|, i requires 0 <= i < |verbs| => Call(path, item, verbs[i]))
  }

  predicate IsItem(document: Json, field: Field) {
    && IsPath(field.key)
    && Resolve(field.value, document, {Seed(field.key)}).Some?
    && Resolve(field.value, document, {Seed(field.key)}).value.Obj?
  }

  /** The calls of the path items, path by path and in each by the order of the methods. */
  function Calls(document: Json, paths: seq<Field>): seq<Call> {
    if |paths| == 0 then []
    else
      (if IsItem(document, paths[0]) then
         var item := Resolve(paths[0].value, document, {Seed(paths[0].key)}).value.fields;
         CallsOf(paths[0].key, item, MethodsOf(item, VERBS))
       else [])
      + Calls(document, paths[1..])
  }

  /** The fields of the operation called. */
  function Called(document: Json, call: Call): Option<seq<Field>> {
    if Lookup(call.item, call.verb).None? then None
    else match Resolve(Lookup(call.item, call.verb).value, document, {}) case Some(Obj(fields)) => Some(fields) case _ => None
  }

  /** It is an object under the key in lower case, with an id and with texts for tags. */
  predicate Sound(document: Json, call: Call) {
    match Called(document, call)
    case None => false
    case Some(fields) =>
      && IdOf(fields).Some?
      && (Has(fields, "tags") ==>
            && Lookup(fields, "tags").value.Arr?
            && forall i :: 0 <= i < |Lookup(fields, "tags").value.items| ==> Lookup(fields, "tags").value.items[i].Str?)
  }

  function OperationOf(document: Json, call: Call): Operation
    requires Sound(document, call)
  {
    Operation(Route(Upper(call.verb), call.path), IdOf(Called(document, call).value).value)
  }

  ghost predicate AllSound(document: Json, calls: seq<Call>) {
    forall i :: 0 <= i < |calls| ==> Sound(document, calls[i])
  }

  function OperationsOf(document: Json, calls: seq<Call>): seq<Operation>
    requires AllSound(document, calls)
  {
    seq(|calls|, i requires 0 <= i < |calls| => OperationOf(document, calls[i]))
  }

  ghost predicate IdsDistinct(operations: seq<Operation>) {
    forall i, j :: 0 <= i < j < |operations| ==> operations[i].operationId != operations[j].operationId
  }

  /** Reading the calls one after the other. */
  function ReadCalls(document: Json, found: seq<Operation>, calls: seq<Call>): Outcome<seq<Operation>>
    decreases |calls|
  {
    if |calls| == 0 then Ok(found)
    else
      var next :- ReadOperation(document, found, calls[0].path, calls[0].item, calls[0].verb);
      ReadCalls(document, next, calls[1..])
  }

  lemma {:induction false} CallsJoin(document: Json, found: seq<Operation>, calls: seq<Call>, more: seq<Call>)
    ensures ReadCalls(document, found, calls + more) ==
      match ReadCalls(document, found, calls) case Ok(next) => ReadCalls(document, next, more) case Err(e) => Err(e)
    decreases |calls|
  {
    if |calls| == 0 {
      assert calls + more == more;
    } else {
      assert (calls + more)[1..] == calls[1..] + more;
      var next := ReadOperation(document, found, calls[0].path, calls[0].item, calls[0].verb);
      if next.Ok? {
        CallsJoin(document, next.value, calls[1..], more);
      }
    }
  }

  lemma {:induction false} MethodsAreCalls(document: Json, found: seq<Operation>, path: string, item: seq<Field>, verbs: seq<string>)
    ensures ReadMethods(document, found, path, item, verbs) == ReadCalls(document, found, CallsOf(path, item, verbs))
    decreases |verbs|
  {
    if |verbs| != 0 {
      assert CallsOf(path, item, verbs)[1..] == CallsOf(path, item, verbs[1..]);
      var next := ReadOperation(document, found, path, item, verbs[0]);
      if next.Ok? {
        MethodsAreCalls(document, next.value, path, item, verbs[1..]);
      }
    }
  }

  predicate Resolves(document: Json, field: Field) {
    IsPath(field.key) ==> Resolve(field.value, document, {Seed(field.key)}).Some?
  }

  lemma {:induction false} PathIsCalls(document: Json, found: seq<Operation>, field: Field)
    requires Resolves(document, field)
    ensures ReadPath(document, found, field) == ReadCalls(document, found, Calls(document, [field]))
  {
    assert [field][1..] == [];
    if IsItem(document, field) {
      var item := Resolve(field.value, document, {Seed(field.key)}).value.fields;
      MethodsAreCalls(document, found, field.key, item, MethodsOf(item, METHOD_ORDER));
      assert Calls(document, [field]) == CallsOf(field.key, item, MethodsOf(item, VERBS));
    }
  }

  /** Reading the paths is reading the calls, and fails when a path item does not resolve. */
  lemma {:induction false} PathsAreCalls(document: Json, found: seq<Operation>, paths: seq<Field>)
    ensures (forall i :: 0 <= i < |paths| ==> Resolves(document, paths[i])) ==>
      ReadPaths(document, found, paths) == ReadCalls(document, found, Calls(document, paths))
    ensures ReadPaths(document, found, paths).Ok? ==> forall i :: 0 <= i < |paths| ==> Resolves(document, paths[i])
    decreases |paths|
  {
    if |paths| != 0 && Resolves(document, paths[0]) {
      PathIsCalls(document, found, paths[0]);
      FirstCalls(document, paths);
      CallsJoin(document, found, Calls(document, [paths[0]]), Calls(document, paths[1..]));
      var next := ReadPath(document, found, paths[0]);
      if next.Ok? {
        PathsAreCalls(document, next.value, paths[1..]);
      }
      assert forall i :: 0 < i < |paths| ==> paths[i] == paths[1..][i - 1];
      assert (forall i :: 0 <= i < |paths| ==> Resolves(document, paths[i])) ==>
        forall i :: 0 <= i < |paths[1..]| ==> Resolves(document, paths[1..][i]);
    }
  }

  lemma {:induction false} FirstCalls(document: Json, paths: seq<Field>)
    requires |paths| > 0
    ensures Calls(document, paths) == Calls(document, [paths[0]]) + Calls(document, paths[1..])
  {
    assert [paths[0]][1..] == [];
  }

  // ---------- when the calls can be read ----------

  lemma OneCall(document: Json, found: seq<Operation>, call: Call)
    ensures var next := ReadOperation(document, found, call.path, call.item, call.verb);
      && (next.Ok? <==>
            Sound(document, call) && |found| < 500
            && forall i :: 0 <= i < |found| ==> found[i].operationId != OperationOf(document, call).operationId)
      && (next.Ok? ==> next.value == found + [OperationOf(document, call)])
  {
  }

  lemma {:induction false} CallsExact(document: Json, found: seq<Operation>, calls: seq<Call>)
    requires IdsDistinct(found) && |found| <= 500
    ensures ReadCalls(document, found, calls).Ok? <==>
      AllSound(document, calls) && IdsDistinct(found + OperationsOf(document, calls)) && |found| + |calls| <= 500
    ensures ReadCalls(document, found, calls).Ok? ==>
      ReadCalls(document, found, calls).value == found + OperationsOf(document, calls)
    decreases |calls|
  {
    if |calls| == 0 {
      assert found + OperationsOf(document, calls) == found;
    } else {
      OneCall(document, found, calls[0]);
      var next := ReadOperation(document, found, calls[0].path, calls[0].item, calls[0].verb);
      CallsSplit(document, found, calls);
      if next.Ok? {
        CallsExact(document, next.value, calls[1..]);
      }
    }
  }

  lemma SoundSplit(document: Json, calls: seq<Call>)
    requires |calls| > 0
    ensures AllSound(document, calls) <==> Sound(document, calls[0]) && AllSound(document, calls[1..])
  {
    assert calls == [calls[0]] + calls[1..];
  }

  lemma OperationsSplit(document: Json, calls: seq<Call>)
    requires |calls| > 0 && AllSound(document, calls) && AllSound(document, calls[1..])
    ensures OperationsOf(document, calls) == [OperationOf(document, calls[0])] + OperationsOf(document, calls[1..])
  {
  }

  lemma DistinctFromFound(found: seq<Operation>, operation: Operation, rest: seq<Operation>)
    requires IdsDistinct(found + ([operation] + rest))
    ensures forall i :: 0 <= i < |found| ==> found[i].operationId != operation.operationId
  {
    var all := found + ([operation] + rest);
    assert all[|found|] == operation;
    assert forall i :: 0 <= i < |found| ==> all[i] == found[i];
  }

  lemma CallsSplit(document: Json, found: seq<Operation>, calls: seq<Call>)
    requires |calls| > 0
    ensures AllSound(document, calls) <==> Sound(document, calls[0]) && AllSound(document, calls[1..])
    ensures AllSound(document, calls) ==>
      && found + OperationsOf(document, calls)
         == (found + [OperationOf(document, calls[0])]) + OperationsOf(document, calls[1..])
      && (IdsDistinct(found + OperationsOf(document, calls)) ==>
            forall i :: 0 <= i < |found| ==> found[i].operationId != OperationOf(document, calls[0]).operationId)
  {
    SoundSplit(document, calls);
    if AllSound(document, calls) {
      OperationsSplit(document, calls);
      if IdsDistinct(found + OperationsOf(document, calls)) {
        DistinctFromFound(found, OperationOf(document, calls[0]), OperationsOf(document, calls[1..]));
      }
    }
  }

  /**
   A document yields its operations exactly when every path item resolves, every method of
   them is an operation with an id and sound tags, no two share an id, and there are at most
   500; they then are all of these, in the order of the paths and of the methods.
   */
  lemma {:induction false} OperationsExact(fields: seq<Field>)
    ensures Operations(fields).Ok? ==> Lookup(fields, "paths").Some? && Lookup(fields, "paths").value.Obj?
    ensures Lookup(fields, "paths").Some? && Lookup(fields, "paths").value.Obj? ==>
      var document, paths := Obj(fields), SortFields(Lookup(fields, "paths").value.fields);
      var calls := Calls(document, paths);
      && (Operations(fields).Ok? <==>
            && (forall i :: 0 <= i < |paths| ==> Resolves(document, paths[i]))
            && AllSound(document, calls) && IdsDistinct(OperationsOf(document, calls)) && |calls| <= 500)
      && (Operations(fields).Ok? ==> Operations(fields).value == OperationsOf(document, calls))
  {
    match Lookup(fields, "paths")
    case Some(Obj(items)) =>
      var document, paths := Obj(fields), SortFields(items);
      var calls := Calls(document, paths);
      PathsAreCalls(document, [], paths);
      CallsExact(document, [], calls);
      if AllSound(document, calls) {
        assert [] + OperationsOf(document, calls) == OperationsOf(document, calls);
      }
    case _ =>
  }
}
