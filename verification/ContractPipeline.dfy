/**
 From an uploaded document to the stored one: the walk, the check that every reference
 resolves, the translation and the canonical form (`parse_and_normalize_openapi`), and what
 happens when its output is uploaded again.
 */
module ContractPipeline {
  import opened Prelude
  import opened Json
  import opened KeyOrder
  import opened SchemaNormaliser
  import opened CanonicalForm
  import opened SchemaMeaning
  import opened MeaningPreservation
  import opened JsonPointer
  import opened RefResolution
  import opened DocumentImage
  import opened MovedReferences
  import opened TranslatedDepth
  import opened TranslationRefusals
  import opened TranslatedRefs
  import OperationCatalogue
  import OperationIdentity

  datatype Failure =
    | NotWalked(rejection: Rejection)
    | UnresolvedRef(reference: string, path: string)
    | InvalidVersion
    | NotTranslated(refusal: Refusal)

  /** The first collected reference that leads nowhere. */
  function FirstUnresolved(document: Json, refs: seq<Ref>): Option<Ref> {
    if |refs| == 0 then None
    else if Pointer(document, refs[0].reference).None? then Some(refs[0])
    else FirstUnresolved(document, refs[1..])
  }

  function Parsed(fields: seq<Field>): Result<Json, Failure> {
    match Walked(Obj(fields), "", 0)
    case Err(rejection) => Err(NotWalked(rejection))
    case Ok(refs) =>
      match FirstUnresolved(Obj(fields), refs)
      case Some(ref) => Err(UnresolvedRef(ref.reference, ref.path))
      case None =>
        if Lookup(fields, VERSION_KEY).None? || !Lookup(fields, VERSION_KEY).value.Str? then Err(InvalidVersion)
        else match Normalized(fields) case Ok(document) => Ok(document) case Err(refusal) => Err(NotTranslated(refusal))
  }

  method Parse(fields: seq<Field>) returns (result: Result<Json, Failure>)
    ensures result == Parsed(fields)
  {
    var walked := Walk(Obj(fields), "", 0, []);
    assert After([], Walked(Obj(fields), "", 0)) == Walked(Obj(fields), "", 0) by {
      if Walked(Obj(fields), "", 0).Ok? {
        assert [] + Walked(Obj(fields), "", 0).value == Walked(Obj(fields), "", 0).value;
      }
    }
    if walked.Err? {
      return Err(NotWalked(walked.error));
    }
    var refs := walked.value;
    for i := 0 to |refs|
      invariant FirstUnresolved(Obj(fields), refs) == FirstUnresolved(Obj(fields), refs[i..])
    {
      assert refs[i..][1..] == refs[i + 1..];
      var target := EvaluatePointer(Obj(fields), refs[i].reference);
      if target.None? {
        return Err(UnresolvedRef(refs[i].reference, refs[i].path));
      }
    }
    var version := Lookup(fields, VERSION_KEY);
    if version.None? || !version.value.Str? {
      return Err(InvalidVersion);
    }
    var normalized := Normalized(fields);
    return match normalized case Ok(document) => Ok(document) case Err(refusal) => Err(NotTranslated(refusal));
  }

  // ---------- what the checks before the translation accept ----------

  lemma {:induction false} AllResolve(document: Json, refs: seq<Ref>)
    ensures FirstUnresolved(document, refs).None? <==> forall r :: r in Collected(refs) ==> Pointer(document, r).Some?
  {
    if |refs| != 0 {
      AllResolve(document, refs[1..]);
      CollectedConcat([refs[0]], refs[1..]);
      assert [refs[0]] + refs[1..] == refs;
      assert [refs[0]][0].reference in Collected([refs[0]]);
      assert Collected([refs[0]]) == {refs[0].reference};
    }
  }

  predicate HasVersion(fields: seq<Field>) {
    Lookup(fields, VERSION_KEY).Some? && Lookup(fields, VERSION_KEY).value.Str?
  }

  /**
   A document is accepted exactly when it is shallow enough, its references resolve, it has
   a version, and no schema in it stands in the way of the translation; when only the
   translation refuses it, the refusal names the first such schema.
   */
  lemma ParsedExact(fields: seq<Field>)
    requires Keyed(Obj(fields))
    ensures var passes := Height(Obj(fields)) <= MAX_DEPTH && Accepted(Obj(fields));
      && (Parsed(fields).Ok? <==> passes && HasVersion(fields) && Translatable(DocumentSites(fields)))
      && (passes && !HasVersion(fields) ==> Parsed(fields) == Err(InvalidVersion))
      && (passes && HasVersion(fields) && Parsed(fields).Err? ==>
            Parsed(fields).error.NotTranslated? && FirstRefusal(DocumentSites(fields), Parsed(fields).error.refusal))
    ensures Parsed(fields).Ok? ==> Normalized(fields) == Ok(Parsed(fields).value)
  {
    WalkAccepts(Obj(fields), "", 0);
    if Walked(Obj(fields), "", 0).Ok? {
      AllResolve(Obj(fields), Walked(Obj(fields), "", 0).value);
    }
    DocumentRefusedExact(fields);
  }

  /** With local references only, the walk has nothing to object to but depth. */
  lemma {:induction false} WalkRejects(value: Json, path: string, depth: nat)
    requires AllLocal(value) && Walked(value, path, depth).Err?
    ensures Walked(value, path, depth).error.TooDeep?
    decreases value, 1
  {
    if depth <= MAX_DEPTH {
      match value
      case Obj(fields) => WalkFieldsReject(fields, path, depth);
      case Arr(items) => WalkItemsReject(items, path, depth, 0);
    }
  }

  lemma {:induction false} WalkFieldsReject(fields: seq<Field>, path: string, depth: nat)
    requires forall i :: 0 <= i < |fields| ==> FieldLocal(fields[i])
    requires WalkedFields(fields, path, depth).Err?
    ensures WalkedFields(fields, path, depth).error.TooDeep?
    decreases fields, 0
  {
    if WalkedField(fields[0], path, depth).Err? {
      WalkRejects(fields[0].value, path + "/" + fields[0].key, depth + 1);
    } else {
      WalkFieldsReject(fields[1..], path, depth);
    }
  }

  lemma {:induction false} WalkItemsReject(items: seq<Json>, path: string, depth: nat, index: nat)
    requires forall i :: 0 <= i < |items| ==> AllLocal(items[i])
    requires WalkedItems(items, path, depth, index).Err?
    ensures WalkedItems(items, path, depth, index).error.TooDeep?
    decreases items, 0
  {
    if Walked(items[0], path + "/" + Decimal(index), depth + 1).Err? {
      WalkRejects(items[0], path + "/" + Decimal(index), depth + 1);
    } else {
      WalkItemsReject(items[1..], path, depth, index + 1);
    }
  }

  /** Why a document with local references is refused by the checks before the translation. */
  lemma ParsedRefuses(fields: seq<Field>)
    requires Keyed(Obj(fields)) && AllLocal(Obj(fields))
    ensures Height(Obj(fields)) > MAX_DEPTH ==>
      Parsed(fields).Err? && Parsed(fields).error.NotWalked? && Parsed(fields).error.rejection.TooDeep?
    ensures Height(Obj(fields)) <= MAX_DEPTH && !Accepted(Obj(fields)) ==>
      Parsed(fields).Err? && Parsed(fields).error.UnresolvedRef?
  {
    WalkAccepts(Obj(fields), "", 0);
    if Walked(Obj(fields), "", 0).Ok? {
      AllResolve(Obj(fields), Walked(Obj(fields), "", 0).value);
    } else {
      WalkRejects(Obj(fields), "", 0);
    }
  }

  // ---------- canonical form keeps depth and references ----------

  lemma {:induction false} CanonicalHeight(value: Json)
    requires Keyed(value)
    ensures Height(Canonical(value)) == Height(value)
    decreases Height(value) + Height(Canonical(value))
  {
    var canonical := Canonical(value);
    CanonicalKeyed(value);
    if Height(value) > 0 {
      var token := HighestChild(value);
      DescendCanonical(value, token);
      ChildIsLower(canonical, token);
      KeyedChild(value, token);
      CanonicalHeight(Descend(value, token).value);
    }
    if Height(canonical) > 0 {
      var token := HighestChild(canonical);
      DescendCanonical(value, token);
      ChildIsLower(value, token);
      KeyedChild(value, token);
      CanonicalHeight(Descend(value, token).value);
    }
  }

  lemma {:induction false} KeyedChild(value: Json, token: string)
    requires Keyed(value) && Descend(value, token).Some?
    ensures Keyed(Descend(value, token).value)
  {
    NodeKeyed(value, [token]);
    assert DescendAll(value, [token]) == Descend(value, token);
  }

  lemma {:induction false} ChildRefsBelow(value: Json, token: string)
    requires Descend(value, token).Some?
    ensures Refs(Descend(value, token).value) <= Refs(value)
  {
    NodeRefs(value, [token]);
    assert DescendAll(value, [token]) == Descend(value, token);
  }

  lemma {:induction false} CanonicalOwnRef(value: Json)
    requires Keyed(value)
    ensures RefOf(Canonical(value)) == RefOf(value)
  {
    if value.Obj? {
      CanonicalLookup(value.fields, REF);
    }
  }

  lemma {:induction false} CanonicalRefs(value: Json, r: string)
    requires Keyed(value)
    ensures r in Refs(Canonical(value)) <==> r in Refs(value)
    decreases Height(value)
  {
    var canonical := Canonical(value);
    CanonicalKeyed(value);
    CanonicalOwnRef(value);
    if r !in RefOf(value) {
      if r in Refs(value) {
        var token := RefsReached(value, r);
        DescendCanonical(value, token);
        ChildIsLower(value, token);
        KeyedChild(value, token);
        CanonicalRefs(Descend(value, token).value, r);
        ChildRefsBelow(canonical, token);
      }
      if r in Refs(canonical) {
        var token := RefsReached(canonical, r);
        DescendCanonical(value, token);
        ChildIsLower(value, token);
        KeyedChild(value, token);
        CanonicalRefs(Descend(value, token).value, r);
        ChildRefsBelow(value, token);
      }
    }
  }

  lemma {:induction false} ChildLocalBelow(value: Json, token: string)
    requires AllLocal(value) && Descend(value, token).Some?
    ensures AllLocal(Descend(value, token).value)
  {
    NodeAllLocal(value, [token]);
    assert DescendAll(value, [token]) == Descend(value, token);
  }

  lemma {:induction false} CanonicalLocal(value: Json)
    requires Keyed(value)
    ensures AllLocal(Canonical(value)) <==> AllLocal(value)
    decreases Height(value)
  {
    var canonical := Canonical(value);
    CanonicalKeyed(value);
    if value.Obj? {
      CanonicalLookup(value.fields, REF);
    }
    forall token | Descend(value, token).Some?
      ensures Descend(canonical, token).Some?
      ensures AllLocal(Descend(canonical, token).value) <==> AllLocal(Descend(value, token).value)
    {
      DescendCanonical(value, token);
      ChildIsLower(value, token);
      KeyedChild(value, token);
      CanonicalLocal(Descend(value, token).value);
    }
    forall token | Descend(canonical, token).Some? ensures Descend(value, token).Some? {
      DescendCanonical(value, token);
    }
    if AllLocal(value) {
      LocalCopied(value, canonical);
    }
    if AllLocal(canonical) {
      LocalCopied(canonical, value);
    }
  }

  /** Local references, from one value to another with the same steps. */
  lemma {:induction false} LocalCopied(value: Json, other: Json)
    requires AllLocal(value) && Keyed(other) && value.Obj? == other.Obj?
    requires forall token :: Descend(other, token).Some? ==>
      Descend(value, token).Some? && (AllLocal(Descend(value, token).value) ==> AllLocal(Descend(other, token).value))
    requires other.Obj? && Has(other.fields, REF) ==>
      Has(value.fields, REF) && (IsLocal(Lookup(value.fields, REF).value) ==> IsLocal(Lookup(other.fields, REF).value))
    ensures AllLocal(other)
  {
    forall token | Descend(other, token).Some? ensures AllLocal(Descend(other, token).value) {
      ChildLocalBelow(value, token);
    }
    if other.Obj? && Has(other.fields, REF) {
      LocalMember(value.fields, REF);
    }
    LocalByChildren(other);
  }

  // ---------- the normalised document ----------

  /** Nesting and references of a normalised 3.0.3 document, read off the source. */
  lemma NormalizedShape(fields: seq<Field>)
    requires IsTranslated(fields) && AllLocal(Obj(fields))
    ensures var document := Normalized(fields).value;
      && document.Obj? && Keyed(document) && AllLocal(document)
      && Height(document) == Depth(Whole(fields))
      && Refs(document) == Living(Whole(fields))
      && HasVersion(document.fields) && Lookup(document.fields, VERSION_KEY) == Some(Str("3.1.0"))
  {
    var whole := Whole(fields);
    StampedKeyed(fields);
    var stamped := Found(whole).value;
    DepthExact(whole);
    CanonicalHeight(stamped);
    LocalKept(whole);
    CanonicalLocal(stamped);
    CanonicalKeyed(stamped);
    forall r ensures r in Refs(Canonical(stamped)) <==> r in Living(whole) {
      RefsExact(whole, r);
      CanonicalRefs(stamped, r);
    }
    LookupPut(NormalizeFields(OpenApiObject, fields, true, "").value, VERSION_KEY, Str("3.1.0"), VERSION_KEY);
    CanonicalLookup(stamped.fields, VERSION_KEY);
  }

  /** Every reference that is still made in the normalised document leads somewhere in it. */
  predicate ReferencesSurvive(fields: seq<Field>) {
    forall r :: r in Living(Whole(fields)) ==> Landing(fields, r).Some?
  }

  /** Exactly when resolution, which reads the normalised document, meets no reference it cannot resolve. */
  lemma NormalizedAccepted(fields: seq<Field>)
    requires IsTranslated(fields) && AllLocal(Obj(fields))
    ensures Accepted(Normalized(fields).value) <==> ReferencesSurvive(fields)
  {
    NormalizedShape(fields);
    forall r | r in Living(Whole(fields))
      ensures Pointer(Normalized(fields).value, r).Some? <==> Landing(fields, r).Some?
    {
      ReferenceExact(fields, r);
    }
  }

  /**
   An accepted 3.0.3 document, uploaded again in its normalised form, is accepted exactly
   when the translation is not too deep and its references survive.  It is then unchanged,
   and otherwise refused for one of the two.
   */
  lemma {:induction false} ParsedAgain(fields: seq<Field>)
    requires Keyed(Obj(fields)) && Lookup(fields, VERSION_KEY) == Some(Str("3.0.3")) && Parsed(fields).Ok?
    ensures Parsed(fields).value.Obj?
    ensures Parsed(Parsed(fields).value.fields).Ok? <==> Depth(Whole(fields)) <= MAX_DEPTH && ReferencesSurvive(fields)
    ensures Parsed(Parsed(fields).value.fields).Ok? ==> Parsed(Parsed(fields).value.fields) == Parsed(fields)
    ensures Parsed(Parsed(fields).value.fields).Err? ==>
      var failure := Parsed(Parsed(fields).value.fields).error;
      if Depth(Whole(fields)) > MAX_DEPTH then failure.NotWalked? && failure.rejection.TooDeep? else failure.UnresolvedRef?
  {
    ParsedExact(fields);
    NormalizedShape(fields);
    ParsedRefuses(Normalized(fields).value.fields);
    NormalizedAccepted(fields);
    NormalizedIsFixedPoint(fields);
    ParsedExact(Normalized(fields).value.fields);
  }

  // ---------- documents that are not rewritten ----------

  /** A new text under a key that held a text. */
  lemma {:induction false} StampStep(members: seq<Field>, key: string, text: string, token: string)
    requires Lookup(members, key).Some? && Lookup(members, key).value.Str?
    ensures Descend(Obj(Put(members, key, Str(text))), token) ==
      if Unescape(token) == key then Some(Str(text)) else Descend(Obj(members), token)
  {
    LookupPut(members, key, Str(text), Unescape(token));
  }

  lemma {:induction false} StampHeight(members: seq<Field>, key: string, text: string)
    requires Keyed(Obj(members)) && Lookup(members, key).Some? && Lookup(members, key).value.Str?
    ensures Height(Obj(Put(members, key, Str(text)))) == Height(Obj(members))
  {
    var before, after := Obj(members), Obj(Put(members, key, Str(text)));
    PutKeyed(members, key, Str(text));
    EscapeRoundTrip(key);
    StampStep(members, key, text, Escape(key));
    ChildIsLower(before, Escape(key));
    ChildIsLower(after, Escape(key));
    var token := HighestChild(before);
    StampStep(members, key, text, token);
    ChildIsLower(after, token);
    var other := HighestChild(after);
    StampStep(members, key, text, other);
    ChildIsLower(before, other);
  }

  lemma {:induction false} StampRefs(members: seq<Field>, key: string, text: string, r: string)
    requires Keyed(Obj(members)) && Lookup(members, key).Some? && Lookup(members, key).value.Str? && key != REF
    ensures r in Refs(Obj(Put(members, key, Str(text)))) <==> r in Refs(Obj(members))
  {
    var before, after := Obj(members), Obj(Put(members, key, Str(text)));
    PutKeyed(members, key, Str(text));
    LookupPut(members, key, Str(text), REF);
    assert RefOf(after) == RefOf(before);
    if r !in RefOf(before) && r in Refs(before) {
      var token := RefsReached(before, r);
      StampStep(members, key, text, token);
      ChildRefsBelow(after, token);
    }
    if r !in RefOf(before) && r in Refs(after) {
      var token := RefsReached(after, r);
      StampStep(members, key, text, token);
      ChildRefsBelow(before, token);
    }
  }

  lemma {:induction false} StampLocal(members: seq<Field>, key: string, text: string)
    requires Keyed(Obj(members)) && AllLocal(Obj(members)) && key != REF
    ensures AllLocal(Obj(Put(members, key, Str(text))))
  {
    PutMembers(members, key, Str(text));
    var put := Put(members, key, Str(text));
    forall i | 0 <= i < |put| ensures (put[i].key == REF ==> IsLocal(put[i].value)) && AllLocal(put[i].value) {
      assert put[i] in put;
    }
  }

  lemma {:induction false} StampPointer(members: seq<Field>, key: string, text: string, reference: string)
    requires Lookup(members, key).Some? && Lookup(members, key).value.Str?
    ensures Pointer(Obj(Put(members, key, Str(text))), reference).Some? <==> Pointer(Obj(members), reference).Some?
  {
    if IsPointer(reference) && reference != "#" {
      var tokens := TokensOf(reference);
      StampStep(members, key, text, tokens[0]);
      if Unescape(tokens[0]) == key {
        TextEnds(Str(text), tokens[1..]);
        TextEnds(Lookup(members, key).value, tokens[1..]);
      }
    }
  }

  lemma {:induction false} TextEnds(value: Json, tokens: seq<string>)
    requires value.Str?
    ensures DescendAll(value, tokens).Some? <==> tokens == []
  {
  }

  /** Documents with one canonical form are accepted alike. */
  lemma {:induction false} SameCanonical(value: Json, other: Json, r: string)
    requires Keyed(value) && Keyed(other) && Canonical(value) == Canonical(other)
    ensures Height(value) == Height(other) && (AllLocal(value) <==> AllLocal(other))
    ensures r in Refs(value) <==> r in Refs(other)
    ensures Pointer(value, r).Some? <==> Pointer(other, r).Some?
  {
    CanonicalHeight(value);
    CanonicalHeight(other);
    CanonicalLocal(value);
    CanonicalLocal(other);
    CanonicalRefs(value, r);
    CanonicalRefs(other, r);
    PointerCanonical(value, r);
    PointerCanonical(other, r);
  }

  lemma {:induction false} Stamped(members: seq<Field>, key: string, text: string, r: string)
    requires Keyed(Obj(members)) && AllLocal(Obj(members)) && key != REF
    requires Lookup(members, key).Some? && Lookup(members, key).value.Str?
    ensures var after := Obj(Put(members, key, Str(text)));
      && Keyed(after) && AllLocal(after) && Height(after) == Height(Obj(members))
      && (r in Refs(after) <==> r in Refs(Obj(members)))
      && (Pointer(after, r).Some? <==> Pointer(Obj(members), r).Some?)
  {
    PutKeyed(members, key, Str(text));
    StampLocal(members, key, text);
    StampHeight(members, key, text);
    StampRefs(members, key, text, r);
    StampPointer(members, key, text, r);
  }

  lemma {:induction false} PlainVersion(fields: seq<Field>)
    requires HasVersion(fields) && NormalizeFields(OpenApiObject, fields, false, "").Ok?
    ensures HasVersion(NormalizeFields(OpenApiObject, fields, false, "").value)
  {
    var version := Lookup(fields, VERSION_KEY).value;
    FieldsLookup(OpenApiObject, fields, false, "", VERSION_KEY);
    assert !IsDocumentData(VERSION_KEY);
    assert NormalizeMember(Field(VERSION_KEY, version), false, "") == NormalizeDocument(version, false, "" + "/" + VERSION_KEY);
  }

  /** What the normalised form of a document that is not rewritten is like. */
  lemma {:induction false} PlainShape(fields: seq<Field>, r: string)
    requires Keyed(Obj(fields)) && AllLocal(Obj(fields)) && HasVersion(fields)
    requires Lookup(fields, VERSION_KEY) != Some(Str("3.0.3"))
    ensures Normalized(fields).Ok? && Normalized(fields).value.Obj?
    ensures var document := Normalized(fields).value;
      && Keyed(document) && AllLocal(document) && Height(document) == Height(Obj(fields))
      && HasVersion(document.fields)
      && (r in Refs(document) <==> r in Refs(Obj(fields)))
      && (Pointer(document, r).Some? <==> Pointer(Obj(fields), r).Some?)
  {
    PlainTranslation(fields);
    PlainVersion(fields);
    var members := NormalizeFields(OpenApiObject, fields, false, "").value;
    var stamped := Obj(Put(members, VERSION_KEY, Str("3.1.0")));
    SameCanonical(Obj(fields), Obj(members), r);
    Stamped(members, VERSION_KEY, "3.1.0", r);
    CanonicalIdempotent(stamped);
    CanonicalKeyed(stamped);
    SameCanonical(stamped, Canonical(stamped), r);
    LookupPut(members, VERSION_KEY, Str("3.1.0"), VERSION_KEY);
    CanonicalLookup(stamped.fields, VERSION_KEY);
  }

  /** A document that is not rewritten is always accepted again in its normalised form, and unchanged. */
  lemma {:induction false} ParsedAgainPlain(fields: seq<Field>)
    requires Keyed(Obj(fields)) && Lookup(fields, VERSION_KEY) != Some(Str("3.0.3")) && Parsed(fields).Ok?
    ensures Parsed(fields).value.Obj? && Parsed(Parsed(fields).value.fields) == Parsed(fields)
    ensures Accepted(Parsed(fields).value)
  {
    ParsedExact(fields);
    PlainShape(fields, "");
    var document := Normalized(fields).value;
    forall r | r in Refs(document) ensures Pointer(document, r).Some? {
      PlainShape(fields, r);
    }
    NormalizedIsFixedPoint(fields);
    ParsedExact(document.fields);
  }

  // ---------- reading the operations ----------

  /** A node of the document, or one like it, with all that is below it. */
  ghost predicate SoundBelow(value: Json, document: Json) {
    Keyed(value) && AllLocal(value) && Refs(value) <= Refs(document)
  }

  lemma {:induction false} MemberSound(fields: seq<Field>, key: string, document: Json)
    requires SoundBelow(Obj(fields), document) && Has(fields, key)
    ensures SoundBelow(Lookup(fields, key).value, document)
  {
    var i :| 0 <= i < |fields| && fields[i] == Field(key, Lookup(fields, key).value);
  }

  lemma {:induction false} TargetSoundBelow(document: Json, reference: string)
    requires Accepted(document) && reference in Refs(document)
    ensures Pointer(document, reference).Some? && SoundBelow(Pointer(document, reference).value, document)
  {
    TargetSound(document, reference);
    if reference != "#" {
      NodeRefs(document, Split(reference[2..]));
    }
  }

  lemma {:induction false} ChainSound(value: Json, document: Json, stack: set<string>)
    requires Accepted(document) && SoundBelow(value, document)
    ensures forall i :: 0 <= i < |Chain(value, document, stack)| ==> SoundBelow(Chain(value, document, stack)[i], document)
    decreases |Refs(document) + RefOf(value) - stack|
  {
    if MakesReference(value) && Reference(value) !in stack {
      TargetSoundBelow(document, Reference(value));
      var target := Pointer(document, Reference(value)).value;
      MeasureDrops(value, target, document, stack);
      ChainSound(target, document, stack + {Reference(value)});
    }
  }

  lemma {:induction false} NearestSound(chain: seq<Json>, key: string, document: Json)
    requires forall i :: 0 <= i < |chain| ==> SoundBelow(chain[i], document)
    ensures Nearest(chain, key).Some? ==> SoundBelow(Nearest(chain, key).value, document)
  {
    if |chain| != 0 {
      if chain[0].Obj? && Has(chain[0].fields, key) {
        MemberSound(chain[0].fields, key, document);
      } else {
        NearestSound(chain[1..], key, document);
      }
    }
  }

  /** Resolving a node of an accepted document finds something, and its members are sound in turn. */
  lemma {:induction false} ResolvedMember(value: Json, document: Json, stack: set<string>, key: string)
    requires Accepted(document) && SoundBelow(value, document) && key != REF
    ensures Resolve(value, document, stack).Some?
    ensures var result := Resolve(value, document, stack).value;
      result.Obj? && Has(result.fields, key) ==> SoundBelow(Lookup(result.fields, key).value, document)
  {
    ResolveAccepted(value, document, stack, key);
    ChainSound(value, document, stack);
    NearestSound(Chain(value, document, stack), key, document);
  }

  lemma {:induction false} MethodsResolve(
    document: Json, found: seq<OperationIdentity.Operation>, path: string, item: seq<Field>, methods: seq<string>)
    requires Accepted(document)
    requires forall key :: key != REF && Has(item, key) ==> SoundBelow(Lookup(item, key).value, document)
    requires forall i :: 0 <= i < |methods| ==> methods[i] != REF
    ensures OperationCatalogue.ReadMethods(document, found, path, item, methods) != Err(OperationCatalogue.UnresolvedReference)
    decreases |methods|
  {
    if |methods| != 0 {
      if Has(item, methods[0]) {
        ResolvedMember(Lookup(item, methods[0]).value, document, {}, "");
      }
      var next := OperationCatalogue.ReadOperation(document, found, path, item, methods[0]);
      if next.Ok? {
        MethodsResolve(document, next.value, path, item, methods[1..]);
      }
    }
  }

  lemma PathResolves(document: Json, found: seq<OperationIdentity.Operation>, field: Field)
    requires Accepted(document) && SoundBelow(field.value, document)
    ensures OperationCatalogue.ReadPath(document, found, field) != Err(OperationCatalogue.UnresolvedReference)
  {
    var stack := {OperationCatalogue.Seed(field.key)};
    ResolvedMember(field.value, document, stack, "");
    var resolved := Resolve(field.value, document, stack).value;
    if resolved.Obj? {
      forall key | key != REF && Has(resolved.fields, key) ensures SoundBelow(Lookup(resolved.fields, key).value, document) {
        ResolvedMember(field.value, document, stack, key);
      }
      var methods := OperationCatalogue.MethodsOf(resolved.fields, OperationCatalogue.METHOD_ORDER);
      forall i | 0 <= i < |methods| ensures methods[i] != REF {
        OperationCatalogue.MethodsAre(resolved.fields, OperationCatalogue.METHOD_ORDER, i);
      }
      MethodsResolve(document, found, field.key, resolved.fields, methods);
    }
  }

  lemma {:induction false} PathsResolve(document: Json, found: seq<OperationIdentity.Operation>, paths: seq<Field>)
    requires Accepted(document)
    requires forall i :: 0 <= i < |paths| ==> SoundBelow(paths[i].value, document)
    ensures OperationCatalogue.ReadPaths(document, found, paths) != Err(OperationCatalogue.UnresolvedReference)
    decreases |paths|
  {
    if |paths| != 0 {
      PathResolves(document, found, paths[0]);
      var next := OperationCatalogue.ReadPath(document, found, paths[0]);
      if next.Ok? {
        PathsResolve(document, next.value, paths[1..]);
      }
    }
  }

  /** Reading the operations of an accepted document never meets a reference it cannot resolve. */
  lemma OperationsResolve(fields: seq<Field>)
    requires Accepted(Obj(fields))
    ensures OperationCatalogue.Operations(fields) != Err(OperationCatalogue.UnresolvedReference)
  {
    match Lookup(fields, "paths")
    case Some(Obj(paths)) =>
      MemberSound(fields, "paths", Obj(fields));
      var sorted := SortFields(paths);
      SortMembers(paths);
      forall i | 0 <= i < |sorted| ensures SoundBelow(sorted[i].value, Obj(fields)) {
        assert sorted[i] in multiset(paths);
        var j :| 0 <= j < |paths| && paths[j] == sorted[i];
        LookupAt(paths, j);
        MemberSound(paths, paths[j].key, Obj(fields));
      }
      PathsResolve(Obj(fields), [], sorted);
    case _ =>
  }
}
