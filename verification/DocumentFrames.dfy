/**
 What stands where in an OpenAPI document.  A response, a header or a media type is what its
 place in the document says it is, whatever its name; a schema is one where a schema belongs.
 */
module DocumentFrames {
  import opened Prelude
  import opened Json
  import opened KeyOrder
  import opened SchemaNormaliser
  import opened CanonicalForm
  import opened KeywordKinds
  import opened SchemaResidue

  // ---------- positions ----------

  /**
   What the keys of an object are: fields with fixed names, names of a map, or names of the
   responses of an operation, among which extensions are allowed.
   */
  datatype Frame = FixedFields | NameMap | ResponseMap

  const NAME_MAPS := {"headers", "content", "encoding", "examples", "links", "callbacks"}

  /** The frame of the value under a key; an entry of a map is an object with fixed fields. */
  function FrameBelow(frame: Frame, place: Place, key: string): Frame {
    if frame != FixedFields then FixedFields
    else if place == Components then NameMap
    else if key == "responses" then ResponseMap
    else if key in NAME_MAPS then NameMap
    else FixedFields
  }

  /** Data by position: extensions where they are allowed, examples and defaults among fixed fields. */
  predicate IsRealData(frame: Frame, key: string) {
    match frame
    case FixedFields => IsDocumentData(key)
    case ResponseMap => IsExtension(key)
    case NameMap => false
  }

  predicate HoldsSchema(frame: Frame, key: string) {
    frame == FixedFields && key == "schema"
  }

  predicate HoldsSchemas(place: Place, field: Field) {
    place == Components && field.key == "schemas" && field.value.Obj?
  }

  /** No residue in any schema position. */
  ghost predicate RealClean(frame: Frame, place: Place, value: Json)
    decreases value, 3
  {
    match value
    case Arr(items) => forall i :: 0 <= i < |items| ==> RealClean(FixedFields, Inside, items[i])
    case Obj(fields) => forall i :: 0 <= i < |fields| ==> RealCleanField(frame, place, fields[i])
    case _ => true
  }

  ghost predicate RealCleanField(frame: Frame, place: Place, field: Field)
    decreases field, 4
  {
    if IsRealData(frame, field.key) then true
    else if HoldsSchema(frame, field.key) then CleanSchema(field.value)
    else if HoldsSchemas(place, field) then
      forall i :: 0 <= i < |field.value.fields| ==> CleanSchema(field.value.fields[i].value)
    else RealClean(FrameBelow(frame, place, field.key), Below(place, field.key), field.value)
  }

  // ---------- canonical form keeps cleanliness, both ways ----------

  lemma {:induction false} SortedAll(fields: seq<Field>, p: Field -> bool)
    ensures (forall i :: 0 <= i < |SortFields(fields)| ==> p(SortFields(fields)[i]))
      <==> (forall i :: 0 <= i < |fields| ==> p(fields[i]))
  {
    var sorted := SortFields(fields);
    SortMembers(fields);
    if forall i :: 0 <= i < |sorted| ==> p(sorted[i]) {
      forall i | 0 <= i < |fields| ensures p(fields[i]) {
        assert fields[i] in multiset(sorted);
      }
    }
    if forall i :: 0 <= i < |fields| ==> p(fields[i]) {
      forall i | 0 <= i < |sorted| ensures p(sorted[i]) {
        assert sorted[i] in multiset(fields);
      }
    }
  }

  lemma {:induction false} CanonicalSchemaClean(value: Json)
    ensures CleanSchema(Canonical(value)) <==> CleanSchema(value)
    decreases value, 3
  {
    if value.Obj? {
      var unsorted := CanonicalFields(value.fields);
      SortedAll(unsorted, f => CleanKeyword(f));
      forall i | 0 <= i < |value.fields| ensures CleanKeyword(unsorted[i]) <==> CleanKeyword(value.fields[i]) {
        CanonicalKeywordClean(value.fields[i]);
      }
    }
  }

  lemma {:induction false} CanonicalMapClean(fields: seq<Field>)
    ensures (forall i :: 0 <= i < |SortFields(CanonicalFields(fields))| ==>
               CleanSchema(SortFields(CanonicalFields(fields))[i].value))
      <==> (forall i :: 0 <= i < |fields| ==> CleanSchema(fields[i].value))
    decreases fields, 2
  {
    SortedAll(CanonicalFields(fields), (f: Field) => CleanSchema(f.value));
    forall i | 0 <= i < |fields| ensures CleanSchema(CanonicalFields(fields)[i].value) <==> CleanSchema(fields[i].value) {
      CanonicalSchemaClean(fields[i].value);
    }
  }

  lemma {:induction false} CanonicalListClean(items: seq<Json>)
    ensures (forall i :: 0 <= i < |items| ==> CleanSchema(CanonicalItems(items)[i]))
      <==> (forall i :: 0 <= i < |items| ==> CleanSchema(items[i]))
    decreases items, 2
  {
    forall i | 0 <= i < |items| ensures CleanSchema(CanonicalItems(items)[i]) <==> CleanSchema(items[i]) {
      CanonicalSchemaClean(items[i]);
    }
  }

  lemma {:induction false} CanonicalKeywordClean(field: Field)
    ensures CleanKeyword(Field(field.key, Canonical(field.value))) <==> CleanKeyword(field)
    decreases field, 5
  {
    CanonicalBelowClean(KindOf(field.key), field.value);
  }

  lemma {:induction false} CanonicalBelowClean(kind: Kind, item: Json)
    ensures CleanBelow(kind, Canonical(item)) <==> CleanBelow(kind, item)
    decreases item, 4
  {
    match (kind, item)
    case (DataKeyword, _) =>
    case (MapKeyword, Obj(fields)) => MapBelow(kind, fields); MapBelow(kind, Canonical(item).fields); CanonicalMapClean(fields);
    case (DependencyKeyword, Obj(fields)) => MapBelow(kind, fields); MapBelow(kind, Canonical(item).fields); CanonicalMapClean(fields);
    case (ListKeyword, Arr(items)) => CanonicalListClean(items);
    case (SchemaKeyword, Obj(_)) => CanonicalSchemaClean(item);
    case _ => CanonicalDocumentClean(Inside, item);
  }

  lemma {:induction false} MapBelow(kind: Kind, fields: seq<Field>)
    requires kind == MapKeyword || kind == DependencyKeyword
    ensures CleanBelow(kind, Obj(fields)) <==> forall i :: 0 <= i < |fields| ==> CleanSchema(fields[i].value)
  {
  }

  lemma {:induction false} CanonicalDocumentClean(place: Place, value: Json)
    ensures CleanDocument(place, Canonical(value)) <==> CleanDocument(place, value)
    decreases value, 3
  {
    match value
    case Arr(items) =>
      forall i | 0 <= i < |items|
        ensures CleanDocument(Inside, CanonicalItems(items)[i]) <==> CleanDocument(Inside, items[i])
      {
        CanonicalDocumentClean(Inside, items[i]);
      }
    case Obj(fields) =>
      var unsorted := CanonicalFields(fields);
      SortedAll(unsorted, f => CleanMember(place, f));
      forall i | 0 <= i < |fields| ensures CleanMember(place, unsorted[i]) <==> CleanMember(place, fields[i]) {
        CanonicalMemberClean(place, fields[i]);
      }
    case _ =>
  }

  lemma {:induction false} CanonicalMemberClean(place: Place, field: Field)
    ensures CleanMember(place, Field(field.key, Canonical(field.value))) <==> CleanMember(place, field)
    decreases field, 4
  {
    if field.key == "schema" {
      CanonicalSchemaClean(field.value);
    } else if HoldsSchemas(place, field) {
      CanonicalMapClean(field.value.fields);
    } else if !IsDocumentData(field.key) {
      CanonicalDocumentClean(Below(place, field.key), field.value);
    }
  }

  /** Key order has nothing to do with residue. */
  lemma {:induction false} CanonicalRealClean(frame: Frame, place: Place, value: Json)
    ensures RealClean(frame, place, Canonical(value)) <==> RealClean(frame, place, value)
    decreases value, 3
  {
    match value
    case Arr(items) =>
      forall i | 0 <= i < |items|
        ensures RealClean(FixedFields, Inside, CanonicalItems(items)[i]) <==> RealClean(FixedFields, Inside, items[i])
      {
        CanonicalRealClean(FixedFields, Inside, items[i]);
      }
    case Obj(fields) =>
      var unsorted := CanonicalFields(fields);
      SortedAll(unsorted, f => RealCleanField(frame, place, f));
      forall i | 0 <= i < |fields|
        ensures RealCleanField(frame, place, unsorted[i]) <==> RealCleanField(frame, place, fields[i])
      {
        CanonicalRealCleanField(frame, place, fields[i]);
      }
    case _ =>
  }

  lemma {:induction false} CanonicalRealCleanField(frame: Frame, place: Place, field: Field)
    ensures RealCleanField(frame, place, Field(field.key, Canonical(field.value))) <==> RealCleanField(frame, place, field)
    decreases field, 4
  {
    if IsRealData(frame, field.key) {
    } else if HoldsSchema(frame, field.key) {
      CanonicalSchemaClean(field.value);
    } else if HoldsSchemas(place, field) {
      CanonicalMapClean(field.value.fields);
    } else {
      CanonicalRealClean(FrameBelow(frame, place, field.key), Below(place, field.key), field.value);
    }
  }
}
