/**
 The translation as the source runs it: recursive procedures that fill a fresh `dict`
 key by key and stop at the first refusal.
 */
module SchemaProcedure {
  import opened Prelude
  import opened Json
  import opened KeyOrder
  import opened SchemaNormaliser

  lemma {:induction false} FieldsPrefix(holder: Holder, fields: seq<Field>, from30: bool, path: string, i: nat)
    requires i < |fields|
    ensures NormalizeFields(holder, fields[..i], from30, path).Err? ==>
              NormalizeFields(holder, fields, from30, path) == NormalizeFields(holder, fields[..i], from30, path)
    ensures NormalizeFields(holder, fields[..i], from30, path).Ok? ==>
              var prefix := NormalizeFields(holder, fields[..i], from30, path).value;
              if Dropped(holder, fields[i].key, from30) then
                NormalizeFields(holder, fields[..i + 1], from30, path) == Ok(prefix)
              else match NormalizeField(holder, fields[i], from30, path)
                case Ok(value) =>
                  NormalizeFields(holder, fields[..i + 1], from30, path) == Ok(prefix + [Field(fields[i].key, value)])
                case Err(refusal) => NormalizeFields(holder, fields, from30, path) == Err(refusal)
  {
    assert fields[..i + 1][0] == fields[0];
    if i > 0 {
      FieldsPrefix(holder, fields[1..], from30, path, i - 1);
      assert fields[..i][1..] == fields[1..][..i - 1];
      assert fields[..i + 1][1..] == fields[1..][..i];
      var first := NormalizeField(holder, fields[0], from30, path);
      var rest := NormalizeFields(holder, fields[1..][..i - 1], from30, path);
      var last := NormalizeField(holder, fields[i], from30, path);
      if first.Ok? && rest.Ok? && last.Ok? {
        var head, tail := [Field(fields[0].key, first.value)], [Field(fields[i].key, last.value)];
        assert head + (rest.value + tail) == (head + rest.value) + tail;
      }
    } else {
      assert fields[..0] == [] && fields[..1][1..] == [];
      var first := NormalizeField(holder, fields[0], from30, path);
      if first.Ok? {
        var head := [Field(fields[0].key, first.value)];
        assert head + [] == [] + head;
      }
    }
  }

  lemma {:induction false} ItemsPrefix(
    schemas: bool, items: seq<Json>, from30: bool, path: string, index: nat, i: nat)
    requires i < |items|
    ensures NormalizeItems(schemas, items[..i], from30, path, index).Ok? ==>
              var prefix := NormalizeItems(schemas, items[..i], from30, path, index).value;
              var childPath := path + "/" + Decimal(index + i);
              match (if schemas then NormalizeSchema(items[i], from30, childPath)
                     else NormalizeDocument(items[i], from30, childPath))
              case Ok(value) => NormalizeItems(schemas, items[..i + 1], from30, path, index) == Ok(prefix + [value])
              case Err(refusal) => NormalizeItems(schemas, items, from30, path, index) == Err(refusal)
  {
    assert items[..i + 1][0] == items[0];
    if i > 0 {
      ItemsPrefix(schemas, items[1..], from30, path, index + 1, i - 1);
      assert items[..i][1..] == items[1..][..i - 1];
      assert items[..i + 1][1..] == items[1..][..i];
      var childPath := path + "/" + Decimal(index);
      var first := if schemas then NormalizeSchema(items[0], from30, childPath)
                   else NormalizeDocument(items[0], from30, childPath);
      var rest := NormalizeItems(schemas, items[1..][..i - 1], from30, path, index + 1);
      if first.Ok? && rest.Ok? {
        assert forall value :: [first.value] + (rest.value + [value]) == ([first.value] + rest.value) + [value];
      }
    } else {
      assert items[..0] == [] && items[..1][1..] == [];
      assert forall value: Json :: [value] + [] == [] + [value];
    }
  }

  /** `normalized[key] = ...` on a key that is not there yet adds it at the end. */
  lemma {:induction false} PutNewKey(fields: seq<Field>, key: string, value: Json)
    requires !Has(fields, key)
    ensures Put(fields, key, value) == fields + [Field(key, value)]
  {
    if |fields| != 0 {
      PutNewKey(fields[1..], key, value);
      assert fields == [fields[0]] + fields[1..];
    }
  }

  lemma {:induction false} NewKey(holder: Holder, fields: seq<Field>, from30: bool, path: string, i: nat)
    requires UniqueKeys(fields) && i < |fields| && NormalizeFields(holder, fields[..i], from30, path).Ok?
    ensures !Has(NormalizeFields(holder, fields[..i], from30, path).value, fields[i].key)
  {
    FieldsLookup(holder, fields[..i], from30, path, fields[i].key);
  }

  method FillObject(holder: Holder, fields: seq<Field>, from30: bool, path: string)
    returns (result: Outcome<seq<Field>>)
    requires Keyed(Obj(fields))
    ensures result == NormalizeFields(holder, fields, from30, path)
    decreases fields, 0
  {
    var normalized: seq<Field> := [];
    for i := 0 to |fields|
      invariant NormalizeFields(holder, fields[..i], from30, path) == Ok(normalized)
    {
      FieldsPrefix(holder, fields, from30, path, i);
      if !Dropped(holder, fields[i].key, from30) {
        assert Keyed(fields[i].value);
        var value := TranslateField(holder, fields[i], from30, path);
        if value.Err? {
          return Err(value.error);
        }
        NewKey(holder, fields, from30, path, i);
        PutNewKey(normalized, fields[i].key, value.value);
        normalized := Put(normalized, fields[i].key, value.value);
      }
    }
    assert fields[..|fields|] == fields;
    return Ok(normalized);
  }

  method FillList(schemas: bool, items: seq<Json>, from30: bool, path: string)
    returns (result: Outcome<seq<Json>>)
    requires Keyed(Arr(items))
    ensures result == NormalizeItems(schemas, items, from30, path, 0)
    decreases items, 0
  {
    var normalized: seq<Json> := [];
    for index := 0 to |items|
      invariant NormalizeItems(schemas, items[..index], from30, path, 0) == Ok(normalized)
    {
      ItemsPrefix(schemas, items, from30, path, 0, index);
      assert Keyed(items[index]);
      var value;
      if schemas {
        value := TranslateSchema(items[index], from30, path + "/" + Decimal(index));
      } else {
        value := TranslateDocument(items[index], from30, path + "/" + Decimal(index));
      }
      if value.Err? {
        return Err(value.error);
      }
      normalized := normalized + [value.value];
    }
    assert items[..|items|] == items;
    return Ok(normalized);
  }

  method TranslateField(holder: Holder, field: Field, from30: bool, path: string) returns (result: Outcome<Json>)
    requires Keyed(field.value)
    ensures result == NormalizeField(holder, field, from30, path)
    decreases field, 5
  {
    var Field(key, item) := field;
    var childPath := path + "/" + key;
    match holder {
      case OpenApiObject =>
        if key == "schema" {
          result := TranslateSchema(item, from30, childPath);
        } else if path == "/components" && key == "schemas" && item.Obj? {
          var schemas := FillObject(SchemaMap, item.fields, from30, childPath);
          result := if schemas.Ok? then Ok(Obj(schemas.value)) else Err(schemas.error);
        } else if IsDocumentData(key) {
          result := Ok(Canonical(item));
        } else {
          result := TranslateDocument(item, from30, childPath);
        }
      case SchemaObject =>
        result := TranslateKeyword(field, from30, childPath);
      case SchemaMap =>
        result := TranslateSchema(item, from30, childPath);
      case DependencyMap =>
        if item.Obj? {
          result := TranslateSchema(item, from30, childPath);
        } else {
          result := Ok(Canonical(item));
        }
    }
  }

  method TranslateKeyword(field: Field, from30: bool, path: string) returns (result: Outcome<Json>)
    requires Keyed(field.value)
    ensures result == NormalizeKeyword(field, from30, path)
    decreases field, 4
  {
    var Field(key, item) := field;
    if IsSchemaData(key) {
      result := Ok(Canonical(item));
    } else if key in SCHEMA_MAP_KEYWORDS && item.Obj? {
      var schemas := FillObject(SchemaMap, item.fields, from30, path);
      result := if schemas.Ok? then Ok(Obj(schemas.value)) else Err(schemas.error);
    } else if key in SCHEMA_LIST_KEYWORDS && item.Arr? {
      var schemas := FillList(true, item.items, from30, path);
      result := if schemas.Ok? then Ok(Arr(schemas.value)) else Err(schemas.error);
    } else if key in SCHEMA_KEYWORDS && item.Obj? {
      result := TranslateSchema(item, from30, path);
    } else if key == "dependencies" && item.Obj? {
      var dependencies := FillObject(DependencyMap, item.fields, from30, path);
      result := if dependencies.Ok? then Ok(Obj(dependencies.value)) else Err(dependencies.error);
    } else {
      result := TranslateDocument(item, from30, path);
    }
  }

  method TranslateDocument(value: Json, from30: bool, path: string) returns (result: Outcome<Json>)
    requires Keyed(value)
    ensures result == NormalizeDocument(value, from30, path)
    decreases value, 3
  {
    match value {
      case Arr(items) =>
        var list := FillList(false, items, from30, path);
        result := if list.Ok? then Ok(Arr(list.value)) else Err(list.error);
      case Obj(fields) =>
        var members := FillObject(OpenApiObject, fields, from30, path);
        result := if members.Ok? then Ok(Obj(members.value)) else Err(members.error);
      case _ =>
        result := Ok(value);
    }
  }

  method TranslateSchema(value: Json, from30: bool, path: string) returns (result: Outcome<Json>)
    requires Keyed(value)
    ensures result == NormalizeSchema(value, from30, path)
    decreases value, 3
  {
    if !value.Obj? {
      return Ok(value);
    }
    var filled := FillObject(SchemaObject, value.fields, from30, path);
    if filled.Err? {
      return Err(filled.error);
    }
    var normalized := filled.value;
    if !from30 {
      return Ok(Obj(normalized));
    }
    var pairs := [("minimum", "exclusiveMinimum"), ("maximum", "exclusiveMaximum")];
    ghost var after := [Ok(normalized)];
    for i := 0 to 2
      invariant |after| == i + 1 && after[i] == Ok(normalized) && after[0] == filled
      invariant forall k :: 0 <= k < i ==>
                  after[k].Ok? && after[k + 1] == FixBound(value.fields, after[k].value, pairs[k].0, pairs[k].1, path)
    {
      var (bound, exclusive) := pairs[i];
      ghost var before := normalized;
      match Lookup(value.fields, exclusive) {
        case Some(Bool(flag)) =>
          if !flag {
            normalized := Without(normalized, exclusive);
          } else {
            match Lookup(value.fields, bound) {
              case Some(Num(number)) =>
                normalized := Without(normalized, bound);
                normalized := Put(normalized, exclusive, Num(number));
              case _ =>
                if i == 1 {
                  assert after[1] == FixBound(value.fields, after[0].value, pairs[0].0, pairs[0].1, path);
                }
                return Err(LossyNormalization(path + "/" + exclusive));
            }
          }
        case _ =>
      }
      after := after + [FixBound(value.fields, before, bound, exclusive, path)];
    }
    assert after[1] == FixBound(value.fields, after[0].value, pairs[0].0, pairs[0].1, path);
    assert after[2] == FixBound(value.fields, after[1].value, pairs[1].0, pairs[1].1, path);
    return FixNullable(value.fields, normalized, path);
  }
}
