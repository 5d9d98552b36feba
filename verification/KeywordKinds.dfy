/** The keywords of a schema, sorted by how `_normalize_schema` reads their arguments. */
module KeywordKinds {
  import opened Prelude
  import opened Json
  import opened SchemaNormaliser

  datatype Kind = DataKeyword | MapKeyword | ListKeyword | SchemaKeyword | DependencyKeyword | OtherKeyword

  function KindOf(key: string): Kind {
    if IsSchemaData(key) then DataKeyword
    else if key in SCHEMA_MAP_KEYWORDS then MapKeyword
    else if key in SCHEMA_LIST_KEYWORDS then ListKeyword
    else if key in SCHEMA_KEYWORDS then SchemaKeyword
    else if key == "dependencies" then DependencyKeyword
    else OtherKeyword
  }

  /** The argument of a keyword of each kind, translated. */
  function NormalizeArgument(kind: Kind, item: Json, path: string): Outcome<Json> {
    match (kind, item)
    case (DataKeyword, _) => Ok(Canonical(item))
    case (MapKeyword, Obj(fields)) =>
      var schemas :- NormalizeFields(SchemaMap, fields, true, path);
      Ok(Obj(schemas))
    case (ListKeyword, Arr(items)) =>
      var schemas :- NormalizeItems(true, items, true, path, 0);
      Ok(Arr(schemas))
    case (SchemaKeyword, Obj(_)) => NormalizeSchema(item, true, path)
    case (DependencyKeyword, Obj(fields)) =>
      var dependencies :- NormalizeFields(DependencyMap, fields, true, path);
      Ok(Obj(dependencies))
    case _ => NormalizeDocument(item, true, path)
  }

  lemma KindsAreDisjoint(key: string)
    ensures key in SCHEMA_MAP_KEYWORDS ==> key !in SCHEMA_LIST_KEYWORDS && key !in SCHEMA_KEYWORDS && key != "dependencies"
    ensures key in SCHEMA_LIST_KEYWORDS ==> key !in SCHEMA_KEYWORDS && key != "dependencies"
    ensures key in SCHEMA_KEYWORDS ==> key != "dependencies"
  {
  }

  /** The six branches of the source's loop, by kind. */
  lemma {:induction false} KeywordByKind(field: Field, path: string)
    ensures NormalizeKeyword(field, true, path) == NormalizeArgument(KindOf(field.key), field.value, path)
  {
    KindsAreDisjoint(field.key);
  }
}
