// What the rewrite leaves of a schema, position by position.
module KiroMeaning {
  import opened OrderedMaps
  import opened KiroSchema
  import opened KiroSchemaLaws

  // ---------- Positions ----------

  /** One step down: under a keyword, to a named schema, or into an array. */
  datatype Hop = Keyword(key: string) | Named(key: string, name: string) | At(i: nat)

  /** The value at a position that only passes supported keywords; names of properties are no keywords. */
  function Follow(v: Json, path: seq<Hop>): (r: seq<Json>)
    ensures |r| <= 1
    decreases |path|
  {
    if path == [] then [v]
    else match path[0]
      case Keyword(key) =>
        if v.Obj? && key in v.fields && key !in UNSUPPORTED && !NamesSchemas(key, v.fields[key])
        then Follow(v.fields[key], path[1..]) else []
      case Named(key, name) =>
        if v.Obj? && key in v.fields && NamesSchemas(key, v.fields[key]) && name in v.fields[key].fields
        then Follow(v.fields[key].fields[name], path[1..]) else []
      case At(i) => if v.Arr? && i < |v.items| then Follow(v.items[i], path[1..]) else []
  }

  predicate Scalar(v: Json) {
    !v.Arr? && !v.Obj?
  }

  /** Cleaning keeps every such position and adds none: what is there is the cleaned value of what was. */
  lemma {:induction false} PositionsStay(v: Json, path: seq<Hop>)
    ensures Follow(CleanValue(v), path) ==
            if Follow(v, path) == [] then [] else [CleanValue(Follow(v, path)[0])]
    decreases |path|
  {
    if path != [] {
      var c := CleanValue(v);
      match path[0]
      case Keyword(key) =>
        if v.Obj? {
          KeywordStays(v, key);
          if key in v.fields && key !in UNSUPPORTED && !NamesSchemas(key, v.fields[key]) {
            PositionsStay(v.fields[key], path[1..]);
          }
        }
      case Named(key, name) =>
        if v.Obj? {
          KeywordStays(v, key);
          if key in v.fields && NamesSchemas(key, v.fields[key]) && name in v.fields[key].fields {
            PositionsStay(v.fields[key].fields[name], path[1..]);
          }
        }
      case At(i) =>
        if v.Arr? && i < |v.items| {
          PositionsStay(v.items[i], path[1..]);
        }
    }
  }

  lemma KeywordStays(v: Json, key: string)
    requires v.Obj?
    ensures key in CleanFields(v) <==> key in v.fields && (NamesSchemas(key, v.fields[key]) || key !in UNSUPPORTED)
    ensures key in CleanFields(v) ==>
              && (NamesSchemas(key, CleanFields(v)[key]) <==> NamesSchemas(key, v.fields[key]))
              && (NamesSchemas(key, v.fields[key]) ==>
                    && CleanFields(v)[key].fields.Keys == v.fields[key].fields.Keys
                    && forall n :: n in v.fields[key].fields ==>
                         CleanFields(v)[key].fields[n] == CleanValue(v.fields[key].fields[n]))
              && (!NamesSchemas(key, v.fields[key]) ==> CleanFields(v)[key] == CleanValue(v.fields[key]))
  {
  }

  /** So numbers, strings and the like stay as they are, where they are. */
  lemma ScalarsStay(v: Json, path: seq<Hop>, w: Json)
    requires Scalar(w)
    ensures Follow(CleanValue(v), path) == [w] <==> Follow(v, path) == [w]
  {
    PositionsStay(v, path);
  }

  // ---------- The root ----------

  /** All other supported keywords of the root stay; the type is an object; nothing else is added. */
  lemma RootKeywords(schema: Json, key: string)
    requires key !in {"type", "properties", "required"}
    ensures Normalize(schema).Obj? && Normalize(schema).fields["type"] == Str("object")
    ensures key in Normalize(schema).fields <==>
            schema.Obj? && key in schema.fields && key !in COMBINATORS &&
            (NamesSchemas(key, schema.fields[key]) || key !in UNSUPPORTED)
    ensures key in Normalize(schema).fields && !NamesSchemas(key, schema.fields[key]) ==>
              Normalize(schema).fields[key] == CleanValue(schema.fields[key])
  {
    var source := Obj(FieldsOf(schema) - COMBINATORS);
    KeywordStays(source, key);
    hide CleanFields, CleanValue, AddProperties, AddCommon, AddRequired, AddNames, Branches, Declared, NamesSchemas;
    AssembleKeeps(CleanFields(source),
                  AddProperties(ObjectAt(CleanFields(source), "properties"), AllBranches(schema)),
                  Collected(schema), key);
    var properties := AddProperties(ObjectAt(CleanFields(source), "properties"), AllBranches(schema));
    assert Normalize(schema) == Assemble(CleanFields(source), properties, Collected(schema));
  }

  /** None of these keywords is left at the root, in whatever form it came. */
  lemma KeywordsGone(schema: Json, key: string)
    requires key in {"additionalProperties", "anyOf", "oneOf", "allOf", "not", "$schema", "$id", "$ref", "$defs",
                     "definitions", "if", "then", "else", "unevaluatedProperties", "unevaluatedItems",
                     "contentEncoding", "contentMediaType"}
    ensures Normalize(schema).Obj? && key !in Normalize(schema).fields
  {
    hide Normalize, UNSUPPORTED, COMBINATORS, CleanValue;
    NoPlainKeyword(key);
    RootKeywords(schema, key);
  }

  lemma NoPlainKeyword(key: string)
    requires key in {"additionalProperties", "anyOf", "oneOf", "allOf", "not", "$schema", "$id", "$ref", "$defs",
                     "definitions", "if", "then", "else", "unevaluatedProperties", "unevaluatedItems",
                     "contentEncoding", "contentMediaType"}
    ensures key in UNSUPPORTED && key !in {"type", "properties", "required", "patternProperties"}
  {
  }

  lemma AssembleKeeps(cleaned: map<string, Json>, properties: map<string, Json>, required: seq<string>, key: string)
    requires key !in {"type", "properties", "required"}
    ensures var n := Assemble(cleaned, properties, required);
            n.Obj? && "type" in n.fields && n.fields["type"] == Str("object") &&
            (key in n.fields <==> key in cleaned) && (key in cleaned ==> n.fields[key] == cleaned[key])
  {
    hide Declared;
    assert "type" != "properties" && "type" != "required";
  }

  // ---------- Which declaration of a property ----------

  /** A property the root does not declare has the form its first branch gives it: `allOf`, `oneOf`, `anyOf` in turn. */
  lemma FirstBranchWins(schema: Json, name: string, i: nat)
    requires name !in Properties(schema) && i < |AllBranches(schema)| && name in Properties(AllBranches(schema)[i])
    requires forall j :: 0 <= j < i ==> name !in Properties(AllBranches(schema)[j])
    ensures name in Properties(Normalize(schema))
    ensures Properties(Normalize(schema))[name] == Properties(AllBranches(schema)[i])[name]
  {
    Parts(schema);
    OwnNames(schema, name);
    hide CleanFields, AddProperties, Properties, Normalize, AllBranches, ObjectAt;
    FirstAdded(ObjectAt(CleanFields(Obj(FieldsOf(schema) - COMBINATORS)), "properties"), AllBranches(schema), name, i);
  }

  lemma OwnNames(schema: Json, name: string)
    ensures name in ObjectAt(CleanFields(Obj(FieldsOf(schema) - COMBINATORS)), "properties") <==>
            name in Properties(schema)
  {
    var source := Obj(FieldsOf(schema) - COMBINATORS);
    KeywordStays(source, "properties");
    assert "properties" !in COMBINATORS && "properties" !in UNSUPPORTED;
    hide CleanFields;
  }

  lemma {:induction false} FirstAdded(properties: map<string, Json>, branches: seq<Json>, name: string, i: nat)
    requires name !in properties && i < |branches| && name in Properties(branches[i])
    requires forall j :: 0 <= j < i ==> name !in Properties(branches[j])
    ensures name in AddProperties(properties, branches)
    ensures AddProperties(properties, branches)[name] == Properties(branches[i])[name]
    decreases |branches|
  {
    hide Properties;
    var more := Properties(branches[0]) + properties;
    if i == 0 {
      AddPropertiesKeeps(more, branches[1..], name);
    } else {
      assert branches[1..][i - 1] == branches[i];
      assert forall j :: 0 <= j < i - 1 ==> branches[1..][j] == branches[j + 1];
      FirstAdded(more, branches[1..], name, i - 1);
    }
  }
}
