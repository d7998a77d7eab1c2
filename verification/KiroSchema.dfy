// normalizeKiroToolSchema: a JSON Schema rewritten into the subset Kiro accepts,
// with the root combinators folded into `properties` and `required`.
module KiroSchema {
  datatype Json =
    | Null
    | Bool(b: bool)
    | Num(n: int)
    | Str(s: string)
    | Arr(items: seq<Json>)
    | Obj(fields: map<string, Json>)

  const UNSUPPORTED: set<string> := {
    "additionalProperties", "anyOf", "oneOf", "allOf", "not", "$schema", "$id", "$ref", "$defs", "definitions",
    "if", "then", "else", "unevaluatedProperties", "unevaluatedItems", "contentEncoding", "contentMediaType"
  }

  const COMBINATORS: set<string> := {"allOf", "oneOf", "anyOf"}

  /** A key whose object value maps names to schemas, so that its own keys are not keywords. */
  predicate NamesSchemas(key: string, child: Json) {
    (key == "properties" || key == "patternProperties") && child.Obj?
  }

  /** Removes unsupported keywords everywhere in schema position. */
  function CleanValue(v: Json): Json
    decreases v, 1
  {
    match v
    case Arr(items) => Arr(seq(|items|, i requires 0 <= i < |items| => CleanValue(items[i])))
    case Obj(_) => Obj(CleanFields(v))
    case _ => v
  }

  function CleanFields(v: Json): map<string, Json>
    requires v.Obj?
    decreases v, 0
  {
    map key | key in v.fields && (NamesSchemas(key, v.fields[key]) || key !in UNSUPPORTED) ::
      if NamesSchemas(key, v.fields[key]) then
          Obj(map name | name in v.fields[key].fields :: CleanValue(v.fields[key].fields[name]))
      else CleanValue(v.fields[key])
  }

  // ---------- Reading a schema ----------

  function FieldsOf(schema: Json): map<string, Json> {
    if schema.Obj? then schema.fields else map[]
  }

  function ArrayAt(fields: map<string, Json>, key: string): seq<Json> {
    if key in fields && fields[key].Arr? then fields[key].items else []
  }

  function ObjectAt(fields: map<string, Json>, key: string): map<string, Json> {
    if key in fields && fields[key].Obj? then fields[key].fields else map[]
  }

  /** The names in an array, each once, in order of first occurrence. */
  function AddNames(names: seq<string>, items: seq<Json>): (r: seq<string>)
    ensures forall n :: n in r <==> n in names || Str(n) in items
    decreases |items|
  {
    if items == [] then names
    else AddNames(if items[0].Str? && items[0].s !in names then names + [items[0].s] else names, items[1..])
  }

  function Properties(schema: Json): map<string, Json> {
    ObjectAt(FieldsOf(schema), "properties")
  }

  function Required(schema: Json): seq<string> {
    AddNames([], ArrayAt(FieldsOf(schema), "required"))
  }

  function AddAll(names: seq<string>, more: seq<string>): (r: seq<string>)
    ensures forall n :: n in r <==> n in names || n in more
    decreases |more|
  {
    if more == [] then names
    else AddAll(if more[0] in names then names else names + [more[0]], more[1..])
  }

  // ---------- Normalisation ----------

  /** The normalised schemas of one root combinator; none if it is not an array. */
  function Branches(schema: Json, keyword: string): (r: seq<Json>)
    ensures |r| == |ArrayAt(FieldsOf(schema), keyword)|
    ensures forall i :: 0 <= i < |r| ==> r[i] == Normalize(ArrayAt(FieldsOf(schema), keyword)[i])
    decreases schema, 0
  {
    if schema.Obj? && keyword in schema.fields && schema.fields[keyword].Arr? then
      seq(|schema.fields[keyword].items|, i requires 0 <= i < |schema.fields[keyword].items| =>
        Normalize(schema.fields[keyword].items[i]))
    else []
  }

  /** The properties of the branches that no earlier place declares. */
  function AddProperties(properties: map<string, Json>, branches: seq<Json>): map<string, Json>
    decreases |branches|
  {
    if branches == [] then properties
    else AddProperties(Properties(branches[0]) + properties, branches[1..])
  }

  function AddRequired(required: seq<string>, branches: seq<Json>): seq<string>
    decreases |branches|
  {
    if branches == [] then required else AddRequired(AddAll(required, Required(branches[0])), branches[1..])
  }

  /** The names that every branch requires. */
  function Common(names: seq<string>, branches: seq<Json>): (r: seq<string>)
    ensures forall n :: n in r <==> n in names && forall i :: 0 <= i < |branches| ==> n in Required(branches[i])
    decreases |names|
  {
    if names == [] then []
    else (if forall i :: 0 <= i < |branches| ==>
      names[0] in Required(branches[i]) then [names[0]] else []) + Common(names[1..], branches)
  }

  function AddCommon(required: seq<string>, branches: seq<Json>): seq<string> {
    if branches == [] then required else AddAll(required, Common(Required(branches[0]), branches))
  }

  function Declared(names: seq<string>, properties: map<string, Json>): (r: seq<string>)
    ensures forall n :: n in r <==> n in names && n in properties
  {
    if names == [] then []
    else (if names[0] in properties then [names[0]] else []) + Declared(names[1..], properties)
  }

  function Names(names: seq<string>): seq<Json> {
    seq(|names|, i requires 0 <= i < |names| => Str(names[i]))
  }

  function Assemble(cleaned: map<string, Json>, properties: map<string, Json>, required: seq<string>): Json {
    var kept := Arr(Names(Declared(required, properties)));
    Obj(cleaned["type" := Str("object")]["properties" := Obj(properties)]["required" := kept])
  }

  function Normalize(schema: Json): Json
    decreases schema, 1
  {
    var cleaned := CleanFields(Obj(FieldsOf(schema) - COMBINATORS));
    var all, one, any := Branches(schema, "allOf"), Branches(schema, "oneOf"), Branches(schema, "anyOf");
    Assemble(cleaned,
             AddProperties(ObjectAt(cleaned, "properties"), all + one + any),
             AddCommon(AddCommon(AddRequired(AddNames([], ArrayAt(cleaned, "required")), all), one), any))
  }
}
