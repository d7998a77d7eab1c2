// The loops of normalizeKiroToolSchema, proved to compute the specification.
module KiroNormalizer {
  import opened KiroSchema

  function Keep(names: seq<string>, allowed: seq<string>): seq<string> {
    if names == [] then [] else (if names[0] in allowed then [names[0]] else []) + Keep(names[1..], allowed)
  }

  lemma {:induction false} KeepSnoc(names: seq<string>, n: string, allowed: seq<string>)
    ensures Keep(names + [n], allowed) == Keep(names, allowed) + if n in allowed then [n] else []
  {
    if names == [] {
      assert [n][1..] == [];
    } else {
      assert (names + [n])[1..] == names[1..] + [n];
      KeepSnoc(names[1..], n, allowed);
    }
  }

  // Intersecting with one more branch.
  lemma {:induction false} CommonSnoc(names: seq<string>, branches: seq<Json>, b: Json)
    ensures Common(names, branches + [b]) == Keep(Common(names, branches), Required(b))
  {
    hide Required;
    if names != [] {
      CommonSnoc(names[1..], branches, b);
      var n := names[0];
      var rest := Common(names[1..], branches);
      assert (branches + [b])[|branches|] == b && forall i :: 0 <= i < |branches| ==>
               (branches + [b])[i] == branches[i];
      if forall i :: 0 <= i < |branches| ==> n in Required(branches[i]) {
        assert ([n] + rest)[1..] == rest;
      } else {
        assert [] + rest == rest;
      }
    }
  }

  lemma {:induction false} CommonOfNone(names: seq<string>)
    ensures Common(names, []) == names
  {
    if names != [] {
      CommonOfNone(names[1..]);
    }
  }

  lemma {:induction false} KeepAll(names: seq<string>, allowed: seq<string>)
    requires forall n :: n in names ==> n in allowed
    ensures Keep(names, allowed) == names
  {
    if names != [] {
      assert forall n :: n in names[1..] ==> n in names;
      KeepAll(names[1..], allowed);
    }
  }

  lemma CommonOfFirst(branches: seq<Json>)
    requires branches != []
    ensures Common(Required(branches[0]), branches[..1]) == Required(branches[0])
  {
    var first := Required(branches[0]);
    assert branches[..1] == [] + [branches[0]];
    CommonSnoc(first, [], branches[0]);
    CommonOfNone(first);
    KeepAll(first, first);
  }

  method DropOthers(names: seq<string>, allowed: seq<string>) returns (kept: seq<string>)
    ensures kept == Keep(names, allowed)
  {
    kept := [];
    for j := 0 to |names|
      invariant kept == Keep(names[..j], allowed)
    {
      assert names[..j + 1] == names[..j] + [names[j]];
      KeepSnoc(names[..j], names[j], allowed);
      if names[j] in allowed {
        kept := kept + [names[j]];
      }
    }
    assert names[..|names|] == names;
  }

  /** Starts from the first branch's names and drops those another branch does not require. */
  method IntersectRequired(branches: seq<Json>) returns (common: seq<string>)
    requires branches != []
    ensures common == Common(Required(branches[0]), branches)
  {
    hide Required, Common, Keep;
    common := Required(branches[0]);
    CommonOfFirst(branches);
    for i := 1 to |branches|
      invariant common == Common(Required(branches[0]), branches[..i])
    {
      assert branches[..i + 1] == branches[..i] + [branches[i]];
      CommonSnoc(Required(branches[0]), branches[..i], branches[i]);
      common := DropOthers(common, Required(branches[i]));
    }
    assert branches[..|branches|] == branches;
  }

  lemma {:induction false} AddPropertiesAppend(properties: map<string, Json>, a: seq<Json>, b: seq<Json>)
    ensures AddProperties(properties, a + b) == AddProperties(AddProperties(properties, a), b)
    decreases |a|
  {
    hide Properties;
    if a == [] {
      assert a + b == b;
    } else {
      assert (a + b)[0] == a[0] && (a + b)[1..] == a[1..] + b;
      AddPropertiesAppend(Properties(a[0]) + properties, a[1..], b);
    }
  }

  /** Own properties win over branch properties, earlier branches over later ones. */
  method MergeProperties(start: map<string, Json>, branches: seq<Json>) returns (properties: map<string, Json>)
    ensures properties == AddProperties(start, branches)
  {
    properties := start;
    for i := 0 to |branches|
      invariant AddProperties(properties, branches[i..]) == AddProperties(start, branches)
    {
      assert branches[i..][0] == branches[i] && branches[i..][1..] == branches[i + 1..];
      properties := Properties(branches[i]) + properties;
    }
  }

  method RequireAll(start: seq<string>, branches: seq<Json>) returns (required: seq<string>)
    ensures required == AddRequired(start, branches)
  {
    required := start;
    for i := 0 to |branches|
      invariant AddRequired(required, branches[i..]) == AddRequired(start, branches)
    {
      assert branches[i..][0] == branches[i] && branches[i..][1..] == branches[i + 1..];
      required := AddAll(required, Required(branches[i]));
    }
  }

  method NormalizeBranches(schema: Json, keyword: string) returns (branches: seq<Json>)
    ensures branches == Branches(schema, keyword)
    decreases schema, 0
  {
    branches := [];
    hide Normalize;
    if schema.Obj? && keyword in schema.fields && schema.fields[keyword].Arr? {
      var items := schema.fields[keyword].items;
      for i := 0 to |items|
        invariant |branches| == i && forall j :: 0 <= j < i ==> branches[j] == Normalize(items[j])
      {
        var branch := NormalizeKiroToolSchema(items[i]);
        branches := branches + [branch];
      }
    }
  }

  method NormalizeKiroToolSchema(schema: Json) returns (r: Json)
    ensures r == Normalize(schema)
    decreases schema, 1
  {
    hide CleanFields, AddProperties, AddRequired, Common, AddNames, AddAll, Declared, Branches, Required, Properties;
    var cleaned := CleanFields(Obj(FieldsOf(schema) - COMBINATORS));
    ghost var own := ObjectAt(cleaned, "properties");
    var required := AddNames([], ArrayAt(cleaned, "required"));
    var all := NormalizeBranches(schema, "allOf");
    var properties := MergeProperties(ObjectAt(cleaned, "properties"), all);
    required := RequireAll(required, all);
    var one := NormalizeBranches(schema, "oneOf");
    AddPropertiesAppend(own, all, one);
    properties := MergeProperties(properties, one);
    if one != [] {
      var common := IntersectRequired(one);
      required := AddAll(required, common);
    }
    var any := NormalizeBranches(schema, "anyOf");
    AddPropertiesAppend(own, all + one, any);
    properties := MergeProperties(properties, any);
    if any != [] {
      var common := IntersectRequired(any);
      required := AddAll(required, common);
    }
    r := Assemble(cleaned, properties, required);
  }
}
