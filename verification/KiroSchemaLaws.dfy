// What normalisation promises: it only relaxes `required`, keeps property names,
// leaves nothing unsupported behind, and has nothing left to do on its own output.
module KiroSchemaLaws {
  import opened OrderedMaps
  import opened KiroSchema

  // ---------- Name lists ----------

  lemma {:induction false} AddNamesDistinct(names: seq<string>, items: seq<Json>)
    requires NoDuplicates(names)
    ensures NoDuplicates(AddNames(names, items))
    decreases |items|
  {
    if items != [] {
      AddNamesDistinct(if items[0].Str? && items[0].s !in names then names + [items[0].s] else names, items[1..]);
    }
  }

  lemma {:induction false} AddAllDistinct(names: seq<string>, more: seq<string>)
    requires NoDuplicates(names)
    ensures NoDuplicates(AddAll(names, more))
    decreases |more|
  {
    if more != [] {
      AddAllDistinct(if more[0] in names then names else names + [more[0]], more[1..]);
    }
  }

  lemma {:induction false} DeclaredDistinct(names: seq<string>, properties: map<string, Json>)
    requires NoDuplicates(names)
    ensures NoDuplicates(Declared(names, properties))
  {
    if names != [] {
      assert forall n :: n in names[1..] ==> n != names[0];
      DeclaredDistinct(names[1..], properties);
    }
  }

  lemma {:induction false} DeclaredAll(names: seq<string>, properties: map<string, Json>)
    requires forall n :: n in names ==> n in properties
    ensures Declared(names, properties) == names
  {
    if names != [] {
      assert forall n :: n in names[1..] ==> n in names;
      DeclaredAll(names[1..], properties);
    }
  }

  // Writing distinct names as JSON and reading them back gives the same names.
  lemma {:induction false} NamesRoundTrip(before: seq<string>, names: seq<string>)
    requires NoDuplicates(before + names)
    ensures AddNames(before, Names(names)) == before + names
    decreases |names|
  {
    if names == [] {
      assert before + names == before;
    } else {
      var all := before + names;
      assert forall i :: 0 <= i < |before| ==> all[i] == before[i];
      assert all[|before|] == names[0];
      assert names[0] !in before;
      assert Names(names)[1..] == Names(names[1..]);
      assert before + [names[0]] + names[1..] == all;
      NamesRoundTrip(before + [names[0]], names[1..]);
    }
  }

  // ---------- The parts of a normalised schema ----------

  function OwnRequired(schema: Json): seq<string> {
    AddNames([], ArrayAt(CleanFields(Obj(FieldsOf(schema) - COMBINATORS)), "required"))
  }

  function AllBranches(schema: Json): seq<Json> {
    Branches(schema, "allOf") + Branches(schema, "oneOf") + Branches(schema, "anyOf")
  }

  function Collected(schema: Json): seq<string> {
    AddCommon(AddCommon(AddRequired(OwnRequired(schema), Branches(schema, "allOf")), Branches(schema, "oneOf")),
      Branches(schema, "anyOf"))
  }

  lemma {:induction false} AddRequiredIs(required: seq<string>, branches: seq<Json>)
    ensures forall n :: n in AddRequired(required, branches) <==>
              n in required || exists i :: 0 <= i < |branches| && n in Required(branches[i])
    ensures NoDuplicates(required) ==> NoDuplicates(AddRequired(required, branches))
    decreases |branches|
  {
    if branches != [] {
      var first := AddAll(required, Required(branches[0]));
      if NoDuplicates(required) {
        AddAllDistinct(required, Required(branches[0]));
      }
      AddRequiredIs(first, branches[1..]);
      forall n ensures n in AddRequired(required, branches) <==>
        n in required || exists i :: 0 <= i < |branches| && n in Required(branches[i]) {
        if exists i :: 0 <= i < |branches| && n in Required(branches[i]) {
          var i :| 0 <= i < |branches| && n in Required(branches[i]);
          assert i > 0 ==> branches[1..][i - 1] == branches[i];
        }
        if exists i :: 0 <= i < |branches[1..]| && n in Required(branches[1..][i]) {
          var i :| 0 <= i < |branches[1..]| && n in Required(branches[1..][i]);
          assert branches[i + 1] == branches[1..][i];
        }
      }
    }
  }

  lemma AddCommonIs(required: seq<string>, branches: seq<Json>)
    ensures forall n :: n in AddCommon(required, branches) <==>
              n in required || (branches != [] && forall i :: 0 <= i < |branches| ==> n in Required(branches[i]))
    ensures NoDuplicates(required) ==> NoDuplicates(AddCommon(required, branches))
  {
    if branches != [] && NoDuplicates(required) {
      AddAllDistinct(required, Common(Required(branches[0]), branches));
    }
  }

  lemma CollectedDistinct(schema: Json)
    ensures NoDuplicates(Collected(schema))
  {
    AddNamesDistinct([], ArrayAt(CleanFields(Obj(FieldsOf(schema) - COMBINATORS)), "required"));
    AddRequiredIs(OwnRequired(schema), Branches(schema, "allOf"));
    AddCommonIs(AddRequired(OwnRequired(schema), Branches(schema, "allOf")), Branches(schema, "oneOf"));
    AddCommonIs(AddCommon(AddRequired(OwnRequired(schema), Branches(schema, "allOf")), Branches(schema, "oneOf")),
      Branches(schema, "anyOf"));
  }

  lemma AssembledParts(cleaned: map<string, Json>, properties: map<string, Json>, required: seq<string>)
    ensures var n := Assemble(cleaned, properties, required);
            n.Obj? && "required" in n.fields && n.fields["required"] == Arr(Names(Declared(required, properties)))
    ensures var n := Assemble(cleaned, properties, required);
            n.Obj? && Properties(n) == properties && Required(n) == AddNames([], Names(Declared(required, properties)))
  {
    hide AddNames, Declared;
    assert "required" != "properties";
  }

  lemma Parts(schema: Json)
    ensures var n := Normalize(schema);
            && n.Obj?
            && Properties(n) ==
                 AddProperties(ObjectAt(CleanFields(Obj(FieldsOf(schema) - COMBINATORS)), "properties"),
                 AllBranches(schema))
            && Required(n) == Declared(Collected(schema), Properties(n))
            && NoDuplicates(Required(n))
            && "required" in n.fields && n.fields["required"] == Arr(Names(Required(n)))
  {
    hide CleanFields, AddProperties, Assemble, AddCommon, AddRequired, AddNames, Declared, NoDuplicates, Branches;
    hide Properties, Required;
    var cleaned := CleanFields(Obj(FieldsOf(schema) - COMBINATORS));
    var props := AddProperties(ObjectAt(cleaned, "properties"), AllBranches(schema));
    assert Normalize(schema) == Assemble(cleaned, props, Collected(schema));
    var d := Declared(Collected(schema), props);
    AssembledParts(cleaned, props, Collected(schema));
    CollectedDistinct(schema);
    DeclaredDistinct(Collected(schema), props);
    assert [] + d == d;
    NamesRoundTrip([], d);
  }

  // ---------- What is required ----------

  lemma OwnRequiredIs(schema: Json, n: string)
    ensures n in OwnRequired(schema) <==> Str(n) in ArrayAt(FieldsOf(schema), "required")
  {
    var v := Obj(FieldsOf(schema) - COMBINATORS);
    var before, after := ArrayAt(FieldsOf(schema), "required"), ArrayAt(CleanFields(v), "required");
    if "required" in v.fields {
      assert CleanFields(v)["required"] == CleanValue(v.fields["required"]);
      assert |after| == |before| && forall i :: 0 <= i < |before| ==> after[i] == CleanValue(before[i]);
      if Str(n) in before {
        var i :| 0 <= i < |before| && before[i] == Str(n);
        assert after[i] == Str(n);
      }
      if Str(n) in after {
        var i :| 0 <= i < |after| && after[i] == Str(n);
        assert before[i] == Str(n);
      }
    }
  }

  /** The names the source asks for, through its own list and its root combinators. */
  ghost predicate Demanded(schema: Json, n: string) {
    var all, one, any := Branches(schema, "allOf"), Branches(schema, "oneOf"), Branches(schema, "anyOf");
    || Str(n) in ArrayAt(FieldsOf(schema), "required")
    || (exists i :: 0 <= i < |all| && n in Required(all[i]))
    || (one != [] && forall i :: 0 <= i < |one| ==> n in Required(one[i]))
    || (any != [] && forall i :: 0 <= i < |any| ==> n in Required(any[i]))
  }

  /** A name is required afterwards exactly when it is demanded and declared. */
  lemma RequiredIff(schema: Json, n: string)
    ensures n in Required(Normalize(schema)) <==> n in Properties(Normalize(schema)) && Demanded(schema, n)
  {
    hide CleanFields, AddProperties, AddCommon, AddRequired, AddNames, Declared, NoDuplicates, Branches, Properties;
    hide Required, Normalize, OwnRequired, ArrayAt, FieldsOf;
    Parts(schema);
    OwnRequiredIs(schema, n);
    AddRequiredIs(OwnRequired(schema), Branches(schema, "allOf"));
    AddCommonIs(AddRequired(OwnRequired(schema), Branches(schema, "allOf")), Branches(schema, "oneOf"));
    AddCommonIs(AddCommon(AddRequired(OwnRequired(schema), Branches(schema, "allOf")), Branches(schema, "oneOf")),
      Branches(schema, "anyOf"));
  }

  /**
   * What a schema asks of the keys of an object: `required` (section 6.5.3 of JSON
   * Schema Validation 2020-12) and, through the combinators, the `required` of one
   * branch at least or of all (section 10.2.1 of JSON Schema Core 2020-12). That
   * other `oneOf` branches must fail says nothing of the keys: they may fail on a
   * value. An empty `anyOf` or `oneOf`, which the standard forbids, asks nothing.
   */
  ghost predicate Meets(schema: Json, keys: set<string>)
    decreases schema
  {
    match schema
    case Bool(b) => b
    case Obj(f) =>
      && (forall n :: Str(n) in ArrayAt(f, "required") ==> n in keys)
      && ("allOf" in f && f["allOf"].Arr? ==>
            forall i :: 0 <= i < |f["allOf"].items| ==> Meets(f["allOf"].items[i], keys))
      && ("anyOf" in f && f["anyOf"].Arr? && f["anyOf"].items != [] ==>
            exists i :: 0 <= i < |f["anyOf"].items| && Meets(f["anyOf"].items[i], keys))
      && ("oneOf" in f && f["oneOf"].Arr? && f["oneOf"].items != [] ==>
            exists i :: 0 <= i < |f["oneOf"].items| && Meets(f["oneOf"].items[i], keys))
    case _ => true
  }

  /** Normalisation only relaxes: keys that meet the source include every name required afterwards. */
  lemma {:induction false} RequiredSound(schema: Json, keys: set<string>, n: string)
    requires Meets(schema, keys) && n in Required(Normalize(schema))
    ensures n in keys
    decreases schema
  {
    RequiredIff(schema, n);
    hide Required, Normalize;
    if schema.Obj? && Str(n) !in ArrayAt(schema.fields, "required") {
      var f := schema.fields;
      var all, one, any := Branches(schema, "allOf"), Branches(schema, "oneOf"), Branches(schema, "anyOf");
      if exists i :: 0 <= i < |all| && n in Required(all[i]) {
        var i :| 0 <= i < |all| && n in Required(all[i]);
        RequiredSound(f["allOf"].items[i], keys, n);
      } else if one != [] && forall i :: 0 <= i < |one| ==> n in Required(one[i]) {
        var i :| 0 <= i < |f["oneOf"].items| && Meets(f["oneOf"].items[i], keys);
        assert one[i] == Normalize(f["oneOf"].items[i]);
        RequiredSound(f["oneOf"].items[i], keys, n);
      } else {
        var i :| 0 <= i < |f["anyOf"].items| && Meets(f["anyOf"].items[i], keys);
        assert any[i] == Normalize(f["anyOf"].items[i]);
        RequiredSound(f["anyOf"].items[i], keys, n);
      }
    }
  }

  /**
   * Full validity of an object with these keys. `rest` is the verdict of all other keywords of a schema on
   * the object at hand, whatever they are; of the `oneOf` branches exactly one accepts the object.
   */
  ghost predicate Accepts(schema: Json, keys: set<string>, rest: Json -> bool)
    decreases schema
  {
    match schema
    case Bool(b) => b
    case Obj(f) =>
      && rest(schema)
      && (forall n :: Str(n) in ArrayAt(f, "required") ==> n in keys)
      && ("allOf" in f && f["allOf"].Arr? ==>
            forall i :: 0 <= i < |f["allOf"].items| ==> Accepts(f["allOf"].items[i], keys, rest))
      && ("anyOf" in f && f["anyOf"].Arr? && f["anyOf"].items != [] ==>
            exists i :: 0 <= i < |f["anyOf"].items| && Accepts(f["anyOf"].items[i], keys, rest))
      && ("oneOf" in f && f["oneOf"].Arr? && f["oneOf"].items != [] ==>
            exists i :: 0 <= i < |f["oneOf"].items| && Accepts(f["oneOf"].items[i], keys, rest) &&
                        forall j :: 0 <= j < |f["oneOf"].items| && j != i ==>
                          !Accepts(f["oneOf"].items[j], keys, rest))
    case _ => true
  }

  lemma {:induction false} AcceptedMeets(schema: Json, keys: set<string>, rest: Json -> bool)
    requires Accepts(schema, keys, rest)
    ensures Meets(schema, keys)
    decreases schema
  {
    if schema.Obj? {
      var f := schema.fields;
      if "allOf" in f && f["allOf"].Arr? {
        forall i | 0 <= i < |f["allOf"].items| ensures Meets(f["allOf"].items[i], keys) {
          AcceptedMeets(f["allOf"].items[i], keys, rest);
        }
      }
      if "anyOf" in f && f["anyOf"].Arr? && f["anyOf"].items != [] {
        var i :| 0 <= i < |f["anyOf"].items| && Accepts(f["anyOf"].items[i], keys, rest);
        AcceptedMeets(f["anyOf"].items[i], keys, rest);
      }
      if "oneOf" in f && f["oneOf"].Arr? && f["oneOf"].items != [] {
        var i :| 0 <= i < |f["oneOf"].items| && Accepts(f["oneOf"].items[i], keys, rest);
        AcceptedMeets(f["oneOf"].items[i], keys, rest);
      }
    }
  }

  /** Every object the source schema accepts has every name required afterwards, whatever else the schema says. */
  lemma AcceptedHasRequired(schema: Json, keys: set<string>, rest: Json -> bool, n: string)
    requires Accepts(schema, keys, rest) && n in Required(Normalize(schema))
    ensures n in keys
  {
    AcceptedMeets(schema, keys, rest);
    RequiredSound(schema, keys, n);
  }

  // ---------- A discriminated union ----------

  /** A branch that requires the property `kind` and fixes its value. */
  function Branch(kind: string): Json {
    Obj(map["properties" := Obj(map["kind" := Obj(map["const" := Str(kind)])]), "required" := Arr([Str("kind")])])
  }

  function Union(): Json {
    Obj(map["oneOf" := Arr([Branch("a"), Branch("b")])])
  }

  /** What the branches say of an object whose `kind` is `value`. */
  function KindIs(value: string): Json -> bool {
    schema => schema == Union() || schema == Branch(value)
  }

  lemma BranchRequires(kind: string)
    ensures forall n :: n in Required(Normalize(Branch(kind))) <==> n == "kind"
    ensures "kind" in Properties(Normalize(Branch(kind)))
  {
    var schema := Branch(kind);
    NoBranches(kind);
    PropertySurvives(schema, "kind");
    hide Normalize, Properties, Branches, Required;
    forall n ensures n in Required(Normalize(schema)) <==> n == "kind" {
      RequiredIff(schema, n);
    }
  }

  lemma NoBranches(kind: string)
    ensures Branches(Branch(kind), "allOf") == [] && Branches(Branch(kind), "oneOf") == []
    ensures Branches(Branch(kind), "anyOf") == [] && "kind" in Properties(Branch(kind))
    ensures forall n :: Str(n) in ArrayAt(FieldsOf(Branch(kind)), "required") <==> n == "kind"
  {
  }

  lemma UnionBranches()
    ensures Branches(Union(), "allOf") == [] && Branches(Union(), "anyOf") == []
    ensures Branches(Union(), "oneOf") == [Normalize(Branch("a")), Normalize(Branch("b"))]
    ensures ArrayAt(FieldsOf(Union()), "required") == []
  {
    hide Normalize, Branch;
  }

  lemma UnionRequires()
    ensures forall n :: n in Required(Normalize(Union())) <==> n == "kind"
  {
    UnionBranches();
    BranchRequires("a");
    BranchRequires("b");
    hide Normalize, Properties, Branches, Required, Union, Branch;
    var one := Branches(Union(), "oneOf");
    assert one[0] == Normalize(Branch("a")) && one[1] == Normalize(Branch("b"));
    BranchPropertySurvives(Union(), one, 0, "kind");
    forall n ensures n in Required(Normalize(Union())) <==> n == "kind" {
      RequiredIff(Union(), n);
    }
  }

  lemma PlainAccepts(schema: Json, keys: set<string>, rest: Json -> bool)
    requires schema.Obj? && COMBINATORS !! schema.fields.Keys
    ensures Accepts(schema, keys, rest) <==>
            rest(schema) && forall n :: Str(n) in ArrayAt(schema.fields, "required") ==> n in keys
  {
    assert forall c :: c in COMBINATORS ==> c !in schema.fields;
  }

  lemma OneAccepts(schema: Json, i: nat, keys: set<string>, rest: Json -> bool)
    requires schema.Obj? && schema.fields.Keys == {"oneOf"} && schema.fields["oneOf"].Arr? && rest(schema)
    requires i < |schema.fields["oneOf"].items| && Accepts(schema.fields["oneOf"].items[i], keys, rest)
    requires forall j :: 0 <= j < |schema.fields["oneOf"].items| && j != i ==>
                         !Accepts(schema.fields["oneOf"].items[j], keys, rest)
    ensures Accepts(schema, keys, rest)
  {
    assert "required" !in schema.fields.Keys && "allOf" !in schema.fields.Keys && "anyOf" !in schema.fields.Keys;
  }

  lemma BranchAccepts(kind: string, value: string)
    ensures Accepts(Branch(kind), {"kind"}, KindIs(value)) <==> kind == value
  {
    BranchesDiffer(kind, value);
    PlainAccepts(Branch(kind), {"kind"}, KindIs(value));
    NoBranches(kind);
    hide Accepts, Branch, Union, Branches;
  }

  lemma BranchesDiffer(kind: string, value: string)
    ensures Branch(kind) == Branch(value) <==> kind == value
    ensures Branch(kind) != Union() && COMBINATORS !! Branch(kind).fields.Keys
  {
    assert Branch(kind).fields["properties"].fields["kind"].fields["const"] == Str(kind);
    assert Branch(value).fields["properties"].fields["kind"].fields["const"] == Str(value);
    assert "oneOf" in Union().fields && "oneOf" !in Branch(kind).fields;
  }

  /** Two branches ask for the same key: each object fits one only, by its value, and the key stays required. */
  lemma UnionKeepsItsTag(value: string)
    requires value in {"a", "b"}
    ensures Accepts(Union(), {"kind"}, KindIs(value))
    ensures forall n :: n in Required(Normalize(Union())) <==> n == "kind"
  {
    UnionRequires();
    BranchAccepts("a", value);
    BranchAccepts("b", value);
    hide Branch, Normalize, Required, Accepts;
    assert Union().fields["oneOf"].items == [Branch("a"), Branch("b")];
    OneAccepts(Union(), if value == "a" then 0 else 1, {"kind"}, KindIs(value));
  }

  // ---------- Properties survive ----------

  lemma {:induction false} AddPropertiesKeeps(properties: map<string, Json>, branches: seq<Json>, n: string)
    ensures n in properties ==>
              n in AddProperties(properties, branches) && AddProperties(properties, branches)[n] == properties[n]
    ensures n in AddProperties(properties, branches) <==>
              n in properties || exists i :: 0 <= i < |branches| && n in Properties(branches[i])
    decreases |branches|
  {
    hide Properties;
    if branches != [] {
      AddPropertiesKeeps(Properties(branches[0]) + properties, branches[1..], n);
      if exists i :: 0 <= i < |branches| && n in Properties(branches[i]) {
        var i :| 0 <= i < |branches| && n in Properties(branches[i]);
        assert i > 0 ==> branches[1..][i - 1] == branches[i];
      }
      if exists i :: 0 <= i < |branches[1..]| && n in Properties(branches[1..][i]) {
        var i :| 0 <= i < |branches[1..]| && n in Properties(branches[1..][i]);
        assert branches[i + 1] == branches[1..][i];
      }
    }
  }

  /** Every declared property stays, cleaned, even if it is called like an unsupported keyword. */
  lemma PropertySurvives(schema: Json, name: string)
    requires name in Properties(schema)
    ensures name in Properties(Normalize(schema)) &&
              Properties(Normalize(schema))[name] == CleanValue(Properties(schema)[name])
  {
    Parts(schema);
    var v := Obj(FieldsOf(schema) - COMBINATORS);
    assert "properties" in v.fields && v.fields["properties"].Obj?;
    OwnProperty(v, name);
    AddPropertiesKeeps(ObjectAt(CleanFields(v), "properties"), AllBranches(schema), name);
  }

  lemma OwnProperty(v: Json, name: string)
    requires v.Obj? && "properties" in v.fields && v.fields["properties"].Obj? && name in v.fields["properties"].fields
    ensures name in ObjectAt(CleanFields(v), "properties")
    ensures ObjectAt(CleanFields(v), "properties")[name] == CleanValue(v.fields["properties"].fields[name])
  {
    var child := v.fields["properties"];
    assert NamesSchemas("properties", child);
    assert "properties" in CleanFields(v);
  }

  /** A property a root branch declares is kept too, whatever the branch. */
  lemma BranchPropertySurvives(schema: Json, branches: seq<Json>, i: nat, name: string)
    requires branches in {Branches(schema, "allOf"), Branches(schema, "oneOf"), Branches(schema, "anyOf")}
    requires i < |branches| && name in Properties(branches[i])
    ensures name in Properties(Normalize(schema))
  {
    Parts(schema);
    hide CleanFields, AddProperties, Properties, Required, Normalize, ObjectAt, FieldsOf;
    var k := BranchIndex(Branches(schema, "allOf"), Branches(schema, "oneOf"), Branches(schema, "anyOf"), branches, i);
    AddPropertiesKeeps(ObjectAt(CleanFields(Obj(FieldsOf(schema) - COMBINATORS)), "properties"), AllBranches(schema),
      name);
  }

  // Where a branch sits in the order in which the combinators are folded.
  lemma BranchIndex(all: seq<Json>, one: seq<Json>, any: seq<Json>, branches: seq<Json>, i: nat) returns (k: nat)
    requires branches in {all, one, any} && i < |branches|
    ensures k < |all + one + any| && (all + one + any)[k] == branches[i]
  {
    k := if branches == all then i else if branches == one then |all| + i else |all| + |one| + i;
  }

  // ---------- Nothing unsupported survives ----------

  /** No unsupported keyword in schema position; property names are free. */
  predicate Supported(v: Json)
    decreases v
  {
    match v
    case Arr(items) => forall i :: 0 <= i < |items| ==> Supported(items[i])
    case Obj(f) =>
      forall key :: key in f ==>
        if NamesSchemas(key, f[key]) then forall name :: name in f[key].fields ==> Supported(f[key].fields[name])
        else key !in UNSUPPORTED && Supported(f[key])
    case _ => true
  }

  lemma {:induction false} CleanSupported(v: Json)
    ensures Supported(CleanValue(v))
    ensures v.Obj? <==> CleanValue(v).Obj?
    decreases v
  {
    match v
    case Arr(items) =>
      forall i | 0 <= i < |items| ensures Supported(CleanValue(items[i])) {
        CleanSupported(items[i]);
      }
    case Obj(f) =>
      forall key | key in CleanFields(v)
        ensures var c := CleanFields(v)[key];
                if NamesSchemas(key, c) then forall name :: name in c.fields ==> Supported(c.fields[name])
                else key !in UNSUPPORTED && Supported(c)
      {
        if NamesSchemas(key, f[key]) {
          forall name | name in f[key].fields ensures Supported(CleanValue(f[key].fields[name])) {
            CleanSupported(f[key].fields[name]);
          }
        } else {
          CleanSupported(f[key]);
        }
      }
    case _ =>
  }

  lemma {:induction false} CleanIdentity(v: Json)
    requires Supported(v)
    ensures CleanValue(v) == v
    decreases v
  {
    match v
    case Arr(items) =>
      forall i | 0 <= i < |items| ensures CleanValue(items[i]) == items[i] {
        CleanIdentity(items[i]);
      }
      assert CleanValue(v).items == items;
    case Obj(f) =>
      forall key | key in f ensures key in CleanFields(v) && CleanFields(v)[key] == f[key] {
        if NamesSchemas(key, f[key]) {
          forall name | name in f[key].fields ensures CleanValue(f[key].fields[name]) == f[key].fields[name] {
            CleanIdentity(f[key].fields[name]);
          }
          assert CleanFields(v)[key].fields == f[key].fields;
        } else {
          CleanIdentity(f[key]);
        }
      }
      assert CleanFields(v) == f;
    case _ =>
  }

  ghost predicate SupportedMap(m: map<string, Json>) {
    forall n :: n in m ==> Supported(m[n])
  }

  lemma {:induction false} AddPropertiesSupported(properties: map<string, Json>, branches: seq<Json>)
    requires SupportedMap(properties) && forall i :: 0 <= i < |branches| ==> SupportedMap(Properties(branches[i]))
    ensures SupportedMap(AddProperties(properties, branches))
    decreases |branches|
  {
    if branches != [] {
      assert SupportedMap(Properties(branches[0]));
      forall i | 0 <= i < |branches[1..]| ensures SupportedMap(Properties(branches[1..][i])) {
        assert branches[1..][i] == branches[i + 1];
      }
      AddPropertiesSupported(Properties(branches[0]) + properties, branches[1..]);
    }
  }

  lemma SupportedProperties(schema: Json)
    requires Supported(schema)
    ensures SupportedMap(Properties(schema))
  {
    if schema.Obj? && "properties" in schema.fields && schema.fields["properties"].Obj? {
      assert NamesSchemas("properties", schema.fields["properties"]);
    }
  }

  lemma SupportedKeywords()
    ensures "type" !in UNSUPPORTED && "required" !in UNSUPPORTED
  {
  }

  lemma AssembledSupported(cleaned: map<string, Json>, properties: map<string, Json>, required: seq<string>)
    requires Supported(Obj(cleaned)) && SupportedMap(properties)
    ensures Supported(Assemble(cleaned, properties, required))
  {
    hide Declared;
    var f := Assemble(cleaned, properties, required).fields;
    SupportedKeywords();
    assert NamesSchemas("properties", f["properties"]);
    forall key | key in f
      ensures if NamesSchemas(key, f[key]) then forall name :: name in f[key].fields ==> Supported(f[key].fields[name])
              else key !in UNSUPPORTED && Supported(f[key])
    {
      if key != "type" && key != "properties" && key != "required" {
        assert f[key] == cleaned[key];
      }
    }
  }

  /** The result uses supported keywords only, at every depth. */
  lemma {:induction false} NormalizedSupported(schema: Json)
    ensures Supported(Normalize(schema))
    decreases schema, 2
  {
    hide CleanFields, AddProperties, Assemble, AddCommon, AddRequired, AddNames, Declared, Properties, Supported;
    var v := Obj(FieldsOf(schema) - COMBINATORS);
    var cleaned := CleanFields(v);
    CleanSupported(v);
    assert CleanValue(v) == Obj(cleaned);
    OwnSupported(cleaned);
    AllBranchesSupported(schema);
    AddPropertiesSupported(ObjectAt(cleaned, "properties"), AllBranches(schema));
    AssembledSupported(cleaned, AddProperties(ObjectAt(cleaned, "properties"), AllBranches(schema)), Collected(schema));
  }

  lemma OwnSupported(cleaned: map<string, Json>)
    requires Supported(Obj(cleaned))
    ensures SupportedMap(ObjectAt(cleaned, "properties"))
  {
    SupportedProperties(Obj(cleaned));
  }

  lemma {:induction false} AllBranchesSupported(schema: Json)
    ensures forall i :: 0 <= i < |AllBranches(schema)| ==> SupportedMap(Properties(AllBranches(schema)[i]))
    decreases schema, 1
  {
    BranchesSupported(schema, "allOf");
    BranchesSupported(schema, "oneOf");
    BranchesSupported(schema, "anyOf");
  }

  lemma {:induction false} BranchesSupported(schema: Json, keyword: string)
    ensures forall i :: 0 <= i < |Branches(schema, keyword)| ==> SupportedMap(Properties(Branches(schema, keyword)[i]))
    decreases schema, 0
  {
    if schema.Obj? && keyword in schema.fields && schema.fields[keyword].Arr? {
      var items := schema.fields[keyword].items;
      forall i | 0 <= i < |items| ensures SupportedMap(Properties(Normalize(items[i]))) {
        NormalizedSupported(items[i]);
        SupportedProperties(Normalize(items[i]));
      }
    }
  }

  // ---------- Idempotence ----------

  lemma NoCombinators(f: map<string, Json>)
    requires Supported(Obj(f))
    ensures f - COMBINATORS == f
    ensures Branches(Obj(f), "allOf") == Branches(Obj(f), "oneOf") == Branches(Obj(f), "anyOf") == []
  {
    assert forall key :: key in COMBINATORS ==> key in UNSUPPORTED;
    forall key | key in COMBINATORS ensures key !in f {
      assert key != "properties" && key != "patternProperties";
    }
    assert "allOf" in COMBINATORS && "oneOf" in COMBINATORS && "anyOf" in COMBINATORS;
  }

  /** A schema already in the supported form is left alone. */
  lemma NormalizeFixpoint(f: map<string, Json>)
    requires Supported(Obj(f))
    requires "type" in f && f["type"] == Str("object")
    requires "properties" in f && f["properties"].Obj?
    requires "required" in f && exists names :: NoDuplicates(names) && f["required"] == Arr(Names(names)) &&
                                                forall n :: n in names ==> n in f["properties"].fields
    ensures Normalize(Obj(f)) == Obj(f)
  {
    var names :| NoDuplicates(names) && f["required"] == Arr(Names(names)) && forall n :: n in names ==>
      n in f["properties"].fields;
    NoCombinators(f);
    CleanIdentity(Obj(f));
    hide Supported, Branches;
    var schema := Obj(f);
    assert CleanFields(Obj(FieldsOf(schema) - COMBINATORS)) == f;
    hide CleanFields, CleanValue;
    OwnNames(f, names);
    assert Normalize(schema) == Assemble(f, f["properties"].fields, names);
    AssembleSame(f, names);
  }

  lemma OwnNames(f: map<string, Json>, names: seq<string>)
    requires "required" in f && f["required"] == Arr(Names(names)) && NoDuplicates(names)
    ensures AddNames([], ArrayAt(f, "required")) == names
  {
    assert [] + names == names;
    NamesRoundTrip([], names);
  }

  lemma AssembleSame(f: map<string, Json>, names: seq<string>)
    requires "type" in f && f["type"] == Str("object")
    requires "properties" in f && f["properties"].Obj?
    requires "required" in f && f["required"] == Arr(Names(names)) && forall n :: n in names ==>
               n in f["properties"].fields
    ensures Assemble(f, f["properties"].fields, names) == Obj(f)
  {
    DeclaredAll(names, f["properties"].fields);
  }

  /** Normalising twice is normalising once. */
  lemma Idempotent(schema: Json)
    ensures Normalize(Normalize(schema)) == Normalize(schema)
  {
    NormalizedSupported(schema);
    CollectedDistinct(schema);
    hide CleanFields, AddProperties, AddCommon, AddRequired, AddNames, Supported;
    var props := AddProperties(ObjectAt(CleanFields(Obj(FieldsOf(schema) - COMBINATORS)), "properties"),
      AllBranches(schema));
    var names := Declared(Collected(schema), props);
    DeclaredDistinct(Collected(schema), props);
    var f := Normalize(schema).fields;
    assert Normalize(schema) == Assemble(CleanFields(Obj(FieldsOf(schema) - COMBINATORS)), props, Collected(schema));
    assert f["type"] == Str("object") && f["properties"] == Obj(props) && f["required"] == Arr(Names(names));
    NormalizeFixpoint(f);
  }
}
