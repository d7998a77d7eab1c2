// Renaming client tools on the way out, and the map that undoes it on the way back.
module AntigravityCloak {
  import opened AntigravityTools

  const DECOY_NAMES := NATIVE_NAMES[..7] + [EXTRA_DECOY] + NATIVE_NAMES[7..]
  const DECOY_BODY := "This tool is currently unavailable."

  function Decoys(): (decoys: seq<Decl>)
    ensures forall n :: HasName(decoys, n) <==> Decoyed(n)
  {
    var decoys := seq(|DECOY_NAMES|, i requires 0 <= i < |DECOY_NAMES| => Decl(DECOY_NAMES[i], DECOY_BODY));
    assert forall n :: HasName(decoys, n) <==> Decoyed(n) by {
      DecoyNames(decoys);
    }
    decoys
  }

  lemma DecoyNames(decoys: seq<Decl>)
    requires |decoys| == |DECOY_NAMES| && forall i :: 0 <= i < |decoys| ==> decoys[i].name == DECOY_NAMES[i]
    ensures forall n :: HasName(decoys, n) <==> Decoyed(n)
  {
    hide NATIVE_NAMES, EXTRA_DECOY;
    forall n ensures HasName(decoys, n) <==> Decoyed(n) {
      NamesCover(n);
      if n in DECOY_NAMES {
        var i :| 0 <= i < |DECOY_NAMES| && DECOY_NAMES[i] == n;
        assert decoys[i] in decoys;
      }
      if HasName(decoys, n) {
        var d :| d in decoys && d.name == n;
        assert n in DECOY_NAMES;
      }
    }
  }

  lemma NamesCover(n: string)
    ensures n in DECOY_NAMES <==> Decoyed(n)
  {
    var a, b := NATIVE_NAMES[..7], NATIVE_NAMES[7..];
    assert NATIVE_NAMES == a + b;
    assert n in a + b <==> n in a || n in b;
  }

  function Suffixed(name: string): string {
    name + TOOL_SUFFIX
  }

  lemma SuffixInjective(a: string, b: string)
    requires Suffixed(a) == Suffixed(b)
    ensures a == b
  {
    assert Suffixed(a)[..|a|] == a && Suffixed(b)[..|b|] == b;
  }

  // No name of the provider's own could be mistaken for a renamed one.
  predicate EndsLikeSuffix(name: string) {
    |name| >= 4 && name[|name| - 4] == '_' && name[|name| - 1] == 'e'
  }

  lemma NativeNotSuffixed(name: string)
    ensures !Decoyed(Suffixed(name))
  {
    assert EndsLikeSuffix(Suffixed(name));
    NoNameEndsLikeSuffix();
  }

  lemma NoNameEndsLikeSuffix()
    ensures forall n :: Decoyed(n) ==> !EndsLikeSuffix(n)
  {
    assert forall i :: 0 <= i < |NATIVE_NAMES| ==> !EndsLikeSuffix(NATIVE_NAMES[i]);
    assert !EndsLikeSuffix(EXTRA_DECOY);
  }

  /** GitHub Copilot's own declarations of decoyed names are dropped. */
  predicate Skipped(name: string, copilot: bool) {
    copilot && Decoyed(name)
  }

  predicate Renamed(name: string, copilot: bool) {
    !Skipped(name, copilot) && !Native(name)
  }

  function ClientDeclarations(client: seq<Decl>, copilot: bool): seq<Decl> {
    if client == [] then []
    else Translated(client[0], copilot) + ClientDeclarations(client[1..], copilot)
  }

  function Translated(d: Decl, copilot: bool): seq<Decl> {
    if Skipped(d.name, copilot) then []
    else if Native(d.name) then [d]
    else [Decl(Suffixed(d.name), d.body)]
  }

  lemma {:induction false} ClientSnoc(client: seq<Decl>, d: Decl, copilot: bool)
    ensures ClientDeclarations(client + [d], copilot) == ClientDeclarations(client, copilot) + Translated(d, copilot)
  {
    if client == [] {
      assert [d][1..] == [];
      assert client + [d] == [d];
    } else {
      assert (client + [d])[1..] == client[1..] + [d];
      ClientSnoc(client[1..], d, copilot);
    }
  }

  /** The client tools that are declared: all of them, but for Copilot those the decoys cover. */
  function Declared(client: seq<Decl>, copilot: bool): seq<Decl> {
    if client == [] then []
    else
      var last := client[|client| - 1];
      Declared(client[..|client| - 1], copilot) +
      if copilot && (last.name in NATIVE_NAMES || last.name == EXTRA_DECOY) then [] else [last]
  }

  /** They are declared in their order, native ones as they are, others with the suffix and nothing else changed. */
  lemma {:induction false} DeclarationsMeaning(client: seq<Decl>, copilot: bool)
    ensures var made, from := ClientDeclarations(client, copilot), Declared(client, copilot);
            |made| == |from| && forall i :: 0 <= i < |made| ==>
              made[i].body == from[i].body &&
              made[i].name == if from[i].name in NATIVE_NAMES then from[i].name else from[i].name + "_ide"
  {
    hide NATIVE_NAMES, EXTRA_DECOY;
    if client != [] {
      var n := |client| - 1;
      assert client == client[..n] + [client[n]];
      DeclarationsMeaning(client[..n], copilot);
      ClientSnoc(client[..n], client[n], copilot);
    }
  }

  /** The map knows exactly the renamed names, and each leads back to its client's name. */
  ghost predicate MapsBack(client: seq<Decl>, copilot: bool, nameMap: map<string, string>) {
    && (forall k :: k in nameMap ==>
         Suffixed(nameMap[k]) == k && Renamed(nameMap[k], copilot) && HasName(client, nameMap[k]))
    && (forall n :: HasName(client, n) && Renamed(n, copilot) ==> Suffixed(n) in nameMap)
  }

  lemma MapsBackGrows(client: seq<Decl>, copilot: bool, nameMap: map<string, string>, d: Decl)
    requires MapsBack(client, copilot, nameMap)
    ensures MapsBack(client + [d], copilot, if Renamed(d.name, copilot) then nameMap[Suffixed(d.name) := d.name]
              else nameMap)
  {
    HasNameSnoc(client, d);
    hide Renamed, HasName, Suffixed;
  }

  method CloakTools(client: seq<Decl>, copilot: bool) returns (decls: seq<Decl>, nameMap: map<string, string>)
    ensures FirstByName(ClientDeclarations(client, copilot) + Decoys(), decls)
    ensures MapsBack(client, copilot, nameMap)
  {
    hide Decoys, Native, Decoyed, Suffixed, FirstByName, NATIVE_NAMES;
    var renamed: seq<Decl> := [];
    nameMap := map[];
    for k := 0 to |client|
      invariant renamed == ClientDeclarations(client[..k], copilot)
      invariant MapsBack(client[..k], copilot, nameMap)
    {
      var func := client[k];
      assert client[..k + 1] == client[..k] + [func];
      ClientSnoc(client[..k], func, copilot);
      MapsBackGrows(client[..k], copilot, nameMap, func);
      hide ClientDeclarations, MapsBack;
      if Skipped(func.name, copilot) {
        continue;
      }
      if Native(func.name) {
        renamed := renamed + [func];
        continue;
      }
      nameMap := nameMap[Suffixed(func.name) := func.name];
      renamed := renamed + [Decl(Suffixed(func.name), func.body)];
    }
    assert client[..|client|] == client;
    decls := DropRepeats(renamed + Decoys());
  }

  /** How a tool name in the conversation history is rewritten. */
  function CloakName(name: string): string {
    if Native(name) then name else Suffixed(name)
  }

  function Uncloak(nameMap: map<string, string>, name: string): string {
    if name in nameMap then nameMap[name] else name
  }

  /** The map undoes a name's rewriting exactly for native names and for those the client's declarations renamed. */
  lemma UncloakIff(client: seq<Decl>, copilot: bool, nameMap: map<string, string>, name: string)
    requires MapsBack(client, copilot, nameMap)
    ensures Uncloak(nameMap, CloakName(name)) == name <==>
              Native(name) || (HasName(client, name) && Renamed(name, copilot))
  {
    var cloaked := CloakName(name);
    if Native(name) {
      if name in nameMap {
        NativeNotSuffixed(nameMap[name]);
      }
    } else {
      assert |cloaked| == |name| + 4;
      if cloaked in nameMap {
        SuffixInjective(nameMap[cloaked], name);
      }
    }
  }

  lemma {:induction false} ClientNames(client: seq<Decl>, copilot: bool, name: string)
    ensures HasName(ClientDeclarations(client, copilot), Suffixed(name)) <==>
              HasName(client, name) && Renamed(name, copilot)
  {
    hide Decoyed;
    if client != [] {
      var head, rest := Translated(client[0], copilot), ClientDeclarations(client[1..], copilot);
      ClientNames(client[1..], copilot, name);
      NativeNotSuffixed(name);
      HasNameAppend(head, rest, Suffixed(name));
      HasNameAppend([client[0]], client[1..], name);
      assert client == [client[0]] + client[1..];
      HeadName(client[0], copilot, name);
    }
  }

  lemma HeadName(d: Decl, copilot: bool, name: string)
    ensures HasName(Translated(d, copilot), Suffixed(name)) <==> d.name == name && Renamed(name, copilot)
    ensures HasName([d], name) <==> d.name == name
  {
    NativeNotSuffixed(name);
    assert d in [d];
    var renamed := Decl(Suffixed(d.name), d.body);
    assert renamed in [renamed];
    if Suffixed(d.name) == Suffixed(name) {
      SuffixInjective(d.name, name);
    }
  }

  lemma HasNameAppend(a: seq<Decl>, b: seq<Decl>, name: string)
    ensures HasName(a + b, name) <==> HasName(a, name) || HasName(b, name)
  {
    if HasName(a, name) {
      var d :| d in a && d.name == name;
      assert d in a + b;
    }
    if HasName(b, name) {
      var d :| d in b && d.name == name;
      assert d in a + b;
    }
  }

  lemma SameNames(all: seq<Decl>, kept: seq<Decl>, name: string)
    requires FirstByName(all, kept)
    ensures HasName(kept, name) <==> HasName(all, name)
  {
    if HasName(kept, name) {
      var d :| d in kept && d.name == name;
      assert IsFirst(all, d);
      assert d in all;
    }
  }

  /**
   * A call of a declared client tool still names a declared tool after the rewriting, except Copilot's
   * use of the one decoy that is not native: it is dropped from the declarations but renamed in the calls.
   */
  lemma CallsStayDeclaredIff(client: seq<Decl>, copilot: bool, decls: seq<Decl>, name: string)
    requires FirstByName(ClientDeclarations(client, copilot) + Decoys(), decls)
    requires HasName(client, name)
    ensures HasName(decls, CloakName(name)) <==> !(copilot && name == EXTRA_DECOY)
  {
    ExtraIsNotNative();
    SameNames(ClientDeclarations(client, copilot) + Decoys(), decls, CloakName(name));
    HasNameAppend(ClientDeclarations(client, copilot), Decoys(), CloakName(name));
    ClientNames(client, copilot, name);
    NativeNotSuffixed(name);
    hide Suffixed, HasName, FirstByName, ClientDeclarations, EXTRA_DECOY, NATIVE_NAMES;
  }

  lemma ExtraIsNotNative()
    ensures !Native(EXTRA_DECOY)
  {
    assert |EXTRA_DECOY| == 42;
    assert forall i :: 0 <= i < |NATIVE_NAMES| ==> |NATIVE_NAMES[i]| < 42;
  }

  /** That use: Copilot declares and calls the extra decoy; the call names nothing declared and is not undone. */
  lemma ExtraDecoyExample(body: string, decls: seq<Decl>, nameMap: map<string, string>)
    requires var client := [Decl(EXTRA_DECOY, body)];
             FirstByName(ClientDeclarations(client, true) + Decoys(), decls) && MapsBack(client, true, nameMap)
    ensures !HasName(decls, CloakName(EXTRA_DECOY)) && Uncloak(nameMap, CloakName(EXTRA_DECOY)) != EXTRA_DECOY
  {
    var d := Decl(EXTRA_DECOY, body);
    assert d in [d];
    ExtraIsNotNative();
    CallsStayDeclaredIff([d], true, decls, EXTRA_DECOY);
    UncloakIff([d], true, nameMap, EXTRA_DECOY);
    hide FirstByName, MapsBack, ClientDeclarations, EXTRA_DECOY, NATIVE_NAMES, HasName;
  }
}
