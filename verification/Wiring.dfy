// The imperative half of the flattener: the `placements` map that `place`,
// `resolve` and `wire` share, filled in place.
module Wiring {
  import opened Options
  import opened Paths
  import opened OrderedMaps
  import opened Flattening

  datatype Result =
    | Flattened(placements: Placements, copies: seq<Path>, wired: seq<Path>)
    | ShadowedCycle

  function Pick(at: map<Name, Path>, names: seq<Name>): map<Name, Path> {
    map n | n in names && n in at :: at[n]
  }

  /** Nothing is wired at or below `t` yet, and nothing is placed below it. */
  ghost predicate Untouched(p: Placements, wired: seq<Path>, t: Path) {
    && (forall u :: u in p ==> !(t < u))
    && (forall u :: u in wired ==> !(t <= u))
  }

  /** `p` is `start` plus one copy in `target`'s own slot for each nested name. */
  ghost predicate NestedSlots(start: Placements, p: Placements, target: Path, nested: seq<Name>, at: map<Name, Path>) {
    && GrowsBelow(start, p, target)
    && (forall n :: n in nested ==> n in at && Slot(target, n) in p && p[Slot(target, n)] == at[n])
    && (forall t :: t in p && t !in start ==> exists n :: n in nested && t == Slot(target, n))
  }

  /** The state of the placing loop after the first `i` dependencies of `target`. */
  ghost predicate Nesting(start: Placements, p: Placements, base: Path, target: Path, table: OrderedMap<Name, Path>,
                          i: nat, view: map<Name, Path>, nested: seq<Name>)
  {
    && i <= |table.keys|
    && base <= target
    && NoDuplicates(nested)
    && (forall n :: n in nested <==> n in table.keys[..i] && n in Conflicts(table.at, view))
    && NestedSlots(start, p, target, nested, table.at)
    && Sees(p, base, target, view + Pick(table.at, nested))
  }

  lemma NestingStep(start: Placements, p: Placements, base: Path, target: Path, table: OrderedMap<Name, Path>, i: nat,
                    view: map<Name, Path>, nested: seq<Name>)
    requires table.Valid() && i < |table.keys| && forall n :: n in table.at ==> ValidName(n)
    requires Nesting(start, p, base, target, table, i, view, nested)
    requires table.keys[i] in Conflicts(table.at, view) && Slot(target, table.keys[i]) !in p
    ensures Nesting(start, p[Slot(target, table.keys[i]) := table.at[table.keys[i]]], base, target, table, i + 1,
              view, nested + [table.keys[i]])
  {
    hide NestedSlots, Sees;
    var name := table.keys[i];
    NextName(table, i);
    PickOneMore(table.at, view, nested, name);
    SeesOneMore(p, base, target, name, table.at[name], view + Pick(table.at, nested));
    NestedOneMore(start, p, target, nested, name, table.at);
  }

  lemma PickOneMore(at: map<Name, Path>, view: map<Name, Path>, names: seq<Name>, name: Name)
    requires name in at
    ensures view + Pick(at, names + [name]) == (view + Pick(at, names))[name := at[name]]
  {
    assert Pick(at, names + [name]) == Pick(at, names)[name := at[name]];
  }

  lemma NestedOneMore(start: Placements, p: Placements, target: Path, nested: seq<Name>, name: Name, at: map<Name,
                      Path>)
    requires ValidName(name) && name in at && forall n :: n in nested ==> ValidName(n) && n in at && n != name
    requires NestedSlots(start, p, target, nested, at) && Slot(target, name) !in p
    ensures NestedSlots(start, p[Slot(target, name) := at[name]], target, nested + [name], at)
  {
    var q := p[Slot(target, name) := at[name]];
    assert target < Slot(target, name);
    forall t | t in q && t !in start ensures exists n :: n in nested + [name] && t == Slot(target, n) {
      if t in p {
        var n :| n in nested && t == Slot(target, n);
        assert n in nested + [name];
      } else {
        assert name in nested + [name];
      }
    }
  }

  lemma NestingStart(start: Placements, base: Path, target: Path, table: OrderedMap<Name, Path>, view: map<Name, Path>)
    requires base <= target && Sees(start, base, target, view)
    ensures Nesting(start, start, base, target, table, 0, view, [])
  {
    assert view + Pick(table.at, []) == view;
  }

  lemma NestingSkip(start: Placements, p: Placements, base: Path, target: Path, table: OrderedMap<Name, Path>, i: nat,
                    view: map<Name, Path>, nested: seq<Name>)
    requires table.Valid() && i < |table.keys|
    requires Nesting(start, p, base, target, table, i, view, nested)
    requires table.keys[i] !in Conflicts(table.at, view)
    ensures Nesting(start, p, base, target, table, i + 1, view, nested)
  {
    hide NestedSlots, Sees;
    NextName(table, i);
  }

  lemma NestingDone(start: Placements, p: Placements, base: Path, target: Path, table: OrderedMap<Name, Path>,
                    view: map<Name, Path>, nested: seq<Name>)
    requires table.Valid()
    requires Nesting(start, p, base, target, table, |table.keys|, view, nested)
    ensures NoDuplicates(nested) && NestedSlots(start, p, target, nested, table.at)
    ensures forall n :: n in nested <==> n in Conflicts(table.at, view)
    ensures Sees(p, base, target, view + Conflicts(table.at, view))
  {
    hide NestedSlots, Sees;
    assert table.keys[..|table.keys|] == table.keys;
    assert Pick(table.at, nested) == Conflicts(table.at, view);
  }

  // The next dependency resolves as the view says, and its slot is free with
  // nothing hidden below it.
  lemma NestingSlot(start: Placements, p: Placements, base: Path, wired: seq<Path>, target: Path, graph: Graph,
                    table: OrderedMap<Name, Path>, i: nat, view: map<Name, Path>, nested: seq<Name>,
                    current: Option<Path>)
    requires ValidTable(table, graph) && i < |table.keys|
    requires Nesting(start, p, base, target, table, i, view, nested)
    requires (target == base || (target in p && current == Some(target))) && Untouched(start, wired, target)
    ensures table.keys[i] in table.at && ValidName(table.keys[i])
    ensures Resolve(p, base, target, table.keys[i]) == Get(view, table.keys[i])
    ensures table.keys[i] in Conflicts(table.at, view) <==> Get(view, table.keys[i]) != Some(table.at[table.keys[i]])
    ensures Placeable(p, base, wired, current, target, table.keys[i])
  {
    NextName(table, i);
    assert table.keys[i] !in nested;
    assert Get(view + Pick(table.at, nested), table.keys[i]) == Get(view, table.keys[i]);
    assert forall n :: n in nested ==> ValidName(n);
    FreeBesideSiblings(start, p, target, nested, table.keys[i]);
  }

  lemma FreeBesideSiblings(start: Placements, p: Placements, target: Path, nested: seq<Name>, name: Name)
    requires ValidName(name) && name !in nested && forall n :: n in nested ==> ValidName(n)
    requires forall u :: u in start ==> !(target < u)
    requires forall t :: t in p && t !in start ==> exists n :: n in nested && t == Slot(target, n)
    ensures Slot(target, name) !in p
    ensures forall t :: t in p ==> !(Slot(target, name) < t)
    ensures forall t, m :: t in p && target < t && ValidName(m) ==> Slot(t, m) !in p
  {
    assert target < Slot(target, name);
    forall t | t in p && target < t
      ensures t != Slot(target, name) && !(Slot(target, name) < t)
    {
      var n :| n in nested && t == Slot(target, n);
      if Slot(target, name) <= t {
        SlotsIncomparable(target, name, n);
      }
    }
    forall t, m | t in p && target < t && ValidName(m) ensures Slot(t, m) !in p {
      assert target < Slot(t, m);
      forall k | k in nested ensures Slot(t, m) != Slot(target, k) {
        if Slot(t, m) == Slot(target, k) {
          SlotInjective(t, m, target, k);
        }
      }
    }
  }

  lemma SeesOneMore(p: Placements, base: Path, target: Path, name: Name, pkg: Path, view: map<Name, Path>)
    requires base <= target && ValidName(name)
    requires Sees(p, base, target, view)
    ensures Sees(p[Slot(target, name) := pkg], base, target, view[name := pkg])
  {
    forall m | ValidName(m)
      ensures Resolve(p[Slot(target, name) := pkg], base, target, m) == Get(view[name := pkg], m) {
      if m != name {
        ResolveFrame(p, base, target, m, target, name, pkg);
      }
    }
  }

  // ---------- Wiring a row of sibling copies ----------

  /** `names` are placed below `owner`, still untouched, and `owner` sees `view`. */
  ghost predicate Pending(p: Placements, base: Path, wired: seq<Path>, owner: Path, names: seq<Name>, view: map<Name,
                          Path>)
  {
    && base <= owner && (owner == base || owner in p)
    && NoDuplicates(names)
    && (forall n :: n in names ==> ValidName(n) && Slot(owner, n) in p && Untouched(p, wired, Slot(owner, n)))
    && Sees(p, base, owner, view)
  }

  /** Wiring `target` has added copies below it only, and left all of them wired. */
  ghost predicate SubtreeWired(p: Placements, q: Placements, w: seq<Path>, v: seq<Path>, target: Path) {
    && GrowsBelow(p, q, target)
    && (forall u :: u in w ==> u in v)
    && (forall u :: u in v && u !in w ==> target <= u)
    && (forall u :: u in q && target <= u ==> u in v)
  }

  /** The same for the slots of `owner` called `names`. */
  ghost predicate SlotsWired(p: Placements, q: Placements, w: seq<Path>, v: seq<Path>, owner: Path, names: seq<Name>) {
    && (forall u :: u in p ==> u in q && q[u] == p[u])
    && (forall u :: u in q && u !in p ==> exists n :: n in names && Slot(owner, n) < u)
    && (forall u :: u in w ==> u in v)
    && (forall u :: u in v && u !in w ==> exists n :: n in names && Slot(owner, n) <= u)
    && (forall n, u :: n in names && u in q && Slot(owner, n) <= u ==> u in v)
  }

  ghost predicate NoneBlocked(graph: Graph, p: Placements, owner: Path, names: seq<Name>, view: map<Name, Path>,
                              ancestors: set<Path>)
    requires ValidGraph(graph)
  {
    forall n :: n in names ==>
      Slot(owner, n) in p && p[Slot(owner, n)] in graph && !Blocked(graph, p[Slot(owner, n)], view, ancestors)
  }

  lemma OneBlocked(graph: Graph, p: Placements, owner: Path, names: seq<Name>, n: Name, view: map<Name, Path>,
                   ancestors: set<Path>)
    requires ValidGraph(graph) && n in names
    requires Slot(owner, n) in p && p[Slot(owner, n)] in graph && Blocked(graph, p[Slot(owner, n)], view, ancestors)
    ensures !NoneBlocked(graph, p, owner, names, view, ancestors)
  {
  }

  lemma SlotsWiredStep(p0: Placements, p: Placements, q: Placements, w0: seq<Path>, w: seq<Path>, v: seq<Path>,
                       owner: Path, names: seq<Name>, n: Name)
    requires ValidName(n) && forall m :: m in names ==> ValidName(m) && m != n
    requires SlotsWired(p0, p, w0, w, owner, names)
    requires SubtreeWired(p, q, w, v, Slot(owner, n))
    ensures SlotsWired(p0, q, w0, v, owner, names + [n])
  {
    var more := names + [n];
    assert n in more && forall m :: m in names ==> m in more;
    forall u | u in q && u !in p0 ensures exists m :: m in more && Slot(owner, m) < u {
      if u in p {
        var m :| m in names && Slot(owner, m) < u;
        assert m in more;
      }
    }
    forall u | u in v && u !in w0 ensures exists m :: m in more && Slot(owner, m) <= u {
      if u in w {
        var m :| m in names && Slot(owner, m) <= u;
        assert m in more;
      }
    }
    forall m, u | m in more && u in q && Slot(owner, m) <= u ensures u in v {
      if m != n && u !in p {
        BelowOneSlot(owner, m, n, u);
      }
    }
  }

  // Wiring one sibling leaves the others untouched and the owner's view unchanged.
  lemma PendingStep(p: Placements, q: Placements, base: Path, w: seq<Path>, v: seq<Path>, owner: Path,
                    names: seq<Name>, view: map<Name, Path>)
    requires names != [] && Pending(p, base, w, owner, names, view)
    requires SubtreeWired(p, q, w, v, Slot(owner, names[0]))
    ensures Pending(q, base, v, owner, names[1..], view)
  {
    var n := names[0];
    GrowthIsInvisible(p, q, base, owner, n, view);
    forall m | m in names[1..]
      ensures ValidName(m) && Slot(owner, m) in q && Untouched(q, v, Slot(owner, m))
    {
      assert m in names && m != n;
      SiblingUntouched(p, q, w, v, owner, n, m);
    }
  }

  lemma SiblingUntouched(p: Placements, q: Placements, w: seq<Path>, v: seq<Path>, owner: Path, n: Name, m: Name)
    requires ValidName(n) && ValidName(m) && n != m
    requires SubtreeWired(p, q, w, v, Slot(owner, n))
    requires Untouched(p, w, Slot(owner, m))
    ensures Untouched(q, v, Slot(owner, m))
  {
    forall u | u in q ensures !(Slot(owner, m) < u) {
      if Slot(owner, m) < u && Slot(owner, n) <= u {
        BelowOneSlot(owner, n, m, u);
      }
    }
    forall u | u in v ensures !(Slot(owner, m) <= u) {
      if Slot(owner, m) <= u && Slot(owner, n) <= u {
        BelowOneSlot(owner, n, m, u);
      }
    }
  }

  // The state of the row before any sibling, at sibling `i`, and after it.
  ghost predicate Row(graph: Graph, p0: Placements, p: Placements, base: Path, w0: seq<Path>, w: seq<Path>,
                      owner: Path, names: seq<Name>, i: nat, view: map<Name, Path>, ancestors: set<Path>)
    requires ValidGraph(graph)
  {
    && i <= |names|
    && NoDuplicates(names)
    && (forall n :: n in names ==> ValidName(n) && Slot(owner, n) in p0)
    && Pending(p, base, w, owner, names[i..], view)
    && SlotsWired(p0, p, w0, w, owner, names[..i])
    && NoneBlocked(graph, p0, owner, names[..i], view, ancestors)
  }

  lemma RowStart(graph: Graph, p: Placements, base: Path, w: seq<Path>, owner: Path, names: seq<Name>, view: map<Name,
                 Path>, ancestors: set<Path>)
    requires ValidGraph(graph) && Pending(p, base, w, owner, names, view)
    ensures Row(graph, p, p, base, w, w, owner, names, 0, view, ancestors)
  {
    assert names[0..] == names;
  }

  lemma RowSlot(graph: Graph, base: Path, p0: Placements, p: Placements, w0: seq<Path>, copies: seq<Path>,
                w: seq<Path>, owner: Path, names: seq<Name>, i: nat, view: map<Name, Path>, ancestors: set<Path>)
    requires Inv(graph, base, p, copies, w, None)
    requires i < |names| && Row(graph, p0, p, base, w0, w, owner, names, i, view, ancestors)
    ensures ValidName(names[i]) && Slot(owner, names[i]) in p && p[Slot(owner, names[i])] in graph
    ensures Slot(owner, names[i]) in p0 && p0[Slot(owner, names[i])] == p[Slot(owner, names[i])]
    ensures Untouched(p, w, Slot(owner, names[i]))
    ensures base <= Slot(owner, names[i]) && Sees(p, base, Slot(owner, names[i]), view)
  {
    assert names[i] in names[i..] && names[i] in names;
    SlotSees(p, base, graph, w, owner, names[i..], names[i], view);
  }

  lemma RowStep(graph: Graph, p0: Placements, p: Placements, q: Placements, base: Path, w0: seq<Path>, w: seq<Path>,
                v: seq<Path>, owner: Path, names: seq<Name>, i: nat, view: map<Name, Path>, ancestors: set<Path>)
    requires ValidGraph(graph)
    requires i < |names| && Row(graph, p0, p, base, w0, w, owner, names, i, view, ancestors)
    requires SubtreeWired(p, q, w, v, Slot(owner, names[i]))
    requires Slot(owner, names[i]) in p0 && p0[Slot(owner, names[i])] in graph
    requires !Blocked(graph, p0[Slot(owner, names[i])], view, ancestors)
    ensures Row(graph, p0, q, base, w0, v, owner, names, i + 1, view, ancestors)
  {
    hide SlotsWired, SubtreeWired, Sees, Untouched, ValidGraph, Blocked;
    PendingStep(p, q, base, w, v, owner, names[i..], view);
    assert names[i..][1..] == names[i + 1..];
    assert names[..i + 1] == names[..i] + [names[i]];
    assert forall n :: n in names[..i] ==> n in names && n != names[i];
    SlotsWiredStep(p0, p, q, w0, w, v, owner, names[..i], names[i]);
  }

  lemma RowEnd(graph: Graph, p0: Placements, p: Placements, base: Path, w0: seq<Path>, w: seq<Path>, owner: Path,
               names: seq<Name>, view: map<Name, Path>, ancestors: set<Path>)
    requires ValidGraph(graph) && Row(graph, p0, p, base, w0, w, owner, names, |names|, view, ancestors)
    ensures SlotsWired(p0, p, w0, w, owner, names)
    ensures NoneBlocked(graph, p0, owner, names, view, ancestors)
  {
    assert names[..|names|] == names;
  }

  // An untouched slot sees what its owner sees.
  lemma SlotSees(p: Placements, base: Path, graph: Graph, wired: seq<Path>, owner: Path, names: seq<Name>, n: Name,
                 view: map<Name, Path>)
    requires Rooted(p, base, graph)
    requires Pending(p, base, wired, owner, names, view) && n in names
    ensures base <= Slot(owner, n) && Sees(p, base, Slot(owner, n), view)
  {
    assert base <= owner <= Slot(owner, n);
    forall m | ValidName(m) ensures Resolve(p, base, Slot(owner, n), m) == Get(view, m) {
      ResolveFromSlot(p, base, graph, owner, n, Slot(owner, n), m);
    }
  }

  // ---------- From placing the conflicts of one copy to wiring them ----------

  lemma StartPlacing(graph: Graph, base: Path, p: Placements, copies: seq<Path>, wired: seq<Path>, target: Path)
    requires Inv(graph, base, p, copies, wired, None)
    ensures Inv(graph, base, p, copies, wired, Some(target))
  {
  }

  lemma GraphIsValid(graph: Graph, base: Path, p: Placements, copies: seq<Path>, wired: seq<Path>,
                     current: Option<Path>)
    requires Inv(graph, base, p, copies, wired, current)
    ensures ValidGraph(graph)
  {
  }

  lemma NestedNames(graph: Graph, pkg: Path, view: map<Name, Path>, nested: seq<Name>)
    requires ValidGraph(graph) && pkg in graph
    requires forall n :: n in nested <==> n in Conflicts(graph[pkg].at, view)
    ensures forall n :: n in nested ==> ValidName(n)
  {
    assert ValidTable(graph[pkg], graph);
  }

  lemma Unwired(p: Placements, wired: seq<Path>, t: Path)
    requires Untouched(p, wired, t)
    ensures t !in wired
  {
    assert t <= t;
  }

  lemma AncestorsBlock(graph: Graph, pkg: Path, view: map<Name, Path>, ancestors: set<Path>)
    requires ValidGraph(graph) && pkg in graph
    ensures pkg in ancestors ==> Blocked(graph, pkg, view, ancestors)
  {
  }

  // A package outside its own ancestors is blocked exactly when a nested copy is.
  lemma BlockedByNested(graph: Graph, pkg: Path, view: map<Name, Path>, ancestors: set<Path>, p: Placements,
                        q: Placements, target: Path, nested: seq<Name>)
    requires ValidGraph(graph) && pkg in graph && pkg !in ancestors
    requires forall n :: n in nested <==> n in Conflicts(graph[pkg].at, view)
    requires NestedSlots(p, q, target, nested, graph[pkg].at)
    ensures Blocked(graph, pkg, view, ancestors) <==>
            !NoneBlocked(graph, q, target, nested, view + Conflicts(graph[pkg].at, view), ancestors + {pkg})
  {
    hide GrowsBelow;
    assert ValidTable(graph[pkg], graph);
  }

  lemma SeenIsPreserved(graph: Graph, base: Path, p: Placements, target: Path, view: map<Name, Path>)
    requires target in p && p[target] in graph && base <= target
    requires ValidTable(graph[p[target]], graph)
    requires Sees(p, base, target, view + Conflicts(graph[p[target]].at, view))
    ensures Preserved(graph, base, p, target)
  {
    var at := graph[p[target]].at;
    forall n | n in at ensures Resolve(p, base, target, n) == Some(at[n]) {
      assert Get(view + Conflicts(at, view), n) == Some(at[n]);
    }
  }

  lemma CopyHasTable(graph: Graph, base: Path, p: Placements, copies: seq<Path>, wired: seq<Path>,
                     current: Option<Path>, t: Path)
    requires Inv(graph, base, p, copies, wired, current) && t in p
    ensures p[t] in graph && ValidTable(graph[p[t]], graph)
  {
    hide AllNecessary, OwnersWired, WiredPreserved, OwnedSlot;
  }

  lemma MarkWired(graph: Graph, base: Path, p: Placements, copies: seq<Path>, wired: seq<Path>, target: Path,
                  view: map<Name, Path>)
    requires Inv(graph, base, p, copies, wired, Some(target))
    requires target in p && base <= target && target !in wired
    requires Sees(p, base, target, view + Conflicts(graph[p[target]].at, view))
    ensures Inv(graph, base, p, copies, wired + [target], None)
  {
    hide Resolve, Rooted, AllNecessary, Preserved, Sees;
    CopyHasTable(graph, base, p, copies, wired, Some(target), target);
    SeenIsPreserved(graph, base, p, target, view);
  }

  lemma StartWiring(p: Placements, q: Placements, base: Path, w: seq<Path>, target: Path, nested: seq<Name>,
                    at: map<Name, Path>, view: map<Name, Path>)
    requires base <= target && target in p
    requires Untouched(p, w, target) && NestedSlots(p, q, target, nested, at)
    requires NoDuplicates(nested) && forall n :: n in nested ==> ValidName(n)
    requires Sees(q, base, target, view)
    ensures Pending(q, base, w + [target], target, nested, view)
  {
    hide Sees;
    forall n | n in nested ensures Untouched(q, w + [target], Slot(target, n)) {
      SlotUntouched(p, q, w, target, nested, at, n);
    }
  }

  lemma SlotUntouched(p: Placements, q: Placements, w: seq<Path>, target: Path, nested: seq<Name>, at: map<Name,
                      Path>, n: Name)
    requires Untouched(p, w, target) && NestedSlots(p, q, target, nested, at)
    requires n in nested && forall n :: n in nested ==> ValidName(n)
    ensures Untouched(q, w + [target], Slot(target, n))
  {
    assert target < Slot(target, n);
    forall u | u in q ensures !(Slot(target, n) < u) {
      if Slot(target, n) < u {
        assert target < u;
        var m :| m in nested && u == Slot(target, m);
        SlotsIncomparable(target, n, m);
      }
    }
  }

  lemma FinishWiring(p: Placements, mid: Placements, q: Placements, w: seq<Path>, v: seq<Path>, target: Path,
                     nested: seq<Name>, at: map<Name, Path>)
    requires Untouched(p, w, target) && NestedSlots(p, mid, target, nested, at)
    requires SlotsWired(mid, q, w + [target], v, target, nested)
    ensures SubtreeWired(p, q, w, v, target)
  {
    hide NestedSlots, SlotsWired, Untouched;
    GrowsThrough(p, mid, q, w, v, target, nested, at);
    AllWiredBelow(mid, q, w, v, target, nested);
    AllBelowWired(p, mid, q, w, v, target, nested, at);
  }

  lemma GrowsThrough(p: Placements, mid: Placements, q: Placements, w: seq<Path>, v: seq<Path>, target: Path,
                     nested: seq<Name>, at: map<Name, Path>)
    requires NestedSlots(p, mid, target, nested, at)
    requires SlotsWired(mid, q, w + [target], v, target, nested)
    ensures GrowsBelow(p, q, target)
  {
    forall u | u in q && u !in p ensures target < u {
      if u !in mid {
        var n :| n in nested && Slot(target, n) < u;
        assert target < Slot(target, n);
      }
    }
  }

  lemma AllWiredBelow(mid: Placements, q: Placements, w: seq<Path>, v: seq<Path>, target: Path, nested: seq<Name>)
    requires SlotsWired(mid, q, w + [target], v, target, nested)
    ensures forall u :: u in w ==> u in v
    ensures forall u :: u in v && u !in w ==> target <= u
  {
    assert forall u :: u in w ==> u in w + [target];
    forall u | u in v && u !in w ensures target <= u {
      if u !in w + [target] {
        var n :| n in nested && Slot(target, n) <= u;
        assert target < Slot(target, n);
      }
    }
  }

  lemma AllBelowWired(p: Placements, mid: Placements, q: Placements, w: seq<Path>, v: seq<Path>, target: Path,
                      nested: seq<Name>, at: map<Name, Path>)
    requires Untouched(p, w, target) && NestedSlots(p, mid, target, nested, at)
    requires SlotsWired(mid, q, w + [target], v, target, nested)
    ensures forall u :: u in q && target <= u ==> u in v
  {
    assert target in w + [target];
    forall u | u in q && target <= u && u != target ensures u in v {
      if u in mid {
        var n :| n in nested && u == Slot(target, n);
      } else {
        var n :| n in nested && Slot(target, n) < u;
      }
    }
  }

  // ---------- The roots ----------

  // Nothing is visible before the roots are placed, so all of them are.
  lemma RootsConflict(roots: OrderedMap<Name, Path>)
    requires roots.Valid()
    ensures forall n :: n in roots.keys ==> n in Conflicts(roots.at, map[])
    ensures map[] + Conflicts(roots.at, map[]) == roots.at
  {
  }

  lemma NothingSeen(base: Path)
    ensures Sees(map[], base, base, map[])
  {
  }

  lemma RootsAreValid(roots: OrderedMap<Name, Path>, graph: Graph)
    requires ValidTable(roots, graph)
    ensures roots.Valid() && forall n :: n in roots.at ==> ValidName(n) && roots.at[n] in graph
  {
  }

  lemma RootsNested(start: Placements, p: Placements, base: Path, nested: seq<Name>, roots: OrderedMap<Name, Path>)
    requires roots.Valid() && NestedSlots(start, p, base, nested, roots.at)
    requires forall n :: n in nested <==> n in Conflicts(roots.at, map[])
    ensures NestedSlots(start, p, base, roots.keys, roots.at)
  {
    forall t | t in p && t !in start ensures exists n :: n in roots.keys && t == Slot(base, n) {
      var n :| n in nested && t == Slot(base, n);
      assert n in roots.keys;
    }
  }

  lemma StartRoots(p: Placements, base: Path, names: seq<Name>, at: map<Name, Path>)
    requires NestedSlots(map[], p, base, names, at)
    requires NoDuplicates(names) && forall n :: n in names ==> ValidName(n)
    requires Sees(p, base, base, at)
    ensures Pending(p, base, [], base, names, at)
  {
    forall n | n in names ensures Untouched(p, [], Slot(base, n)) {
      forall u | u in p ensures !(Slot(base, n) < u) {
        var m :| m in names && u == Slot(base, m);
        if Slot(base, n) < u {
          SlotsIncomparable(base, n, m);
        }
      }
    }
  }

  lemma AllWired(p: Placements, q: Placements, v: seq<Path>, base: Path, names: seq<Name>, at: map<Name, Path>)
    requires NestedSlots(map[], p, base, names, at)
    requires SlotsWired(p, q, [], v, base, names)
    ensures forall u :: u in q ==> u in v
  {
    forall u | u in q ensures u in v {
      if u in p {
        var n :| n in names && u == Slot(base, n);
      } else {
        var n :| n in names && Slot(base, n) < u;
      }
    }
  }

  ghost predicate OnlyRootsHoisted(roots: map<Name, Path>, base: Path, p: Placements) {
    forall n :: ValidName(n) && Slot(base, n) in p ==> n in roots
  }

  lemma RootsOnly(p: Placements, q: Placements, v: seq<Path>, base: Path, names: seq<Name>, at: map<Name, Path>)
    requires NestedSlots(map[], p, base, names, at) && SlotsWired(p, q, [], v, base, names)
    requires forall n :: n in names ==> ValidName(n)
    ensures OnlyRootsHoisted(at, base, q)
  {
    forall n | ValidName(n) && Slot(base, n) in q ensures n in at {
      if Slot(base, n) in p {
        var m :| m in names && Slot(base, n) == Slot(base, m);
        SlotInjective(base, n, base, m);
      } else {
        var m :| m in names && Slot(base, m) < Slot(base, n);
        SlotsIncomparable(base, m, n);
      }
    }
  }

  /**
   * The finished tree: the roots and no other names are hoisted, every copy resolves as in the source, and no
   * nested copy is idle.
   */
  ghost predicate Faithful(graph: Graph, roots: map<Name, Path>, base: Path, p: Placements) {
    && Rooted(p, base, graph)
    && (forall n :: n in roots ==> Slot(base, n) in p && p[Slot(base, n)] == roots[n])
    && OnlyRootsHoisted(roots, base, p)
    && (forall t :: t in p ==> Preserved(graph, base, p, t))
    && AllNecessary(graph, base, p)
  }

  /** Some root cannot be wired. */
  ghost predicate RootBlocked(graph: Graph, roots: map<Name, Path>)
    requires ValidGraph(graph)
  {
    exists n :: n in roots && roots[n] in graph && Blocked(graph, roots[n], roots, {})
  }

  lemma FinishRoots(graph: Graph, base: Path, p: Placements, q: Placements, copies: seq<Path>, v: seq<Path>,
                    names: seq<Name>, at: map<Name, Path>)
    requires Inv(graph, base, q, copies, v, None)
    requires NestedSlots(map[], p, base, names, at) && SlotsWired(p, q, [], v, base, names)
    requires (forall n :: n in at ==> n in names) && forall n :: n in names ==> ValidName(n)
    ensures Faithful(graph, at, base, q)
    ensures NoDuplicates(copies) && forall t :: t in copies <==> t in q
    ensures NoDuplicates(v) && forall t :: t in v <==> t in q
  {
    hide Rooted, Resolve, AllNecessary, OnlyRootsHoisted, OwnersWired, NestedSlots, SlotsWired, NoDuplicates;
    AllWired(p, q, v, base, names, at);
    RootsOnly(p, q, v, base, names, at);
    RootsHoisted(p, q, v, base, names, at);
  }

  lemma RootsHoisted(p: Placements, q: Placements, v: seq<Path>, base: Path, names: seq<Name>, at: map<Name, Path>)
    requires NestedSlots(map[], p, base, names, at) && SlotsWired(p, q, [], v, base, names)
    requires forall n :: n in at ==> n in names
    ensures forall n :: n in at ==> Slot(base, n) in q && q[Slot(base, n)] == at[n]
  {
  }

  lemma RootsBlocked(graph: Graph, p: Placements, base: Path, names: seq<Name>, at: map<Name, Path>)
    requires ValidGraph(graph) && forall n :: n in at ==> at[n] in graph
    requires NestedSlots(map[], p, base, names, at) && forall n :: n in at ==> n in names
    ensures NoneBlocked(graph, p, base, names, at, {}) <==> !RootBlocked(graph, at)
  {
  }

  /** The placement phase as a whole: place the roots, then wire them one by one. */
  method Flatten(graph: Graph, roots: OrderedMap<Name, Path>, base: Path) returns (r: Result)
    requires ValidGraph(graph) && ValidTable(roots, graph)
    ensures r.Flattened? <==> !RootBlocked(graph, roots.at)
    ensures r.Flattened? ==> Faithful(graph, roots.at, base, r.placements)
    ensures r.Flattened? ==> NoDuplicates(r.copies) && forall t :: t in r.copies <==> t in r.placements
    ensures r.Flattened? ==> NoDuplicates(r.wired) && forall t :: t in r.wired <==> t in r.placements
  {
    var f := new Flattener(graph, base);
    f.PlaceRoots(roots);
    RootsBlocked(graph, f.placements, base, roots.keys, roots.at);
    ghost var placed := f.placements;
    StartRoots(f.placements, base, roots.keys, roots.at);
    var ok := f.WireEach(base, roots.keys, {}, roots.at);
    if !ok {
      return ShadowedCycle;
    }
    FinishRoots(graph, base, placed, f.placements, f.copies, f.wired, roots.keys, roots.at);
    r := Flattened(f.placements, f.copies, f.wired);
  }

  class Flattener {
    const graph: Graph
    const base: Path
    var placements: Placements
    // The targets whose payload has been copied, and those whose dependencies
    // have been checked, in that order.
    var copies: seq<Path>
    var wired: seq<Path>

    ghost predicate Valid(current: Option<Path>)
      reads this
    {
      Inv(graph, base, placements, copies, wired, current)
    }

    constructor (graph: Graph, base: Path)
      requires ValidGraph(graph)
      ensures Valid(None) && this.graph == graph && this.base == base
      ensures placements == map[] && copies == [] && wired == []
    {
      this.graph, this.base := graph, base;
      placements, copies, wired := map[], [], [];
    }

    /** Copies `pkg` to a fresh target: the map never loses an entry. */
    method Place(pkg: Path, target: Path, ghost owner: Path, ghost n: Name, ghost current: Option<Path>)
      requires Valid(current) && pkg in graph && target == Slot(owner, n)
      requires Placeable(placements, base, wired, current, owner, n)
      requires owner in placements ==>
                 n in graph[placements[owner]].at && graph[placements[owner]].at[n] == pkg &&
                 Resolve(placements, base, owner, n) != Some(pkg)
      modifies this`placements, this`copies
      ensures Valid(current)
      ensures target !in old(placements) && placements == old(placements)[target := pkg]
      ensures copies == old(copies) + [target]
    {
      PlaceKeepsInv(graph, base, placements, copies, wired, current, owner, n, pkg);
      placements := placements[target := pkg];
      copies := copies + [target];
    }

    /** Walks up from `from` to `base`, as Node does. */
    method Lookup(from: Path, name: Name) returns (found: Option<Path>)
      requires base <= from
      ensures found == Resolve(placements, base, from, name)
    {
      var dir := from;
      while true
        invariant base <= dir <= from
        invariant Resolve(placements, base, from, name) == Resolve(placements, base, dir, name)
        decreases |dir|
      {
        if Slot(dir, name) in placements {
          return Some(placements[Slot(dir, name)]);
        }
        if dir == base {
          return None;
        }
        dir := Parent(dir);
      }
    }

    /** Hoists the chosen package of every root name. */
    method PlaceRoots(roots: OrderedMap<Name, Path>)
      requires Valid(None) && placements == map[] && wired == []
      requires ValidTable(roots, graph)
      modifies this`placements, this`copies
      ensures Valid(None)
      ensures NestedSlots(map[], placements, base, roots.keys, roots.at)
      ensures Sees(placements, base, base, roots.at)
    {
      hide Nesting, NestedSlots, Sees, Placeable, Resolve, AllNecessary, OwnersWired, WiredPreserved, NoDuplicates;
      hide OwnedSlot, ValidTable;
      ghost var nested: seq<Name> := [];
      NothingSeen(base);
      NestingStart(placements, base, base, roots, map[]);
      RootsAreValid(roots, graph);
      RootsConflict(roots);
      for i := 0 to |roots.keys|
        invariant Valid(None)
        invariant Nesting(map[], placements, base, base, roots, i, map[], nested)
      {
        NestingSlot(map[], placements, base, wired, base, graph, roots, i, map[], nested, None);
        NestingStep(map[], placements, base, base, roots, i, map[], nested);
        Place(roots.at[roots.keys[i]], Slot(base, roots.keys[i]), base, roots.keys[i], None);
        nested := nested + [roots.keys[i]];
      }
      NestingDone(map[], placements, base, base, roots, map[], nested);
      RootsNested(map[], placements, base, nested, roots);
    }

    /** The first loop of `wire`: nests every dependency that `target` would resolve wrongly. */
    method PlaceConflicts(pkg: Path, target: Path, ghost view: map<Name, Path>) returns (nested: seq<Name>)
      requires Valid(Some(target)) && pkg in graph && base <= target
      requires target in placements && placements[target] == pkg
      requires Untouched(placements, wired, target)
      requires Sees(placements, base, target, view)
      modifies this`placements, this`copies
      ensures Valid(Some(target))
      ensures target in placements && placements[target] == pkg
      ensures NoDuplicates(nested) && forall n :: n in nested <==> n in Conflicts(graph[pkg].at, view)
      ensures NestedSlots(old(placements), placements, target, nested, graph[pkg].at)
      ensures Sees(placements, base, target, view + Conflicts(graph[pkg].at, view))
    {
      nested := [];
      var table := graph[pkg];
      ghost var start := placements;
      assert ValidTable(table, graph);
      NestingStart(start, base, target, table, view);
      hide *;
      for i := 0 to |table.keys|
        invariant Valid(Some(target))
        invariant target in placements && placements[target] == pkg
        invariant Nesting(start, placements, base, target, table, i, view, nested)
      {
        var name := table.keys[i];
        NestingSlot(start, placements, base, wired, target, graph, table, i, view, nested, Some(target));
        var found := Lookup(target, name);
        if found != Some(table.at[name]) {
          NestingStep(start, placements, base, target, table, i, view, nested);
          Place(table.at[name], Slot(target, name), target, name, Some(target));
          nested := nested + [name];
        } else {
          NestingSkip(start, placements, base, target, table, i, view, nested);
        }
      }
      NestingDone(start, placements, base, target, table, view, nested);
    }

    /** Nests every dependency that `target` would resolve wrongly; the target itself is wired then. */
    method Nest(pkg: Path, target: Path, ghost view: map<Name, Path>) returns (nested: seq<Name>)
      requires Valid(None) && pkg in graph && base <= target
      requires target in placements && placements[target] == pkg
      requires Untouched(placements, wired, target)
      requires Sees(placements, base, target, view)
      modifies this`placements, this`copies, this`wired
      ensures Valid(None) && wired == old(wired) + [target]
      ensures forall n :: n in nested <==> n in Conflicts(graph[pkg].at, view)
      ensures NestedSlots(old(placements), placements, target, nested, graph[pkg].at)
      ensures Pending(placements, base, wired, target, nested, view + Conflicts(graph[pkg].at, view))
    {
      GraphIsValid(graph, base, placements, copies, wired, None);
      StartPlacing(graph, base, placements, copies, wired, target);
      ghost var before := placements;
      hide *;
      nested := PlaceConflicts(pkg, target, view);
      NestedNames(graph, pkg, view, nested);
      Unwired(before, wired, target);
      MarkWired(graph, base, placements, copies, wired, target, view);
      StartWiring(before, placements, base, wired, target, nested, graph[pkg].at,
                  view + Conflicts(graph[pkg].at, view));
      wired := wired + [target];
    }

    /**
     * `wire`: nests what `target` would resolve wrongly, then wires the nested
     * copies. It fails exactly when the package is blocked by its own ancestors.
     */
    method Wire(pkg: Path, target: Path, ancestors: set<Path>, ghost view: map<Name, Path>) returns (ok: bool)
      requires Valid(None) && pkg in graph && base <= target && ancestors <= graph.Keys
      requires target in placements && placements[target] == pkg
      requires Untouched(placements, wired, target)
      requires Sees(placements, base, target, view)
      modifies this`placements, this`copies, this`wired
      ensures ValidGraph(graph) && (ok <==> !Blocked(graph, pkg, view, ancestors))
      ensures ok ==> Valid(None) && SubtreeWired(old(placements), placements, old(wired), wired, target)
      decreases graph.Keys - ancestors, 0
    {
      GraphIsValid(graph, base, placements, copies, wired, None);
      AncestorsBlock(graph, pkg, view, ancestors);
      hide *;
      if pkg in ancestors {
        return false;
      }
      ghost var before := placements;
      var nested := Nest(pkg, target, view);
      ghost var placed := placements;
      ok := WireEach(target, nested, ancestors + {pkg}, view + Conflicts(graph[pkg].at, view));
      BlockedByNested(graph, pkg, view, ancestors, before, placed, target, nested);
      if ok {
        FinishWiring(before, placed, placements, old(wired), wired, target, nested, graph[pkg].at);
      }
    }

    /** The loop over freshly placed siblings, below a wired copy or below `base` itself. */
    method WireEach(owner: Path, names: seq<Name>, ancestors: set<Path>, ghost view: map<Name, Path>) returns (ok: bool)
      requires Valid(None) && ancestors <= graph.Keys
      requires Pending(placements, base, wired, owner, names, view)
      modifies this`placements, this`copies, this`wired
      ensures ValidGraph(graph)
      ensures ok <==> NoneBlocked(graph, old(placements), owner, names, view, ancestors)
      ensures ok ==> Valid(None) && SlotsWired(old(placements), placements, old(wired), wired, owner, names)
      decreases graph.Keys - ancestors, 1
    {
      ghost var start, startWired := placements, wired;
      RowStart(graph, placements, base, wired, owner, names, view, ancestors);
      hide *;
      for i := 0 to |names|
        invariant Valid(None)
        invariant Row(graph, start, placements, base, startWired, wired, owner, names, i, view, ancestors)
      {
        ghost var before, beforeWired := placements, wired;
        var target := Slot(owner, names[i]);
        RowSlot(graph, base, start, placements, startWired, copies, wired, owner, names, i, view, ancestors);
        ok := Wire(placements[target], target, ancestors, view);
        if !ok {
          OneBlocked(graph, start, owner, names, names[i], view, ancestors);
          return;
        }
        RowStep(graph, start, before, placements, base, startWired, beforeWired, wired, owner, names, i, view,
          ancestors);
      }
      RowEnd(graph, start, placements, base, startWired, wired, owner, names, view, ancestors);
      ok := true;
    }
  }
}
