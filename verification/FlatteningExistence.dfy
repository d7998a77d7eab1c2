// Which bundles have a faithful tree at all, whatever the algorithm: those whose nesting comes to an end.
module FlatteningExistence {
  import opened Options
  import opened Paths
  import opened OrderedMaps
  import opened Flattening
  import opened Wiring

  /** Nesting what `pkg` would resolve wrongly, and what those copies would, ends within `depth` levels. */
  ghost predicate Fits(graph: Graph, pkg: Path, view: map<Name, Path>, depth: nat)
    requires ValidGraph(graph) && pkg in graph
    decreases depth
  {
    forall n :: n in Conflicts(graph[pkg].at, view) ==>
      depth > 0 && Fits(graph, graph[pkg].at[n], view + Conflicts(graph[pkg].at, view), depth - 1)
  }

  ghost predicate RootsFit(graph: Graph, roots: map<Name, Path>, depth: nat)
    requires ValidGraph(graph)
  {
    forall n :: n in roots ==> roots[n] in graph && Fits(graph, roots[n], roots, depth)
  }

  // ---------- A faithful tree bounds the nesting ----------

  /** What a copy sees is what its owner sees, but for what the copy would resolve wrongly. */
  ghost predicate SeesBelow(graph: Graph, p: Placements, base: Path, t: Path, view: map<Name, Path>) {
    && t in p && p[t] in graph && base <= t
    && (forall n :: n in Conflicts(graph[p[t]].at, view) ==> Slot(t, n) in p && p[Slot(t, n)] == graph[p[t]].at[n])
    && Sees(p, base, t, view + Conflicts(graph[p[t]].at, view))
  }

  lemma CopySees(graph: Graph, roots: map<Name, Path>, base: Path, p: Placements, owner: Path, m: Name,
                 view: map<Name, Path>)
    requires ValidGraph(graph) && Faithful(graph, roots, base, p)
    requires ValidName(m) && base <= owner && (owner == base || owner in p) && Slot(owner, m) in p
    requires Sees(p, base, owner, view)
    ensures SeesBelow(graph, p, base, Slot(owner, m), view)
  {
    hide Faithful, Resolve, Slot;
    var t := Slot(owner, m);
    CopyMeans(graph, roots, base, p, t);
    NamesValid(graph, p[t]);
    forall n | ValidName(n)
      ensures n in Conflicts(graph[p[t]].at, view) ==> Slot(t, n) in p && p[Slot(t, n)] == graph[p[t]].at[n]
      ensures Resolve(p, base, t, n) == Get(view + Conflicts(graph[p[t]].at, view), n)
    {
      SeesName(graph, roots, base, p, owner, m, n, view);
    }
  }

  lemma NamesValid(graph: Graph, pkg: Path)
    requires ValidGraph(graph) && pkg in graph
    ensures forall n :: n in graph[pkg].at ==> ValidName(n) && graph[pkg].at[n] in graph
  {
    assert ValidTable(graph[pkg], graph);
  }

  lemma SeesName(graph: Graph, roots: map<Name, Path>, base: Path, p: Placements, owner: Path, m: Name, n: Name,
                 view: map<Name, Path>)
    requires Faithful(graph, roots, base, p) && ValidName(n)
    requires ValidName(m) && base <= owner && (owner == base || owner in p) && Slot(owner, m) in p
    requires Resolve(p, base, owner, n) == Get(view, n)
    ensures var t := Slot(owner, m);
            p[t] in graph && base <= t &&
            (n in Conflicts(graph[p[t]].at, view) ==> Slot(t, n) in p && p[Slot(t, n)] == graph[p[t]].at[n]) &&
            Resolve(p, base, t, n) == Get(view + Conflicts(graph[p[t]].at, view), n)
  {
    hide Faithful, Slot, Rooted, OwnedSlot;
    var t := Slot(owner, m);
    CopyMeans(graph, roots, base, p, t);
    TreeIsRooted(graph, roots, base, p);
    AboveCopy(graph, base, p, p - {Slot(t, n)}, owner, m, n);
    if Slot(t, n) in p {
      NeededBelow(graph, roots, base, p, t, n);
    } else {
      assert p - {Slot(t, n)} == p;
    }
  }

  lemma TreeIsRooted(graph: Graph, roots: map<Name, Path>, base: Path, p: Placements)
    requires Faithful(graph, roots, base, p)
    ensures Rooted(p, base, graph)
  {
    hide Preserved, AllNecessary, Rooted;
  }

  lemma CopyMeans(graph: Graph, roots: map<Name, Path>, base: Path, p: Placements, t: Path)
    requires Faithful(graph, roots, base, p) && t in p
    ensures p[t] in graph && base < t
    ensures forall n :: n in graph[p[t]].at ==> Resolve(p, base, t, n) == Some(graph[p[t]].at[n])
  {
    hide AllNecessary, OwnedSlot, Resolve;
  }

  lemma NeededBelow(graph: Graph, roots: map<Name, Path>, base: Path, p: Placements, t: Path, n: Name)
    requires Faithful(graph, roots, base, p) && ValidName(n) && t in p && Slot(t, n) in p
    ensures p[t] in graph && n in graph[p[t]].at && graph[p[t]].at[n] == p[Slot(t, n)] && base <= t
    ensures Resolve(p - {Slot(t, n)}, base, t, n) != Some(p[Slot(t, n)])
  {
    hide Preserved, Resolve, OwnedSlot;
    assert Necessary(graph, base, p, t, n);
  }

  // Between an owner and its copy there is nothing to find.
  lemma NothingBetween(graph: Graph, base: Path, p: Placements, owner: Path, m: Name, from: Path, n: Name)
    requires Rooted(p, base, graph) && ValidName(m) && ValidName(n) && base <= owner < from < Slot(owner, m)
    ensures Slot(from, n) !in p
  {
    if Slot(from, n) in p {
      assert OwnedSlot(p, base, Slot(from, n));
      var d, k :| ValidName(k) && Slot(from, n) == Slot(d, k) && (d == base || d in p);
      SlotInjective(from, n, d, k);
      assert OwnedSlot(p, base, from);
      var e, j :| ValidName(j) && from == Slot(e, j) && (e == base || e in p);
      BetweenIsNoSlot(owner, m, from, e, j);
    }
  }

  // Without a copy of its own, a slot finds what its owner finds.
  lemma AboveCopy(graph: Graph, base: Path, p: Placements, q: Placements, owner: Path, m: Name, n: Name)
    requires Rooted(p, base, graph) && ValidName(m) && ValidName(n) && base <= owner
    requires q == p - {Slot(Slot(owner, m), n)}
    ensures base <= Slot(owner, m) && Resolve(q, base, Slot(owner, m), n) == Resolve(p, base, owner, n)
  {
    var t := Slot(owner, m);
    assert base <= owner < t;
    forall d | owner < d <= t ensures Slot(d, n) !in q {
      if d != t {
        assert d < t;
        NothingBetween(graph, base, p, owner, m, d, n);
      }
    }
    NothingOnTheWay(q, base, t, owner, n);
    forall d | base <= d <= owner ensures Slot(d, n) in p <==> Slot(d, n) in q {
      assert |Slot(d, n)| < |Slot(t, n)|;
    }
    ResolveAgrees(q, p, base, owner, n);
  }

  lemma {:induction false} TreeFits(graph: Graph, roots: map<Name, Path>, base: Path, p: Placements, owner: Path,
                                    m: Name, view: map<Name, Path>, depth: nat)
    requires ValidGraph(graph) && Faithful(graph, roots, base, p)
    requires ValidName(m) && base <= owner && (owner == base || owner in p) && Slot(owner, m) in p
    requires Sees(p, base, owner, view)
    requires forall u :: u in p ==> |u| <= |Slot(owner, m)| + depth
    ensures p[Slot(owner, m)] in graph && Fits(graph, p[Slot(owner, m)], view, depth)
    decreases depth
  {
    hide Faithful, Sees, Slot, ValidGraph;
    var t := Slot(owner, m);
    CopySees(graph, roots, base, p, owner, m, view);
    NamesValid(graph, p[t]);
    forall n | n in Conflicts(graph[p[t]].at, view)
      ensures depth > 0 &&
              Fits(graph, graph[p[t]].at[n], view + Conflicts(graph[p[t]].at, view), depth - 1)
    {
      SlotIsLonger(t, n);
      TreeFits(graph, roots, base, p, t, n, view + Conflicts(graph[p[t]].at, view), depth - 1);
    }
  }

  lemma SlotIsLonger(d: Path, n: Name)
    ensures |d| < |Slot(d, n)| && d < Slot(d, n)
  {
  }

  // ---------- Nesting that ends gives a faithful tree ----------

  /** A tree under construction. */
  datatype Growth = Growth(p: Placements, copies: seq<Path>, wired: seq<Path>)

  ghost predicate Growing(graph: Graph, base: Path, s: Growth, current: Option<Path>) {
    Inv(graph, base, s.p, s.copies, s.wired, current)
  }

  // Fills the slots of `target` that the view from above gets wrong.
  lemma FillSlots(graph: Graph, base: Path, s: Growth, target: Path, table: OrderedMap<Name, Path>,
                  view: map<Name, Path>, current: Option<Path>)
    returns (t: Growth, nested: seq<Name>)
    requires Growing(graph, base, s, current) && ValidTable(table, graph) && base <= target
    requires if target == base then target !in s.p else target in s.p && current == Some(target)
    requires target in s.p ==> s.p[target] in graph && graph[s.p[target]] == table
    requires Untouched(s.p, s.wired, target) && Sees(s.p, base, target, view)
    ensures Growing(graph, base, t, current) && t.wired == s.wired
    ensures NoDuplicates(nested) && forall n :: n in nested <==> n in Conflicts(table.at, view)
    ensures NestedSlots(s.p, t.p, target, nested, table.at)
    ensures Sees(t.p, base, target, view + Conflicts(table.at, view))
  {
    hide *;
    t, nested := s, [];
    NestingStart(s.p, base, target, table, view);
    RootsAreValid(table, graph);
    for i := 0 to |table.keys|
      invariant Growing(graph, base, t, current) && t.wired == s.wired
      invariant if target == base then target !in t.p else target in t.p && current == Some(target)
      invariant target in t.p ==> t.p[target] in graph && graph[t.p[target]] == table
      invariant Nesting(s.p, t.p, base, target, table, i, view, nested)
    {
      var name := table.keys[i];
      NestingSlot(s.p, t.p, base, t.wired, target, graph, table, i, view, nested, current);
      if name in Conflicts(table.at, view) {
        NestingStep(s.p, t.p, base, target, table, i, view, nested);
        SlotIsLonger(target, name);
        t := FillOne(graph, base, t, target, name, table, current);
        nested := nested + [name];
      } else {
        NestingSkip(s.p, t.p, base, target, table, i, view, nested);
      }
    }
    NestingDone(s.p, t.p, base, target, table, view, nested);
  }

  lemma FillOne(graph: Graph, base: Path, s: Growth, target: Path, name: Name, table: OrderedMap<Name, Path>,
                current: Option<Path>)
    returns (t: Growth)
    requires Growing(graph, base, s, current) && ValidTable(table, graph) && name in table.at
    requires Placeable(s.p, base, s.wired, current, target, name)
    requires target in s.p ==> s.p[target] in graph && graph[s.p[target]] == table
    requires base <= target && Resolve(s.p, base, target, name) != Some(table.at[name])
    ensures t == Growth(s.p[Slot(target, name) := table.at[name]], s.copies + [Slot(target, name)], s.wired)
    ensures Growing(graph, base, t, current)
  {
    PlaceKeepsInv(graph, base, s.p, s.copies, s.wired, current, target, name, table.at[name]);
    t := Growth(s.p[Slot(target, name) := table.at[name]], s.copies + [Slot(target, name)], s.wired);
  }

  // What `wire` does before it goes down.
  lemma NestConflicts(graph: Graph, base: Path, s: Growth, target: Path, view: map<Name, Path>)
    returns (t: Growth, nested: seq<Name>)
    requires Growing(graph, base, s, None) && target in s.p && base < target
    requires s.p[target] in graph && Untouched(s.p, s.wired, target) && Sees(s.p, base, target, view)
    ensures Growing(graph, base, t, None) && t.wired == s.wired + [target]
    ensures forall n :: n in nested <==> n in Conflicts(graph[s.p[target]].at, view)
    ensures NestedSlots(s.p, t.p, target, nested, graph[s.p[target]].at)
    ensures Pending(t.p, base, t.wired, target, nested, view + Conflicts(graph[s.p[target]].at, view))
  {
    var pkg := s.p[target];
    GraphIsValid(graph, base, s.p, s.copies, s.wired, None);
    assert ValidTable(graph[pkg], graph);
    StartPlacing(graph, base, s.p, s.copies, s.wired, target);
    hide *;
    t, nested := FillSlots(graph, base, s, target, graph[pkg], view, Some(target));
    NestedNames(graph, pkg, view, nested);
    Unwired(s.p, s.wired, target);
    NestedKeep(s.p, t.p, target, nested, graph[pkg].at);
    StillGrowing(graph, base, t, target, view);
    StartWiring(s.p, t.p, base, s.wired, target, nested, graph[pkg].at, view + Conflicts(graph[pkg].at, view));
    t := Growth(t.p, t.copies, t.wired + [target]);
  }

  lemma NestedKeep(p: Placements, q: Placements, target: Path, nested: seq<Name>, at: map<Name, Path>)
    requires NestedSlots(p, q, target, nested, at) && target in p
    ensures target in q && q[target] == p[target]
  {
  }

  lemma StillGrowing(graph: Graph, base: Path, s: Growth, target: Path, view: map<Name, Path>)
    requires Growing(graph, base, s, Some(target)) && target in s.p && base <= target && target !in s.wired
    requires s.p[target] in graph && Sees(s.p, base, target, view + Conflicts(graph[s.p[target]].at, view))
    ensures Growing(graph, base, Growth(s.p, s.copies, s.wired + [target]), None)
  {
    MarkWired(graph, base, s.p, s.copies, s.wired, target, view);
    hide Inv;
  }

  lemma GrowTree(graph: Graph, base: Path, s: Growth, target: Path, view: map<Name, Path>, depth: nat)
    returns (t: Growth)
    requires Growing(graph, base, s, None) && ValidGraph(graph) && target in s.p && base < target
    requires s.p[target] in graph && Untouched(s.p, s.wired, target) && Sees(s.p, base, target, view)
    requires Fits(graph, s.p[target], view, depth)
    ensures Growing(graph, base, t, None) && SubtreeWired(s.p, t.p, s.wired, t.wired, target)
    decreases depth, 0
  {
    hide *;
    var pkg := s.p[target];
    var mid, nested := NestConflicts(graph, base, s, target, view);
    FitsBelow(graph, s.p, mid.p, pkg, target, nested, view, depth);
    if nested == [] {
      t := mid;
      NothingToWire(mid.p, mid.wired, target);
    } else {
      t := GrowRow(graph, base, mid, target, nested, view + Conflicts(graph[pkg].at, view), depth - 1);
    }
    FinishWiring(s.p, mid.p, t.p, s.wired, t.wired, target, nested, graph[pkg].at);
  }

  lemma NothingToWire(p: Placements, w: seq<Path>, owner: Path)
    ensures SlotsWired(p, p, w, w, owner, [])
  {
  }

  ghost predicate RowFits(graph: Graph, p: Placements, owner: Path, names: seq<Name>, view: map<Name, Path>, depth: nat)
    requires ValidGraph(graph)
  {
    forall n :: n in names ==>
      && ValidName(n) && Slot(owner, n) in p && p[Slot(owner, n)] in graph
      && Fits(graph, p[Slot(owner, n)], view, depth)
  }

  lemma FitsBelow(graph: Graph, p: Placements, q: Placements, pkg: Path, target: Path, nested: seq<Name>,
                  view: map<Name, Path>, depth: nat)
    requires ValidGraph(graph) && pkg in graph && Fits(graph, pkg, view, depth)
    requires forall n :: n in nested <==> n in Conflicts(graph[pkg].at, view)
    requires NestedSlots(p, q, target, nested, graph[pkg].at)
    ensures nested != [] ==>
              depth > 0 && RowFits(graph, q, target, nested, view + Conflicts(graph[pkg].at, view), depth - 1)
  {
    NamesValid(graph, pkg);
    hide GrowsBelow;
    if nested != [] {
      assert nested[0] in nested;
    }
  }

  lemma GrowRow(graph: Graph, base: Path, s: Growth, owner: Path, names: seq<Name>, view: map<Name, Path>, depth: nat)
    returns (t: Growth)
    requires Growing(graph, base, s, None) && ValidGraph(graph)
    requires Pending(s.p, base, s.wired, owner, names, view) && RowFits(graph, s.p, owner, names, view, depth)
    ensures Growing(graph, base, t, None) && SlotsWired(s.p, t.p, s.wired, t.wired, owner, names)
    decreases depth, 1
  {
    hide *;
    t := s;
    NothingToWire(s.p, s.wired, owner);
    PendingNames(s.p, base, s.wired, owner, names, view);
    assert names[..0] == [] && names[0..] == names;
    for i := 0 to |names|
      invariant Growing(graph, base, t, None)
      invariant Pending(t.p, base, t.wired, owner, names[i..], view)
      invariant SlotsWired(s.p, t.p, s.wired, t.wired, owner, names[..i])
    {
      var target := Slot(owner, names[i]);
      NextInRow(graph, base, s, t, owner, names, i, view, depth);
      var u := GrowTree(graph, base, t, target, view, depth);
      RowGrows(s, t, u, base, owner, names, i, view);
      t := u;
    }
    assert names[..|names|] == names;
  }

  lemma PendingNames(p: Placements, base: Path, w: seq<Path>, owner: Path, names: seq<Name>, view: map<Name, Path>)
    requires Pending(p, base, w, owner, names, view)
    ensures NoDuplicates(names) && forall n :: n in names ==> ValidName(n)
  {
    hide Untouched, Sees;
  }

  lemma NextInRow(graph: Graph, base: Path, s: Growth, t: Growth, owner: Path, names: seq<Name>, i: nat,
                  view: map<Name, Path>, depth: nat)
    requires Growing(graph, base, t, None) && ValidGraph(graph) && i < |names|
    requires RowFits(graph, s.p, owner, names, view, depth)
    requires Pending(t.p, base, t.wired, owner, names[i..], view)
    requires SlotsWired(s.p, t.p, s.wired, t.wired, owner, names[..i])
    ensures var target := Slot(owner, names[i]);
            target in t.p && base < target && t.p[target] in graph && Untouched(t.p, t.wired, target) &&
            Sees(t.p, base, target, view) && Fits(graph, t.p[target], view, depth)
  {
    assert names[i] in names[i..] && names[i] in names;
    SlotSees(t.p, base, graph, t.wired, owner, names[i..], names[i], view);
    SlotIsLonger(owner, names[i]);
    hide Sees, Untouched, AllNecessary, OwnersWired, WiredPreserved, Slot, Fits;
  }

  lemma RowGrows(s: Growth, t: Growth, u: Growth, base: Path, owner: Path, names: seq<Name>, i: nat,
                 view: map<Name, Path>)
    requires i < |names| && NoDuplicates(names) && forall n :: n in names ==> ValidName(n)
    requires Pending(t.p, base, t.wired, owner, names[i..], view)
    requires SlotsWired(s.p, t.p, s.wired, t.wired, owner, names[..i])
    requires SubtreeWired(t.p, u.p, t.wired, u.wired, Slot(owner, names[i]))
    ensures Pending(u.p, base, u.wired, owner, names[i + 1..], view)
    ensures SlotsWired(s.p, u.p, s.wired, u.wired, owner, names[..i + 1])
  {
    hide SlotsWired, SubtreeWired, Sees, Untouched;
    PendingStep(t.p, u.p, base, t.wired, u.wired, owner, names[i..], view);
    assert names[i..][1..] == names[i + 1..];
    assert names[..i + 1] == names[..i] + [names[i]];
    assert forall n :: n in names[..i] ==> n in names && n != names[i];
    SlotsWiredStep(s.p, t.p, u.p, s.wired, t.wired, u.wired, owner, names[..i], names[i]);
  }

  // The roots are placed below an empty base, then wired.
  lemma GrowRoots(graph: Graph, roots: OrderedMap<Name, Path>, base: Path, depth: nat) returns (p: Placements)
    requires ValidGraph(graph) && ValidTable(roots, graph) && RootsFit(graph, roots.at, depth)
    ensures Faithful(graph, roots.at, base, p)
  {
    hide *;
    var s := Growth(map[], [], []);
    NothingSeen(base);
    NothingPlaced(graph, base);
    RootsAreValid(roots, graph);
    RootsConflict(roots);
    var placed, nested := FillSlots(graph, base, s, base, roots, map[], None);
    RootsNested(map[], placed.p, base, nested, roots);
    RootKeys(roots);
    StartRoots(placed.p, base, roots.keys, roots.at);
    RootsRow(graph, placed.p, base, roots, depth);
    var t := GrowRow(graph, base, placed, base, roots.keys, roots.at, depth);
    p := t.p;
    FinishGrowth(graph, base, placed, t, roots);
  }

  lemma NothingPlaced(graph: Graph, base: Path)
    requires ValidGraph(graph)
    ensures Growing(graph, base, Growth(map[], [], []), None) && Untouched(map[], [], base)
  {
  }

  lemma RootKeys(roots: OrderedMap<Name, Path>)
    requires roots.Valid()
    ensures NoDuplicates(roots.keys) && forall n :: n in roots.keys <==> n in roots.at
  {
  }

  lemma RootsRow(graph: Graph, p: Placements, base: Path, roots: OrderedMap<Name, Path>, depth: nat)
    requires ValidGraph(graph) && ValidTable(roots, graph) && RootsFit(graph, roots.at, depth)
    requires NestedSlots(map[], p, base, roots.keys, roots.at)
    ensures RowFits(graph, p, base, roots.keys, roots.at, depth)
  {
    hide GrowsBelow, ValidGraph;
  }

  lemma FinishGrowth(graph: Graph, base: Path, s: Growth, t: Growth, roots: OrderedMap<Name, Path>)
    requires Growing(graph, base, t, None) && roots.Valid() && forall n :: n in roots.at ==> ValidName(n)
    requires s.wired == [] && NestedSlots(map[], s.p, base, roots.keys, roots.at)
    requires SlotsWired(s.p, t.p, s.wired, t.wired, base, roots.keys)
    ensures Faithful(graph, roots.at, base, t.p)
  {
    hide Inv, NestedSlots, SlotsWired, Faithful;
    RootKeys(roots);
    FinishRoots(graph, base, s.p, t.p, t.copies, t.wired, roots.keys, roots.at);
  }

  // ---------- The condition ----------

  lemma RootsFitIn(graph: Graph, roots: map<Name, Path>, base: Path, p: Placements, depth: nat)
    requires ValidGraph(graph) && Faithful(graph, roots, base, p) && forall n :: n in roots ==> ValidName(n)
    requires forall u :: u in p ==> |u| <= depth
    ensures RootsFit(graph, roots, depth)
  {
    hide Fits, Rooted, Preserved, AllNecessary, Slot;
    BaseSees(graph, roots, base, p);
    forall n | n in roots ensures roots[n] in graph && Fits(graph, roots[n], roots, depth) {
      TreeFits(graph, roots, base, p, base, n, roots, depth);
    }
  }

  lemma BaseSees(graph: Graph, roots: map<Name, Path>, base: Path, p: Placements)
    requires Faithful(graph, roots, base, p)
    ensures Sees(p, base, base, roots)
  {
    hide Rooted, Preserved, AllNecessary, Slot;
  }

  lemma {:induction false} Bounded(p: Placements) returns (depth: nat)
    ensures forall u :: u in p ==> |u| <= depth
    decreases |p|
  {
    if p == map[] {
      depth := 0;
    } else {
      var t :| t in p;
      var rest := Bounded(p - {t});
      depth := rest + |t|;
      assert forall u :: u in p ==> u == t || u in p - {t};
    }
  }

  /**
   * A faithful tree exists if and only if the nesting ends at some depth. With `FaithfulIsUnique` there is then
   * exactly one.
   */
  lemma FaithfulExistsIff(graph: Graph, roots: OrderedMap<Name, Path>, base: Path)
    requires ValidGraph(graph) && ValidTable(roots, graph)
    ensures (exists p :: Faithful(graph, roots.at, base, p)) <==> exists depth: nat :: RootsFit(graph, roots.at, depth)
  {
    hide Faithful, RootsFit, ValidGraph;
    if depth: nat :| RootsFit(graph, roots.at, depth) {
      var p := GrowRoots(graph, roots, base, depth);
    }
    if p :| Faithful(graph, roots.at, base, p) {
      var depth := Bounded(p);
      RootsFitIn(graph, roots.at, base, p, depth);
    }
  }

  lemma {:induction false} UnblockedFits(graph: Graph, pkg: Path, view: map<Name, Path>, ancestors: set<Path>)
    requires ValidGraph(graph) && pkg in graph && ancestors <= graph.Keys && !Blocked(graph, pkg, view, ancestors)
    ensures Fits(graph, pkg, view, |graph.Keys - ancestors|)
    decreases graph.Keys - ancestors
  {
    NamesValid(graph, pkg);
    var at, left := graph[pkg].at, graph.Keys - ancestors;
    assert left - {pkg} == graph.Keys - (ancestors + {pkg}) && |left - {pkg}| == |left| - 1;
    forall n | n in Conflicts(at, view)
      ensures |left| > 0 && Fits(graph, at[n], view + Conflicts(at, view), |left| - 1)
    {
      UnblockedFits(graph, at[n], view + Conflicts(at, view), ancestors + {pkg});
    }
  }

  /** Where no root is blocked the nesting does end; the converse fails, see `FlatteningExamples`. */
  lemma UnblockedEnds(graph: Graph, roots: OrderedMap<Name, Path>)
    requires ValidGraph(graph) && ValidTable(roots, graph) && !RootBlocked(graph, roots.at)
    ensures RootsFit(graph, roots.at, |graph.Keys|)
  {
    hide Fits, Blocked, ValidGraph;
    forall n | n in roots.at ensures roots.at[n] in graph && Fits(graph, roots.at[n], roots.at, |graph.Keys|) {
      UnblockedFits(graph, roots.at[n], roots.at, {});
      assert graph.Keys - {} == graph.Keys;
    }
  }
}
