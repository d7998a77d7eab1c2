// A bundle that the flattener refuses although it has a faithful tree.
module FlatteningExamples {
  import opened Options
  import opened Paths
  import opened OrderedMaps
  import opened Flattening
  import opened Wiring
  import opened FlatteningLaws

  // ---------- A refusal without need ----------

  /** Three packages and three names, all different. */
  datatype Cast = Cast(a: Path, b: Path, other: Path, k: Name, m: Name, n: Name)

  predicate Distinct(c: Cast) {
    && c.a != c.b && c.a != c.other && c.b != c.other
    && c.k != c.m && c.k != c.n && c.m != c.n
    && ValidName(c.k) && ValidName(c.m) && ValidName(c.n)
  }

  /** `a` means `b` by `n`, and `b` means `a` by `m`. */
  function GraphOf(c: Cast): Graph
    requires Distinct(c)
  {
    map[c.a := Single(c.n, c.b), c.b := Single(c.m, c.a), c.other := Empty()]
  }

  /** The roots give both names to a third package. */
  function RootsOf(c: Cast): map<Name, Path> {
    map[c.k := c.a, c.m := c.other, c.n := c.other]
  }

  /** Where `a`, the `b` nested in it and the `a` nested in that one go. */
  function Outer(c: Cast, base: Path): Path {
    Slot(base, c.k)
  }

  function Middle(c: Cast, base: Path): Path {
    Slot(Outer(c, base), c.n)
  }

  function Inner(c: Cast, base: Path): Path {
    Slot(Middle(c, base), c.m)
  }

  function TreeOf(c: Cast, base: Path): Placements {
    map[Outer(c, base) := c.a, Slot(base, c.m) := c.other, Slot(base, c.n) := c.other,
        Middle(c, base) := c.b, Inner(c, base) := c.a]
  }

  // The inner `a` would be nested below its ancestor `a`.
  lemma Refused(c: Cast)
    requires Distinct(c)
    ensures ValidGraph(GraphOf(c)) && RootBlocked(GraphOf(c), RootsOf(c))
  {
    var graph, roots := GraphOf(c), RootsOf(c);
    BlockedThrough(graph, c.b, roots + map[c.n := c.b], {c.a}, c.m, c.a);
    BlockedThrough(graph, c.a, roots, {}, c.n, c.b);
    assert roots[c.k] in graph;
  }

  /** Where the tree has a copy called `x`, and of what. */
  function CopyAt(c: Cast, base: Path, d: Path, x: Name): Option<Path> {
    if d == base && x in RootsOf(c) then Some(RootsOf(c)[x])
    else if d == Outer(c, base) && x == c.n then Some(c.b)
    else if d == Middle(c, base) && x == c.m then Some(c.a)
    else None
  }

  lemma SlotsOfTree(c: Cast, base: Path, d: Path, x: Name)
    requires Distinct(c) && ValidName(x)
    ensures var s, p := Slot(d, x), TreeOf(c, base);
            if s in p then CopyAt(c, base, d, x) == Some(p[s]) else CopyAt(c, base, d, x).None?
  {
    forall e, y | ValidName(y) ensures Slot(e, y) == Slot(d, x) ==> e == d && y == x {
      if Slot(e, y) == Slot(d, x) {
        SlotInjective(e, y, d, x);
      }
    }
    assert |base| < |Outer(c, base)| < |Middle(c, base)|;
    hide Slot;
  }

  lemma CopiesPreserved(c: Cast, base: Path, t: Path)
    requires Distinct(c) && t in TreeOf(c, base)
    ensures Preserved(GraphOf(c), base, TreeOf(c, base), t)
  {
    var p := TreeOf(c, base);
    assert base <= Outer(c, base) <= Middle(c, base) <= Inner(c, base);
    SlotsOfTree(c, base, Outer(c, base), c.n);
    SlotsOfTree(c, base, Middle(c, base), c.m);
    hide Slot;
    if t == Inner(c, base) {
      forall d | Outer(c, base) < d <= t ensures Slot(d, c.n) !in p {
        SlotsOfTree(c, base, d, c.n);
      }
      NothingOnTheWay(p, base, t, Outer(c, base), c.n);
    }
  }

  lemma TreeValues(c: Cast, base: Path)
    requires Distinct(c)
    ensures var p := TreeOf(c, base);
            p[Outer(c, base)] == c.a && p[Middle(c, base)] == c.b && p[Inner(c, base)] == c.a
    ensures base !in TreeOf(c, base)
  {
    SlotsOfTree(c, base, base, c.k);
    SlotsOfTree(c, base, Outer(c, base), c.n);
    SlotsOfTree(c, base, Middle(c, base), c.m);
    assert |base| < |Outer(c, base)| < |Middle(c, base)| < |Inner(c, base)|;
    assert |base| < |Slot(base, c.m)| && |base| < |Slot(base, c.n)|;
    hide Slot;
  }

  // The copies nested in the outer `a`, without which the lookup would get to the third package.
  lemma NestedCopy(c: Cast, base: Path, owner: Path, x: Name)
    requires Distinct(c) && ValidName(x)
    requires owner in TreeOf(c, base) && Slot(owner, x) in TreeOf(c, base)
    ensures var p := TreeOf(c, base);
            && base < owner && p[owner] in GraphOf(c) && x in GraphOf(c)[p[owner]].at
            && GraphOf(c)[p[owner]].at[x] == p[Slot(owner, x)]
            && x in RootsOf(c) && RootsOf(c)[x] != p[Slot(owner, x)]
            && forall d :: base < d < owner ==> Slot(d, x) !in p
  {
    var p := TreeOf(c, base);
    TreeValues(c, base);
    SlotsOfTree(c, base, owner, x);
    assert base < Outer(c, base) < Middle(c, base);
    forall d | base < d < owner ensures Slot(d, x) !in p {
      SlotsOfTree(c, base, d, x);
    }
    hide Slot, TreeOf;
  }

  lemma CopiesNeeded(c: Cast, base: Path, owner: Path, x: Name)
    requires Distinct(c) && ValidName(x)
    requires owner in TreeOf(c, base) && Slot(owner, x) in TreeOf(c, base)
    ensures Necessary(GraphOf(c), base, TreeOf(c, base), owner, x)
  {
    hide TreeOf, GraphOf, RootsOf;
    var p := TreeOf(c, base);
    var without := p - {Slot(owner, x)};
    NestedCopy(c, base, owner, x);
    if Slot(base, x) == Slot(owner, x) {
      SlotInjective(base, x, owner, x);
    }
    BaseSlots(c, base, x);
    forall d | base < d <= owner ensures Slot(d, x) !in without {
      if d != owner {
        assert d < owner;
      }
    }
    NothingOnTheWay(without, base, owner, base, x);
  }

  lemma BaseSlots(c: Cast, base: Path, x: Name)
    requires Distinct(c) && ValidName(x)
    ensures Slot(base, x) in TreeOf(c, base) <==> x in RootsOf(c)
    ensures x in RootsOf(c) ==> TreeOf(c, base)[Slot(base, x)] == RootsOf(c)[x]
  {
    SlotsOfTree(c, base, base, x);
    assert |base| < |Outer(c, base)| < |Middle(c, base)|;
    hide Slot, TreeOf;
  }

  lemma Owned(p: Placements, base: Path, d: Path, x: Name)
    requires ValidName(x) && (d == base || d in p)
    ensures OwnedSlot(p, base, Slot(d, x))
  {
  }

  lemma TreeIsRooted(c: Cast, base: Path)
    requires Distinct(c)
    ensures Rooted(TreeOf(c, base), base, GraphOf(c))
  {
    hide Slot, OwnedSlot;
    var p := TreeOf(c, base);
    Below(base, c.k);
    Below(base, c.m);
    Below(base, c.n);
    Below(Outer(c, base), c.n);
    Below(Middle(c, base), c.m);
    Owned(p, base, base, c.k);
    Owned(p, base, base, c.m);
    Owned(p, base, base, c.n);
    Owned(p, base, Outer(c, base), c.n);
    Owned(p, base, Middle(c, base), c.m);
  }

  lemma Below(d: Path, x: Name)
    ensures d < Slot(d, x)
  {
  }

  /** `wire` refuses this bundle below any base, although a faithful tree exists: the inner `a` finds `b` above it. */
  lemma RefusedWithoutNeed(c: Cast, base: Path)
    requires Distinct(c)
    ensures ValidGraph(GraphOf(c)) && RootBlocked(GraphOf(c), RootsOf(c))
    ensures Faithful(GraphOf(c), RootsOf(c), base, TreeOf(c, base))
  {
    hide Rooted, Preserved, Necessary, RootBlocked, TreeOf, GraphOf, RootsOf;
    Refused(c);
    TreeIsRooted(c, base);
    var p := TreeOf(c, base);
    forall t | t in p ensures Preserved(GraphOf(c), base, p, t) {
      CopiesPreserved(c, base, t);
    }
    forall owner, x | owner in p && ValidName(x) && Slot(owner, x) in p
      ensures Necessary(GraphOf(c), base, p, owner, x)
    {
      CopiesNeeded(c, base, owner, x);
    }
    forall x | ValidName(x) ensures Slot(base, x) in p <==> x in RootsOf(c)
      ensures x in RootsOf(c) ==> p[Slot(base, x)] == RootsOf(c)[x]
    {
      BaseSlots(c, base, x);
    }
    RootNames(c);
  }

  lemma RootNames(c: Cast)
    requires Distinct(c)
    ensures forall x :: x in RootsOf(c) ==> ValidName(x)
  {
  }
}
