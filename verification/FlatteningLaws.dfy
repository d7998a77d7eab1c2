// When flattening succeeds: consequences of the exact condition `Blocked`.
module FlatteningLaws {
  import opened Options
  import opened Paths
  import opened OrderedMaps
  import opened Flattening
  import opened Wiring

  /** Each package depends on the next one along `walk`. */
  ghost predicate Walk(graph: Graph, walk: seq<Path>) {
    forall i :: 0 <= i < |walk| - 1 ==> Depends(graph, walk[i], walk[i + 1])
  }

  ghost predicate Depends(graph: Graph, pkg: Path, dependency: Path) {
    pkg in graph && exists n :: n in graph[pkg].at && graph[pkg].at[n] == dependency
  }

  ghost predicate HasCycle(graph: Graph) {
    exists walk: seq<Path> :: |walk| >= 2 && walk[0] == walk[|walk| - 1] && Walk(graph, walk)
  }

  lemma ChainCloses(graph: Graph, chain: seq<Path>, pkg: Path)
    requires Walk(graph, chain + [pkg]) && pkg in chain
    ensures HasCycle(graph)
  {
    hide Depends;
    var i :| 0 <= i < |chain| && chain[i] == pkg;
    var cycle := chain[i..] + [pkg];
    assert cycle == (chain + [pkg])[i..];
    assert Walk(graph, cycle);
  }

  lemma ChainGrows(graph: Graph, chain: seq<Path>, pkg: Path, next: Path)
    requires Walk(graph, chain) && chain != [] && chain[|chain| - 1] == pkg && Depends(graph, pkg, next)
    ensures Walk(graph, chain + [next])
  {
    hide Depends;
  }

  lemma {:induction false} BlockedMeansCycle(graph: Graph, pkg: Path, view: map<Name, Path>, ancestors: set<Path>,
                                             chain: seq<Path>)
    requires ValidGraph(graph) && pkg in graph
    requires Blocked(graph, pkg, view, ancestors)
    requires Walk(graph, chain + [pkg]) && forall a :: a in ancestors ==> a in chain
    ensures HasCycle(graph)
    decreases graph.Keys - ancestors
  {
    if pkg in ancestors {
      ChainCloses(graph, chain, pkg);
    } else {
      var conflicts := Conflicts(graph[pkg].at, view);
      var n :| n in conflicts && Blocked(graph, graph[pkg].at[n], view + conflicts, ancestors + {pkg});
      var next := graph[pkg].at[n];
      assert ValidTable(graph[pkg], graph);
      assert Depends(graph, pkg, next);
      ChainGrows(graph, chain + [pkg], pkg, next);
      hide ValidGraph, HasCycle, Walk, Conflicts, Depends;
      BlockedMeansCycle(graph, next, view + conflicts, ancestors + {pkg}, chain + [pkg]);
    }
  }

  /** A cyclic dependency graph is necessary for `wire` to throw. */
  lemma AcyclicFlattens(graph: Graph, roots: map<Name, Path>)
    requires ValidGraph(graph) && !HasCycle(graph)
    ensures !RootBlocked(graph, roots)
  {
    if RootBlocked(graph, roots) {
      var n :| n in roots && roots[n] in graph && Blocked(graph, roots[n], roots, {});
      BlockedMeansCycle(graph, roots[n], roots, {}, []);
    }
  }

  /** Every name means the same package for all consumers. */
  ghost predicate Unambiguous(graph: Graph, roots: map<Name, Path>) {
    forall r, n :: r in graph && n in graph[r].at ==> n in roots && roots[n] == graph[r].at[n]
  }

  /** But cycles alone do no harm: without version conflicts nothing is ever nested. */
  lemma UnambiguousFlattens(graph: Graph, roots: map<Name, Path>)
    requires ValidGraph(graph) && Unambiguous(graph, roots)
    ensures !RootBlocked(graph, roots)
  {
    forall pkg | pkg in graph ensures !Blocked(graph, pkg, roots, {}) {
      forall n | n in graph[pkg].at ensures n !in Conflicts(graph[pkg].at, roots) {
        assert roots[n] == graph[pkg].at[n];
      }
    }
  }

  /** And then the result is one copy per root name, all in the top-level directory. */
  lemma UnambiguousIsFlat(graph: Graph, roots: map<Name, Path>, base: Path, p: Placements, owner: Path, n: Name)
    requires ValidGraph(graph) && Unambiguous(graph, roots) && Faithful(graph, roots, base, p)
    requires owner in p && ValidName(n)
    ensures Slot(owner, n) !in p
  {
    CopiesBelowBase(graph, roots, base, p, owner);
    if Slot(owner, n) in p {
      NestedMeansRootHidden(graph, roots, base, p, owner, n);
      hide *;
      RemovedStillVisible(graph, roots, base, p, owner, n);
    }
  }

  // A nested copy exists only because the lookup would otherwise miss the package.
  lemma NestedMeansRootHidden(graph: Graph, roots: map<Name, Path>, base: Path, p: Placements, owner: Path, n: Name)
    requires Unambiguous(graph, roots) && Faithful(graph, roots, base, p)
    requires owner in p && ValidName(n) && Slot(owner, n) in p && base <= owner
    ensures n in roots && Resolve(p - {Slot(owner, n)}, base, owner, n) != Some(roots[n])
  {
    hide Rooted, Preserved, Resolve;
    assert Necessary(graph, base, p, owner, n);
    assert p[owner] in graph && n in graph[p[owner]].at;
  }

  lemma CopiesBelowBase(graph: Graph, roots: map<Name, Path>, base: Path, p: Placements, t: Path)
    requires Faithful(graph, roots, base, p) && t in p
    ensures base < t
  {
  }

  lemma RemovedStillVisible(graph: Graph, roots: map<Name, Path>, base: Path, p: Placements, owner: Path, n: Name)
    requires ValidGraph(graph) && Unambiguous(graph, roots) && Faithful(graph, roots, base, p)
    requires base < owner && ValidName(n) && n in roots
    ensures Resolve(p - {Slot(owner, n)}, base, owner, n) == Some(roots[n])
  {
    hide Rooted, Preserved, Resolve;
    if Slot(base, n) == Slot(owner, n) {
      SlotInjective(base, n, owner, n);
    }
    RootVisible(graph, roots, base, p, p - {Slot(owner, n)}, owner, n);
  }

  lemma {:induction false} RootVisible(graph: Graph, roots: map<Name, Path>, base: Path, p: Placements, q: Placements,
                                       from: Path, n: Name)
    requires ValidGraph(graph) && Unambiguous(graph, roots) && Faithful(graph, roots, base, p)
    requires base <= from && ValidName(n) && n in roots
    requires Slot(base, n) in q && forall t :: t in q ==> t in p && q[t] == p[t]
    ensures Resolve(q, base, from, n) == Some(roots[n])
    decreases |from|
  {
    hide Faithful, Unambiguous, ValidGraph;
    if Slot(from, n) in q {
      SlotHoldsRoot(graph, roots, base, p, from, n);
    } else {
      assert from != base && base <= Parent(from);
      RootVisible(graph, roots, base, p, q, Parent(from), n);
    }
  }

  lemma SlotHoldsRoot(graph: Graph, roots: map<Name, Path>, base: Path, p: Placements, from: Path, n: Name)
    requires ValidGraph(graph) && Unambiguous(graph, roots) && Faithful(graph, roots, base, p)
    requires ValidName(n) && n in roots && Slot(from, n) in p
    ensures p[Slot(from, n)] == roots[n]
  {
    var d, m :| ValidName(m) && Slot(from, n) == Slot(d, m) && (d == base || d in p);
    SlotInjective(from, n, d, m);
    if d != base {
      assert Necessary(graph, base, p, d, n);
    }
  }

  // ---------- The finished tree is the only one ----------

  /**
   * Two faithful trees agree at every target. What is hoisted is given, and a nested copy is there exactly
   * when the lookup would go wrong without it, which the shorter targets decide.
   */
  lemma {:induction false} SamePlacement(graph: Graph, roots: map<Name, Path>, base: Path, p: Placements, q: Placements,
                                         t: Path)
    requires Faithful(graph, roots, base, p) && Faithful(graph, roots, base, q) && t in p
    ensures t in q && q[t] == p[t]
    decreases |t|
  {
    hide Faithful;
    var d, n := OwnerOf(graph, roots, base, p, t);
    if d == base {
      RootSlot(graph, roots, base, p, n);
      RootSlot(graph, roots, base, q, n);
    } else {
      SamePlacement(graph, roots, base, p, q, d);
      forall u | |u| < |t| ensures u in p <==> u in q
        ensures u in p ==> p[u] == q[u]
      {
        if u in p {
          SamePlacement(graph, roots, base, p, q, u);
        }
        if u in q {
          SamePlacement(graph, roots, base, q, p, u);
        }
      }
      SameBelowShorter(graph, roots, base, p, q, d, n);
    }
  }

  lemma OwnerOf(graph: Graph, roots: map<Name, Path>, base: Path, p: Placements, t: Path) returns (d: Path, n: Name)
    requires Faithful(graph, roots, base, p) && t in p
    ensures ValidName(n) && t == Slot(d, n) && |d| < |t| && (d == base || d in p)
  {
    hide Preserved, AllNecessary;
    assert OwnedSlot(p, base, t);
    d, n :| ValidName(n) && t == Slot(d, n) && (d == base || d in p);
  }

  lemma RootSlot(graph: Graph, roots: map<Name, Path>, base: Path, p: Placements, n: Name)
    requires Faithful(graph, roots, base, p) && ValidName(n)
    ensures Slot(base, n) in p <==> n in roots
    ensures n in roots ==> p[Slot(base, n)] == roots[n]
  {
    hide Rooted, Preserved, AllNecessary;
  }

  // The owner's copy of `n` is there in both trees, because neither lookup from above finds the right one.
  lemma SameBelowShorter(graph: Graph, roots: map<Name, Path>, base: Path, p: Placements, q: Placements, d: Path,
                         n: Name)
    requires Faithful(graph, roots, base, p) && Faithful(graph, roots, base, q)
    requires ValidName(n) && d in p && d in q && q[d] == p[d] && Slot(d, n) in p
    requires forall u :: |u| < |Slot(d, n)| ==> (u in p <==> u in q) && (u in p ==> p[u] == q[u])
    ensures Slot(d, n) in q && q[Slot(d, n)] == p[Slot(d, n)]
  {
    var without := p - {Slot(d, n)};
    NestedIsNeeded(graph, roots, base, p, d, n);
    MeansIts(graph, roots, base, q, d, n);
    hide Faithful;
    if Slot(d, n) !in q {
      forall e | base <= e <= Parent(d)
        ensures Slot(e, n) in without <==> Slot(e, n) in q
        ensures Slot(e, n) in without ==> without[Slot(e, n)] == q[Slot(e, n)]
      {
        assert |Slot(e, n)| < |Slot(d, n)|;
      }
      ResolveAgrees(without, q, base, Parent(d), n);
    }
  }

  lemma NestedIsNeeded(graph: Graph, roots: map<Name, Path>, base: Path, p: Placements, d: Path, n: Name)
    requires Faithful(graph, roots, base, p) && ValidName(n) && d in p && Slot(d, n) in p
    ensures p[d] in graph && n in graph[p[d]].at && graph[p[d]].at[n] == p[Slot(d, n)] && base < d
    ensures Resolve(p - {Slot(d, n)}, base, d, n) != Some(p[Slot(d, n)])
  {
    hide Preserved, Resolve, OwnedSlot;
    assert Necessary(graph, base, p, d, n);
  }

  lemma MeansIts(graph: Graph, roots: map<Name, Path>, base: Path, q: Placements, d: Path, n: Name)
    requires Faithful(graph, roots, base, q) && d in q && q[d] in graph && n in graph[q[d]].at
    ensures base < d && Resolve(q, base, d, n) == Some(graph[q[d]].at[n])
  {
    hide AllNecessary, Resolve, OwnedSlot;
  }

  /** Which tree is shipped is not a choice: the graph and the roots leave only one. */
  lemma FaithfulIsUnique(graph: Graph, roots: map<Name, Path>, base: Path, p: Placements, q: Placements)
    requires Faithful(graph, roots, base, p) && Faithful(graph, roots, base, q)
    ensures p == q
  {
    hide Faithful;
    forall t | t in p ensures t in q && q[t] == p[t] {
      SamePlacement(graph, roots, base, p, q, t);
    }
    forall t | t in q ensures t in p {
      SamePlacement(graph, roots, base, q, p, t);
    }
  }

  // ---------- A graph that cannot be flattened ----------

  function Single(n: Name, target: Path): OrderedMap<Name, Path> {
    OrderedMap([n], map[n := target])
  }

  // The only dependency of `pkg` has to be nested, and is blocked there.
  lemma BlockedThrough(graph: Graph, pkg: Path, view: map<Name, Path>, ancestors: set<Path>, n: Name, next: Path)
    requires ValidGraph(graph) && pkg in graph && graph[pkg] == Single(n, next) && next in graph
    requires Get(view, n) != Some(next)
    requires next in ancestors || Blocked(graph, next, view + map[n := next], ancestors + {pkg})
    ensures Blocked(graph, pkg, view, ancestors)
  {
    assert Conflicts(graph[pkg].at, view) == map[n := next];
    assert Blocked(graph, graph[pkg].at[n], view + map[n := next], ancestors + {pkg});
  }

  /** Two packages that mean each other by one name: each copy would have to be nested below itself. */
  lemma BlockedExample(a: Path, b: Path, n: Name)
    requires a != b && ValidName(n)
    ensures var graph, roots := map[a := Single(n, b), b := Single(n, a)], map[n := a];
            ValidGraph(graph) && RootBlocked(graph, roots)
  {
    var graph: Graph, roots := map[a := Single(n, b), b := Single(n, a)], map[n := a];
    var seesB := roots + map[n := b];
    BlockedThrough(graph, b, seesB, {a}, n, a);
    BlockedThrough(graph, a, roots, {}, n, b);
  }
}
