// The source bundle alone decides whether a tree is shipped, and which.
module RunDeterminism {
  import opened Options
  import opened Paths
  import opened OrderedMaps
  import opened Flattening
  import opened SourceTree
  import opened CopyRuntimeModules
  import Wiring
  import FlatteningLaws
  import ScanOrder

  /** The same packages mean the same by the same names. */
  ghost predicate SameMeaning(a: Tables, b: Tables) {
    a.Keys == b.Keys && forall r :: r in a ==> a[r].at == b[r].at
  }

  lemma TablesAgree(src: Source, a: Tables, b: Tables)
    requires Describes(src, a) && Describes(src, b)
    ensures SameMeaning(a, b)
  {
    hide Reached, Depends;
    forall r ensures r in a <==> r in b {
      assert r in a <==> Reached(src, r);
    }
    forall r | r in a ensures a[r].at == b[r].at {
      forall n ensures n in a[r].at <==> n in b[r].at
        ensures n in a[r].at ==> a[r].at[n] == b[r].at[n]
      {
        assert n in a[r].at ==> Depends(src, r, n, a[r].at[n]);
        assert n in b[r].at ==> Depends(src, r, n, b[r].at[n]);
      }
    }
  }

  // ---------- The roots ----------

  lemma LeastListing(src: Source, i: nat, n: Name) returns (k: nat)
    requires i < |src.dirs| && Listed(src.fs, src.dirs[i], n)
    ensures k <= i && FirstListing(src, k, n)
  {
    hide Listed;
    k := 0;
    while !Listed(src.fs, src.dirs[k], n)
      invariant k <= i && forall j :: 0 <= j < k ==> !Listed(src.fs, src.dirs[j], n)
      decreases i - k
    {
      k := k + 1;
    }
  }

  lemma ExplicitIn(src: Source, a: map<Name, Path>, b: map<Name, Path>, n: Name)
    requires FirstSourceWins(src, |src.dirs|, a) && FirstSourceWins(src, |src.dirs|, b) && n in a
    ensures n in b && a[n] == b[n]
  {
    hide Listed;
    var i :| 0 <= i < |src.dirs| && Listed(src.fs, src.dirs[i], n);
    var k := LeastListing(src, i, n);
  }

  lemma ExplicitAgrees(src: Source, a: map<Name, Path>, b: map<Name, Path>)
    requires FirstSourceWins(src, |src.dirs|, a) && FirstSourceWins(src, |src.dirs|, b)
    ensures a == b
  {
    hide FirstSourceWins;
    forall n ensures n in a <==> n in b
      ensures n in a ==> a[n] == b[n]
    {
      if n in a {
        ExplicitIn(src, a, b, n);
      }
      if n in b {
        ExplicitIn(src, b, a, n);
      }
    }
  }

  lemma RootIn(s: Scan, t: Scan, explicit: OrderedMap<Name, Path>, other: OrderedMap<Name, Path>,
               a: OrderedMap<Name, Path>, b: OrderedMap<Name, Path>, n: Name)
    requires s.packages == t.packages && SameMeaning(s.tables, t.tables) && explicit.at == other.at
    requires Hoisted(s, explicit, |s.packages|, a) && Hoisted(t, other, |t.packages|, b) && n in a.at
    ensures n in b.at && a.at[n] == b.at[n]
  {
    hide SoundRoots;
    if n !in explicit.at {
      var i :| 0 <= i < |s.packages| && FirstDependent(s, i, n);
      assert FirstDependent(t, i, n);
    }
  }

  lemma RootsAgree(src: Source, s: Scan, t: Scan, a: OrderedMap<Name, Path>, b: OrderedMap<Name, Path>)
    requires s.packages == t.packages && SameMeaning(s.tables, t.tables)
    requires RootsChosen(src, s, a) && RootsChosen(src, t, b)
    ensures a.at == b.at
  {
    hide FirstSourceWins, Hoisted, SameMeaning;
    var explicit: OrderedMap<Name, Path> :|
      FirstSourceWins(src, |src.dirs|, explicit.at) && Hoisted(s, explicit, |s.packages|, a);
    var other: OrderedMap<Name, Path> :|
      FirstSourceWins(src, |src.dirs|, other.at) && Hoisted(t, other, |t.packages|, b);
    ExplicitAgrees(src, explicit.at, other.at);
    SameBackwards(s.tables, t.tables);
    forall n ensures n in a.at <==> n in b.at
      ensures n in a.at ==> a.at[n] == b.at[n]
    {
      if n in a.at {
        RootIn(s, t, explicit, other, a, b, n);
      }
      if n in b.at {
        RootIn(t, s, other, explicit, b, a, n);
      }
    }
  }

  lemma SameBackwards(a: Tables, b: Tables)
    requires SameMeaning(a, b)
    ensures SameMeaning(b, a)
  {
  }

  // ---------- Blocking and the tree ----------

  lemma {:induction false} BlockedAgrees(a: Graph, b: Graph, pkg: Path, view: map<Name, Path>, ancestors: set<Path>)
    requires ValidGraph(a) && ValidGraph(b) && SameMeaning(a, b) && pkg in a && ancestors <= a.Keys
    ensures pkg in b && (Blocked(a, pkg, view, ancestors) <==> Blocked(b, pkg, view, ancestors))
    decreases a.Keys - ancestors
  {
    if pkg !in ancestors {
      assert ValidTable(a[pkg], a);
      forall n | n in Conflicts(a[pkg].at, view)
        ensures Blocked(a, a[pkg].at[n], view + Conflicts(a[pkg].at, view), ancestors + {pkg}) <==>
                Blocked(b, b[pkg].at[n], view + Conflicts(b[pkg].at, view), ancestors + {pkg})
      {
        BlockedAgrees(a, b, a[pkg].at[n], view + Conflicts(a[pkg].at, view), ancestors + {pkg});
      }
    }
  }

  lemma RootBlockedAgrees(a: Graph, b: Graph, roots: map<Name, Path>)
    requires ValidGraph(a) && ValidGraph(b) && SameMeaning(a, b)
    ensures Wiring.RootBlocked(a, roots) <==> Wiring.RootBlocked(b, roots)
  {
    hide Blocked, ValidGraph;
    forall n | n in roots && roots[n] in a
      ensures Blocked(a, roots[n], roots, {}) <==> Blocked(b, roots[n], roots, {})
    {
      BlockedAgrees(a, b, roots[n], roots, {});
    }
  }

  lemma FaithfulAgrees(a: Graph, b: Graph, roots: map<Name, Path>, base: Path, p: Placements)
    requires SameMeaning(a, b) && Wiring.Faithful(a, roots, base, p)
    ensures Wiring.Faithful(b, roots, base, p)
  {
    hide Resolve, OwnedSlot, Slot;
    forall t | t in p ensures Preserved(b, base, p, t) {
      assert Preserved(a, base, p, t);
    }
    forall owner, n | owner in p && ValidName(n) && Slot(owner, n) in p ensures Necessary(b, base, p, owner, n) {
      assert Necessary(a, base, p, owner, n);
    }
  }

  /** Two runs on one bundle register the same packages in the same order and choose the same roots. */
  lemma RecordIsDetermined(src: Source, s: Scan, a: OrderedMap<Name, Path>, t: Scan, b: OrderedMap<Name, Path>)
    requires Recorded(src, s, a) && Recorded(src, t, b)
    ensures s.packages == t.packages && SameMeaning(s.tables, t.tables) && a.at == b.at
  {
    hide FinishedScan, Describes, RootsChosen, SameMeaning, ScanOrder.Order;
    TablesAgree(src, s.tables, t.tables);
    RootsAgree(src, s, t, a, b);
  }

  /** Nothing about the outcome is open but which of several broken files is reported. */
  lemma OutcomeIsDetermined(src: Source, base: Path, r1: Result<Bundle>, s1: Scan, roots1: OrderedMap<Name, Path>,
                            r2: Result<Bundle>, s2: Scan, roots2: OrderedMap<Name, Path>)
    requires Sound(src, base, r1, s1, roots1) && Sound(src, base, r2, s2, roots2)
    ensures r1.Ok? <==> r2.Ok?
    ensures r1.Ok? ==> r1.value.placements == r2.value.placements
    ensures r1 == Err(ShadowedDependencyCycle) <==> r2 == Err(ShadowedDependencyCycle)
    ensures Healthy(src) ==> s1.packages == s2.packages && roots1.at == roots2.at
  {
    hide Healthy, Justified, ResolutionPreserved, DependenciesShipped, SourcesHoisted, NestedOnlyIfNeeded, Recorded;
    hide EachCopiedOnce, SourceCycle, Wiring.Faithful, Wiring.RootBlocked, SameMeaning;
    if Healthy(src) {
      RecordIsDetermined(src, s1, roots1, s2, roots2);
      GraphsValid(src, s1, roots1);
      GraphsValid(src, s2, roots2);
      RootBlockedAgrees(s1.tables, s2.tables, roots1.at);
      if r1.Ok? {
        FaithfulAgrees(s1.tables, s2.tables, roots1.at, base, r1.value.placements);
        FlatteningLaws.FaithfulIsUnique(s2.tables, roots2.at, base, r1.value.placements, r2.value.placements);
      }
    }
  }

  lemma GraphsValid(src: Source, s: Scan, roots: OrderedMap<Name, Path>)
    requires Recorded(src, s, roots)
    ensures ValidGraph(s.tables)
  {
    hide FinishedScan, Describes, RootsChosen, ScanOrder.Order;
  }
}
