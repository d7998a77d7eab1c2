// The flattener end to end: from the bundle on disk to the tree that is shipped.
module CopyRuntimeModules {
  import opened Options
  import opened Paths
  import opened OrderedMaps
  import opened Flattening
  import opened SourceTree
  import ScanOrder
  import SourceScan
  import Wiring
  import FlatteningLaws

  datatype Bundle = Bundle(placements: Placements, copies: seq<Path>)

  /**
   * The meaning that flattening preserves: whatever a package means by a name in the source, every copy
   * of the package resolves that name to a copy of that same real package.
   */
  ghost predicate ResolutionPreserved(src: Source, base: Path, p: Placements) {
    forall t, n, d :: t in p && Depends(src, p[t], n, d) ==> base <= t && Resolve(p, base, t, n) == Some(d)
  }

  /** Only packages of the bundle are shipped, and every name one of them depends on has a top-level copy. */
  ghost predicate DependenciesShipped(src: Source, base: Path, p: Placements) {
    && (forall t :: t in p ==> Reached(src, p[t]))
    && (forall pkg, n, d :: Reached(src, pkg) && Depends(src, pkg, n, d) ==> Slot(base, n) in p)
  }

  /** Every name a source lists is hoisted, with the package of the first source that lists it. */
  ghost predicate SourcesHoisted(src: Source, base: Path, p: Placements) {
    && (forall i, n :: 0 <= i < |src.dirs| && Listed(src.fs, src.dirs[i], n) ==> Slot(base, n) in p)
    && (forall i, n :: 0 <= i < |src.dirs| && FirstListing(src, i, n) ==>
          Slot(base, n) in p && p[Slot(base, n)] == src.fs.realpath(src.dirs[i] + Segments(n)))
  }

  /** A nested copy is placed only where its owner would otherwise see a different package. */
  ghost predicate NestedOnlyIfNeeded(base: Path, p: Placements) {
    forall owner, n :: owner in p && ValidName(n) && Slot(owner, n) in p ==>
      base <= owner && Resolve(p - {Slot(owner, n)}, base, owner, n) != Some(p[Slot(owner, n)])
  }

  ghost predicate EachCopiedOnce(b: Bundle) {
    NoDuplicates(b.copies) && forall t :: t in b.copies <==> t in b.placements
  }

  /** The root of a name: the first source that lists it, else the first registered package that depends on it. */
  ghost predicate RootsChosen(src: Source, scan: Scan, roots: OrderedMap<Name, Path>) {
    exists explicit: OrderedMap<Name, Path> ::
      FirstSourceWins(src, |src.dirs|, explicit.at) && Hoisted(scan, explicit, |scan.packages|, roots)
  }

  /** What the scan of a healthy bundle hands to the placement phase. */
  ghost predicate Recorded(src: Source, scan: Scan, roots: OrderedMap<Name, Path>) {
    && FinishedScan(src, scan) && scan.packages == ScanOrder.Order(src)
    && Describes(src, scan.tables) && RootsChosen(src, scan, roots)
    && ValidGraph(scan.tables) && ValidTable(roots, scan.tables)
  }

  lemma PreservedEndToEnd(src: Source, tables: Tables, roots: map<Name, Path>, base: Path, p: Placements)
    requires Describes(src, tables) && Wiring.Faithful(tables, roots, base, p)
    ensures ResolutionPreserved(src, base, p)
  {
    hide Depends, Resolve, Reached;
    forall t, n, d | t in p && Depends(src, p[t], n, d) ensures base <= t && Resolve(p, base, t, n) == Some(d) {
      assert Preserved(tables, base, p, t);
    }
  }

  /**
   * The same of a declared name, from lookup to lookup: the nearest holder in the source, from the package up
   * to the bundle root, is what the nearest copy is a copy of, from the shipped package up to the base.
   */
  lemma NearestEndToEnd(src: Source, base: Path, p: Placements, t: Path, n: Name, d: Path)
    requires ResolutionPreserved(src, base, p) && t in p && n in src.fs.declares(p[t]) && !ShouldExclude(Head(n))
    requires NearestHolder(src, p[t], n, d)
    ensures exists e :: NearestCopy(p, base, t, n, e)
    ensures forall e :: NearestCopy(p, base, t, n, e) ==> p[Slot(e, n)] == src.fs.realpath(Slot(d, n))
  {
    LookupFindsNearest(src, p[t], n);
    hide LookupSlot, NearestHolder, Slot, Resolve, Listed;
    assert Depends(src, p[t], n, src.fs.realpath(Slot(d, n)));
    ResolveFindsNearest(p, base, t, n);
  }

  lemma ShippedEndToEnd(src: Source, scan: Scan, explicit: OrderedMap<Name, Path>, roots: OrderedMap<Name, Path>,
                        base: Path,
                        p: Placements)
    requires Describes(src, scan.tables) && Wiring.Faithful(scan.tables, roots.at, base, p)
    requires FinishedScan(src, scan) && Hoisted(scan, explicit, |scan.packages|, roots)
    ensures DependenciesShipped(src, base, p)
  {
    forall t | t in p ensures Reached(src, p[t]) {
      hide Reached, Depends, Resolve, Preserved;
    }
    forall pkg, n, d | Reached(src, pkg) && Depends(src, pkg, n, d) ensures Slot(base, n) in p {
      hide Reached, Depends, Wiring.Faithful;
      ReachedRegistered(src, scan, pkg);
      EveryNameHoisted(src, scan, explicit, roots, pkg, n, d);
      RootPlaced(scan.tables, roots.at, base, p, n);
    }
    hide Depends, Reached;
  }

  lemma RootPlaced(tables: Tables, roots: map<Name, Path>, base: Path, p: Placements, n: Name)
    requires Wiring.Faithful(tables, roots, base, p) && n in roots
    ensures Slot(base, n) in p && p[Slot(base, n)] == roots[n]
  {
    hide Rooted, Preserved, AllNecessary;
  }

  lemma EveryNameHoisted(src: Source, scan: Scan, explicit: OrderedMap<Name, Path>, roots: OrderedMap<Name, Path>,
                         pkg: Path,
                         n: Name, d: Path)
    requires FinishedScan(src, scan) && Hoisted(scan, explicit, |scan.packages|, roots)
    requires pkg in scan.packages && Depends(src, pkg, n, d)
    ensures n in roots.at
  {
    TableHolds(src, scan, pkg, n, d);
    hide FinishedScan, Depends;
    var k :| 0 <= k < |scan.packages| && scan.packages[k] == pkg;
    if n !in roots.at {
      NewlyHoisted(scan, explicit, |scan.packages|, roots, n);
    }
  }

  lemma ScanIsGraph(src: Source, scan: Scan, roots: OrderedMap<Name, Path>)
    requires FinishedScan(src, scan) && SoundRoots(scan.packages, roots)
    ensures ValidGraph(scan.tables) && ValidTable(roots, scan.tables)
  {
    forall r | r in scan.tables ensures ValidTable(scan.tables[r], scan.tables) {
      RegisteredTable(src, scan, r);
    }
    hide RecordOk, Known, Complete, CleanDir;
  }

  lemma RegisteredTable(src: Source, scan: Scan, r: Path)
    requires FinishedScan(src, scan) && r in scan.tables
    ensures ValidTable(scan.tables[r], scan.tables)
  {
    TablesReached(src, scan, r);
    TableOf(src, scan, r);
    hide Known, Complete, CleanDir, Depends, SourceLookup;
  }

  // A cycle among the tables is a cycle of dependencies in the source.
  lemma TableCycleIsSourceCycle(src: Source, tables: Tables)
    requires Describes(src, tables) && FlatteningLaws.HasCycle(tables)
    ensures SourceCycle(src)
  {
    hide Depends, Reached;
    var walk: seq<Path> :| |walk| >= 2 && walk[0] == walk[|walk| - 1] && FlatteningLaws.Walk(tables, walk);
    assert FlatteningLaws.Depends(tables, walk[0], walk[1]);
    forall i, j | 0 <= i && j == i + 1 && j < |walk| ensures Linked(src, walk[i], walk[j]) {
      assert FlatteningLaws.Depends(tables, walk[i], walk[i + 1]);
      var n :| n in tables[walk[i]].at && tables[walk[i]].at[n] == walk[i + 1];
      assert Depends(src, walk[i], n, walk[j]);
    }
  }

  lemma BlockedIsSourceCycle(src: Source, scan: Scan, roots: OrderedMap<Name, Path>)
    requires Recorded(src, scan, roots) && Wiring.RootBlocked(scan.tables, roots.at)
    ensures SourceCycle(src)
  {
    hide Describes, RootsChosen, SourceCycle;
    CyclicGraph(scan.tables, roots.at);
    TableCycleIsSourceCycle(src, scan.tables);
  }

  lemma CyclicGraph(graph: Graph, roots: map<Name, Path>)
    requires ValidGraph(graph) && Wiring.RootBlocked(graph, roots)
    ensures FlatteningLaws.HasCycle(graph)
  {
    if !FlatteningLaws.HasCycle(graph) {
      FlatteningLaws.AcyclicFlattens(graph, roots);
    }
  }

  /** Everything a run promises, whether it ships a tree or rejects the bundle. */
  ghost predicate Sound(src: Source, base: Path, r: Result<Bundle>, scan: Scan, roots: OrderedMap<Name, Path>) {
    && (r.Err? ==> Justified(src, r.error))
    && (Healthy(src) <==> r.Ok? || r.error.ShadowedDependencyCycle?)
    && (Healthy(src) ==> Recorded(src, scan, roots) && (r.Ok? <==> !Wiring.RootBlocked(scan.tables, roots.at)))
    && (Healthy(src) && !SourceCycle(src) ==> r.Ok?)
    && (r.Ok? ==>
          && Wiring.Faithful(scan.tables, roots.at, base, r.value.placements)
          && ResolutionPreserved(src, base, r.value.placements)
          && DependenciesShipped(src, base, r.value.placements)
          && SourcesHoisted(src, base, r.value.placements)
          && NestedOnlyIfNeeded(base, r.value.placements)
          && EachCopiedOnce(r.value))
  }

  /** The scanning half: registers and resolves everything, then chooses the roots. */
  method Collect(src: Source)
    returns (rejected: Option<Error>, scan: Scan, roots: OrderedMap<Name, Path>, ghost explicit: OrderedMap<Name, Path>)
    requires Consistent(src.fs)
    ensures rejected.Some? ==> Justified(src, rejected.value) && !rejected.value.ShadowedDependencyCycle?
    ensures rejected.None? ==> scan.packages == ScanOrder.Order(src)
    ensures rejected.None? ==>
              && FinishedScan(src, scan) && FirstSourceWins(src, |src.dirs|, explicit.at)
              && Hoisted(scan, explicit, |scan.packages|, roots)
  {
    hide *;
    scan, roots, explicit := ScanState([], map[]), Empty(), Empty();
    var scanner := new SourceScan.Scanner(src);
    var listed := scanner.ScanSources();
    if listed.Err? {
      return Some(listed.error), scan, roots, explicit;
    }
    explicit := listed.value;
    ghost var early, met := scanner.State(), scanner.packages;
    AfterSources(src, early, explicit);
    scanner.StateMeans();
    var resolved := scanner.ResolveAllDeclared();
    if resolved.Err? {
      return Some(resolved.error), scan, roots, explicit;
    }
    scan := ScanState(scanner.packages, scanner.tables);
    scanner.StateMeans();
    scanner.ValidMeans();
    AfterWorklist(src, early, scan, explicit);
    OrderIs(src, met, scan.packages);
    roots := scanner.HoistDependencies(listed.value);
    rejected := None;
  }

  lemma RejectedRun(src: Source, base: Path, e: Error, scan: Scan, roots: OrderedMap<Name, Path>)
    requires Justified(src, e) && !e.ShadowedDependencyCycle?
    ensures Sound(src, base, Err(e), scan, roots)
  {
    hide Healthy, Justified, Recorded, SourceCycle;
    RejectedMeansUnhealthy(src, e);
  }

  lemma BlockedRun(src: Source, base: Path, scan: Scan, roots: OrderedMap<Name, Path>)
    requires Healthy(src) && Recorded(src, scan, roots) && Wiring.RootBlocked(scan.tables, roots.at)
    ensures Sound(src, base, Err(ShadowedDependencyCycle), scan, roots)
  {
    hide Healthy, Recorded, SourceCycle, Wiring.RootBlocked, Justified;
    BlockedIsSourceCycle(src, scan, roots);
    CycleJustified(src);
  }

  lemma CycleJustified(src: Source)
    requires SourceCycle(src)
    ensures Justified(src, ShadowedDependencyCycle)
  {
    hide SourceCycle;
  }

  lemma ShippedRun(src: Source, base: Path, scan: Scan, explicit: OrderedMap<Name, Path>, roots: OrderedMap<Name, Path>,
                   b: Bundle)
    requires Healthy(src) && Recorded(src, scan, roots) && !Wiring.RootBlocked(scan.tables, roots.at)
    requires FinishedScan(src, scan) && FirstSourceWins(src, |src.dirs|, explicit.at)
    requires Hoisted(scan, explicit, |scan.packages|, roots)
    requires Wiring.Faithful(scan.tables, roots.at, base, b.placements) && EachCopiedOnce(b)
    ensures Sound(src, base, Ok(b), scan, roots)
  {
    hide Healthy, Recorded, SourceCycle, Wiring.RootBlocked, ResolutionPreserved, DependenciesShipped, SourcesHoisted;
    hide NestedOnlyIfNeeded, EachCopiedOnce, FinishedScan, Hoisted, FirstSourceWins, Wiring.Faithful;
    HoistedEndToEnd(src, scan, explicit, roots, base, b.placements);
  }

  lemma CopiedOnce(b: Bundle)
    requires NoDuplicates(b.copies) && forall t :: t in b.copies <==> t in b.placements
    ensures EachCopiedOnce(b)
  {
  }

  lemma RecordedIsGraph(src: Source, scan: Scan, roots: OrderedMap<Name, Path>)
    requires Recorded(src, scan, roots)
    ensures ValidGraph(scan.tables) && ValidTable(roots, scan.tables)
  {
  }

  /**
   * `copyRuntimeModules(sources, base/node_modules, sourceRoot)`, payload copying aside. A bundle gets
   * past the scan if and only if it is healthy, and is shipped if and only if moreover no root is blocked;
   * the shipped tree preserves every lookup, and a rejection names a culprit among the files looked at.
   */
  method Run(src: Source, base: Path) returns (r: Result<Bundle>, scan: Scan, roots: OrderedMap<Name, Path>)
    requires Consistent(src.fs)
    ensures Sound(src, base, r, scan, roots)
  {
    hide *;
    var rejected: Option<Error>;
    ghost var explicit: OrderedMap<Name, Path>;
    rejected, scan, roots, explicit := Collect(src);
    if rejected.Some? {
      RejectedRun(src, base, rejected.value, scan, roots);
      return Err(rejected.value), scan, roots;
    }
    FinishedMeansHealthy(src, scan);
    AfterHoisting(src, scan, explicit, roots);
    RecordedIsGraph(src, scan, roots);
    var flat := Wiring.Flatten(scan.tables, roots, base);
    if flat.ShadowedCycle? {
      BlockedRun(src, base, scan, roots);
      return Err(ShadowedDependencyCycle), scan, roots;
    }
    CopiedOnce(Bundle(flat.placements, flat.copies));
    ShippedRun(src, base, scan, explicit, roots, Bundle(flat.placements, flat.copies));
    r := Ok(Bundle(flat.placements, flat.copies));
  }

  lemma OrderIs(src: Source, early: seq<Path>, packages: seq<Path>)
    requires ScanOrder.Registers(src, [], early, ScanOrder.ListedFirst(src, src.dirs))
    requires packages == ScanOrder.Discover(src, 0, early)
    ensures packages == ScanOrder.Order(src)
  {
  }

  lemma AfterSources(src: Source, s: Scan, explicit: OrderedMap<Name, Path>)
    requires SourcesUpTo(src, s, |src.dirs|, explicit)
    ensures AllScanned(s) && SoundRoots(s.packages, explicit) && FirstSourceWins(src, |src.dirs|, explicit.at)
  {
  }

  lemma AfterWorklist(src: Source, early: Scan, s: Scan, explicit: OrderedMap<Name, Path>)
    requires Consistent(src.fs) && SourcesUpTo(src, early, |src.dirs|, explicit)
    requires ScanInv(src, s) && Completed(src, s, |s.packages|) && early.packages <= s.packages
    ensures FinishedScan(src, s) && AllScanned(s) && SoundRoots(s.packages, explicit)
  {
    hide CleanDir, ScanInv, Complete;
    forall i | 0 <= i < |src.dirs| ensures CleanDir(src, s.packages, src.dirs[i]) {
      CleanGrows(src, early.packages, s.packages, src.dirs[i]);
    }
  }

  lemma AfterHoisting(src: Source, s: Scan, explicit: OrderedMap<Name, Path>, roots: OrderedMap<Name, Path>)
    requires FinishedScan(src, s) && FirstSourceWins(src, |src.dirs|, explicit.at)
    requires Hoisted(s, explicit, |s.packages|, roots) && s.packages == ScanOrder.Order(src)
    ensures Recorded(src, s, roots)
  {
    hide ScanOrder.Order;
    hide FinishedScan, FirstSourceWins, Describes;
    FinishedDescribes(src, s);
    HoistedRoots(s, explicit, roots);
    ScanIsGraph(src, s, roots);
    hide Hoisted, SoundRoots;
  }

  lemma HoistedRoots(s: Scan, explicit: OrderedMap<Name, Path>, roots: OrderedMap<Name, Path>)
    requires Hoisted(s, explicit, |s.packages|, roots)
    ensures SoundRoots(s.packages, roots)
    ensures forall n :: n in explicit.at ==> n in roots.at && roots.at[n] == explicit.at[n]
  {
  }

  lemma HoistedEndToEnd(src: Source, scan: Scan, explicit: OrderedMap<Name, Path>, roots: OrderedMap<Name, Path>,
                        base: Path,
                        p: Placements)
    requires FinishedScan(src, scan) && FirstSourceWins(src, |src.dirs|, explicit.at)
    requires Hoisted(scan, explicit, |scan.packages|, roots)
    requires Wiring.Faithful(scan.tables, roots.at, base, p)
    ensures ResolutionPreserved(src, base, p) && DependenciesShipped(src, base, p)
    ensures SourcesHoisted(src, base, p) && NestedOnlyIfNeeded(base, p)
  {
    hide FinishedScan, Hoisted, Describes, FirstSourceWins, SourcesHoisted, ResolutionPreserved, DependenciesShipped;
    hide NestedOnlyIfNeeded, Wiring.Faithful;
    FinishedDescribes(src, scan);
    PreservedEndToEnd(src, scan.tables, roots.at, base, p);
    ShippedEndToEnd(src, scan, explicit, roots, base, p);
    HoistedRoots(scan, explicit, roots);
    SourcesPlaced(src, scan.tables, explicit.at, roots.at, base, p);
    NestedNeeded(scan.tables, roots.at, base, p);
  }

  lemma SourcesPlaced(src: Source, tables: Tables, explicit: map<Name, Path>, roots: map<Name, Path>, base: Path,
                      p: Placements)
    requires FirstSourceWins(src, |src.dirs|, explicit) && Wiring.Faithful(tables, roots, base, p)
    requires forall n :: n in explicit ==> n in roots && roots[n] == explicit[n]
    ensures SourcesHoisted(src, base, p)
  {
    hide Listed, Rooted, Preserved, AllNecessary;
    forall n | n in explicit ensures Slot(base, n) in p && p[Slot(base, n)] == explicit[n] {
      RootPlaced(tables, roots, base, p, n);
    }
  }

  lemma NestedNeeded(tables: Tables, roots: map<Name, Path>, base: Path, p: Placements)
    requires Wiring.Faithful(tables, roots, base, p)
    ensures NestedOnlyIfNeeded(base, p)
  {
    hide Rooted, Preserved, Resolve;
    forall owner, n | owner in p && ValidName(n) && Slot(owner, n) in p
      ensures base <= owner && Resolve(p - {Slot(owner, n)}, base, owner, n) != Some(p[Slot(owner, n)])
    {
      assert Necessary(tables, base, p, owner, n);
    }
  }
}
