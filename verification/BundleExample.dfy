// A bundle on disk whose links form a cycle of one name: the scan accepts it, the placement phase cannot.
module BundleExample {
  import opened Options
  import opened Paths
  import opened OrderedMaps
  import opened Flattening
  import opened SourceTree
  import Wiring
  import FlatteningLaws
  import CopyRuntimeModules
  import ScanOrder

  const X := Plain("x")
  const APP: Path := ["app"]
  const A: Path := ["a"]
  const B: Path := ["b"]

  /** The real directories and manifests. */
  const OBJECTS: set<Path> := {
    Modules(APP), A, Manifest(A), Modules(A), B, Manifest(B), Modules(B)
  }

  /** Three links: the app and `b` hold `a` under the name `x`, and `a` holds `b` under it. */
  function Follow(p: Path): Path {
    if p == Slot(APP, X) || p == Slot(B, X) then A
    else if p == Slot(A, X) then B
    else p
  }

  /** Links are followed segment by segment. */
  function Real(p: Path): Path
    decreases |p|
  {
    if p == [] then [] else Follow(Real(Parent(p)) + [p[|p| - 1]])
  }

  function List(dir: Path): seq<Segment> {
    if Real(dir) in {Modules(APP), Modules(A), Modules(B)} then ["x"] else []
  }

  const DISK := FileSystem(p => Real(p) in OBJECTS, Real, List, _ => [], OBJECTS)

  const BUNDLE := Source(DISK, [], [Modules(APP)])

  lemma RealSnoc(p: Path, last: Segment)
    ensures Real(p + [last]) == Follow(Real(p) + [last])
  {
    assert Parent(p + [last]) == p;
  }

  lemma FollowStays(p: Path, last: Segment)
    requires last != "x"
    ensures Follow(p + [last]) == p + [last]
  {
    assert Slot(APP, X)[2] == "x" && Slot(A, X)[2] == "x" && Slot(B, X)[2] == "x";
  }

  lemma RealStays(p: Path, last: Segment)
    requires last != "x"
    ensures Real(p + [last]) == Real(p) + [last]
  {
    RealSnoc(p, last);
    FollowStays(Real(p), last);
    hide *;
  }

  lemma PackageIsReal(dir: Path)
    requires dir in {APP, A, B}
    ensures Real(dir) == dir && Real(Modules(dir)) == Modules(dir) && Real(Manifest(dir)) == Manifest(dir)
  {
    RealStays([], dir[0]);
    assert [] + [dir[0]] == dir && Real([]) == [];
    RealStays(dir, NODE_MODULES);
    RealStays(dir, "package.json");
    hide Real;
  }

  lemma ObjectIsReal(o: Path)
    requires o in OBJECTS
    ensures Real(o) == o
  {
    hide Real, Modules, Manifest;
    PackageIsReal(APP);
    PackageIsReal(A);
    PackageIsReal(B);
  }

  lemma ManifestObject(p: Path)
    requires Manifest(p) in OBJECTS
    ensures p in {A, B}
  {
    assert Manifest(p)[|p|] == "package.json" && Manifest(p)[..|p|] == p;
    assert Manifest(A)[..1] == A && Manifest(B)[..1] == B;
    assert forall d :: d in {APP, A, B} ==> Modules(d)[1] == NODE_MODULES;
  }

  lemma DiskIsConsistent()
    ensures Consistent(DISK)
  {
    hide Real, OBJECTS, Manifest;
    forall p ensures Real(Manifest(p)) == Manifest(Real(p)) {
      ManifestIsReal(p);
    }
    forall p | p in OBJECTS ensures Real(p) == p {
      ObjectIsReal(p);
    }
    forall p | Manifest(p) in OBJECTS ensures p in OBJECTS {
      ManifestObject(p);
      PackagesExist();
    }
  }

  lemma ManifestIsReal(p: Path)
    ensures Real(Manifest(p)) == Manifest(Real(p))
  {
    RealStays(p, "package.json");
    hide Real;
  }

  lemma PackagesExist()
    ensures A in OBJECTS && B in OBJECTS && Manifest(A) in OBJECTS && Manifest(B) in OBJECTS
    ensures Modules(APP) in OBJECTS
  {
  }

  lemma NothingSkipped()
    ensures !Skipped("x") && !ScopeMark("x")
  {
  }

  lemma ListedIs(dir: Path, n: Name)
    ensures Listed(DISK, dir, n) <==> Real(dir) in {Modules(APP), Modules(A), Modules(B)} && n == X
  {
    NothingSkipped();
    HoldersExist();
    hide Real, Skipped, ScopeMark, OBJECTS, Modules;
  }

  lemma HoldersExist()
    ensures Modules(APP) in OBJECTS && Modules(A) in OBJECTS && Modules(B) in OBJECTS
  {
  }

  /** The entry `x` of a holder is the link it is meant to be. */
  lemma EntryIsReal(dir: Path)
    requires Real(dir) in {Modules(APP), Modules(A), Modules(B)}
    ensures Real(dir + ["x"]) == if Real(dir) == Modules(A) then B else A
  {
    RealSnoc(dir, "x");
    HolderSlots();
    hide Real, Modules, Slot;
  }

  lemma HolderSlots()
    ensures Modules(APP) + ["x"] == Slot(APP, X) && Modules(A) + ["x"] == Slot(A, X) && Modules(B) + ["x"] == Slot(B, X)
    ensures Slot(A, X) != Slot(B, X) && Slot(A, X) != Slot(APP, X)
    ensures Modules(A) != Modules(B) && Modules(A) != Modules(APP)
  {
    assert Slot(A, X)[0] == "a" && Slot(B, X)[0] == "b" && Slot(APP, X)[0] == "app";
    assert Modules(A)[0] == "a" && Modules(B)[0] == "b" && Modules(APP)[0] == "app";
  }

  lemma BundleIsHealthy()
    ensures Healthy(BUNDLE)
  {
    hide Real, Scanned, Listed, OBJECTS;
    forall file | IsEntry(BUNDLE, file) ensures Real(file) in {A, B} && Real(Manifest(file)) in OBJECTS {
      var dir, n :| EntryOf(BUNDLE, dir, n, file);
      ListedIs(dir, n);
      EntryIsReal(dir);
      ManifestIsReal(file);
      PackagesExist();
    }
    forall dir, entry, file ensures !ScopeOf(BUNDLE, dir, entry, file) {
      NothingSkipped();
    }
    PackagesExist();
  }

  lemma AppStarts()
    ensures Starts(BUNDLE, A)
  {
    PackageIsReal(APP);
    EntryIsReal(Modules(APP));
    HolderSlots();
    ListedIs(Modules(APP), X);
    assert BUNDLE.dirs[0] == Modules(APP) && Segments(X) == ["x"];
    hide Real, Listed, Slot, Modules;
    assert A == BUNDLE.fs.realpath(BUNDLE.dirs[0] + Segments(X));
  }

  lemma OwnLink(pkg: Path, next: Path)
    requires pkg in {A, B} && next == if pkg == A then B else A
    ensures Real(Modules(pkg)) == Modules(pkg) && Real(Slot(pkg, X)) == next
    ensures Modules(pkg) in {Modules(APP), Modules(A), Modules(B)}
  {
    PackageIsReal(pkg);
    EntryIsReal(Modules(pkg));
    HolderSlots();
    hide Real, Slot, Modules;
  }

  lemma MeaningOf(pkg: Path, next: Path)
    requires pkg in {A, B} && next == if pkg == A then B else A
    ensures forall n, d :: Depends(BUNDLE, pkg, n, d) <==> n == X && d == next
  {
    OwnLink(pkg, next);
    hide Real, Listed, Slot, Modules, SourceLookup, A, B, APP, X;
    forall n ensures Listed(DISK, Modules(pkg), n) <==> n == X {
      ListedIs(Modules(pkg), n);
    }
  }

  lemma TableIsSingle(table: OrderedMap<Name, Path>, n: Name, next: Path)
    requires table.Valid() && table.at == map[n := next]
    ensures table == FlatteningLaws.Single(n, next)
  {
    assert n in table.at;
    forall i | 0 <= i < |table.keys| ensures table.keys[i] == n {
      assert table.keys[i] in table.keys;
    }
    AtMostOnce(table.keys, n);
  }

  lemma AtMostOnce(names: seq<Name>, n: Name)
    requires NoDuplicates(names) && forall i :: 0 <= i < |names| ==> names[i] == n
    ensures |names| <= 1
  {
    if |names| > 1 {
      DifferentAt(names, 0, 1);
    }
  }

  lemma DifferentAt(names: seq<Name>, i: nat, j: nat)
    requires NoDuplicates(names) && i < j < |names|
    ensures names[i] != names[j]
  {
  }

  lemma OneMeaning(src: Source, tables: Tables, pkg: Path, n: Name, next: Path)
    requires Describes(src, tables) && ValidGraph(tables) && pkg in tables
    requires forall m, d :: Depends(src, pkg, m, d) <==> m == n && d == next
    ensures tables[pkg] == FlatteningLaws.Single(n, next) && next in tables
  {
    hide Depends, Reached;
    assert Depends(src, pkg, n, next);
    assert ValidTable(tables[pkg], tables);
    assert tables[pkg].at == map[n := next];
    TableIsSingle(tables[pkg], n, next);
  }

  lemma Different()
    ensures A != B
  {
    assert A[0] != B[0];
  }

  // What any scan of the bundle records.
  lemma RecordedTables(tables: Tables)
    requires Describes(BUNDLE, tables) && ValidGraph(tables)
    ensures A in tables && tables[A] == FlatteningLaws.Single(X, B)
    ensures B in tables && tables[B] == FlatteningLaws.Single(X, A)
  {
    AppStarts();
    ReachedStart(BUNDLE, A);
    Different();
    MeaningOf(A, B);
    MeaningOf(B, A);
    hide Depends, Reached, Starts, A, B, BUNDLE, X;
    OneMeaning(BUNDLE, tables, A, X, B);
    OneMeaning(BUNDLE, tables, B, X, A);
  }

  lemma RootIsA(scan: Scan, roots: OrderedMap<Name, Path>)
    requires CopyRuntimeModules.RootsChosen(BUNDLE, scan, roots)
    ensures X in roots.at && roots.at[X] == A
  {
    var explicit: OrderedMap<Name, Path> :| FirstSourceWins(BUNDLE, |BUNDLE.dirs|, explicit.at) &&
      Hoisted(scan, explicit, |scan.packages|, roots);
    PackageIsReal(APP);
    EntryIsReal(Modules(APP));
    HolderSlots();
    ListedIs(Modules(APP), X);
    hide Real, Listed, Slot, Modules;
    assert FirstListing(BUNDLE, 0, X);
  }

  /** The bundle is sound and every file in it is fine, yet any run on it must refuse the cycle. */
  lemma LinkCycleIsRefused(base: Path, r: Result<CopyRuntimeModules.Bundle>, scan: Scan, roots: OrderedMap<Name, Path>)
    ensures Consistent(DISK) && Healthy(BUNDLE)
    ensures CopyRuntimeModules.Sound(BUNDLE, base, r, scan, roots) ==> r == Err(ShadowedDependencyCycle)
  {
    DiskIsConsistent();
    BundleIsHealthy();
    hide Healthy, Consistent, CopyRuntimeModules.Recorded;
    if CopyRuntimeModules.Sound(BUNDLE, base, r, scan, roots) {
      RootIsBlocked(scan, roots);
    }
  }

  lemma RecordedMeans(scan: Scan, roots: OrderedMap<Name, Path>)
    requires CopyRuntimeModules.Recorded(BUNDLE, scan, roots)
    ensures Describes(BUNDLE, scan.tables) && ValidGraph(scan.tables)
    ensures CopyRuntimeModules.RootsChosen(BUNDLE, scan, roots)
  {
    hide Describes, ValidGraph, FinishedScan, CopyRuntimeModules.RootsChosen, BUNDLE;
  }

  lemma RootIsBlocked(scan: Scan, roots: OrderedMap<Name, Path>)
    requires CopyRuntimeModules.Recorded(BUNDLE, scan, roots)
    ensures ValidGraph(scan.tables) && Wiring.RootBlocked(scan.tables, roots.at)
  {
    hide FinishedScan, CopyRuntimeModules.RootsChosen, CopyRuntimeModules.Recorded, Describes, A, B, BUNDLE, X;
    hide ValidGraph, Blocked;
    RecordedMeans(scan, roots);
    RecordedTables(scan.tables);
    RootIsA(scan, roots);
    Different();
    FlatteningLaws.BlockedThrough(scan.tables, B, roots.at + map[X := B], {A}, X, A);
    assert {} + {A} == {A};
    FlatteningLaws.BlockedThrough(scan.tables, A, roots.at, {}, X, B);
  }

  // ---------- Reading a directory ----------

  /** A directory of a package, a scope, and what a scan leaves out: hidden, excluded and log entries. */
  const MIXED: seq<Segment> := [".bin", "@img", "@s", "a", "debug.log", "sharp"]

  const SHELF := FileSystem(_ => true, p => p,
                            p => if p == [] then MIXED else if p == ["@s"] then ["b", "c"] else [],
                            _ => [], {})

  lemma NamesLeftOut()
    ensures ShouldExclude("@img") && ShouldExclude("sharp") && ShouldExclude("debug.log")
    ensures ShouldExclude(".env.test.local") && ShouldExclude("detect-libc") && ShouldExclude("tmp")
    ensures !ShouldExclude("a") && !ShouldExclude("@s") && !ShouldExclude("log") && !ShouldExclude("sharper")
    ensures Skipped(".bin") && !Skipped("a") && !Skipped("@s")
  {
    assert EndsWith("debug.log", ".log") && EndsWith(".env.test.local", ".local") && ".env." <= ".env.test.local";
    assert !EndsWith("log", ".log") && !EndsWith("a", ".log") && !EndsWith("@s", ".log");
    assert !EndsWith("sharper", ".log");
    assert "." <= ".bin" && "a"[0] != '.' && "@s"[0] != '.';
  }

  /** The names found: the package itself and, for the scope, the packages in it. */
  lemma ShelfNames(n: Name)
    ensures Listed(SHELF, [], n) <==> n in {Plain("a"), Scoped("@s", "b"), Scoped("@s", "c")}
  {
    NamesLeftOut();
    assert MIXED[2] == "@s" && MIXED[3] == "a" && [] + ["@s"] == ["@s"];
    assert forall e :: e in MIXED ==> e in {".bin", "@img", "@s", "a", "debug.log", "sharp"};
    hide ShouldExclude;
  }

  lemma SkippedPart(entry: Segment)
    requires Skipped(entry)
    ensures ScanOrder.Reals(SHELF, [], ScanOrder.EntryNames(SHELF, [], entry)) == []
  {
  }

  lemma ScopePart()
    ensures ScanOrder.Reals(SHELF, [], ScanOrder.EntryNames(SHELF, [], "@s")) == [["@s", "b"], ["@s", "c"]]
  {
    NamesLeftOut();
    var scope := ScanOrder.EntryNames(SHELF, [], "@s");
    assert [] + ["@s"] == ["@s"] && scope == [Scoped("@s", "b"), Scoped("@s", "c")];
    ShelfReals(scope);
    assert Segments(scope[0]) == ["@s", "b"] && Segments(scope[1]) == ["@s", "c"];
    hide ScanOrder.Reals, ShouldExclude;
  }

  lemma PlainPart()
    ensures ScanOrder.Reals(SHELF, [], ScanOrder.EntryNames(SHELF, [], "a")) == [["a"]]
  {
    NamesLeftOut();
    assert ScanOrder.EntryNames(SHELF, [], "a") == [Plain("a")] && Segments(Plain("a")) == ["a"];
    ShelfReals([Plain("a")]);
    hide ScanOrder.Reals, ShouldExclude;
  }

  /** They are met in the order of the entries, and of the packages in a scope. */
  lemma ShelfOrder()
    ensures ScanOrder.PackagesIn(SHELF, []) == [["@s", "b"], ["@s", "c"], ["a"]]
  {
    NamesLeftOut();
    SkippedPart(".bin");
    SkippedPart("@img");
    ScopePart();
    PlainPart();
    SkippedPart("debug.log");
    SkippedPart("sharp");
    hide ScanOrder.Reals, ScanOrder.EntryNames, Skipped, ShouldExclude;
    EntryStep([".bin"], [], ".bin");
    EntryStep([".bin", "@img"], [".bin"], "@img");
    EntryStep([".bin", "@img", "@s"], [".bin", "@img"], "@s");
    EntryStep([".bin", "@img", "@s", "a"], [".bin", "@img", "@s"], "a");
    EntryStep([".bin", "@img", "@s", "a", "debug.log"], [".bin", "@img", "@s", "a"], "debug.log");
    EntryStep(MIXED, [".bin", "@img", "@s", "a", "debug.log"], "sharp");
  }

  lemma ShelfReals(names: seq<Name>)
    ensures |ScanOrder.Reals(SHELF, [], names)| == |names|
    ensures forall i :: 0 <= i < |names| ==> ScanOrder.Reals(SHELF, [], names)[i] == Segments(names[i])
  {
    forall i | 0 <= i < |names| ensures [] + Segments(names[i]) == Segments(names[i]) {
    }
  }

  lemma EntryStep(all: seq<Segment>, front: seq<Segment>, last: Segment)
    requires all == front + [last]
    ensures ScanOrder.EntryPackages(SHELF, [], all) ==
            ScanOrder.EntryPackages(SHELF, [], front) +
            ScanOrder.Reals(SHELF, [], ScanOrder.EntryNames(SHELF, [], last))
  {
    assert all[..|all| - 1] == front;
  }
}
