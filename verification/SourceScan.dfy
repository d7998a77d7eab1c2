// The imperative half of the source side: the `packages` map of
// copyRuntimeModules, filled by the recursive scan and by the worklist over it.
module SourceScan {
  import opened Options
  import opened Paths
  import opened OrderedMaps
  import opened Flattening
  import opened SourceTree
  import opened ScanOrder

  class Scanner {
    const src: Source
    // The registered packages in insertion order, and the dependency tables of
    // those whose own `node_modules` has been scanned.
    var packages: seq<Path>
    var tables: Tables

    ghost function State(): Scan
      reads this
    {
      ScanState(packages, tables)
    }

    ghost predicate Valid()
      reads this
    {
      Consistent(src.fs) && ScanInv(src, State())
    }

    constructor (src: Source)
      requires Consistent(src.fs)
      ensures Valid() && this.src == src && packages == [] && tables == map[]
    {
      this.src := src;
      packages, tables := [], map[];
    }

    /** The real path of a visited file, unless it is broken or leaves the bundle. */
    method CheckedRealpath(file: Path) returns (r: Result<Path>)
      requires Visited(src, file)
      ensures r.Ok? <==> Inside(src, file)
      ensures r.Ok? ==> r.value == src.fs.realpath(file)
      ensures r.Err? ==> Justified(src, r.error) && !r.error.ShadowedDependencyCycle?
    {
      hide Visited;
      if !src.fs.present(file) {
        return Err(BrokenLink(file));
      }
      var target := src.fs.realpath(file);
      if !(src.root <= target) {
        return Err(LinkEscapes(file));
      }
      r := Ok(target);
    }

    /** Registers a package before following its dependencies, so cycles are met only once. */
    method Register(pkg: Path) returns (r: Result<()>)
      requires Valid() && Known(src, pkg)
      modifies this`packages, this`tables
      ensures r.Ok? ==> Valid() && pkg in packages && Grown(old(State()), State())
      ensures r.Ok? ==> Registers(src, old(packages), packages, [pkg])
      ensures r.Err? ==> Justified(src, r.error) && !r.error.ShadowedDependencyCycle?
      decreases Unseen(src, packages), 0
    {
      hide Known, Grown, RecordOk, Reached, SoundEntries, CleanDir, Justified, Registers, PackagesIn;
      if pkg !in packages {
        RegisterKeepsScan(src, State(), pkg);
        ModulesScanned(src, pkg);
        ghost var before := State();
        assert pkg !in before.tables;
        packages := packages + [pkg];
        var scanned := Scan(pkg + [NODE_MODULES]);
        if scanned.Err? {
          return Err(scanned.error);
        }
        RegisteredNew(src, before.packages, packages, pkg);
        RegisterGrows(before, State(), pkg, scanned.value);
        TableKeepsScan(src, State(), pkg, scanned.value);
        tables := tables[pkg := scanned.value];
      } else {
        GrownReflexive(State());
        RegistersSeen(src, packages, pkg);
      }
      r := Ok(());
    }

    /** One directory entry that names a package. */
    method Visit(ghost dir: Path, ghost n: Name, file: Path) returns (r: Result<Path>)
      requires Valid() && EntryOf(src, dir, n, file)
      modifies this`packages, this`tables
      ensures r.Ok? ==>
                && Valid() && Grown(old(State()), State())
                && EntryOk(src, packages, file) && r.value == src.fs.realpath(file)
                && Registers(src, old(packages), packages, [src.fs.realpath(file)])
      ensures r.Err? ==> Justified(src, r.error) && !r.error.ShadowedDependencyCycle?
      decreases Unseen(src, packages), 1
    {
      EntryVisited(src, dir, n, file);
      hide Visited, Reached, ScanInv, Grown, Registers;
      r := CheckedRealpath(file);
      if r.Err? {
        return;
      }
      if !src.fs.present(Manifest(r.value)) {
        return Err(NoManifest(file));
      }
      EntryReached(src, dir, n, file);
      var registered := Register(r.value);
      if registered.Err? {
        return Err(registered.error);
      }
    }

    /** The package names an entry of `dir` stands for. */
    method NamesOf(dir: Path, entry: Segment) returns (r: Result<seq<Name>>)
      requires Scanned(src, dir) && src.fs.present(dir) && entry in src.fs.list(dir)
      ensures r.Ok? ==> forall n :: n in r.value <==> Yields(src.fs, dir, entry, n)
      ensures r.Ok? ==> r.value == EntryNames(src.fs, dir, entry)
      ensures r.Ok? && IsScope(src.fs, dir, entry) ==> Inside(src, dir + [entry])
      ensures r.Err? ==> Justified(src, r.error) && !r.error.ShadowedDependencyCycle?
    {
      hide Scanned, Skipped, Justified, Visited, Inside;
      if Skipped(entry) {
        return Ok([]);
      }
      if !ScopeMark(entry) {
        return Ok([Plain(entry)]);
      }
      ScopeVisited(src, dir, entry);
      var scope := CheckedRealpath(dir + [entry]);
      if scope.Err? {
        return Err(scope.error);
      }
      var ids := src.fs.list(scope.value);
      r := Ok(seq(|ids|, i requires 0 <= i < |ids| => Scoped(entry, ids[i])));
      forall n | Yields(src.fs, dir, entry, n) ensures n in r.value {
        var i :| 0 <= i < |ids| && ids[i] == n.id;
        assert r.value[i] == n;
      }
    }

    /** The packages directly inside `dir`; every one found is scanned in turn. */
    method Scan(dir: Path) returns (r: Result<OrderedMap<Name, Path>>)
      requires Valid() && Scanned(src, dir)
      modifies this`packages, this`tables
      ensures r.Ok? ==>
                && Valid() && Grown(old(State()), State()) && CleanDir(src, packages, dir)
                && SoundEntries(src, packages, dir, r.value) && FullEntries(src.fs, dir, r.value)
                && Registers(src, old(packages), packages, PackagesIn(src.fs, dir))
      ensures r.Err? ==> Justified(src, r.error) && !r.error.ShadowedDependencyCycle?
      decreases Unseen(src, packages), 5
    {
      GrownReflexive(State());
      if !src.fs.present(dir) {
        NothingThere(src, packages, dir);
        RegistersNothing(src, packages);
        return Ok(Empty());
      }
      DirVisited(src, dir);
      hide *;
      var checked := CheckedRealpath(dir);
      if checked.Err? {
        return Err(checked.error);
      }
      r := ScanPresent(dir);
    }

    /** The loop over the sorted entries of an existing directory. */
    method ScanPresent(dir: Path) returns (r: Result<OrderedMap<Name, Path>>)
      requires Valid() && Scanned(src, dir) && src.fs.present(dir) && Inside(src, dir)
      modifies this`packages, this`tables
      ensures r.Ok? ==>
                && Valid() && Grown(old(State()), State()) && CleanDir(src, packages, dir)
                && SoundEntries(src, packages, dir, r.value) && FullEntries(src.fs, dir, r.value)
                && Registers(src, old(packages), packages, PackagesIn(src.fs, dir))
      ensures r.Err? ==> Justified(src, r.error) && !r.error.ShadowedDependencyCycle?
      decreases Unseen(src, packages), 4
    {
      var entries: OrderedMap<Name, Path> := Empty();
      ghost var before := State();
      GrownReflexive(before);
      NoEntriesYet(src, packages, dir);
      assert EntryPackages(src.fs, dir, src.fs.list(dir)[..0]) == [];
      RegistersNothing(src, packages);
      ghost var start := packages;
      StateMeans();
      hide *;
      for i := 0 to |src.fs.list(dir)|
        invariant Valid() && Grown(before, State())
        invariant SoundEntries(src, packages, dir, entries)
        invariant EntriesUpTo(src, dir, i, entries)
        invariant Registers(src, start, packages, EntryPackages(src.fs, dir, src.fs.list(dir)[..i]))
      {
        ghost var mid, met := State(), packages;
        StateMeans();
        GrownIsSmaller(src, before, mid);
        var more := ScanEntry(dir, i, entries);
        if more.Err? {
          return more;
        }
        GrownTransitive(before, mid, State());
        RegistersEntry(src, start, met, packages, dir, i);
        entries := more.value;
      }
      EntriesEnd(src, packages, dir, entries);
      AllEntries(src, dir);
      r := Ok(entries);
    }

    /** One directory entry: the names it stands for, each visited. */
    method ScanEntry(dir: Path, i: nat, entries: OrderedMap<Name, Path>) returns (r: Result<OrderedMap<Name, Path>>)
      requires Valid() && Scanned(src, dir) && src.fs.present(dir) && i < |src.fs.list(dir)|
      requires SoundEntries(src, packages, dir, entries) && EntriesUpTo(src, dir, i, entries)
      modifies this`packages, this`tables
      ensures r.Ok? ==>
                && Valid() && Grown(old(State()), State())
                && SoundEntries(src, packages, dir, r.value) && EntriesUpTo(src, dir, i + 1, r.value)
                && Registers(src, old(packages), packages,
                             Reals(src.fs, dir, EntryNames(src.fs, dir, src.fs.list(dir)[i])))
      ensures r.Err? ==> Justified(src, r.error) && !r.error.ShadowedDependencyCycle?
      decreases Unseen(src, packages), 3
    {
      ValidMeans();
      hide *;
      var names := NamesOf(dir, src.fs.list(dir)[i]);
      if names.Err? {
        return Err(names.error);
      }
      NamesAreListed(src, dir, i, names.value);
      r := VisitAll(dir, names.value, entries);
      if r.Ok? {
        EntriesStep(src, dir, i, entries, names.value, r.value);
      }
    }

    lemma ValidMeans()
      requires Valid()
      ensures Consistent(src.fs) && ScanInv(src, State())
    {
    }

    lemma StateMeans()
      ensures State() == ScanState(packages, tables)
    {
    }

    method VisitAll(dir: Path, names: seq<Name>, start: OrderedMap<Name, Path>)
      returns (r: Result<OrderedMap<Name, Path>>)
      requires Valid() && Scanned(src, dir) && SoundEntries(src, packages, dir, start)
      requires forall n :: n in names ==> ValidName(n) && Listed(src.fs, dir, n)
      modifies this`packages, this`tables
      ensures r.Ok? ==>
                && Valid() && Grown(old(State()), State())
                && SoundEntries(src, packages, dir, r.value)
                && Registers(src, old(packages), packages, Reals(src.fs, dir, names))
                && forall n :: n in r.value.at <==> n in start.at || n in names
      ensures r.Err? ==> Justified(src, r.error) && !r.error.ShadowedDependencyCycle?
      decreases Unseen(src, packages), 2
    {
      var entries := start;
      ghost var before := State();
      ghost var begin := packages;
      assert Reals(src.fs, dir, names[..0]) == [];
      hide *;
      RegistersNothing(src, packages);
      StateMeans();
      VisitsStart(src, before, dir, start, names);
      for j := 0 to |names|
        invariant Valid()
        invariant Visits(src, before, State(), dir, start, names, j, entries)
        invariant Registers(src, begin, packages, Reals(src.fs, dir, names[..j]))
      {
        ghost var mid, met := State(), packages;
        StateMeans();
        VisitsSmaller(src, before, mid, dir, start, names, j, entries);
        ListedIsEntry(src, dir, names[j]);
        var found := Visit(dir, names[j], dir + Segments(names[j]));
        if found.Err? {
          return Err(found.error);
        }
        StateMeans();
        VisitsStep(src, before, mid, State(), dir, start, names, j, entries);
        RegistersName(src, begin, met, packages, dir, names, j);
        entries := entries.Set(names[j], found.value);
      }
      StateMeans();
      assert names[..|names|] == names;
      VisitsEnd(src, before, State(), dir, start, names, entries);
      r := Ok(entries);
    }

    /** Walks up from a package to the bundle root, like the consumer would. */
    method FindInSource(pkg: Path, name: Name) returns (r: Result<Option<Path>>)
      requires Consistent(src.fs) && Reached(src, pkg) && Wants(src, pkg, name)
      ensures NothingHeld(src, pkg, name) ==> r == Ok(None)
      ensures forall d :: NearestHolder(src, pkg, name, d) ==>
                if Inside(src, Slot(d, name)) then r == Ok(Some(src.fs.realpath(Slot(d, name)))) else r.Err?
      ensures NothingHeld(src, pkg, name) || exists d :: NearestHolder(src, pkg, name, d)
      ensures r.Ok? ==> r.value == SourceLookup(src, pkg, name)
      ensures r.Ok? && r.value.Some? ==> Known(src, r.value.value)
      ensures r.Err? ==> Justified(src, r.error) && !r.error.ShadowedDependencyCycle?
    {
      LookupFindsNearest(src, pkg, name);
      hide Reached, Justified, NothingHeld, NearestHolder;
      var dir := pkg;
      while true
        invariant LookupSlot(src, pkg, name) == LookupSlot(src, dir, name)
        decreases |dir|
      {
        var candidate := Slot(dir, name);
        if src.fs.present(Manifest(candidate)) {
          FoundVisited(src, pkg, name, candidate);
          hide Visited, Wants;
          var dependency := CheckedRealpath(candidate);
          if dependency.Err? {
            return Err(dependency.error);
          }
          return Ok(Some(dependency.value));
        }
        if dir == src.root || dir == [] {
          return Ok(None);
        }
        dir := Parent(dir);
      }
    }

    /** Records one more dependency of `pkg`, registering it first if it is new. */
    method AddDependency(pkg: Path, name: Name, dependency: Path) returns (r: Result<()>)
      requires Valid() && AllScanned(State()) && pkg in tables && ValidName(name) && Wants(src, pkg, name)
      requires Known(src, dependency) && SourceLookup(src, pkg, name) == Some(dependency)
      modifies this`packages, this`tables
      ensures r.Ok? ==>
                && Valid() && GrownAt(old(State()), State(), pkg)
                && pkg in tables && old(tables)[pkg].Valid()
                && tables[pkg] == old(tables)[pkg].Set(name, dependency)
      ensures r.Ok? ==> Registers(src, old(packages), packages, [dependency])
      ensures r.Err? ==> Justified(src, r.error) && !r.error.ShadowedDependencyCycle?
    {
      hide ScanInv, Grown, GrownAt, AllScanned, Known, SourceLookup, Wants, Justified, Registers;
      ghost var before := State();
      r := Register(dependency);
      if r.Err? {
        return;
      }
      GrownThenSet(before, State(), pkg, before.tables[pkg]);
      SetKeepsScan(src, State(), pkg, name, dependency);
      GrownThenSet(before, State(), pkg, tables[pkg].Set(name, dependency));
      tables := tables[pkg := tables[pkg].Set(name, dependency)];
    }

    /** One declared name: found above and recorded, unless it is excluded or already in the table. */
    method ResolveName(pkg: Path, name: Name) returns (r: Result<()>)
      requires Valid() && AllScanned(State()) && pkg in tables && name in src.fs.declares(pkg)
      modifies this`packages, this`tables
      ensures r.Ok? ==>
                && Valid() && GrownAt(old(State()), State(), pkg) && pkg in tables
                && (forall n :: n in old(tables)[pkg].at ==> n in tables[pkg].at)
                && Handled(src, pkg, name, tables[pkg])
      ensures r.Ok? ==> Registers(src, old(packages), packages, NameAdds(src, pkg, name))
      ensures r.Err? ==> Justified(src, r.error) && !r.error.ShadowedDependencyCycle?
    {
      hide Justified, SourceLookup, Grown, Registers;
      PackageKnown(src, State(), pkg, name);
      KnownNameAdds(src, State(), pkg, name);
      GrownAtReflexive(State(), pkg);
      hide ScanInv, GrownAt, AllScanned, Known, Reached;
      r := Ok(());
      if !ShouldExclude(Head(name)) && name !in tables[pkg].at {
        var found := FindInSource(pkg, name);
        if found.Err? {
          return Err(found.error);
        }
        if found.value.Some? {
          r := AddDependency(pkg, name, found.value.value);
        }
      }
    }

    /** Adds the declared dependencies that the package's own `node_modules` does not hold. */
    method ResolveDeclared(pkg: Path) returns (r: Result<()>)
      requires Valid() && AllScanned(State()) && pkg in tables
      modifies this`packages, this`tables
      ensures r.Ok? ==>
                && Valid() && GrownAt(old(State()), State(), pkg)
                && pkg in tables && Complete(src, pkg, tables[pkg])
      ensures r.Ok? ==> Registers(src, old(packages), packages, NamesAdd(src, pkg, src.fs.declares(pkg)))
      ensures r.Err? ==> Justified(src, r.error) && !r.error.ShadowedDependencyCycle?
    {
      hide ScanInv, GrownAt, AllScanned, Handled, Justified, Registers;
      var names := src.fs.declares(pkg);
      ghost var before, start := State(), packages;
      GrownAtReflexive(before, pkg);
      RegistersNothing(src, packages);
      assert NamesAdd(src, pkg, names[..0]) == [];
      for j := 0 to |names|
        invariant Valid() && GrownAt(before, State(), pkg)
        invariant pkg in tables && CompleteUpTo(src, pkg, j, tables[pkg])
        invariant Registers(src, start, packages, NamesAdd(src, pkg, names[..j]))
      {
        hide CompleteUpTo;
        ghost var mid, met := State(), packages;
        GrownAtScanned(before, mid, pkg);
        r := ResolveName(pkg, names[j]);
        if r.Err? {
          return;
        }
        GrownAtTransitive(before, mid, State(), pkg);
        RegistersDeclared(src, start, met, packages, pkg, names, j);
        CompleteStep(src, pkg, j, mid.tables[pkg], tables[pkg]);
      }
      assert names[..|names|] == names;
      r := Ok(());
    }

    /** One package of the worklist, which may add others to its end. */
    method ResolveNext(next: nat) returns (r: Result<()>)
      requires Valid() && next < |packages| && Completed(src, State(), next)
      modifies this`packages, this`tables
      ensures r.Ok? ==>
                && Valid() && Completed(src, State(), next + 1)
                && old(packages) <= packages && next < |packages| <= |src.fs.objects|
                && Discover(src, next + 1, packages) == Discover(src, next, old(packages))
      ensures r.Err? ==> Justified(src, r.error) && !r.error.ShadowedDependencyCycle?
    {
      hide *;
      ghost var before, met := State(), packages;
      ValidMeans();
      StateMeans();
      CompletedScanned(src, before, next);
      r := ResolveDeclared(packages[next]);
      if r.Ok? {
        ValidMeans();
        StateMeans();
        DiscoverStep(src, next, met, packages);
        WorklistStep(src, before, State(), next);
      }
    }

    /** The worklist: it also visits the packages it discovers on the way. */
    method ResolveAllDeclared() returns (r: Result<()>)
      requires Valid() && AllScanned(State())
      modifies this`packages, this`tables
      ensures r.Ok? ==> Valid() && old(packages) <= packages && Completed(src, State(), |packages|)
      ensures r.Ok? ==> packages == Discover(src, 0, old(packages))
      ensures r.Err? ==> Justified(src, r.error) && !r.error.ShadowedDependencyCycle?
    {
      hide *;
      ghost var start := packages;
      CompletedStart(src, State());
      var next := 0;
      while next < |packages|
        invariant Valid() && start <= packages && next <= |packages|
        invariant Completed(src, State(), next)
        invariant Discover(src, next, packages) == Discover(src, 0, start)
        decreases |src.fs.objects| - next
      {
        r := ResolveNext(next);
        if r.Err? {
          return;
        }
        next := next + 1;
      }
      DiscoverEnd(src, packages);
      r := Ok(());
    }

    /** Scans the sources in order; the first one listing a name wins it. */
    method ScanSources() returns (r: Result<OrderedMap<Name, Path>>)
      requires Valid() && packages == [] && tables == map[]
      modifies this`packages, this`tables
      ensures r.Ok? ==> Valid() && SourcesUpTo(src, State(), |src.dirs|, r.value)
      ensures r.Ok? ==> Registers(src, [], packages, ListedFirst(src, src.dirs))
      ensures r.Err? ==> Justified(src, r.error) && !r.error.ShadowedDependencyCycle?
    {
      var roots: OrderedMap<Name, Path> := Empty();
      NoSourcesYet(src, State());
      RegistersNothing(src, []);
      hide *;
      for k := 0 to |src.dirs|
        invariant Valid() && SourcesUpTo(src, State(), k, roots)
        invariant Registers(src, [], packages, ListedFirst(src, src.dirs[..k]))
      {
        SourceScanned(src, k);
        ghost var before, met := State(), packages;
        StateMeans();
        var entries := Scan(src.dirs[k]);
        if entries.Err? {
          return Err(entries.error);
        }
        StateMeans();
        MergeableTables(src, before, State(), k, roots, entries.value);
        var merged := MergeFirstWins(roots, entries.value);
        SourcesUpToStep(src, before, State(), k, roots, entries.value, merged);
        RegistersSource(src, met, packages, k);
        roots := merged;
      }
      assert src.dirs[..|src.dirs|] == src.dirs;
      r := Ok(roots);
    }

    /** Hoists every name some package depends on, unless a root already has it. */
    method HoistDependencies(explicit: OrderedMap<Name, Path>) returns (roots: OrderedMap<Name, Path>)
      requires Valid() && AllScanned(State()) && SoundRoots(packages, explicit)
      ensures Hoisted(State(), explicit, |packages|, roots)
    {
      roots := explicit;
      NothingHoistedYet(State(), explicit);
      hide ScanInv, SoundTable, Hoisted, SoundRoots;
      for k := 0 to |packages|
        invariant Hoisted(State(), explicit, k, roots)
      {
        TableSound(src, State(), packages[k]);
        RootsValid(State(), explicit, k, roots);
        ghost var before := roots;
        roots := MergeFirstWins(roots, tables[packages[k]]);
        HoistStep(src, State(), explicit, k, before, roots);
      }
    }
  }

  lemma NoSourcesYet(src: Source, s: Scan)
    requires s.packages == []
    ensures SourcesUpTo(src, s, 0, Empty())
  {
  }

  lemma RootsValid(s: Scan, explicit: OrderedMap<Name, Path>, k: nat, roots: OrderedMap<Name, Path>)
    requires Hoisted(s, explicit, k, roots)
    ensures roots.Valid()
  {
  }

  lemma TableSound(src: Source, s: Scan, pkg: Path)
    requires ScanInv(src, s) && AllScanned(s) && pkg in s.packages
    ensures pkg in s.tables && s.tables[pkg].Valid() && SoundTable(src, s.packages, pkg, s.tables[pkg])
  {
    hide Depends, SourceLookup, Known, CleanDir;
  }

  // ---------- In which order packages are met ----------

  lemma RegisteredNew(src: Source, s: seq<Path>, t: seq<Path>, pkg: Path)
    requires pkg !in s && Known(src, pkg)
    requires Registers(src, s + [pkg], t, PackagesIn(src.fs, pkg + [NODE_MODULES]))
    ensures Registers(src, s, t, [pkg])
  {
    hide Registers, PackagesIn;
    assert Modules(pkg) == pkg + [NODE_MODULES];
    KnownObject(src, pkg);
    RegistersNew(src, s, t, pkg);
  }

  lemma RegistersEntry(src: Source, s: seq<Path>, t: seq<Path>, u: seq<Path>, dir: Path, i: nat)
    requires i < |src.fs.list(dir)|
    requires Registers(src, s, t, EntryPackages(src.fs, dir, src.fs.list(dir)[..i]))
    requires Registers(src, t, u, Reals(src.fs, dir, EntryNames(src.fs, dir, src.fs.list(dir)[i])))
    ensures Registers(src, s, u, EntryPackages(src.fs, dir, src.fs.list(dir)[..i + 1]))
  {
    hide *;
    var list := src.fs.list(dir);
    EntryPackagesSnoc(src.fs, dir, list, i);
    RegistersThen(src, s, t, u, EntryPackages(src.fs, dir, list[..i]),
                  Reals(src.fs, dir, EntryNames(src.fs, dir, list[i])));
  }

  lemma AllEntries(src: Source, dir: Path)
    requires src.fs.present(dir)
    ensures EntryPackages(src.fs, dir, src.fs.list(dir)[..|src.fs.list(dir)|]) == PackagesIn(src.fs, dir)
  {
    assert src.fs.list(dir)[..|src.fs.list(dir)|] == src.fs.list(dir);
  }

  lemma RegistersName(src: Source, s: seq<Path>, t: seq<Path>, u: seq<Path>, dir: Path, names: seq<Name>, j: nat)
    requires j < |names| && Registers(src, s, t, Reals(src.fs, dir, names[..j]))
    requires Registers(src, t, u, [src.fs.realpath(dir + Segments(names[j]))])
    ensures Registers(src, s, u, Reals(src.fs, dir, names[..j + 1]))
  {
    hide Registers;
    var last := [src.fs.realpath(dir + Segments(names[j]))];
    assert Reals(src.fs, dir, names[..j + 1]) == Reals(src.fs, dir, names[..j]) + last;
    RegistersThen(src, s, t, u, Reals(src.fs, dir, names[..j]), last);
  }

  // A name that is excluded, found nowhere or in the table already adds no package.
  lemma KnownNameAdds(src: Source, s: Scan, pkg: Path, name: Name)
    requires ScanInv(src, s) && pkg in s.tables
    ensures ShouldExclude(Head(name)) || name in s.tables[pkg].at || SourceLookup(src, pkg, name).None? ==>
              Registers(src, s.packages, s.packages, NameAdds(src, pkg, name))
    ensures !ShouldExclude(Head(name)) && SourceLookup(src, pkg, name).Some? ==>
              NameAdds(src, pkg, name) == [SourceLookup(src, pkg, name).value]
  {
    hide Registers, SourceLookup, Depends, CleanDir, Listed;
    RegistersNothing(src, s.packages);
    if name in s.tables[pkg].at {
      RegistersSeen(src, s.packages, s.tables[pkg].at[name]);
    }
  }

  lemma RegistersDeclared(src: Source, s: seq<Path>, t: seq<Path>, u: seq<Path>, pkg: Path, names: seq<Name>, j: nat)
    requires j < |names| && Registers(src, s, t, NamesAdd(src, pkg, names[..j]))
    requires Registers(src, t, u, NameAdds(src, pkg, names[j]))
    ensures Registers(src, s, u, NamesAdd(src, pkg, names[..j + 1]))
  {
    hide *;
    NamesAddSnoc(src, pkg, names, j);
    RegistersThen(src, s, t, u, NamesAdd(src, pkg, names[..j]), NameAdds(src, pkg, names[j]));
  }

  lemma DiscoverStep(src: Source, i: nat, s: seq<Path>, t: seq<Path>)
    requires i < |s| && Registers(src, s, t, NamesAdd(src, s[i], src.fs.declares(s[i])))
    ensures Discover(src, i, s) == Discover(src, i + 1, t)
  {
    hide NamesAdd, Preorder;
  }

  lemma DiscoverEnd(src: Source, s: seq<Path>)
    ensures Discover(src, |s|, s) == s
  {
  }

  lemma RegistersSource(src: Source, s: seq<Path>, t: seq<Path>, k: nat)
    requires k < |src.dirs| && Registers(src, [], s, ListedFirst(src, src.dirs[..k]))
    requires Registers(src, s, t, PackagesIn(src.fs, src.dirs[k]))
    ensures Registers(src, [], t, ListedFirst(src, src.dirs[..k + 1]))
  {
    hide *;
    ListedFirstSnoc(src, src.dirs, k);
    RegistersThen(src, [], s, t, ListedFirst(src, src.dirs[..k]), PackagesIn(src.fs, src.dirs[k]));
  }

  // ---------- Why a file is visited ----------

  lemma ModulesScanned(src: Source, pkg: Path)
    requires Known(src, pkg)
    ensures Scanned(src, pkg + [NODE_MODULES])
  {
    assert Modules(pkg) == pkg + [NODE_MODULES];
  }

  lemma SourceScanned(src: Source, k: nat)
    requires k < |src.dirs|
    ensures Scanned(src, src.dirs[k])
  {
  }

  lemma DirVisited(src: Source, dir: Path)
    requires Scanned(src, dir) && src.fs.present(dir)
    ensures Visited(src, dir)
  {
  }

  lemma EntryVisited(src: Source, dir: Path, n: Name, file: Path)
    requires EntryOf(src, dir, n, file)
    ensures IsEntry(src, file) && Visited(src, file)
  {
  }

  lemma ListedIsEntry(src: Source, dir: Path, n: Name)
    requires Scanned(src, dir) && Listed(src.fs, dir, n)
    ensures EntryOf(src, dir, n, dir + Segments(n))
  {
  }

  lemma ScopeVisited(src: Source, dir: Path, entry: Segment)
    requires Scanned(src, dir) && src.fs.present(dir) && IsScope(src.fs, dir, entry)
    ensures Visited(src, dir + [entry])
  {
    assert ScopeOf(src, dir, entry, dir + [entry]);
  }

  lemma FoundVisited(src: Source, pkg: Path, n: Name, file: Path)
    requires Reached(src, pkg) && Wants(src, pkg, n) && LookupSlot(src, pkg, n) == Some(file)
    ensures Visited(src, file)
    ensures Consistent(src.fs) ==>
              Reached(src, src.fs.realpath(file)) && src.fs.present(Manifest(src.fs.realpath(file)))
  {
    hide Reached;
    assert FoundFor(src, pkg, n, file);
    var d := src.fs.realpath(file);
    assert Depends(src, pkg, n, d);
    ReachedStep(src, pkg, d);
    FoundManifest(src, pkg, n);
  }

  lemma {:induction false} FoundManifest(src: Source, from: Path, n: Name)
    ensures LookupSlot(src, from, n).Some? ==> src.fs.present(Manifest(LookupSlot(src, from, n).value))
    decreases |from|
  {
    if !src.fs.present(Manifest(Slot(from, n))) && from != src.root && from != [] {
      FoundManifest(src, Parent(from), n);
    }
  }

  /** The package an entry stands for is reached. */
  lemma EntryReached(src: Source, dir: Path, n: Name, file: Path)
    requires EntryOf(src, dir, n, file)
    ensures Reached(src, src.fs.realpath(file))
  {
    hide Reached, Listed;
    var d := src.fs.realpath(file);
    if dir in src.dirs {
      var i :| 0 <= i < |src.dirs| && src.dirs[i] == dir;
      ReachedStart(src, d);
    } else {
      var pkg :| Reached(src, pkg) && dir == Modules(pkg);
      assert Modules(pkg) + Segments(n) == Slot(pkg, n);
      assert Depends(src, pkg, n, d);
      ReachedStep(src, pkg, d);
    }
  }

  lemma NoEntriesYet(src: Source, packages: seq<Path>, dir: Path)
    ensures EntriesUpTo(src, dir, 0, Empty()) && SoundEntries(src, packages, dir, Empty())
  {
  }

  lemma NothingHoistedYet(s: Scan, explicit: OrderedMap<Name, Path>)
    requires AllScanned(s) && SoundRoots(s.packages, explicit)
    ensures Hoisted(s, explicit, 0, explicit)
  {
    hide SoundRoots;
  }

  lemma NothingThere(src: Source, packages: seq<Path>, dir: Path)
    requires !src.fs.present(dir)
    ensures CleanDir(src, packages, dir) && SoundEntries(src, packages, dir, Empty()) &&
              FullEntries(src.fs, dir, Empty())
  {
  }

  lemma PackageKnown(src: Source, s: Scan, pkg: Path, name: Name)
    requires Consistent(src.fs) && ScanInv(src, s) && pkg in s.tables && name in src.fs.declares(pkg)
    ensures Reached(src, pkg) && ValidName(name)
  {
  }

  lemma GrownAtReflexive(s: Scan, pkg: Path)
    requires AllScanned(s)
    ensures GrownAt(s, s, pkg)
  {
  }

  /** `merged` is `into` with the first `i` entries of `table` whose names were still free, in their order. */
  ghost predicate MergedUpTo(into: OrderedMap<Name, Path>, table: OrderedMap<Name, Path>, i: nat,
                             merged: OrderedMap<Name, Path>)
    requires i <= |table.keys|
  {
    && merged.Valid()
    && merged.keys == into.keys + NewKeys(table.keys[..i], into.at)
    && forall n :: n in merged.at ==>
         if n in into.at then merged.at[n] == into.at[n] else n in table.at && merged.at[n] == table.at[n]
  }

  lemma MergeStep(into: OrderedMap<Name, Path>, table: OrderedMap<Name, Path>, i: nat, merged: OrderedMap<Name, Path>)
    requires into.Valid() && table.Valid() && i < |table.keys| && MergedUpTo(into, table, i, merged)
    ensures table.keys[i] in table.at
    ensures var name := table.keys[i];
            MergedUpTo(into, table, i + 1, if merged.Has(name) then merged else merged.Set(name, table.at[name]))
  {
    hide NewKeys, NoDuplicates;
    NextName(table, i);
    NewKeysAre(table.keys[..i], into.at);
    NewKeysStep(table.keys[..i], table.keys[i], into.at);
    assert table.keys[i] in merged.at <==> table.keys[i] in merged.keys;
    assert table.keys[i] in into.at <==> table.keys[i] in into.keys;
  }

  lemma MergeEnd(into: OrderedMap<Name, Path>, table: OrderedMap<Name, Path>, merged: OrderedMap<Name, Path>)
    requires into.Valid() && table.Valid() && MergedUpTo(into, table, |table.keys|, merged)
    ensures merged.Valid() && merged.at == table.at + into.at
    ensures merged.keys == into.keys + NewKeys(table.keys, into.at)
  {
    assert table.keys[..|table.keys|] == table.keys;
    NewKeysAre(table.keys, into.at);
    assert forall n :: n in merged.at <==> n in merged.keys;
  }

  /** Adds the entries of `table` whose names are still free. */
  method MergeFirstWins(into: OrderedMap<Name, Path>, table: OrderedMap<Name, Path>)
    returns (merged: OrderedMap<Name, Path>)
    requires into.Valid() && table.Valid()
    ensures merged.Valid() && merged.at == table.at + into.at
    ensures merged.keys == into.keys + NewKeys(table.keys, into.at)
  {
    merged := into;
    assert into.keys + [] == into.keys;
    for i := 0 to |table.keys|
      invariant MergedUpTo(into, table, i, merged)
    {
      var name := table.keys[i];
      MergeStep(into, table, i, merged);
      hide MergedUpTo;
      if !merged.Has(name) {
        merged := merged.Set(name, table.at[name]);
      }
    }
    MergeEnd(into, table, merged);
  }
}
