// The source side of copyRuntimeModules: which real package each consumer
// resolves a name to before anything is copied.
module SourceTree {
  import opened Options
  import opened Paths
  import opened OrderedMaps
  import opened Flattening

  /**
   * The file system as the scan sees it. `list` gives the sorted entries of a
   * `node_modules` or scope directory, `declares` the dependency names of the
   * manifest in a real package directory, `objects` the real files and directories.
   */
  datatype FileSystem = FileSystem(
    present: Path -> bool,
    realpath: Path -> Path,
    list: Path -> seq<Segment>,
    declares: Path -> seq<Name>,
    objects: set<Path>
  )

  function Manifest(dir: Path): Path {
    dir + ["package.json"]
  }

  function Modules(pkg: Path): Path {
    pkg + [NODE_MODULES]
  }

  /** What any file system guarantees, and that package names are well formed. */
  ghost predicate Consistent(fs: FileSystem) {
    && (forall p :: fs.present(p) ==> fs.realpath(p) in fs.objects)
    && (forall p :: fs.present(p) ==> (fs.present(Manifest(p)) <==> fs.present(Manifest(fs.realpath(p)))))
    && (forall p :: fs.present(Manifest(p)) ==> fs.present(p))
    && (forall d :: NODE_MODULES !in fs.list(d))
    && (forall d, n :: n in fs.declares(d) ==> ValidName(n))
  }

  predicate EndsWith(s: string, suffix: string) {
    |s| >= |suffix| && s[|s| - |suffix|..] == suffix
  }

  const EXCLUDED_NAMES: set<string> :=
    {"@img", "sharp", "detect-libc", ".env", ".env.local", "tmp", ".DS_Store"}

  /** Besides the fixed names, the patterns `.env.*.local` and `*.log`. */
  predicate ShouldExclude(name: string) {
    || name in EXCLUDED_NAMES
    || (".env." <= name && EndsWith(name, ".local") && |name| >= |".env."| + |".local"|)
    || EndsWith(name, ".log")
  }

  predicate Skipped(entry: Segment) {
    "." <= entry || ShouldExclude(entry)
  }

  /** The directory entry under which a name is found. */
  function Head(name: Name): Segment {
    match name
    case Plain(id) => id
    case Scoped(scope, _) => scope
  }

  /** Whether the scan of `dir` reads `name` off the entry `entry`. */
  predicate Yields(fs: FileSystem, dir: Path, entry: Segment, name: Name) {
    && !Skipped(entry)
    && match name
       case Plain(id) => !ScopeMark(entry) && id == entry
       case Scoped(scope, id) => ScopeMark(entry) && scope == entry && id in fs.list(fs.realpath(dir + [entry]))
  }

  /** The names the scan of `dir` finds. */
  ghost predicate Listed(fs: FileSystem, dir: Path, name: Name) {
    fs.present(dir) && Head(name) in fs.list(dir) && Yields(fs, dir, Head(name), name)
  }

  predicate IsScope(fs: FileSystem, dir: Path, entry: Segment) {
    entry in fs.list(dir) && ScopeMark(entry) && !Skipped(entry)
  }

  // ---------- What the source means ----------

  /** The bundle: a file system, the root that links must not leave, and the source directories in order. */
  datatype Source = Source(fs: FileSystem, root: Path, dirs: seq<Path>)

  /** The slot a Node-style lookup finds, from a real package directory up to the bundle root. */
  function LookupSlot(src: Source, from: Path, name: Name): Option<Path>
    decreases |from|
  {
    if src.fs.present(Manifest(Slot(from, name))) then Some(Slot(from, name))
    else if from == src.root || from == [] then None
    else LookupSlot(src, Parent(from), name)
  }

  function SourceLookup(src: Source, from: Path, name: Name): Option<Path> {
    match LookupSlot(src, from, name)
    case Some(file) => Some(src.fs.realpath(file))
    case None => None
  }

  /** The directories a lookup passes: `from` and those above it, but none above the bundle root. */
  predicate Passes(src: Source, from: Path, d: Path) {
    d <= from && (src.root <= from ==> src.root <= d)
  }

  predicate Holds(src: Source, d: Path, n: Name) {
    src.fs.present(Manifest(Slot(d, n)))
  }

  /** The nearest directory passed that holds the name. */
  ghost predicate NearestHolder(src: Source, from: Path, n: Name, d: Path) {
    Passes(src, from, d) && Holds(src, d, n) && forall e :: Passes(src, from, e) && |e| > |d| ==> !Holds(src, e, n)
  }

  ghost predicate NothingHeld(src: Source, from: Path, n: Name) {
    forall d :: Passes(src, from, d) ==> !Holds(src, d, n)
  }

  /** The lookup finds the nearest holder, and nothing if and only if no directory passed holds the name. */
  lemma {:induction false} LookupFindsNearest(src: Source, from: Path, n: Name)
    ensures LookupSlot(src, from, n).None? <==> NothingHeld(src, from, n)
    ensures forall d :: NearestHolder(src, from, n, d) ==> LookupSlot(src, from, n) == Some(Slot(d, n))
    ensures LookupSlot(src, from, n).Some? ==>
              exists d :: NearestHolder(src, from, n, d) && LookupSlot(src, from, n) == Some(Slot(d, n))
    decreases |from|
  {
    hide Slot, Passes;
    PassesHere(src, from);
    if Holds(src, from, n) {
      assert NearestHolder(src, from, n, from);
    } else if from != src.root && from != [] {
      LookupFindsNearest(src, Parent(from), n);
      forall d | NearestHolder(src, Parent(from), n, d) ensures NearestHolder(src, from, n, d) {
      }
    }
  }

  // Besides itself a directory passes what its parent passes, unless it is the last one.
  lemma PassesHere(src: Source, from: Path)
    ensures Passes(src, from, from) && forall d :: Passes(src, from, d) ==> d == from || |d| < |from|
    ensures if from == src.root || from == [] then forall d :: Passes(src, from, d) ==> d == from
            else forall d :: Passes(src, from, d) <==> d == from || Passes(src, Parent(from), d)
  {
    if from != src.root && from != [] {
      forall d ensures Passes(src, from, d) <==> d == from || Passes(src, Parent(from), d) {
        assert d <= from <==> d == from || d <= Parent(from);
        assert src.root <= from <==> src.root <= Parent(from);
      }
    }
  }

  /** A declared dependency that is not excluded. */
  predicate Wants(src: Source, pkg: Path, n: Name) {
    n in src.fs.declares(pkg) && !ShouldExclude(Head(n))
  }

  /** What `pkg` means by `n`: a package in its own `node_modules`, or what a declared name resolves to. */
  ghost predicate Depends(src: Source, pkg: Path, n: Name, dependency: Path) {
    || (Listed(src.fs, Modules(pkg), n) && dependency == src.fs.realpath(Slot(pkg, n)))
    || (Wants(src, pkg, n) && SourceLookup(src, pkg, n) == Some(dependency))
  }

  ghost predicate Linked(src: Source, pkg: Path, dependency: Path) {
    exists n :: Depends(src, pkg, n, dependency)
  }

  ghost predicate LinkedAlong(src: Source, walk: seq<Path>) {
    forall i, j :: 0 <= i && j == i + 1 && j < |walk| ==> Linked(src, walk[i], walk[j])
  }

  ghost predicate Starts(src: Source, pkg: Path) {
    exists i, n :: 0 <= i < |src.dirs| && Listed(src.fs, src.dirs[i], n) &&
      pkg == src.fs.realpath(src.dirs[i] + Segments(n))
  }

  ghost predicate Route(src: Source, walk: seq<Path>, pkg: Path) {
    walk != [] && Starts(src, walk[0]) && LinkedAlong(src, walk) && walk[|walk| - 1] == pkg
  }

  /** The packages of the bundle: listed in a source directory, or a dependency of one that is reached. */
  ghost predicate Reached(src: Source, pkg: Path) {
    exists walk: seq<Path> :: Route(src, walk, pkg)
  }

  /** A reached package that depends on itself, possibly through others. */
  ghost predicate SourceCycle(src: Source) {
    exists walk: seq<Path> ::
      |walk| >= 2 && walk[0] == walk[|walk| - 1] && Reached(src, walk[0]) && LinkedAlong(src, walk)
  }

  lemma ReachedStep(src: Source, pkg: Path, dependency: Path)
    requires Reached(src, pkg) && Linked(src, pkg, dependency)
    ensures Reached(src, dependency)
  {
    hide Starts, Linked;
    var walk: seq<Path> :| Route(src, walk, pkg);
    assert Route(src, walk + [dependency], dependency);
  }

  lemma ReachedStart(src: Source, pkg: Path)
    requires Starts(src, pkg)
    ensures Reached(src, pkg)
  {
    hide Starts, Linked;
    assert Route(src, [pkg], pkg);
  }

  // ---------- The files the scan looks at ----------

  /** The directories whose entries are read. */
  ghost predicate Scanned(src: Source, dir: Path) {
    dir in src.dirs || exists pkg :: Reached(src, pkg) && dir == Modules(pkg)
  }

  ghost predicate EntryOf(src: Source, dir: Path, n: Name, file: Path) {
    Scanned(src, dir) && Listed(src.fs, dir, n) && file == dir + Segments(n)
  }

  ghost predicate ScopeOf(src: Source, dir: Path, entry: Segment, file: Path) {
    Scanned(src, dir) && src.fs.present(dir) && IsScope(src.fs, dir, entry) && file == dir + [entry]
  }

  ghost predicate FoundFor(src: Source, pkg: Path, n: Name, file: Path) {
    Reached(src, pkg) && Wants(src, pkg, n) && LookupSlot(src, pkg, n) == Some(file)
  }

  ghost predicate IsEntry(src: Source, file: Path) {
    exists dir, n :: EntryOf(src, dir, n, file)
  }

  /** A directory read, a scope directory, an entry for a package, or what a lookup found. */
  ghost predicate Visited(src: Source, file: Path) {
    || (Scanned(src, file) && src.fs.present(file))
    || (exists dir, entry :: ScopeOf(src, dir, entry, file))
    || IsEntry(src, file)
    || (exists pkg, n :: FoundFor(src, pkg, n, file))
  }

  predicate Inside(src: Source, file: Path) {
    src.fs.present(file) && src.root <= src.fs.realpath(file)
  }

  /** Every visited file exists and stays in the bundle, and every entry for a package has a manifest. */
  ghost predicate Healthy(src: Source) {
    && (forall file :: Visited(src, file) ==> Inside(src, file))
    && (forall file :: IsEntry(src, file) ==> src.fs.present(Manifest(file)))
  }

  datatype Error =
    | BrokenLink(file: Path)
    | LinkEscapes(file: Path)
    | NoManifest(file: Path)
    | ShadowedDependencyCycle

  datatype Result<T> = Ok(value: T) | Err(error: Error)

  /** Each rejection has a culprit among the files the scan looks at. */
  ghost predicate Justified(src: Source, e: Error) {
    match e
    case BrokenLink(file) => Visited(src, file) && !src.fs.present(file)
    case LinkEscapes(file) => Visited(src, file) && src.fs.present(file) && !(src.root <= src.fs.realpath(file))
    case NoManifest(file) => IsEntry(src, file) && src.fs.present(file) && !src.fs.present(Manifest(file))
    case ShadowedDependencyCycle => SourceCycle(src)
  }

  /** A scan that rejects a file proves the bundle unhealthy. */
  lemma RejectedMeansUnhealthy(src: Source, e: Error)
    requires Justified(src, e) && !e.ShadowedDependencyCycle?
    ensures !Healthy(src)
  {
    hide Visited, IsEntry;
  }

  // ---------- The invariant of the scan ----------

  type Tables = map<Path, OrderedMap<Name, Path>>

  /** The registered packages in insertion order, and the dependency tables of those already scanned. */
  datatype Scan = ScanState(packages: seq<Path>, tables: Tables)

  /** A dependency table that only says what the package means by its names. */
  ghost predicate SoundTable(src: Source, packages: seq<Path>, pkg: Path, table: OrderedMap<Name, Path>) {
    && table.Valid()
    && (forall n :: n in table.at ==>
          && ValidName(n) && table.at[n] in packages
          && Depends(src, pkg, n, table.at[n]) && SourceLookup(src, pkg, n) == Some(table.at[n]))
  }

  /** The package's own `node_modules` is covered. */
  ghost predicate FullTable(src: Source, pkg: Path, table: OrderedMap<Name, Path>) {
    forall n :: Listed(src.fs, Modules(pkg), n) ==> n in table.at
  }

  ghost predicate Known(src: Source, pkg: Path) {
    pkg in src.fs.objects && src.root <= pkg && src.fs.present(Manifest(pkg)) && Reached(src, pkg)
  }

  ghost predicate EntryOk(src: Source, packages: seq<Path>, file: Path) {
    src.fs.present(file) && src.fs.present(Manifest(file)) && src.fs.realpath(file) in packages
  }

  /** A directory whose scan went through. */
  ghost predicate CleanDir(src: Source, packages: seq<Path>, dir: Path) {
    src.fs.present(dir) ==>
      && Inside(src, dir)
      && (forall e :: IsScope(src.fs, dir, e) ==> Inside(src, dir + [e]))
      && (forall n :: Listed(src.fs, dir, n) ==> EntryOk(src, packages, dir + Segments(n)))
  }

  ghost predicate RecordOk(src: Source, packages: seq<Path>, pkg: Path, table: OrderedMap<Name, Path>) {
    && SoundTable(src, packages, pkg, table) && FullTable(src, pkg, table)
    && CleanDir(src, packages, Modules(pkg))
  }

  ghost predicate ScanInv(src: Source, s: Scan) {
    && NoDuplicates(s.packages)
    && (forall r :: r in s.packages ==> Known(src, r))
    && (forall r :: r in s.tables ==> r in s.packages && RecordOk(src, s.packages, r, s.tables[r]))
  }

  /** Packages are only added, tables of known packages never change, new packages get one. */
  ghost predicate Grown(s: Scan, t: Scan) {
    && s.packages <= t.packages
    && (forall r :: r in s.tables ==> r in t.tables && t.tables[r] == s.tables[r])
    && (forall r :: r in t.packages && r !in s.packages ==> r in t.tables)
  }

  ghost function Unseen(src: Source, packages: seq<Path>): set<Path> {
    src.fs.objects - (set r | r in packages)
  }

  /** What scanning `dir` returns for the entries in `seen`. */
  ghost predicate SoundEntries(src: Source, packages: seq<Path>, dir: Path, entries: OrderedMap<Name, Path>) {
    && entries.Valid()
    && (forall n :: n in entries.at ==>
          && ValidName(n) && EntryOk(src, packages, dir + Segments(n))
          && entries.at[n] == src.fs.realpath(dir + Segments(n)))
  }

  ghost predicate FullEntries(fs: FileSystem, dir: Path, entries: OrderedMap<Name, Path>) {
    forall n :: n in entries.at <==> Listed(fs, dir, n)
  }

  lemma EntriesAreTable(src: Source, packages: seq<Path>, pkg: Path, entries: OrderedMap<Name, Path>)
    requires SoundEntries(src, packages, Modules(pkg), entries) && FullEntries(src.fs, Modules(pkg), entries)
    requires CleanDir(src, packages, Modules(pkg))
    ensures RecordOk(src, packages, pkg, entries)
  {
    hide Listed, CleanDir;
    forall n | n in entries.at
      ensures Depends(src, pkg, n, entries.at[n]) && SourceLookup(src, pkg, n) == Some(entries.at[n])
    {
      assert Modules(pkg) + Segments(n) == Slot(pkg, n);
    }
  }

  lemma RecordGrows(src: Source, packages: seq<Path>, more: seq<Path>, pkg: Path, table: OrderedMap<Name, Path>)
    requires RecordOk(src, packages, pkg, table) && forall r :: r in packages ==> r in more
    ensures RecordOk(src, more, pkg, table)
  {
    hide Listed, Depends, SourceLookup;
  }

  lemma RegisterKeepsScan(src: Source, s: Scan, pkg: Path)
    requires ScanInv(src, s) && pkg !in s.packages && Known(src, pkg)
    ensures ScanInv(src, ScanState(s.packages + [pkg], s.tables))
    ensures Unseen(src, s.packages + [pkg]) < Unseen(src, s.packages)
  {
    hide Known, RecordOk;
    assert pkg in Unseen(src, s.packages) && pkg !in Unseen(src, s.packages + [pkg]) by {
      KnownObject(src, pkg);
    }
    forall r | r in s.tables ensures RecordOk(src, s.packages + [pkg], r, s.tables[r]) {
      RecordGrows(src, s.packages, s.packages + [pkg], r, s.tables[r]);
    }
  }

  lemma KnownObject(src: Source, pkg: Path)
    requires Known(src, pkg)
    ensures pkg in src.fs.objects
  {
  }

  /** A new package's own table arrives. */
  lemma TableKeepsScan(src: Source, s: Scan, pkg: Path, entries: OrderedMap<Name, Path>)
    requires ScanInv(src, s) && pkg in s.packages
    requires SoundEntries(src, s.packages, Modules(pkg), entries) && FullEntries(src.fs, Modules(pkg), entries)
    requires CleanDir(src, s.packages, Modules(pkg))
    ensures ScanInv(src, ScanState(s.packages, s.tables[pkg := entries]))
  {
    EntriesAreTable(src, s.packages, pkg, entries);
    hide Known, RecordOk;
  }

  lemma GrownIsSmaller(src: Source, s: Scan, t: Scan)
    requires Grown(s, t)
    ensures Unseen(src, t.packages) <= Unseen(src, s.packages)
  {
    assert forall r :: r in s.packages ==> r in t.packages;
  }

  lemma GrownReflexive(s: Scan)
    ensures Grown(s, s)
  {
  }

  lemma GrownTransitive(s: Scan, t: Scan, u: Scan)
    requires Grown(s, t) && Grown(t, u)
    ensures Grown(s, u)
  {
  }

  // Registering `pkg` and filling in its table later grows the scan.
  lemma RegisterGrows(s: Scan, t: Scan, pkg: Path, table: OrderedMap<Name, Path>)
    requires pkg !in s.packages && pkg !in s.tables && Grown(ScanState(s.packages + [pkg], s.tables), t)
    ensures pkg in t.packages && Grown(s, ScanState(t.packages, t.tables[pkg := table]))
  {
    assert pkg in s.packages + [pkg];
  }

  /** The scan of `dir` after its first `i` directory entries. */
  ghost predicate EntriesUpTo(src: Source, dir: Path, i: nat, entries: OrderedMap<Name, Path>) {
    var list := src.fs.list(dir);
    && i <= |list|
    && (forall n :: n in entries.at <==> Head(n) in list[..i] && Yields(src.fs, dir, Head(n), n))
    && (forall e :: e in list[..i] && ScopeMark(e) && !Skipped(e) ==> Inside(src, dir + [e]))
  }

  lemma EntriesStep(src: Source, dir: Path, i: nat, entries: OrderedMap<Name, Path>, names: seq<Name>,
                    more: OrderedMap<Name, Path>)
    requires i < |src.fs.list(dir)| && EntriesUpTo(src, dir, i, entries)
    requires forall n :: n in names <==> Yields(src.fs, dir, src.fs.list(dir)[i], n)
    requires IsScope(src.fs, dir, src.fs.list(dir)[i]) ==> Inside(src, dir + [src.fs.list(dir)[i]])
    requires forall n :: n in more.at <==> n in entries.at || n in names
    ensures EntriesUpTo(src, dir, i + 1, more)
  {
    hide Skipped, Inside;
    assert src.fs.list(dir)[..i + 1] == src.fs.list(dir)[..i] + [src.fs.list(dir)[i]];
  }

  lemma EntriesEnd(src: Source, packages: seq<Path>, dir: Path, entries: OrderedMap<Name, Path>)
    requires Inside(src, dir) && EntriesUpTo(src, dir, |src.fs.list(dir)|, entries)
    requires SoundEntries(src, packages, dir, entries)
    ensures FullEntries(src.fs, dir, entries) && CleanDir(src, packages, dir)
  {
    hide Skipped, EntryOk;
    assert src.fs.list(dir)[..|src.fs.list(dir)|] == src.fs.list(dir);
  }

  // A well-formed directory only yields well-formed names, and they are listed.
  lemma NamesAreListed(src: Source, dir: Path, i: nat, names: seq<Name>)
    requires Consistent(src.fs) && src.fs.present(dir) && i < |src.fs.list(dir)|
    requires forall n :: n in names <==> Yields(src.fs, dir, src.fs.list(dir)[i], n)
    ensures forall n :: n in names ==> ValidName(n) && Listed(src.fs, dir, n)
  {
  }

  /** Visiting the names of one directory entry, after the first `j` of them. */
  ghost predicate Visits(src: Source, s: Scan, t: Scan, dir: Path, start: OrderedMap<Name, Path>, names: seq<Name>,
                         j: nat,
                         entries: OrderedMap<Name, Path>)
  {
    && j <= |names|
    && Grown(s, t)
    && SoundEntries(src, t.packages, dir, entries)
    && (forall n :: n in names ==> ValidName(n) && Listed(src.fs, dir, n))
    && (forall n :: n in entries.at <==> n in start.at || n in names[..j])
  }

  lemma VisitsStart(src: Source, s: Scan, dir: Path, start: OrderedMap<Name, Path>, names: seq<Name>)
    requires SoundEntries(src, s.packages, dir, start)
    requires forall n :: n in names ==> ValidName(n) && Listed(src.fs, dir, n)
    ensures Visits(src, s, s, dir, start, names, 0, start)
  {
  }

  lemma VisitsSmaller(src: Source, s: Scan, t: Scan, dir: Path, start: OrderedMap<Name, Path>, names: seq<Name>, j: nat,
                      entries: OrderedMap<Name, Path>)
    requires Visits(src, s, t, dir, start, names, j, entries) && j < |names|
    ensures Unseen(src, t.packages) <= Unseen(src, s.packages)
    ensures Listed(src.fs, dir, names[j])
  {
    hide Listed, SoundEntries;
    GrownIsSmaller(src, s, t);
  }

  lemma VisitsStep(src: Source, s: Scan, t: Scan, u: Scan, dir: Path, start: OrderedMap<Name, Path>, names: seq<Name>,
                   j: nat, entries: OrderedMap<Name, Path>)
    requires j < |names| && Visits(src, s, t, dir, start, names, j, entries) && Grown(t, u)
    requires EntryOk(src, u.packages, dir + Segments(names[j]))
    ensures entries.Valid()
    ensures var more := entries.Set(names[j], src.fs.realpath(dir + Segments(names[j])));
            Visits(src, s, u, dir, start, names, j + 1, more)
  {
    hide Listed, EntryOk, Grown, SoundEntries;
    EntriesGrow(src, t, u, dir, entries);
    EntriesSet(src, u.packages, dir, entries, names[j]);
    GrownTransitive(s, t, u);
    OneMoreName(names, j);
  }

  lemma OneMoreName(names: seq<Name>, j: nat)
    requires j < |names|
    ensures forall n :: n in names[..j + 1] <==> n in names[..j] || n == names[j]
  {
    assert names[..j + 1] == names[..j] + [names[j]];
  }

  lemma VisitsEnd(src: Source, s: Scan, t: Scan, dir: Path, start: OrderedMap<Name, Path>, names: seq<Name>,
                  entries: OrderedMap<Name, Path>)
    requires Visits(src, s, t, dir, start, names, |names|, entries)
    ensures Grown(s, t) && SoundEntries(src, t.packages, dir, entries)
    ensures forall n :: n in entries.at <==> n in start.at || n in names
  {
    assert names[..|names|] == names;
  }

  lemma EntriesGrow(src: Source, s: Scan, t: Scan, dir: Path, entries: OrderedMap<Name, Path>)
    requires Grown(s, t) && SoundEntries(src, s.packages, dir, entries)
    ensures SoundEntries(src, t.packages, dir, entries)
  {
  }

  lemma EntriesSet(src: Source, packages: seq<Path>, dir: Path, entries: OrderedMap<Name, Path>, n: Name)
    requires SoundEntries(src, packages, dir, entries) && ValidName(n) && EntryOk(src, packages, dir + Segments(n))
    ensures entries.Valid()
    ensures SoundEntries(src, packages, dir, entries.Set(n, src.fs.realpath(dir + Segments(n))))
  {
    hide EntryOk;
  }

  // ---------- Declared dependencies and roots ----------

  /** Every declared, non-excluded dependency the source resolves is in the table. */
  ghost predicate Complete(src: Source, pkg: Path, table: OrderedMap<Name, Path>) {
    CompleteUpTo(src, pkg, |src.fs.declares(pkg)|, table)
  }

  ghost predicate CompleteUpTo(src: Source, pkg: Path, j: nat, table: OrderedMap<Name, Path>) {
    && j <= |src.fs.declares(pkg)|
    && (forall i :: 0 <= i < j ==> Handled(src, pkg, src.fs.declares(pkg)[i], table))
  }

  ghost predicate Handled(src: Source, pkg: Path, n: Name, table: OrderedMap<Name, Path>) {
    !ShouldExclude(Head(n)) && SourceLookup(src, pkg, n).Some? ==> n in table.at
  }

  ghost predicate AllScanned(s: Scan) {
    forall r :: r in s.packages ==> r in s.tables
  }

  /** Only the table of `pkg` may have gained entries; every other known table is unchanged. */
  ghost predicate GrownAt(s: Scan, t: Scan, pkg: Path) {
    && s.packages <= t.packages
    && (forall r :: r in s.tables && r != pkg ==> r in t.tables && t.tables[r] == s.tables[r])
    && AllScanned(t)
  }

  lemma GrownThenSet(s: Scan, t: Scan, pkg: Path, table: OrderedMap<Name, Path>)
    requires AllScanned(s) && Grown(s, t) && pkg in s.tables
    ensures pkg in t.tables && t.tables[pkg] == s.tables[pkg]
    ensures GrownAt(s, ScanState(t.packages, t.tables[pkg := table]), pkg)
  {
  }

  lemma GrownAtScanned(s: Scan, t: Scan, pkg: Path)
    requires GrownAt(s, t, pkg)
    ensures AllScanned(t)
  {
  }

  lemma GrownAtTransitive(s: Scan, t: Scan, u: Scan, pkg: Path)
    requires GrownAt(s, t, pkg) && GrownAt(t, u, pkg)
    ensures GrownAt(s, u, pkg)
  {
  }

  lemma CompleteStep(src: Source, pkg: Path, j: nat, table: OrderedMap<Name, Path>, more: OrderedMap<Name, Path>)
    requires j < |src.fs.declares(pkg)| && CompleteUpTo(src, pkg, j, table)
    requires forall n :: n in table.at ==> n in more.at
    requires Handled(src, pkg, src.fs.declares(pkg)[j], more)
    ensures CompleteUpTo(src, pkg, j + 1, more)
  {
    forall i | 0 <= i < j + 1 ensures Handled(src, pkg, src.fs.declares(pkg)[i], more) {
      if i < j {
        assert Handled(src, pkg, src.fs.declares(pkg)[i], table);
      }
    }
  }

  lemma SetKeepsRecord(src: Source, packages: seq<Path>, pkg: Path, table: OrderedMap<Name, Path>, n: Name, found: Path)
    requires RecordOk(src, packages, pkg, table) && ValidName(n) && found in packages
    requires Wants(src, pkg, n) && SourceLookup(src, pkg, n) == Some(found)
    ensures table.Valid() && RecordOk(src, packages, pkg, table.Set(n, found))
  {
    hide CleanDir, SourceLookup, Listed;
  }

  lemma SetKeepsScan(src: Source, s: Scan, pkg: Path, n: Name, found: Path)
    requires ScanInv(src, s) && pkg in s.tables
    requires ValidName(n) && found in s.packages && Wants(src, pkg, n) && SourceLookup(src, pkg, n) == Some(found)
    ensures s.tables[pkg].Valid()
    ensures ScanInv(src, ScanState(s.packages, s.tables[pkg := s.tables[pkg].Set(n, found)]))
  {
    hide Known, RecordOk, Wants, SourceLookup;
    SetKeepsRecord(src, s.packages, pkg, s.tables[pkg], n, found);
  }

  /** The worklist has completed the first `k` packages. */
  ghost predicate Completed(src: Source, s: Scan, k: nat) {
    && k <= |s.packages|
    && AllScanned(s)
    && (forall i :: 0 <= i < k ==> s.packages[i] in s.tables && Complete(src, s.packages[i], s.tables[s.packages[i]]))
  }

  lemma CompletedStart(src: Source, s: Scan)
    requires AllScanned(s)
    ensures Completed(src, s, 0)
  {
  }

  lemma CompletedScanned(src: Source, s: Scan, k: nat)
    requires Completed(src, s, k)
    ensures AllScanned(s) && forall r :: r in s.packages ==> r in s.tables
  {
    hide Complete;
  }

  lemma CompletedStep(src: Source, s: Scan, t: Scan, k: nat)
    requires k < |s.packages| && NoDuplicates(s.packages) && Completed(src, s, k)
    requires GrownAt(s, t, s.packages[k]) && s.packages[k] in t.tables
    requires Complete(src, s.packages[k], t.tables[s.packages[k]])
    ensures Completed(src, t, k + 1) && s.packages <= t.packages
  {
    hide Complete;
    forall i | 0 <= i < k + 1
      ensures t.packages[i] in t.tables && Complete(src, t.packages[i], t.tables[t.packages[i]]) {
      assert t.packages[i] == s.packages[i];
    }
  }

  lemma WorklistStep(src: Source, s: Scan, t: Scan, k: nat)
    requires ScanInv(src, s) && ScanInv(src, t) && k < |s.packages| && Completed(src, s, k)
    requires GrownAt(s, t, s.packages[k]) && s.packages[k] in t.tables
    requires Complete(src, s.packages[k], t.tables[s.packages[k]])
    ensures Completed(src, t, k + 1) && s.packages <= t.packages
    ensures k < |t.packages| <= |src.fs.objects|
  {
    hide RecordOk, Known, Complete, Completed, GrownAt;
    CompletedStep(src, s, t, k);
    PackagesBounded(src, t);
  }

  lemma PackagesBounded(src: Source, s: Scan)
    requires ScanInv(src, s)
    ensures |s.packages| <= |src.fs.objects|
  {
    hide RecordOk, Reached;
    DistinctCount(s.packages, src.fs.objects);
  }

  lemma {:induction false} DistinctCount(s: seq<Path>, all: set<Path>)
    requires NoDuplicates(s) && forall r :: r in s ==> r in all
    ensures |s| <= |all|
  {
    if s != [] {
      var last := s[|s| - 1];
      var rest := s[..|s| - 1];
      forall r | r in rest ensures r in all - {last} {
        assert r in s;
      }
      DistinctCount(rest, all - {last});
    }
  }

  /** Root names are well formed and stand for registered packages. */
  ghost predicate SoundRoots(packages: seq<Path>, roots: OrderedMap<Name, Path>) {
    && roots.Valid()
    && (forall n :: n in roots.at ==> ValidName(n) && roots.at[n] in packages)
  }

  /** The first source that lists a name decides what the root of that name is. */
  ghost predicate FirstSourceWins(src: Source, k: nat, roots: map<Name, Path>) {
    && k <= |src.dirs|
    && (forall n :: n in roots <==> exists i :: 0 <= i < k && Listed(src.fs, src.dirs[i], n))
    && (forall i, n :: 0 <= i < k && FirstListing(src, i, n) ==>
          n in roots && roots[n] == src.fs.realpath(src.dirs[i] + Segments(n)))
  }

  ghost predicate FirstListing(src: Source, i: nat, n: Name)
    requires i < |src.dirs|
  {
    Listed(src.fs, src.dirs[i], n) && forall k :: 0 <= k < i ==> !Listed(src.fs, src.dirs[k], n)
  }

  lemma SourcesStep(src: Source, packages: seq<Path>, k: nat, roots: map<Name, Path>, entries: OrderedMap<Name, Path>)
    requires k < |src.dirs| && FirstSourceWins(src, k, roots)
    requires SoundEntries(src, packages, src.dirs[k], entries) && FullEntries(src.fs, src.dirs[k], entries)
    ensures FirstSourceWins(src, k + 1, entries.at + roots)
  {
    hide Listed, EntryOk;
    forall n | n in entries.at + roots ensures exists i :: 0 <= i < k + 1 && Listed(src.fs, src.dirs[i], n) {
      if n in roots {
        var i :| 0 <= i < k && Listed(src.fs, src.dirs[i], n);
      } else {
        assert Listed(src.fs, src.dirs[k], n);
      }
    }
    forall i, n | 0 <= i < k + 1 && FirstListing(src, i, n)
      ensures n in entries.at + roots && (entries.at + roots)[n] == src.fs.realpath(src.dirs[i] + Segments(n))
    {
      if i == k {
        assert n !in roots;
      }
    }
  }

  /** The state after scanning the first `k` sources. */
  ghost predicate SourcesUpTo(src: Source, s: Scan, k: nat, roots: OrderedMap<Name, Path>) {
    && AllScanned(s)
    && SoundRoots(s.packages, roots)
    && FirstSourceWins(src, k, roots.at)
    && (forall i :: 0 <= i < k ==> CleanDir(src, s.packages, src.dirs[i]))
  }

  lemma MergeableTables(src: Source, s: Scan, t: Scan, k: nat, roots: OrderedMap<Name, Path>,
                        entries: OrderedMap<Name, Path>)
    requires k < |src.dirs| && SourcesUpTo(src, s, k, roots) && SoundEntries(src, t.packages, src.dirs[k], entries)
    ensures roots.Valid() && entries.Valid()
  {
  }

  lemma CleanGrows(src: Source, packages: seq<Path>, more: seq<Path>, dir: Path)
    requires CleanDir(src, packages, dir) && packages <= more
    ensures CleanDir(src, more, dir)
  {
    hide Listed, Inside, IsScope;
  }

  lemma SourcesUpToStep(src: Source, s: Scan, t: Scan, k: nat, roots: OrderedMap<Name, Path>,
                        entries: OrderedMap<Name, Path>,
                        merged: OrderedMap<Name, Path>)
    requires k < |src.dirs| && SourcesUpTo(src, s, k, roots)
    requires Grown(s, t) && CleanDir(src, t.packages, src.dirs[k])
    requires SoundEntries(src, t.packages, src.dirs[k], entries) && FullEntries(src.fs, src.dirs[k], entries)
    requires merged.Valid() && merged.at == entries.at + roots.at
    ensures SourcesUpTo(src, t, k + 1, merged)
  {
    hide FirstSourceWins, CleanDir;
    SourcesStep(src, t.packages, k, roots.at, entries);
    forall i | 0 <= i < k ensures CleanDir(src, t.packages, src.dirs[i]) {
      CleanGrows(src, s.packages, t.packages, src.dirs[i]);
    }
  }

  /** No earlier package depends on `n`. */
  ghost predicate FirstDependent(s: Scan, i: nat, n: Name)
    requires i < |s.packages| && AllScanned(s)
  {
    n in s.tables[s.packages[i]].at && forall j :: 0 <= j < i ==> n !in s.tables[s.packages[j]].at
  }

  /** A name no source lists gets what the first of its dependents means by it. */
  ghost predicate FirstDependentWins(s: Scan, explicit: map<Name, Path>, k: nat, roots: map<Name, Path>)
    requires k <= |s.packages| && AllScanned(s)
  {
    forall i, n :: 0 <= i < k && FirstDependent(s, i, n) && n !in explicit ==>
      n in roots && roots[n] == s.tables[s.packages[i]].at[n]
  }

  /** A root is listed by a source, or some package depends on it. */
  ghost predicate HasReason(s: Scan, explicit: map<Name, Path>, k: nat, roots: map<Name, Path>)
    requires k <= |s.packages| && AllScanned(s)
  {
    forall n :: n in roots ==> n in explicit || exists i :: 0 <= i < k && FirstDependent(s, i, n)
  }

  /** The roots after hoisting the dependencies of the first `k` packages. */
  ghost predicate Hoisted(s: Scan, explicit: OrderedMap<Name, Path>, k: nat, roots: OrderedMap<Name, Path>) {
    && k <= |s.packages| && AllScanned(s)
    && SoundRoots(s.packages, roots)
    && (forall n :: n in explicit.at ==> n in roots.at && roots.at[n] == explicit.at[n])
    && FirstDependentWins(s, explicit.at, k, roots.at)
    && HasReason(s, explicit.at, k, roots.at)
  }

  lemma RootsMerge(src: Source, packages: seq<Path>, pkg: Path, table: OrderedMap<Name, Path>,
                   roots: OrderedMap<Name, Path>, merged: OrderedMap<Name, Path>)
    requires SoundRoots(packages, roots) && SoundTable(src, packages, pkg, table)
    requires merged.Valid() && merged.at == table.at + roots.at
    ensures SoundRoots(packages, merged)
  {
    hide Depends, SourceLookup;
  }

  lemma HoistStep(src: Source, s: Scan, explicit: OrderedMap<Name, Path>, k: nat, roots: OrderedMap<Name, Path>,
                  merged: OrderedMap<Name, Path>)
    requires k < |s.packages| && Hoisted(s, explicit, k, roots)
    requires SoundTable(src, s.packages, s.packages[k], s.tables[s.packages[k]])
    requires merged.Valid() && merged.at == s.tables[s.packages[k]].at + roots.at
    ensures Hoisted(s, explicit, k + 1, merged)
  {
    hide FirstDependent, SoundTable, SoundRoots;
    RootsMerge(src, s.packages, s.packages[k], s.tables[s.packages[k]], roots, merged);
    ReasonStep(s, explicit, k, roots, merged.at);
    WinsStep(s, explicit, k, roots, merged.at);
    hide FirstDependentWins, HasReason;
  }

  lemma ReasonStep(s: Scan, explicit: OrderedMap<Name, Path>, k: nat, roots: OrderedMap<Name, Path>, merged: map<Name,
                   Path>)
    requires k < |s.packages| && Hoisted(s, explicit, k, roots)
    requires merged == s.tables[s.packages[k]].at + roots.at
    ensures HasReason(s, explicit.at, k + 1, merged)
  {
    hide FirstDependent, FirstDependentWins, SoundRoots;
    forall n | n in merged ensures n in explicit.at || exists i :: 0 <= i < k + 1 && FirstDependent(s, i, n) {
      if n !in roots.at {
        NewDependent(s, explicit, k, roots, n);
      }
    }
  }

  lemma WinsStep(s: Scan, explicit: OrderedMap<Name, Path>, k: nat, roots: OrderedMap<Name, Path>, merged: map<Name,
                 Path>)
    requires k < |s.packages| && Hoisted(s, explicit, k, roots)
    requires merged == s.tables[s.packages[k]].at + roots.at
    ensures FirstDependentWins(s, explicit.at, k + 1, merged)
  {
    hide HasReason, SoundRoots;
    forall i, n | 0 <= i < k + 1 && FirstDependent(s, i, n) && n !in explicit.at
      ensures n in merged && merged[n] == s.tables[s.packages[i]].at[n]
    {
      if i == k {
        StillFree(s, explicit, k, roots, n);
      }
    }
  }

  lemma NewDependent(s: Scan, explicit: OrderedMap<Name, Path>, k: nat, roots: OrderedMap<Name, Path>, n: Name)
    requires k < |s.packages| && Hoisted(s, explicit, k, roots)
    requires n !in roots.at && n in s.tables[s.packages[k]].at
    ensures FirstDependent(s, k, n)
  {
    NewlyHoisted(s, explicit, k, roots, n);
  }

  lemma StillFree(s: Scan, explicit: OrderedMap<Name, Path>, k: nat, roots: OrderedMap<Name, Path>, n: Name)
    requires k < |s.packages| && Hoisted(s, explicit, k, roots)
    requires FirstDependent(s, k, n) && n !in explicit.at
    ensures n !in roots.at && n in s.tables[s.packages[k]].at
  {
    hide SoundRoots, FirstDependentWins;
  }

  // A name without a root so far has no dependent so far.
  lemma NewlyHoisted(s: Scan, explicit: OrderedMap<Name, Path>, k: nat, roots: OrderedMap<Name, Path>, n: Name)
    requires Hoisted(s, explicit, k, roots) && n !in roots.at
    ensures forall j :: 0 <= j < k ==> n !in s.tables[s.packages[j]].at
  {
    forall j | 0 <= j < k ensures n !in s.tables[s.packages[j]].at {
      if n in s.tables[s.packages[j]].at {
        var i := LeastDependent(s, j, n);
      }
    }
  }

  lemma {:induction false} LeastDependent(s: Scan, j: nat, n: Name) returns (i: nat)
    requires j < |s.packages| && AllScanned(s) && n in s.tables[s.packages[j]].at
    ensures i <= j && FirstDependent(s, i, n)
    decreases j
  {
    if k :| 0 <= k < j && n in s.tables[s.packages[k]].at {
      i := LeastDependent(s, k, n);
    } else {
      i := j;
    }
  }

  // ---------- What a finished scan records ----------

  /** The tables are exactly the reached packages, with exactly what they mean by their names. */
  ghost predicate Describes(src: Source, tables: Tables) {
    && (forall r :: r in tables <==> Reached(src, r))
    && (forall r, n :: r in tables && n in tables[r].at ==> Depends(src, r, n, tables[r].at[n]))
    && (forall r, n, d :: r in tables && Depends(src, r, n, d) ==> n in tables[r].at && tables[r].at[n] == d)
  }

  ghost predicate FinishedScan(src: Source, s: Scan) {
    && Consistent(src.fs) && ScanInv(src, s) && Completed(src, s, |s.packages|)
    && (forall i :: 0 <= i < |src.dirs| ==> CleanDir(src, s.packages, src.dirs[i]))
  }

  lemma TableOf(src: Source, s: Scan, r: Path)
    requires FinishedScan(src, s) && r in s.packages
    ensures r in s.tables && RecordOk(src, s.packages, r, s.tables[r]) && Complete(src, r, s.tables[r]) && Known(src, r)
  {
    hide RecordOk, Known, Complete, CleanDir;
    var i :| 0 <= i < |s.packages| && s.packages[i] == r;
  }

  lemma ListedHolds(src: Source, packages: seq<Path>, r: Path, table: OrderedMap<Name, Path>, n: Name)
    requires RecordOk(src, packages, r, table) && Listed(src.fs, Modules(r), n)
    ensures n in table.at && table.at[n] == src.fs.realpath(Slot(r, n))
  {
    assert Modules(r) + Segments(n) == Slot(r, n);
    ListedPresent(src.fs, Modules(r), n);
    hide Listed, Depends, Inside, IsScope;
    assert EntryOk(src, packages, Slot(r, n));
    assert LookupSlot(src, r, n) == Some(Slot(r, n));
  }

  lemma WantedHolds(src: Source, packages: seq<Path>, r: Path, table: OrderedMap<Name, Path>, n: Name)
    requires RecordOk(src, packages, r, table) && Complete(src, r, table)
    requires Wants(src, r, n) && SourceLookup(src, r, n).Some?
    ensures n in table.at && SourceLookup(src, r, n) == Some(table.at[n])
  {
    hide Listed, Depends, CleanDir, SourceLookup;
    var j :| 0 <= j < |src.fs.declares(r)| && src.fs.declares(r)[j] == n;
    assert Handled(src, r, src.fs.declares(r)[j], table);
  }

  /** Whatever a registered package depends on is registered, under that name. */
  lemma TableHolds(src: Source, s: Scan, r: Path, n: Name, d: Path)
    requires FinishedScan(src, s) && r in s.packages && Depends(src, r, n, d)
    ensures r in s.tables && n in s.tables[r].at && s.tables[r].at[n] == d && d in s.packages
  {
    hide FinishedScan, Complete, Known, Listed, SourceLookup, RecordOk;
    TableOf(src, s, r);
    if Listed(src.fs, Modules(r), n) && d == src.fs.realpath(Slot(r, n)) {
      ListedHolds(src, s.packages, r, s.tables[r], n);
    } else {
      WantedHolds(src, s.packages, r, s.tables[r], n);
    }
    InPackages(src, s.packages, r, s.tables[r], n);
  }

  lemma InPackages(src: Source, packages: seq<Path>, r: Path, table: OrderedMap<Name, Path>, n: Name)
    requires RecordOk(src, packages, r, table) && n in table.at
    ensures table.at[n] in packages && Depends(src, r, n, table.at[n]) && ValidName(n)
  {
    hide Depends, CleanDir, SourceLookup;
  }

  lemma StartsRegistered(src: Source, s: Scan, pkg: Path)
    requires FinishedScan(src, s) && Starts(src, pkg)
    ensures pkg in s.packages
  {
    hide ScanInv, Completed, Listed, Inside;
    var i, n :| 0 <= i < |src.dirs| && Listed(src.fs, src.dirs[i], n) &&
      pkg == src.fs.realpath(src.dirs[i] + Segments(n));
    assert CleanDir(src, s.packages, src.dirs[i]);
    ListedPresent(src.fs, src.dirs[i], n);
  }

  lemma ListedPresent(fs: FileSystem, dir: Path, n: Name)
    requires Listed(fs, dir, n)
    ensures fs.present(dir)
  {
  }

  lemma {:induction false} RouteRegistered(src: Source, s: Scan, walk: seq<Path>, pkg: Path)
    requires FinishedScan(src, s) && Route(src, walk, pkg)
    ensures pkg in s.packages
    decreases |walk|
  {
    hide FinishedScan, Starts, Depends;
    var last := |walk| - 1;
    if last == 0 {
      StartsRegistered(src, s, pkg);
    } else {
      assert Route(src, walk[..last], walk[last - 1]);
      RouteRegistered(src, s, walk[..last], walk[last - 1]);
      assert Linked(src, walk[last - 1], walk[last]);
      var n :| Depends(src, walk[last - 1], n, walk[last]);
      TableHolds(src, s, walk[last - 1], n, walk[last]);
    }
  }

  /** A finished scan knows every reached package. */
  lemma ReachedRegistered(src: Source, s: Scan, pkg: Path)
    requires FinishedScan(src, s) && Reached(src, pkg)
    ensures pkg in s.packages
  {
    hide FinishedScan, Route;
    var walk: seq<Path> :| Route(src, walk, pkg);
    RouteRegistered(src, s, walk, pkg);
  }

  lemma FinishedDescribes(src: Source, s: Scan)
    requires FinishedScan(src, s)
    ensures Describes(src, s.tables)
  {
    hide FinishedScan, Reached, Depends;
    forall r ensures r in s.tables <==> Reached(src, r) {
      TablesReached(src, s, r);
    }
    forall r, n | r in s.tables && n in s.tables[r].at ensures Depends(src, r, n, s.tables[r].at[n]) {
      TablesReached(src, s, r);
      TableOf(src, s, r);
      InPackages(src, s.packages, r, s.tables[r], n);
    }
    forall r, n, d | r in s.tables && Depends(src, r, n, d) ensures n in s.tables[r].at && s.tables[r].at[n] == d {
      TablesReached(src, s, r);
      TableHolds(src, s, r, n, d);
    }
  }

  lemma TablesReached(src: Source, s: Scan, r: Path)
    requires FinishedScan(src, s)
    ensures r in s.tables <==> Reached(src, r)
    ensures r in s.tables <==> r in s.packages
  {
    hide RecordOk, Complete, CleanDir, Reached;
    if Reached(src, r) {
      ReachedRegistered(src, s, r);
    }
  }

  /** A scan that goes through proves the bundle healthy. */
  lemma FinishedMeansHealthy(src: Source, s: Scan)
    requires FinishedScan(src, s)
    ensures Healthy(src)
  {
    forall file | Visited(src, file) ensures Inside(src, file) {
      VisitedInside(src, s, file);
    }
    forall file | IsEntry(src, file) ensures src.fs.present(Manifest(file)) {
      EntryInside(src, s, file);
    }
    hide FinishedScan, Visited, IsEntry, Inside;
  }

  lemma ScannedClean(src: Source, s: Scan, dir: Path)
    requires FinishedScan(src, s) && Scanned(src, dir)
    ensures CleanDir(src, s.packages, dir)
  {
    hide CleanDir, Reached, ScanInv, Completed;
    if dir in src.dirs {
      var i :| 0 <= i < |src.dirs| && src.dirs[i] == dir;
    } else {
      var pkg :| Reached(src, pkg) && dir == Modules(pkg);
      ReachedRegistered(src, s, pkg);
      TableOf(src, s, pkg);
    }
  }

  lemma EntryInside(src: Source, s: Scan, file: Path)
    requires FinishedScan(src, s) && IsEntry(src, file)
    ensures Inside(src, file) && src.fs.present(Manifest(file))
  {
    hide FinishedScan, Scanned, Reached;
    var dir, n :| EntryOf(src, dir, n, file);
    ScannedClean(src, s, dir);
    assert EntryOk(src, s.packages, file);
    TableOf(src, s, src.fs.realpath(file));
  }

  lemma FoundInside(src: Source, s: Scan, pkg: Path, n: Name, file: Path)
    requires FinishedScan(src, s) && FoundFor(src, pkg, n, file)
    ensures Inside(src, file)
  {
    hide Reached, ScanInv, Completed, CleanDir;
    ReachedRegistered(src, s, pkg);
    SlotPresent(src, pkg, n);
    TableHolds(src, s, pkg, n, src.fs.realpath(file));
    TableOf(src, s, src.fs.realpath(file));
  }

  lemma {:induction false} SlotPresent(src: Source, from: Path, n: Name)
    requires Consistent(src.fs)
    ensures LookupSlot(src, from, n).Some? ==> src.fs.present(LookupSlot(src, from, n).value)
    decreases |from|
  {
    if !src.fs.present(Manifest(Slot(from, n))) && from != src.root && from != [] {
      SlotPresent(src, Parent(from), n);
    }
  }

  lemma VisitedInside(src: Source, s: Scan, file: Path)
    requires FinishedScan(src, s) && Visited(src, file)
    ensures Inside(src, file)
  {
    hide FinishedScan, Scanned, Inside;
    if IsEntry(src, file) {
      EntryInside(src, s, file);
    } else if pkg, n :| FoundFor(src, pkg, n, file) {
      FoundInside(src, s, pkg, n, file);
    } else if dir, entry :| ScopeOf(src, dir, entry, file) {
      ScannedClean(src, s, dir);
    } else {
      ScannedClean(src, s, file);
    }
  }
}
