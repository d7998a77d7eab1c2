// In which order packages are registered: depth first through their own `node_modules`, then, package
// by package, through what the declared names add.
module ScanOrder {
  import opened Options
  import opened Paths
  import opened SourceTree

  // ---------- The order, stated with an explicit stack ----------

  /** The names an entry of `dir` stands for, in order. */
  function EntryNames(fs: FileSystem, dir: Path, entry: Segment): seq<Name> {
    if Skipped(entry) then []
    else if !ScopeMark(entry) then [Plain(entry)]
    else
      var ids := fs.list(fs.realpath(dir + [entry]));
      seq(|ids|, i requires 0 <= i < |ids| => Scoped(entry, ids[i]))
  }

  function Reals(fs: FileSystem, dir: Path, names: seq<Name>): seq<Path> {
    seq(|names|, i requires 0 <= i < |names| => fs.realpath(dir + Segments(names[i])))
  }

  function EntryPackages(fs: FileSystem, dir: Path, entries: seq<Segment>): seq<Path> {
    if entries == [] then []
    else
      EntryPackages(fs, dir, entries[..|entries| - 1]) +
      Reals(fs, dir, EntryNames(fs, dir, entries[|entries| - 1]))
  }

  /** The packages a directory lists, in the order of its entries. */
  function PackagesIn(fs: FileSystem, dir: Path): seq<Path> {
    if fs.present(dir) then EntryPackages(fs, dir, fs.list(dir)) else []
  }

  /** Depth-first preorder: what a package lists itself goes onto the stack before its siblings. */
  function Preorder(src: Source, stack: seq<Path>, seen: seq<Path>): (r: seq<Path>)
    ensures seen <= r
    ensures |r| > |seen| ==> Unseen(src, r) < Unseen(src, seen)
    decreases Unseen(src, seen), |stack|
  {
    if stack == [] then seen
    else if stack[0] in seen || stack[0] !in src.fs.objects then Preorder(src, stack[1..], seen)
    else
      UnseenShrinks(src, seen, stack[0]);
      Preorder(src, PackagesIn(src.fs, Modules(stack[0])) + stack[1..], seen + [stack[0]])
  }

  lemma UnseenShrinks(src: Source, seen: seq<Path>, pkg: Path)
    requires pkg in src.fs.objects && pkg !in seen
    ensures Unseen(src, seen + [pkg]) < Unseen(src, seen)
  {
    assert pkg in Unseen(src, seen) && pkg !in Unseen(src, seen + [pkg]);
  }

  /** What a declared name adds; the scan has met what the package holds itself. */
  function NameAdds(src: Source, pkg: Path, n: Name): seq<Path> {
    if !ShouldExclude(Head(n)) && SourceLookup(src, pkg, n).Some? then [SourceLookup(src, pkg, n).value] else []
  }

  function NamesAdd(src: Source, pkg: Path, names: seq<Name>): seq<Path> {
    if names == [] then []
    else NamesAdd(src, pkg, names[..|names| - 1]) + NameAdds(src, pkg, names[|names| - 1])
  }

  /** The worklist: what the declared names of each package add, from the `i`-th on, new ones included. */
  function Discover(src: Source, i: nat, seen: seq<Path>): (r: seq<Path>)
    decreases Unseen(src, seen), |seen| - i
  {
    if i >= |seen| then seen
    else Discover(src, i + 1, Preorder(src, NamesAdd(src, seen[i], src.fs.declares(seen[i])), seen))
  }

  function ListedFirst(src: Source, dirs: seq<Path>): seq<Path> {
    if dirs == [] then [] else ListedFirst(src, dirs[..|dirs| - 1]) + PackagesIn(src.fs, dirs[|dirs| - 1])
  }

  /** The order in which the packages of a bundle are registered. */
  function Order(src: Source): seq<Path> {
    Discover(src, 0, Preorder(src, ListedFirst(src, src.dirs), []))
  }

  lemma EntryPackagesSnoc(fs: FileSystem, dir: Path, entries: seq<Segment>, i: nat)
    requires i < |entries|
    ensures EntryPackages(fs, dir, entries[..i + 1]) ==
            EntryPackages(fs, dir, entries[..i]) + Reals(fs, dir, EntryNames(fs, dir, entries[i]))
  {
    hide Reals, EntryNames;
    assert entries[..i + 1][..i] == entries[..i];
  }

  lemma NamesAddSnoc(src: Source, pkg: Path, names: seq<Name>, i: nat)
    requires i < |names|
    ensures NamesAdd(src, pkg, names[..i + 1]) == NamesAdd(src, pkg, names[..i]) + NameAdds(src, pkg, names[i])
  {
    hide NameAdds;
    assert names[..i + 1][..i] == names[..i];
  }

  lemma ListedFirstSnoc(src: Source, dirs: seq<Path>, i: nat)
    requires i < |dirs|
    ensures ListedFirst(src, dirs[..i + 1]) == ListedFirst(src, dirs[..i]) + PackagesIn(src.fs, dirs[i])
  {
    hide PackagesIn;
    assert dirs[..i + 1][..i] == dirs[..i];
  }

  // ---------- The recursive scan follows it ----------

  /** Registering `todo` one after the other, each with all it leads to, extends `before` to `after`. */
  ghost predicate Registers(src: Source, before: seq<Path>, after: seq<Path>, todo: seq<Path>) {
    after == Preorder(src, todo, before)
  }

  lemma {:induction false} PreorderAppend(src: Source, a: seq<Path>, b: seq<Path>, seen: seq<Path>)
    ensures Preorder(src, a + b, seen) == Preorder(src, b, Preorder(src, a, seen))
    decreases Unseen(src, seen), |a|
  {
    if a == [] {
      assert a + b == b;
    } else {
      assert (a + b)[0] == a[0] && (a + b)[1..] == a[1..] + b;
      if a[0] in seen || a[0] !in src.fs.objects {
        PreorderAppend(src, a[1..], b, seen);
      } else {
        var inside := PackagesIn(src.fs, Modules(a[0]));
        UnseenShrinks(src, seen, a[0]);
        assert inside + (a[1..] + b) == inside + a[1..] + b;
        PreorderAppend(src, inside + a[1..], b, seen + [a[0]]);
      }
    }
  }

  lemma RegistersNothing(src: Source, s: seq<Path>)
    ensures Registers(src, s, s, [])
  {
  }

  lemma RegistersSeen(src: Source, s: seq<Path>, pkg: Path)
    requires pkg in s
    ensures Registers(src, s, s, [pkg])
  {
    assert [pkg][1..] == [];
  }

  lemma RegistersNew(src: Source, s: seq<Path>, t: seq<Path>, pkg: Path)
    requires pkg !in s && pkg in src.fs.objects
    requires Registers(src, s + [pkg], t, PackagesIn(src.fs, Modules(pkg)))
    ensures Registers(src, s, t, [pkg])
  {
    var inside := PackagesIn(src.fs, Modules(pkg));
    assert [pkg][1..] == [] && inside + [] == inside;
  }

  lemma RegistersThen(src: Source, s: seq<Path>, t: seq<Path>, u: seq<Path>, a: seq<Path>, b: seq<Path>)
    requires Registers(src, s, t, a) && Registers(src, t, u, b)
    ensures Registers(src, s, u, a + b)
  {
    PreorderAppend(src, a, b, s);
  }
}
