// File-system paths as sequences of segments, and the `node_modules` slots
// that package names occupy below a directory.
module Paths {
  type Segment = string
  type Path = seq<Segment>

  /** A package name: `x`, or `@scope/x` below a scope directory. */
  datatype Name = Plain(id: Segment) | Scoped(scope: Segment, id: Segment)

  const NODE_MODULES: Segment := "node_modules"

  predicate ScopeMark(s: Segment) {
    |s| > 0 && s[0] == '@'
  }

  /** Only scopes carry the `@`, and no segment of a name is `node_modules`. */
  predicate ValidName(n: Name) {
    match n
    case Plain(id) => !ScopeMark(id) && id != NODE_MODULES
    case Scoped(scope, id) => ScopeMark(scope) && id != NODE_MODULES
  }

  function Segments(n: Name): (s: Path)
    ensures 1 <= |s| <= 2
  {
    match n
    case Plain(id) => [id]
    case Scoped(scope, id) => [scope, id]
  }

  /** Where a package called `name` sits for consumers at or below `dir`. */
  function Slot(dir: Path, name: Name): Path {
    dir + [NODE_MODULES] + Segments(name)
  }

  function Parent(dir: Path): Path
    requires dir != []
  {
    dir[..|dir| - 1]
  }

  lemma SegmentsInjective(n1: Name, n2: Name)
    ensures Segments(n1) == Segments(n2) ==> n1 == n2
  {
    assert Segments(n1)[0] == (if n1.Plain? then n1.id else n1.scope);
    assert Segments(n2)[0] == (if n2.Plain? then n2.id else n2.scope);
    assert Segments(n1)[|Segments(n1)| - 1] == n1.id && Segments(n2)[|Segments(n2)| - 1] == n2.id;
  }

  // Two slots coincide only when directory and name do.
  lemma SlotInjective(d1: Path, n1: Name, d2: Path, n2: Name)
    requires ValidName(n1) && ValidName(n2)
    requires Slot(d1, n1) == Slot(d2, n2)
    ensures d1 == d2 && n1 == n2
  {
    var s1, s2 := Slot(d1, n1), Slot(d2, n2);
    assert s1[|d1|] == NODE_MODULES && s2[|d2|] == NODE_MODULES;
    assert s1[|d1| + 1] == Segments(n1)[0] && s2[|d2| + 1] == Segments(n2)[0];
    assert s1[..|d1|] == d1 && s2[..|d2|] == d2;
    assert s1[|d1| + 1..] == Segments(n1) && s2[|d2| + 1..] == Segments(n2);
    SegmentsInjective(n1, n2);
  }

  // Sibling slots never nest: package names are prefix free.
  lemma SlotsIncomparable(d: Path, n1: Name, n2: Name)
    requires ValidName(n1) && ValidName(n2)
    requires Slot(d, n1) <= Slot(d, n2)
    ensures n1 == n2
  {
    var s1, s2 := Slot(d, n1), Slot(d, n2);
    assert s1[|d| + 1] == Segments(n1)[0] && s2[|d| + 1] == Segments(n2)[0];
    assert |Segments(n1)| == |Segments(n2)|;
    assert s1[|d| + 1..] == Segments(n1) && s2[|d| + 1..] == Segments(n2);
    SegmentsInjective(n1, n2);
  }

  // The directories strictly between `d` and a slot of `d` are never slots themselves.
  lemma BetweenIsNoSlot(d: Path, n: Name, mid: Path, d2: Path, n2: Name)
    requires ValidName(n) && ValidName(n2)
    requires d < mid < Slot(d, n)
    ensures mid != Slot(d2, n2)
  {
    var s, s2 := Slot(d, n), Slot(d2, n2);
    assert s[|d|] == NODE_MODULES && s[|d| + 1] == Segments(n)[0];
    assert s2[|s2| - 1] == Segments(n2)[|Segments(n2)| - 1] && s2[|d2| + 1] == Segments(n2)[0];
    assert mid[|d|] == s[|d|];
    assert |mid| > |d| + 1 ==> mid[|d| + 1] == s[|d| + 1];
  }

  // A path below a slot of `d` is below at most one of them.
  lemma BelowOneSlot(d: Path, n1: Name, n2: Name, t: Path)
    requires ValidName(n1) && ValidName(n2)
    requires Slot(d, n1) <= t && Slot(d, n2) <= t
    ensures n1 == n2
  {
    var s1, s2 := Slot(d, n1), Slot(d, n2);
    if |s1| <= |s2| {
      assert s1 == t[..|s1|] == s2[..|s1|];
      SlotsIncomparable(d, n1, n2);
    } else {
      assert s2 == t[..|s2|] == s1[..|s2|];
      SlotsIncomparable(d, n2, n1);
    }
  }
}
