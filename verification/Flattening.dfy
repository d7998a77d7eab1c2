// The placement phase of copyRuntimeModules: hoist one copy of every name, then
// nest a copy below a consumer exactly where the upward lookup would go wrong.
module Flattening {
  import opened Options
  import opened Paths
  import opened OrderedMaps

  /** For each real package path, what each of its dependency names must resolve to. */
  type Graph = map<Path, OrderedMap<Name, Path>>

  /** Which real package every placed target is a copy of. */
  type Placements = map<Path, Path>

  ghost predicate ValidTable(table: OrderedMap<Name, Path>, graph: Graph) {
    && table.Valid()
    && (forall n :: n in table.at ==> ValidName(n) && table.at[n] in graph)
  }

  ghost predicate ValidGraph(graph: Graph) {
    forall r :: r in graph ==> ValidTable(graph[r], graph)
  }

  function Get(view: map<Name, Path>, name: Name): Option<Path> {
    if name in view then Some(view[name]) else None
  }

  /** Node-style lookup: the nearest `node_modules/name` at `from` or above, up to `base`. */
  function Resolve(placements: Placements, base: Path, from: Path, name: Name): Option<Path>
    requires base <= from
    decreases |from|
  {
    if Slot(from, name) in placements then Some(placements[Slot(from, name)])
    else if from == base then None
    else Resolve(placements, base, Parent(from), name)
  }

  predicate OnTheWay(base: Path, from: Path, d: Path) {
    base <= d <= from
  }

  /** The nearest directory, from `from` up to `base`, that has a copy called `name`. */
  ghost predicate NearestCopy(p: Placements, base: Path, from: Path, name: Name, d: Path) {
    && OnTheWay(base, from, d) && Slot(d, name) in p
    && forall e :: OnTheWay(base, from, e) && |e| > |d| ==> Slot(e, name) !in p
  }

  /** A lookup finds the nearest copy, and nothing if and only if there is none on the way up. */
  lemma {:induction false} ResolveFindsNearest(p: Placements, base: Path, from: Path, name: Name)
    requires base <= from
    ensures Resolve(p, base, from, name).None? <==> forall d :: OnTheWay(base, from, d) ==> Slot(d, name) !in p
    ensures forall d :: NearestCopy(p, base, from, name, d) ==> Resolve(p, base, from, name) == Some(p[Slot(d, name)])
    ensures Resolve(p, base, from, name).Some? ==> exists d :: NearestCopy(p, base, from, name, d)
    decreases |from|
  {
    hide Slot, OnTheWay;
    WayUp(base, from);
    if Slot(from, name) in p {
      assert NearestCopy(p, base, from, name, from);
    } else if from != base {
      ResolveFindsNearest(p, base, Parent(from), name);
      forall d | NearestCopy(p, base, Parent(from), name, d) ensures NearestCopy(p, base, from, name, d) {
      }
    }
  }

  lemma WayUp(base: Path, from: Path)
    requires base <= from
    ensures OnTheWay(base, from, from) && forall d :: OnTheWay(base, from, d) ==> d == from || |d| < |from|
    ensures if from == base then forall d :: OnTheWay(base, from, d) ==> d == from
            else (base <= Parent(from) &&
                  forall d :: OnTheWay(base, from, d) <==> d == from || OnTheWay(base, Parent(from), d))
  {
    if from != base {
      forall d ensures OnTheWay(base, from, d) <==> d == from || OnTheWay(base, Parent(from), d) {
        assert d <= from <==> d == from || d <= Parent(from);
      }
    }
  }

  // ---------- How lookups depend on placements ----------

  lemma {:induction false} ResolveAgrees(p: Placements, q: Placements, base: Path, from: Path, name: Name)
    requires base <= from
    requires forall d :: base <= d <= from ==>
               (Slot(d, name) in p <==> Slot(d, name) in q) &&
               (Slot(d, name) in p ==> p[Slot(d, name)] == q[Slot(d, name)])
    ensures Resolve(p, base, from, name) == Resolve(q, base, from, name)
    decreases |from|
  {
    assert base <= from <= from;
    if Slot(from, name) !in p && from != base {
      assert Parent(from) <= from;
      ResolveAgrees(p, q, base, Parent(from), name);
    }
  }

  // A lookup passes by directories without a copy.
  lemma {:induction false} NothingOnTheWay(p: Placements, base: Path, from: Path, to: Path, x: Name)
    requires base <= to <= from && forall d :: to < d <= from ==> Slot(d, x) !in p
    ensures Resolve(p, base, from, x) == Resolve(p, base, to, x)
    decreases |from|
  {
    if from != to {
      assert to < from <= from;
      assert to <= Parent(from) <= from;
      NothingOnTheWay(p, base, Parent(from), to, x);
    }
  }

  // Placing `owner/node_modules/n` is invisible unless the lookup passes `owner` looking for `n`.
  lemma ResolveFrame(p: Placements, base: Path, from: Path, name: Name, owner: Path, n: Name, r: Path)
    requires base <= from && ValidName(name) && ValidName(n)
    requires n != name || !(owner <= from)
    ensures Resolve(p[Slot(owner, n) := r], base, from, name) == Resolve(p, base, from, name)
  {
    forall d | base <= d <= from ensures Slot(d, name) != Slot(owner, n) {
      if Slot(d, name) == Slot(owner, n) {
        SlotInjective(d, name, owner, n);
      }
    }
    ResolveAgrees(p[Slot(owner, n) := r], p, base, from, name);
  }

  /** Every copy sits in a slot of `base` or of another copy, and copies a known package. */
  ghost predicate Rooted(p: Placements, base: Path, graph: Graph) {
    forall t :: t in p ==> base < t && p[t] in graph && OwnedSlot(p, base, t)
  }

  ghost predicate OwnedSlot(p: Placements, base: Path, t: Path) {
    exists d, n :: ValidName(n) && t == Slot(d, n) && (d == base || d in p)
  }

  // With nothing yet below a slot, its occupant sees exactly what its owner sees.
  lemma {:induction false} ResolveFromSlot(p: Placements, base: Path, graph: Graph, owner: Path, n: Name, from: Path,
                                           name: Name)
    requires Rooted(p, base, graph) && ValidName(n) && ValidName(name)
    requires base <= owner <= from <= Slot(owner, n)
    requires owner == base || owner in p
    requires forall t :: t in p ==> !(Slot(owner, n) < t)
    ensures Resolve(p, base, from, name) == Resolve(p, base, owner, name)
    decreases |from|
  {
    if owner != from {
      assert Slot(from, name) !in p by {
        NoSlotInside(p, base, graph, owner, n, from, name);
      }
      assert owner <= Parent(from) <= from;
      ResolveFromSlot(p, base, graph, owner, n, Parent(from), name);
    }
  }

  lemma NoSlotInside(p: Placements, base: Path, graph: Graph, owner: Path, n: Name, from: Path, name: Name)
    requires Rooted(p, base, graph) && ValidName(n) && ValidName(name)
    requires base <= owner < from <= Slot(owner, n)
    requires owner == base || owner in p
    requires forall t :: t in p ==> !(Slot(owner, n) < t)
    ensures Slot(from, name) !in p
  {
    assert from < Slot(from, name);
    if Slot(from, name) in p {
      var d, m :| ValidName(m) && Slot(from, name) == Slot(d, m) && (d == base || d in p);
      SlotInjective(from, name, d, m);
      if from != Slot(owner, n) {
        var d2, m2 :| ValidName(m2) && from == Slot(d2, m2) && (d2 == base || d2 in p);
        BetweenIsNoSlot(owner, n, from, d2, m2);
      }
    }
  }

  // ---------- What a consumer sees, without any file tree ----------

  /** The dependencies that the view from above would resolve wrongly. */
  function Conflicts(table: map<Name, Path>, view: map<Name, Path>): map<Name, Path> {
    map n | n in table && Get(view, n) != Some(table[n]) :: table[n]
  }

  /**
   * The flattening condition, in terms of the graph alone: a package is blocked
   * when it must be nested below itself, possibly through further nested copies.
   */
  ghost predicate Blocked(graph: Graph, pkg: Path, view: map<Name, Path>, ancestors: set<Path>)
    requires ValidGraph(graph) && pkg in graph
    decreases graph.Keys - ancestors
  {
    || pkg in ancestors
    || exists n :: n in Conflicts(graph[pkg].at, view) &&
                   Blocked(graph, graph[pkg].at[n], view + Conflicts(graph[pkg].at, view), ancestors + {pkg})
  }

  // ---------- The invariant of the tree under construction ----------

  /** Every dependency of the copy at `t` resolves to the package it resolved to in the source. */
  ghost predicate Preserved(graph: Graph, base: Path, p: Placements, t: Path)
  {
    && t in p && p[t] in graph && base <= t
    && (forall n :: n in graph[p[t]].at ==> Resolve(p, base, t, n) == Some(graph[p[t]].at[n]))
  }

  /** Without the nested copy at `owner/node_modules/n`, its owner would resolve `n` wrongly. */
  ghost predicate Necessary(graph: Graph, base: Path, p: Placements, owner: Path, n: Name)
  {
    && owner in p && p[owner] in graph && base <= owner && Slot(owner, n) in p
    && n in graph[p[owner]].at
    && graph[p[owner]].at[n] == p[Slot(owner, n)]
    && Resolve(p - {Slot(owner, n)}, base, owner, n) != Some(p[Slot(owner, n)])
  }

  ghost predicate AllNecessary(graph: Graph, base: Path, p: Placements) {
    forall owner, n :: owner in p && ValidName(n) && Slot(owner, n) in p ==> Necessary(graph, base, p, owner, n)
  }

  /** Copies strictly above another copy have been wired, except `current`. */
  ghost predicate OwnersWired(p: Placements, wired: seq<Path>, current: Option<Path>) {
    forall t, u :: t in p && u in p && u < t ==> u in wired || current == Some(u)
  }

  ghost predicate WiredPreserved(graph: Graph, base: Path, p: Placements, wired: seq<Path>) {
    forall t :: t in wired ==> Preserved(graph, base, p, t)
  }

  ghost predicate Logged(p: Placements, copies: seq<Path>, wired: seq<Path>) {
    && NoDuplicates(copies)
    && (forall t :: t in copies <==> t in p)
    && NoDuplicates(wired)
  }

  ghost predicate Inv(graph: Graph, base: Path, p: Placements, copies: seq<Path>, wired: seq<Path>,
                      current: Option<Path>)
  {
    && ValidGraph(graph)
    && Rooted(p, base, graph)
    && OwnersWired(p, wired, current)
    && WiredPreserved(graph, base, p, wired)
    && AllNecessary(graph, base, p)
    && Logged(p, copies, wired)
  }

  /** The lookups from `from` see exactly `view`. */
  ghost predicate Sees(p: Placements, base: Path, from: Path, view: map<Name, Path>)
    requires base <= from
  {
    forall n :: ValidName(n) ==> Resolve(p, base, from, n) == Get(view, n)
  }

  // ---------- One placement keeps the invariant ----------

  lemma PlaceKeepsRooted(graph: Graph, base: Path, p: Placements, owner: Path, n: Name, r: Path)
    requires Rooted(p, base, graph) && ValidName(n) && r in graph
    requires owner == base || owner in p
    ensures Rooted(p[Slot(owner, n) := r], base, graph)
  {
    var q := p[Slot(owner, n) := r];
    forall t | t in q ensures base < t && q[t] in graph && OwnedSlot(q, base, t) {
      if t == Slot(owner, n) {
        assert base <= owner < t;
      } else {
        var d, m :| ValidName(m) && t == Slot(d, m) && (d == base || d in p);
        assert d == base || d in q;
      }
    }
  }

  lemma UnderSlot(owner: Path, n: Name, u: Path, d: Path, m: Name)
    requires ValidName(n) && ValidName(m)
    requires u == Slot(d, m) && u < Slot(owner, n)
    ensures u <= owner
  {
    if |owner| < |u| {
      assert owner == Slot(owner, n)[..|owner|] == u[..|owner|];
      BetweenIsNoSlot(owner, n, u, d, m);
    } else {
      assert u == Slot(owner, n)[..|u|] == owner[..|u|];
    }
  }

  lemma PlaceKeepsOwners(graph: Graph, base: Path, p: Placements, wired: seq<Path>, current: Option<Path>,
                         owner: Path, n: Name, r: Path)
    requires Rooted(p, base, graph) && ValidName(n) && r in graph
    requires OwnersWired(p, wired, current)
    requires owner == base || (owner in p && current == Some(owner))
    requires Slot(owner, n) !in p
    requires forall t :: t in p ==> !(Slot(owner, n) < t)
    ensures OwnersWired(p[Slot(owner, n) := r], wired, current)
  {
    var s := Slot(owner, n);
    var q := p[s := r];
    forall t, u | t in q && u in q && u < t ensures u in wired || current == Some(u) {
      if t == s {
        var d, m :| ValidName(m) && u == Slot(d, m) && (d == base || d in p);
        UnderSlot(owner, n, u, d, m);
        if u != owner {
          assert base < u <= owner;
        }
      }
    }
  }

  lemma PlaceKeepsWired(graph: Graph, base: Path, p: Placements, wired: seq<Path>, owner: Path, n: Name, r: Path)
    requires ValidGraph(graph) && Rooted(p, base, graph) && ValidName(n) && r in graph
    requires owner == base || owner in p
    requires WiredPreserved(graph, base, p, wired)
    requires forall t :: t in wired ==> !(owner <= t)
    requires Slot(owner, n) !in p
    ensures WiredPreserved(graph, base, p[Slot(owner, n) := r], wired)
  {
    var q := p[Slot(owner, n) := r];
    forall t | t in wired ensures Preserved(graph, base, q, t) {
      assert Preserved(graph, base, p, t);
      forall m | m in graph[q[t]].at ensures Resolve(q, base, t, m) == Some(graph[q[t]].at[m]) {
        ResolveFrame(p, base, t, m, owner, n, r);
      }
    }
  }

  lemma NecessaryFrame(graph: Graph, base: Path, p: Placements, u: Path, m: Name, owner: Path, n: Name, r: Path)
    requires ValidName(m) && ValidName(n)
    requires Necessary(graph, base, p, u, m)
    requires Slot(owner, n) !in p
    requires n != m || !(owner <= u)
    ensures Necessary(graph, base, p[Slot(owner, n) := r], u, m)
  {
    var p' := p - {Slot(u, m)};
    assert p[Slot(owner, n) := r] - {Slot(u, m)} == p'[Slot(owner, n) := r];
    ResolveFrame(p', base, u, m, owner, n, r);
  }

  lemma PlaceKeepsNecessary(graph: Graph, base: Path, p: Placements, owner: Path, n: Name, r: Path)
    requires ValidName(n) && AllNecessary(graph, base, p)
    requires Slot(owner, n) !in p
    requires forall t, m :: t in p && owner < t && ValidName(m) ==> Slot(t, m) !in p
    requires forall t :: t in p ==> !(Slot(owner, n) < t)
    requires owner in p ==> base <= owner && p[owner] in graph && n in graph[p[owner]].at && graph[p[owner]].at[n] == r
    requires owner in p ==> Resolve(p, base, owner, n) != Some(r)
    ensures AllNecessary(graph, base, p[Slot(owner, n) := r])
  {
    var s := Slot(owner, n);
    var q := p[s := r];
    forall u, m | u in q && ValidName(m) && Slot(u, m) in q ensures Necessary(graph, base, q, u, m) {
      if Slot(u, m) == s {
        SlotInjective(u, m, owner, n);
        assert q - {s} == p;
      } else {
        assert u != s by { assert s < Slot(s, m); }
        assert u in p && Slot(u, m) in p;
        assert n != m || !(owner <= u);
        NecessaryFrame(graph, base, p, u, m, owner, n, r);
      }
    }
  }

  /** What `place` relies on: a fresh slot of `base` or of the copy now being wired. */
  ghost predicate Placeable(p: Placements, base: Path, wired: seq<Path>, current: Option<Path>, owner: Path, n: Name) {
    && ValidName(n)
    && (owner == base || (owner in p && base <= owner && current == Some(owner)))
    && Slot(owner, n) !in p
    && (forall t :: t in p ==> !(Slot(owner, n) < t))
    && (forall t, m :: t in p && owner < t && ValidName(m) ==> Slot(t, m) !in p)
    && (forall t :: t in wired ==> !(owner <= t))
  }

  lemma PlaceKeepsInv(graph: Graph, base: Path, p: Placements, copies: seq<Path>, wired: seq<Path>,
                      current: Option<Path>, owner: Path, n: Name, r: Path)
    requires Inv(graph, base, p, copies, wired, current) && r in graph
    requires Placeable(p, base, wired, current, owner, n)
    requires owner in p ==> n in graph[p[owner]].at && graph[p[owner]].at[n] == r
    requires owner in p ==> Resolve(p, base, owner, n) != Some(r)
    ensures Inv(graph, base, p[Slot(owner, n) := r], copies + [Slot(owner, n)], wired, current)
  {
    PlaceKeepsRooted(graph, base, p, owner, n, r);
    PlaceKeepsOwners(graph, base, p, wired, current, owner, n, r);
    PlaceKeepsWired(graph, base, p, wired, owner, n, r);
    PlaceKeepsNecessary(graph, base, p, owner, n, r);
  }

  // ---------- Copies placed elsewhere are invisible ----------

  /** `q` extends `p` by copies strictly below `t` only. */
  ghost predicate GrowsBelow(p: Placements, q: Placements, t: Path) {
    && (forall u :: u in p ==> u in q && q[u] == p[u])
    && (forall u :: u in q && u !in p ==> t < u)
  }

  // Nothing below a slot of `owner` changes what `owner` sees.
  lemma GrowthIsInvisible(p: Placements, q: Placements, base: Path, owner: Path, n: Name, view: map<Name, Path>)
    requires base <= owner && ValidName(n)
    requires GrowsBelow(p, q, Slot(owner, n))
    requires Sees(p, base, owner, view)
    ensures Sees(q, base, owner, view)
  {
    forall m | ValidName(m) ensures Resolve(q, base, owner, m) == Get(view, m) {
      forall d | base <= d <= owner && Slot(d, m) in q ensures Slot(d, m) in p {
        if Slot(d, m) !in p {
          assert |Slot(d, m)| <= |d| + 3 && |Slot(owner, n)| >= |owner| + 2;
          if d == owner {
            SlotsIncomparable(owner, n, m);
          }
        }
      }
      ResolveAgrees(q, p, base, owner, m);
    }
  }
}
