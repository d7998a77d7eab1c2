// Antigravity tool declarations: one per name, at most forty, and the renaming of client tools.
module AntigravityTools {
  import opened Records

  const MAX_TOOL_COUNT := 40
  const TOOL_SUFFIX := "_ide"

  const NATIVE_NAMES: seq<string> := [
    "browser_subagent", "command_status", "find_by_name", "generate_image", "grep_search",
    "list_dir", "list_resources", "multi_replace_file_content", "notify_user", "read_resource",
    "read_terminal", "read_url_content", "replace_file_content", "run_command", "search_web",
    "send_command_input", "task_boundary", "view_content_chunk", "view_file", "write_to_file"]

  // The decoy list has one name more than the native one.
  const EXTRA_DECOY := "mcp_sequential-thinking_sequentialthinking"

  datatype Decl = Decl(name: string, body: string)

  predicate Native(name: string) {
    name in NATIVE_NAMES
  }

  predicate Decoyed(name: string) {
    Native(name) || name == EXTRA_DECOY
  }

  predicate UniqueNames(decls: seq<Decl>) {
    forall i, j :: 0 <= i < j < |decls| ==> decls[i].name != decls[j].name
  }

  predicate HasName(decls: seq<Decl>, name: string) {
    exists d :: d in decls && d.name == name
  }

  // ---------- One declaration per name ----------

  /** Each name's first declaration, in order. */
  ghost predicate FirstByName(all: seq<Decl>, kept: seq<Decl>) {
    && UniqueNames(kept)
    && (forall d :: d in kept ==> IsFirst(all, d))
    && (forall d :: d in all ==> HasName(kept, d.name))
    && InOrder(all, kept)
  }

  ghost predicate FirstAt(all: seq<Decl>, i: int, d: Decl) {
    0 <= i < |all| && all[i] == d && forall j :: 0 <= j < i ==> all[j].name != d.name
  }

  ghost predicate IsFirst(all: seq<Decl>, d: Decl) {
    exists i :: FirstAt(all, i, d)
  }

  /** What comes first in `kept` comes first in `all`. */
  ghost predicate InOrder(all: seq<Decl>, kept: seq<Decl>) {
    forall a, b, i, j :: 0 <= a < b < |kept| && FirstAt(all, i, kept[a]) && FirstAt(all, j, kept[b]) ==> i < j
  }

  ghost predicate Seen(seen: set<string>, kept: seq<Decl>) {
    forall name :: name in seen <==> HasName(kept, name)
  }

  method DropRepeats(all: seq<Decl>) returns (kept: seq<Decl>)
    ensures FirstByName(all, kept)
  {
    kept := [];
    var seen: set<string> := {};
    assert Seen(seen, kept) && FirstByName(all[..0], kept);
    hide *;
    for k := 0 to |all|
      invariant Seen(seen, kept)
      invariant FirstByName(all[..k], kept)
    {
      var decl := all[k];
      SeenGrows(seen, kept, decl);
      RepeatsStep(all, k, kept);
      if decl.name !in seen {
        seen := seen + {decl.name};
        kept := kept + [decl];
      }
    }
    assert all[..|all|] == all;
  }

  lemma RepeatsStep(all: seq<Decl>, k: nat, kept: seq<Decl>)
    requires k < |all| && FirstByName(all[..k], kept)
    ensures HasName(kept, all[k].name) ==> FirstByName(all[..k + 1], kept)
    ensures !HasName(kept, all[k].name) ==> FirstByName(all[..k + 1], kept + [all[k]])
  {
    hide *;
    FirstByNameGrows(all[..k], kept, all[k]);
    assert all[..k + 1] == all[..k] + [all[k]];
  }

  lemma SeenGrows(seen: set<string>, kept: seq<Decl>, decl: Decl)
    requires Seen(seen, kept)
    ensures decl.name in seen <==> HasName(kept, decl.name)
    ensures Seen(seen + {decl.name}, kept + [decl])
  {
    HasNameSnoc(kept, decl);
  }

  lemma HasNameSnoc(kept: seq<Decl>, decl: Decl)
    ensures forall name :: HasName(kept + [decl], name) <==> HasName(kept, name) || name == decl.name
  {
    assert decl in kept + [decl];
    forall name | HasName(kept, name) ensures HasName(kept + [decl], name) {
      var d :| d in kept && d.name == name;
      assert d in kept + [decl];
    }
  }

  lemma FirstByNameGrows(all: seq<Decl>, kept: seq<Decl>, decl: Decl)
    requires FirstByName(all, kept)
    ensures FirstByName(all + [decl], if HasName(kept, decl.name) then kept else kept + [decl])
  {
    hide FirstAt, IsFirst, InOrder;
    HasNameSnoc(kept, decl);
    forall d | d in kept ensures IsFirst(all + [decl], d) {
      FirstStays(all, decl, d);
    }
    OrderGrows(all, kept, decl);
    if !HasName(kept, decl.name) {
      NewIsFirst(all, kept, decl);
    }
  }

  lemma NewIsFirst(all: seq<Decl>, kept: seq<Decl>, decl: Decl)
    requires !HasName(kept, decl.name) && forall d :: d in all ==> HasName(kept, d.name)
    ensures IsFirst(all + [decl], decl) && forall j :: FirstAt(all + [decl], j, decl) ==> j == |all|
  {
    hide HasName;
    forall j | 0 <= j < |all| ensures (all + [decl])[j].name != decl.name {
      assert all[j] in all;
    }
    assert FirstAt(all + [decl], |all|, decl);
  }

  lemma OrderGrows(all: seq<Decl>, kept: seq<Decl>, decl: Decl)
    requires InOrder(all, kept) && (forall d :: d in kept ==> IsFirst(all, d))
    requires forall d :: d in all ==> HasName(kept, d.name)
    ensures InOrder(all + [decl], if HasName(kept, decl.name) then kept else kept + [decl])
  {
    hide HasName, IsFirst;
    forall i, d | d in kept && FirstAt(all + [decl], i, d) ensures FirstAt(all, i, d) {
      FirstIsOld(all, decl, d, i);
    }
    if !HasName(kept, decl.name) {
      NewIsFirst(all, kept, decl);
    }
  }

  lemma FirstIsOld(all: seq<Decl>, decl: Decl, d: Decl, i: int)
    requires IsFirst(all, d) && FirstAt(all + [decl], i, d)
    ensures FirstAt(all, i, d)
  {
    var k :| FirstAt(all, k, d);
    assert (all + [decl])[k] == d;
    assert i <= k;
  }

  /** Of two lists joined, what is kept of the first one comes first. */
  lemma FirstListComesFirst(front: seq<Decl>, back: seq<Decl>, kept: seq<Decl>, a: nat, b: nat)
    requires FirstByName(front + back, kept) && a < b < |kept| && HasName(front, kept[b].name)
    ensures HasName(front, kept[a].name)
  {
    var all := front + back;
    assert kept[a] in kept && kept[b] in kept;
    var i :| FirstAt(all, i, kept[a]);
    var j :| FirstAt(all, j, kept[b]);
    var d :| d in front && d.name == kept[b].name;
    var k :| 0 <= k < |front| && front[k] == d;
    assert all[k] == d && i < j <= k;
    assert front[i] in front;
  }

  lemma FirstStays(all: seq<Decl>, decl: Decl, d: Decl)
    requires IsFirst(all, d)
    ensures IsFirst(all + [decl], d)
  {
    var i :| FirstAt(all, i, d);
    assert FirstAt(all + [decl], i, d);
  }

  // ---------- At most forty ----------

  function Keep(decls: seq<Decl>, native: bool): (kept: seq<Decl>)
    ensures forall d :: d in kept <==> d in decls && Native(d.name) == native
  {
    if decls == [] then []
    else (if Native(decls[0].name) == native then [decls[0]] else []) + Keep(decls[1..], native)
  }

  lemma {:induction false} KeepAppend(a: seq<Decl>, b: seq<Decl>, native: bool)
    ensures Keep(a + b, native) == Keep(a, native) + Keep(b, native)
  {
    if a == [] {
      assert a + b == b;
    } else {
      assert (a + b)[1..] == a[1..] + b;
      KeepAppend(a[1..], b, native);
      Associative(if Native(a[0].name) == native then [a[0]] else [], Keep(a[1..], native), Keep(b, native));
      hide Native;
    }
  }

  lemma KeepSnoc(all: seq<Decl>, k: nat, native: bool)
    requires k < |all|
    ensures Keep(all[..k + 1], native) == Keep(all[..k], native) +
              if Native(all[k].name) == native then [all[k]] else []
  {
    assert all[..k + 1] == all[..k] + [all[k]];
    KeepAppend(all[..k], [all[k]], native);
  }

  lemma {:induction false} KeepCounts(decls: seq<Decl>)
    ensures |Keep(decls, true)| + |Keep(decls, false)| == |decls|
  {
    if decls != [] {
      KeepCounts(decls[1..]);
    }
  }

  lemma {:induction false} KeepUnique(decls: seq<Decl>, native: bool)
    requires UniqueNames(decls)
    ensures UniqueNames(Keep(decls, native))
  {
    if decls != [] {
      KeepUnique(decls[1..], native);
      var rest := Keep(decls[1..], native);
      assert forall d :: d in rest ==> d in decls[1..] && d.name != decls[0].name;
    }
  }

  // Distinct names drawn from a list are no more than the list is long.
  lemma {:induction false} DistinctFit(decls: seq<Decl>, names: seq<string>)
    requires UniqueNames(decls) && forall d :: d in decls ==> d.name in names
    ensures |decls| <= |names|
    decreases |decls|
  {
    if decls != [] {
      var k :| 0 <= k < |names| && names[k] == decls[0].name;
      var others := names[..k] + names[k + 1..];
      forall d | d in decls[1..] ensures d.name in others {
        var m :| 0 <= m < |names| && names[m] == d.name;
        assert m != k;
        assert d.name == if m < k then others[m] else others[m - 1];
      }
      DistinctFit(decls[1..], others);
    }
  }

  /** Every native tool survives, then as many client tools as fit, in their order. */
  method Prune(all: seq<Decl>) returns (pruned: seq<Decl>)
    requires UniqueNames(all)
    ensures |pruned| == if |all| > 40 then 40 else |all|
    ensures forall d :: d in all && Native(d.name) ==> d in pruned
    ensures Keep(pruned, true) == Keep(all, true)
    ensures Keep(pruned, false) <= Keep(all, false)
    ensures if |all| <= MAX_TOOL_COUNT then pruned == all else pruned == Keep(pruned, true) + Keep(pruned, false)
    ensures UniqueNames(pruned)
  {
    if |all| <= MAX_TOOL_COUNT {
      return all;
    }
    var native: seq<Decl>, custom: seq<Decl> := [], [];
    for k := 0 to |all|
      invariant native == Keep(all[..k], true) && custom == Keep(all[..k], false)
    {
      KeepSnoc(all, k, true);
      KeepSnoc(all, k, false);
      hide Keep, Native, UniqueNames;
      if Native(all[k].name) {
        native := native + [all[k]];
      } else {
        custom := custom + [all[k]];
      }
    }
    assert all[..|all|] == all;
    KeepUnique(all, true);
    KeepUnique(all, false);
    KeepCounts(all);
    hide Keep, UniqueNames;
    DistinctFit(native, NATIVE_NAMES);
    var remaining := MAX_TOOL_COUNT - |native|;
    PruneKeeps(native, custom, remaining);
    pruned := native + custom[..if remaining > 0 then remaining else 0];
  }

  lemma {:induction false} KeepAll(decls: seq<Decl>, native: bool)
    requires forall d :: d in decls ==> Native(d.name) == native
    ensures Keep(decls, native) == decls && Keep(decls, !native) == []
  {
    if decls != [] {
      KeepAll(decls[1..], native);
      assert decls == [decls[0]] + decls[1..];
    }
  }

  lemma PruneKeeps(native: seq<Decl>, custom: seq<Decl>, remaining: nat)
    requires UniqueNames(native) && UniqueNames(custom) && remaining <= |custom|
    requires (forall d :: d in native ==> Native(d.name)) && (forall d :: d in custom ==> !Native(d.name))
    ensures var pruned := native + custom[..remaining];
            Keep(pruned, true) == native && Keep(pruned, false) == custom[..remaining] && UniqueNames(pruned)
  {
    var fit := custom[..remaining];
    assert forall d :: d in fit ==> d in custom;
    KeepAll(native, true);
    KeepAll(fit, false);
    KeepAppend(native, fit, true);
    KeepAppend(native, fit, false);
    UniqueTogether(native, fit);
    hide Keep, UniqueNames, Native;
  }

  lemma UniqueTogether(a: seq<Decl>, b: seq<Decl>)
    requires UniqueNames(a) && UniqueNames(b)
    requires (forall d :: d in a ==> Native(d.name)) && (forall d :: d in b ==> !Native(d.name))
    ensures UniqueNames(a + b)
  {
    var all := a + b;
    forall i, j | 0 <= i < j < |all| ensures all[i].name != all[j].name {
      if i < |a| <= j {
        assert a[i] in a && b[j - |a|] in b;
      }
    }
  }
}
