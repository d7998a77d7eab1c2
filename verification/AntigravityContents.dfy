// Merging neighbouring turns of equal role after thought parts were filtered out.
module AntigravityContents {
  import opened Records

  /** A turn without a role or without a parts array is `Malformed`. */
  datatype Turn<P> = Malformed | Turn(role: string, parts: seq<P>)

  predicate Kept<P>(t: Turn<P>) {
    t.Turn? && t.role != "" && t.parts != []
  }

  /** Every role and part of the kept turns, in order. */
  function Pairs<P>(turns: seq<Turn<P>>): seq<(string, P)> {
    if turns == [] then []
    else (if Kept(turns[0]) then PairsOf(turns[0]) else []) + Pairs(turns[1..])
  }

  function PairsOf<P>(t: Turn<P>): (pairs: seq<(string, P)>)
    requires t.Turn?
    ensures |pairs| == |t.parts|
    ensures forall i :: 0 <= i < |pairs| ==> pairs[i] == (t.role, t.parts[i])
  {
    seq(|t.parts|, i requires 0 <= i < |t.parts| => (t.role, t.parts[i]))
  }

  /** A pair is there exactly when a turn with that role, not empty, has that part. */
  lemma {:induction false} PairsMeaning<P>(turns: seq<Turn<P>>, role: string, part: P)
    ensures (role, part) in Pairs(turns) <==>
            exists i :: 0 <= i < |turns| && turns[i].Turn? && turns[i].role == role != "" && part in turns[i].parts
  {
    if turns != [] {
      PairsMeaning(turns[1..], role, part);
      var t := turns[0];
      HeadPairs(t, role, part);
      hide PairsOf;
      if exists i :: 0 <= i < |turns| && turns[i].Turn? && turns[i].role == role != "" && part in turns[i].parts {
        var i :| 0 <= i < |turns| && turns[i].Turn? && turns[i].role == role != "" && part in turns[i].parts;
        assert i > 0 ==> turns[1..][i - 1] == turns[i];
      }
      if exists i :: 0 <= i < |turns[1..]| && turns[1..][i].Turn? && turns[1..][i].role == role != "" &&
                     part in turns[1..][i].parts {
        var i :| 0 <= i < |turns[1..]| && turns[1..][i].Turn? && turns[1..][i].role == role != "" &&
                 part in turns[1..][i].parts;
        assert turns[i + 1] == turns[1..][i];
      }
    }
  }

  lemma HeadPairs<P>(t: Turn<P>, role: string, part: P)
    ensures t.Turn? ==> ((role, part) in PairsOf(t) <==> t.role == role && part in t.parts)
  {
    if t.Turn? && t.role == role && part in t.parts {
      var i :| 0 <= i < |t.parts| && t.parts[i] == part;
      assert PairsOf(t)[i] == (role, part);
    }
  }

  /** No empty turn, no two neighbours of the same role. */
  ghost predicate Tidy<P>(turns: seq<Turn<P>>) {
    (forall i :: 0 <= i < |turns| ==> Kept(turns[i])) &&
    (forall i, j :: 0 <= i && j == i + 1 && j < |turns| ==> turns[i].role != turns[j].role)
  }

  lemma {:induction false} PairsAppend<P>(a: seq<Turn<P>>, b: seq<Turn<P>>)
    ensures Pairs(a + b) == Pairs(a) + Pairs(b)
  {
    if a == [] {
      assert a + b == b;
    } else {
      assert (a + b)[1..] == a[1..] + b;
      PairsAppend(a[1..], b);
    }
  }

  lemma PairsSingle<P>(t: Turn<P>)
    ensures Pairs([t]) == if Kept(t) then PairsOf(t) else []
  {
    assert [t][1..] == [];
  }

  lemma PairsSnoc<P>(turns: seq<Turn<P>>, k: nat)
    requires k < |turns|
    ensures Pairs(turns[..k + 1]) == Pairs(turns[..k]) + if Kept(turns[k]) then PairsOf(turns[k]) else []
  {
    assert turns[..k + 1] == turns[..k] + [turns[k]];
    PairsAppend(turns[..k], [turns[k]]);
    PairsSingle(turns[k]);
  }

  // The turn joins the previous one of its role.
  lemma JoinStep<P>(turns: seq<Turn<P>>, t: Turn<P>)
    requires Tidy(turns) && Kept(t) && turns != [] && turns[|turns| - 1].role == t.role
    ensures var last := |turns| - 1;
            var joined := turns[last := Turn(t.role, turns[last].parts + t.parts)];
            Tidy(joined) && Pairs(joined) == Pairs(turns) + PairsOf(t)
  {
    var last := |turns| - 1;
    var merged := Turn(t.role, turns[last].parts + t.parts);
    assert turns == turns[..last] + [turns[last]] && turns[last := merged] == turns[..last] + [merged];
    MergeKeepsPairs(turns[..last], turns[last], t);
    hide Pairs, PairsOf;
  }

  // The turn opens a new entry.
  lemma OpenStep<P>(turns: seq<Turn<P>>, t: Turn<P>)
    requires Tidy(turns) && Kept(t) && (turns == [] || turns[|turns| - 1].role != t.role)
    ensures Tidy(turns + [t]) && Pairs(turns + [t]) == Pairs(turns) + PairsOf(t)
  {
    hide *;
    TidySnoc(turns, t);
    PairsAppend(turns, [t]);
    PairsSingle(t);
  }

  lemma TidySnoc<P>(turns: seq<Turn<P>>, t: Turn<P>)
    requires Tidy(turns) && Kept(t) && (turns == [] || turns[|turns| - 1].role != t.role)
    ensures Tidy(turns + [t])
  {
  }

  /** The loop leaves a tidy list carrying exactly the given parts, in order. */
  method NormalizeFilteredContents<P>(contents: seq<Turn<P>>) returns (normalized: seq<Turn<P>>)
    ensures Tidy(normalized)
    ensures Pairs(normalized) == Pairs(contents)
  {
    normalized := [];
    for k := 0 to |contents|
      invariant Tidy(normalized)
      invariant Pairs(normalized) == Pairs(contents[..k])
    {
      var content := contents[k];
      PairsSnoc(contents, k);
      if Kept(content) {
        if normalized != [] && normalized[|normalized| - 1].role == content.role {
          var previous := normalized[|normalized| - 1];
          JoinStep(normalized, content);
          normalized := normalized[|normalized| - 1 := Turn(previous.role, previous.parts + content.parts)];
        } else {
          OpenStep(normalized, content);
          normalized := normalized + [content];
        }
      }
      hide Pairs, PairsOf;
    }
    assert contents[..|contents|] == contents;
  }

  lemma MergePairs<P>(a: Turn<P>, b: Turn<P>)
    requires Kept(a) && Kept(b) && a.role == b.role
    ensures PairsOf(Turn(a.role, a.parts + b.parts)) == PairsOf(a) + PairsOf(b)
  {
  }

  lemma MergeKeepsPairs<P>(front: seq<Turn<P>>, a: Turn<P>, b: Turn<P>)
    requires Kept(a) && Kept(b) && a.role == b.role
    ensures Pairs(front + [Turn(a.role, a.parts + b.parts)]) == Pairs(front + [a]) + PairsOf(b)
  {
    var merged := Turn(a.role, a.parts + b.parts);
    MergePairs(a, b);
    PairsSingle(a);
    PairsSingle(merged);
    hide *;
    PairsAppend(front, [merged]);
    PairsAppend(front, [a]);
    Associative(Pairs(front), PairsOf(a), PairsOf(b));
  }

  /** A tidy list is determined by its parts: the merge has exactly one possible result. */
  lemma {:induction false} TidyIsCanonical<P>(a: seq<Turn<P>>, b: seq<Turn<P>>)
    requires Tidy(a) && Tidy(b) && Pairs(a) == Pairs(b)
    ensures a == b
  {
    if a == [] || b == [] {
      EmptyOnlyIfEmpty(a);
      EmptyOnlyIfEmpty(b);
    } else {
      FirstTurnLength(a, b);
      FirstTurnLength(b, a);
      var n := |a[0].parts|;
      assert Pairs(a)[..n] == PairsOf(a[0]) && Pairs(b)[..n] == PairsOf(b[0]);
      assert Pairs(a)[n..] == Pairs(a[1..]) && Pairs(b)[n..] == Pairs(b[1..]);
      SamePairs(a[0], b[0]);
      TidyIsCanonical(a[1..], b[1..]);
      assert a == [a[0]] + a[1..] && b == [b[0]] + b[1..];
    }
  }

  lemma EmptyOnlyIfEmpty<P>(a: seq<Turn<P>>)
    requires Tidy(a)
    ensures Pairs(a) == [] <==> a == []
  {
  }

  lemma SamePairs<P>(s: Turn<P>, t: Turn<P>)
    requires Kept(s) && Kept(t) && PairsOf(s) == PairsOf(t)
    ensures s == t
  {
    assert PairsOf(s)[0] == PairsOf(t)[0];
    forall i | 0 <= i < |s.parts| ensures s.parts[i] == t.parts[i] {
      assert PairsOf(s)[i] == PairsOf(t)[i];
    }
  }

  // The first turn reaches as far as its role does.
  lemma FirstTurnLength<P>(a: seq<Turn<P>>, b: seq<Turn<P>>)
    requires Tidy(a) && Tidy(b) && a != [] && b != [] && Pairs(a) == Pairs(b)
    ensures |a[0].parts| >= |b[0].parts|
  {
    var n := |a[0].parts|;
    assert Pairs(a) == PairsOf(a[0]) + Pairs(a[1..]);
    assert Pairs(b) == PairsOf(b[0]) + Pairs(b[1..]);
    assert a[0].role == Pairs(a)[0].0 == b[0].role;
    EmptyOnlyIfEmpty(a[1..]);
    assert |a| > 1 ==> Pairs(a)[n] == PairsOf(a[1])[0];
  }

  /** Merging twice is merging once. */
  lemma Idempotent<P>(contents: seq<Turn<P>>, once: seq<Turn<P>>, twice: seq<Turn<P>>)
    requires Tidy(once) && Pairs(once) == Pairs(contents)
    requires Tidy(twice) && Pairs(twice) == Pairs(once)
    ensures once == twice && (Tidy(contents) ==> once == contents)
  {
    TidyIsCanonical(once, twice);
    if Tidy(contents) {
      TidyIsCanonical(once, contents);
    }
  }
}
