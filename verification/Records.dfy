// Splitting a text at a separator when it arrives in arbitrary pieces.
module Records {
  /** Index of the first separator, or the length of the text. */
  function FirstAt(sep: char, text: string): (i: nat)
    ensures i <= |text|
    ensures i < |text| ==> text[i] == sep
    ensures forall k :: 0 <= k < i ==> text[k] != sep
  {
    if text == "" || text[0] == sep then 0 else 1 + FirstAt(sep, text[1..])
  }

  /** The complete records of a text: everything before each separator. */
  function Complete(sep: char, text: string): seq<string>
    decreases |text|
  {
    var i := FirstAt(sep, text);
    if i == |text| then [] else [text[..i]] + Complete(sep, text[i + 1..])
  }

  /** What follows the last separator. */
  function Rest(sep: char, text: string): string
    decreases |text|
  {
    var i := FirstAt(sep, text);
    if i == |text| then text else Rest(sep, text[i + 1..])
  }

  lemma Unfold(sep: char, text: string)
    ensures var i := FirstAt(sep, text);
            if i == |text| then Complete(sep, text) == [] && Rest(sep, text) == text
            else
              && Complete(sep, text) == [text[..i]] + Complete(sep, text[i + 1..])
              && Rest(sep, text) == Rest(sep, text[i + 1..])
  {
    hide FirstAt;
  }

  function Concat(pieces: seq<string>): string {
    if pieces == [] then "" else pieces[0] + Concat(pieces[1..])
  }

  lemma FirstAtAppend(sep: char, a: string, b: string)
    requires FirstAt(sep, a) < |a|
    ensures FirstAt(sep, a + b) == FirstAt(sep, a)
  {
    var i, j := FirstAt(sep, a), FirstAt(sep, a + b);
    assert (a + b)[i] == a[i] == sep;
    assert (a + b)[..|a|] == a;
  }

  lemma Associative<T>(a: seq<T>, b: seq<T>, c: seq<T>)
    ensures a + (b + c) == a + b + c
  {
  }

  lemma SliceAppend(a: string, b: string, i: nat)
    requires i < |a|
    ensures (a + b)[..i] == a[..i] && (a + b)[i + 1..] == a[i + 1..] + b
  {
  }

  // One record off the front of both texts.
  lemma SplitHead(sep: char, a: string, b: string)
    requires FirstAt(sep, a) < |a|
    ensures var i := FirstAt(sep, a);
            && Complete(sep, a) == [a[..i]] + Complete(sep, a[i + 1..])
            && Rest(sep, a) == Rest(sep, a[i + 1..])
            && Complete(sep, a + b) == [a[..i]] + Complete(sep, a[i + 1..] + b)
            && Rest(sep, a + b) == Rest(sep, a[i + 1..] + b)
  {
    hide FirstAt;
    Unfold(sep, a);
    FirstAtAppend(sep, a, b);
    Unfold(sep, a + b);
    SliceAppend(a, b, FirstAt(sep, a));
    hide *;
  }

  /** A prefix can be split early: only its unfinished rest has to be kept. */
  lemma {:induction false} SplitAppend(sep: char, a: string, b: string)
    ensures Complete(sep, a + b) == Complete(sep, a) + Complete(sep, Rest(sep, a) + b)
    ensures Rest(sep, a + b) == Rest(sep, Rest(sep, a) + b)
    decreases |a|
  {
    hide *;
    var i := FirstAt(sep, a);
    if i == |a| {
      Unfold(sep, a);
    } else {
      var tail := a[i + 1..];
      SplitHead(sep, a, b);
      SplitAppend(sep, tail, b);
      Associative([a[..i]], Complete(sep, tail), Complete(sep, Rest(sep, tail) + b));
    }
  }

  /** The records with a separator after each. */
  function Join(sep: char, records: seq<string>): string {
    if records == [] then "" else records[0] + [sep] + Join(sep, records[1..])
  }

  /** Splitting is undone by joining, and no record contains a separator. */
  lemma {:induction false} SplitMeaning(sep: char, text: string)
    ensures Join(sep, Complete(sep, text)) + Rest(sep, text) == text
    ensures forall r :: r in Complete(sep, text) ==> sep !in r
    ensures sep !in Rest(sep, text)
    decreases |text|
  {
    hide Complete, Rest, FirstAt;
    Unfold(sep, text);
    var i := FirstAt(sep, text);
    if i < |text| {
      var more, rest := Complete(sep, text[i + 1..]), Rest(sep, text[i + 1..]);
      SplitMeaning(sep, text[i + 1..]);
      assert text == text[..i] + [sep] + text[i + 1..];
      JoinHead(sep, text[..i], more);
      Associative(text[..i] + [sep], Join(sep, more), rest);
    }
  }

  lemma JoinHead(sep: char, record: string, more: seq<string>)
    ensures Join(sep, [record] + more) == record + [sep] + Join(sep, more)
  {
    assert ([record] + more)[1..] == more;
  }

  /** Text without a separator is all rest. */
  lemma NoSeparator(sep: char, text: string)
    requires sep !in text
    ensures Complete(sep, text) == [] && Rest(sep, text) == text
  {
  }

  lemma {:induction false} RestHasNoSeparator(sep: char, text: string)
    ensures sep !in Rest(sep, text)
    decreases |text|
  {
    var i := FirstAt(sep, text);
    if i < |text| {
      RestHasNoSeparator(sep, text[i + 1..]);
    }
  }

  lemma {:induction false} ConcatSnoc(pieces: seq<string>, last: string)
    ensures Concat(pieces + [last]) == Concat(pieces) + last
  {
    if pieces == [] {
      assert Concat([last]) == last + Concat([]);
    } else {
      assert (pieces + [last])[1..] == pieces[1..] + [last];
      ConcatSnoc(pieces[1..], last);
      assert pieces[0] + (Concat(pieces[1..]) + last) == pieces[0] + Concat(pieces[1..]) + last;
    }
  }

  lemma {:induction false} ConcatAppend(a: seq<string>, b: seq<string>)
    ensures Concat(a + b) == Concat(a) + Concat(b)
  {
    if a == [] {
      assert a + b == b;
    } else {
      assert (a + b)[1..] == a[1..] + b;
      ConcatAppend(a[1..], b);
      assert a[0] + (Concat(a[1..]) + Concat(b)) == a[0] + Concat(a[1..]) + Concat(b);
    }
  }
}
