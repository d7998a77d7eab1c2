// What the extractor reports, in terms of the events' own parts.
module ChatGptMeaning {
  import opened Options
  import opened OrderedMaps
  import opened Records
  import opened ChatGptStream

  /** The strings among the parts, joined. */
  function Joined(parts: seq<Part>): string {
    if parts == [] then ""
    else
      var last := parts[|parts| - 1];
      Joined(parts[..|parts| - 1]) + match last case TextPart(text) => text case ImagePart(_) => "" case OtherPart => ""
  }

  function Images(parts: seq<Part>): seq<string> {
    if parts == [] then []
    else
      var last := parts[|parts| - 1];
      Images(parts[..|parts| - 1]) + match last case ImagePart(p) => [p] case TextPart(_) => [] case OtherPart => []
  }

  lemma {:induction false} CumulativeIs(parts: seq<Part>)
    ensures Cumulative(parts) == Joined(parts)
  {
    if parts != [] {
      var n := |parts| - 1;
      assert parts == parts[..n] + [parts[n]];
      CumulativeIs(parts[..n]);
      CumulativeSnoc(parts[..n], parts[n]);
    }
  }

  lemma {:induction false} CumulativeSnoc(parts: seq<Part>, last: Part)
    ensures Cumulative(parts + [last]) == Cumulative(parts) + if last.TextPart? then last.text else ""
  {
    if parts == [] {
      assert [last][1..] == [];
      assert "" + (if last.TextPart? then last.text else "") == (if last.TextPart? then last.text else "") + "";
    } else {
      assert (parts + [last])[1..] == parts[1..] + [last];
      CumulativeSnoc(parts[1..], last);
      Associative(if parts[0].TextPart? then parts[0].text else "", Cumulative(parts[1..]),
                  if last.TextPart? then last.text else "");
    }
  }

  lemma {:induction false} ImagesInIs(parts: seq<Part>)
    ensures ImagesIn(parts) == Images(parts)
  {
    if parts != [] {
      var n := |parts| - 1;
      assert parts == parts[..n] + [parts[n]];
      ImagesInIs(parts[..n]);
      ImagesSnoc(parts[..n], parts[n]);
    }
  }

  lemma {:induction false} ImagesSnoc(parts: seq<Part>, last: Part)
    ensures ImagesIn(parts + [last]) == ImagesIn(parts) + if last.ImagePart? then [last.pointer] else []
  {
    if parts == [] {
      assert [last][1..] == [];
    } else {
      assert (parts + [last])[1..] == parts[1..] + [last];
      ImagesSnoc(parts[1..], last);
      Associative(if parts[0].ImagePart? then [parts[0].pointer] else [], ImagesIn(parts[1..]),
                  if last.ImagePart? then [last.pointer] else []);
    }
  }

  // ---------- The answer ----------

  /** The text an event shows. */
  function Shown(e: Event): string {
    if e.Message? then Joined(e.parts) else ""
  }

  /** Of one message the longest text shown is the answer, the first one among equals. */
  ghost predicate LongestShown(before: string, events: seq<Event>, answer: string) {
    || (answer == before && forall i :: 0 <= i < |events| ==> |Shown(events[i])| <= |before|)
    || exists i :: 0 <= i < |events| && FirstLongest(before, events, answer, i)
  }

  ghost predicate FirstLongest(before: string, events: seq<Event>, answer: string, i: nat)
    requires i < |events|
  {
    && answer == Shown(events[i]) && |answer| > |before|
    && (forall k :: 0 <= k < i ==> |Shown(events[k])| < |answer|)
    && forall k :: i < k < |events| ==> |Shown(events[k])| <= |answer|
  }

  lemma {:induction false} AnswerIsLongest(s: State, events: seq<Event>)
    requires s.emitted <= |s.parts| && SameMessage(s.id, events)
    ensures LongestShown(s.parts, events, Final(s, events).parts)
    decreases |events|
  {
    hide Next, Shown;
    if events != [] {
      var e, t, answer := events[0], Next(s, events[0]), Final(s, events).parts;
      ShownIs(e);
      StepText(s, e);
      assert SameMessage(t.id, events[1..]);
      AnswerIsLongest(t, events[1..]);
      LongestStep(s.parts, events, t.parts, answer);
    }
  }

  lemma ShownIs(e: Event)
    ensures Shown(e) == if e.Message? then Cumulative(e.parts) else ""
  {
    if e.Message? {
      CumulativeIs(e.parts);
    }
  }

  lemma LongestStep(before: string, events: seq<Event>, now: string, answer: string)
    requires events != [] && now == (if |Shown(events[0])| > |before| then Shown(events[0]) else before)
    requires LongestShown(now, events[1..], answer)
    ensures LongestShown(before, events, answer)
  {
    hide Shown;
    var rest := events[1..];
    assert forall i :: 0 <= i < |rest| ==> rest[i] == events[i + 1];
    assert forall i :: 0 < i < |events| ==> events[i] == rest[i - 1];
    if answer == now && forall i :: 0 <= i < |rest| ==> |Shown(rest[i])| <= |now| {
      if now != before || |Shown(events[0])| > |before| {
        assert FirstLongest(before, events, answer, 0);
      }
    } else {
      var i :| 0 <= i < |rest| && FirstLongest(now, rest, answer, i);
      assert FirstLongest(before, events, answer, i + 1);
    }
  }

  // ---------- The chunks ----------

  /** The stream ends with the whole answer and the images, or with the failure that cut it. */
  lemma {:induction false} LastChunk(s: State, events: seq<Event>)
    ensures NoFailure(events) ==>
              var out := Output(s, events);
              out != [] && out[|out| - 1] == Done(Final(s, events).parts, Final(s, events).pointers)
    ensures forall k :: 0 <= k < |events| && events[k].Failure? && NoFailure(events[..k]) ==>
              var out := Output(s, events);
              out != [] && out[|out| - 1] == Error(events[k].message)
    decreases |events|
  {
    hide Next, Yielded;
    if events != [] && !events[0].Failure? {
      var t, rest := Next(s, events[0]), events[1..];
      LastChunk(t, rest);
      forall k | 0 <= k < |events| && events[k].Failure? && NoFailure(events[..k])
        ensures 0 < k && rest[k - 1] == events[k] && NoFailure(rest[..k - 1])
      {
        assert events[..k][1..] == rest[..k - 1];
        TailHasNoFailure(events[..k]);
      }
      if NoFailure(events) {
        assert forall j :: 0 <= j < |rest| ==> rest[j] == events[j + 1];
      }
    } else if events != [] {
      assert forall k :: 0 < k < |events| ==> events[..k][0] == events[0];
    }
  }

  lemma TailHasNoFailure(events: seq<Event>)
    requires NoFailure(events) && events != []
    ensures NoFailure(events[1..])
  {
  }

  /** Each delta is the new end of the answer it comes with. */
  predicate DeltaFits(c: Chunk) {
    c.Delta? ==> c.delta != "" && |c.delta| <= |c.answer| && c.answer[|c.answer| - |c.delta|..] == c.delta
  }

  lemma {:induction false} DeltasFit(s: State, events: seq<Event>)
    requires s.emitted <= |s.parts|
    ensures forall c :: c in Output(s, events) ==> DeltaFits(c)
    decreases |events|
  {
    if events != [] && !events[0].Failure? {
      EmittedWithin(s, events[0]);
      hide Next, Yielded;
      DeltasFit(Next(s, events[0]), events[1..]);
    }
  }

  lemma EmittedWithin(s: State, e: Event)
    requires s.emitted <= |s.parts|
    ensures Next(s, e).emitted <= |Next(s, e).parts|
    ensures forall c :: c in Yielded(s, e) ==> DeltaFits(c)
  {
    hide Cumulative, ImagesIn, AddPointers;
  }

  // ---------- Images ----------

  /** Images count once a message is finished or without a status, and while it is being written. */
  lemma OffersIff(s: State, m: Event)
    requires m.Message?
    ensures OffersImages(s, m) <==>
              m.parts != [] &&
              (m.status in {FinishedSuccessfully, NoStatus, InProgress} || (s.live && (m.id == "" || m.id == s.id)))
  {
  }

  // ---------- One answer from end to end ----------

  /** Two snapshots of a message being written: two deltas, then the answer with its image. */
  lemma LiveExample()
    ensures var first := Message("m", InProgress, [TextPart("he")]);
            var second := Message("m", FinishedSuccessfully, [TextPart("he"), ImagePart("img"), TextPart("llo")]);
            Output(START, [first, Note, second]) ==
              [Delta("he", "he", "m"), Delta("llo", "hello", "m"), Done("hello", [Pointer("img", "m")])]
  {
    var first := Message("m", InProgress, [TextPart("he")]);
    var second := Message("m", FinishedSuccessfully, [TextPart("he"), ImagePart("img"), TextPart("llo")]);
    FirstText();
    SecondText();
    var t := State("m", "he", 2, true, []);
    var u := State("m", "hello", 5, true, [Pointer("img", "m")]);
    assert Absorb(START, first) == State("m", "he", 0, true, []);
    assert Next(START, first) == t && Yielded(START, first) == [Delta("he", "he", "m")];
    assert AddPointers([], ["img"], "m") == [Pointer("img", "m")] by {
      assert ["img"][1..] == [];
    }
    assert Absorb(t, second) == State("m", "hello", 2, true, [Pointer("img", "m")]);
    assert "hello"[2..] == "llo";
    assert Next(t, second) == u && Yielded(t, second) == [Delta("llo", "hello", "m")];
    hide Next, Yielded, AddPointers;
    assert [second][1..] == [] && [Note, second][1..] == [second] && [first, Note, second][1..] == [Note, second];
    assert Output(u, []) == [] + [Done("hello", u.pointers)];
    assert Output(t, [second]) == [Delta("llo", "hello", "m")] + Output(u, []);
    NoteIsSilent(t, [second]);
    assert Output(START, [first, Note, second]) == [Delta("he", "he", "m")] + Output(t, [Note, second]);
  }

  lemma NoteIsSilent(s: State, rest: seq<Event>)
    ensures Output(s, [Note] + rest) == Output(s, rest)
  {
    assert ([Note] + rest)[1..] == rest;
    assert Yielded(s, Note) == [] && Next(s, Note) == s;
  }

  lemma FirstText()
    ensures Cumulative([TextPart("he")]) == "he" && ImagesIn([TextPart("he")]) == []
  {
    assert [TextPart("he")][1..] == [];
    assert Cumulative([TextPart("he")]) == "he" + "";
  }

  lemma SecondText()
    ensures var parts := [TextPart("he"), ImagePart("img"), TextPart("llo")];
            Cumulative(parts) == "hello" && ImagesIn(parts) == ["img"]
  {
    var a, b, c := TextPart("he"), ImagePart("img"), TextPart("llo");
    assert [c][1..] == [] && [b, c][1..] == [c] && [a, b, c][1..] == [b, c];
    assert Cumulative([c]) == "llo" + "" && Cumulative([b, c]) == "" + "llo" && Cumulative([a, b, c]) == "he" + "llo";
    assert "he" + "llo" == "hello";
    assert ImagesIn([c]) == [] && ImagesIn([b, c]) == ["img"] + [] && ImagesIn([a, b, c]) == [] + ["img"];
  }
}
