// Cumulative ChatGPT snapshots turned into deltas, with echoed turns suppressed.
module ChatGptStream {
  import opened OrderedMaps
  import opened Records

  datatype Part = TextPart(text: string) | ImagePart(pointer: string) | OtherPart

  datatype Status = InProgress | FinishedSuccessfully | NoStatus | OtherStatus

  /** `Note` is every event without an assistant message; an empty id is a missing one. */
  datatype Event = Failure(message: string) | Note | Message(id: string, status: Status, parts: seq<Part>)

  datatype Pointer = Pointer(asset: string, messageId: string)

  datatype Chunk = Delta(delta: string, answer: string, messageId: string)
                 | Done(answer: string, pointers: seq<Pointer>)
                 | Error(message: string)

  datatype State = State(id: string, parts: string, emitted: nat, live: bool, pointers: seq<Pointer>)

  const START := State("", "", 0, false, [])

  function Cumulative(parts: seq<Part>): string {
    if parts == [] then "" else (if parts[0].TextPart? then parts[0].text else "") + Cumulative(parts[1..])
  }

  function ImagesIn(parts: seq<Part>): seq<string> {
    if parts == [] then [] else (if parts[0].ImagePart? then [parts[0].pointer] else []) + ImagesIn(parts[1..])
  }

  function IndexOf(pointers: seq<Pointer>, asset: string): (i: nat)
    ensures i <= |pointers|
    ensures i < |pointers| ==> pointers[i].asset == asset
    ensures forall k :: 0 <= k < i ==> pointers[k].asset != asset
  {
    if pointers == [] || pointers[0].asset == asset then 0 else 1 + IndexOf(pointers[1..], asset)
  }

  // A known pointer keeps its place; it only gains a message id it lacked.
  function AddPointer(pointers: seq<Pointer>, asset: string, id: string): seq<Pointer> {
    var i := IndexOf(pointers, asset);
    if i == |pointers| then pointers + [Pointer(asset, id)]
    else if pointers[i].messageId != "" then pointers
    else pointers[i := Pointer(asset, id)]
  }

  function AddPointers(pointers: seq<Pointer>, assets: seq<string>, id: string): seq<Pointer>
    decreases |assets|
  {
    if assets == [] then pointers else AddPointers(AddPointer(pointers, assets[0], id), assets[1..], id)
  }

  /** The message an event belongs to: a new id starts afresh. */
  function Enter(s: State, m: Event): State
    requires m.Message?
  {
    var s1 := if m.id != "" && m.id != s.id then s.(id := m.id, parts := "", emitted := 0, live := false) else s;
    if m.status.InProgress? then s1.(live := true) else s1
  }

  predicate OffersImages(s: State, m: Event)
    requires m.Message?
  {
    m.parts != [] && (m.status.FinishedSuccessfully? || m.status.NoStatus? || Enter(s, m).live)
  }

  function Absorb(s: State, m: Event): State
    requires m.Message?
  {
    var s1 := Enter(s, m);
    if m.parts == [] then s1
    else
      var text := Cumulative(m.parts);
      s1.(pointers := if OffersImages(s, m) then AddPointers(s1.pointers, ImagesIn(m.parts), m.id) else s1.pointers,
          parts := if |text| > |s1.parts| then text else s1.parts)
  }

  predicate Emits(s: State, m: Event)
    requires m.Message?
  {
    m.parts != [] && Absorb(s, m).live && |Absorb(s, m).parts| > Absorb(s, m).emitted
  }

  function ChunkOf(s: State): seq<Chunk>
    requires s.emitted <= |s.parts|
  {
    [Delta(s.parts[s.emitted..], s.parts, s.id)]
  }

  function Next(s: State, e: Event): State {
    if !e.Message? then s
    else if Emits(s, e) then Absorb(s, e).(emitted := |Absorb(s, e).parts|)
    else Absorb(s, e)
  }

  function Yielded(s: State, e: Event): seq<Chunk> {
    if e.Message? && Emits(s, e) then ChunkOf(Absorb(s, e)) else []
  }

  /** At the end of the stream: a message that never went live is emitted whole. */
  function AtEnd(s: State): seq<Chunk> {
    (if !s.live && |s.parts| > s.emitted then ChunkOf(s) else []) + [Done(s.parts, s.pointers)]
  }

  function Output(s: State, events: seq<Event>): seq<Chunk>
    decreases |events|
  {
    if events == [] then AtEnd(s)
    else if events[0].Failure? then [Error(events[0].message)]
    else Yielded(s, events[0]) + Output(Next(s, events[0]), events[1..])
  }

  function Final(s: State, events: seq<Event>): State
    decreases |events|
  {
    if events == [] then s else Final(Next(s, events[0]), events[1..])
  }

  function DeltaText(chunks: seq<Chunk>): string {
    if chunks == [] then "" else (if chunks[0].Delta? then chunks[0].delta else "") + DeltaText(chunks[1..])
  }

  lemma {:induction false} DeltaTextAppend(a: seq<Chunk>, b: seq<Chunk>)
    ensures DeltaText(a + b) == DeltaText(a) + DeltaText(b)
  {
    if a == [] {
      assert a + b == b;
    } else {
      assert (a + b)[1..] == a[1..] + b;
      DeltaTextAppend(a[1..], b);
      Associative(if a[0].Delta? then a[0].delta else "", DeltaText(a[1..]), DeltaText(b));
    }
  }

  lemma OneChunk(s: State)
    requires s.emitted <= |s.parts|
    ensures DeltaText(ChunkOf(s)) == s.parts[s.emitted..]
  {
    assert ChunkOf(s)[1..] == [];
  }

  // ---------- One message: the deltas against its final answer ----------

  /** Events that stay with the current message. */
  predicate SameMessage(id: string, events: seq<Event>) {
    forall i :: 0 <= i < |events| ==>
      !events[i].Failure? && (events[i].Message? ==> events[i].id == "" || events[i].id == id)
  }

  /** Every longer snapshot extends the text known so far. */
  predicate SnapshotsExtend(known: string, events: seq<Event>)
    decreases |events|
  {
    events == [] ||
    var text := if events[0].Message? then Cumulative(events[0].parts) else "";
    (|text| > |known| ==> known <= text) && SnapshotsExtend(if |text| > |known| then text else known, events[1..])
  }

  /** Live text that was never sent: nothing with parts came after the message went live. */
  predicate Stalled(s: State) {
    s.live && s.emitted < |s.parts|
  }

  lemma StepText(s: State, e: Event)
    requires !e.Failure? && (e.Message? ==> e.id == "" || e.id == s.id)
    requires s.emitted <= |s.parts|
    ensures var t := Next(s, e);
            var text := if e.Message? then Cumulative(e.parts) else "";
            t.id == s.id && t.parts == (if |text| > |s.parts| then text else s.parts) &&
            s.emitted <= t.emitted <= |t.parts| &&
            DeltaText(Yielded(s, e)) == t.parts[s.emitted..t.emitted]
  {
    hide AddPointers, ImagesIn;
    if e.Message? && Emits(s, e) {
      OneChunk(Absorb(s, e));
      hide Cumulative;
    }
  }

  // Sent before, sent now, sent later.
  lemma Joined(before: string, after: string, a: nat, b: nat, later: string)
    requires a <= |before| && a <= b <= |after| && before <= after
    ensures before[..a] + (after[a..b] + later) == after[..b] + later
  {
    assert before[..a] == after[..a];
    Slices(after, a, b);
    Associative(before[..a], after[a..b], later);
  }

  lemma Slices(t: string, a: nat, b: nat)
    requires a <= b <= |t|
    ensures t[..a] + t[a..b] == t[..b] && t[..a] + t[a..] == t
  {
  }

  lemma EndText(s: State)
    requires s.emitted <= |s.parts|
    ensures DeltaText(AtEnd(s)) == if Stalled(s) then "" else s.parts[s.emitted..]
  {
    OneChunk(s);
    var done := [Done(s.parts, s.pointers)];
    assert done[1..] == [];
    DeltaTextAppend(ChunkOf(s), done);
    assert s.parts[s.emitted..] + "" == s.parts[s.emitted..];
    assert [] + done == done;
  }

  /** With growing snapshots, what was sent before and what is sent now make up the final answer, unless it stalled. */
  lemma {:induction false} DeltasAreTheAnswer(s: State, events: seq<Event>)
    requires s.emitted <= |s.parts| && SameMessage(s.id, events) && SnapshotsExtend(s.parts, events)
    ensures var f := Final(s, events);
            s.parts <= f.parts && s.emitted <= f.emitted <= |f.parts| &&
            s.parts[..s.emitted] + DeltaText(Output(s, events)) == if Stalled(f) then f.parts[..f.emitted] else f.parts
    decreases |events|
  {
    if events == [] {
      EndText(s);
      Slices(s.parts, s.emitted, |s.parts|);
      assert s.parts[..s.emitted] + "" == s.parts[..s.emitted];
    } else {
      var t := Next(s, events[0]);
      StepText(s, events[0]);
      assert SameMessage(t.id, events[1..]);
      DeltasAreTheAnswer(t, events[1..]);
      DeltaTextAppend(Yielded(s, events[0]), Output(t, events[1..]));
      hide *;
      Joined(s.parts, t.parts, s.emitted, t.emitted, DeltaText(Output(t, events[1..])));
    }
  }

  // ---------- When a message stalls ----------

  predicate GoesLive(e: Event) {
    e.Message? && e.status.InProgress?
  }

  predicate HasParts(e: Event) {
    e.Message? && e.parts != []
  }

  /** It went live after its text came, and nothing with parts came from then on. */
  predicate StallsBy(hasText: bool, events: seq<Event>)
    decreases |events|
  {
    if events == [] then false
    else if GoesLive(events[0]) then hasText && forall i :: 0 <= i < |events| ==> !HasParts(events[i])
    else StallsBy(hasText || (events[0].Message? && Cumulative(events[0].parts) != ""), events[1..])
  }

  lemma {:induction false} StalledIff(s: State, events: seq<Event>)
    requires !s.live && s.emitted == 0 && SameMessage(s.id, events)
    ensures Stalled(Final(s, events)) <==> StallsBy(s.parts != "", events)
    decreases |events|
  {
    if events != [] {
      var e, t := events[0], Next(s, events[0]);
      StepText(s, e);
      LiveStep(s, e);
      assert SameMessage(t.id, events[1..]);
      hide Next, Cumulative;
      if GoesLive(e) {
        LiveStall(t, events[1..]);
      } else {
        StalledIff(t, events[1..]);
      }
    }
  }

  lemma LiveStep(s: State, e: Event)
    requires !e.Failure? && (e.Message? ==> e.id == "" || e.id == s.id) && s.emitted <= |s.parts|
    ensures var t := Next(s, e);
            t.live == (s.live || GoesLive(e)) &&
            t.emitted == if HasParts(e) && t.live then |t.parts| else s.emitted
  {
    hide AddPointers, ImagesIn, Cumulative;
  }

  // Once live, the first event with parts sends all there is.
  lemma {:induction false} LiveStall(s: State, events: seq<Event>)
    requires s.live && s.emitted <= |s.parts| && SameMessage(s.id, events)
    ensures Stalled(Final(s, events)) <==>
              s.emitted < |s.parts| && forall i :: 0 <= i < |events| ==> !HasParts(events[i])
    decreases |events|
  {
    if events != [] {
      var e, t := events[0], Next(s, events[0]);
      StepText(s, e);
      LiveStep(s, e);
      assert SameMessage(t.id, events[1..]);
      LiveStall(t, events[1..]);
      assert (forall i :: 0 <= i < |events| ==> !HasParts(events[i])) <==>
             !HasParts(e) && forall i :: 0 <= i < |events[1..]| ==> !HasParts(events[1..][i]) by {
        if forall i :: 0 <= i < |events[1..]| ==> !HasParts(events[1..][i]) {
          assert forall i :: 1 <= i < |events| ==> events[i] == events[1..][i - 1];
        } else {
          var i :| 0 <= i < |events[1..]| && HasParts(events[1..][i]);
          assert events[i + 1] == events[1..][i];
        }
      }
    }
  }

  /** A message whose snapshots grow: its deltas concatenate to the final answer unless it stalls as the events show. */
  lemma DeltasAreTheAnswerIff(s: State, first: Event, events: seq<Event>)
    requires first.Message? && first.id != "" && first.id != s.id
    requires SameMessage(first.id, events) && SnapshotsExtend("", [first] + events)
    ensures var f := Final(s, [first] + events);
            DeltaText(Output(s, [first] + events)) == f.parts <==> !StallsBy(false, [first] + events)
  {
    var blank := State(first.id, "", 0, false, s.pointers);
    var all := [first] + events;
    assert all[1..] == events;
    assert SameMessage(first.id, all);
    FreshStart(s, first);
    StalledIff(blank, all);
    DeltasAreTheAnswer(blank, all);
    assert "" + DeltaText(Output(blank, all)) == DeltaText(Output(blank, all));
    hide Next, Yielded, DeltaText;
    assert Output(s, all) == Output(blank, all);
    assert Final(s, all) == Final(blank, all);
  }

  // A new message owes nothing to the one before.
  lemma FreshStart(s: State, first: Event)
    requires first.Message? && first.id != "" && first.id != s.id
    ensures var blank := State(first.id, "", 0, false, s.pointers);
            Next(s, first) == Next(blank, first) && Yielded(s, first) == Yielded(blank, first)
  {
    hide AddPointers, ImagesIn, Cumulative;
  }

  /** Such a stream: the answer is there, went live, and was never sent. */
  lemma StallExample()
    ensures var events := [Message("m", FinishedSuccessfully, [TextPart("hi")]), Message("m", InProgress, [])];
            Final(START, events).parts == "hi" && DeltaText(Output(START, events)) == ""
  {
    var first, second := Message("m", FinishedSuccessfully, [TextPart("hi")]), Message("m", InProgress, []);
    var events := [first] + [second];
    assert events[1..] == [second];
    assert Cumulative(first.parts) == "hi" + Cumulative(first.parts[1..]) == "hi";
    var t := Next(START, first);
    assert t.parts == "hi" && t.id == "m" && t.emitted == 0 && !t.live && Yielded(START, first) == [];
    assert SameMessage("m", events);
    var u := Next(t, second);
    assert u == t.(live := true) && Yielded(t, second) == [];
    assert [second][1..] == [];
    assert Output(t, [second]) == [] + AtEnd(u);
    assert Output(START, events) == [] + Output(t, [second]);
    EndText(u);
    assert events == [Message("m", FinishedSuccessfully, [TextPart("hi")]), Message("m", InProgress, [])];
  }

  // ---------- A message anywhere in the stream ----------

  predicate NoFailure(events: seq<Event>) {
    forall i :: 0 <= i < |events| ==> !events[i].Failure?
  }

  /** The chunks yielded while these events are read. */
  function YieldedAll(s: State, events: seq<Event>): seq<Chunk>
    decreases |events|
  {
    if events == [] then [] else Yielded(s, events[0]) + YieldedAll(Next(s, events[0]), events[1..])
  }

  lemma {:induction false} OutputSplit(s: State, a: seq<Event>, b: seq<Event>)
    requires NoFailure(a)
    ensures Output(s, a + b) == YieldedAll(s, a) + Output(Final(s, a), b)
    decreases |a|
  {
    hide Next, Yielded;
    if a == [] {
      assert a + b == b;
    } else {
      assert (a + b)[0] == a[0] && (a + b)[1..] == a[1..] + b;
      OutputSplit(Next(s, a[0]), a[1..], b);
      Associative(Yielded(s, a[0]), YieldedAll(Next(s, a[0]), a[1..]), Output(Final(s, a), b));
    }
  }

  /** Either nothing of the message is out, or it is live and all of it is. */
  predicate NothingOrAll(s: State) {
    s.emitted == 0 || (s.live && s.emitted == |s.parts|)
  }

  /** What one event does to a message with growing snapshots. */
  lemma GrowingStep(s: State, events: seq<Event>)
    requires events != [] && s.emitted <= |s.parts| && NothingOrAll(s)
    requires SameMessage(s.id, events) && SnapshotsExtend(s.parts, events)
    ensures var t := Next(s, events[0]);
            s.parts <= t.parts && s.emitted <= t.emitted <= |t.parts| && NothingOrAll(t) &&
            SameMessage(t.id, events[1..]) && SnapshotsExtend(t.parts, events[1..]) &&
            DeltaText(Yielded(s, events[0])) == t.parts[s.emitted..t.emitted]
  {
    var t := Next(s, events[0]);
    StepText(s, events[0]);
    LiveStep(s, events[0]);
    StillAll(s, t, events[0]);
    hide Next, Yielded, DeltaText, Cumulative, NothingOrAll;
  }

  lemma YieldedUnfold(s: State, events: seq<Event>)
    requires events != []
    ensures YieldedAll(s, events) == Yielded(s, events[0]) + YieldedAll(Next(s, events[0]), events[1..])
    ensures Final(s, events) == Final(Next(s, events[0]), events[1..])
  {
    hide Next, Yielded;
  }

  /** With growing snapshots, the deltas yielded so far are the text sent so far. */
  lemma {:induction false} DeltasSoFar(s: State, events: seq<Event>)
    requires s.emitted <= |s.parts| && NothingOrAll(s)
    requires SameMessage(s.id, events) && SnapshotsExtend(s.parts, events)
    ensures var f := Final(s, events);
            s.parts <= f.parts && s.emitted <= f.emitted <= |f.parts| && NothingOrAll(f) &&
            s.parts[..s.emitted] + DeltaText(YieldedAll(s, events)) == f.parts[..f.emitted]
    decreases |events|
  {
    if events == [] {
      assert s.parts[..s.emitted] + "" == s.parts[..s.emitted];
    } else {
      var t := Next(s, events[0]);
      GrowingStep(s, events);
      YieldedUnfold(s, events);
      hide *;
      DeltaTextAppend(Yielded(s, events[0]), YieldedAll(t, events[1..]));
      DeltasSoFar(t, events[1..]);
      Joined(s.parts, t.parts, s.emitted, t.emitted, DeltaText(YieldedAll(t, events[1..])));
    }
  }

  lemma StillAll(s: State, t: State, e: Event)
    requires NothingOrAll(s) && s.emitted <= |s.parts|
    requires t.live == (s.live || GoesLive(e)) && t.emitted == if HasParts(e) && t.live then |t.parts| else s.emitted
    requires !HasParts(e) ==> |t.parts| == |s.parts|
    ensures NothingOrAll(t)
  {
  }

  predicate GoesLiveAmong(events: seq<Event>) {
    exists i :: 0 <= i < |events| && GoesLive(events[i])
  }

  lemma {:induction false} LiveIff(s: State, events: seq<Event>)
    requires SameMessage(s.id, events) && s.emitted <= |s.parts|
    ensures Final(s, events).live <==> s.live || GoesLiveAmong(events)
    decreases |events|
  {
    if events != [] {
      var t := Next(s, events[0]);
      StepText(s, events[0]);
      LiveStep(s, events[0]);
      assert SameMessage(t.id, events[1..]);
      hide Next, GoesLive;
      LiveIff(t, events[1..]);
      assert GoesLiveAmong(events) <==> GoesLive(events[0]) || GoesLiveAmong(events[1..]) by {
        assert events == [events[0]] + events[1..];
        if i :| 0 <= i < |events[1..]| && GoesLive(events[1..][i]) {
          assert events[i + 1] == events[1..][i];
        }
      }
    }
  }

  /**
   * Every message of a stream, also one superseded later: if its snapshots grow, the deltas yielded during
   * it are its last text when it went live and did not stall, and nothing otherwise.
   */
  lemma EveryMessageDelivers(before: seq<Event>, first: Event, events: seq<Event>, after: seq<Event>)
    requires NoFailure(before) && first.Message? && first.id != "" && first.id != Final(START, before).id
    requires SameMessage(first.id, events) && SnapshotsExtend("", [first] + events)
    ensures var s, span := Final(START, before), [first] + events;
            var f := Final(s, span);
            Output(START, before + (span + after)) == YieldedAll(START, before) +
              (YieldedAll(s, span) + Output(f, after)) &&
            DeltaText(YieldedAll(s, span)) == if GoesLiveAmong(span) && !StallsBy(false, span) then f.parts else ""
  {
    var s, span := Final(START, before), [first] + events;
    var f := Final(s, span);
    assert SameMessage(first.id, span) && NoFailure(span);
    OutputSplit(START, before, span + after);
    OutputSplit(s, span, after);
    FreshSpan(s, first, events);
    hide *;
  }

  lemma FreshSpan(s: State, first: Event, events: seq<Event>)
    requires first.Message? && first.id != "" && first.id != s.id
    requires SameMessage(first.id, events) && SnapshotsExtend("", [first] + events)
    ensures var span := [first] + events;
            DeltaText(YieldedAll(s, span)) ==
              if GoesLiveAmong(span) && !StallsBy(false, span) then Final(s, span).parts else ""
  {
    var blank := State(first.id, "", 0, false, s.pointers);
    var span := [first] + events;
    assert span[1..] == events && SameMessage(first.id, span);
    FreshStart(s, first);
    assert YieldedAll(s, span) == YieldedAll(blank, span) && Final(s, span) == Final(blank, span);
    var f := Final(blank, span);
    DeltasSoFar(blank, span);
    StalledIff(blank, span);
    LiveIff(blank, span);
    assert "" + DeltaText(YieldedAll(blank, span)) == DeltaText(YieldedAll(blank, span));
    assert f.parts[..|f.parts|] == f.parts;
    hide Next, Yielded, YieldedAll, DeltaText, SnapshotsExtend, GoesLiveAmong, StallsBy;
  }

  // ---------- Echoed turns ----------

  /** Messages seen being generated, `current` being the one in hand. */
  function LiveIds(current: string, events: seq<Event>): set<string>
    decreases |events|
  {
    if events == [] then {}
    else
      var id := if events[0].Message? && events[0].id != "" then events[0].id else current;
      (if GoesLive(events[0]) then {id} else {}) + LiveIds(id, events[1..])
  }

  function LastId(current: string, events: seq<Event>): string
    decreases |events|
  {
    if events == [] then current
    else LastId(if events[0].Message? && events[0].id != "" then events[0].id else current, events[1..])
  }

  /** Text belongs to the allowed messages, save for one last chunk before the end. */
  predicate TextOnlyFrom(out: seq<Chunk>, allowed: set<string>, last: string) {
    forall i :: 0 <= i < |out| && out[i].Delta? ==>
      out[i].messageId in allowed || (i == |out| - 2 && out[i].messageId == last)
  }

  function Allowed(s: State, events: seq<Event>): set<string> {
    (if s.live then {s.id} else {}) + LiveIds(s.id, events)
  }

  lemma Prepend(now: seq<Chunk>, later: seq<Chunk>, allowed: set<string>, more: set<string>, last: string)
    requires TextOnlyFrom(later, allowed, last) && allowed <= more
    requires |now| <= 1 && (now != [] ==> now[0].Delta? && now[0].messageId in more)
    ensures TextOnlyFrom(now + later, more, last)
  {
  }

  /** Text comes only from messages seen in progress, or from the last one at the very end. */
  lemma {:induction false} EchoesAreSilent(s: State, events: seq<Event>)
    ensures TextOnlyFrom(Output(s, events), Allowed(s, events), LastId(s.id, events))
    decreases |events|
  {
    if events != [] && !events[0].Failure? {
      var t := Next(s, events[0]);
      EchoStep(s, events[0]);
      EchoesAreSilent(t, events[1..]);
      Prepend(Yielded(s, events[0]), Output(t, events[1..]), Allowed(t, events[1..]), Allowed(s, events),
        LastId(t.id, events[1..]));
    }
  }

  lemma EchoStep(s: State, e: Event)
    ensures var t := Next(s, e);
            t.id == (if e.Message? && e.id != "" then e.id else s.id) &&
            (t.live ==> GoesLive(e) || (s.live && t.id == s.id)) &&
            |Yielded(s, e)| <= 1 &&
            (Yielded(s, e) != [] ==>
               t.live && Yielded(s, e)[0].Delta? && Yielded(s, e)[0].messageId == t.id)
  {
    hide AddPointers, ImagesIn, Cumulative;
  }

  // ---------- Image pointers ----------

  /** All images offered to the collection, in order of arrival, repeats included. */
  function Offered(s: State, events: seq<Event>): seq<string>
    decreases |events|
  {
    if events == [] then []
    else
      (if events[0].Message? && OffersImages(s, events[0]) then ImagesIn(events[0].parts) else []) +
      Offered(Next(s, events[0]), events[1..])
  }

  function Assets(pointers: seq<Pointer>): (assets: seq<string>)
    ensures |assets| == |pointers|
    ensures forall i :: 0 <= i < |assets| ==> assets[i] == pointers[i].asset
  {
    seq(|pointers|, i requires 0 <= i < |pointers| => pointers[i].asset)
  }

  /** The distinct elements, each at its first place. */
  function FirstSeen(seen: seq<string>, all: seq<string>): seq<string>
    decreases |all|
  {
    if all == [] then seen
    else FirstSeen(if all[0] in seen then seen else seen + [all[0]], all[1..])
  }

  lemma {:induction false} FirstSeenAppend(seen: seq<string>, a: seq<string>, b: seq<string>)
    ensures FirstSeen(seen, a + b) == FirstSeen(FirstSeen(seen, a), b)
    decreases |a|
  {
    if a == [] {
      assert a + b == b;
    } else {
      assert (a + b)[1..] == a[1..] + b;
      FirstSeenAppend(if a[0] in seen then seen else seen + [a[0]], a[1..], b);
    }
  }

  lemma AddOne(pointers: seq<Pointer>, asset: string, id: string)
    ensures Assets(AddPointer(pointers, asset, id)) ==
              if asset in Assets(pointers) then Assets(pointers) else Assets(pointers) + [asset]
  {
    var i := IndexOf(pointers, asset);
    if i < |pointers| {
      assert Assets(pointers)[i] == asset;
    }
  }

  /** The message recorded for an image; empty when none is known. */
  function MessageOf(pointers: seq<Pointer>, asset: string): string {
    var i := IndexOf(pointers, asset);
    if i < |pointers| then pointers[i].messageId else ""
  }

  lemma AddOneId(pointers: seq<Pointer>, asset: string, id: string, x: string)
    ensures MessageOf(AddPointer(pointers, asset, id), x) ==
            if x == asset && MessageOf(pointers, x) == "" then id else MessageOf(pointers, x)
  {
    var i, after := IndexOf(pointers, asset), AddPointer(pointers, asset, id);
    var j := IndexOf(pointers, x);
    assert forall k :: 0 <= k < |pointers| && k != i ==> after[k] == pointers[k];
    IndexIs(after, x, if j < |pointers| || x == asset then j else |after|);
  }

  lemma IndexIs(pointers: seq<Pointer>, asset: string, i: nat)
    requires i <= |pointers| && (i < |pointers| ==> pointers[i].asset == asset)
    requires forall k :: 0 <= k < i ==> pointers[k].asset != asset
    ensures IndexOf(pointers, asset) == i
  {
  }

  /** Images join in first-seen order; an image known already only gains a message it lacked. */
  lemma {:induction false} AddMany(pointers: seq<Pointer>, assets: seq<string>, id: string)
    ensures Assets(AddPointers(pointers, assets, id)) == FirstSeen(Assets(pointers), assets)
    ensures forall x :: MessageOf(AddPointers(pointers, assets, id), x) ==
                        if x in assets && MessageOf(pointers, x) == "" then id else MessageOf(pointers, x)
    decreases |assets|
  {
    if assets != [] {
      AddOne(pointers, assets[0], id);
      AddMany(AddPointer(pointers, assets[0], id), assets[1..], id);
      forall x {
        AddOneId(pointers, assets[0], id, x);
      }
      hide AddPointer, MessageOf, FirstSeen;
    }
  }

  lemma PointerStep(s: State, e: Event)
    ensures Assets(Next(s, e).pointers) ==
            FirstSeen(Assets(s.pointers), if e.Message? && OffersImages(s, e) then ImagesIn(e.parts) else [])
  {
    if e.Message? {
      AddMany(Enter(s, e).pointers, ImagesIn(e.parts), e.id);
    }
    hide AddPointers, ImagesIn, Cumulative;
  }

  /** The first message with an id that offers this image. */
  function FirstMessage(s: State, events: seq<Event>, asset: string): string
    decreases |events|
  {
    if events == [] then ""
    else
      var e := events[0];
      if e.Message? && OffersImages(s, e) && asset in ImagesIn(e.parts) && e.id != "" then e.id
      else FirstMessage(Next(s, e), events[1..], asset)
  }

  lemma MessageStep(s: State, e: Event, asset: string)
    ensures MessageOf(Next(s, e).pointers, asset) ==
            if e.Message? && OffersImages(s, e) && asset in ImagesIn(e.parts) && MessageOf(s.pointers, asset) == ""
            then e.id
            else MessageOf(s.pointers, asset)
  {
    if e.Message? {
      AddMany(Enter(s, e).pointers, ImagesIn(e.parts), e.id);
    }
    hide AddPointers, ImagesIn, Cumulative;
  }

  /** Each image ends with the first message that could be named for it. */
  lemma {:induction false} PointersNameFirstMessage(s: State, events: seq<Event>, asset: string)
    ensures MessageOf(Final(s, events).pointers, asset) ==
            if MessageOf(s.pointers, asset) != "" then MessageOf(s.pointers, asset) else FirstMessage(s, events, asset)
    decreases |events|
  {
    if events != [] {
      MessageStep(s, events[0], asset);
      PointersNameFirstMessage(Next(s, events[0]), events[1..], asset);
    }
    hide Next, MessageOf, OffersImages, ImagesIn;
  }

  /** Each image offered appears once, in first-seen order. */
  lemma {:induction false} PointersAreFirstSeen(s: State, events: seq<Event>)
    ensures Assets(Final(s, events).pointers) == FirstSeen(Assets(s.pointers), Offered(s, events))
    decreases |events|
  {
    if events != [] {
      var e := events[0];
      PointerStep(s, e);
      PointersAreFirstSeen(Next(s, e), events[1..]);
      FirstSeenAppend(Assets(s.pointers), if e.Message? && OffersImages(s, e) then ImagesIn(e.parts) else [],
                      Offered(Next(s, e), events[1..]));
    }
  }

  /** What FirstSeen means: no repeats, nothing lost or added, earlier elements keep their places. */
  lemma {:induction false} FirstSeenMeaning(seen: seq<string>, all: seq<string>)
    requires NoDuplicates(seen)
    ensures var r := FirstSeen(seen, all);
            NoDuplicates(r) && seen <= r && forall x :: x in r <==> x in seen || x in all
    decreases |all|
  {
    if all != [] {
      var seen' := if all[0] in seen then seen else seen + [all[0]];
      FirstSeenMeaning(seen', all[1..]);
      assert forall x :: x in all <==> x == all[0] || x in all[1..];
      assert forall x :: x in seen' <==> x in seen || x == all[0];
    }
  }

  // ---------- The generator ----------

  class Extractor {
    var currentId: string
    var currentParts: string
    var emittedLen: nat
    var isLive: bool
    var imagePointers: seq<Pointer>
    var yielded: seq<Chunk>

    ghost function Abs(): State
      reads this
    {
      State(currentId, currentParts, emittedLen, isLive, imagePointers)
    }

    constructor ()
      ensures Abs() == START && yielded == []
    {
      currentId, currentParts, emittedLen, isLive := "", "", 0, false;
      imagePointers, yielded := [], [];
    }

    method CollectPointers(assets: seq<string>, id: string)
      modifies this`imagePointers
      ensures imagePointers == AddPointers(old(imagePointers), assets, id)
    {
      var i := 0;
      assert assets[i..] == assets;
      while i < |assets|
        invariant i <= |assets|
        invariant AddPointers(imagePointers, assets[i..], id) == AddPointers(old(imagePointers), assets, id)
      {
        assert assets[i..][0] == assets[i] && assets[i..][1..] == assets[i + 1..];
        imagePointers := AddPointer(imagePointers, assets[i], id);
        i := i + 1;
      }
      assert assets[i..] == [];
    }

    method OnMessage(m: Event)
      requires m.Message? && emittedLen <= |currentParts|
      modifies this
      ensures Abs() == Next(old(Abs()), m)
      ensures yielded == old(yielded) + Yielded(old(Abs()), m)
      ensures emittedLen <= |currentParts|
    {
      hide AddPointers, ImagesIn, Cumulative;
      if m.id != "" && m.id != currentId {
        currentId, currentParts, emittedLen, isLive := m.id, "", 0, false;
      }
      if m.status.InProgress? {
        isLive := true;
      }
      if m.parts == [] {
        return;
      }
      if m.status.FinishedSuccessfully? || m.status.NoStatus? || isLive {
        CollectPointers(ImagesIn(m.parts), m.id);
      }
      var cumulative := Cumulative(m.parts);
      if |cumulative| > |currentParts| {
        currentParts := cumulative;
      }
      if isLive && |currentParts| > emittedLen {
        yielded := yielded + [Delta(currentParts[emittedLen..], currentParts, currentId)];
        emittedLen := |currentParts|;
      }
    }

    method EndOfStream()
      requires emittedLen <= |currentParts|
      modifies this
      ensures yielded == old(yielded) + AtEnd(old(Abs()))
    {
      if !isLive && |currentParts| > emittedLen {
        yielded := yielded + [Delta(currentParts[emittedLen..], currentParts, currentId)];
      }
      yielded := yielded + [Done(currentParts, imagePointers)];
    }

    method ExtractContent(events: seq<Event>)
      requires Abs() == START && yielded == []
      modifies this
      ensures yielded == Output(START, events)
    {
      hide Next, Yielded, Output, AtEnd;
      var i := 0;
      assert events[i..] == events;
      while i < |events|
        invariant i <= |events|
        invariant emittedLen <= |currentParts|
        invariant yielded + Output(Abs(), events[i..]) == Output(START, events)
      {
        OutputUnfold(Abs(), events[i..]);
        assert events[i..][0] == events[i] && events[i..][1..] == events[i + 1..];
        if events[i].Failure? {
          yielded := yielded + [Error(events[i].message)];
          return;
        }
        ghost var s, sofar := Abs(), yielded;
        if events[i].Message? {
          OnMessage(events[i]);
        } else {
          NoteChangesNothing(s, events[i]);
        }
        Associative(sofar, Yielded(s, events[i]), Output(Abs(), events[i + 1..]));
        i := i + 1;
      }
      OutputUnfold(Abs(), events[i..]);
      EndOfStream();
    }
  }

  lemma OutputUnfold(s: State, events: seq<Event>)
    ensures Output(s, events) ==
            if events == [] then AtEnd(s)
            else if events[0].Failure? then [Error(events[0].message)]
            else Yielded(s, events[0]) + Output(Next(s, events[0]), events[1..])
  {
  }

  lemma NoteChangesNothing(s: State, e: Event)
    requires !e.Message?
    ensures Next(s, e) == s && Yielded(s, e) == []
  {
  }
}
