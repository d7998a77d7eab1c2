// One chat over the Microsoft 365 WebSocket: handshake, streaming, one terminal.
module M365Socket {
  import opened Records
  import opened M365Frames

  datatype Output = Content(text: string) | Stop | DoneMarker | Failure
  datatype Sent = Handshake | Ping | Chat

  /** Everything but the receive buffer. */
  datatype State = State(
    settled: bool, handshakeComplete: bool, completionReceived: bool,
    previousText: string, finalResult: string,
    out: seq<Output>, sent: seq<Sent>)

  const START := State(false, false, false, "", "", [], [])

  function Abort(s: State): State {
    if s.settled then s else s.(settled := true, out := s.out + [Failure])
  }

  function Finish(s: State): State {
    if s.settled then s
    else s.(settled := true,
            out := s.out + (if s.previousText == "" && s.finalResult != "" then [Content(s.finalResult)]
              else []) + [Stop, DoneMarker])
  }

  function ResultMessage(f: Frame): string {
    if f.Frame? && f.kind.FinalResult? then f.kind.message else ""
  }

  predicate Completes(f: Frame) {
    f.Frame? && f.kind.Completion?
  }

  function OnFrame(s: State, f: Frame): State {
    if !s.handshakeComplete then
      if HandshakeFails(f) then Abort(s)
      else s.(handshakeComplete := true, sent := s.sent + [Ping, Chat])
    else
      var step := Accumulate(s.previousText, f);
      var s1 := s.(previousText := step.next, out := s.out + if step.delta != "" then [Content(step.delta)] else []);
      var s2 := if ResultMessage(f) != "" then s1.(finalResult := ResultMessage(f)) else s1;
      if Completes(f) then
        if CompletionFails(f) then Abort(s2) else Finish(s2.(completionReceived := true))
      else s2
  }

  /** Frames of one message, until the stream is settled. */
  function OnFrames(s: State, frames: seq<Frame>): State
    decreases |frames|
  {
    if s.settled || frames == [] then s else OnFrames(OnFrame(s, frames[0]), frames[1..])
  }

  function ParseAll(parse: string -> Frame, raw: seq<string>): (frames: seq<Frame>)
    ensures |frames| == |raw|
    ensures forall i :: 0 <= i < |raw| ==> frames[i] == parse(raw[i])
  {
    seq(|raw|, i requires 0 <= i < |raw| => parse(raw[i]))
  }

  datatype Event = Opened | Received(data: string) | Errored | Closed | TimedOut | Aborted

  datatype Run = Run(state: State, buffer: string)

  function OnEvent(parse: string -> Frame, r: Run, e: Event): Run {
    var s := r.state;
    match e
    case Opened => Run(if s.settled then s else s.(sent := s.sent + [Handshake]), r.buffer)
    case Received(data) =>
      if s.settled then r
      else Run(OnFrames(s, ParseAll(parse, FramesOf(r.buffer + data))), RestOf(r.buffer + data))
    case Closed => Run(if s.completionReceived then Finish(s) else Abort(s), r.buffer)
    case _ => Run(Abort(s), r.buffer)
  }

  function OnEvents(parse: string -> Frame, r: Run, events: seq<Event>): Run
    decreases |events|
  {
    if events == [] then r else OnEvents(parse, OnEvent(parse, r, events[0]), events[1..])
  }

  // ---------- What every reachable state satisfies ----------

  predicate AllContent(out: seq<Output>) {
    forall i :: 0 <= i < |out| ==> out[i].Content? && out[i].text != ""
  }

  function Count(sent: seq<Sent>, x: Sent): nat {
    if sent == [] then 0 else Count(sent[..|sent| - 1], x) + if sent[|sent| - 1] == x then 1 else 0
  }

  /** Content chunks only until settled; then exactly one terminal, which ends the output. */
  ghost predicate Shaped(s: State) {
    if !s.settled then AllContent(s.out)
    else EndsWithFailure(s.out) || (EndsWithDone(s.out) && s.completionReceived)
  }

  predicate EndsWithFailure(out: seq<Output>) {
    |out| >= 1 && AllContent(out[..|out| - 1]) && out[|out| - 1] == Failure
  }

  predicate EndsWithDone(out: seq<Output>) {
    |out| >= 2 && AllContent(out[..|out| - 2]) && out[|out| - 2..] == [Stop, DoneMarker]
  }

  /** One chat is sent, when and only when a first frame was accepted as the handshake reply. */
  ghost predicate OneChat(s: State) {
    Count(s.sent, Chat) == (if s.handshakeComplete then 1 else 0)
  }

  ghost predicate Inv(s: State) {
    Shaped(s) && OneChat(s) && (s.completionReceived ==> s.settled && s.handshakeComplete)
  }

  lemma AbortKeepsInv(s: State)
    requires Inv(s)
    ensures Inv(Abort(s))
  {
    assert (s.out + [Failure])[..|s.out|] == s.out;
  }

  lemma FinishKeepsInv(s: State)
    requires !s.settled && AllContent(s.out) && OneChat(s) && s.completionReceived && s.handshakeComplete
    ensures Inv(Finish(s))
  {
    var body := s.out + if s.previousText == "" && s.finalResult != "" then [Content(s.finalResult)] else [];
    assert (body + [Stop, DoneMarker])[..|body|] == body;
    assert (body + [Stop, DoneMarker])[|body|..] == [Stop, DoneMarker];
  }

  lemma CountSnoc(sent: seq<Sent>, y: Sent, x: Sent)
    ensures Count(sent + [y], x) == Count(sent, x) + if y == x then 1 else 0
  {
    assert (sent + [y])[..|sent|] == sent;
  }

  lemma FrameKeepsInv(s: State, f: Frame)
    requires Inv(s) && !s.settled
    ensures Inv(OnFrame(s, f))
  {
    hide Accumulate, Count;
    if !s.handshakeComplete {
      if HandshakeFails(f) {
        AbortKeepsInv(s);
      } else {
        CountSnoc(s.sent, Ping, Chat);
        CountSnoc(s.sent + [Ping], Chat, Chat);
        assert s.sent + [Ping, Chat] == s.sent + [Ping] + [Chat];
      }
    } else {
      var step := Accumulate(s.previousText, f);
      var s1 := s.(previousText := step.next, out := s.out + if step.delta != "" then [Content(step.delta)] else []);
      var s2 := if ResultMessage(f) != "" then s1.(finalResult := ResultMessage(f)) else s1;
      assert Inv(s2);
      if Completes(f) {
        if CompletionFails(f) {
          AbortKeepsInv(s2);
        } else {
          FinishKeepsInv(s2.(completionReceived := true));
        }
      }
    }
  }

  lemma {:induction false} FramesKeepInv(s: State, frames: seq<Frame>)
    requires Inv(s)
    ensures Inv(OnFrames(s, frames))
    decreases |frames|
  {
    hide Inv, OnFrame;
    if !s.settled && frames != [] {
      FrameKeepsInv(s, frames[0]);
      FramesKeepInv(OnFrame(s, frames[0]), frames[1..]);
    }
  }

  lemma OpenKeepsInv(s: State)
    requires Inv(s)
    ensures Inv(s.(sent := s.sent + [Handshake]))
  {
    CountSnoc(s.sent, Handshake, Chat);
    hide Count, AllContent;
  }

  lemma CloseKeepsInv(s: State)
    requires Inv(s)
    ensures Inv(if s.completionReceived then Finish(s) else Abort(s))
  {
    AbortKeepsInv(s);
  }

  lemma EventKeepsInv(parse: string -> Frame, r: Run, e: Event)
    requires Inv(r.state)
    ensures Inv(OnEvent(parse, r, e).state)
  {
    hide Inv, Finish, Abort, OnFrames, FramesOf, RestOf;
    match e {
      case Opened => OpenKeepsInv(r.state);
      case Received(data) => FramesKeepInv(r.state, ParseAll(parse, FramesOf(r.buffer + data)));
      case Closed => CloseKeepsInv(r.state);
      case _ => AbortKeepsInv(r.state);
    }
  }

  /** Whatever the socket, the clock and the caller do, output has one terminal and one chat is sent. */
  lemma {:induction false} RunKeepsInv(parse: string -> Frame, r: Run, events: seq<Event>)
    requires Inv(r.state)
    ensures Inv(OnEvents(parse, r, events).state)
    decreases |events|
  {
    hide Inv, OnEvent;
    if events != [] {
      EventKeepsInv(parse, r, events[0]);
      RunKeepsInv(parse, OnEvent(parse, r, events[0]), events[1..]);
    }
  }

  lemma ReachableInv(parse: string -> Frame, events: seq<Event>)
    ensures Inv(OnEvents(parse, Run(START, ""), events).state)
  {
    RunKeepsInv(parse, Run(START, ""), events);
  }

  /** Once settled, nothing is emitted or sent any more. */
  lemma {:induction false} SettledIsFinal(parse: string -> Frame, r: Run, events: seq<Event>)
    requires r.state.settled
    ensures OnEvents(parse, r, events) == r
    decreases |events|
  {
    if events != [] {
      SettledIsFinal(parse, r, events[1..]);
    }
  }

  /** Outside the messages: opening sends the handshake; an error, a timeout, an abort or a close fails the stream. */
  lemma EventMeaning(parse: string -> Frame, r: Run, e: Event)
    requires Inv(r.state) && !r.state.settled && !e.Received?
    ensures var t := OnEvent(parse, r, e).state;
            if e.Opened? then t == r.state.(sent := r.state.sent + [Handshake])
            else t == r.state.(settled := true, out := r.state.out + [Failure])
    ensures OnEvent(parse, r, e).buffer == r.buffer
  {
  }

  // ---------- Chunking does not matter ----------

  lemma {:induction false} FramesInTwoSteps(s: State, a: seq<Frame>, b: seq<Frame>)
    ensures OnFrames(s, a + b) == OnFrames(OnFrames(s, a), b)
    decreases |a|
  {
    hide OnFrame;
    if a == [] {
      assert a + b == b;
    } else if !s.settled {
      assert (a + b)[1..] == a[1..] + b;
      FramesInTwoSteps(OnFrame(s, a[0]), a[1..], b);
    }
  }

  function Receive(chunks: seq<string>): seq<Event> {
    seq(|chunks|, i requires 0 <= i < |chunks| => Received(chunks[i]))
  }

  /** Receiving chunks one by one leaves the same state as parsing all their frames at once. */
  lemma {:induction false} ChunkingIsIrrelevant(parse: string -> Frame, s: State, buffer: string, chunks: seq<string>)
    requires RECORD_SEPARATOR !in buffer
    ensures OnEvents(parse, Run(s, buffer), Receive(chunks)).state
         == OnFrames(s, ParseAll(parse, FramesOf(buffer + Concat(chunks))))
    decreases |chunks|
  {
    hide OnFrames;
    if chunks == [] {
      assert buffer + "" == buffer;
      NoSeparator(RECORD_SEPARATOR, buffer);
      FramesDone(s, parse);
    } else {
      var text, later := buffer + chunks[0], Concat(chunks[1..]);
      var now := OnFrames(s, ParseAll(parse, FramesOf(text)));
      assert Receive(chunks)[0] == Received(chunks[0]) && Receive(chunks)[1..] == Receive(chunks[1..]);
      Associative(buffer, chunks[0], later);
      FramesAppend(text, later);
      ParseAllAppend(parse, FramesOf(text), FramesOf(RestOf(text) + later));
      FramesInTwoSteps(s, ParseAll(parse, FramesOf(text)), ParseAll(parse, FramesOf(RestOf(text) + later)));
      SettledStays(s, ParseAll(parse, FramesOf(text)));
      RestHasNoSeparator(RECORD_SEPARATOR, text);
      if s.settled {
        SettledIsFinal(parse, Run(s, buffer), Receive(chunks));
        SettledStays(s, ParseAll(parse, FramesOf(buffer + Concat(chunks))));
      } else {
        ChunkingIsIrrelevant(parse, now, RestOf(text), chunks[1..]);
      }
    }
  }

  lemma FramesDone(s: State, parse: string -> Frame)
    ensures OnFrames(s, ParseAll(parse, [])) == s
  {
  }

  lemma SettledStays(s: State, frames: seq<Frame>)
    ensures s.settled ==> OnFrames(s, frames) == s
  {
  }

  lemma ParseAllAppend(parse: string -> Frame, a: seq<string>, b: seq<string>)
    ensures ParseAll(parse, a + b) == ParseAll(parse, a) + ParseAll(parse, b)
  {
  }

  // ---------- What a whole conversation amounts to ----------

  datatype Fate = Pending | Failed | Succeeded

  /** Fate of a conversation, read off the frames: the handshake reply, then the first completion. */
  function FateOf(frames: seq<Frame>): Fate {
    if frames == [] then Pending
    else if HandshakeFails(frames[0]) then Failed
    else StreamFate(frames[1..])
  }

  function StreamFate(frames: seq<Frame>): Fate {
    if frames == [] then Pending
    else if Completes(frames[0]) then (if CompletionFails(frames[0]) then Failed else Succeeded)
    else StreamFate(frames[1..])
  }

  predicate Agrees(s: State, fate: Fate) {
    match fate
    case Pending => !s.settled
    case Failed => s.settled && EndsWithFailure(s.out)
    case Succeeded => s.settled && EndsWithDone(s.out)
  }

  lemma {:induction false} StreamAgrees(s: State, frames: seq<Frame>)
    requires Inv(s) && !s.settled && s.handshakeComplete
    ensures Agrees(OnFrames(s, frames), StreamFate(frames))
    decreases |frames|
  {
    if frames != [] {
      FrameKeepsInv(s, frames[0]);
      StreamStep(s, frames[0]);
      hide OnFrame, Inv;
      if !Completes(frames[0]) {
        StreamAgrees(OnFrame(s, frames[0]), frames[1..]);
      }
    }
  }

  // A completion carries no text of its own.
  lemma CompletionState(s: State, c: Frame)
    requires !s.settled && s.handshakeComplete && Completes(c)
    ensures OnFrame(s, c) == if CompletionFails(c) then Abort(s) else Finish(s.(completionReceived := true))
  {
    assert Accumulate(s.previousText, c) == Step("", s.previousText);
    assert s.out + [] == s.out;
    hide Accumulate, Abort, Finish;
  }

  lemma StreamStep(s: State, f: Frame)
    requires Inv(s) && !s.settled && s.handshakeComplete
    ensures var t := OnFrame(s, f);
            t.handshakeComplete && t.settled == Completes(f) &&
            (Completes(f) ==> Agrees(t, if CompletionFails(f) then Failed else Succeeded))
  {
    hide Accumulate, Count;
    if Completes(f) {
      CompletionState(s, f);
      FrameKeepsInv(s, f);
      hide OnFrame;
      var out := OnFrame(s, f).out;
      assert out[|out| - 1] == if CompletionFails(f) then Failure else DoneMarker;
    }
  }

  /**
   * A server whose JSON frames arrive in any chunks: the stream ends with a failure, ends with the
   * done marker, or stays open, as the frames themselves say.
   */
  lemma ConversationFate(parse: string -> Frame, texts: seq<string>, chunks: seq<string>)
    requires JsonTexts(texts) && Concat(chunks) == Encoded(texts)
    ensures Agrees(OnEvents(parse, Run(START, ""), Receive(chunks)).state, FateOf(ParseAll(parse, texts)))
  {
    ChunkingIsIrrelevant(parse, START, "", chunks);
    SplitEncoded(texts);
    assert "" + Concat(chunks) == Encoded(texts);
    var frames := ParseAll(parse, texts);
    if frames != [] {
      FrameKeepsInv(START, frames[0]);
      var s := OnFrame(START, frames[0]);
      if !s.settled {
        StreamAgrees(s, frames[1..]);
      }
    }
  }

  // ---------- What the caller reads ----------

  /** All content chunks of the output, joined. */
  function ContentOf(out: seq<Output>): string {
    if out == [] then "" else ContentOf(out[..|out| - 1]) + if out[|out| - 1].Content? then out[|out| - 1].text else ""
  }

  lemma ContentSnoc(out: seq<Output>, x: Output)
    ensures ContentOf(out + [x]) == ContentOf(out) + if x.Content? then x.text else ""
  {
    assert (out + [x])[..|out|] == out;
  }

  lemma FrameDelivers(s: State, f: Frame)
    requires !s.settled && s.handshakeComplete && !Completes(f)
    ensures var t := OnFrame(s, f);
            !t.settled && t.handshakeComplete && t.previousText == Accumulate(s.previousText, f).next &&
            ContentOf(t.out) == ContentOf(s.out) + Accumulate(s.previousText, f).delta
  {
    hide Accumulate;
    var step := Accumulate(s.previousText, f);
    ContentSnoc(s.out, Content(step.delta));
    assert s.out + [] == s.out;
  }

  /** The caller receives exactly the deltas of the frames, in order. */
  lemma {:induction false} StreamDelivers(s: State, frames: seq<Frame>)
    requires !s.settled && s.handshakeComplete && forall f :: f in frames ==> !Completes(f)
    ensures var t := OnFrames(s, frames);
            !t.settled && t.handshakeComplete && t.previousText == TextAfter(s.previousText, frames) &&
            ContentOf(t.out) == ContentOf(s.out) + Emitted(s.previousText, frames)
    decreases |frames|
  {
    hide OnFrame, ContentOf, Accumulate;
    if frames != [] {
      var step := Accumulate(s.previousText, frames[0]);
      FrameDelivers(s, frames[0]);
      StreamDelivers(OnFrame(s, frames[0]), frames[1..]);
      Associative(ContentOf(s.out), step.delta, Emitted(step.next, frames[1..]));
    }
  }

  /** After an accepted handshake reply the content read so far is the bot's text iff its snapshots only ever grew. */
  lemma ReadsTheTextIff(reply: Frame, frames: seq<Frame>)
    requires !HandshakeFails(reply) && forall f :: f in frames ==> !Completes(f)
    ensures var t := OnFrames(START, [reply] + frames);
            t.previousText == TextAfter("", frames) &&
            (ContentOf(t.out) == t.previousText <==> SnapshotsExtend("", frames))
  {
    var s := OnFrame(START, reply);
    assert ([reply] + frames)[1..] == frames;
    StreamDelivers(s, frames);
    assert "" + Emitted("", frames) == Emitted("", frames);
    DeltasAreTheTextIff(frames);
  }

  /** The last result message a completed turn may fall back to. */
  function LastResult(sofar: string, frames: seq<Frame>): string
    decreases |frames|
  {
    if frames == [] then sofar
    else LastResult(if ResultMessage(frames[0]) != "" then ResultMessage(frames[0]) else sofar, frames[1..])
  }

  lemma {:induction false} ResultKept(s: State, frames: seq<Frame>)
    requires !s.settled && s.handshakeComplete && forall f :: f in frames ==> !Completes(f)
    ensures OnFrames(s, frames).finalResult == LastResult(s.finalResult, frames)
    decreases |frames|
  {
    if frames != [] {
      FrameDelivers(s, frames[0]);
      FrameResult(s, frames[0]);
      hide OnFrame, ContentOf, Accumulate;
      ResultKept(OnFrame(s, frames[0]), frames[1..]);
    }
  }

  lemma FrameResult(s: State, f: Frame)
    requires !s.settled && s.handshakeComplete && !Completes(f)
    ensures OnFrame(s, f).finalResult == if ResultMessage(f) != "" then ResultMessage(f) else s.finalResult
  {
    hide Accumulate;
  }

  // Accumulated text never becomes empty again.
  lemma {:induction false} TextStays(previous: string, frames: seq<Frame>)
    ensures TextAfter(previous, frames) == "" ==>
              previous == "" && Emitted(previous, frames) == "" && SnapshotsExtend(previous, frames)
    decreases |frames|
  {
    if frames != [] {
      TextStays(Accumulate(previous, frames[0]).next, frames[1..]);
    }
  }

  /** What the caller should read of a completed turn: the bot's text, or the result message if there is none. */
  function Answer(frames: seq<Frame>): string {
    if TextAfter("", frames) == "" then LastResult("", frames) else TextAfter("", frames)
  }

  /** The result to fall back to is the last one that is not empty. */
  lemma {:induction false} ResultMeaning(sofar: string, frames: seq<Frame>, k: nat, message: string, error: ErrorField)
    requires k < |frames| && frames[k] == Frame.Frame(error, FinalResult(message)) && message != ""
    requires forall j :: k < j < |frames| && frames[j].Frame? && frames[j].kind.FinalResult? ==>
                         frames[j].kind.message == ""
    ensures LastResult(sofar, frames) == message
    decreases |frames|
  {
    var next := if ResultMessage(frames[0]) != "" then ResultMessage(frames[0]) else sofar;
    if k > 0 {
      assert forall j :: 0 <= j < |frames| - 1 ==> frames[1..][j] == frames[j + 1];
      ResultMeaning(next, frames[1..], k - 1, message, error);
    } else {
      forall j | 0 <= j < |frames[1..]| ensures ResultMessage(frames[1..][j]) == "" {
        assert frames[1..][j] == frames[j + 1];
      }
      NoResult(next, frames[1..]);
    }
  }

  lemma {:induction false} NoResult(sofar: string, frames: seq<Frame>)
    requires forall j :: 0 <= j < |frames| ==> ResultMessage(frames[j]) == ""
    ensures LastResult(sofar, frames) == sofar
    decreases |frames|
  {
    if frames != [] {
      assert forall j :: 0 <= j < |frames| - 1 ==> frames[1..][j] == frames[j + 1];
      NoResult(sofar, frames[1..]);
    }
  }

  lemma CompletionDelivers(s: State, c: Frame)
    requires !s.settled && s.handshakeComplete && Completes(c) && !CompletionFails(c)
    ensures var t := OnFrame(s, c);
            t.settled && ContentOf(t.out) == ContentOf(s.out) + if s.previousText == "" then s.finalResult else ""
  {
    CompletionState(s, c);
    hide OnFrame, ContentOf;
    if s.previousText == "" && s.finalResult != "" {
      ContentSnoc(s.out, Content(s.finalResult));
      TerminalAddsNothing(s.out + [Content(s.finalResult)]);
    } else {
      assert s.out + [] == s.out && ContentOf(s.out) + "" == ContentOf(s.out);
      TerminalAddsNothing(s.out);
    }
  }

  lemma TerminalAddsNothing(out: seq<Output>)
    ensures ContentOf(out + [Stop, DoneMarker]) == ContentOf(out)
  {
    ContentSnoc(out, Stop);
    ContentSnoc(out + [Stop], DoneMarker);
    assert out + [Stop] + [DoneMarker] == out + [Stop, DoneMarker];
  }

  /**
   * A whole turn, from the accepted reply to a good completion: the caller reads the answer if and only if
   * the bot's snapshots only ever grew.
   */
  lemma TurnReadsTheAnswerIff(reply: Frame, frames: seq<Frame>, c: Frame)
    requires !HandshakeFails(reply) && forall f :: f in frames ==> !Completes(f)
    requires Completes(c) && !CompletionFails(c)
    ensures var t := OnFrames(START, [reply] + frames + [c]);
            t.settled && (ContentOf(t.out) == Answer(frames) <==> SnapshotsExtend("", frames))
  {
    AnswerIs(frames);
    hide *;
    var before := OnFrames(START, [reply] + frames);
    BeforeCompletion(reply, frames);
    DeltasAreTheTextIff(frames);
    TextStays("", frames);
    CompletionDelivers(before, c);
    LastFrame([reply] + frames, c);
    assert Emitted("", frames) + "" == Emitted("", frames) && "" + before.finalResult == before.finalResult;
  }

  lemma AnswerIs(frames: seq<Frame>)
    ensures Answer(frames) == if TextAfter("", frames) == "" then LastResult("", frames) else TextAfter("", frames)
  {
  }

  lemma BeforeCompletion(reply: Frame, frames: seq<Frame>)
    requires !HandshakeFails(reply) && forall f :: f in frames ==> !Completes(f)
    ensures var t := OnFrames(START, [reply] + frames);
            !t.settled && t.handshakeComplete && t.previousText == TextAfter("", frames) &&
            t.finalResult == LastResult("", frames) && ContentOf(t.out) == Emitted("", frames)
  {
    var s := OnFrame(START, reply);
    assert ([reply] + frames)[1..] == frames;
    StreamDelivers(s, frames);
    ResultKept(s, frames);
    assert "" + Emitted("", frames) == Emitted("", frames);
  }

  lemma LastFrame(frames: seq<Frame>, c: Frame)
    requires !OnFrames(START, frames).settled
    ensures OnFrames(START, frames + [c]) == OnFrame(OnFrames(START, frames), c)
  {
    hide OnFrame;
    FramesInTwoSteps(START, frames, [c]);
    assert [c][1..] == [];
  }

  // ---------- The handlers ----------

  class WebSocketChat {
    const parse: string -> Frame
    var settled: bool
    var handshakeComplete: bool
    var completionReceived: bool
    var buffer: string
    var previousText: string
    var finalResult: string
    var out: seq<Output>
    var sent: seq<Sent>

    ghost function Abs(): Run
      reads this
    {
      Run(State(settled, handshakeComplete, completionReceived, previousText, finalResult, out, sent), buffer)
    }

    /** Content, then at most one terminal; one chat, once the handshake was accepted. */
    ghost predicate Valid()
      reads this
    {
      Inv(Abs().state)
    }

    constructor (parse: string -> Frame)
      ensures Valid() && this.parse == parse && Abs() == Run(START, "")
    {
      this.parse := parse;
      settled, handshakeComplete, completionReceived := false, false, false;
      buffer, previousText, finalResult := "", "", "";
      out, sent := [], [];
    }

    method AbortStream()
      modifies this
      ensures Abs() == Run(Abort(old(Abs().state)), old(buffer))
    {
      if settled {
        return;
      }
      settled := true;
      out := out + [Failure];
    }

    method FinishStream()
      modifies this
      ensures Abs() == Run(Finish(old(Abs().state)), old(buffer))
    {
      if settled {
        return;
      }
      settled := true;
      if previousText == "" && finalResult != "" {
        out := out + [Content(finalResult)];
      }
      out := out + [Stop];
      out := out + [DoneMarker];
      assert out == old(out) + (if previousText == "" && finalResult != "" then [Content(finalResult)]
               else []) + [Stop, DoneMarker];
    }

    method OnOpen()
      requires Valid()
      modifies this
      ensures Valid() && Abs() == OnEvent(parse, old(Abs()), Opened)
      ensures out == old(out) && settled == old(settled)
    {
      EventKeepsInv(parse, Abs(), Opened);
      if !settled {
        sent := sent + [Handshake];
      }
    }

    /**
     * One frame: the handshake reply sends the chat, any other frame sends exactly its delta, and only a
     * refused handshake or a completion settles the stream.
     */
    method HandleFrame(f: Frame)
      requires Valid() && !settled
      modifies this
      ensures Valid() && Abs() == Run(OnFrame(old(Abs().state), f), old(buffer))
      ensures settled <==> if old(handshakeComplete) then Completes(f) else HandshakeFails(f)
      ensures !settled && old(handshakeComplete) ==>
                sent == old(sent) && ContentOf(out) == old(ContentOf(out)) + Accumulate(old(previousText), f).delta
      ensures !settled && !old(handshakeComplete) ==> sent == old(sent) + [Ping, Chat] && out == old(out)
    {
      FrameKeepsInv(Abs().state, f);
      FrameMeaning(Abs().state, f);
      hide Accumulate, Finish, Abort, Inv, ContentOf;
      if !handshakeComplete {
        if HandshakeFails(f) {
          AbortStream();
          return;
        }
        handshakeComplete := true;
        sent := sent + [Ping, Chat];
        return;
      }
      var step := Accumulate(previousText, f);
      previousText := step.next;
      out := out + if step.delta != "" then [Content(step.delta)] else [];
      if ResultMessage(f) != "" {
        finalResult := ResultMessage(f);
      }
      if Completes(f) {
        if CompletionFails(f) {
          AbortStream();
        } else {
          completionReceived := true;
          FinishStream();
        }
      }
    }

    method OnMessage(data: string)
      requires Valid()
      modifies this
      ensures Valid() && Abs() == OnEvent(parse, old(Abs()), Received(data))
    {
      if settled {
        return;
      }
      var frames, rest := SplitFrames(buffer + data);
      buffer := rest;
      ghost var begin, parsed := Abs().state, ParseAll(parse, frames);
      var i := 0;
      hide OnFrame, Inv, Accumulate, ContentOf;
      while i < |frames| && !settled
        invariant 0 <= i <= |frames| && Valid()
        invariant buffer == rest
        invariant OnFrames(Abs().state, parsed[i..]) == OnFrames(begin, parsed)
        decreases |frames| - i
      {
        assert parsed[i..][0] == parse(frames[i]) && parsed[i..][1..] == parsed[i + 1..];
        HandleFrame(parse(frames[i]));
        i := i + 1;
      }
    }

    /** A close never completes a stream: unless it is settled already, it fails. */
    method OnClose()
      requires Valid()
      modifies this
      ensures Valid() && settled && Abs() == OnEvent(parse, old(Abs()), Closed)
      ensures out == if old(settled) then old(out) else old(out) + [Failure]
      ensures sent == old(sent)
    {
      EventKeepsInv(parse, Abs(), Closed);
      if settled {
        return;
      }
      if completionReceived {
        assert false; // completion settles the stream at once, so finishing here never happens
      } else {
        AbortStream();
      }
    }
  }

  lemma FrameMeaning(s: State, f: Frame)
    requires Inv(s) && !s.settled
    ensures var t := OnFrame(s, f);
            (t.settled <==> if s.handshakeComplete then Completes(f) else HandshakeFails(f)) &&
            (!t.settled && s.handshakeComplete ==>
               t.sent == s.sent && ContentOf(t.out) == ContentOf(s.out) + Accumulate(s.previousText, f).delta) &&
            (!t.settled && !s.handshakeComplete ==> t.sent == s.sent + [Ping, Chat] && t.out == s.out)
  {
    if s.handshakeComplete && !Completes(f) {
      FrameDelivers(s, f);
    }
    hide Accumulate, ContentOf, Inv;
  }
}
