// Record-separator framing and text accumulation of the Microsoft 365 socket.
module M365Frames {
  import opened Records

  const RECORD_SEPARATOR: char := 0x1e as char

  function NonEmpty(parts: seq<string>): seq<string> {
    if parts == [] then []
    else (if parts[0] == "" then [] else [parts[0]]) + NonEmpty(parts[1..])
  }

  /** The non-empty records of a text. */
  function FramesOf(text: string): seq<string> {
    NonEmpty(Complete(RECORD_SEPARATOR, text))
  }

  function RestOf(text: string): string {
    Rest(RECORD_SEPARATOR, text)
  }

  lemma {:induction false} NonEmptyAppend(a: seq<string>, b: seq<string>)
    ensures NonEmpty(a + b) == NonEmpty(a) + NonEmpty(b)
  {
    if a == [] {
      assert a + b == b;
    } else {
      assert (a + b)[1..] == a[1..] + b;
      NonEmptyAppend(a[1..], b);
      Associative(if a[0] == "" then [] else [a[0]], NonEmpty(a[1..]), NonEmpty(b));
    }
  }

  /** Splitting in two steps, carrying only the rest, yields the frames of the whole. */
  lemma FramesAppend(a: string, b: string)
    ensures FramesOf(a + b) == FramesOf(a) + FramesOf(RestOf(a) + b)
    ensures RestOf(a + b) == RestOf(RestOf(a) + b)
  {
    SplitAppend(RECORD_SEPARATOR, a, b);
    NonEmptyAppend(Complete(RECORD_SEPARATOR, a), Complete(RECORD_SEPARATOR, RestOf(a) + b));
  }

  method SplitFrames(buffer: string) returns (frames: seq<string>, rest: string)
    ensures frames == FramesOf(buffer) && rest == RestOf(buffer)
  {
    frames, rest := [], buffer;
    while FirstAt(RECORD_SEPARATOR, rest) < |rest|
      invariant frames + FramesOf(rest) == FramesOf(buffer)
      invariant RestOf(rest) == RestOf(buffer)
      decreases |rest|
    {
      var i := FirstAt(RECORD_SEPARATOR, rest);
      Unfold(RECORD_SEPARATOR, rest);
      NonEmptyAppend([rest[..i]], Complete(RECORD_SEPARATOR, rest[i + 1..]));
      assert NonEmpty([rest[..i]]) == if i > 0 then [rest[..i]] else [];
      if i > 0 {
        Associative(frames, [rest[..i]], FramesOf(rest[i + 1..]));
        frames := frames + [rest[..i]];
      }
      rest := rest[i + 1..];
    }
  }

  /** No frame is empty or holds a separator. */
  lemma FramesMeaning(text: string)
    ensures forall f :: f in FramesOf(text) ==>
              f != "" && RECORD_SEPARATOR !in f && f in Complete(RECORD_SEPARATOR, text)
  {
    SplitMeaning(RECORD_SEPARATOR, text);
    NonEmptyMeaning(Complete(RECORD_SEPARATOR, text));
    hide NonEmpty, Complete;
  }

  lemma {:induction false} NonEmptyMeaning(parts: seq<string>)
    ensures forall f :: f in NonEmpty(parts) <==> f in parts && f != ""
  {
    if parts != [] {
      NonEmptyMeaning(parts[1..]);
      assert forall f :: f in parts <==> f == parts[0] || f in parts[1..];
    }
  }

  lemma SeparatorIs()
    ensures RECORD_SEPARATOR as int == 30
  {
  }

  /** What a sender of these JSON texts puts on the wire. */
  function Encoded(texts: seq<string>): string {
    if texts == [] then "" else texts[0] + [RECORD_SEPARATOR] + Encoded(texts[1..])
  }

  /** A JSON text is never empty and always escapes U+001E. */
  predicate JsonTexts(texts: seq<string>) {
    forall i :: 0 <= i < |texts| ==> texts[i] != "" && RECORD_SEPARATOR !in texts[i]
  }

  lemma {:induction false} SplitEncoded(texts: seq<string>)
    requires JsonTexts(texts)
    ensures FramesOf(Encoded(texts)) == texts && RestOf(Encoded(texts)) == ""
  {
    if texts != [] {
      var head, later := texts[0], Encoded(texts[1..]);
      FirstFrame(head, later);
      SplitEncoded(texts[1..]);
    }
  }

  lemma FirstFrame(head: string, later: string)
    requires head != "" && RECORD_SEPARATOR !in head
    ensures FramesOf(head + [RECORD_SEPARATOR] + later) == [head] + FramesOf(later)
    ensures RestOf(head + [RECORD_SEPARATOR] + later) == RestOf(later)
  {
    var wire := head + [RECORD_SEPARATOR] + later;
    SeparatorAfter(head, later);
    Unfold(RECORD_SEPARATOR, wire);
    assert wire[..|head|] == head && wire[|head| + 1..] == later;
    hide FirstAt, Complete, Rest;
    NonEmptyAppend([head], Complete(RECORD_SEPARATOR, later));
  }

  lemma SeparatorAfter(head: string, later: string)
    requires RECORD_SEPARATOR !in head
    ensures FirstAt(RECORD_SEPARATOR, head + [RECORD_SEPARATOR] + later) == |head|
  {
    var wire := head + [RECORD_SEPARATOR] + later;
    assert wire[|head|] == RECORD_SEPARATOR;
    assert forall k :: 0 <= k < |head| ==> wire[k] == head[k];
  }

  // ---------- Frames and the text they carry ----------

  datatype Author = Bot | Unnamed | Someone

  /** A chat message; `text` is empty when absent or not a string. */
  datatype Message = Message(progress: bool, author: Author, text: string)

  datatype ErrorField = NoError | ErrorText(text: string) | OtherError

  datatype Kind = Update(messages: seq<Message>, writeAtCursor: string)
                | FinalResult(message: string)
                | Completion
                | Other

  /** A parsed frame, or `Invalid` when the record is not a JSON object. */
  datatype Frame = Invalid | Frame(error: ErrorField, kind: Kind)

  predicate HandshakeFails(f: Frame) {
    f.Frame? && f.error.ErrorText? && f.error.text != ""
  }

  predicate CompletionFails(f: Frame)
    requires f.Frame?
  {
    f.error.OtherError? || (f.error.ErrorText? && f.error.text != "")
  }

  predicate Speaks(m: Message) {
    !m.progress && !m.author.Someone? && m.text != ""
  }

  /** Text of the last bot message, "" when there is none. */
  function LastSpoken(messages: seq<Message>): (text: string)
    ensures text != "" <==> exists m :: m in messages && Speaks(m)
  {
    if messages == [] then ""
    else if Speaks(messages[|messages| - 1]) then messages[|messages| - 1].text
    else
      assert messages == messages[..|messages| - 1] + [messages[|messages| - 1]];
      LastSpoken(messages[..|messages| - 1])
  }

  method ExtractBotText(messages: seq<Message>) returns (text: string)
    ensures text == LastSpoken(messages)
  {
    var i := |messages|;
    assert messages[..i] == messages;
    while i > 0
      invariant 0 <= i <= |messages|
      invariant LastSpoken(messages[..i]) == LastSpoken(messages)
    {
      i := i - 1;
      assert messages[..i + 1][..i] == messages[..i];
      if Speaks(messages[i]) {
        return messages[i].text;
      }
    }
    assert messages[..0] == [];
    text := "";
  }

  function BotText(f: Frame): string {
    if f.Frame? && f.kind.Update? then LastSpoken(f.kind.messages) else ""
  }

  function CursorText(f: Frame): string {
    if f.Frame? && f.kind.Update? then f.kind.writeAtCursor else ""
  }

  function IncrementalDelta(previous: string, next: string): (delta: string)
    ensures previous <= next ==> previous + delta == next
    ensures !(previous <= next) ==> delta == next
  {
    if next == "" || next == previous then ""
    else if previous <= next then next[|previous|..]
    else next
  }

  datatype Step = Step(delta: string, next: string)

  function Accumulate(previous: string, f: Frame): Step {
    if BotText(f) != "" then Step(IncrementalDelta(previous, BotText(f)), BotText(f))
    else if CursorText(f) != "" then Step(CursorText(f), previous + CursorText(f))
    else Step("", previous)
  }

  /** Accumulated text after some frames. */
  function TextAfter(previous: string, frames: seq<Frame>): string
    decreases |frames|
  {
    if frames == [] then previous else TextAfter(Accumulate(previous, frames[0]).next, frames[1..])
  }

  /** Everything emitted for those frames. */
  function Emitted(previous: string, frames: seq<Frame>): string
    decreases |frames|
  {
    if frames == [] then ""
    else
      var step := Accumulate(previous, frames[0]);
      step.delta + Emitted(step.next, frames[1..])
  }

  /** Each snapshot extends the text accumulated before it. */
  predicate SnapshotsExtend(previous: string, frames: seq<Frame>)
    decreases |frames|
  {
    frames == [] ||
    ((BotText(frames[0]) != "" ==> previous <= BotText(frames[0])) &&
     SnapshotsExtend(Accumulate(previous, frames[0]).next, frames[1..]))
  }

  /** The deltas add up to the accumulated text exactly when every snapshot extends its predecessor. */
  lemma DeltasAreTheTextIff(frames: seq<Frame>)
    ensures Emitted("", frames) == TextAfter("", frames) <==> SnapshotsExtend("", frames)
  {
    if SnapshotsExtend("", frames) {
      DeltasExtend("", frames);
    } else {
      DeltasExceed("", frames);
    }
  }

  lemma StepExtends(previous: string, f: Frame)
    requires BotText(f) != "" ==> previous <= BotText(f)
    ensures previous + Accumulate(previous, f).delta == Accumulate(previous, f).next
  {
  }

  lemma {:induction false} DeltasExtend(previous: string, frames: seq<Frame>)
    requires SnapshotsExtend(previous, frames)
    ensures previous + Emitted(previous, frames) == TextAfter(previous, frames)
    decreases |frames|
  {
    if frames != [] {
      var step := Accumulate(previous, frames[0]);
      StepExtends(previous, frames[0]);
      hide Accumulate, BotText;
      DeltasExtend(step.next, frames[1..]);
      Associative(previous, step.delta, Emitted(step.next, frames[1..]));
    } else {
      assert previous + "" == previous;
    }
  }

  lemma {:induction false} NeverShort(previous: string, frames: seq<Frame>)
    ensures |previous| + |Emitted(previous, frames)| >= |TextAfter(previous, frames)|
    decreases |frames|
  {
    if frames != [] {
      NeverShort(Accumulate(previous, frames[0]).next, frames[1..]);
    }
  }

  lemma {:induction false} DeltasExceed(previous: string, frames: seq<Frame>)
    requires !SnapshotsExtend(previous, frames)
    ensures |previous| + |Emitted(previous, frames)| > |TextAfter(previous, frames)|
    decreases |frames|
  {
    var step := Accumulate(previous, frames[0]);
    hide LastSpoken, IncrementalDelta;
    if !SnapshotsExtend(step.next, frames[1..]) {
      DeltasExceed(step.next, frames[1..]);
    } else {
      NeverShort(step.next, frames[1..]);
    }
  }

  // ---------- The text of a conversation, read from its end ----------

  /** Message `i` is the last one that speaks: not progress, by the bot or unnamed, with a text. */
  ghost predicate LastToSpeak(messages: seq<Message>, i: int) {
    && 0 <= i < |messages|
    && !messages[i].progress && messages[i].author in {Bot, Unnamed} && messages[i].text != ""
    && forall k :: i < k < |messages| ==>
         messages[k].progress || messages[k].author == Someone || messages[k].text == ""
  }

  lemma {:induction false} LastSpokenIs(messages: seq<Message>)
    ensures LastSpoken(messages) == "" ==> forall i :: !LastToSpeak(messages, i)
    ensures forall i :: LastToSpeak(messages, i) ==> LastSpoken(messages) == messages[i].text
    ensures LastSpoken(messages) != "" ==>
              exists i :: LastToSpeak(messages, i) && messages[i].text == LastSpoken(messages)
  {
    if messages != [] {
      var n := |messages| - 1;
      LastOrFront(messages);
      hide LastToSpeak;
      if !Speaks(messages[n]) {
        LastSpokenIs(messages[..n]);
        forall i | LastToSpeak(messages, i) ensures messages[..n][i] == messages[i] {
        }
      }
    }
  }

  lemma LastOrFront(messages: seq<Message>)
    requires messages != []
    ensures var n := |messages| - 1;
            if Speaks(messages[n]) then forall i :: LastToSpeak(messages, i) <==> i == n
            else forall i :: (LastToSpeak(messages, i) <==> LastToSpeak(messages[..n], i)) &&
                             (LastToSpeak(messages, i) ==> 0 <= i < n)
  {
  }

  /** A frame with a speaking message restates the whole text; other updates add at the cursor. */
  ghost predicate Restates(f: Frame) {
    f.Frame? && f.kind.Update? && exists i :: LastToSpeak(f.kind.messages, i)
  }

  function AddedAtCursor(f: Frame): string {
    if f.Frame? && f.kind.Update? then f.kind.writeAtCursor else ""
  }

  function CursorTexts(frames: seq<Frame>): string {
    if frames == [] then "" else CursorTexts(frames[..|frames| - 1]) + AddedAtCursor(frames[|frames| - 1])
  }

  lemma RestatesIff(f: Frame)
    ensures Restates(f) <==> BotText(f) != ""
  {
    if f.Frame? && f.kind.Update? {
      LastSpokenIs(f.kind.messages);
    }
    hide LastToSpeak, LastSpoken;
  }

  lemma StepText(previous: string, f: Frame)
    ensures Restates(f) ==> Accumulate(previous, f).next == BotText(f)
    ensures !Restates(f) ==> Accumulate(previous, f).next == previous + AddedAtCursor(f)
  {
    RestatesIff(f);
    assert previous + "" == previous;
    hide Restates, BotText;
  }

  lemma RestatedText(f: Frame, i: nat)
    requires Restates(f) && LastToSpeak(f.kind.messages, i)
    ensures BotText(f) == f.kind.messages[i].text
  {
    LastSpokenIs(f.kind.messages);
  }

  lemma {:induction false} TextSnoc(previous: string, frames: seq<Frame>, f: Frame)
    ensures TextAfter(previous, frames + [f]) == Accumulate(TextAfter(previous, frames), f).next
    decreases |frames|
  {
    hide Accumulate;
    if frames == [] {
      assert [f][1..] == [];
    } else {
      assert (frames + [f])[1..] == frames[1..] + [f];
      TextSnoc(Accumulate(previous, frames[0]).next, frames[1..], f);
    }
  }

  /** Without restatement the text is what stood before and all that was added at the cursor. */
  lemma {:induction false} CursorTextIs(previous: string, frames: seq<Frame>)
    requires forall k :: 0 <= k < |frames| ==> !Restates(frames[k])
    ensures TextAfter(previous, frames) == previous + CursorTexts(frames)
  {
    hide Accumulate, Restates, TextAfter;
    if frames == [] {
      TextOfNone(previous);
      assert previous + "" == previous;
    } else {
      var n := |frames| - 1;
      assert frames == frames[..n] + [frames[n]];
      CursorTextIs(previous, frames[..n]);
      TextSnoc(previous, frames[..n], frames[n]);
      StepText(TextAfter(previous, frames[..n]), frames[n]);
      Associative(previous, CursorTexts(frames[..n]), AddedAtCursor(frames[n]));
    }
  }

  lemma TextOfNone(previous: string)
    ensures TextAfter(previous, []) == previous
  {
  }

  /** The accumulated text: that of the last restatement, and everything added at the cursor since. */
  lemma TextMeaning(previous: string, frames: seq<Frame>, k: nat, i: nat)
    requires k < |frames| && Restates(frames[k]) && LastToSpeak(frames[k].kind.messages, i)
    requires forall j :: k < j < |frames| ==> !Restates(frames[j])
    ensures TextAfter(previous, frames) == frames[k].kind.messages[i].text + CursorTexts(frames[k + 1..])
  {
    hide TextAfter, Restates, LastToSpeak, CursorTexts;
    var front, back := frames[..k], frames[k + 1..];
    assert frames == front + [frames[k]] + back;
    TextInTwo(previous, front + [frames[k]], back);
    TextSnoc(previous, front, frames[k]);
    StepText(TextAfter(previous, front), frames[k]);
    RestatedText(frames[k], i);
    CursorTextIs(TextAfter(previous, front + [frames[k]]), back);
  }

  lemma {:induction false} TextInTwo(previous: string, a: seq<Frame>, b: seq<Frame>)
    ensures TextAfter(previous, a + b) == TextAfter(TextAfter(previous, a), b)
    decreases |a|
  {
    hide Accumulate;
    if a == [] {
      assert a + b == b;
    } else {
      assert (a + b)[1..] == a[1..] + b;
      TextInTwo(Accumulate(previous, a[0]).next, a[1..], b);
    }
  }

  /** Only a named error fails the handshake; at completion any error does, an empty text aside. */
  lemma FailureMeaning(f: Frame)
    ensures HandshakeFails(f) <==> exists e, kind :: e != "" && f == Frame(ErrorText(e), kind)
    ensures f.Frame? ==>
              (CompletionFails(f) <==> f.error == OtherError || exists e :: e != "" && f.error == ErrorText(e))
  {
  }
}
