// wrapNdjsonAsOpenAISse: newline-delimited events in, SSE records out.
module SseTransducer {
  import opened Options
  import opened Records
  import opened CommandCode

  datatype Output =
    | Chunk(payload: int)
    | FailureRecord(message: string)
    | KeepaliveComment
    | DoneRecord

  /** The event translator: its next state and chunks (none for an event it swallows), or a rejection. */
  datatype Translation = Emits(state: int, chunks: Option<seq<int>>) | Rejects(message: string)

  /** What the transducer cannot see into: JSON parsing and the event translator. */
  datatype Env = Env(json: Json, translate: (int, Event) -> Translation)

  const KEEPALIVE_MS := 15000

  // ---------- The specification: a fold over lines ----------

  /** Translator state, the two flags, and everything enqueued except keepalives. */
  datatype Run = Run(model: int, finished: bool, failed: bool, out: seq<Output>)

  function Chunks(payloads: seq<int>): seq<Output> {
    seq(|payloads|, i requires 0 <= i < |payloads| => Chunk(payloads[i]))
  }

  function Fail(r: Run, message: string): Run {
    r.(failed := true, out := r.out + [FailureRecord(message)])
  }

  function Line(env: Env, r: Run, line: string): Run {
    var trimmed := Trim(line);
    if trimmed == "" || r.failed then r
    else if r.finished then Fail(r, "CommandCode returned data after finish")
    else
      match env.json(StripData(trimmed))
      case None => Fail(r, "CommandCode returned malformed stream data")
      case Some(event) =>
        if event.kind.ErrorEvent? then Fail(r, "CommandCode upstream stream failed")
        else
          match env.translate(r.model, event)
          case Rejects(message) => Fail(r, message)
          case Emits(state, chunks) =>
            r.(model := state, finished := event.kind.FinishEvent?,
               out := r.out + if chunks.Some? then Chunks(chunks.value) else [])
  }

  function Lines(env: Env, r: Run, lines: seq<string>): Run
    decreases |lines|
  {
    if lines == [] then r else Lines(env, Line(env, r, lines[0]), lines[1..])
  }

  function Close(r: Run): Run {
    if r.failed then r
    else if r.finished then r.(out := r.out + [DoneRecord])
    else Fail(r, "CommandCode stream ended before finish")
  }

  const FRESH := Run(0, false, false, [])

  /** The whole stream, as one text. */
  function Convert(env: Env, text: string): Run {
    Close(Line(env, Lines(env, FRESH, Complete(LF, text)), Rest(LF, text)))
  }

  lemma {:induction false} LinesAppend(env: Env, r: Run, a: seq<string>, b: seq<string>)
    ensures Lines(env, r, a + b) == Lines(env, Lines(env, r, a), b)
    decreases |a|
  {
    hide Line;
    if a == [] {
      assert a + b == b;
    } else {
      assert (a + b)[0] == a[0] && (a + b)[1..] == a[1..] + b;
      LinesAppend(env, Line(env, r, a[0]), a[1..], b);
    }
  }

  // ---------- The shape of a stream ----------

  ghost predicate OnlyChunks(out: seq<Output>) {
    forall o :: o in out ==> o.Chunk?
  }

  /** Nothing but chunks so far, or chunks and one final failure record. */
  ghost predicate Shaped(r: Run) {
    if r.failed then r.out != [] && r.out[|r.out| - 1].FailureRecord? && OnlyChunks(r.out[..|r.out| - 1])
    else OnlyChunks(r.out)
  }

  lemma FailShaped(r: Run, message: string)
    requires !r.failed && Shaped(r)
    ensures Shaped(Fail(r, message))
  {
    assert Fail(r, message).out[..|r.out|] == r.out;
  }

  lemma LineShaped(env: Env, r: Run, line: string)
    requires Shaped(r)
    ensures Shaped(Line(env, r, line))
  {
    if !r.failed {
      forall message: string ensures Shaped(Fail(r, message)) {
        FailShaped(r, message);
      }
    }
  }

  lemma {:induction false} LinesShaped(env: Env, r: Run, lines: seq<string>)
    requires Shaped(r)
    ensures Shaped(Lines(env, r, lines))
    decreases |lines|
  {
    if lines != [] {
      LineShaped(env, r, lines[0]);
      LinesShaped(env, Line(env, r, lines[0]), lines[1..]);
    }
  }

  /** Every completed stream is chunks and then exactly one terminal record. */
  lemma OneTerminal(env: Env, text: string)
    ensures var r := Convert(env, text);
            && r.out != [] && OnlyChunks(r.out[..|r.out| - 1])
            && (if r.failed then r.out[|r.out| - 1].FailureRecord? else r.finished && r.out[|r.out| - 1] == DoneRecord)
  {
    LinesShaped(env, FRESH, Complete(LF, text));
    var r := Lines(env, FRESH, Complete(LF, text));
    LineShaped(env, r, Rest(LF, text));
    var s := Line(env, r, Rest(LF, text));
    if !s.failed {
      assert Close(s).out[..|s.out|] == s.out;
    }
  }

  // ---------- When a stream completes ----------

  /** All frames are accepted, and the last one is the only finish. */
  ghost predicate Accepted(env: Env, model: int, frames: seq<string>)
    decreases |frames|
  {
    && frames != []
    && var event := env.json(StripData(Trim(frames[0])));
    && event.Some? && !event.value.kind.ErrorEvent?
    && env.translate(model, event.value).Emits?
    && if event.value.kind.FinishEvent? then |frames| == 1
       else Accepted(env, env.translate(model, event.value).state, frames[1..])
  }

  function NonBlank(lines: seq<string>): seq<string> {
    if lines == [] then [] else (if Trim(lines[0]) == "" then [] else [lines[0]]) + NonBlank(lines[1..])
  }

  lemma {:induction false} FailedStays(env: Env, r: Run, lines: seq<string>)
    requires r.failed
    ensures Lines(env, r, lines) == r
    decreases |lines|
  {
    if lines != [] {
      FailedStays(env, r, lines[1..]);
    }
  }

  lemma {:induction false} AfterFinish(env: Env, r: Run, lines: seq<string>)
    requires r.finished && !r.failed
    ensures if NonBlank(lines) == [] then Lines(env, r, lines) == r else Lines(env, r, lines).failed
    decreases |lines|
  {
    hide Trim;
    if lines != [] {
      if Trim(lines[0]) == "" {
        AfterFinish(env, r, lines[1..]);
      } else {
        FailedStays(env, Line(env, r, lines[0]), lines[1..]);
      }
    }
  }

  lemma {:induction false} CompletesIff(env: Env, r: Run, lines: seq<string>)
    requires !r.finished && !r.failed
    ensures (Lines(env, r, lines).finished && !Lines(env, r, lines).failed) <==> Accepted(env, r.model, NonBlank(lines))
    decreases |lines|
  {
    hide Trim, StripData;
    if lines != [] {
      var s := Line(env, r, lines[0]);
      var rest := NonBlank(lines[1..]);
      if Trim(lines[0]) == "" {
        assert NonBlank(lines) == rest;
        CompletesIff(env, r, lines[1..]);
      } else {
        assert NonBlank(lines) == [lines[0]] + rest && NonBlank(lines)[1..] == rest;
        if s.failed {
          FailedStays(env, s, lines[1..]);
        } else if s.finished {
          AfterFinish(env, s, lines[1..]);
        } else {
          CompletesIff(env, s, lines[1..]);
        }
      }
    }
  }

  /** `[DONE]` ends a stream if and only if every frame was accepted and the last one alone was a finish. */
  lemma DoneIff(env: Env, text: string)
    ensures var out := Convert(env, text).out;
            && out != []
            && (out[|out| - 1] == DoneRecord <==> Accepted(env, 0, NonBlank(Complete(LF, text) + [Rest(LF, text)])))
  {
    OneTerminal(env, text);
    LinesAppend(env, FRESH, Complete(LF, text), [Rest(LF, text)]);
    CompletesIff(env, FRESH, Complete(LF, text) + [Rest(LF, text)]);
    assert [Rest(LF, text)][1..] == [];
    var r := Line(env, Lines(env, FRESH, Complete(LF, text)), Rest(LF, text));
    assert Lines(env, Lines(env, FRESH, Complete(LF, text)), [Rest(LF, text)]) == r;
  }

  // ---------- What a stream carries ----------

  /** The content of an answer, and why it failed if it did. */
  datatype Story = Story(payloads: seq<int>, failure: Option<string>)

  function Then(payloads: seq<int>, rest: Story): Story {
    Story(payloads + rest.payloads, rest.failure)
  }

  /**
   * The frames one after the other: each accepted event adds what the translator makes of it, its state
   * threaded through; the first frame that is no event, an error or rejected ends the content.
   */
  function Tell(env: Env, model: int, frames: seq<string>): Story
    decreases |frames|
  {
    if frames == [] then Story([], Some("CommandCode stream ended before finish"))
    else
      var event := env.json(StripData(Trim(frames[0])));
      if event.None? then Story([], Some("CommandCode returned malformed stream data"))
      else if event.value.kind == ErrorEvent then Story([], Some("CommandCode upstream stream failed"))
      else
        var made := env.translate(model, event.value);
        if made.Rejects? then Story([], Some(made.message))
        else
          var payloads := if made.chunks.Some? then made.chunks.value else [];
          if event.value.kind != FinishEvent then Then(payloads, Tell(env, made.state, frames[1..]))
          else if |frames| == 1 then Story(payloads, None)
          else Story(payloads, Some("CommandCode returned data after finish"))
  }

  function EndingOf(story: Story): Output {
    if story.failure.Some? then FailureRecord(story.failure.value) else DoneRecord
  }

  lemma ChunksThen(a: seq<int>, b: seq<int>)
    ensures Chunks(a + b) == Chunks(a) + Chunks(b)
  {
  }

  lemma {:induction false} ToldFrom(env: Env, r: Run, lines: seq<string>)
    requires !r.finished && !r.failed
    ensures var story := Tell(env, r.model, NonBlank(lines));
            Close(Lines(env, r, lines)).out == r.out + (Chunks(story.payloads) + [EndingOf(story)])
    decreases |lines|
  {
    hide Trim, StripData;
    if lines == [] {
      assert Chunks([]) == [];
    } else {
      var s := Line(env, r, lines[0]);
      var rest := NonBlank(lines[1..]);
      if Trim(lines[0]) == "" {
        assert NonBlank(lines) == rest;
        ToldFrom(env, r, lines[1..]);
      } else {
        assert NonBlank(lines) == [lines[0]] + rest && NonBlank(lines)[1..] == rest;
        ToldLine(env, r, lines[0], lines[1..]);
        if !s.failed && !s.finished {
          ToldFrom(env, s, lines[1..]);
          ToldOn(env, r, lines[0], rest);
        }
      }
    }
  }

  // A frame that ends the story: it fails, or it is the finish.
  lemma ToldLine(env: Env, r: Run, line: string, more: seq<string>)
    requires !r.finished && !r.failed && Trim(line) != ""
    ensures var s, story := Line(env, r, line), Tell(env, r.model, [line] + NonBlank(more));
            s.failed || s.finished ==>
              Close(Lines(env, s, more)).out == r.out + (Chunks(story.payloads) + [EndingOf(story)])
  {
    hide Trim, StripData, NonBlank;
    var s := Line(env, r, line);
    assert Chunks([]) == [];
    assert ([line] + NonBlank(more))[0] == line;
    if s.failed {
      FailedStays(env, s, more);
    } else if s.finished {
      FinishedTold(env, s, more);
    }
  }

  // After the finish there is nothing but blank lines, or one failure.
  lemma {:induction false} FinishedTold(env: Env, s: Run, more: seq<string>)
    requires s.finished && !s.failed
    ensures Close(Lines(env, s, more)).out ==
            s.out + [if NonBlank(more) == [] then DoneRecord
                     else FailureRecord("CommandCode returned data after finish")]
    decreases |more|
  {
    hide Trim;
    if more != [] {
      if Trim(more[0]) == "" {
        FinishedTold(env, s, more[1..]);
      } else {
        FailedStays(env, Line(env, s, more[0]), more[1..]);
      }
    }
  }

  lemma ToldOn(env: Env, r: Run, line: string, rest: seq<string>)
    requires !r.finished && !r.failed && Trim(line) != ""
    requires var s := Line(env, r, line); !s.failed && !s.finished
    ensures var s, story := Line(env, r, line), Tell(env, r.model, [line] + rest);
            var after := Tell(env, s.model, rest);
            s.out + (Chunks(after.payloads) + [EndingOf(after)]) == r.out + (Chunks(story.payloads) + [EndingOf(story)])
  {
    hide Trim, StripData;
    assert ([line] + rest)[0] == line && ([line] + rest)[1..] == rest;
    var s := Line(env, r, line);
    var made := env.translate(r.model, env.json(StripData(Trim(line))).value);
    var payloads := if made.chunks.Some? then made.chunks.value else [];
    assert Chunks([]) == [];
    ChunksThen(payloads, Tell(env, s.model, rest).payloads);
    hide Tell;
  }

  /** The whole output of a stream: its content in order, then `[DONE]` or the failure that ended it. */
  lemma OutputIs(env: Env, text: string)
    ensures var story := Tell(env, 0, NonBlank(Complete(LF, text) + [Rest(LF, text)]));
            Convert(env, text).out == Chunks(story.payloads) + [EndingOf(story)]
  {
    LinesAppend(env, FRESH, Complete(LF, text), [Rest(LF, text)]);
    ToldFrom(env, FRESH, Complete(LF, text) + [Rest(LF, text)]);
    hide Tell, NonBlank, Line, Complete, Rest;
    assert [Rest(LF, text)][1..] == [];
    var r := Lines(env, FRESH, Complete(LF, text));
    assert Lines(env, r, [Rest(LF, text)]) == Line(env, r, Rest(LF, text));
  }

  // ---------- The transform stream ----------

  /** Keepalive comments aside. */
  function Visible(out: seq<Output>): seq<Output> {
    if out == [] then []
    else Visible(out[..|out| - 1]) + if out[|out| - 1].KeepaliveComment? then [] else [out[|out| - 1]]
  }

  lemma {:induction false} VisibleAppend(a: seq<Output>, b: seq<Output>)
    ensures Visible(a + b) == Visible(a) + Visible(b)
  {
    if b == [] {
      assert a + b == a;
    } else {
      assert (a + b)[..|a + b| - 1] == a + b[..|b| - 1];
      VisibleAppend(a, b[..|b| - 1]);
    }
  }

  lemma VisibleOne(o: Output)
    ensures Visible([o]) == if o.KeepaliveComment? then [] else [o]
  {
    assert [o][..0] == [];
  }

  lemma {:induction false} VisibleChunks(payloads: seq<int>)
    ensures Visible(Chunks(payloads)) == Chunks(payloads)
  {
    if payloads != [] {
      var n := |payloads| - 1;
      assert Chunks(payloads)[..n] == Chunks(payloads[..n]);
      VisibleChunks(payloads[..n]);
    }
  }

  // What a line adds does not depend on what is out already.
  lemma LineFromNothing(env: Env, r: Run, line: string)
    ensures Line(env, r, line).out == r.out + Line(env, r.(out := []), line).out
  {
    hide Trim, StripData, Chunks;
    var trimmed := Trim(line);
    if trimmed != "" && !r.failed && !r.finished && env.json(StripData(trimmed)).Some? {
      var event := env.json(StripData(trimmed)).value;
      if !event.kind.ErrorEvent? && env.translate(r.model, event).Emits? {
        var chunks := env.translate(r.model, event).chunks;
        var made := if chunks.Some? then Chunks(chunks.value) else [];
        assert [] + made == made;
      }
    }
  }

  /** An accepted event of tool input that the translator holds back. */
  predicate BuffersToolInput(env: Env, r: Run, line: string) {
    && Trim(line) != "" && !r.failed && !r.finished
    && var event := env.json(StripData(Trim(line)));
    && event.Some? && event.value.kind.ToolInputEvent?
    && env.translate(r.model, event.value).Emits? && env.translate(r.model, event.value).chunks.None?
  }

  class Transformer {
    const env: Env
    const now: nat -> int
    var buffer: string
    var model: int
    var rawTerminalSeen: bool
    var failureSeen: bool
    var lastKeepaliveAt: int
    var calls: nat
    // Everything enqueued on the controller.
    var out: seq<Output>

    /** The state with keepalives hidden. */
    function Abs(): Run
      reads this
    {
      Run(model, rawTerminalSeen, failureSeen, Visible(out))
    }

    /** `now(i)` is the clock at the i-th look at it. */
    constructor (env: Env, now: nat -> int)
      ensures Abs() == FRESH && buffer == "" && this.env == env
    {
      this.env, this.now := env, now;
      buffer, model, rawTerminalSeen, failureSeen, lastKeepaliveAt, calls, out := "", 0, false, false, 0, 0, [];
    }

    method Enqueue(o: Output)
      modifies this`out
      ensures out == old(out) + [o]
      ensures Visible(out) == Visible(old(out)) + if o.KeepaliveComment? then [] else [o]
    {
      VisibleAppend(out, [o]);
      VisibleOne(o);
      out := out + [o];
    }

    method EmitFailure(message: string)
      modifies this`failureSeen, this`out
      ensures out == old(out) + if old(failureSeen) then [] else [FailureRecord(message)]
      ensures Abs() == if old(failureSeen) then old(Abs()) else Fail(old(Abs()), message)
    {
      if failureSeen {
        return;
      }
      failureSeen := true;
      Enqueue(FailureRecord(message));
    }

    /** A comment, unless the last one is less than fifteen seconds old. */
    method EmitKeepalive()
      modifies this`out, this`lastKeepaliveAt, this`calls
      ensures Abs() == old(Abs()) && calls == old(calls) + 1
      ensures var time := now(old(calls));
              if time - old(lastKeepaliveAt) >= 15000 then
                out == old(out) + [KeepaliveComment] && lastKeepaliveAt == time
              else out == old(out) && lastKeepaliveAt == old(lastKeepaliveAt)
    {
      var time := now(calls);
      calls := calls + 1;
      if time - lastKeepaliveAt < KEEPALIVE_MS {
        return;
      }
      lastKeepaliveAt := time;
      Enqueue(KeepaliveComment);
    }

    method EmitChunks(payloads: seq<int>)
      modifies this`out
      ensures out == old(out) + Chunks(payloads)
      ensures Visible(out) == Visible(old(out)) + Chunks(payloads)
    {
      ghost var start, all := out, Chunks(payloads);
      VisibleAppend(start, all);
      VisibleChunks(payloads);
      assert start + all[..0] == start;
      hide Visible;
      for i := 0 to |payloads|
        invariant out == start + all[..i]
      {
        assert start + all[..i + 1] == start + all[..i] + [Chunk(payloads[i])];
        Enqueue(Chunk(payloads[i]));
      }
      assert all[..|payloads|] == all;
    }

    /** One line; a keepalive follows only a buffered piece of tool input, the clock permitting. */
    method ProcessLine(line: string)
      modifies this
      ensures Abs() == Line(env, old(Abs()), line) && buffer == old(buffer)
      ensures BuffersToolInput(env, old(Abs()), line) ==>
                && calls == old(calls) + 1
                && out == old(out) + if now(old(calls)) - old(lastKeepaliveAt) >= 15000 then [KeepaliveComment] else []
      ensures !BuffersToolInput(env, old(Abs()), line) ==>
                && calls == old(calls) && lastKeepaliveAt == old(lastKeepaliveAt)
                && out == old(out) + Line(env, old(Abs()).(out := []), line).out
    {
      LineFromNothing(env, Abs(), line);
      hide Chunks, Trim, StripData, Visible;
      var trimmed := Trim(line);
      if trimmed == "" || failureSeen {
        return;
      }
      if rawTerminalSeen {
        EmitFailure("CommandCode returned data after finish");
        return;
      }
      var parsed := env.json(StripData(trimmed));
      if parsed.None? {
        EmitFailure("CommandCode returned malformed stream data");
        return;
      }
      var event := parsed.value;
      if event.kind.ErrorEvent? {
        EmitFailure("CommandCode upstream stream failed");
        return;
      }
      match env.translate(model, event) {
        case Rejects(message) =>
          EmitFailure(message);
        case Emits(state, chunks) =>
          model := state;
          if event.kind.FinishEvent? {
            rawTerminalSeen := true;
          }
          if chunks.None? && event.kind.ToolInputEvent? {
            EmitKeepalive();
          }
          if chunks.Some? {
            EmitChunks(chunks.value);
          }
      }
    }

    method Transform(chunk: string)
      modifies this
      ensures Abs() == Lines(env, old(Abs()), Complete(LF, old(buffer) + chunk))
      ensures buffer == Rest(LF, old(buffer) + chunk)
    {
      var text := buffer + chunk;
      var lines := Complete(LF, text);
      buffer := Rest(LF, text);
      ghost var start := Abs();
      hide Line;
      for i := 0 to |lines|
        invariant buffer == Rest(LF, text)
        invariant Lines(env, Abs(), lines[i..]) == Lines(env, start, lines)
      {
        assert lines[i..][0] == lines[i] && lines[i..][1..] == lines[i + 1..];
        ProcessLine(lines[i]);
      }
    }

    method Flush()
      modifies this
      ensures Abs() == Close(Line(env, old(Abs()), old(buffer)))
    {
      var trimmed := Trim(buffer);
      if trimmed != "" {
        TrimTwice(buffer);
        ProcessLine(trimmed);
      }
      if !rawTerminalSeen && !failureSeen {
        EmitFailure("CommandCode stream ended before finish");
      }
      if rawTerminalSeen && !failureSeen {
        Enqueue(DoneRecord);
      }
    }
  }

  lemma {:induction false} TrimTwice(s: string)
    ensures Trim(Trim(s)) == Trim(s)
  {
    LeftTrimmed(s);
    RightTrimmed(TrimLeft(s));
    RightKeepsLeft(TrimLeft(s));
  }

  predicate NoSpaceFirst(s: string) {
    s == "" || !IsSpace(s[0])
  }

  lemma {:induction false} LeftTrimmed(s: string)
    ensures NoSpaceFirst(TrimLeft(s))
  {
    if s != "" && IsSpace(s[0]) {
      LeftTrimmed(s[1..]);
    }
  }

  lemma {:induction false} RightTrimmed(s: string)
    ensures TrimRight(TrimRight(s)) == TrimRight(s)
  {
    if s != "" && IsSpace(s[|s| - 1]) {
      RightTrimmed(s[..|s| - 1]);
    }
  }

  lemma {:induction false} RightKeepsLeft(s: string)
    requires NoSpaceFirst(s)
    ensures NoSpaceFirst(TrimRight(s))
  {
    if s != "" && IsSpace(s[|s| - 1]) {
      RightKeepsLeft(s[..|s| - 1]);
    }
  }

  /**
   * A whole response, in any chunks and under any clock: what is sent, keepalives
   * aside, is the conversion of the text alone.
   */
  method ConvertStream(env: Env, now: nat -> int, chunks: seq<string>) returns (out: seq<Output>)
    ensures Visible(out) == Convert(env, Concat(chunks)).out
    ensures var story := Tell(env, 0, NonBlank(Complete(LF, Concat(chunks)) + [Rest(LF, Concat(chunks))]));
            Visible(out) == Chunks(story.payloads) + [EndingOf(story)]
  {
    var t := new Transformer(env, now);
    hide Line, Lines, Complete, Rest, Visible, Tell, NonBlank;
    StartFeed(env);
    for i := 0 to |chunks|
      invariant Fed(env, t.Abs(), t.buffer, Concat(chunks[..i]))
    {
      assert chunks[..i + 1] == chunks[..i] + [chunks[i]];
      ConcatSnoc(chunks[..i], chunks[i]);
      FeedMore(env, t.Abs(), t.buffer, Concat(chunks[..i]), chunks[i]);
      t.Transform(chunks[i]);
    }
    assert chunks[..|chunks|] == chunks;
    t.Flush();
    out := t.out;
    OutputIs(env, Concat(chunks));
  }

  /** After the text `seen`: its complete lines processed, the rest buffered. */
  ghost predicate Fed(env: Env, r: Run, buffer: string, seen: string) {
    r == Lines(env, FRESH, Complete(LF, seen)) && buffer == Rest(LF, seen)
  }

  lemma StartFeed(env: Env)
    ensures Fed(env, FRESH, "", "")
  {
  }

  lemma FeedMore(env: Env, r: Run, buffer: string, seen: string, more: string)
    requires Fed(env, r, buffer, seen)
    ensures Fed(env, Lines(env, r, Complete(LF, buffer + more)), Rest(LF, buffer + more), seen + more)
  {
    SplitAppend(LF, seen, more);
    LinesAppend(env, FRESH, Complete(LF, seen), Complete(LF, buffer + more));
  }
}
