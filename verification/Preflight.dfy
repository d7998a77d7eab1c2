// preflightCommandCodeResponse: reads chunks until it can decide, then either
// reports the error or replays the body from the first byte.
module Preflight {
  import opened Options
  import opened Records
  import opened CommandCode

  /** A response body: the chunks the reader will return, then the ending. */
  datatype Body = Body(chunks: seq<string>, ending: Ending)

  /** What the caller gets: an error response, a replayed body, or an exception. */
  datatype Outcome = ErrorResponse(event: Event) | Replayed(body: Body) | Rethrown

  /** Pulls the replay stream until it closes: buffered chunks first, then the same reader. */
  method ReplayBody(chunks: seq<string>, alreadyDone: bool, rest: Body) returns (out: Body)
    requires alreadyDone ==> rest == Body([], Eof)
    ensures out == Body(chunks + rest.chunks, rest.ending)
  {
    var delivered: seq<string> := [];
    var index := 0;
    while index < |chunks|
      invariant index <= |chunks| && delivered == chunks[..index]
    {
      delivered := delivered + [chunks[index]];
      index := index + 1;
    }
    if alreadyDone {
      return Body(delivered, Eof);
    }
    var pulled := 0;
    while pulled < |rest.chunks|
      invariant pulled <= |rest.chunks| && delivered == chunks + rest.chunks[..pulled]
    {
      delivered := delivered + [rest.chunks[pulled]];
      pulled := pulled + 1;
    }
    out := Body(delivered, rest.ending);
  }

  ghost predicate Correct(json: Json, body: Body, o: Outcome) {
    match Decide(json, Concat(body.chunks), body.ending)
    case Failure(event) => o == ErrorResponse(event)
    case Replay => o == Replayed(body)
    case Threw => o == Rethrown
  }

  /** The reader after `n` chunks: the window read so far, its unfinished line, its frame count. */
  ghost predicate Reading(json: Json, body: Body, n: nat, text: string, bytes: nat, frames: nat) {
    && n <= |body.chunks|
    && var seen := Window(Concat(body.chunks[..n]));
    && bytes == |seen| && text == Rest(LF, seen)
    && ScanLines(json, Undecided(0), Complete(LF, seen)) == Undecided(frames) && frames < MAX_FRAMES
  }

  method Inspect(json: Json, body: Body) returns (o: Outcome)
    ensures Correct(json, body, o)
  {
    var n: nat, text, bytes: nat, frames: nat := 0, "", 0, 0;
    assert Reading(json, body, n, text, bytes, frames);
    hide Reading, Decide, ParseFrame, ScanLines, Complete, Rest;
    while bytes < MAX_BYTES
      invariant n <= |body.chunks| && frames < MAX_FRAMES
      invariant Reading(json, body, n, text, bytes, frames)
      decreases |body.chunks| - n
    {
      if n == |body.chunks| {
        o := InspectEnd(json, body, text, bytes, frames);
        return;
      }
      var value := body.chunks[n];
      var inspectBytes := if |value| <= MAX_BYTES - bytes then |value| else MAX_BYTES - bytes;
      var s, unfinished, seen := InspectLines(json, text + value[..inspectBytes], frames);
      AfterChunk(json, body, n, text, bytes, frames, inspectBytes, s, unfinished, seen);
      n, bytes := n + 1, bytes + inspectBytes;
      if s.Failed? {
        return ErrorResponse(s.event);
      }
      if s.Passed? {
        o := ReplayFrom(body, n);
        return;
      }
      text, frames := unfinished, seen;
    }
    AtLimit(json, body, n, text, bytes, frames);
    o := ReplayFrom(body, n);
  }

  /** The chunks read so far, then the rest of the same reader: the original body. */
  method ReplayFrom(body: Body, n: nat) returns (o: Outcome)
    requires n <= |body.chunks|
    ensures o == Replayed(body)
  {
    var replay := ReplayBody(body.chunks[..n], false, Body(body.chunks[n..], body.ending));
    assert body.chunks[..n] + body.chunks[n..] == body.chunks;
    o := Replayed(replay);
  }

  /** The reader is done: the unfinished last line decides. */
  method InspectEnd(json: Json, body: Body, text: string, bytes: nat, frames: nat) returns (o: Outcome)
    requires Reading(json, body, |body.chunks|, text, bytes, frames) && bytes < MAX_BYTES
    ensures Correct(json, body, o)
  {
    AtEnd(json, body, text, bytes, frames);
    hide Reading, Decide, ParseFrame;
    if body.ending.ReadError? {
      return Rethrown;
    }
    var event := ParseFrame(json, text);
    if event.Some? && event.value.kind.ErrorEvent? {
      return ErrorResponse(event.value);
    }
    var replay := ReplayBody(body.chunks, true, Body([], Eof));
    assert body.chunks + [] == body.chunks;
    o := Replayed(replay);
  }

  lemma AtEnd(json: Json, body: Body, text: string, bytes: nat, frames: nat)
    requires Reading(json, body, |body.chunks|, text, bytes, frames) && bytes < MAX_BYTES
    ensures Decide(json, Concat(body.chunks), body.ending) ==
            if body.ending.ReadError? then Threw
            else if ParseFrame(json, text).Some? && ParseFrame(json, text).value.kind.ErrorEvent?
            then Failure(ParseFrame(json, text).value) else Replay
  {
    assert body.chunks[..|body.chunks|] == body.chunks;
  }

  lemma AtLimit(json: Json, body: Body, n: nat, text: string, bytes: nat, frames: nat)
    requires Reading(json, body, n, text, bytes, frames) && bytes >= MAX_BYTES
    ensures Decide(json, Concat(body.chunks), body.ending) == Replay
  {
    StreamPrefix(body, n);
    assert Window(Concat(body.chunks[..n])) == Window(Concat(body.chunks));
  }

  lemma AfterChunk(json: Json, body: Body, n: nat, text: string, bytes: nat, frames: nat, inspect: nat, s: Scan,
                   text': string, frames': nat)
    requires n < |body.chunks| && Reading(json, body, n, text, bytes, frames) && bytes < MAX_BYTES
    requires inspect == if |body.chunks[n]| <= MAX_BYTES - bytes then |body.chunks[n]| else MAX_BYTES - bytes
    requires s == ScanLines(json, Undecided(frames), Complete(LF, text + body.chunks[n][..inspect]))
    requires s.Undecided? ==> s.frames == frames' < MAX_FRAMES && text' == Rest(LF, text + body.chunks[n][..inspect])
    ensures s.Failed? ==> Decide(json, Concat(body.chunks), body.ending) == Failure(s.event)
    ensures s.Passed? ==> Decide(json, Concat(body.chunks), body.ending) == Replay
    ensures s.Undecided? ==> Reading(json, body, n + 1, text', bytes + inspect, frames')
  {
    hide Decide, Complete, Rest, ScanLines, Concat;
    var before, fed := Window(Concat(body.chunks[..n])), body.chunks[n][..inspect];
    WindowGrows(body, n, inspect);
    SplitAppend(LF, before, fed);
    ScanAppend(json, Undecided(0), Complete(LF, before), Complete(LF, text + fed));
    StreamPrefix(body, n + 1);
    PrefixDecides(json, before + fed, Concat(body.chunks), body.ending);
  }

  /** One complete line: skip it, count it, or decide. */
  method InspectLine(json: Json, raw: string, seen: nat) returns (s: Scan)
    ensures s == ScanLine(json, Undecided(seen), raw)
  {
    hide Trim, ParseFrame;
    var line := DropCarriageReturn(raw);
    if Trim(line) == "" {
      return Undecided(seen);
    }
    var frames := seen + 1;
    var event := ParseFrame(json, line);
    if event.Some? && event.value.kind.ErrorEvent? {
      return Failed(event.value);
    }
    if event.None? || !event.value.kind.PreambleEvent? || frames >= MAX_FRAMES {
      return Passed;
    }
    s := Undecided(frames);
  }

  /** The inner loop: takes complete lines off the text until one decides. */
  method InspectLines(json: Json, start: string, seen: nat) returns (s: Scan, text: string, frames: nat)
    requires seen < MAX_FRAMES
    ensures s == ScanLines(json, Undecided(seen), Complete(LF, start))
    ensures s.Undecided? ==> s.frames == frames < MAX_FRAMES && text == Rest(LF, start)
  {
    text, frames := start, seen;
    hide Complete, Rest, ScanLines;
    while true
      invariant frames < MAX_FRAMES
      invariant ScanLines(json, Undecided(frames), Complete(LF, text)) ==
                  ScanLines(json, Undecided(seen), Complete(LF, start))
      invariant Rest(LF, text) == Rest(LF, start)
      decreases |text|
    {
      NextLine(json, text, frames);
      var newline := FirstAt(LF, text);
      if newline == |text| {
        return Undecided(frames), text, frames;
      }
      s := InspectLine(json, text[..newline], frames);
      text := text[newline + 1..];
      if !s.Undecided? {
        DecidedStays(json, s, Complete(LF, text));
        return;
      }
      frames := s.frames;
    }
  }

  lemma ScanCons(json: Json, s: Scan, line: string, lines: seq<string>)
    ensures ScanLines(json, s, [line] + lines) == ScanLines(json, ScanLine(json, s, line), lines)
  {
    hide ScanLine;
    assert ([line] + lines)[1..] == lines;
  }

  // Scanning a text is scanning its first line, then the text after it.
  lemma NextLine(json: Json, text: string, frames: nat)
    ensures var i := FirstAt(LF, text);
            if i == |text| then ScanLines(json, Undecided(frames), Complete(LF, text)) == Undecided(frames) &&
                Rest(LF, text) == text
            else
              && ScanLines(json, Undecided(frames), Complete(LF, text)) ==
                 ScanLines(json, ScanLine(json, Undecided(frames), text[..i]), Complete(LF, text[i + 1..]))
              && Rest(LF, text) == Rest(LF, text[i + 1..])
  {
    hide ScanLine, Complete, Rest, FirstAt;
    Unfold(LF, text);
    var i := FirstAt(LF, text);
    if i < |text| {
      ScanCons(json, Undecided(frames), text[..i], Complete(LF, text[i + 1..]));
    }
  }

  // Reading one more chunk extends the window by the part of it that still fits.
  lemma WindowGrows(body: Body, n: nat, inspect: nat)
    requires n < |body.chunks|
    requires |Window(Concat(body.chunks[..n]))| < MAX_BYTES
    requires inspect == if |body.chunks[n]| <= MAX_BYTES - |Window(Concat(body.chunks[..n]))| then |body.chunks[n]|
               else MAX_BYTES - |Window(Concat(body.chunks[..n]))|
    ensures Window(Concat(body.chunks[..n + 1])) == Window(Concat(body.chunks[..n])) + body.chunks[n][..inspect]
  {
    assert body.chunks[..n + 1] == body.chunks[..n] + [body.chunks[n]];
    ConcatSnoc(body.chunks[..n], body.chunks[n]);
  }

  lemma StreamPrefix(body: Body, n: nat)
    requires n <= |body.chunks|
    ensures Window(Concat(body.chunks[..n])) <= Window(Concat(body.chunks))
    ensures |Concat(body.chunks[..n])| <= |Concat(body.chunks)|
    ensures body.chunks[..n] + body.chunks[n..] == body.chunks
  {
    assert body.chunks[..n] + body.chunks[n..] == body.chunks;
    ConcatAppend(body.chunks[..n], body.chunks[n..]);
  }

  /** Chunk boundaries are irrelevant to the verdict, and a replay is byte for byte the original. */
  lemma ChunkingIsIrrelevant(json: Json, a: Body, b: Body, oa: Outcome, ob: Outcome)
    requires Concat(a.chunks) == Concat(b.chunks) && a.ending == b.ending
    requires Correct(json, a, oa) && Correct(json, b, ob)
    ensures oa.ErrorResponse? || oa.Rethrown? ==> ob == oa
    ensures oa.Replayed? ==>
              ob.Replayed? && Concat(oa.body.chunks) == Concat(ob.body.chunks) == Concat(a.chunks) &&
              oa.body.ending == ob.body.ending == a.ending
  {
  }
}
