// CommandCode events, the preflight verdict on a byte stream, and the method
// that reaches it chunk by chunk.
module CommandCode {
  import opened Options
  import opened Records

  datatype Kind = ErrorEvent | FinishEvent | PreambleEvent | ToolInputEvent | OtherEvent

  /** A parsed event; `payload` stands for everything but its type. */
  datatype Event = Event(kind: Kind, payload: int)

  /** JSON.parse, as far as it succeeds. */
  type Json = string -> Option<Event>

  const MAX_BYTES: nat := 64 * 1024
  const MAX_FRAMES: nat := 16
  const LF := '\n'

  predicate IsSpace(c: char) {
    || c in {' ', '\t', '\n', '\r', '\U{000B}', '\U{000C}', '\U{00A0}', '\U{FEFF}', '\U{2028}', '\U{2029}'}
    || c in {'\U{1680}', '\U{202F}', '\U{205F}', '\U{3000}'} || '\U{2000}' <= c <= '\U{200A}'
  }

  function TrimLeft(s: string): string {
    if s != "" && IsSpace(s[0]) then TrimLeft(s[1..]) else s
  }

  function TrimRight(s: string): string {
    if s != "" && IsSpace(s[|s| - 1]) then TrimRight(s[..|s| - 1]) else s
  }

  function Trim(s: string): string {
    TrimRight(TrimLeft(s))
  }

  function StripData(s: string): string {
    if "data:" <= s then Trim(s[5..]) else s
  }

  function DropCarriageReturn(line: string): string {
    if line != "" && line[|line| - 1] == '\r' then line[..|line| - 1] else line
  }

  /** `parseCommandCodeFrame`. */
  function ParseFrame(json: Json, line: string): Option<Event> {
    var trimmed := Trim(line);
    if trimmed == "" then None
    else
      var text := StripData(trimmed);
      if text == "" || text == "[DONE]" then None else json(text)
  }

  predicate Blank(line: string) {
    Trim(DropCarriageReturn(line)) == ""
  }

  function FrameOf(json: Json, line: string): Option<Event> {
    ParseFrame(json, DropCarriageReturn(line))
  }

  // ---------- The verdict ----------

  datatype Scan = Undecided(frames: nat) | Passed | Failed(event: Event)

  /** Inspects complete lines until one decides. */
  function ScanLine(json: Json, s: Scan, line: string): Scan {
    match s
    case Undecided(frames) =>
      if Blank(line) then s
      else
        var event := FrameOf(json, line);
        if event.Some? && event.value.kind.ErrorEvent? then Failed(event.value)
        else if event.None? || !event.value.kind.PreambleEvent? || frames + 1 >= MAX_FRAMES then Passed
        else Undecided(frames + 1)
    case _ => s
  }

  function ScanLines(json: Json, s: Scan, lines: seq<string>): Scan
    decreases |lines|
  {
    if lines == [] then s else ScanLines(json, ScanLine(json, s, lines[0]), lines[1..])
  }

  datatype Ending = Eof | ReadError

  datatype Verdict = Failure(event: Event) | Replay | Threw

  function Window(bytes: string): string {
    if |bytes| <= MAX_BYTES then bytes else bytes[..MAX_BYTES]
  }

  /** What the preflight decides about a stream, whatever its chunks. */
  function Decide(json: Json, bytes: string, ending: Ending): Verdict {
    match ScanLines(json, Undecided(0), Complete(LF, Window(bytes)))
    case Failed(event) => Failure(event)
    case Passed => Replay
    case Undecided(_) =>
      if |bytes| >= MAX_BYTES then Replay
      else if ending.ReadError? then Threw
      else
        var event := ParseFrame(json, Rest(LF, bytes));
        if event.Some? && event.value.kind.ErrorEvent? then Failure(event.value) else Replay
  }

  lemma {:induction false} ScanAppend(json: Json, s: Scan, a: seq<string>, b: seq<string>)
    ensures ScanLines(json, s, a + b) == ScanLines(json, ScanLines(json, s, a), b)
    decreases |a|
  {
    if a == [] {
      assert a + b == b;
    } else {
      assert (a + b)[0] == a[0] && (a + b)[1..] == a[1..] + b;
      ScanAppend(json, ScanLine(json, s, a[0]), a[1..], b);
    }
  }

  lemma {:induction false} DecidedStays(json: Json, s: Scan, lines: seq<string>)
    requires !s.Undecided?
    ensures ScanLines(json, s, lines) == s
  {
    if lines != [] {
      DecidedStays(json, s, lines[1..]);
    }
  }

  // A decision taken on a prefix of the window is the verdict on the stream.
  lemma PrefixDecides(json: Json, seen: string, bytes: string, ending: Ending)
    requires seen <= Window(bytes)
    ensures var s := ScanLines(json, Undecided(0), Complete(LF, seen));
            (s.Failed? ==> Decide(json, bytes, ending) == Failure(s.event)) &&
            (s.Passed? ==> Decide(json, bytes, ending) == Replay)
  {
    var s := ScanLines(json, Undecided(0), Complete(LF, seen));
    var more := Window(bytes)[|seen|..];
    assert Window(bytes) == seen + more;
    SplitAppend(LF, seen, more);
    ScanAppend(json, Undecided(0), Complete(LF, seen), Complete(LF, Rest(LF, seen) + more));
    if !s.Undecided? {
      DecidedStays(json, s, Complete(LF, Rest(LF, seen) + more));
    }
  }

  // ---------- What the verdict means ----------

  /** The non-blank complete lines of a text. */
  function Frames(lines: seq<string>): seq<string> {
    if lines == [] then []
    else (if Blank(lines[0]) then [] else [lines[0]]) + Frames(lines[1..])
  }

  predicate IsErrorFrame(json: Json, line: string) {
    FrameOf(json, line).Some? && FrameOf(json, line).value.kind.ErrorEvent?
  }

  predicate IsPreambleFrame(json: Json, line: string) {
    FrameOf(json, line).Some? && FrameOf(json, line).value.kind.PreambleEvent?
  }

  /** An error among the first `limit` frames, reached through preamble frames only. */
  ghost predicate ErrorReached(json: Json, frames: seq<string>, limit: int, i: nat) {
    && i < |frames| && i < limit
    && IsErrorFrame(json, frames[i])
    && forall k :: 0 <= k < i ==> IsPreambleFrame(json, frames[k])
  }

  /** The scan fails exactly on such an error, and reports that very event. */
  lemma {:induction false} ScanMeaning(json: Json, seen: nat, limit: int, lines: seq<string>, frames: seq<string>)
    requires limit == MAX_FRAMES - seen > 0 && frames == Frames(lines)
    ensures ScanLines(json, Undecided(seen), lines).Failed? <==> exists i: nat :: ErrorReached(json, frames, limit, i)
    ensures forall i: nat :: ErrorReached(json, frames, limit, i) ==>
              ScanLines(json, Undecided(seen), lines) == Failed(FrameOf(json, frames[i]).value)
    decreases |lines|
  {
    hide FrameOf, Blank;
    if lines != [] {
      var line, rest, later := lines[0], lines[1..], Frames(lines[1..]);
      var s := ScanLine(json, Undecided(seen), line);
      if Blank(line) {
        assert frames == later;
        ScanMeaning(json, seen, limit, rest, later);
      } else if s.Undecided? {
        assert frames == [line] + later && frames[1..] == later;
        ScanMeaning(json, seen + 1, limit - 1, rest, later);
        ShiftReached(json, frames, later, limit, limit - 1);
      } else {
        assert frames[0] == line;
        DecidedStays(json, s, rest);
        assert s.Failed? ==> ErrorReached(json, frames, limit, 0);
        assert forall i: nat :: ErrorReached(json, frames, limit, i) ==> i == 0 || IsPreambleFrame(json, frames[0]);
      }
    }
  }

  lemma ShiftReached(json: Json, frames: seq<string>, rest: seq<string>, limit: int, smaller: int)
    requires frames != [] && IsPreambleFrame(json, frames[0])
    requires rest == frames[1..] && smaller == limit - 1
    ensures forall i: nat :: ErrorReached(json, frames, limit, i) ==> i > 0 && ErrorReached(json, rest, smaller, i - 1)
    ensures forall i: nat :: ErrorReached(json, rest, smaller, i) ==> ErrorReached(json, frames, limit, i + 1)
  {
    forall i: nat | ErrorReached(json, rest, smaller, i) ensures ErrorReached(json, frames, limit, i + 1) {
      forall k | 0 <= k < i + 1 ensures IsPreambleFrame(json, frames[k]) {
        if k > 0 {
          assert frames[k] == rest[k - 1];
        }
      }
    }
    forall i: nat | ErrorReached(json, frames, limit, i) ensures i > 0 && ErrorReached(json, rest, smaller, i - 1) {
      forall k | 0 <= k < i - 1 ensures IsPreambleFrame(json, rest[k]) {
        assert rest[k] == frames[k + 1];
      }
    }
  }

  // ---------- The unfinished last line ----------

  // Trimming already removes the carriage return that is dropped first.
  lemma {:induction false} TrimIgnoresReturn(s: string)
    ensures Trim(DropCarriageReturn(s)) == Trim(s)
  {
    if s != "" && s[|s| - 1] == '\r' {
      if IsSpace(s[0]) {
        if |s| > 1 {
          assert s[1..][|s[1..]| - 1] == '\r' && s[1..][..|s[1..]| - 1] == s[..|s| - 1][1..];
          TrimIgnoresReturn(s[1..]);
        }
      } else {
        assert TrimLeft(s) == s && TrimLeft(s[..|s| - 1]) == s[..|s| - 1];
      }
    }
  }

  /** The frames the preflight may look at: the window's lines, and the last line of a short stream. */
  function Candidates(bytes: string, ending: Ending): seq<string> {
    var window := if |bytes| <= 64 * 1024 then bytes else bytes[..64 * 1024];
    Frames(Complete('\n', window) + if |bytes| < 64 * 1024 && ending.Eof? then [Rest('\n', bytes)] else [])
  }

  /**
   * The verdict is an error if and only if one of the first 16 candidate frames is
   * an error event with nothing but preamble events before it; it reports that event.
   */
  lemma VerdictMeaning(json: Json, bytes: string, ending: Ending)
    ensures Decide(json, bytes, ending).Failure? <==>
            exists i: nat :: ErrorReached(json, Candidates(bytes, ending), 16, i)
    ensures forall i: nat :: ErrorReached(json, Candidates(bytes, ending), 16, i) ==>
              Decide(json, bytes, ending) == Failure(FrameOf(json, Candidates(bytes, ending)[i]).value)
  {
    var lines := Complete(LF, Window(bytes));
    var tail := if |bytes| < MAX_BYTES && ending.Eof? then [Rest(LF, bytes)] else [];
    ScanMeaning(json, 0, MAX_FRAMES, lines + tail, Candidates(bytes, ending));
    ScanAppend(json, Undecided(0), lines, tail);
    LastLine(json, ScanLines(json, Undecided(0), lines), tail, Rest(LF, bytes));
  }

  /** A read error surfaces if and only if nothing was decided before it: a short stream of preamble frames only. */
  lemma ThrewIff(json: Json, bytes: string, ending: Ending)
    ensures Decide(json, bytes, ending).Threw? <==>
            && ending.ReadError? && |bytes| < 64 * 1024
            && |Frames(Complete('\n', bytes))| < 16
            && forall k :: 0 <= k < |Frames(Complete('\n', bytes))| ==>
                 IsPreambleFrame(json, Frames(Complete('\n', bytes))[k])
  {
    UndecidedIff(json, 0, Complete(LF, Window(bytes)));
    hide ScanLines, Complete, IsPreambleFrame, ParseFrame, Rest;
  }

  lemma {:induction false} UndecidedIff(json: Json, seen: nat, lines: seq<string>)
    requires seen < MAX_FRAMES
    ensures ScanLines(json, Undecided(seen), lines).Undecided? <==>
            && seen + |Frames(lines)| < MAX_FRAMES
            && forall k :: 0 <= k < |Frames(lines)| ==> IsPreambleFrame(json, Frames(lines)[k])
    decreases |lines|
  {
    hide FrameOf, Blank;
    if lines != [] {
      var s, rest := ScanLine(json, Undecided(seen), lines[0]), Frames(lines[1..]);
      if Blank(lines[0]) {
        assert Frames(lines) == rest;
        UndecidedIff(json, seen, lines[1..]);
      } else if s.Undecided? {
        assert Frames(lines) == [lines[0]] + rest;
        UndecidedIff(json, seen + 1, lines[1..]);
        assert forall k :: 0 < k < |Frames(lines)| ==> Frames(lines)[k] == rest[k - 1];
        assert forall k :: 0 <= k < |rest| ==> rest[k] == Frames(lines)[k + 1];
      } else {
        assert Frames(lines)[0] == lines[0];
        DecidedStays(json, s, lines[1..]);
      }
    }
  }

  // ---------- Lines and texts ----------

  /** Trimming cuts exactly the white space at both ends. */
  ghost predicate IsTrimmed(s: string, i: int, j: int) {
    && 0 <= i <= j <= |s|
    && (forall k :: 0 <= k < i || j <= k < |s| ==> IsSpace(s[k]))
    && (i < j ==> !IsSpace(s[i]) && !IsSpace(s[j - 1]))
  }

  /** White space is what JavaScript trims: line ends, tabs and every kind of blank, but no letter. */
  lemma Spaces()
    ensures IsSpace(' ') && IsSpace('\t') && IsSpace('\n') && IsSpace('\r')
    ensures IsSpace('\U{00A0}') && IsSpace('\U{FEFF}')
    ensures IsSpace('\U{000B}') && IsSpace('\U{000C}') && IsSpace('\U{2028}') && IsSpace('\U{3000}')
    ensures forall c :: '!' <= c <= '~' ==> !IsSpace(c)
  {
  }

  ghost predicate LeftCut(s: string, i: int) {
    0 <= i <= |s| && (forall k :: 0 <= k < i ==> IsSpace(s[k])) && (i < |s| ==> !IsSpace(s[i]))
  }

  ghost predicate RightCut(s: string, j: int) {
    0 <= j <= |s| && (forall k :: j <= k < |s| ==> IsSpace(s[k])) && (j > 0 ==> !IsSpace(s[j - 1]))
  }

  lemma {:induction false} LeftMeaning(s: string)
    ensures exists i :: LeftCut(s, i) && TrimLeft(s) == s[i..]
  {
    hide IsSpace;
    if s != "" && IsSpace(s[0]) {
      LeftMeaning(s[1..]);
      var i :| LeftCut(s[1..], i) && TrimLeft(s[1..]) == s[1..][i..];
      OneMoreCut(s, i);
    } else {
      NothingCut(s);
    }
  }

  lemma OneMoreCut(s: string, i: int)
    requires s != "" && IsSpace(s[0]) && LeftCut(s[1..], i)
    ensures LeftCut(s, i + 1) && s[1..][i..] == s[i + 1..]
  {
    hide IsSpace;
    forall k | 0 <= k < i + 1 ensures IsSpace(s[k]) {
      assert k > 0 ==> s[1..][k - 1] == s[k];
    }
    assert i + 1 < |s| ==> s[1..][i] == s[i + 1];
  }

  lemma NothingCut(s: string)
    requires s == "" || !IsSpace(s[0])
    ensures LeftCut(s, 0) && s[0..] == s
  {
  }

  lemma {:induction false} RightMeaning(s: string)
    ensures exists j :: RightCut(s, j) && TrimRight(s) == s[..j]
  {
    hide IsSpace;
    if s != "" && IsSpace(s[|s| - 1]) {
      var front := s[..|s| - 1];
      RightMeaning(front);
      var j :| RightCut(front, j) && TrimRight(front) == front[..j];
      assert front[..j] == s[..j] && RightCut(s, j);
    } else {
      assert RightCut(s, |s|) && s[..|s|] == s;
    }
  }

  lemma CutBoth(s: string, i: int, n: int)
    requires LeftCut(s, i) && RightCut(s[i..], n)
    ensures IsTrimmed(s, i, i + n) && s[i..][..n] == s[i..i + n]
  {
    hide IsSpace;
    forall k | 0 <= k < i || i + n <= k < |s| ensures IsSpace(s[k]) {
      assert k >= i ==> s[i..][k - i] == s[k];
    }
  }

  lemma TrimMeaning(s: string)
    ensures exists i, j :: IsTrimmed(s, i, j) && Trim(s) == s[i..j]
  {
    LeftMeaning(s);
    var i :| LeftCut(s, i) && TrimLeft(s) == s[i..];
    RightMeaning(s[i..]);
    var n :| RightCut(s[i..], n) && TrimRight(s[i..]) == s[i..][..n];
    CutBoth(s, i, n);
    hide IsTrimmed, LeftCut, RightCut;
  }

  /** What a line is parsed as: its trimmed text, or what follows `data:` in it; `[DONE]` and nothing are no event. */
  lemma LineMeaning(json: Json, line: string, text: string)
    requires Trim(line) == "data:" + text || (Trim(line) == text == Trim(text) && !("data:" <= text))
    ensures FrameOf(json, line) == if Trim(text) in {"", "[DONE]"} then None else json(Trim(text))
    ensures Blank(line) <==> Trim(line) == ""
  {
    TrimIgnoresReturn(line);
    hide Trim;
    assert Trim(line) == "data:" + text ==> Trim(line)[5..] == text;
  }

  lemma LastLine(json: Json, s: Scan, tail: seq<string>, rest: string)
    requires tail == [] || tail == [rest]
    ensures tail == [] || !s.Undecided? ==> ScanLines(json, s, tail) == s
    ensures tail != [] && s.Undecided? ==>
              var e := ParseFrame(json, rest);
              if e.Some? && e.value.kind.ErrorEvent? then ScanLines(json, s, tail) == Failed(e.value)
              else !ScanLines(json, s, tail).Failed?
  {
    TrimIgnoresReturn(rest);
    if !s.Undecided? {
      DecidedStays(json, s, tail);
    } else if tail != [] {
      assert tail[1..] == [];
      assert ScanLines(json, s, tail) == ScanLine(json, s, rest);
    }
  }
}
