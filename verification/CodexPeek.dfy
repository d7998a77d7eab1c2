// _peekSseTransientError: inspect a bounded head of a Codex stream, report a
// disguised failure, or replay the stream untouched.
module CodexPeek {
  import opened Options
  import opened RetryPolicy

  // ---------- One frame ----------

  /** What one complete SSE frame parses to, as far as the classifier looks at it. */
  datatype FrameInfo = FrameInfo(
    userOutput: bool,
    delta: Option<string>,
    failureEvent: bool,
    namedError: bool,
    errorObjects: bool,
    values: seq<string>,
    message: Option<string>
  )

  datatype Severity = Context | Account | Overload

  datatype Classified =
    | Output(delta: Option<string>)
    | Problem(severity: Severity, matched: string, message: Option<string>)
    | Plain

  const CONTEXT_PATTERNS: seq<string> := ["exceeds the context window", "maximum context length",
    "context_length_exceeded"]
  const ACCOUNT_PATTERNS: seq<string> := ["selected model is at capacity", "model_at_capacity"]
  const RETRY_PATTERNS: seq<string> := ["server_is_overloaded", "service_unavailable_error"]
  const OVERLOADED_MESSAGE := "Our servers are currently overloaded. Please try again later."
  const PEEK_BYTES: nat := 256 * 1024

  predicate Mentions(values: seq<string>, pattern: string) {
    exists i :: 0 <= i < |values| && Includes(Lower(values[i]), pattern)
  }

  /** Some value mentions this pattern and none mentions an earlier one. */
  predicate FirstMentioned(values: seq<string>, patterns: seq<string>, i: nat)
    requires i < |patterns|
  {
    Mentions(values, patterns[i]) && forall j :: 0 <= j < i ==> !Mentions(values, patterns[j])
  }

  lemma MentionedLater(values: seq<string>, patterns: seq<string>, found: string)
    requires patterns != [] && !Mentions(values, patterns[0])
    requires exists i :: 0 <= i < |patterns| - 1 && patterns[1..][i] == found &&
                         FirstMentioned(values, patterns[1..], i)
    ensures exists i :: 0 <= i < |patterns| && patterns[i] == found && FirstMentioned(values, patterns, i)
  {
    hide Mentions;
    var i :| 0 <= i < |patterns| - 1 && patterns[1..][i] == found && FirstMentioned(values, patterns[1..], i);
    forall j | 0 <= j < i + 1 ensures !Mentions(values, patterns[j]) {
      assert j > 0 ==> patterns[1..][j - 1] == patterns[j];
    }
    assert FirstMentioned(values, patterns, i + 1);
  }

  /** The first pattern, in list order, that some value mentions. */
  function FirstPattern(values: seq<string>, patterns: seq<string>): (r: Option<string>)
    ensures r.Some? ==> exists i :: 0 <= i < |patterns| && patterns[i] == r.value && FirstMentioned(values, patterns, i)
    ensures r.None? ==> forall p :: p in patterns ==> !Mentions(values, p)
  {
    if patterns == [] then None
    else if Mentions(values, patterns[0]) then Some(patterns[0])
    else
      var rest := FirstPattern(values, patterns[1..]);
      assert rest.Some? ==> exists i :: 0 <= i < |patterns| && patterns[i] == rest.value &&
                              FirstMentioned(values, patterns, i) by {
        if rest.Some? {
          MentionedLater(values, patterns, rest.value);
        }
      }
      rest
  }

  function Classify(f: FrameInfo): Classified {
    if f.userOutput then Output(f.delta)
    else if !f.failureEvent && !f.namedError && !f.errorObjects then Plain
    else
      var context := if f.failureEvent || f.errorObjects then FirstPattern(f.values, CONTEXT_PATTERNS) else None;
      var account := FirstPattern(f.values, ACCOUNT_PATTERNS);
      var retry := FirstPattern(f.values, RETRY_PATTERNS);
      if context.Some? then Problem(Context, context.value, f.message)
      else if account.Some? then Problem(Account, account.value, f.message)
      else if retry.Some? then Problem(Overload, retry.value, f.message)
      else Plain
  }

  // ---------- All frames seen so far ----------

  function Rank(s: Severity): nat {
    match s
    case Context => 2
    case Account => 1
    case Overload => 0
  }

  /** The classification kept while frames go by: a later problem replaces an equal or weaker one. */
  function Strongest(seen: seq<Classified>): Option<Classified> {
    if seen == [] then None
    else
      var before, last := Strongest(seen[..|seen| - 1]), seen[|seen| - 1];
      if Keeps(before, last) then Some(last) else before
  }

  /** A frame's verdict replaces what was kept unless that is more severe. */
  predicate Keeps(kept: Option<Classified>, c: Classified) {
    c.Problem? && (kept.None? || !kept.value.Problem? || Rank(c.severity) >= Rank(kept.value.severity))
  }

  lemma OneMore(seen: seq<Classified>, c: Classified)
    ensures Strongest(seen + [c]) == if Keeps(Strongest(seen), c) then Some(c) else Strongest(seen)
    ensures Accumulated(seen + [c]) == Accumulated(seen) + if c.Output? && c.delta.Some? then c.delta.value else ""
  {
    assert (seen + [c])[..|seen|] == seen;
  }

  /** The problem at `i` is at least as severe as any other, and later ones are less severe. */
  ghost predicate StrongestAt(seen: seq<Classified>, i: nat) {
    && i < |seen| && seen[i].Problem?
    && (forall k :: 0 <= k < |seen| && seen[k].Problem? ==> Rank(seen[k].severity) <= Rank(seen[i].severity))
    && (forall k :: i < k < |seen| && seen[k].Problem? ==> Rank(seen[k].severity) < Rank(seen[i].severity))
  }

  lemma StrongestStays(before: seq<Classified>, c: Classified, i: nat)
    requires StrongestAt(before, i) && !Keeps(Some(before[i]), c)
    ensures StrongestAt(before + [c], i) && (before + [c])[i] == before[i]
  {
  }

  lemma StrongestReplaced(before: seq<Classified>, c: Classified)
    requires c.Problem?
    requires forall k :: 0 <= k < |before| && before[k].Problem? ==> Rank(before[k].severity) <= Rank(c.severity)
    ensures StrongestAt(before + [c], |before|) && (before + [c])[|before|] == c
  {
  }

  /** Context beats account beats retry, and among equals the last frame decides. */
  lemma {:induction false} StrongestIs(seen: seq<Classified>)
    ensures Strongest(seen).None? <==> forall i :: 0 <= i < |seen| ==> !seen[i].Problem?
    ensures Strongest(seen).Some? ==> exists i: nat :: StrongestAt(seen, i) && Strongest(seen) == Some(seen[i])
  {
    if seen != [] {
      var n := |seen| - 1;
      var before, c := seen[..n], seen[n];
      assert seen == before + [c];
      StrongestIs(before);
      OneMore(before, c);
      hide Strongest, Accumulated;
      if Strongest(before).None? {
        if c.Problem? {
          StrongestReplaced(before, c);
        }
      } else {
        var i: nat :| StrongestAt(before, i) && Strongest(before) == Some(before[i]);
        if Keeps(Some(before[i]), c) {
          StrongestReplaced(before, c);
        } else {
          StrongestStays(before, c, i);
        }
      }
    }
  }

  /** The text streamed so far as output deltas. */
  function Accumulated(seen: seq<Classified>): string {
    if seen == [] then ""
    else
      var last := seen[|seen| - 1];
      Accumulated(seen[..|seen| - 1]) + if last.Output? && last.delta.Some? then last.delta.value else ""
  }

  predicate OtherOutput(c: Classified) {
    c.Output? && c.delta.None?
  }

  // ---------- The stream ----------

  datatype Ending = Eof | StreamError | AbortedOrTimedOut

  datatype Body = Body(chunks: seq<string>, ending: Ending)

  /** The frame splitter (complete frames and remainder) and the frame parser. */
  datatype Env = Env(split: string -> (seq<string>, string), parse: string -> FrameInfo)

  /** The peek after some chunks: unfinished text, bytes looked at, frames classified. */
  datatype State = State(buffer: string, inspected: nat, seen: seq<Classified>)

  function ClassifyAll(env: Env, frames: seq<string>): seq<Classified> {
    seq(|frames|, i requires 0 <= i < |frames| => Classify(env.parse(frames[i])))
  }

  function Feed(env: Env, s: State, chunk: string): State
    requires s.inspected <= PEEK_BYTES
  {
    var piece := if |chunk| > PEEK_BYTES - s.inspected then chunk[..PEEK_BYTES - s.inspected] else chunk;
    var batch := env.split(s.buffer + piece);
    State(batch.1, s.inspected + |piece|, s.seen + ClassifyAll(env, batch.0))
  }

  function After(env: Env, chunks: seq<string>): (s: State)
    ensures s.inspected <= PEEK_BYTES
  {
    if chunks == [] then State("", 0, []) else Feed(env, After(env, chunks[..|chunks| - 1]), chunks[|chunks| - 1])
  }

  /** Whether the text so far can still be the overload message. */
  predicate MayBeOverload(seen: seq<Classified>) {
    Lower(Accumulated(seen)) <= Lower(OVERLOADED_MESSAGE)
  }

  /** The reasons to stop after a batch; the batch itself decides about other output. */
  predicate Stops(before: State, s: State)
    requires |before.seen| <= |s.seen|
  {
    || Strongest(s.seen).Some?
    || (exists i :: |before.seen| <= i < |s.seen| && OtherOutput(s.seen[i]))
    || (Accumulated(s.seen) != "" && !MayBeOverload(s.seen))
    || s.inspected >= PEEK_BYTES
  }

  lemma AfterGrows(env: Env, chunks: seq<string>, n: nat)
    requires 0 < n <= |chunks|
    ensures After(env, chunks[..n]) == Feed(env, After(env, chunks[..n - 1]), chunks[n - 1])
    ensures |After(env, chunks[..n - 1]).seen| <= |After(env, chunks[..n]).seen|
  {
    assert chunks[..n][..n - 1] == chunks[..n - 1];
  }

  /** No reason to stop before chunk `n`. */
  ghost predicate AllGo(env: Env, chunks: seq<string>, n: nat) {
    n <= |chunks| && forall k :: 0 < k < n ==> Goes(env, chunks, k)
  }

  /** The number of chunks the peek reads: up to the first reason to stop, or all of them. */
  ghost predicate ReadsUntil(env: Env, chunks: seq<string>, n: nat) {
    AllGo(env, chunks, n) && (n < |chunks| ==> n > 0 && !Goes(env, chunks, n))
  }

  ghost predicate Goes(env: Env, chunks: seq<string>, k: nat)
    requires 0 < k <= |chunks|
  {
    AfterGrows(env, chunks, k);
    !Stops(After(env, chunks[..k - 1]), After(env, chunks[..k]))
  }

  datatype Result =
    | OverloadedOutput
    | Reported(problem: Classified)
    | Replay(body: Body)
    | Threw

  predicate IsOverload(seen: seq<Classified>) {
    && !(Strongest(seen).Some? && Strongest(seen).value.Problem? && Strongest(seen).value.severity.Context?)
    && Accumulated(seen) != ""
    && Lower(Accumulated(seen)) == Lower(OVERLOADED_MESSAGE)
  }

  /** The verdict on everything seen when reading stops. */
  function Verdict(seen: seq<Classified>, body: Body): Result {
    if IsOverload(seen) then OverloadedOutput
    else if Strongest(seen).Some? then Reported(Strongest(seen).value)
    else Replay(body)
  }

  /** Replays what was read, then goes on with the same reader, or repeats its error. */
  method ReplayBody(chunks: seq<string>, rest: Body) returns (out: Body)
    ensures out == Body(chunks + rest.chunks, rest.ending)
  {
    var sent: seq<string> := [];
    for i := 0 to |chunks|
      invariant sent == chunks[..i]
    {
      sent := sent + [chunks[i]];
    }
    for i := 0 to |rest.chunks|
      invariant sent == chunks + rest.chunks[..i]
    {
      sent := sent + [rest.chunks[i]];
    }
    out := Body(sent, rest.ending);
  }

  /** The frame loop: accumulates deltas, notes other output, keeps the strongest problem. */
  method InspectBatch(env: Env, frames: seq<string>, ghost seen: seq<Classified>, text: string,
                      kept: Option<Classified>)
    returns (text': string, kept': Option<Classified>, sawOutput: bool, ghost more: seq<Classified>)
    requires text == Accumulated(seen) && kept == Strongest(seen)
    ensures more == ClassifyAll(env, frames)
    ensures text' == Accumulated(seen + more) && kept' == Strongest(seen + more)
    ensures sawOutput <==> exists i :: 0 <= i < |more| && OtherOutput(more[i])
  {
    hide Classify, Strongest, Accumulated, Keeps;
    text', kept', sawOutput := text, kept, false;
    more := ClassifyAll(env, frames);
    assert seen + more[..0] == seen;
    for i := 0 to |frames|
      invariant text' == Accumulated(seen + more[..i]) && kept' == Strongest(seen + more[..i])
      invariant sawOutput <==> exists j :: 0 <= j < i && OtherOutput(more[j])
    {
      var c := Classify(env.parse(frames[i]));
      assert seen + more[..i + 1] == seen + more[..i] + [c];
      assert more[i] == c;
      OneMore(seen + more[..i], c);
      if c.Output? {
        if c.delta.Some? {
          text' := text' + c.delta.value;
        } else {
          sawOutput := true;
        }
      }
      if Keeps(kept', c) {
        kept' := Some(c);
      }
    }
    assert more[..|frames|] == more;
  }

  /** One turn of the reading loop, after the read: inspect the chunk and decide whether to stop. */
  method InspectChunk(env: Env, value: string, buffer: string, inspected: nat, text: string, kept: Option<Classified>,
                      ghost seen: seq<Classified>)
    returns (buffer': string, inspected': nat, text': string, kept': Option<Classified>, stop: bool, ghost s: State)
    requires inspected < PEEK_BYTES && text == Accumulated(seen) && kept == Strongest(seen)
    ensures s == Feed(env, State(buffer, inspected, seen), value) && s == State(buffer', inspected', s.seen)
    ensures text' == Accumulated(s.seen) && kept' == Strongest(s.seen)
    ensures |seen| <= |s.seen| && (stop <==> Stops(State(buffer, inspected, seen), s))
  {
    hide Classify, Strongest, Accumulated, Lower;
    var remaining := PEEK_BYTES - inspected;
    var piece := if |value| > remaining then value[..remaining] else value;
    var batch := env.split(buffer + piece);
    var sawOutput;
    ghost var more;
    text', kept', sawOutput, more := InspectBatch(env, batch.0, seen, text, kept);
    buffer', inspected' := batch.1, inspected + |piece|;
    s := State(buffer', inspected', seen + more);
    BatchOutput(seen, more);
    stop := kept'.Some? || sawOutput || (text' != "" && !(Lower(text') <= Lower(OVERLOADED_MESSAGE))) ||
      inspected' >= PEEK_BYTES;
  }

  /** The reading loop: from the first chunk to the first reason to stop, or to the end. */
  method ReadHead(env: Env, body: Body)
    returns (threw: bool, read: nat, inspected: nat, text: string, kept: Option<Classified>, ghost s: State)
    ensures read <= |body.chunks| && inspected <= PEEK_BYTES
    ensures s == After(env, body.chunks[..read]) && s.inspected == inspected
    ensures text == Accumulated(s.seen) && kept == Strongest(s.seen)
    ensures ReadsUntil(env, body.chunks, read)
    ensures threw <==>
              read == |body.chunks| && body.ending.AbortedOrTimedOut? && (read == 0 || Goes(env, body.chunks, read))
  {
    var buffer := "";
    threw, text, kept := false, "", None;
    s := State("", 0, []);
    read, inspected := 0, 0;
    AtStart(env, body.chunks);
    hide Strongest, Accumulated, After, Goes, Lower, Feed, Stops, AllGo;
    var stop := false;
    while !stop
      invariant read <= |body.chunks| && inspected <= PEEK_BYTES && !threw
      invariant s == After(env, body.chunks[..read]) == State(buffer, inspected, s.seen)
      invariant text == Accumulated(s.seen) && kept == Strongest(s.seen)
      invariant AllGo(env, body.chunks, read)
      invariant stop ==> read > 0 && !Goes(env, body.chunks, read)
      invariant !stop ==> inspected < PEEK_BYTES && (read > 0 ==> Goes(env, body.chunks, read))
      decreases |body.chunks| - read, !stop
    {
      if read == |body.chunks| {
        threw := body.ending.AbortedOrTimedOut?;
        return;
      }
      PeekStep(env, body.chunks, read, s);
      StopsAtLimit(s, Feed(env, s, body.chunks[read]));
      buffer, inspected, text, kept, stop, s :=
        InspectChunk(env, body.chunks[read], buffer, inspected, text, kept, s.seen);
      read := read + 1;
    }
  }

  /**
   * The peek. It reads up to the first reason to stop and looks at no more than
   * the byte limit. Unless it reports something, the replay is the original body.
   */
  method Peek(env: Env, body: Body) returns (r: Result, read: nat, inspected: nat)
    ensures read <= |body.chunks| && inspected <= PEEK_BYTES
    ensures ReadsUntil(env, body.chunks, read)
    ensures r == if read == |body.chunks| && body.ending.AbortedOrTimedOut? &&
              (read == 0 || Goes(env, body.chunks, read)) then Threw
                 else Verdict(After(env, body.chunks[..read]).seen, body)
  {
    var threw, text, kept;
    ghost var s;
    threw, read, inspected, text, kept, s := ReadHead(env, body);
    hide Strongest, Accumulated, After, Goes, Lower, Feed, Stops, ReadsUntil;
    if threw {
      return Threw, read, inspected;
    }
    if !(kept.Some? && kept.value.Problem? && kept.value.severity.Context?) && text != "" &&
        Lower(text) == Lower(OVERLOADED_MESSAGE) {
      return OverloadedOutput, read, inspected;
    }
    if kept.Some? {
      return Reported(kept.value), read, inspected;
    }
    var out := ReplayBody(body.chunks[..read], Body(body.chunks[read..], body.ending));
    assert body.chunks[..read] + body.chunks[read..] == body.chunks;
    r := Replay(out);
  }

  lemma StopsAtLimit(before: State, s: State)
    requires |before.seen| <= |s.seen|
    ensures s.inspected >= PEEK_BYTES ==> Stops(before, s)
  {
  }

  lemma AtStart(env: Env, chunks: seq<string>)
    ensures AllGo(env, chunks, 0) && After(env, chunks[..0]) == State("", 0, []) && Accumulated([]) == "" &&
              Strongest([]) == None
  {
  }

  // One more chunk: the state after it, and whether reading goes on.
  lemma PeekStep(env: Env, chunks: seq<string>, read: nat, s: State)
    requires read < |chunks| && s == After(env, chunks[..read])
    ensures After(env, chunks[..read + 1]) == Feed(env, s, chunks[read])
    ensures |s.seen| <= |Feed(env, s, chunks[read]).seen|
    ensures Goes(env, chunks, read + 1) <==> !Stops(s, Feed(env, s, chunks[read]))
    ensures AllGo(env, chunks, read) && (read > 0 ==> Goes(env, chunks, read)) ==> AllGo(env, chunks, read + 1)
  {
    AfterGrows(env, chunks, read + 1);
  }

  lemma BatchOutput(before: seq<Classified>, more: seq<Classified>)
    ensures (exists i :: 0 <= i < |more| && OtherOutput(more[i])) <==>
            exists i :: |before| <= i < |before + more| && OtherOutput((before + more)[i])
  {
    if exists i :: 0 <= i < |more| && OtherOutput(more[i]) {
      var i :| 0 <= i < |more| && OtherOutput(more[i]);
      assert (before + more)[|before| + i] == more[i];
    }
  }
}
