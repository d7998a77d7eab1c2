// What the peek reports, in terms of the frames it read and the patterns they mention.
module PeekMeaning {
  import opened Options
  import opened RetryPolicy
  import opened CodexPeek

  // ---------- Frames ----------

  ghost predicate MentionsOne(f: FrameInfo, patterns: seq<string>) {
    exists p :: p in patterns && Mentions(f.values, p)
  }

  /** A frame that says something went wrong, by its event, its name or an error object. */
  predicate ExplicitError(f: FrameInfo) {
    !f.userOutput && (f.failureEvent || f.namedError || f.errorObjects)
  }

  ghost predicate ContextFailure(f: FrameInfo) {
    !f.userOutput && (f.failureEvent || f.errorObjects) && MentionsOne(f, PatternsOf(Context))
  }

  ghost predicate AccountFailure(f: FrameInfo) {
    ExplicitError(f) && !ContextFailure(f) && MentionsOne(f, PatternsOf(Account))
  }

  ghost predicate RetryFailure(f: FrameInfo) {
    ExplicitError(f) && !ContextFailure(f) && !AccountFailure(f) && MentionsOne(f, PatternsOf(Overload))
  }

  ghost predicate Fails(f: FrameInfo, s: Severity) {
    match s
    case Context => ContextFailure(f)
    case Account => AccountFailure(f)
    case Overload => RetryFailure(f)
  }

  function PatternsOf(s: Severity): seq<string> {
    match s
    case Context => ["exceeds the context window", "maximum context length", "context_length_exceeded"]
    case Account => ["selected model is at capacity", "model_at_capacity"]
    case Overload => ["server_is_overloaded", "service_unavailable_error"]
  }

  lemma PatternsAre()
    ensures CONTEXT_PATTERNS == PatternsOf(Context) && ACCOUNT_PATTERNS == PatternsOf(Account)
    ensures RETRY_PATTERNS == PatternsOf(Overload)
  {
  }

  /** The pattern reported for a frame: the first of its list that the frame mentions. */
  ghost predicate Names(f: FrameInfo, s: Severity, pattern: string) {
    exists i :: 0 <= i < |PatternsOf(s)| && PatternsOf(s)[i] == pattern && FirstMentioned(f.values, PatternsOf(s), i)
  }

  lemma FrameMeaning(f: FrameInfo)
    ensures Classify(f).Output? <==> f.userOutput
    ensures Classify(f).Output? ==> Classify(f).delta == f.delta
    ensures forall s :: Fails(f, s) <==> Classify(f).Problem? && Classify(f).severity == s
    ensures Classify(f).Problem? ==>
              Classify(f).message == f.message && Names(f, Classify(f).severity, Classify(f).matched)
  {
    hide Mentions;
    FoundIff(f, Context);
    FoundIff(f, Account);
    FoundIff(f, Overload);
    PatternsAre();
    hide FirstPattern, MentionsOne, CONTEXT_PATTERNS, ACCOUNT_PATTERNS, RETRY_PATTERNS, PatternsOf, Names;
  }

  lemma FoundIff(f: FrameInfo, s: Severity)
    ensures FirstPattern(f.values, PatternsOf(s)).Some? <==> MentionsOne(f, PatternsOf(s))
    ensures FirstPattern(f.values, PatternsOf(s)).Some? ==> Names(f, s, FirstPattern(f.values, PatternsOf(s)).value)
  {
    hide Mentions;
    var patterns := PatternsOf(s);
    hide PatternsOf;
    if FirstPattern(f.values, patterns).Some? {
      var i :| 0 <= i < |patterns| && patterns[i] == FirstPattern(f.values, patterns).value &&
               FirstMentioned(f.values, patterns, i);
      assert patterns[i] in patterns;
    }
  }

  // ---------- All frames read ----------

  /** Reading pieces of at most 256 KiB in all: the frames so far, the unfinished rest and the bytes looked at. */
  datatype Reading = Reading(frames: seq<FrameInfo>, rest: string, bytes: nat)

  function Parse(env: Env, frames: seq<string>): seq<FrameInfo> {
    seq(|frames|, i requires 0 <= i < |frames| => env.parse(frames[i]))
  }

  function Read(env: Env, chunks: seq<string>): (r: Reading)
    ensures r.bytes <= 256 * 1024
  {
    if chunks == [] then Reading([], "", 0)
    else
      var before, chunk := Read(env, chunks[..|chunks| - 1]), chunks[|chunks| - 1];
      var left := 256 * 1024 - before.bytes;
      var piece := if |chunk| <= left then chunk else chunk[..left];
      var batch := env.split(before.rest + piece);
      Reading(before.frames + Parse(env, batch.0), batch.1, before.bytes + |piece|)
  }

  function ClassifyFrames(frames: seq<FrameInfo>): seq<Classified> {
    seq(|frames|, i requires 0 <= i < |frames| => Classify(frames[i]))
  }

  lemma {:induction false} ReadIs(env: Env, chunks: seq<string>)
    ensures var s, r := After(env, chunks), Read(env, chunks);
            s.buffer == r.rest && s.inspected == r.bytes && s.seen == ClassifyFrames(r.frames)
  {
    hide Classify;
    if chunks != [] {
      ReadIs(env, chunks[..|chunks| - 1]);
    }
  }

  /** The text of the output deltas. */
  function Text(frames: seq<FrameInfo>): string {
    if frames == [] then ""
    else
      var last := frames[|frames| - 1];
      Text(frames[..|frames| - 1]) + if last.userOutput && last.delta.Some? then last.delta.value else ""
  }

  lemma {:induction false} TextIs(frames: seq<FrameInfo>)
    ensures Accumulated(ClassifyFrames(frames)) == Text(frames)
  {
    if frames != [] {
      var n := |frames| - 1;
      TextIs(frames[..n]);
      assert ClassifyFrames(frames)[..n] == ClassifyFrames(frames[..n]);
      FrameMeaning(frames[n]);
      hide Classify, Fails, Names;
    }
  }

  /** Frame `i` decides for severity `s`: no frame is worse, and no later one is as bad. */
  ghost predicate Worst(frames: seq<FrameInfo>, i: int, s: Severity) {
    && 0 <= i < |frames| && Fails(frames[i], s)
    && (forall k :: 0 <= k < |frames| && Fails(frames[k], Context) ==> s.Context?)
    && (forall k :: 0 <= k < |frames| && Fails(frames[k], Account) ==> !s.Overload?)
    && (forall k :: i < k < |frames| ==> !Fails(frames[k], s))
  }

  /** The streamed text is the overload message itself, letter case aside, and no context failure was seen. */
  ghost predicate SaysOverloaded(frames: seq<FrameInfo>) {
    && Text(frames) != ""
    && Lower(Text(frames)) == Lower("Our servers are currently overloaded. Please try again later.")
    && forall k :: 0 <= k < |frames| ==> !Fails(frames[k], Context)
  }

  /** What is kept of all frames, if anything: the verdict on the frame that decides. */
  ghost predicate Reports(frames: seq<FrameInfo>, problem: Classified) {
    && problem.Problem?
    && exists i :: Worst(frames, i, problem.severity) && problem.message == frames[i].message &&
                   Names(frames[i], problem.severity, problem.matched)
  }

  ghost predicate NothingFails(frames: seq<FrameInfo>) {
    forall i, s :: 0 <= i < |frames| ==> !Fails(frames[i], s)
  }

  lemma StrongestMeaning(frames: seq<FrameInfo>)
    ensures Strongest(ClassifyFrames(frames)).None? <==> NothingFails(frames)
    ensures Strongest(ClassifyFrames(frames)).Some? ==> Reports(frames, Strongest(ClassifyFrames(frames)).value)
  {
    hide Classify, Fails, Names, Strongest, Worst;
    var seen := ClassifyFrames(frames);
    StrongestIs(seen);
    forall i | 0 <= i < |frames| ensures Verdicts(frames[i], seen[i]) {
      FrameMeaning(frames[i]);
    }
    if Strongest(seen).Some? {
      var i: nat :| StrongestAt(seen, i) && Strongest(seen) == Some(seen[i]);
      WorstIs(frames, seen, i);
      assert Fails(frames[i], seen[i].severity);
    }
  }

  ghost predicate Verdicts(f: FrameInfo, c: Classified) {
    && (forall s :: Fails(f, s) <==> c.Problem? && c.severity == s)
    && (c.Problem? ==> c.message == f.message && Names(f, c.severity, c.matched))
  }

  lemma WorstIs(frames: seq<FrameInfo>, seen: seq<Classified>, i: nat)
    requires |seen| == |frames| && forall k :: 0 <= k < |frames| ==> Verdicts(frames[k], seen[k])
    requires StrongestAt(seen, i)
    ensures Worst(frames, i, seen[i].severity) && Verdicts(frames[i], seen[i])
  {
    hide Fails, Names;
  }

  lemma OverloadMeaning(frames: seq<FrameInfo>)
    ensures IsOverload(ClassifyFrames(frames)) <==> SaysOverloaded(frames)
  {
    TextIs(frames);
    StrongestMeaning(frames);
    hide Fails, Names, Strongest, Classify, ClassifyFrames, Accumulated, Text, Lower;
  }

  // ---------- The result ----------

  /**
   * What the peek reports of the frames read. A context failure beats everything; then the overload message as
   * the whole text; then an account failure, then an overload failure; a stream with none of them is replayed.
   */
  ghost predicate Right(frames: seq<FrameInfo>, body: Body, r: Result) {
    && (r == OverloadedOutput <==> SaysOverloaded(frames))
    && (r.Reported? <==> !SaysOverloaded(frames) && !NothingFails(frames))
    && (r.Reported? ==> Reports(frames, r.problem))
    && (r.Replay? <==> !SaysOverloaded(frames) && NothingFails(frames))
    && (r.Replay? ==> r.body == body)
  }

  lemma VerdictMeaning(env: Env, chunks: seq<string>, body: Body)
    ensures Right(Read(env, chunks).frames, body, Verdict(After(env, chunks).seen, body))
  {
    ReadIs(env, chunks);
    OverloadMeaning(Read(env, chunks).frames);
    StrongestMeaning(Read(env, chunks).frames);
    hide Read, After, SaysOverloaded, NothingFails, Reports, Strongest, IsOverload, ClassifyFrames;
  }

  /** Severity by severity: what has to be among the frames for each report. */
  lemma ReportIff(frames: seq<FrameInfo>, body: Body, r: Result)
    requires Right(frames, body, r) && !SaysOverloaded(frames)
    ensures r.Reported? && r.problem.Problem? && r.problem.severity.Context? <==>
            exists i :: 0 <= i < |frames| && ContextFailure(frames[i])
    ensures r.Reported? && r.problem.Problem? && r.problem.severity.Account? <==>
            (forall i :: 0 <= i < |frames| ==> !ContextFailure(frames[i])) &&
            exists i :: 0 <= i < |frames| && ExplicitError(frames[i]) && MentionsOne(frames[i], PatternsOf(Account))
    ensures r.Reported? && r.problem.Problem? && r.problem.severity.Overload? <==>
            (forall i :: 0 <= i < |frames| ==> !ContextFailure(frames[i])) &&
            (forall i :: 0 <= i < |frames| ==>
               !(ExplicitError(frames[i]) && MentionsOne(frames[i], PatternsOf(Account)))) &&
            exists i :: 0 <= i < |frames| && ExplicitError(frames[i]) && MentionsOne(frames[i], PatternsOf(Overload))
  {
    hide ContextFailure, MentionsOne, ExplicitError, Names, SaysOverloaded;
    if r.Reported? {
      var i :| Worst(frames, i, r.problem.severity);
      assert Fails(frames[i], r.problem.severity);
    }
    forall i | 0 <= i < |frames| && ContextFailure(frames[i]) ensures Fails(frames[i], Context) {
    }
    forall i | 0 <= i < |frames| && AccountFailure(frames[i]) ensures Fails(frames[i], Account) {
    }
    forall i | 0 <= i < |frames| && RetryFailure(frames[i]) ensures Fails(frames[i], Overload) {
    }
  }

  /** Why reading stops after a chunk. */
  ghost predicate StopsAfter(before: Reading, now: Reading) {
    || !NothingFails(now.frames)
    || (exists i :: |before.frames| <= i < |now.frames| && now.frames[i].userOutput && now.frames[i].delta.None?)
    || (Text(now.frames) != "" && !(Lower(Text(now.frames)) <= Lower(OVERLOADED_MESSAGE)))
    || now.bytes >= 256 * 1024
  }

  /** Reading goes on after chunk `k` exactly when nothing was found and the text can still be the overload message. */
  lemma GoesMeaning(env: Env, chunks: seq<string>, k: nat)
    requires 0 < k <= |chunks|
    ensures Goes(env, chunks, k) <==> !StopsAfter(Read(env, chunks[..k - 1]), Read(env, chunks[..k]))
  {
    hide After, Read, NothingFails, Reports, Strongest, Lower, Classify, Text, Accumulated;
    var before, now := Read(env, chunks[..k - 1]), Read(env, chunks[..k]);
    ReadIs(env, chunks[..k - 1]);
    ReadIs(env, chunks[..k]);
    AfterGrows(env, chunks, k);
    TextIs(now.frames);
    StrongestMeaning(now.frames);
    OtherOutputIs(now.frames);
  }

  lemma OtherOutputIs(frames: seq<FrameInfo>)
    ensures forall i :: 0 <= i < |frames| ==>
              (OtherOutput(ClassifyFrames(frames)[i]) <==> frames[i].userOutput && frames[i].delta.None?)
  {
    hide Classify, Fails, Names;
    forall i | 0 <= i < |frames|
      ensures OtherOutput(ClassifyFrames(frames)[i]) <==> frames[i].userOutput && frames[i].delta.None?
    {
      FrameMeaning(frames[i]);
    }
  }
}
