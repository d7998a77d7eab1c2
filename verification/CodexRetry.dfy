// The outer retry loop of the Codex executor around the shared engine.
module CodexRetry {
  import opened RetryPolicy
  import opened RetryEngine

  /** What inspecting the head of a returned stream says. */
  datatype Peek = NoMatch | ContextOverflow | AccountFallback | Overloaded | PeekThrows

  const SERVICE_UNAVAILABLE := 503

  function OuterAttempts(p: Policy): int {
    if SERVICE_UNAVAILABLE in p.baseRetry then p.baseRetry[SERVICE_UNAVAILABLE] else 0
  }

  /** The upstream, the caller's aborts and the stream heads, call by call. */
  datatype World = World(
    upstream: nat -> Upstream,
    aborted: nat -> nat -> bool,
    abortedBetween: nat -> bool,
    waitAborts: nat -> bool,
    invalidEncrypted: nat -> bool,
    peek: nat -> Peek
  )

  /** What the caller gets: a call's own response, an error standing in for it, or an exception. */
  datatype Reply = Original(call: nat) | TooLarge(call: nat) | Unavailable(call: nat) | Thrown

  /** One engine call: whether it returned a response, and the counters it started with. */
  datatype Call = Call(returned: bool, recovered: bool, attempt: nat)

  /** The one-shot recovery from unverifiable encrypted reasoning. */
  predicate Recovers(w: World, i: nat, c: Call) {
    c.returned && !c.recovered && w.invalidEncrypted(i)
  }

  /** An overloaded stream is asked for again while attempts are left. */
  predicate AsksAgain(p: Policy, w: World, i: nat, c: Call) {
    c.returned && !Recovers(w, i, c) && w.peek(i).Overloaded? && c.attempt < OuterAttempts(p)
  }

  predicate GoesOn(p: Policy, w: World, i: nat, c: Call) {
    Recovers(w, i, c) || (AsksAgain(p, w, i, c) && !w.waitAborts(i))
  }

  predicate Follows(p: Policy, w: World, i: nat, c: Call, d: Call) {
    && GoesOn(p, w, i, c)
    && d.recovered == (c.recovered || Recovers(w, i, c))
    && d.attempt == c.attempt + if AsksAgain(p, w, i, c) then 1 else 0
  }

  /** The calls so far: the first one fresh, each other one asked for by its predecessor. */
  ghost predicate RightCalls(p: Policy, w: World, log: seq<Call>) {
    && (log != [] ==> !log[0].recovered && log[0].attempt == 0)
    && (forall i, j :: 0 <= i && j == i + 1 && j < |log| ==> Follows(p, w, i, log[i], log[j]))
    && (forall i :: 0 <= i < |log| ==> !w.abortedBetween(i))
  }

  /** The reply to the last call, when that call was the end of it. */
  function ReplyTo(p: Policy, w: World, i: nat, c: Call): Reply {
    if !c.returned then Thrown
    else match w.peek(i)
      case NoMatch => Original(i)
      case ContextOverflow => TooLarge(i)
      case AccountFallback => Unavailable(i)
      case Overloaded => if c.attempt < OuterAttempts(p) then Thrown else Unavailable(i)
      case PeekThrows => Thrown
  }

  ghost predicate RightReply(p: Policy, w: World, log: seq<Call>, reply: Reply) {
    if log != [] && !GoesOn(p, w, |log| - 1, log[|log| - 1]) then reply == ReplyTo(p, w, |log| - 1, log[|log| - 1])
    else reply == Thrown && w.abortedBetween(|log|)
  }

  predicate Settles(w: World, i: nat, c: Call) {
    c.returned && !Recovers(w, i, c) && !w.peek(i).NoMatch?
  }

  /** The responses this loop settles: all it does not pass on, except those given up for recovery. */
  function SettledCalls(w: World, log: seq<Call>): seq<nat> {
    if log == [] then []
    else
      var i := |log| - 1;
      SettledCalls(w, log[..i]) + if Settles(w, i, log[i]) then [i] else []
  }

  /** Everything an engine call returned. */
  datatype EngineRun = EngineRun(result: Result, trace: seq<Event>, dispatches: nat, passes: seq<nat>, log: seq<Pass>)

  /** The record of a call is that of a real run of the engine against the call's own upstream. */
  ghost predicate RealRun(p: Policy, w: World, i: nat, c: Call, run: EngineRun) {
    && Sound(p, w.upstream(i), w.aborted(i), run.result, run.trace, run.dispatches, run.passes, run.log)
    && c.returned == run.result.Returned?
  }

  ghost predicate RealRuns(p: Policy, w: World, log: seq<Call>, runs: seq<EngineRun>) {
    |runs| == |log| && forall i :: 0 <= i < |log| ==> RealRun(p, w, i, log[i], runs[i])
  }

  function Sent(runs: seq<EngineRun>): nat {
    if runs == [] then 0 else Sent(runs[..|runs| - 1]) + runs[|runs| - 1].dispatches
  }

  /** The most dispatches one engine call can make. */
  ghost function MostPerCall(p: Policy): nat {
    2 * (p.fallbackCount * (1 + MaxAttempts(p)))
  }

  lemma RunBound(p: Policy, w: World, i: nat, c: Call, run: EngineRun)
    requires RealRun(p, w, i, c, run)
    ensures run.dispatches <= MostPerCall(p)
  {
    hide RightLog, Ends, Tallied, RunTrace, PassesBounded, MaxAttempts;
  }

  lemma {:induction false} SentBound(p: Policy, w: World, log: seq<Call>, runs: seq<EngineRun>)
    requires RealRuns(p, w, log, runs)
    ensures Sent(runs) <= |runs| * MostPerCall(p)
  {
    hide RealRun, MostPerCall;
    if runs != [] {
      var n := |runs| - 1;
      RunBound(p, w, n, log[n], runs[n]);
      SentBound(p, w, log[..n], runs[..n]);
      assert |runs| * MostPerCall(p) == n * MostPerCall(p) + MostPerCall(p);
    }
  }

  lemma OneMoreRun(p: Policy, w: World, log: seq<Call>, runs: seq<EngineRun>, c: Call, run: EngineRun)
    requires RealRuns(p, w, log, runs) && RealRun(p, w, |log|, c, run)
    ensures RealRuns(p, w, log + [c], runs + [run]) && Sent(runs + [run]) == Sent(runs) + run.dispatches
  {
    hide RealRun;
    assert (runs + [run])[..|runs|] == runs;
  }

  /** Everything the outer loop guarantees when it ends. */
  ghost predicate OuterSound(p: Policy, w: World, reply: Reply, dispatches: nat, log: seq<Call>, runs: seq<EngineRun>,
                             settled: seq<nat>)
  {
    && RightCalls(p, w, log) && RightReply(p, w, log, reply)
    && RealRuns(p, w, log, runs) && dispatches == Sent(runs)
    && settled == SettledCalls(w, log)
    && |log| <= Max(0, OuterAttempts(p)) + 2
    && dispatches <= (Max(0, OuterAttempts(p)) + 2) * MostPerCall(p)
  }

  /** The calls so far, and where the loop stands after them. */
  ghost predicate Sofar(p: Policy, w: World, dispatches: nat, log: seq<Call>, runs: seq<EngineRun>, settled: seq<nat>,
                        recovered: bool, attempt: nat)
  {
    && RightCalls(p, w, log) && AtCall(p, w, log, recovered, attempt)
    && RealRuns(p, w, log, runs) && dispatches == Sent(runs)
    && settled == SettledCalls(w, log)
    && |log| == attempt + (if recovered then 1 else 0)
  }

  lemma CountStep(p: Policy, w: World, i: nat, c: Call)
    requires GoesOn(p, w, i, c)
    ensures var recovered := c.recovered || Recovers(w, i, c);
            var attempt := if AsksAgain(p, w, i, c) then c.attempt + 1 else c.attempt;
            attempt + (if recovered then 1 else 0) == c.attempt + (if c.recovered then 1 else 0) + 1
  {
  }

  lemma LastReply(p: Policy, w: World, log: seq<Call>, c: Call)
    requires !GoesOn(p, w, |log|, c)
    ensures RightReply(p, w, log + [c], ReplyTo(p, w, |log|, c))
  {
    hide GoesOn, ReplyTo;
    assert (log + [c])[|log|] == c;
  }

  /** A call that asks for another one. */
  lemma CallGoesOn(p: Policy, w: World, dispatches: nat, log: seq<Call>, runs: seq<EngineRun>, settled: seq<nat>,
                   c: Call,
                   run: EngineRun)
    requires Sofar(p, w, dispatches, log, runs, settled, c.recovered, c.attempt)
    requires !w.abortedBetween(|log|) && RealRun(p, w, |log|, c, run) && GoesOn(p, w, |log|, c)
    ensures var recovered := c.recovered || Recovers(w, |log|, c);
            var attempt := if AsksAgain(p, w, |log|, c) then c.attempt + 1 else c.attempt;
            Sofar(p, w, dispatches + run.dispatches, log + [c], runs + [run],
                  settled + (if Settles(w, |log|, c) then [|log|] else []), recovered, attempt)
  {
    hide RightCalls, AtCall, SettledCalls, RealRuns, RealRun, Sent, MostPerCall, GoesOn, Recovers, AsksAgain;
    OneMoreCall(p, w, log, c);
    OneMoreRun(p, w, log, runs, c, run);
    CountStep(p, w, |log|, c);
  }

  /** A call that ends the loop. */
  lemma CallEnds(p: Policy, w: World, dispatches: nat, log: seq<Call>, runs: seq<EngineRun>, settled: seq<nat>, c: Call,
                 run: EngineRun)
    requires Sofar(p, w, dispatches, log, runs, settled, c.recovered, c.attempt)
    requires !w.abortedBetween(|log|) && RealRun(p, w, |log|, c, run) && !GoesOn(p, w, |log|, c)
    requires c.attempt <= Max(0, OuterAttempts(p))
    ensures OuterSound(p, w, ReplyTo(p, w, |log|, c), dispatches + run.dispatches, log + [c], runs + [run],
                       settled + (if Settles(w, |log|, c) then [|log|] else []))
  {
    hide RightCalls, AtCall, SettledCalls, RealRuns, RealRun, Sent, MostPerCall, GoesOn, Recovers, AsksAgain, ReplyTo;
    hide RightReply;
    OneMoreCall(p, w, log, c);
    OneMoreRun(p, w, log, runs, c, run);
    LastReply(p, w, log, c);
    Bounded(p, w, log + [c], runs + [run], Max(0, OuterAttempts(p)) + 2);
  }

  lemma CallAborted(p: Policy, w: World, dispatches: nat, log: seq<Call>, runs: seq<EngineRun>, settled: seq<nat>,
                    recovered: bool, attempt: nat)
    requires Sofar(p, w, dispatches, log, runs, settled, recovered, attempt)
    requires w.abortedBetween(|log|) && attempt <= Max(0, OuterAttempts(p))
    ensures OuterSound(p, w, Thrown, dispatches, log, runs, settled)
  {
    hide RightCalls, AtCall, SettledCalls, RealRuns, RealRun, Sent, MostPerCall, RightReply;
    AbortedBetween(p, w, log, recovered, attempt);
    Bounded(p, w, log, runs, Max(0, OuterAttempts(p)) + 2);
  }

  /**
   * Calls the engine again for an overloaded stream, at most the 503 entry's
   * attempts, and once more after stripping unverifiable encrypted reasoning.
   */
  method Execute(p: Policy, w: World)
    returns (reply: Reply, dispatches: nat, log: seq<Call>, runs: seq<EngineRun>, settled: seq<nat>)
    requires ValidPolicy(p)
    ensures OuterSound(p, w, reply, dispatches, log, runs, settled)
  {
    dispatches, log, runs, settled := 0, [], [], [];
    var attempts := OuterAttempts(p);
    var attempt := 0;
    var encryptedRecoveryAttempted := false;
    hide OuterSound, RealRun;
    while true
      invariant 0 <= attempt <= Max(0, attempts)
      invariant Sofar(p, w, dispatches, log, runs, settled, encryptedRecoveryAttempted, attempt)
      decreases Max(0, attempts) - attempt, !encryptedRecoveryAttempted
    {
      hide Sofar;
      var call := |log|;
      if w.abortedBetween(call) {
        reply := Thrown;
        CallAborted(p, w, dispatches, log, runs, settled, encryptedRecoveryAttempted, attempt);
        return;
      }
      var run := Engine(p, w, call, encryptedRecoveryAttempted, attempt);
      var made := Call(run.result.Returned?, encryptedRecoveryAttempted, attempt);
      var decision := Decide(p, w, call, made);
      if GoesOn(p, w, call, made) {
        CallGoesOn(p, w, dispatches, log, runs, settled, made, run);
      } else {
        CallEnds(p, w, dispatches, log, runs, settled, made, run);
      }
      dispatches, log, runs := dispatches + run.dispatches, log + [made], runs + [run];
      settled := settled + if decision.settle then [call] else [];
      match decision.next {
        case Answer(r) =>
          reply := r;
          return;
        case Recover => encryptedRecoveryAttempted := true;
        case Repeat => attempt := attempt + 1;
      }
    }
  }

  datatype Next = Answer(reply: Reply) | Recover | Repeat

  datatype Decision = Decision(next: Next, settle: bool)

  /** What the loop body does with one engine result: whether to settle the response, and how to go on. */
  method Decide(p: Policy, w: World, call: nat, made: Call) returns (d: Decision)
    ensures d.settle == Settles(w, call, made)
    ensures d.next == if Recovers(w, call, made) then Recover
                      else if GoesOn(p, w, call, made) then Repeat
                      else Answer(ReplyTo(p, w, call, made))
    ensures d.next.Recover? ==> !made.recovered && !AsksAgain(p, w, call, made)
    ensures d.next.Repeat? ==> AsksAgain(p, w, call, made) && made.attempt < OuterAttempts(p)
  {
    if !made.returned {
      return Decision(Answer(Thrown), false);
    }
    if !made.recovered && w.invalidEncrypted(call) {
      return Decision(Recover, false);
    }
    match w.peek(call) {
      case NoMatch => d := Decision(Answer(Original(call)), false);
      case PeekThrows => d := Decision(Answer(Thrown), true);
      case ContextOverflow => d := Decision(Answer(TooLarge(call)), true);
      case AccountFallback => d := Decision(Answer(Unavailable(call)), true);
      case Overloaded =>
        if made.attempt >= OuterAttempts(p) {
          d := Decision(Answer(Unavailable(call)), true);
        } else {
          d := Decision(if w.waitAborts(call) then Answer(Thrown) else Repeat, true);
        }
    }
  }

  method Engine(p: Policy, w: World, call: nat, ghost recovered: bool, ghost attempt: nat) returns (run: EngineRun)
    requires ValidPolicy(p)
    ensures !run.result.FellThrough?
    ensures RealRun(p, w, call, Call(run.result.Returned?, recovered, attempt), run)
  {
    hide RightLog, Ends, Tallied, RunTrace, PassesBounded, MaxAttempts;
    var result, trace, dispatches, passes, log := RetryEngine.Execute(p, w.upstream(call), w.aborted(call));
    run := EngineRun(result, trace, dispatches, passes, log);
  }

  lemma Bounded(p: Policy, w: World, log: seq<Call>, runs: seq<EngineRun>, calls: nat)
    requires RealRuns(p, w, log, runs) && |log| <= calls
    ensures Sent(runs) <= calls * MostPerCall(p)
  {
    SentBound(p, w, log, runs);
    hide *;
    Scale(|runs|, calls, MostPerCall(p));
  }

  /** Where the loop stands after the calls in `log`. */
  ghost predicate AtCall(p: Policy, w: World, log: seq<Call>, recovered: bool, attempt: nat) {
    if log == [] then !recovered && attempt == 0
    else forall returned :: Follows(p, w, |log| - 1, log[|log| - 1], Call(returned, recovered, attempt))
  }

  lemma OneMoreCall(p: Policy, w: World, log: seq<Call>, c: Call)
    requires RightCalls(p, w, log) && AtCall(p, w, log, c.recovered, c.attempt) && !w.abortedBetween(|log|)
    ensures var log' := log + [c];
            RightCalls(p, w, log') &&
            SettledCalls(w, log') == SettledCalls(w, log) +
              (if Settles(w, |log|, c) then [|log|] else []) &&
            (GoesOn(p, w, |log|, c) ==>
               AtCall(p, w, log', c.recovered || Recovers(w, |log|, c),
                      c.attempt + if AsksAgain(p, w, |log|, c) then 1 else 0))
  {
    assert (log + [c])[..|log|] == log;
    if log != [] {
      assert Follows(p, w, |log| - 1, log[|log| - 1], Call(c.returned, c.recovered, c.attempt));
    }
  }

  lemma AbortedBetween(p: Policy, w: World, log: seq<Call>, recovered: bool, attempt: nat)
    requires AtCall(p, w, log, recovered, attempt) && w.abortedBetween(|log|)
    ensures RightReply(p, w, log, Thrown)
  {
    if log != [] {
      assert Follows(p, w, |log| - 1, log[|log| - 1], Call(true, recovered, attempt));
    }
  }

  lemma Scale(a: nat, b: nat, most: nat)
    requires a <= b
    ensures a * most <= b * most
  {
  }

  // ---------- Nothing is left open ----------

  lemma CallIsDetermined(p: Policy, w: World, i: nat, a: Call, b: Call, r: EngineRun, s: EngineRun)
    requires RealRun(p, w, i, a, r) && RealRun(p, w, i, b, s)
    requires a.recovered == b.recovered && a.attempt == b.attempt
    ensures a == b && r == s
  {
    RunIsDetermined(p, w.upstream(i), w.aborted(i), r.result, r.trace, r.dispatches, r.passes, r.log,
                    s.result, s.trace, s.dispatches, s.passes, s.log);
    hide Sound;
  }

  lemma {:induction false} CallsAgree(p: Policy, w: World, a: seq<Call>, b: seq<Call>, runs: seq<EngineRun>,
                                      others: seq<EngineRun>, i: nat)
    requires RightCalls(p, w, a) && RightCalls(p, w, b) && RealRuns(p, w, a, runs) && RealRuns(p, w, b, others)
    requires i < |a| && i < |b|
    ensures a[i] == b[i] && runs[i] == others[i]
  {
    hide RealRun, GoesOn, Recovers, AsksAgain;
    if i > 0 {
      CallsAgree(p, w, a, b, runs, others, i - 1);
      assert Follows(p, w, i - 1, a[i - 1], a[i]) && Follows(p, w, i - 1, b[i - 1], b[i]);
    }
    CallIsDetermined(p, w, i, a[i], b[i], runs[i], others[i]);
  }

  lemma NextCall(p: Policy, w: World, log: seq<Call>, i: nat)
    requires RightCalls(p, w, log) && 0 < i < |log|
    ensures Follows(p, w, i - 1, log[i - 1], log[i])
  {
  }

  // A record that has ended is not continued by another one.
  lemma NoFurtherCall(p: Policy, w: World, a: seq<Call>, b: seq<Call>, runs: seq<EngineRun>, others: seq<EngineRun>,
                      reply: Reply)
    requires RightCalls(p, w, a) && RightCalls(p, w, b) && RealRuns(p, w, a, runs) && RealRuns(p, w, b, others)
    requires RightReply(p, w, a, reply)
    ensures |b| <= |a|
  {
    hide RealRuns, GoesOn;
    if |a| < |b| && a != [] {
      NextCall(p, w, b, |a|);
      CallsAgree(p, w, a, b, runs, others, |a| - 1);
    }
  }

  lemma CallsAreDetermined(p: Policy, w: World, a: seq<Call>, b: seq<Call>, runs: seq<EngineRun>,
                           others: seq<EngineRun>, r1: Reply, r2: Reply)
    requires RightCalls(p, w, a) && RightCalls(p, w, b) && RealRuns(p, w, a, runs) && RealRuns(p, w, b, others)
    requires RightReply(p, w, a, r1) && RightReply(p, w, b, r2)
    ensures a == b && runs == others
  {
    hide RightCalls, RightReply, RealRun;
    NoFurtherCall(p, w, a, b, runs, others, r1);
    NoFurtherCall(p, w, b, a, others, runs, r2);
    forall i | 0 <= i < |a| ensures a[i] == b[i] && runs[i] == others[i] {
      CallsAgree(p, w, a, b, runs, others, i);
    }
  }

  lemma ReplyIsDetermined(p: Policy, w: World, log: seq<Call>, r1: Reply, r2: Reply)
    requires RightReply(p, w, log, r1) && RightReply(p, w, log, r2)
    ensures r1 == r2
  {
    hide GoesOn, ReplyTo;
  }

  /** The outer loop is determined as well: its calls, what they dispatched and settled, and the reply. */
  lemma OuterRunIsDetermined(p: Policy, w: World,
                             r1: Reply, d1: nat, log1: seq<Call>, runs1: seq<EngineRun>, settled1: seq<nat>,
                             r2: Reply, d2: nat, log2: seq<Call>, runs2: seq<EngineRun>, settled2: seq<nat>)
    requires OuterSound(p, w, r1, d1, log1, runs1, settled1) && OuterSound(p, w, r2, d2, log2, runs2, settled2)
    ensures r1 == r2 && d1 == d2 && log1 == log2 && runs1 == runs2 && settled1 == settled2
  {
    hide RightCalls, RightReply, RealRuns, MostPerCall, SettledCalls, Sent;
    CallsAreDetermined(p, w, log1, log2, runs1, runs2, r1, r2);
    ReplyIsDetermined(p, w, log1, r1, r2);
  }

  // ---------- What the outer loop answers, call by call ----------

  /** The caller's 503 entry, none counting as zero. */
  predicate AttemptLeft(p: Policy, attempt: nat) {
    503 in p.baseRetry && attempt < p.baseRetry[503]
  }

  /** The engine returned a response and the one-shot recovery does not claim it. */
  predicate Inspected(w: World, i: nat, c: Call) {
    c.returned && (c.recovered || !w.invalidEncrypted(i))
  }

  /**
   * The last call decides the reply: its own response when nothing is wrong, "too large" for a context
   * overflow, "unavailable" for an account problem or an overload without attempts left, else an exception.
   */
  lemma ReplyMeaning(p: Policy, w: World, reply: Reply, dispatches: nat, log: seq<Call>, runs: seq<EngineRun>,
                     settled: seq<nat>)
    requires OuterSound(p, w, reply, dispatches, log, runs, settled) && log != []
    ensures var last := |log| - 1;
            var seen, peek := Inspected(w, last, log[last]), w.peek(last);
            && (forall i :: reply == Original(i) <==> i == last && seen && peek.NoMatch?)
            && (forall i :: reply == TooLarge(i) <==> i == last && seen && peek.ContextOverflow?)
            && (forall i :: reply == Unavailable(i) <==>
                  i == last && seen &&
                  (peek.AccountFallback? || (peek.Overloaded? && !AttemptLeft(p, log[last].attempt))))
  {
    hide RightCalls, RealRuns, MostPerCall, SettledCalls, Sent;
  }

  /** A further call follows one whose reasoning is stripped once, or an overload with an attempt left. */
  lemma CallMeaning(p: Policy, w: World, log: seq<Call>, runs: seq<EngineRun>, i: nat)
    requires RightCalls(p, w, log) && RealRuns(p, w, log, runs) && i < |log|
    ensures log[i].returned <==> runs[i].result.Returned?
    ensures i == 0 ==> !log[i].recovered && log[i].attempt == 0
    ensures i > 0 ==>
              var c, d := log[i - 1], log[i];
              c.returned && !w.abortedBetween(i) &&
              if !c.recovered && w.invalidEncrypted(i - 1) then d.recovered && d.attempt == c.attempt
              else w.peek(i - 1).Overloaded? && AttemptLeft(p, c.attempt) && !w.waitAborts(i - 1) &&
                   d.recovered == c.recovered && d.attempt == c.attempt + 1
  {
    if i > 0 {
      NextCall(p, w, log, i);
    }
    assert RealRun(p, w, i, log[i], runs[i]);
    hide RealRuns, Sound, RightCalls;
  }

  /** The loop settles, each once and in order, the responses inspected and found wanting. */
  lemma {:induction false} SettledMeaning(w: World, log: seq<Call>)
    ensures forall i: nat :: i in SettledCalls(w, log) <==>
                             i < |log| && Inspected(w, i, log[i]) && !w.peek(i).NoMatch?
    ensures forall a, b :: 0 <= a < b < |SettledCalls(w, log)| ==> SettledCalls(w, log)[a] < SettledCalls(w, log)[b]
  {
    if log != [] {
      var n := |log| - 1;
      SettledMeaning(w, log[..n]);
      assert forall i :: 0 <= i < n ==> log[..n][i] == log[i];
      var front := SettledCalls(w, log[..n]);
      assert forall a :: 0 <= a < |front| ==> front[a] in front;
    }
  }
}
