// BaseExecutor.execute: the loop over fallback URLs with in-place retries,
// against an arbitrary upstream. The trace records every dispatch, every failure
// put to the rules, and every settlement of a discarded response.
module RetryEngine {
  import opened Options
  import opened RetryPolicy

  datatype ErrorKind = HeaderTimeout | CallerAbort | QuotaUnavailable | NetworkError

  /** An exception; `waitAborts` tells whether the caller aborts the delay before its retry. */
  datatype Raised = Raised(kind: ErrorKind, message: string, waitAborts: bool)

  // The bounded read of an error body for `contains` rules.
  datatype Probe = Text(text: string) | Unreadable | ProbeAborts

  // The subclass hook that computes the retry delay from the response.
  datatype Hook = Proceed | Veto | HookThrows(error: Raised)

  /** What the n-th dispatch of a run meets. The field flags matter for status 400 only. */
  datatype Outcome =
    | Responds(status: int, offendingField: bool, bodyRead: Option<Raised>, probe: Probe, hook: Hook, waitAborts: bool)
    | Rejects(error: Raised)

  type Upstream = nat -> Outcome

  datatype Event =
    | Dispatch(id: nat, url: nat, stripped: bool)
    | Judge(id: nat, failure: Failure)
    | Settle(id: nat)

  datatype Result = Returned(id: nat) | Threw | FellThrough

  datatype Verdict = Again | NextUrl | Finished(result: Result)

  const RATE_LIMITED := 429
  const BAD_GATEWAY := 502
  const BAD_REQUEST := 400

  // ---------- Reading a trace ----------

  function Settlements(t: seq<Event>, id: nat): nat {
    if t == [] then 0
    else Settlements(t[..|t| - 1], id) + if t[|t| - 1] == Settle(id) then 1 else 0
  }

  /** Events come in dispatch order, so a settlement precedes every later dispatch. */
  ghost predicate Ordered(t: seq<Event>) {
    forall a, b :: 0 <= a < b < |t| ==> t[a].id <= t[b].id
  }

  /** A response that is dropped because reading its error body threw. */
  predicate Unread(p: Policy, r: Outcome, stripped: bool) {
    && r.Responds?
    && if r.status == BAD_REQUEST && !stripped && (r.bodyRead.Some? || r.offendingField) then r.bodyRead.Some?
       else HasContainsRule(p) && r.status >= 400 && r.probe.ProbeAborts?
  }

  /** A response that the run discards on its status. */
  predicate Discarded(p: Policy, up: Upstream, e: Event, result: Result)
    requires e.Dispatch?
  {
    up(e.id).Responds? && result != Returned(e.id) && !Unread(p, up(e.id), e.stripped)
  }

  /** Discarded responses are settled exactly once, all others never. */
  ghost predicate SettledOnce(p: Policy, up: Upstream, t: seq<Event>, result: Result) {
    forall i :: 0 <= i < |t| && t[i].Dispatch? ==>
      Settlements(t, t[i].id) == if Discarded(p, up, t[i], result) then 1 else 0
  }

  /** A failure whose first matching rule says skip ends the run. */
  ghost predicate SkipIsLast(p: Policy, t: seq<Event>) {
    forall i :: 0 <= i < |t| - 1 && t[i].Judge? ==> !SkipMatched(p, t[i].failure)
  }

  ghost predicate IdsWithin(t: seq<Event>, lo: nat, hi: nat) {
    forall i :: 0 <= i < |t| ==> lo <= t[i].id < hi
  }

  lemma {:induction false} SettlementsAppend(a: seq<Event>, b: seq<Event>, id: nat)
    ensures Settlements(a + b, id) == Settlements(a, id) + Settlements(b, id)
  {
    if b == [] {
      assert a + b == a;
    } else {
      assert (a + b)[..|a + b| - 1] == a + b[..|b| - 1];
      SettlementsAppend(a, b[..|b| - 1], id);
    }
  }

  lemma SettlementsOfOne(e: Event, id: nat)
    ensures Settlements([e], id) == if e == Settle(id) then 1 else 0
  {
    assert [e][..0] == [];
  }

  lemma {:induction false} SettlementsOutside(t: seq<Event>, lo: nat, hi: nat, id: nat)
    requires IdsWithin(t, lo, hi) && !(lo <= id < hi)
    ensures Settlements(t, id) == 0
  {
    if t != [] {
      SettlementsOutside(t[..|t| - 1], lo, hi, id);
    }
  }

  // ---------- One pass over one URL ----------

  /** What one pass, from dispatch `k` up to but not including `next`, adds to the trace. */
  ghost predicate PassTrace(p: Policy, up: Upstream, t: seq<Event>, k: nat, next: nat, url: nat, v: Verdict) {
    && k < next <= k + 2
    && IdsWithin(t, k, next) && Ordered(t)
    && SettledOnce(p, up, t, if v.Finished? then v.result else FellThrough)
    && (SkipIsLast(p, t) && (t != [] && t[|t| - 1].Judge? && SkipMatched(p, t[|t| - 1].failure) ==> v.Finished?))
    && (forall i :: 0 <= i < |t| && t[i].Dispatch? ==> t[i].url == url && (t[i].stripped <==> t[i].id == k + 1))
    && t != [] && t[0] == Dispatch(k, url, false)
    && (next == k + 2 ==> |t| >= 3 && t[2] == Dispatch(k + 1, url, true))
    && (v.Finished? ==>
         !v.result.FellThrough? && (v.result.Returned? ==> v.result.id == next - 1 && up(next - 1).Responds?))
  }

  /** The retry decision of a failure, before any delay hook. */
  predicate MayRetry(p: Policy, f: Failure, count: nat) {
    ResolveAttempts(p, f) > 0 && count < ResolveAttempts(p, f)
  }

  /** Antigravity's capacity veto yields to an explicit retry rule; every other veto stands. */
  predicate VetoStands(p: Policy, f: Failure) {
    !(p.provider == "antigravity" && f.status == 503 && f.text.Some? && Includes(Lower(f.text.value), "capacity") &&
      RetryMatched(p, f))
  }

  // ---------- The decision after a dispatch, stated on its own ----------

  /** What the rules get to see of an exception. */
  function FailureOf(e: Raised): Failure {
    Failure(BAD_GATEWAY, if e.kind.HeaderTimeout? then ConnectTimeout else Network, Some(e.message))
  }

  /** What the rules get to see of a response: its text only if some rule asks for it. */
  function ResponseFailure(p: Policy, r: Outcome): Failure
    requires r.Responds?
  {
    var text := if HasContainsRule(p) && r.status >= 400 && r.probe.Text? then Some(r.probe.text) else None;
    Failure(r.status, Http(r.status), text)
  }

  /** How a pass ends: by an exception, by an answer to judge, or cut short while reading the error body. */
  datatype Ending = Exceptional(raised: Raised) | Answered(failure: Failure, response: Outcome) | Cut

  function Answer(p: Policy, r: Outcome, count: nat): Ending
    requires r.Responds?
  {
    if ProbeAborted(p, r) then Cut
    else
      var f := ResponseFailure(p, r);
      if MayRetry(p, f, count) && r.hook.HookThrows? then Exceptional(r.hook.error) else Answered(f, r)
  }

  function EndingOf(p: Policy, up: Upstream, first: nat, next: nat, count: nat): Ending
    requires first < next
  {
    var r := up(next - 1);
    if r.Rejects? then Exceptional(r.error)
    else if next == first + 1 && r.status == BAD_REQUEST && r.bodyRead.Some? then Exceptional(r.bodyRead.value)
    else Answer(p, r, count)
  }

  predicate Retryable(e: Raised) {
    !e.kind.QuotaUnavailable? && !e.kind.CallerAbort?
  }

  // ---------- The events a pass must leave, stated on its own ----------

  function JudgedOf(e: Raised, id: nat): seq<Event> {
    if Retryable(e) then [Judge(id, FailureOf(e))] else []
  }

  /** An answer is judged, settled unless the run returns it, and its hook's exception judged in turn. */
  function AnswerEvents(p: Policy, r: Outcome, id: nat, count: nat, v: Verdict): seq<Event>
    requires r.Responds?
  {
    if ProbeAborted(p, r) then []
    else
      var f := ResponseFailure(p, r);
      [Judge(id, f)] + (if v == Finished(Returned(id)) then [] else [Settle(id)]) +
        if MayRetry(p, f, count) && r.hook.HookThrows? then JudgedOf(r.hook.error, id) else []
  }

  function TailOf(p: Policy, up: Upstream, first: nat, next: nat, count: nat, v: Verdict): seq<Event>
    requires first < next
  {
    var r := up(next - 1);
    if r.Rejects? then JudgedOf(r.error, next - 1)
    else if next == first + 1 && r.status == BAD_REQUEST && r.bodyRead.Some? then JudgedOf(r.bodyRead.value, next - 1)
    else AnswerEvents(p, r, next - 1, count, v)
  }

  function DispatchesOf(first: nat, next: nat, url: nat): seq<Event> {
    if next == first + 1 then [Dispatch(first, url, false)]
    else [Dispatch(first, url, false), Settle(first), Dispatch(first + 1, url, true)]
  }

  /** An in-place retry is granted: attempts are left and no hook forbids it. */
  predicate Retries(p: Policy, end: Ending, count: nat) {
    match end
    case Exceptional(e) => Retryable(e) && MayRetry(p, FailureOf(e), count)
    case Answered(f, r) => MayRetry(p, f, count) && r.Responds? && !(r.hook.Veto? && VetoStands(p, f))
    case Cut => false
  }

  predicate WaitAborts(end: Ending) {
    match end
    case Exceptional(e) => e.waitAborts
    case Answered(_, r) => r.Responds? && r.waitAborts
    case Cut => false
  }

  /** The next URL is for exceptions and rate limits that no rule says to skip, while one is left. */
  predicate MovesOn(p: Policy, end: Ending, url: nat) {
    url + 1 < p.fallbackCount &&
    match end
    case Exceptional(e) => Retryable(e) && !SkipMatched(p, FailureOf(e))
    case Answered(f, _) => f.status == RATE_LIMITED && !SkipMatched(p, f)
    case Cut => false
  }

  /** The verdict an ending must get, response `id` being the last one. */
  ghost predicate Decided(p: Policy, end: Ending, url: nat, count: nat, id: nat, v: Verdict) {
    && (v.Again? <==> Retries(p, end, count) && !WaitAborts(end))
    && (v.NextUrl? <==> !Retries(p, end, count) && MovesOn(p, end, url))
    && (v == Finished(Returned(id)) <==> end.Answered? && !Retries(p, end, count) && !MovesOn(p, end, url))
    && (v.Finished? ==> v.result == Threw || v.result == Returned(id))
  }

  /** The `catch` block: classify, retry in place, move on or give up. */
  method Catch(p: Policy, id: nat, url: nat, count: nat, e: Raised)
    returns (v: Verdict, judged: seq<Event>, count': nat)
    ensures |judged| <= 1 && forall i :: 0 <= i < |judged| ==> judged[i].Judge? && judged[i].id == id
    ensures judged != [] && SkipMatched(p, judged[0].failure) ==> v.Finished?
    ensures v.Finished? ==> v.result.Threw?
    ensures v.NextUrl? ==> url + 1 < p.fallbackCount
    ensures count' == (if v.Again? then count + 1 else count') && count <= count' <= count + 1
    ensures count' > count ==> count' <= MaxAttempts(p)
    ensures judged == JudgedOf(e, id)
    ensures Decided(p, Exceptional(e), url, count, id, v)
  {
    judged, count' := [], count;
    if e.kind.QuotaUnavailable? || e.kind.CallerAbort? {
      return Finished(Threw), judged, count';
    }
    var f := Failure(BAD_GATEWAY, if e.kind.HeaderTimeout? then ConnectTimeout else Network, Some(e.message));
    judged := [Judge(id, f)];
    if MayRetry(p, f, count) {
      AttemptsBounded(p, f);
      count' := count + 1;
      return if e.waitAborts then Finished(Threw) else Again, judged, count';
    }
    if SkipMatched(p, f) {
      return Finished(Threw), judged, count';
    }
    if url + 1 < p.fallbackCount {
      return NextUrl, judged, count';
    }
    v := Finished(Threw);
  }

  /** The part of a pass after its last dispatch: it concerns response `id` only. */
  ghost predicate TailTrace(p: Policy, t: seq<Event>, id: nat, v: Verdict, settled: bool) {
    && (forall i :: 0 <= i < |t| ==> t[i].id == id && !t[i].Dispatch?)
    && Settlements(t, id) == (if settled then 1 else 0)
    && SkipIsLast(p, t)
    && (t != [] && t[|t| - 1].Judge? && SkipMatched(p, t[|t| - 1].failure) ==> v.Finished?)
    && (v.Finished? ==> !v.result.FellThrough? && (v.result.Returned? ==> v.result.id == id))
  }

  /** Whether the probe of an error body is aborted by the caller. */
  predicate ProbeAborted(p: Policy, r: Outcome)
    requires r.Responds?
  {
    HasContainsRule(p) && r.status >= 400 && r.probe.ProbeAborts?
  }

  method JudgeException(p: Policy, id: nat, url: nat, count: nat, e: Raised)
    returns (v: Verdict, t: seq<Event>, count': nat)
    ensures TailTrace(p, t, id, v, false)
    ensures v.Finished? ==> v.result.Threw?
    ensures v.NextUrl? ==> url + 1 < p.fallbackCount
    ensures v.Again? ==> count' == count + 1
    ensures count <= count' <= count + 1 && (count' > count ==> count' <= MaxAttempts(p))
    ensures t == JudgedOf(e, id)
    ensures Decided(p, Exceptional(e), url, count, id, v)
  {
    v, t, count' := Catch(p, id, url, count, e);
    assert t != [] ==> t == [t[0]] && t[..0] == [];
  }

  predicate ResultFor(v: Verdict, id: nat) {
    v.Finished? ==> !v.result.FellThrough? && (v.result.Returned? ==> v.result.id == id)
  }

  lemma JudgedTrace(p: Policy, id: nat, f: Failure, v: Verdict)
    requires ResultFor(v, id) && (SkipMatched(p, f) ==> v.Finished?)
    ensures TailTrace(p, [Judge(id, f)], id, v, false)
  {
    SettlementsOfOne(Judge(id, f), id);
    hide SkipMatched;
  }

  lemma SettledTrace(p: Policy, id: nat, f: Failure, v: Verdict)
    requires ResultFor(v, id) && !SkipMatched(p, f)
    ensures TailTrace(p, [Judge(id, f), Settle(id)], id, v, true)
  {
    SettlementsOfOne(Judge(id, f), id);
    SettlementsOfOne(Settle(id), id);
    SettlementsAppend([Judge(id, f)], [Settle(id)], id);
    assert [Judge(id, f), Settle(id)] == [Judge(id, f)] + [Settle(id)];
    hide SkipMatched;
  }

  // A retry hook that throws: the response is settled, then the exception is judged.
  lemma ThrownTrace(p: Policy, id: nat, f: Failure, v: Verdict, judged: seq<Event>)
    requires ResultFor(v, id) && !SkipMatched(p, f) && |judged| <= 1
    requires forall i :: 0 <= i < |judged| ==> judged[i].Judge? && judged[i].id == id
    requires judged != [] && SkipMatched(p, judged[0].failure) ==> v.Finished?
    ensures TailTrace(p, [Judge(id, f), Settle(id)] + judged, id, v, true)
  {
    SettledTrace(p, id, f, Finished(Threw));
    SettlementsAppend([Judge(id, f), Settle(id)], judged, id);
    if judged != [] {
      SettlementsOfOne(judged[0], id);
      assert judged == [judged[0]];
    }
    hide SkipMatched, Settlements;
  }

  lemma RetryIsNoSkip(p: Policy, f: Failure, count: nat)
    requires MayRetry(p, f, count)
    ensures !SkipMatched(p, f)
  {
  }

  method JudgeResponse(p: Policy, id: nat, url: nat, count: nat, r: Outcome)
    returns (v: Verdict, t: seq<Event>, count': nat)
    requires r.Responds?
    ensures TailTrace(p, t, id, v, v != Finished(Returned(id)) && !ProbeAborted(p, r))
    ensures v.NextUrl? ==> url + 1 < p.fallbackCount
    ensures v.Again? ==> count' == count + 1
    ensures count <= count' <= count + 1 && (count' > count ==> count' <= MaxAttempts(p))
    ensures t == AnswerEvents(p, r, id, count, v)
    ensures Decided(p, Answer(p, r, count), url, count, id, v)
  {
    t, count' := [], count;
    var text := None;
    if HasContainsRule(p) && r.status >= 400 {
      if r.probe.ProbeAborts? {
        return Finished(Threw), t, count';
      }
      text := if r.probe.Text? then Some(r.probe.text) else None;
    }
    var f := Failure(r.status, Http(r.status), text);
    if MayRetry(p, f, count) {
      AttemptsBounded(p, f);
      RetryIsNoSkip(p, f, count);
      hide TailTrace, SkipMatched, ResolveAttempts;
      if r.hook.HookThrows? {
        var judged;
        v, judged, count' := Catch(p, id, url, count, r.hook.error);
        t := [Judge(id, f), Settle(id)] + judged;
        ThrownTrace(p, id, f, v, judged);
        return;
      }
      if !(r.hook.Veto? && VetoStands(p, f)) {
        count' := count + 1;
        t := [Judge(id, f), Settle(id)];
        v := if r.waitAborts then Finished(Threw) else Again;
        SettledTrace(p, id, f, v);
        return;
      }
    }
    hide TailTrace, SkipMatched, ResolveAttempts;
    JudgedTrace(p, id, f, Finished(Returned(id)));
    if SkipMatched(p, f) {
      return Finished(Returned(id)), [Judge(id, f)], count';
    }
    if r.status == RATE_LIMITED && url + 1 < p.fallbackCount {
      SettledTrace(p, id, f, NextUrl);
      return NextUrl, [Judge(id, f), Settle(id)], count';
    }
    v, t := Finished(Returned(id)), [Judge(id, f)];
  }

  // The first dispatch of a pass is not a stripped one, and may be the only one.
  lemma OnePass(p: Policy, up: Upstream, k: nat, url: nat, t: seq<Event>, v: Verdict, settled: bool)
    requires TailTrace(p, t, k, v, settled)
    requires v.Finished? && v.result.Returned? ==> up(k).Responds?
    requires settled <==> up(k).Responds? && v != Finished(Returned(k)) && !Unread(p, up(k), false)
    ensures PassTrace(p, up, [Dispatch(k, url, false)] + t, k, k + 1, url, v)
  {
    var d := [Dispatch(k, url, false)];
    SettlementsAppend(d, t, k);
    assert d[..0] == [];
  }

  lemma StrippedPass(p: Policy, up: Upstream, k: nat, url: nat, t: seq<Event>, v: Verdict, settled: bool)
    requires TailTrace(p, t, k + 1, v, settled)
    requires up(k).Responds? && up(k).status == BAD_REQUEST && up(k).bodyRead.None? && up(k).offendingField
    requires v.Finished? && v.result.Returned? ==> up(k + 1).Responds?
    requires settled <==> up(k + 1).Responds? && v != Finished(Returned(k + 1)) && !Unread(p, up(k + 1), true)
    ensures PassTrace(p, up, [Dispatch(k, url, false), Settle(k), Dispatch(k + 1, url, true)] + t, k, k + 2, url, v)
  {
    var d := [Dispatch(k, url, false), Settle(k), Dispatch(k + 1, url, true)];
    forall id ensures Settlements(d, id) == if id == k then 1 else 0 {
      SettlementsAppend([Dispatch(k, url, false), Settle(k)], [Dispatch(k + 1, url, true)], id);
      SettlementsAppend([Dispatch(k, url, false)], [Settle(k)], id);
      assert d == [Dispatch(k, url, false)] + [Settle(k)] + [Dispatch(k + 1, url, true)];
      SettlementsOfOne(Dispatch(k, url, false), id);
      SettlementsOfOne(Settle(k), id);
      SettlementsOfOne(Dispatch(k + 1, url, true), id);
    }
    SettlementsAppend(d, t, k);
    SettlementsAppend(d, t, k + 1);
    SettlementsOutside(t, k + 1, k + 2, k);
  }

  /** A pass: its dispatches, its URL, the retries already used there, and what it decided. */
  datatype Pass = Pass(first: nat, next: nat, url: nat, count: nat, verdict: Verdict)

  /** A second dispatch happens exactly for a 400 that names a field of the request. */
  predicate Strips(up: Upstream, first: nat) {
    up(first).Responds? && up(first).status == BAD_REQUEST && up(first).bodyRead.None? && up(first).offendingField
  }

  ghost predicate RightPass(p: Policy, up: Upstream, pass: Pass) {
    && pass.next == pass.first + (if Strips(up, pass.first) then 2 else 1)
    && Decided(p, EndingOf(p, up, pass.first, pass.next, pass.count), pass.url, pass.count, pass.next - 1, pass.verdict)
  }

  /** A pass leaves its dispatches, then what becomes of the last one. */
  function EventsOf(p: Policy, up: Upstream, pass: Pass): seq<Event> {
    if pass.first < pass.next then
      DispatchesOf(pass.first, pass.next, pass.url) + TailOf(p, up, pass.first, pass.next, pass.count, pass.verdict)
    else []
  }

  function TraceOf(p: Policy, up: Upstream, log: seq<Pass>): seq<Event> {
    if log == [] then [] else TraceOf(p, up, log[..|log| - 1]) + EventsOf(p, up, log[|log| - 1])
  }

  function DispatchCount(log: seq<Pass>): nat {
    if log == [] then 0 else log[|log| - 1].next
  }

  /** One pass of the loop body: dispatch, perhaps strip a field and dispatch once more, then judge. */
  method RunPass(p: Policy, up: Upstream, k: nat, url: nat, count: nat)
    returns (v: Verdict, t: seq<Event>, next: nat, count': nat)
    ensures PassTrace(p, up, t, k, next, url, v)
    ensures k < next <= k + 2
    ensures v.Finished? ==>
              !v.result.FellThrough? && (v.result.Returned? ==> v.result.id == next - 1 && up(next - 1).Responds?)
    ensures v.NextUrl? ==> url + 1 < p.fallbackCount
    ensures v.Again? ==> count' == count + 1
    ensures count <= count' <= count + 1 && (count' > count ==> count' <= MaxAttempts(p))
    ensures RightPass(p, up, Pass(k, next, url, count, v))
    ensures t == EventsOf(p, up, Pass(k, next, url, count, v))
  {
    hide Decided, Retries, MovesOn, WaitAborts, JudgedOf, AnswerEvents, MayRetry;
    next := k + 1;
    var r := up(k);
    if r.Rejects? {
      v, t, count' := JudgeException(p, k, url, count, r.error);
      OnePass(p, up, k, url, t, v, false);
      t := [Dispatch(k, url, false)] + t;
      return;
    }
    if r.status == BAD_REQUEST && r.bodyRead.Some? {
      v, t, count' := JudgeException(p, k, url, count, r.bodyRead.value);
      OnePass(p, up, k, url, t, v, false);
      t := [Dispatch(k, url, false)] + t;
      return;
    }
    if r.status == BAD_REQUEST && r.offendingField {
      next := k + 2;
      r := up(k + 1);
      if r.Rejects? {
        v, t, count' := JudgeException(p, k + 1, url, count, r.error);
        StrippedPass(p, up, k, url, t, v, false);
      } else {
        v, t, count' := JudgeResponse(p, k + 1, url, count, r);
        StrippedPass(p, up, k, url, t, v, v != Finished(Returned(k + 1)) && !ProbeAborted(p, r));
      }
      t := [Dispatch(k, url, false), Settle(k), Dispatch(k + 1, url, true)] + t;
      return;
    }
    v, t, count' := JudgeResponse(p, k, url, count, r);
    OnePass(p, up, k, url, t, v, v != Finished(Returned(k)) && !ProbeAborted(p, r));
    t := [Dispatch(k, url, false)] + t;
  }

  // ---------- The whole run ----------

  /** The run so far: dispatches 0 to `k`, all from earlier passes that asked to go on. */
  ghost predicate RunTrace(p: Policy, up: Upstream, t: seq<Event>, k: nat, result: Result) {
    && IdsWithin(t, 0, k) && Ordered(t)
    && SettledOnce(p, up, t, result)
    && SkipIsLast(p, t)
    && (forall i :: 0 <= i < |t| && t[i].Dispatch? ==> t[i].url < p.fallbackCount)
    && (forall id :: 0 <= id < k ==> Dispatched(t, id))
  }

  ghost predicate Dispatched(t: seq<Event>, id: nat) {
    exists i :: 0 <= i < |t| && t[i].Dispatch? && t[i].id == id
  }

  lemma RunStep(p: Policy, up: Upstream, t: seq<Event>, k: nat, more: seq<Event>, next: nat, url: nat, v: Verdict)
    requires RunTrace(p, up, t, k, FellThrough) && url < p.fallbackCount
    requires t != [] && t[|t| - 1].Judge? ==> !SkipMatched(p, t[|t| - 1].failure)
    requires PassTrace(p, up, more, k, next, url, v)
    ensures RunTrace(p, up, t + more, next, if v.Finished? then v.result else FellThrough)
    ensures !v.Finished? ==>
              var u := t + more; u != [] && u[|u| - 1].Judge? ==> !SkipMatched(p, u[|u| - 1].failure)
  {
    hide Dispatched, SettledOnce, SkipIsLast, SkipMatched, IdsWithin, Ordered;
    var result := if v.Finished? then v.result else FellThrough;
    SettledStep(p, up, t, k, more, next, result);
    AllDispatched(t, k, more, next, url);
    SkipStep(p, t, more);
    OrderedStep(t, k, more, next);
    UrlStep(p, t, more, url);
    assert (t + more)[|t + more| - 1] == more[|more| - 1];
  }

  lemma OrderedStep(t: seq<Event>, k: nat, more: seq<Event>, next: nat)
    requires IdsWithin(t, 0, k) && Ordered(t) && IdsWithin(more, k, next) && Ordered(more) && k < next
    ensures IdsWithin(t + more, 0, next) && Ordered(t + more)
  {
  }

  lemma UrlStep(p: Policy, t: seq<Event>, more: seq<Event>, url: nat)
    requires forall i :: 0 <= i < |t| && t[i].Dispatch? ==> t[i].url < p.fallbackCount
    requires forall i :: 0 <= i < |more| && more[i].Dispatch? ==> more[i].url == url
    requires url < p.fallbackCount
    ensures forall i :: 0 <= i < |t + more| && (t + more)[i].Dispatch? ==> (t + more)[i].url < p.fallbackCount
  {
  }

  // Later events do not touch the settlements of earlier responses, nor the other way round.
  lemma SettledStep(p: Policy, up: Upstream, t: seq<Event>, k: nat, more: seq<Event>, next: nat, result: Result)
    requires IdsWithin(t, 0, k) && IdsWithin(more, k, next)
    requires SettledOnce(p, up, t, FellThrough) && SettledOnce(p, up, more, result)
    requires result.Returned? ==> result.id >= k
    ensures SettledOnce(p, up, t + more, result)
  {
    hide Unread;
    var u := t + more;
    forall i | 0 <= i < |u| && u[i].Dispatch?
      ensures Settlements(u, u[i].id) == if Discarded(p, up, u[i], result) then 1 else 0
    {
      SettlementsAppend(t, more, u[i].id);
      if i < |t| {
        SettlementsOutside(more, k, next, u[i].id);
      } else {
        assert u[i] == more[i - |t|];
        SettlementsOutside(t, 0, k, u[i].id);
      }
    }
  }

  lemma SkipStep(p: Policy, t: seq<Event>, more: seq<Event>)
    requires SkipIsLast(p, t) && SkipIsLast(p, more)
    requires t != [] && t[|t| - 1].Judge? ==> !SkipMatched(p, t[|t| - 1].failure)
    ensures SkipIsLast(p, t + more)
  {
    hide SkipMatched;
  }

  lemma AllDispatched(t: seq<Event>, k: nat, more: seq<Event>, next: nat, url: nat)
    requires forall id :: 0 <= id < k ==> Dispatched(t, id)
    requires more != [] && more[0] == Dispatch(k, url, false) && k < next <= k + 2
    requires next == k + 2 ==> |more| >= 3 && more[2] == Dispatch(k + 1, url, true)
    ensures forall id :: 0 <= id < next ==> Dispatched(t + more, id)
  {
    var u := t + more;
    assert u[|t|] == more[0] && (next == k + 2 ==> u[|t| + 2] == more[2]);
    forall id | 0 <= id < k ensures Dispatched(u, id) {
      assert Dispatched(t, id);
      var i :| 0 <= i < |t| && t[i].Dispatch? && t[i].id == id;
      assert u[i] == t[i];
    }
  }

  /** `b` is the pass that `a` asks for. */
  predicate Continues(a: Pass, b: Pass) {
    && b.first == a.next
    && match a.verdict
       case Again => b.url == a.url && b.count == a.count + 1
       case NextUrl => b.url == a.url + 1 && b.count == 0
       case Finished(_) => false
  }

  /** The passes of a run so far: each decided rightly, each the one its predecessor asked for, none aborted. */
  ghost predicate RightLog(p: Policy, up: Upstream, aborted: nat -> bool, log: seq<Pass>) {
    && (forall i :: 0 <= i < |log| ==> RightPass(p, up, log[i]) && !aborted(i))
    && (log != [] ==> log[0].first == 0 && log[0].url == 0 && log[0].count == 0)
    && (forall i, j :: 0 <= i && j == i + 1 && j < |log| ==> Continues(log[i], log[j]))
  }

  /** Where the loop stands after the passes in `log`. */
  ghost predicate AtPass(log: seq<Pass>, first: nat, url: nat, count: nat) {
    if log == [] then first == 0 && url == 0 && count == 0
    else forall v, n :: Continues(log[|log| - 1], Pass(first, n, url, count, v))
  }

  /** How a run ends: with its last pass, or because the caller aborted before the next one. */
  ghost predicate Ends(aborted: nat -> bool, log: seq<Pass>, result: Result) {
    if log != [] && log[|log| - 1].verdict.Finished? then result == log[|log| - 1].verdict.result
    else result == Threw && aborted(|log|)
  }

  /** Number of passes on a URL. */
  function OnUrl(log: seq<Pass>, url: nat): nat {
    if log == [] then 0 else OnUrl(log[..|log| - 1], url) + if log[|log| - 1].url == url then 1 else 0
  }

  ghost predicate Tallied(log: seq<Pass>, passes: seq<nat>) {
    Total(passes) == |log| && forall u :: 0 <= u < |passes| ==> passes[u] == OnUrl(log, u)
  }

  lemma TallyStep(log: seq<Pass>, pass: Pass, passes: seq<nat>)
    requires Tallied(log, passes) && pass.url < |passes|
    ensures Tallied(log + [pass], passes[pass.url := passes[pass.url] + 1])
  {
    TotalUpdate(passes, pass.url);
    hide Total;
    assert (log + [pass])[..|log|] == log;
  }

  lemma LogStep(p: Policy, up: Upstream, aborted: nat -> bool, log: seq<Pass>, pass: Pass, passes: seq<nat>)
    requires RightLog(p, up, aborted, log) && AtPass(log, pass.first, pass.url, pass.count)
    requires RightPass(p, up, pass) && !aborted(|log|)
    requires Tallied(log, passes) && pass.url < |passes|
    ensures RightLog(p, up, aborted, log + [pass])
    ensures Tallied(log + [pass], passes[pass.url := passes[pass.url] + 1])
    ensures pass.verdict.Again? ==> AtPass(log + [pass], pass.next, pass.url, pass.count + 1)
    ensures pass.verdict.NextUrl? ==> AtPass(log + [pass], pass.next, pass.url + 1, 0)
    ensures pass.verdict.Finished? ==> Ends(aborted, log + [pass], pass.verdict.result)
  {
    hide RightPass, Total;
    TallyStep(log, pass, passes);
    hide Tallied;
    assert (log + [pass])[..|log|] == log;
    if log != [] {
      assert Continues(log[|log| - 1], Pass(pass.first, pass.next, pass.url, pass.count, pass.verdict));
    }
  }

  lemma LogAborted(aborted: nat -> bool, log: seq<Pass>, first: nat, url: nat, count: nat)
    requires AtPass(log, first, url, count) && aborted(|log|)
    ensures Ends(aborted, log, Threw)
  {
    if log != [] {
      assert Continues(log[|log| - 1], Pass(first, first, url, count, Again));
    }
  }

  /** Passes spent on each URL, within the retry ceiling. */
  ghost predicate PassesBounded(p: Policy, passes: seq<nat>) {
    && |passes| == p.fallbackCount
    && (forall u :: 0 <= u < |passes| ==> passes[u] <= 1 + MaxAttempts(p))
    && (p.maxTransportAttempts.Some? ==> forall u :: 0 <= u < |passes| ==> passes[u] <= p.maxTransportAttempts.value)
  }

  function Total(passes: seq<nat>): nat {
    if passes == [] then 0 else Total(passes[..|passes| - 1]) + passes[|passes| - 1]
  }

  lemma {:induction false} TotalUpdate(passes: seq<nat>, u: nat)
    requires u < |passes|
    ensures Total(passes[u := passes[u] + 1]) == Total(passes) + 1
  {
    var last := |passes| - 1;
    var q := passes[u := passes[u] + 1];
    if u == last {
      assert q[..last] == passes[..last];
    } else {
      assert q[..last] == passes[..last][u := passes[..last][u] + 1];
      TotalUpdate(passes[..last], u);
    }
  }

  lemma {:induction false} TotalBound(passes: seq<nat>, m: nat)
    requires forall u :: 0 <= u < |passes| ==> passes[u] <= m
    ensures Total(passes) <= |passes| * m
  {
    if passes != [] {
      TotalBound(passes[..|passes| - 1], m);
      assert |passes| * m == (|passes| - 1) * m + m;
    }
  }

  lemma {:induction false} TotalZero(passes: seq<nat>)
    requires forall u :: 0 <= u < |passes| ==> passes[u] == 0
    ensures Total(passes) == 0
  {
    if passes != [] {
      TotalZero(passes[..|passes| - 1]);
    }
  }

  /** Everything a finished run guarantees. */
  ghost predicate Sound(p: Policy, up: Upstream, aborted: nat -> bool, result: Result, t: seq<Event>, dispatches: nat,
                        passes: seq<nat>, log: seq<Pass>)
  {
    && RightLog(p, up, aborted, log) && Ends(aborted, log, result) && Tallied(log, passes)
    && t == TraceOf(p, up, log) && dispatches == DispatchCount(log)
    && !result.FellThrough?
    && (result.Returned? ==> result.id == dispatches - 1 && up(result.id).Responds?)
    && RunTrace(p, up, t, dispatches, result)
    && PassesBounded(p, passes)
    && dispatches <= 2 * Total(passes) <= 2 * (p.fallbackCount * (1 + MaxAttempts(p)))
  }

  /**
   * `execute` for an arbitrary upstream and an arbitrary caller abort. Every pass decides as
   * it should, the run always ends inside the loop, within the ceilings, with every discarded
   * response settled.
   */
  method Execute(p: Policy, up: Upstream, aborted: nat -> bool)
    returns (result: Result, t: seq<Event>, dispatches: nat, passes: seq<nat>, log: seq<Pass>)
    requires ValidPolicy(p)
    ensures Sound(p, up, aborted, result, t, dispatches, passes, log)
  {
    t, dispatches, log := [], 0, [];
    passes := seq(p.fallbackCount, _ => 0);
    var retries: seq<nat> := passes;
    var url := 0;
    ProgressStart(p, up, aborted, passes);
    hide *;
    while url < p.fallbackCount
      invariant url < p.fallbackCount == |retries| == |passes| && retries[url] <= MaxAttempts(p)
      invariant Progress(p, up, aborted, t, dispatches, passes, retries, log, url)
      decreases p.fallbackCount - url, MaxAttempts(p) - retries[url]
    {
      if aborted(|log|) {
        result := Threw;
        ProgressAborted(p, up, aborted, t, dispatches, passes, retries, log, url);
        return;
      }
      var v, more, next, count := RunPass(p, up, dispatches, url, retries[url]);
      ProgressStep(p, up, aborted, t, dispatches, passes, retries, log, url, v, more, next, count);
      log := log + [Pass(dispatches, next, url, retries[url], v)];
      t, dispatches := t + more, next;
      passes, retries := passes[url := passes[url] + 1], retries[url := count];
      match v {
        case Finished(r) =>
          result := r;
          return;
        case Again =>
        case NextUrl => url := url + 1;
      }
    }
    assert false; // the throw after the loop is unreachable
  }

  /** The loop invariant: `url` is being tried, with `retries[url]` retries used. */
  ghost predicate Progress(p: Policy, up: Upstream, aborted: nat -> bool, t: seq<Event>, dispatches: nat,
                           passes: seq<nat>, retries: seq<nat>, log: seq<Pass>, url: nat)
  {
    && Counting(p, url, passes, retries, dispatches)
    && RunTrace(p, up, t, dispatches, FellThrough)
    && (t != [] && t[|t| - 1].Judge? ==> !SkipMatched(p, t[|t| - 1].failure))
    && RightLog(p, up, aborted, log) && AtPass(log, dispatches, url, retries[url]) && Tallied(log, passes)
    && t == TraceOf(p, up, log) && dispatches == DispatchCount(log)
  }

  lemma TraceStep(p: Policy, up: Upstream, log: seq<Pass>, pass: Pass)
    ensures TraceOf(p, up, log + [pass]) == TraceOf(p, up, log) + EventsOf(p, up, pass)
    ensures DispatchCount(log + [pass]) == pass.next
  {
    assert (log + [pass])[..|log|] == log;
  }

  lemma ProgressStart(p: Policy, up: Upstream, aborted: nat -> bool, zeros: seq<nat>)
    requires ValidPolicy(p) && |zeros| == p.fallbackCount && forall u :: 0 <= u < |zeros| ==> zeros[u] == 0
    ensures Progress(p, up, aborted, [], 0, zeros, zeros, [], 0)
    ensures zeros[0] <= MaxAttempts(p)
  {
    TotalZero(zeros);
    CountingStart(p, zeros);
    assert RunTrace(p, up, [], 0, FellThrough);
  }

  lemma ProgressStep(p: Policy, up: Upstream, aborted: nat -> bool, t: seq<Event>, dispatches: nat, passes: seq<nat>,
                     retries: seq<nat>, log: seq<Pass>, url: nat,
                     v: Verdict, more: seq<Event>, next: nat, count: nat)
    requires Progress(p, up, aborted, t, dispatches, passes, retries, log, url) && !aborted(|log|)
    requires url < p.fallbackCount == |retries| == |passes|
    requires PassTrace(p, up, more, dispatches, next, url, v) && dispatches < next <= dispatches + 2
    requires v.Finished? ==>
               !v.result.FellThrough? && (v.result.Returned? ==> v.result.id == next - 1 && up(next - 1).Responds?)
    requires v.NextUrl? ==> url + 1 < p.fallbackCount
    requires v.Again? ==> count == retries[url] + 1
    requires retries[url] <= count <= retries[url] + 1 && (count > retries[url] ==> count <= MaxAttempts(p))
    requires RightPass(p, up, Pass(dispatches, next, url, retries[url], v))
    requires more == EventsOf(p, up, Pass(dispatches, next, url, retries[url], v))
    ensures var log' := log + [Pass(dispatches, next, url, retries[url], v)];
            var passes', retries' := passes[url := passes[url] + 1], retries[url := count];
            match v
            case Again => retries'[url] <= MaxAttempts(p) &&
              Progress(p, up, aborted, t + more, next, passes', retries', log', url)
            case NextUrl => retries'[url + 1] <= MaxAttempts(p) &&
              Progress(p, up, aborted, t + more, next, passes', retries', log', url + 1)
            case Finished(r) => Sound(p, up, aborted, r, t + more, next, passes', log')
  {
    hide RunTrace, PassTrace, PassesBounded, Counting, MaxAttempts, RightLog, RightPass, AtPass, Ends, Tallied;
    hide SkipMatched, TraceOf, EventsOf, DispatchCount;
    TraceStep(p, up, log, Pass(dispatches, next, url, retries[url], v));
    RunStep(p, up, t, dispatches, more, next, url, v);
    LogStep(p, up, aborted, log, Pass(dispatches, next, url, retries[url], v), passes);
    CountingStep(p, url, passes, retries, dispatches, next, count, v.NextUrl?, v.Again?);
  }

  lemma ProgressAborted(p: Policy, up: Upstream, aborted: nat -> bool, t: seq<Event>, dispatches: nat,
                        passes: seq<nat>, retries: seq<nat>, log: seq<Pass>, url: nat)
    requires Progress(p, up, aborted, t, dispatches, passes, retries, log, url) && aborted(|log|)
    ensures Sound(p, up, aborted, Threw, t, dispatches, passes, log)
  {
    hide RunTrace, PassesBounded, Counting, MaxAttempts, RightLog, AtPass, Ends, Tallied, TraceOf, DispatchCount;
    hide SkipMatched;
    CountingEnd(p, url, passes, retries, dispatches);
    AbortedRun(p, up, t, dispatches);
    LogAborted(aborted, log, dispatches, url, retries[url]);
  }

  /** How passes, retry counters and dispatches relate while `url` is being tried. */
  ghost predicate Counting(p: Policy, url: nat, passes: seq<nat>, retries: seq<nat>, dispatches: nat) {
    && ValidPolicy(p) && url < p.fallbackCount && |passes| == |retries| == p.fallbackCount
    && (forall u :: 0 <= u < p.fallbackCount ==> retries[u] <= MaxAttempts(p))
    && (forall u :: 0 <= u < url ==> passes[u] <= 1 + MaxAttempts(p))
    && passes[url] == retries[url]
    && (forall u :: url < u < p.fallbackCount ==> passes[u] == 0 && retries[u] == 0)
    && dispatches <= 2 * Total(passes)
  }

  lemma CountingStart(p: Policy, zeros: seq<nat>)
    requires ValidPolicy(p) && |zeros| == p.fallbackCount && forall u :: 0 <= u < |zeros| ==> zeros[u] == 0
    ensures Counting(p, 0, zeros, zeros, 0)
  {
  }

  lemma CountingStep(p: Policy, url: nat, passes: seq<nat>, retries: seq<nat>, dispatches: nat, next: nat, count: nat,
                     move: bool, again: bool)
    requires Counting(p, url, passes, retries, dispatches) && dispatches < next <= dispatches + 2
    requires retries[url] <= count <= retries[url] + 1 && (count > retries[url] ==> count <= MaxAttempts(p))
    requires again ==> count == retries[url] + 1
    requires move ==> url + 1 < p.fallbackCount
    ensures again ==>
              Counting(p, url, passes[url := passes[url] + 1], retries[url := count], next) && count <= MaxAttempts(p)
    ensures move ==>
              Counting(p, url + 1, passes[url := passes[url] + 1], retries[url := count], next) && retries[url + 1] == 0
    ensures PassesBounded(p, passes[url := passes[url] + 1])
    ensures next <= 2 * Total(passes[url := passes[url] + 1]) <= 2 * (p.fallbackCount * (1 + MaxAttempts(p)))
  {
    TotalUpdate(passes, url);
    TotalBound(passes[url := passes[url] + 1], 1 + MaxAttempts(p));
  }

  lemma CountingEnd(p: Policy, url: nat, passes: seq<nat>, retries: seq<nat>, dispatches: nat)
    requires Counting(p, url, passes, retries, dispatches)
    ensures |passes| == |retries| == p.fallbackCount && url < |retries|
    ensures PassesBounded(p, passes)
    ensures dispatches <= 2 * Total(passes) <= 2 * (p.fallbackCount * (1 + MaxAttempts(p)))
  {
    TotalBound(passes, 1 + MaxAttempts(p));
  }

  // An abort seen between passes throws without another dispatch.
  lemma AbortedRun(p: Policy, up: Upstream, t: seq<Event>, k: nat)
    requires RunTrace(p, up, t, k, FellThrough)
    ensures RunTrace(p, up, t, k, Threw)
  {
  }

  // ---------- Nothing is left open ----------

  lemma PassIsDetermined(p: Policy, up: Upstream, a: Pass, b: Pass)
    requires RightPass(p, up, a) && RightPass(p, up, b)
    requires a.first == b.first && a.url == b.url && a.count == b.count
    ensures a == b
  {
    hide EndingOf, Retries, MovesOn, WaitAborts;
  }

  lemma {:induction false} LogsAgree(p: Policy, up: Upstream, aborted: nat -> bool, a: seq<Pass>, b: seq<Pass>, i: nat)
    requires RightLog(p, up, aborted, a) && RightLog(p, up, aborted, b) && i < |a| && i < |b|
    ensures a[i] == b[i]
  {
    hide RightPass;
    if i > 0 {
      LogsAgree(p, up, aborted, a, b, i - 1);
      assert Continues(a[i - 1], a[i]) && Continues(b[i - 1], b[i]);
    }
    PassIsDetermined(p, up, a[i], b[i]);
  }

  lemma NextPass(p: Policy, up: Upstream, aborted: nat -> bool, log: seq<Pass>, i: nat)
    requires RightLog(p, up, aborted, log) && 0 < i < |log|
    ensures Continues(log[i - 1], log[i])
  {
    hide RightPass;
  }

  // A log that has ended is not continued by another one.
  lemma NotLonger(p: Policy, up: Upstream, aborted: nat -> bool, a: seq<Pass>, b: seq<Pass>, result: Result)
    requires RightLog(p, up, aborted, a) && RightLog(p, up, aborted, b) && Ends(aborted, a, result)
    ensures |b| <= |a|
  {
    hide RightPass;
    if |a| < |b| && a != [] {
      NextPass(p, up, aborted, b, |a|);
      LogsAgree(p, up, aborted, a, b, |a| - 1);
    }
  }

  lemma LogIsDetermined(p: Policy, up: Upstream, aborted: nat -> bool, a: seq<Pass>, b: seq<Pass>, r: Result, s: Result)
    requires RightLog(p, up, aborted, a) && RightLog(p, up, aborted, b) && Ends(aborted, a, r) && Ends(aborted, b, s)
    ensures a == b && r == s
  {
    NotLonger(p, up, aborted, a, b, r);
    NotLonger(p, up, aborted, b, a, s);
    forall i | 0 <= i < |a| ensures a[i] == b[i] {
      LogsAgree(p, up, aborted, a, b, i);
    }
    hide RightLog;
  }

  /** The guarantees leave no freedom: whatever the upstream and the caller do, one run alone meets them. */
  lemma RunIsDetermined(p: Policy, up: Upstream, aborted: nat -> bool,
                        r1: Result, t1: seq<Event>, d1: nat, passes1: seq<nat>, log1: seq<Pass>,
                        r2: Result, t2: seq<Event>, d2: nat, passes2: seq<nat>, log2: seq<Pass>)
    requires Sound(p, up, aborted, r1, t1, d1, passes1, log1) && Sound(p, up, aborted, r2, t2, d2, passes2, log2)
    ensures r1 == r2 && t1 == t2 && d1 == d2 && passes1 == passes2 && log1 == log2
  {
    LogIsDetermined(p, up, aborted, log1, log2, r1, r2);
    hide RightLog, Ends, TraceOf, RunTrace, MaxAttempts;
  }
}
