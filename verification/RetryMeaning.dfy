// What a retry decision depends on, in terms of the policy's entries and of what the upstream did.
module RetryMeaning {
  import opened Options
  import opened RetryPolicy
  import opened RetryEngine

  // ---------- The attempts table ----------

  /** Rule `i` decides about a failure: it matches, and no earlier one does. */
  ghost predicate Decides(p: Policy, f: Failure, i: int) {
    && p.skipRules.Some? && 0 <= i < |p.skipRules.value|
    && RuleMatches(p.provider, f, p.skipRules.value[i])
    && forall k :: 0 <= k < i ==> !RuleMatches(p.provider, f, p.skipRules.value[k])
  }

  ghost predicate NoRule(p: Policy, f: Failure) {
    p.skipRules.Some? ==>
      forall i :: 0 <= i < |p.skipRules.value| ==> !RuleMatches(p.provider, f, p.skipRules.value[i])
  }

  ghost predicate RuleSays(p: Policy, f: Failure, action: Action) {
    exists i :: Decides(p, f, i) && p.skipRules.value[i].action == action
  }

  /** The configured retries of the failure's own status are not used up. */
  predicate EntryLeft(p: Policy, f: Failure, count: nat) {
    f.status in p.baseRetry && count < p.baseRetry[f.status]
  }

  /** The ceiling, which counts the first try, leaves room for one more. */
  predicate CeilingLeft(p: Policy, count: nat) {
    p.maxTransportAttempts.Some? ==> count + 1 < p.maxTransportAttempts.value
  }

  /**
   * One more try in place: a retry rule grants up to the ceiling, or the entry where there is none; without a
   * rule both bind, and a header timeout gets none.
   */
  ghost predicate Granted(p: Policy, f: Failure, count: nat) {
    || (RuleSays(p, f, Retry) &&
        if p.maxTransportAttempts.Some? then CeilingLeft(p, count) else EntryLeft(p, f, count))
    || (NoRule(p, f) && !f.kind.ConnectTimeout? && EntryLeft(p, f, count) && CeilingLeft(p, count))
  }

  lemma RuleFound(p: Policy, f: Failure)
    ensures SkipMatched(p, f) <==> RuleSays(p, f, Skip)
    ensures RetryMatched(p, f) <==> RuleSays(p, f, Retry)
    ensures NoRule(p, f) <==> !SkipMatched(p, f) && !RetryMatched(p, f)
    ensures !(SkipMatched(p, f) && RetryMatched(p, f))
  {
    hide RuleMatches;
    if p.skipRules.Some? {
      var rules := p.skipRules.value;
      FirstMatchIsFirst(p.provider, f, rules);
      if FirstMatch(p.provider, f, rules).Some? {
        var i :| 0 <= i < |rules| && rules[i] == FirstMatch(p.provider, f, rules).value &&
                 RuleMatches(p.provider, f, rules[i]) && forall k :: 0 <= k < i ==>
                   !RuleMatches(p.provider, f, rules[k]);
        assert Decides(p, f, i);
        forall j | Decides(p, f, j) ensures j == i {
          assert !(j < i) && !(i < j);
        }
        MatchedActs(p, f, i);
      }
    }
  }

  lemma MatchedActs(p: Policy, f: Failure, i: int)
    requires Decides(p, f, i)
    ensures p.skipRules.value[i].action in {Skip, Retry}
  {
  }

  /** The table is exactly what decides about one more try. */
  lemma MayRetryIff(p: Policy, f: Failure, count: nat)
    requires ValidPolicy(p)
    ensures MayRetry(p, f, count) <==> Granted(p, f, count)
  {
    RuleFound(p, f);
    hide SkipMatched, RetryMatched, NoRule, RuleSays;
  }

  // ---------- What a pass met ----------

  /** The rules see an exception as a 502, by our own timer or by the network. */
  predicate SeenAs(e: Raised, f: Failure) {
    f == Failure(502, if e.kind.HeaderTimeout? then ConnectTimeout else Network, Some(e.message))
  }

  /** A rule of this provider looks for a text. */
  predicate ReadsTexts(p: Policy) {
    p.skipRules.Some? &&
    exists i :: 0 <= i < |p.skipRules.value| && p.skipRules.value[i].provider == p.provider &&
                p.skipRules.value[i].match_.Some? && p.skipRules.value[i].match_.value.contains.Some? &&
                p.skipRules.value[i].match_.value.contains.value != ""
  }

  /** The answer of the last dispatch reaches the rules, with its text only if a rule reads texts of errors. */
  predicate Answers(p: Policy, up: Upstream, pass: Pass, f: Failure)
    requires pass.first < pass.next
  {
    var r := up(pass.next - 1);
    && r.Responds? && !(pass.next == pass.first + 1 && r.status == 400 && r.bodyRead.Some?)
    && f.status == r.status && f.kind == Http(r.status)
    && if ReadsTexts(p) && r.status >= 400 then
         !r.probe.ProbeAborts? && f.text == (if r.probe.Text? then Some(r.probe.text) else None)
       else f.text == None
  }

  /** The exception a pass comes to: of the dispatch, of reading a 400, or of the retry hook. */
  ghost predicate Throws(p: Policy, up: Upstream, pass: Pass, e: Raised)
    requires pass.first < pass.next
  {
    var r := up(pass.next - 1);
    || r == Rejects(e)
    || (r.Responds? && pass.next == pass.first + 1 && r.status == 400 && r.bodyRead == Some(e))
    || (r.Responds? && r.hook == HookThrows(e) &&
          exists f :: Answers(p, up, pass, f) && Granted(p, f, pass.count))
  }

  /** Neither a quota refusal nor the caller's own abort. */
  predicate Ordinary(e: Raised) {
    e.kind.HeaderTimeout? || e.kind.NetworkError?
  }

  /** The hook lets the retry be: it goes on, or its veto is Antigravity's capacity one and a rule says retry. */
  ghost predicate Consents(p: Policy, r: Outcome, f: Failure) {
    r.Responds? &&
    (r.hook.Proceed? ||
     (r.hook.Veto? && p.provider == "antigravity" && f.status == 503 && f.text.Some? &&
      Includes(Lower(f.text.value), "capacity") && RuleSays(p, f, Retry)))
  }

  ghost predicate RetriesException(p: Policy, e: Raised, count: nat) {
    Ordinary(e) && exists f :: SeenAs(e, f) && Granted(p, f, count)
  }

  ghost predicate RetriesAnswer(p: Policy, r: Outcome, f: Failure, count: nat) {
    Granted(p, f, count) && Consents(p, r, f)
  }

  /** When a pass is followed by another try in place. */
  ghost predicate AgainWhen(p: Policy, up: Upstream, pass: Pass)
    requires pass.first < pass.next
  {
    || (exists e :: Throws(p, up, pass, e) && RetriesException(p, e, pass.count) && !e.waitAborts)
    || (exists f :: Answers(p, up, pass, f) && RetriesAnswer(p, up(pass.next - 1), f, pass.count) &&
                    !up(pass.next - 1).waitAborts)
  }

  /** When a pass is followed by the next URL: after an exception or a 429 that is not retried and no rule skips. */
  ghost predicate NextUrlWhen(p: Policy, up: Upstream, pass: Pass)
    requires pass.first < pass.next
  {
    pass.url + 1 < p.fallbackCount &&
    (|| (exists e :: Throws(p, up, pass, e) && Ordinary(e) && !RetriesException(p, e, pass.count) &&
                     forall f :: SeenAs(e, f) ==> !RuleSays(p, f, Skip))
     || (exists f :: Answers(p, up, pass, f) && !(exists e :: Throws(p, up, pass, e)) && f.status == 429 &&
                     !RetriesAnswer(p, up(pass.next - 1), f, pass.count) && !RuleSays(p, f, Skip)))
  }

  /** When the answer is the caller's: it reaches the rules, is not retried, and is no 429 with a URL left. */
  ghost predicate ReturnedWhen(p: Policy, up: Upstream, pass: Pass)
    requires pass.first < pass.next
  {
    exists f :: Answers(p, up, pass, f) && !(exists e :: Throws(p, up, pass, e)) &&
                !RetriesAnswer(p, up(pass.next - 1), f, pass.count) &&
                !(f.status == 429 && pass.url + 1 < p.fallbackCount && !RuleSays(p, f, Skip))
  }

  lemma ExceptionalPass(p: Policy, up: Upstream, pass: Pass, e: Raised)
    requires ValidPolicy(p) && RightPass(p, up, pass)
    requires EndingOf(p, up, pass.first, pass.next, pass.count) == Exceptional(e)
    ensures Throws(p, up, pass, e) && forall d :: Throws(p, up, pass, d) ==> d == e
    ensures forall f :: Answers(p, up, pass, f) ==> !Consents(p, up(pass.next - 1), f)
  {
    forall f ensures MayRetry(p, f, pass.count) <==> Granted(p, f, pass.count) {
      MayRetryIff(p, f, pass.count);
    }
    var r := up(pass.next - 1);
    if r.Responds? && !(pass.next == pass.first + 1 && r.status == 400 && r.bodyRead.Some?) {
      assert Answers(p, up, pass, ResponseFailure(p, r));
    }
    hide Granted, MayRetry, Decided;
  }

  lemma AnsweredPass(p: Policy, up: Upstream, pass: Pass, f: Failure, r: Outcome)
    requires ValidPolicy(p) && RightPass(p, up, pass)
    requires EndingOf(p, up, pass.first, pass.next, pass.count) == Answered(f, r)
    ensures r == up(pass.next - 1) && Answers(p, up, pass, f)
    ensures forall g :: Answers(p, up, pass, g) ==> g == f
    ensures forall e :: !Throws(p, up, pass, e)
  {
    forall f ensures MayRetry(p, f, pass.count) <==> Granted(p, f, pass.count) {
      MayRetryIff(p, f, pass.count);
    }
    hide Granted, MayRetry, Decided;
  }

  lemma CutPass(p: Policy, up: Upstream, pass: Pass)
    requires ValidPolicy(p) && RightPass(p, up, pass)
    requires EndingOf(p, up, pass.first, pass.next, pass.count) == Cut
    ensures forall f :: !Answers(p, up, pass, f)
    ensures forall e :: !Throws(p, up, pass, e)
  {
    hide Decided;
  }

  lemma ExceptionRetries(p: Policy, e: Raised, count: nat)
    requires ValidPolicy(p)
    ensures Retries(p, Exceptional(e), count) <==> RetriesException(p, e, count)
  {
    hide Granted, MayRetry;
    var f := FailureOf(e);
    assert SeenAs(e, f) && forall g :: SeenAs(e, g) ==> g == f;
    MayRetryIff(p, f, count);
  }

  lemma MovesOnIs(p: Policy, end: Ending, url: nat)
    ensures end.Exceptional? ==>
              (MovesOn(p, end, url) <==>
                 url + 1 < p.fallbackCount && Ordinary(end.raised) &&
                 forall f :: SeenAs(end.raised, f) ==> !RuleSays(p, f, Skip))
    ensures end.Answered? ==>
              (MovesOn(p, end, url) <==>
                 url + 1 < p.fallbackCount && end.failure.status == 429 && !RuleSays(p, end.failure, Skip))
  {
    hide SkipMatched, RuleSays;
    match end
    case Exceptional(e) =>
      RuleFound(p, FailureOf(e));
      assert SeenAs(e, FailureOf(e)) && forall g :: SeenAs(e, g) ==> g == FailureOf(e);
    case Answered(f, r) => RuleFound(p, f);
    case Cut =>
  }

  lemma ExceptionalMeaning(p: Policy, up: Upstream, pass: Pass, e: Raised)
    requires ValidPolicy(p) && RightPass(p, up, pass)
    requires EndingOf(p, up, pass.first, pass.next, pass.count) == Exceptional(e)
    ensures Meant(p, up, pass)
  {
    ExceptionalPass(p, up, pass, e);
    ExceptionRetries(p, e, pass.count);
    MovesOnIs(p, Exceptional(e), pass.url);
    hide Throws, Answers, Consents, Retries, MovesOn, EndingOf, RetriesException, Ordinary, SeenAs;
  }

  lemma AnsweredMeaning(p: Policy, up: Upstream, pass: Pass, f: Failure, r: Outcome)
    requires ValidPolicy(p) && RightPass(p, up, pass)
    requires EndingOf(p, up, pass.first, pass.next, pass.count) == Answered(f, r)
    ensures Meant(p, up, pass)
  {
    AnsweredPass(p, up, pass, f, r);
    AnsweredRetries(p, up, pass, f, r);
    MovesOnIs(p, Answered(f, r), pass.url);
    hide Throws, Answers, Retries, MovesOn, EndingOf, RetriesAnswer;
  }

  // A hook that throws is only asked when a retry is due, and ends the pass otherwise.
  lemma AnsweredRetries(p: Policy, up: Upstream, pass: Pass, f: Failure, r: Outcome)
    requires ValidPolicy(p) && RightPass(p, up, pass)
    requires EndingOf(p, up, pass.first, pass.next, pass.count) == Answered(f, r)
    ensures Retries(p, Answered(f, r), pass.count) <==> RetriesAnswer(p, r, f, pass.count)
  {
    MayRetryIff(p, f, pass.count);
    RuleFound(p, f);
    hide Granted, MayRetry, Decided, RuleSays, RetryMatched, Includes;
  }

  /** The verdict of a pass, read off the policy and the upstream. */
  ghost predicate Meant(p: Policy, up: Upstream, pass: Pass) {
    && pass.first < pass.next
    && (pass.verdict.Again? <==> AgainWhen(p, up, pass))
    && (pass.verdict.NextUrl? <==> NextUrlWhen(p, up, pass))
    && (pass.verdict == Finished(Returned(pass.next - 1)) <==> ReturnedWhen(p, up, pass))
    && (pass.verdict.Finished? ==> pass.verdict.result in {Threw, Returned(pass.next - 1)})
  }

  lemma PassMeaning(p: Policy, up: Upstream, pass: Pass)
    requires ValidPolicy(p) && RightPass(p, up, pass)
    ensures Meant(p, up, pass)
  {
    hide Meant;
    var end := EndingOf(p, up, pass.first, pass.next, pass.count);
    match end
    case Exceptional(e) => ExceptionalMeaning(p, up, pass, e);
    case Answered(f, r) => AnsweredMeaning(p, up, pass, f, r);
    case Cut => CutMeaning(p, up, pass);
  }

  lemma CutMeaning(p: Policy, up: Upstream, pass: Pass)
    requires ValidPolicy(p) && RightPass(p, up, pass)
    requires EndingOf(p, up, pass.first, pass.next, pass.count) == Cut
    ensures Meant(p, up, pass)
  {
    CutPass(p, up, pass);
    hide Throws, Answers, EndingOf;
  }

  // ---------- What a pass leaves in the trace ----------

  /** The rules see exactly the answer that reaches them and the ordinary exceptions, at the last dispatch. */
  ghost predicate JudgedWhen(p: Policy, up: Upstream, pass: Pass, id: nat, f: Failure)
    requires pass.first < pass.next
  {
    id == pass.next - 1 &&
    (Answers(p, up, pass, f) ||
     exists e :: Throws(p, up, pass, e) && Ordinary(e) && SeenAs(e, f))
  }

  /** Settled are the response whose request field was stripped, and an answer the rules saw that is not returned. */
  ghost predicate SettledWhen(p: Policy, up: Upstream, pass: Pass, id: nat)
    requires pass.first < pass.next
  {
    || (pass.next == pass.first + 2 && id == pass.first)
    || (id == pass.next - 1 && (exists f :: Answers(p, up, pass, f)) && pass.verdict != Finished(Returned(id)))
  }

  ghost predicate TailMeans(p: Policy, up: Upstream, pass: Pass, tail: seq<Event>)
    requires pass.first < pass.next
  {
    && (forall id, f :: Judge(id, f) in tail <==> JudgedWhen(p, up, pass, id, f))
    && (forall id :: Settle(id) in tail <==>
          id == pass.next - 1 && (exists f :: Answers(p, up, pass, f)) && pass.verdict != Finished(Returned(id)))
    && (forall id, url, stripped :: Dispatch(id, url, stripped) !in tail)
  }

  lemma ExceptionTail(p: Policy, up: Upstream, pass: Pass, e: Raised)
    requires RightPass(p, up, pass)
    requires var r := up(pass.next - 1);
             r == Rejects(e) || (r.Responds? && pass.next == pass.first + 1 && r.status == 400 && r.bodyRead == Some(e))
    ensures TailMeans(p, up, pass, JudgedOf(e, pass.next - 1))
  {
    assert Throws(p, up, pass, e) && forall d :: Throws(p, up, pass, d) ==> d == e;
    assert forall f :: !Answers(p, up, pass, f);
    assert forall f :: SeenAs(e, f) <==> f == FailureOf(e);
    hide Decided, Throws, Answers, SeenAs;
  }

  lemma AnswerTail(p: Policy, up: Upstream, pass: Pass)
    requires ValidPolicy(p) && RightPass(p, up, pass)
    requires var r := up(pass.next - 1);
             r.Responds? && !(pass.next == pass.first + 1 && r.status == 400 && r.bodyRead.Some?)
    ensures TailMeans(p, up, pass, AnswerEvents(p, up(pass.next - 1), pass.next - 1, pass.count, pass.verdict))
  {
    var r := up(pass.next - 1);
    if ProbeAborted(p, r) {
      assert forall f :: !Answers(p, up, pass, f);
      assert forall e :: !Throws(p, up, pass, e);
      hide Decided, Throws, Answers;
    } else {
      var f := ResponseFailure(p, r);
      assert Answers(p, up, pass, f) && forall g :: Answers(p, up, pass, g) ==> g == f;
      MayRetryIff(p, f, pass.count);
      HookThrown(p, up, pass, f);
      hide Decided, Throws, Answers, Granted, MayRetry;
      if MayRetry(p, f, pass.count) && r.hook.HookThrows? {
        assert forall g :: SeenAs(r.hook.error, g) <==> g == FailureOf(r.hook.error);
        hide SeenAs;
      }
    }
  }

  lemma HookThrown(p: Policy, up: Upstream, pass: Pass, f: Failure)
    requires RightPass(p, up, pass) && Answers(p, up, pass, f) && forall g :: Answers(p, up, pass, g) ==> g == f
    ensures forall e :: Throws(p, up, pass, e) <==>
                        up(pass.next - 1).hook == HookThrows(e) && Granted(p, f, pass.count)
  {
    hide Decided, Granted;
  }

  lemma TailMeaning(p: Policy, up: Upstream, pass: Pass)
    requires ValidPolicy(p) && RightPass(p, up, pass)
    ensures TailMeans(p, up, pass, TailOf(p, up, pass.first, pass.next, pass.count, pass.verdict))
  {
    hide Decided, TailMeans, AnswerEvents, JudgedOf;
    var r := up(pass.next - 1);
    if r.Rejects? {
      ExceptionTail(p, up, pass, r.error);
    } else if pass.next == pass.first + 1 && r.status == BAD_REQUEST && r.bodyRead.Some? {
      ExceptionTail(p, up, pass, r.bodyRead.value);
    } else {
      AnswerTail(p, up, pass);
    }
  }

  /** The events of a pass: its dispatches at its URL, what the rules see, and what is settled. */
  lemma EventsMeaning(p: Policy, up: Upstream, pass: Pass)
    requires ValidPolicy(p) && RightPass(p, up, pass)
    ensures var events := EventsOf(p, up, pass);
            && (forall id: nat, url, stripped :: Dispatch(id, url, stripped) in events <==>
                  pass.first <= id < pass.next && url == pass.url && (stripped <==> id == pass.first + 1))
            && (forall id, f :: Judge(id, f) in events <==> JudgedWhen(p, up, pass, id, f))
            && (forall id :: Settle(id) in events <==> SettledWhen(p, up, pass, id))
  {
    TailMeaning(p, up, pass);
    var events := EventsOf(p, up, pass);
    var front, tail := DispatchesOf(pass.first, pass.next, pass.url),
                       TailOf(p, up, pass.first, pass.next, pass.count, pass.verdict);
    assert events == front + tail && forall e :: e in events <==> e in front || e in tail;
    hide Decided, TailOf, JudgedWhen, Answers, Strips;
  }

  /** Every pass of every run means what it should, and sends twice only for a 400 that names a request field. */
  lemma RunMeaning(p: Policy, up: Upstream, aborted: nat -> bool, result: Result, t: seq<Event>, dispatches: nat,
                   passes: seq<nat>, log: seq<Pass>, k: nat)
    requires ValidPolicy(p) && Sound(p, up, aborted, result, t, dispatches, passes, log) && k < |log|
    ensures Meant(p, up, log[k])
    ensures var first := up(log[k].first);
            log[k].next == log[k].first +
              if first.Responds? && first.status == 400 && first.bodyRead.None? && first.offendingField then 2 else 1
  {
    assert RightPass(p, up, log[k]);
    PassMeaning(p, up, log[k]);
    hide Meant, Ends, Tallied, TraceOf, RunTrace, PassesBounded, Decided;
  }

  /** A good answer that no rule speaks about is returned at once, whatever the ceiling. */
  lemma GoodAnswerReturns(p: Policy, up: Upstream, pass: Pass)
    requires ValidPolicy(p) && RightPass(p, up, pass)
    requires up(pass.first).Responds? && up(pass.first).status == 200 && 200 !in p.baseRetry
    requires NoRule(p, Failure(200, Http(200), None))
    ensures pass.verdict == Finished(Returned(pass.first))
  {
    PassMeaning(p, up, pass);
    var f := Failure(200, Http(200), None);
    assert Answers(p, up, pass, f) && forall g :: Answers(p, up, pass, g) ==> g == f;
    NoRuleNoAction(p, f);
    hide Decided, NoRule, RuleSays;
  }

  lemma NoRuleNoAction(p: Policy, f: Failure)
    requires NoRule(p, f)
    ensures forall action :: !RuleSays(p, f, action)
  {
  }

  // ---------- The rule that ships with the gateway ----------

  const CAPACITY_RULE := Rule("antigravity", Some(Match(None, Some(503), Some("Capacity"))), Skip)

  /** All its conditions bind, letter case aside; a rule without conditions never matches. */
  lemma CapacityRuleMatches(text: string, f: Failure)
    requires f == Failure(503, Http(503), Some(text))
    ensures RuleMatches("antigravity", f, CAPACITY_RULE) <==>
            exists i :: 0 <= i <= |text| && OccursAt(Lower(text), "capacity", i)
    ensures !RuleMatches("codex", f, CAPACITY_RULE) && !RuleMatches("antigravity", f.(status := 502), CAPACITY_RULE)
    ensures !RuleMatches("antigravity", f.(text := None), CAPACITY_RULE)
    ensures !RuleMatches("antigravity", f, CAPACITY_RULE.(action := Malformed))
    ensures !RuleMatches("antigravity", f, Rule("antigravity", Some(Match(None, None, Some(""))), Skip))
    ensures RuleMatches("antigravity", f, Rule("antigravity", Some(Match(Some(Http(503)), None, None)), Retry))
    ensures !RuleMatches("antigravity", f, Rule("antigravity", Some(Match(Some(Network), Some(503), None)), Retry))
  {
    assert Lower("Capacity") == "capacity";
    assert |Lower(text)| == |text|;
    assert Lower("") == "";
    hide Lower;
  }
}
