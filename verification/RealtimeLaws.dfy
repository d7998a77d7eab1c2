// What every run of the realtime socket guarantees, for all limits and all
// interleavings of socket events, setup continuations and handler completions.
module RealtimeLaws {
  import opened Options
  import opened RealtimeProtocol

  lemma {:induction false} RunKeepsInv(l: Limits, s: State, events: seq<Event>)
    requires Inv(l, s)
    ensures Inv(l, Run(l, s, events))
    ensures s.delivered <= Run(l, s, events).delivered
    decreases |events|
  {
    if events != [] {
      StepKeepsInv(l, s, events[0]);
      RunKeepsInv(l, Step(l, s, events[0]), events[1..]);
    }
  }

  lemma ReachableInv(l: Limits, events: seq<Event>)
    ensures Inv(l, Run(l, INIT, events))
  {
    RunKeepsInv(l, INIT, events);
  }

  /** Frames reach the session in arrival order: always a prefix, and nothing is lost while open. */
  lemma OrderAndConservation(l: Limits, events: seq<Event>)
    ensures var s := Run(l, INIT, events);
            && (s.session.None? ==> s.delivered == [])
            && (s.session.Some? ==> s.delivered <= Eligible(s.session.value, s.arrivals))
            && (!s.closed && !s.refused && s.session.None? ==> s.processingQueue == [] && s.queue == s.arrivals)
            && (!s.closed && !s.refused && s.session.Some? ==>
                  s.delivered + s.processingQueue + Eligible(s.session.value, s.queue) ==
                    Eligible(s.session.value, s.arrivals))
            && (s.ready ==> s.queue == [])
  {
    ReachableInv(l, events);
  }

  /** Both budgets hold in every reachable state, with exact byte accounting. */
  lemma BudgetsHold(l: Limits, events: seq<Event>)
    ensures var s := Run(l, INIT, events);
            && s.processingBytes == Sum(s.processingQueue) + s.activeProcessingBytes <= l.bytes
            && |s.processingQueue| + InFlightCount(s) <= l.frames
            && Sum(s.queue) <= s.queuedBytes <= l.bytes && |s.queue| <= l.frames
            && (s.inFlight.None? ==> s.processingQueue == [])
  {
    ReachableInv(l, events);
  }

  lemma ClosedStepDeliversNothing(l: Limits, s: State, e: Event)
    requires Inv(l, s) && s.closed
    ensures Step(l, s, e).closed && Step(l, s, e).delivered == s.delivered
  {
  }

  /** Once closed, no frame is handed over any more, whatever still completes. */
  lemma {:induction false} NothingAfterClose(l: Limits, s: State, events: seq<Event>)
    requires Inv(l, s) && s.closed
    ensures Run(l, s, events).closed && Run(l, s, events).delivered == s.delivered
    decreases |events|
  {
    if events != [] {
      StepKeepsInv(l, s, events[0]);
      ClosedStepDeliversNothing(l, s, events[0]);
      NothingAfterClose(l, Step(l, s, events[0]), events[1..]);
    }
  }

  /** While a handler call is pending, only its completion lets another frame through. */
  lemma OneAtATime(l: Limits, s: State, e: Event)
    requires Inv(l, s) && s.inFlight.Some? && !e.HandlerDone?
    ensures Step(l, s, e).inFlight == s.inFlight && Step(l, s, e).delivered == s.delivered
  {
    assert s.ready && s.setup.Ended?;
  }

  /** A session that becomes ready takes over every held frame; the flush never overflows. */
  lemma FlushNeverOverflows(l: Limits, s: State, e: Event)
    requires Inv(l, s) && !s.ready && Step(l, s, e).ready
    ensures Step(l, s, e).closed == s.closed && Step(l, s, e).closeCodes == s.closeCodes
    ensures !s.closed ==>
              var t := Step(l, s, e);
              t.session.Some? && t.delivered + t.processingQueue == Eligible(t.session.value, s.queue)
  {
    if e.SessionCreated? || e.RelayOpened? || e.Configured? {
      SessionKeepsInv(l, s, e);
    } else {
      OnlySessionsGetReady(l, s, e);
    }
    hide Step, Eligible;
  }

  lemma OnlySessionsGetReady(l: Limits, s: State, e: Event)
    requires Inv(l, s) && !s.ready && !(e.SessionCreated? || e.RelayOpened? || e.Configured?)
    ensures !Step(l, s, e).ready
  {
    hide Eligible, Drain;
  }

  // ---------- The held-byte counter ----------

  /** The branch that resets the queue but not its byte counter. */
  predicate Leaks(s: State, e: Event) {
    e.AuthRefused? && s.setup.Probing? && !s.closed && Sum(s.queue) != 0
  }

  lemma FlushEmptiesQueue(l: Limits, s: State)
    requires s.session.Some?
    ensures Flush(l, s).queue == [] && Flush(l, s).queuedBytes == 0
  {
    EnqueueAllKeepsHold(l, s.(queue := [], queuedBytes := 0), s.queue);
  }

  lemma {:induction false} EnqueueAllKeepsHold(l: Limits, s: State, held: seq<Frame>)
    requires s.session.Some?
    ensures EnqueueAll(l, s, held).queue == s.queue && EnqueueAll(l, s, held).queuedBytes == s.queuedBytes
    decreases |held|
  {
    if held != [] {
      EnqueueKeepsHold(l, s, held[0]);
      EnqueueAllKeepsHold(l, EnqueueIfAccepted(l, s, held[0]), held[1..]);
    }
  }

  lemma EnqueueKeepsHold(l: Limits, s: State, f: Frame)
    ensures Enqueue(l, s, f).queue == s.queue && Enqueue(l, s, f).queuedBytes == s.queuedBytes
  {
    var t := s.(processingBytes := s.processingBytes + f.bytes, processingQueue := s.processingQueue + [f]);
    DrainKeepsHold(t.(processing := true));
  }

  lemma {:induction false} DrainKeepsHold(s: State)
    ensures Drain(s).queue == s.queue && Drain(s).queuedBytes == s.queuedBytes
    decreases |s.processingQueue|
  {
    if s.processingQueue != [] {
      var t := TakeFrame(s);
      if t.inFlight.None? {
        DrainKeepsHold(FinishFrame(t, s.processingQueue[0]));
      }
    }
  }

  /** The counter says what is held. */
  predicate Exact(s: State) {
    Sum(s.queue) == s.queuedBytes
  }

  lemma ReadyIsExact(l: Limits, s: State, native: bool)
    requires Exact(s)
    ensures Exact(BecomeReady(l, s, native))
  {
    FlushEmptiesQueue(l, s.(session := Some(native), ready := true, setup := Ended));
    assert Sum([]) == 0;
    hide Flush;
  }

  lemma MessageIsExact(l: Limits, s: State, f: Frame)
    requires Inv(l, s) && Exact(s)
    ensures Exact(OnMessage(l, s, f))
  {
    SumAppend(s.queue, [f]);
    EnqueueKeepsHold(l, s.(arrivals := s.arrivals + [f]), f);
    assert Sum([f]) == f.bytes && Sum([]) == 0;
    hide Enqueue, Flush, Eligible, Accounted;
  }

  lemma SetupExactUnlessRefused(l: Limits, s: State, e: Event)
    requires Inv(l, s) && Exact(s)
    requires !e.Message? && !e.HandlerDone?
    ensures Exact(Step(l, s, e)) <==> !Leaks(s, e)
  {
    ReadyIsExact(l, s, true);
    ReadyIsExact(l, s, false);
    assert Sum([]) == 0;
    hide BecomeReady, Inv;
  }

  /** A step keeps the counter exact if and only if it is not such a refusal. */
  lemma CounterExactUnlessRefused(l: Limits, s: State, e: Event)
    requires Inv(l, s) && Sum(s.queue) == s.queuedBytes
    ensures Sum(Step(l, s, e).queue) == Step(l, s, e).queuedBytes <==> !Leaks(s, e)
  {
    assert Exact(s) && (Exact(Step(l, s, e)) <==> Sum(Step(l, s, e).queue) == Step(l, s, e).queuedBytes);
    hide Inv, Drain, OnMessage, FinishFrame, Exact, BecomeReady;
    match e
    case Message(f) =>
      MessageIsExact(l, s, f);
      EndIsExact(s);
    case HandlerDone => DoneIsExact(s);
    case _ => SetupExactUnlessRefused(l, s, e);
  }

  lemma EndIsExact(s: State)
    ensures Exact(OnEnd(s))
  {
    assert Sum([]) == 0;
  }

  lemma DoneIsExact(s: State)
    requires Exact(s)
    ensures s.inFlight.Some? ==> Exact(OnHandlerDone(s))
  {
    if s.inFlight.Some? {
      DrainKeepsHold(FinishFrame(s, s.inFlight.value));
    }
    hide Drain;
  }

  /** A refused key after ten held bytes leaves the counter at ten over an empty queue. */
  lemma CounterLeakExample(l: Limits, f: Frame)
    requires f.bytes == 10 && l.frameBytes >= 10 && l.bytes >= 10 && l.frames >= 1
    ensures var s := Run(l, INIT, [Message(f), AuthRefused(4001)]);
            s.queue == [] && s.queuedBytes == 10
  {
    var e := [Message(f), AuthRefused(4001)];
    var s1 := Step(l, INIT, e[0]);
    var s2 := Step(l, s1, e[1]);
    assert e[1..] == [AuthRefused(4001)] && e[1..][1..] == [];
    assert Run(l, s1, e[1..]) == Run(l, s2, []);
  }

  // ---------- Progress ----------

  function Completions(n: nat): seq<Event> {
    if n == 0 then [] else [HandlerDone] + Completions(n - 1)
  }

  /** If the handler keeps finishing, every eligible arrival of an open session is delivered. */
  lemma {:induction false} EverythingDelivered(l: Limits, s: State, n: nat)
    requires Inv(l, s) && s.ready && !s.closed
    requires n >= |s.processingQueue| + InFlightCount(s)
    ensures var t := Run(l, s, Completions(n));
            !t.closed && t.session == s.session && t.delivered == Eligible(s.session.value, s.arrivals) && !t.processing
    decreases n
  {
    if s.inFlight.None? {
      IdleRun(l, s, n);
    } else {
      StepKeepsInv(l, s, HandlerDone);
      DrainCorrect(l, FinishFrame(s, s.inFlight.value));
      assert Completions(n)[1..] == Completions(n - 1);
      EverythingDelivered(l, Step(l, s, HandlerDone), n - 1);
    }
  }

  lemma {:induction false} IdleRun(l: Limits, s: State, n: nat)
    requires s.inFlight.None?
    ensures Run(l, s, Completions(n)) == s
  {
    if n > 0 {
      assert Completions(n)[1..] == Completions(n - 1);
      IdleRun(l, s, n - 1);
    }
  }
}
