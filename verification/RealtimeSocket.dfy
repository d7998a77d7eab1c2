// The closure of handleRealtimeUpgrade: the variables its handlers share, and
// the handlers themselves, each proved to be one step of the protocol.
module RealtimeSocket {
  import opened Options
  import opened RealtimeProtocol
  import opened RealtimeLaws
  import opened RealtimeMeaning

  class Socket {
    const limits: Limits
    var setup: Setup
    var session: Option<bool>
    var ready: bool
    var closed: bool
    var queue: seq<Frame>
    var queuedBytes: nat
    var processingQueue: seq<Frame>
    var processing: bool
    var processingBytes: int
    var activeProcessingBytes: nat
    var inFlight: Option<Frame>
    var refused: bool
    var arrivals: seq<Frame>
    var delivered: seq<Frame>
    var closeCodes: seq<nat>

    function Abs(): State
      reads this
    {
      State(setup, session, ready, closed, queue, queuedBytes, processingQueue, processing, processingBytes,
            activeProcessingBytes, inFlight, refused, arrivals, delivered, closeCodes)
    }

    /** Budgets, order, conservation and the one-in-flight rule. */
    ghost predicate Valid()
      reads this
    {
      Inv(limits, Abs())
    }

    constructor (limits: Limits)
      ensures Valid() && Abs() == INIT && this.limits == limits
    {
      this.limits := limits;
      setup, session, ready, closed := Probing, None, false, false;
      queue, queuedBytes := [], 0;
      processingQueue, processing, processingBytes, activeProcessingBytes, inFlight := [], false, 0, 0, None;
      refused, arrivals, delivered, closeCodes := false, [], [], [];
    }

    static lemma StepIsSafe(l: Limits, s: State, e: Event)
      requires Inv(l, s)
      ensures var t := Step(l, s, e);
              Inv(l, t) && s.delivered <= t.delivered && (s.closed ==> t.closed && t.delivered == s.delivered)
    {
      StepKeepsInv(l, s, e);
      if s.closed {
        ClosedStepDeliversNothing(l, s, e);
      }
      hide Inv, Step;
    }

    /** Becoming ready closes nothing, brings its own kind of session and takes over what that accepts. */
    static lemma ReadyIsClean(l: Limits, s: State, e: Event)
      requires Inv(l, s) && !s.ready && (e.RelayOpened? || e.Configured? || e.SessionCreated?)
      ensures var t := Step(l, s, e);
              && t.closed == s.closed && t.closeCodes == s.closeCodes && (t.ready <==> BringsSession(s, e))
              && (t.ready ==> t.session == Some(e != SessionCreated))
              && (t.ready && !t.closed ==>
                    t.queue == [] &&
                    t.delivered + t.processingQueue == if e == SessionCreated then TextFrames(s.queue) else s.queue)
    {
      SessionKeepsInv(l, s, e);
      ReadyIff(l, s, e);
      if Step(l, s, e).ready {
        KindMeaning(l, s, e);
      }
      hide Step, TextFrames;
    }

    method ClearProcessingQueue()
      modifies this`processingQueue, this`processingBytes
      ensures Abs() == ClearProcessing(old(Abs()))
    {
      processingQueue := [];
      processingBytes := activeProcessingBytes;
    }

    /** The body of the drain loop, from one await to the next. */
    method DrainProcessingQueue()
      requires inFlight.None?
      modifies this
      ensures Abs() == Drain(old(Abs()))
    {
      ghost var start := Abs();
      hide Drain, TakeFrame, FinishFrame;
      while processingQueue != []
        invariant inFlight.None?
        invariant Drain(Abs()) == Drain(start)
        decreases |processingQueue|
      {
        DrainUnfold(Abs());
        var frame := processingQueue[0];
        HandOver();
        if inFlight.Some? {
          return;
        }
        FinishCurrent(frame);
      }
      DrainUnfold(Abs());
      processing := false;
    }

    /** Shifts the next frame and calls the session's handler with it. */
    method HandOver()
      requires processingQueue != [] && inFlight.None?
      modifies this
      ensures Abs() == TakeFrame(old(Abs()))
      ensures |processingQueue| < |old(processingQueue)|
    {
      var frame := processingQueue[0];
      processingQueue := processingQueue[1..];
      activeProcessingBytes := frame.bytes;
      if !closed && session.Some? {
        delivered := delivered + [frame];
        inFlight := if frame.throws then None else Some(frame);
      }
    }

    /** The `finally` block: the frame no longer counts. */
    method FinishCurrent(frame: Frame)
      modifies this`processingBytes, this`activeProcessingBytes, this`inFlight
      ensures Abs() == FinishFrame(old(Abs()), frame) && inFlight.None?
    {
      processingBytes := processingBytes - frame.bytes;
      activeProcessingBytes := 0;
      inFlight := None;
    }

    static lemma DrainUnfold(s: State)
      ensures s.processingQueue == [] ==> Drain(s) == s.(processing := false)
      ensures s.processingQueue != [] ==>
                Drain(s) == if TakeFrame(s).inFlight.Some? then TakeFrame(s)
                  else Drain(FinishFrame(TakeFrame(s), s.processingQueue[0]))
    {
    }

    method EnqueueFrame(f: Frame)
      requires !processing ==> inFlight.None?
      modifies this
      ensures Abs() == Enqueue(limits, old(Abs()), f)
    {
      hide Drain;
      if closed {
        return;
      }
      if f.bytes > limits.frameBytes
         || |processingQueue| + (if processing then 1 else 0) >= limits.frames
         || processingBytes + f.bytes > limits.bytes {
        closed := true;
        ClearProcessingQueue();
        closeCodes := closeCodes + [1009];
        return;
      }
      processingBytes := processingBytes + f.bytes;
      processingQueue := processingQueue + [f];
      if !processing {
        processing := true;
        DrainProcessingQueue();
      }
    }

    /** The frame is held last, or the socket closes with 1009 and holds nothing; either way within budget. */
    method HoldFrame(f: Frame)
      requires HeldWithinBudget(limits, Abs()) && f.bytes <= limits.frameBytes && !closed
      modifies this`queue, this`queuedBytes, this`closed, this`closeCodes
      ensures Abs() == Hold(limits, old(Abs()), f)
      ensures HeldWithinBudget(limits, Abs())
      ensures if closed then queue == [] && closeCodes == old(closeCodes) + [1009] else queue == old(queue) + [f]
    {
      SumAppend(queue, [f]);
      assert Sum([f]) == f.bytes && Sum([]) == 0;
      if |queue| >= limits.frames || queuedBytes + f.bytes > limits.bytes {
        closed := true;
        queue := [];
        queuedBytes := 0;
        closeCodes := closeCodes + [1009];
        return;
      }
      queuedBytes := queuedBytes + f.bytes;
      queue := queue + [f];
    }

    /** Hands the held frames over, stopping when one of them closes the socket. */
    method FlushHeld()
      requires session.Some? && Accounted(limits, Abs()) && OneInFlight(Abs())
      modifies this
      ensures Abs() == Flush(limits, old(Abs()))
      ensures Accounted(limits, Abs()) && OneInFlight(Abs())
    {
      var held := queue;
      queue := [];
      queuedBytes := 0;
      ghost var start := Abs();
      for i := 0 to |held|
        invariant session.Some? && session == old(session)
        invariant Accounted(limits, Abs()) && OneInFlight(Abs())
        invariant EnqueueAll(limits, Abs(), held[i..]) == EnqueueAll(limits, start, held)
      {
        assert held[i..][0] == held[i] && held[i..][1..] == held[i + 1..];
        if closed {
          ClosedFlush(limits, Abs(), held[i..]);
          break;
        }
        ghost var before := Abs();
        if !held[i].isBinary || session.value {
          EnqueueSafe(limits, before, held[i]);
          EnqueueFrame(held[i]);
        }
      }
    }

    // Once closed, the rest of a flush does nothing, so breaking off is the same.
    static lemma {:induction false} ClosedFlush(l: Limits, s: State, held: seq<Frame>)
      requires s.closed && s.session.Some?
      ensures EnqueueAll(l, s, held) == s
      decreases |held|
    {
      if held != [] {
        ClosedFlush(l, s, held[1..]);
      }
    }

    /** A client frame: held, queued and served in order, or the socket closes. */
    method OnMessageEvent(f: Frame)
      requires Valid()
      modifies this
      ensures Valid() && old(delivered) <= delivered && (old(closed) ==> closed && delivered == old(delivered))
      ensures !old(closed) && !old(ready) ==>
                && (closed <==>
                      f.bytes > limits.frameBytes || |old(queue)| + 1 > limits.frames ||
                      old(queuedBytes) + f.bytes > limits.bytes)
                && (!closed ==> queue == old(queue) + [f])
      ensures !old(closed) && old(ready) && (!f.isBinary || old(session) == Some(true)) ==>
                && (closed <==> Breaks(limits, old(Abs()), f))
                && (!closed ==> delivered + processingQueue == old(delivered) + old(processingQueue) + [f])
      ensures Abs() == Step(limits, old(Abs()), Message(f))
    {
      StepIsSafe(limits, Abs(), Message(f));
      if !closed && !ready {
        HeldMessage(limits, Abs(), f);
      } else if !closed {
        ServedMessage(limits, Abs(), f);
      }
      hide Drain, Enqueue, Flush, Hold, Conserved;
      if f.bytes > limits.frameBytes {
        OnEndEvent();
        return;
      }
      if closed {
        return;
      }
      arrivals := arrivals + [f];
      if !ready || session.None? {
        HoldFrame(f);
        return;
      }
      if queue != [] {
        assert false; // a ready session has flushed its held frames, so the flush here never starts
      }
      if !closed && (!f.isBinary || session.value) {
        EnqueueFrame(f);
      }
    }

    /** The shared clean-up of the `close` and `error` handlers. */
    method OnEndEvent()
      requires Valid()
      modifies this
      ensures Valid() && Abs() == OnEnd(old(Abs()))
      ensures closed && queue == [] && processingQueue == [] && queuedBytes == 0
      ensures processingBytes == activeProcessingBytes && inFlight == old(inFlight) && delivered == old(delivered)
    {
      StepIsSafe(limits, Abs(), Close);
      closed := true;
      queue := [];
      queuedBytes := 0;
      ClearProcessingQueue();
    }

    /** The awaited handler call settles: account for its frame and drain on. */
    method OnHandlerSettled()
      requires Valid() && inFlight.Some?
      modifies this
      ensures Valid() && old(delivered) <= delivered && (old(closed) ==> closed && delivered == old(delivered))
      ensures Abs() == Step(limits, old(Abs()), HandlerDone)
    {
      StepIsSafe(limits, Abs(), HandlerDone);
      hide Drain, Inv;
      FinishCurrent(inFlight.value);
      DrainProcessingQueue();
    }

    /** Setup resumes with the verdict of the key probe. */
    method OnAuth(ok: bool, code: nat)
      requires Valid() && setup.Probing?
      modifies this
      ensures Valid() && delivered == old(delivered) && queuedBytes == old(queuedBytes)
      ensures Abs() == Step(limits, old(Abs()), if ok then AuthAccepted else AuthRefused(code))
      ensures refused <==> !ok && !old(closed)
      ensures refused ==> queue == []
    {
      StepIsSafe(limits, Abs(), if ok then AuthAccepted else AuthRefused(code));
      if closed {
        setup := Ended;
        return;
      }
      if !ok {
        queue := [];
        closeCodes := closeCodes + [code];
        setup, refused := Ended, true;
        return;
      }
      setup := Authorized;
    }

    /** The control plane turns the session down. */
    method OnControlRefused(code: nat)
      requires Valid() && setup.Authorized?
      modifies this
      ensures Valid() && refused && queue == [] && queuedBytes == 0 && delivered == old(delivered)
      ensures Abs() == Step(limits, old(Abs()), ControlRefused(code))
    {
      StepIsSafe(limits, Abs(), ControlRefused(code));
      queue := [];
      queuedBytes := 0;
      closeCodes := closeCodes + [code];
      setup, refused := Ended, true;
    }

    /** The first frame, or its absence, ends the setup; this branch closes without looking at `closed`. */
    method OnFirstFrameRejected(code: nat)
      requires Valid() && setup.Authorized?
      modifies this
      ensures Valid() && refused && delivered == old(delivered) && closeCodes == old(closeCodes) + [code]
      ensures Abs() == Step(limits, old(Abs()), FirstFrameRejected(code))
    {
      StepIsSafe(limits, Abs(), FirstFrameRejected(code));
      closeCodes := closeCodes + [code];
      setup, refused := Ended, true;
    }

    /** Setup throws: an open socket is closed with 1011, a closed one left alone. */
    method OnSetupFailed()
      requires Valid() && !setup.Ended?
      modifies this
      ensures Valid() && delivered == old(delivered)
      ensures closeCodes == if old(closed) then old(closeCodes) else old(closeCodes) + [INTERNAL_ERROR]
      ensures Abs() == Step(limits, old(Abs()), SetupFailed)
    {
      StepIsSafe(limits, Abs(), SetupFailed);
      if !closed {
        closeCodes := closeCodes + [INTERNAL_ERROR];
        refused := true;
      }
      setup := Ended;
    }

    /** The relay object exists; the socket may have gone away meanwhile. */
    method OnRelayCreated()
      requires Valid() && setup.Authorized?
      modifies this
      ensures Valid() && delivered == old(delivered)
      ensures Abs() == Step(limits, old(Abs()), RelayCreated)
    {
      StepIsSafe(limits, Abs(), RelayCreated);
      session := Some(false);
      if closed {
        setup := Ended;
        return;
      }
      session := Some(true);
      setup := RelayOpening;
    }

    /** The session is there: everything held is handed over. */
    method GetReady(native: bool)
      requires Accounted(limits, Abs()) && OneInFlight(Abs())
      modifies this
      ensures Abs() == BecomeReady(limits, old(Abs()), native)
    {
      hide Flush;
      session, ready, setup := Some(native), true, Ended;
      if queue != [] {
        FlushHeld();
      }
    }

    method OnRelayOpened(transcription: bool)
      requires Valid() && setup.RelayOpening?
      modifies this
      ensures Valid() && old(delivered) <= delivered && (old(closed) ==> closed && delivered == old(delivered))
      ensures closed == old(closed) && closeCodes == old(closeCodes)
      ensures ready <==> !transcription && !closed
      ensures ready ==> session == Some(true) && queue == [] && delivered + processingQueue == old(queue)
      ensures Abs() == Step(limits, old(Abs()), RelayOpened(transcription))
    {
      StepIsSafe(limits, Abs(), RelayOpened(transcription));
      ReadyIsClean(limits, Abs(), RelayOpened(transcription));
      hide BecomeReady, Conserved;
      if closed {
        setup := Ended;
        return;
      }
      if transcription {
        setup := Configuring;
        return;
      }
      GetReady(true);
    }

    method OnConfigured()
      requires Valid() && setup.Configuring?
      modifies this
      ensures Valid() && old(delivered) <= delivered && (old(closed) ==> closed && delivered == old(delivered))
      ensures closed == old(closed) && closeCodes == old(closeCodes)
      ensures ready && session == Some(true)
      ensures !closed ==> queue == [] && delivered + processingQueue == old(queue)
      ensures Abs() == Step(limits, old(Abs()), Configured)
    {
      StepIsSafe(limits, Abs(), Configured);
      ReadyIsClean(limits, Abs(), Configured);
      hide BecomeReady, Conserved;
      GetReady(true);
    }

    method OnSessionCreated()
      requires Valid() && setup.Authorized?
      modifies this
      ensures Valid() && old(delivered) <= delivered && (old(closed) ==> closed && delivered == old(delivered))
      ensures closed == old(closed) && closeCodes == old(closeCodes)
      ensures ready && session == Some(false)
      ensures !closed ==> queue == [] && delivered + processingQueue == TextFrames(old(queue))
      ensures Abs() == Step(limits, old(Abs()), SessionCreated)
    {
      StepIsSafe(limits, Abs(), SessionCreated);
      ReadyIsClean(limits, Abs(), SessionCreated);
      hide BecomeReady, Conserved;
      GetReady(false);
    }
  }
}
