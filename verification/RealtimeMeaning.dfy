// What single events do to the socket: which session they bring, what they hold, hand over or close.
module RealtimeMeaning {
  import opened Options
  import opened RealtimeProtocol
  import opened RealtimeLaws

  /** The frames that are not binary, in order. */
  function TextFrames(frames: seq<Frame>): seq<Frame> {
    if frames == [] then []
    else TextFrames(frames[..|frames| - 1]) + if frames[|frames| - 1].isBinary then [] else [frames[|frames| - 1]]
  }

  lemma {:induction false} EligibleIs(native: bool, frames: seq<Frame>)
    ensures Eligible(native, frames) == if native then frames else TextFrames(frames)
  {
    if frames != [] {
      var n := |frames| - 1;
      assert frames == frames[..n] + [frames[n]];
      EligibleIs(native, frames[..n]);
      EligibleSnoc(native, frames[..n], frames[n]);
    }
  }

  // ---------- Which session ----------

  /** A session gets ready in these three ways only. */
  predicate BringsSession(s: State, e: Event) {
    || (e == RelayOpened(false) && s.setup == RelayOpening && !s.closed)
    || (e == Configured && s.setup == Configuring)
    || (e == SessionCreated && s.setup == Authorized)
  }

  lemma ReadyIff(l: Limits, s: State, e: Event)
    requires Inv(l, s) && !s.ready
    ensures Step(l, s, e).ready <==> BringsSession(s, e)
  {
    if e.SessionCreated? || e.RelayOpened? || e.Configured? {
      SessionReadyIff(l, s, e);
    } else {
      OnlySessionsGetReady(l, s, e);
      hide Step, Inv;
    }
  }

  lemma SessionReadyIff(l: Limits, s: State, e: Event)
    requires Inv(l, s) && !s.ready && (e.SessionCreated? || e.RelayOpened? || e.Configured?)
    ensures Step(l, s, e).ready <==> BringsSession(s, e)
  {
    hide BecomeReady, Inv;
    ReadySets(l, s, true);
    ReadySets(l, s, false);
    InSetup(l, s);
    NotRefused(l, s);
  }

  lemma NotRefused(l: Limits, s: State)
    requires Inv(l, s)
    ensures !s.setup.Ended? ==> !s.refused
  {
  }

  lemma ReadySets(l: Limits, s: State, native: bool)
    requires Inv(l, s) && !s.ready
    ensures !s.refused && !s.setup.Ended? ==>
              BecomeReady(l, s, native).ready && BecomeReady(l, s, native).session == Some(native)
  {
    if !s.refused && !s.setup.Ended? && !s.closed {
      var t := s.(session := Some(native), ready := true, setup := Ended);
      EnqueueAllFits(l, t.(queue := [], queuedBytes := 0), s.queue);
    }
  }

  /**
   * A relay's session is native and takes over everything held, binary frames included; a chat session takes
   * over the text frames.
   */
  lemma KindMeaning(l: Limits, s: State, e: Event)
    requires Inv(l, s) && !s.ready && Step(l, s, e).ready
    ensures var t := Step(l, s, e);
            && t.session == Some(e != SessionCreated)
            && t.closed == s.closed && t.closeCodes == s.closeCodes
            && (!s.closed ==>
                  t.queue == [] &&
                  t.delivered + t.processingQueue == if e == SessionCreated then TextFrames(s.queue) else s.queue)
  {
    ReadyIff(l, s, e);
    ReadySets(l, s, true);
    ReadySets(l, s, false);
    FlushNeverOverflows(l, s, e);
    EligibleIs(e != SessionCreated, s.queue);
    StepKeepsInv(l, s, e);
    hide BecomeReady, Eligible, TextFrames, Accounted, OneInFlight, HeldWithinBudget, Conserved;
  }

  /** A ready session stays ready and of its kind. */
  lemma KindStays(l: Limits, s: State, e: Event)
    requires Inv(l, s) && s.ready
    ensures Step(l, s, e).ready && Step(l, s, e).session == s.session
  {
    match e
    case Message(f) => MessageKeepsKind(l, s, f);
    case HandlerDone =>
      if s.inFlight.Some? {
        DrainKeepsKind(FinishFrame(s, s.inFlight.value));
      }
    case _ =>
  }

  lemma {:induction false} DrainKeepsKind(s: State)
    ensures Drain(s).ready == s.ready && Drain(s).session == s.session
    decreases |s.processingQueue|
  {
    if s.processingQueue != [] {
      var t := TakeFrame(s);
      if t.inFlight.None? {
        DrainKeepsKind(FinishFrame(t, s.processingQueue[0]));
      }
    }
  }

  lemma MessageKeepsKind(l: Limits, s: State, f: Frame)
    requires Inv(l, s) && s.ready
    ensures OnMessage(l, s, f).ready && OnMessage(l, s, f).session == s.session
  {
    var t := s.(arrivals := s.arrivals + [f]);
    var u := t.(processingBytes := t.processingBytes + f.bytes, processingQueue := t.processingQueue + [f]);
    DrainKeepsKind(u.(processing := true));
    hide Drain, Sum, Eligible;
  }

  // ---------- Handing frames over ----------

  /** How many frames are handed over in one go: those that throw at once, and the first one to be awaited. */
  function HandedOver(work: seq<Frame>): (n: nat)
    ensures n <= |work|
    ensures work != [] ==> n > 0
    ensures forall k :: 0 <= k < n - 1 ==> work[k].throws
    ensures n < |work| ==> !work[n - 1].throws
  {
    if work == [] then 0 else if work[0].throws then 1 + HandedOver(work[1..]) else 1
  }

  /** The frame whose handler is then awaited. */
  function Awaited(work: seq<Frame>): Option<Frame> {
    var n := HandedOver(work);
    if n > 0 && !work[n - 1].throws then Some(work[n - 1]) else None
  }

  lemma {:induction false} DrainMeaning(s: State)
    requires !s.closed && s.session.Some? && s.inFlight.None?
    ensures var n := HandedOver(s.processingQueue);
            && Drain(s).delivered == s.delivered + s.processingQueue[..n]
            && Drain(s).processingQueue == s.processingQueue[n..]
            && Drain(s).inFlight == Awaited(s.processingQueue)
    decreases |s.processingQueue|
  {
    var work := s.processingQueue;
    if work != [] {
      var t := TakeFrame(s);
      if work[0].throws {
        DrainMeaning(FinishFrame(t, work[0]));
        var n := HandedOver(work[1..]);
        assert work[..n + 1] == [work[0]] + work[1..][..n];
        assert s.delivered + [work[0]] + work[1..][..n] == s.delivered + work[..n + 1];
        assert work[1..][n..] == work[n + 1..];
      } else {
        assert work[..1] == [work[0]];
      }
    }
  }

  // ---------- One message ----------

  /** Before a session is ready: the frame is held last, or it breaks a limit and the socket closes. */
  lemma HeldMessage(l: Limits, s: State, f: Frame)
    requires Inv(l, s) && !s.closed && !s.ready
    ensures var t := Step(l, s, Message(f));
            && (t.closed <==> f.bytes > l.frameBytes || |s.queue| + 1 > l.frames || s.queuedBytes + f.bytes > l.bytes)
            && t.delivered == s.delivered
            && (!t.closed ==> t.queue == s.queue + [f] && t.queuedBytes == s.queuedBytes + f.bytes &&
                              t.closeCodes == s.closeCodes)
            && (t.closed ==> t.queue == [] && t.queuedBytes == 0 &&
                             t.closeCodes == s.closeCodes + if f.bytes > l.frameBytes then [] else [1009])
  {
    hide Eligible, Drain, Sum;
  }

  /** The processing side has no room for this frame. */
  predicate Breaks(l: Limits, s: State, f: Frame) {
    || f.bytes > l.frameBytes
    || |s.processingQueue| + (if s.inFlight.Some? then 1 else 0) + 1 > l.frames
    || s.processingBytes + f.bytes > l.bytes
  }

  /**
   * With a ready session: a chat session skips binary frames; any other frame joins the end of the work, at
   * once delivered if nothing is in flight, or it breaks a limit and the socket closes.
   */
  lemma ServedMessage(l: Limits, s: State, f: Frame)
    requires Inv(l, s) && !s.closed && s.ready
    ensures var t := Step(l, s, Message(f));
            if f.isBinary && s.session == Some(false) && f.bytes <= l.frameBytes then
                t == s.(arrivals := s.arrivals + [f])
            else
              && (t.closed <==> Breaks(l, s, f))
              && (!t.closed ==>
                    && t.delivered + t.processingQueue == s.delivered + s.processingQueue + [f]
                    && t.closeCodes == s.closeCodes
                    && (s.inFlight.None? ==>
                          t.delivered == s.delivered + [f] && t.inFlight == if f.throws then None else Some(f)))
              && (t.closed ==>
                    && t.delivered == s.delivered && t.processingQueue == []
                    && t.closeCodes == s.closeCodes + if f.bytes > l.frameBytes then [] else [1009])
  {
    hide Eligible, Sum, Drain, Conserved;
    var t := s.(arrivals := s.arrivals + [f]);
    if f.bytes <= l.frameBytes && (!f.isBinary || s.session.value) {
      if Overflows(l, t, f) {
        EnqueueSafe(l, t, f);
      } else {
        EnqueueFits(l, t, f, 0, 0);
        if t.inFlight.None? {
          AtOnce(l, t, f);
        }
      }
      hide Enqueue;
    }
  }

  lemma AtOnce(l: Limits, s: State, f: Frame)
    requires Accounted(l, s) && OneInFlight(s) && !s.closed && s.session.Some? && s.inFlight.None?
    requires !Overflows(l, s, f)
    ensures Enqueue(l, s, f).delivered == s.delivered + [f]
    ensures Enqueue(l, s, f).inFlight == if f.throws then None else Some(f)
  {
    var t := s.(processingBytes := s.processingBytes + f.bytes, processingQueue := s.processingQueue + [f],
                processing := true);
    SumAppend(s.processingQueue, [f]);
    assert t.processingQueue == [f];
    DrainMeaning(t);
    assert HandedOver([f]) == 1 && [f][..1] == [f];
    hide Drain;
  }

  // ---------- A finished handler call ----------

  /** The frame leaves the accounts; the next ones are handed over up to the first one to be awaited. */
  lemma CompletionMeaning(l: Limits, s: State)
    requires Inv(l, s) && s.inFlight.Some?
    ensures var t := Step(l, s, HandlerDone);
            var n := HandedOver(s.processingQueue);
            && t.delivered == s.delivered + s.processingQueue[..n]
            && t.processingQueue == s.processingQueue[n..] && t.inFlight == Awaited(s.processingQueue)
            && (t.inFlight.None? ==> !t.processing && t.processingBytes == 0)
            && t.closeCodes == s.closeCodes && t.closed == s.closed
  {
    DrainCorrect(l, FinishFrame(s, s.inFlight.value));
    if !s.closed {
      DrainMeaning(FinishFrame(s, s.inFlight.value));
    }
    assert s.closed ==> s.processingQueue == [];
    assert Sum([]) == 0;
    hide Eligible;
  }

  // ---------- Setup ----------

  /** The close codes that setup sends: a refusal's own, 1011 for an exception on an open socket. */
  lemma SetupCodes(l: Limits, s: State, e: Event)
    requires Inv(l, s) && !e.Message?
    ensures Step(l, s, e).closeCodes == s.closeCodes +
              match e
              case AuthRefused(code) => if s.setup == Probing && !s.closed then [code] else []
              case ControlRefused(code) => if s.setup == Authorized then [code] else []
              case FirstFrameRejected(code) => if s.setup == Authorized then [code] else []
              case SetupFailed => if s.setup != Ended && !s.closed then [1011] else []
              case _ => []
  {
    if e.SessionCreated? || e.RelayOpened? || e.Configured? {
      SessionKeepsInv(l, s, e);
      hide BecomeReady;
    }
    hide Eligible, Sum, Inv;
  }

  /** What setup does to the held frames: a refused key or request drops them, nothing else does. */
  lemma SetupHolds(l: Limits, s: State, e: Event)
    requires Inv(l, s) && !s.ready
    requires e.AuthAccepted? || e.AuthRefused? || e.ControlRefused? || e.FirstFrameRejected? || e.SetupFailed? ||
             e.RelayCreated?
    ensures var t := Step(l, s, e);
            && t.queue == (if (e.AuthRefused? && s.setup == Probing && !s.closed) ||
                              (e.ControlRefused? && s.setup == Authorized) then [] else s.queue)
            && t.queuedBytes == (if e.ControlRefused? && s.setup == Authorized then 0 else s.queuedBytes)
            && t.closed == s.closed && t.arrivals == s.arrivals
  {
    hide Eligible, Sum, Inv;
  }

  /** How setup goes on: accepted, then a relay that opens and may be configured, or a chat session. */
  lemma SetupPhases(l: Limits, s: State, e: Event)
    requires Inv(l, s)
    ensures Step(l, s, e).setup ==
              match e
              case AuthAccepted => if s.setup != Probing then s.setup else if s.closed then Ended else Authorized
              case RelayCreated => if s.setup != Authorized then s.setup else if s.closed then Ended else RelayOpening
              case RelayOpened(transcription) =>
                if s.setup != RelayOpening then s.setup else if transcription && !s.closed then Configuring else Ended
              case AuthRefused(_) => if s.setup == Probing then Ended else s.setup
              case Configured => if s.setup == Configuring then Ended else s.setup
              case SetupFailed => Ended
              case SessionCreated => if s.setup == Authorized then Ended else s.setup
              case ControlRefused(_) => if s.setup == Authorized then Ended else s.setup
              case FirstFrameRejected(_) => if s.setup == Authorized then Ended else s.setup
              case Message(_) => s.setup
              case HandlerDone => s.setup
              case Close => s.setup
              case Error => s.setup
  {
    match e
    case Message(f) => MessageKeepsSetup(l, s, f);
    case HandlerDone =>
      if s.inFlight.Some? {
        DrainKeepsSetup(FinishFrame(s, s.inFlight.value));
      }
    case SessionCreated => ReadyKeepsSetup(l, s, false);
    case RelayOpened(_) => ReadyKeepsSetup(l, s, true);
    case Configured => ReadyKeepsSetup(l, s, true);
    case _ =>
  }

  lemma {:induction false} DrainKeepsSetup(s: State)
    ensures Drain(s).setup == s.setup
    decreases |s.processingQueue|
  {
    if s.processingQueue != [] {
      var t := TakeFrame(s);
      if t.inFlight.None? {
        DrainKeepsSetup(FinishFrame(t, s.processingQueue[0]));
      }
    }
  }

  lemma EnqueueKeepsSetup(l: Limits, s: State, f: Frame)
    ensures Enqueue(l, s, f).setup == s.setup
  {
    var t := s.(processingBytes := s.processingBytes + f.bytes, processingQueue := s.processingQueue + [f]);
    DrainKeepsSetup(t.(processing := true));
    hide Drain;
  }

  lemma {:induction false} EnqueueAllKeepsSetup(l: Limits, s: State, held: seq<Frame>)
    requires s.session.Some?
    ensures EnqueueAll(l, s, held).setup == s.setup
    decreases |held|
  {
    hide Enqueue;
    if held != [] {
      EnqueueKeepsSetup(l, s, held[0]);
      EnqueueAllKeepsSetup(l, EnqueueIfAccepted(l, s, held[0]), held[1..]);
    }
  }

  lemma MessageKeepsSetup(l: Limits, s: State, f: Frame)
    requires Inv(l, s)
    ensures Step(l, s, Message(f)).setup == s.setup
  {
    EnqueueKeepsSetup(l, s.(arrivals := s.arrivals + [f]), f);
    hide Enqueue, Eligible, Sum, Flush;
  }

  lemma ReadyKeepsSetup(l: Limits, s: State, native: bool)
    ensures BecomeReady(l, s, native).setup == Ended
  {
    var t := s.(session := Some(native), ready := true, setup := Ended);
    EnqueueAllKeepsSetup(l, t.(queue := [], queuedBytes := 0), t.queue);
    hide EnqueueAll;
  }
}
