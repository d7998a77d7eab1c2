// The realtime socket as a step system: one step per socket event, setup
// continuation or finished handler call, so awaits interleave freely.
module RealtimeProtocol {
  import opened Options
  import Records

  /**
   * A client frame. `throws` says that the session's handler fails synchronously
   * on it, so that the drain loop goes on without yielding.
   */
  datatype Frame = Frame(payload: int, bytes: nat, isBinary: bool, throws: bool)

  /** MAX_REALTIME_FRAME_BYTES, MAX_REALTIME_PREAUTH_FRAMES and MAX_REALTIME_PREAUTH_BYTES. */
  datatype Limits = Limits(frameBytes: nat, frames: nat, bytes: nat)

  // Where the asynchronous setup is suspended.
  datatype Setup = Probing | Authorized | RelayOpening | Configuring | Ended

  datatype State = State(
    setup: Setup,
    session: Option<bool>,        // `rt`, and whether it is native
    ready: bool,
    closed: bool,
    queue: seq<Frame>,            // held before the session is ready
    queuedBytes: nat,
    processingQueue: seq<Frame>,
    processing: bool,
    processingBytes: int,
    activeProcessingBytes: nat,
    inFlight: Option<Frame>,      // the frame whose handler call is awaited
    // What an observer of the socket has seen.
    refused: bool,                // setup gave up without a session
    arrivals: seq<Frame>,         // messages received while open
    delivered: seq<Frame>,        // handler calls, in order
    closeCodes: seq<nat>          // `ws.close` calls
  )

  const INTERNAL_ERROR := 1011

  const INIT := State(Probing, None, false, false, [], 0, [], false, 0, 0, None, false, [], [], [])

  datatype Event =
    | Message(frame: Frame)
    | Close
    | Error
    | HandlerDone
    | AuthAccepted
    | AuthRefused(code: nat)
    | ControlRefused(code: nat)
    | FirstFrameRejected(code: nat)
    | SetupFailed
    | SessionCreated
    | RelayCreated
    | RelayOpened(transcription: bool)
    | Configured

  function Sum(frames: seq<Frame>): nat {
    if frames == [] then 0 else frames[0].bytes + Sum(frames[1..])
  }

  predicate Accepts(native: bool, f: Frame) {
    !f.isBinary || native
  }

  /** Binary frames only concern native sessions. */
  function Eligible(native: bool, frames: seq<Frame>): seq<Frame> {
    if frames == [] then []
    else (if Accepts(native, frames[0]) then [frames[0]] else []) + Eligible(native, frames[1..])
  }

  function ClearProcessing(s: State): State {
    s.(processingQueue := [], processingBytes := s.activeProcessingBytes)
  }

  function FinishFrame(s: State, f: Frame): State {
    s.(processingBytes := s.processingBytes - f.bytes, activeProcessingBytes := 0, inFlight := None)
  }

  /** Takes the next frame off the queue and, if the session is alive, hands it over. */
  function TakeFrame(s: State): State
    requires s.processingQueue != []
  {
    var f := s.processingQueue[0];
    var t := s.(processingQueue := s.processingQueue[1..], activeProcessingBytes := f.bytes);
    if !t.closed && t.session.Some? then
      t.(delivered := t.delivered + [f], inFlight := if f.throws then None else Some(f))
    else t
  }

  /** The drain loop up to its next await or its end. */
  function Drain(s: State): (t: State)
    ensures t.session == s.session && t.closed == s.closed && t.closeCodes == s.closeCodes
    decreases |s.processingQueue|
  {
    if s.processingQueue == [] then s.(processing := false)
    else
      var t := TakeFrame(s);
      if t.inFlight.Some? then t else Drain(FinishFrame(t, s.processingQueue[0]))
  }

  predicate Overflows(l: Limits, s: State, f: Frame) {
    || f.bytes > l.frameBytes
    || |s.processingQueue| + (if s.processing then 1 else 0) >= l.frames
    || s.processingBytes + f.bytes > l.bytes
  }

  function Enqueue(l: Limits, s: State, f: Frame): State {
    if s.closed then s
    else if Overflows(l, s, f) then ClearProcessing(s).(closed := true, closeCodes := s.closeCodes + [1009])
    else
      var t := s.(processingBytes := s.processingBytes + f.bytes, processingQueue := s.processingQueue + [f]);
      if t.processing then t else Drain(t.(processing := true))
  }

  function Hold(l: Limits, s: State, f: Frame): State {
    if |s.queue| >= l.frames || s.queuedBytes + f.bytes > l.bytes then
      s.(closed := true, queue := [], queuedBytes := 0, closeCodes := s.closeCodes + [1009])
    else
      s.(queue := s.queue + [f], queuedBytes := s.queuedBytes + f.bytes)
  }

  function EnqueueIfAccepted(l: Limits, s: State, f: Frame): (t: State)
    requires s.session.Some?
    ensures t.session == s.session
  {
    if Accepts(s.session.value, f) then Enqueue(l, s, f) else s
  }

  function EnqueueAll(l: Limits, s: State, held: seq<Frame>): (t: State)
    requires s.session.Some?
    ensures t.session == s.session
    decreases |held|
  {
    if held == [] then s else EnqueueAll(l, EnqueueIfAccepted(l, s, held[0]), held[1..])
  }

  /** Moves everything held to the processing queue. */
  function Flush(l: Limits, s: State): (t: State)
    requires s.session.Some?
    ensures t.session == s.session
  {
    EnqueueAll(l, s.(queue := [], queuedBytes := 0), s.queue)
  }

  function BecomeReady(l: Limits, s: State, native: bool): State {
    var t := s.(session := Some(native), ready := true, setup := Ended);
    if t.queue != [] then Flush(l, t) else t
  }

  function OnMessage(l: Limits, s: State, f: Frame): State {
    if s.closed then s
    else
      var t := s.(arrivals := s.arrivals + [f]);
      if !t.ready || t.session.None? then Hold(l, t, f)
      else
        var u := if t.queue != [] then Flush(l, t) else t;
        if u.closed then u else EnqueueIfAccepted(l, u, f)
  }

  /** `close` and `error` do the same clean-up. */
  function OnEnd(s: State): State {
    ClearProcessing(s.(closed := true, queue := [], queuedBytes := 0))
  }

  function OnHandlerDone(s: State): State
    requires s.inFlight.Some?
  {
    Drain(FinishFrame(s, s.inFlight.value))
  }

  /** Setup gives up; `cleared` says which of the held-frame fields that branch resets. */
  function GiveUp(s: State, code: nat, queue: seq<Frame>, queuedBytes: nat): State {
    s.(setup := Ended, refused := true, queue := queue, queuedBytes := queuedBytes, closeCodes := s.closeCodes + [code])
  }

  function Step(l: Limits, s: State, e: Event): State {
    match e
    case Message(f) =>
      // The socket layer turns an oversize frame into an error event.
      if f.bytes > l.frameBytes then OnEnd(s) else OnMessage(l, s, f)
    case Close => OnEnd(s)
    case Error => OnEnd(s)
    case HandlerDone => if s.inFlight.Some? then OnHandlerDone(s) else s
    case AuthAccepted =>
      if !s.setup.Probing? then s else s.(setup := if s.closed then Ended else Authorized)
    case AuthRefused(code) =>
      if !s.setup.Probing? then s
      else if s.closed then s.(setup := Ended)
      else GiveUp(s, code, [], s.queuedBytes)
    case ControlRefused(code) =>
      if !s.setup.Authorized? then s else GiveUp(s, code, [], 0)
    case FirstFrameRejected(code) =>
      // Unlike the other refusals this one calls `close` on a closed socket too.
      if !s.setup.Authorized? then s else GiveUp(s, code, s.queue, s.queuedBytes)
    case SetupFailed =>
      if s.setup.Ended? then s
      else if s.closed then s.(setup := Ended)
      else GiveUp(s, INTERNAL_ERROR, s.queue, s.queuedBytes)
    case SessionCreated =>
      if !s.setup.Authorized? then s else BecomeReady(l, s, false)
    case RelayCreated =>
      if !s.setup.Authorized? then s
      else if s.closed then s.(session := Some(false), setup := Ended)
      else s.(session := Some(true), setup := RelayOpening)
    case RelayOpened(transcription) =>
      if !s.setup.RelayOpening? then s
      else if s.closed then s.(setup := Ended)
      else if transcription then s.(setup := Configuring)
      else BecomeReady(l, s, true)
    case Configured =>
      if !s.setup.Configuring? then s else BecomeReady(l, s, true)
  }

  function Run(l: Limits, s: State, events: seq<Event>): State
    decreases |events|
  {
    if events == [] then s else Run(l, Step(l, s, events[0]), events[1..])
  }

  // ---------- The invariant ----------

  function InFlightCount(s: State): nat {
    if s.processing then 1 else 0
  }

  /** Budgets of the processing side: exact byte accounting and both caps. */
  ghost predicate Accounted(l: Limits, s: State) {
    && s.processingBytes == Sum(s.processingQueue) + s.activeProcessingBytes
    && s.processingBytes <= l.bytes
    && |s.processingQueue| + InFlightCount(s) <= l.frames
  }

  /** The in-flight frame, its bytes and the `processing` flag go together. */
  ghost predicate OneInFlight(s: State) {
    && (s.processing <==> s.inFlight.Some?)
    && s.activeProcessingBytes == (if s.inFlight.Some? then s.inFlight.value.bytes else 0)
    && (s.inFlight.Some? ==> s.delivered != [] && s.delivered[|s.delivered| - 1] == s.inFlight.value)
    && (s.processingQueue != [] ==> s.processing)
  }

  /** The hold side: held bytes never exceed the counter, and match it unless setup was refused. */
  ghost predicate HeldWithinBudget(l: Limits, s: State) {
    && Sum(s.queue) <= s.queuedBytes <= l.bytes
    && |s.queue| <= l.frames
    && (forall f :: f in s.queue ==> f.bytes <= l.frameBytes)
    && (!s.refused ==> Sum(s.queue) == s.queuedBytes)
  }

  ghost predicate Phases(s: State) {
    && (s.ready ==> s.session.Some? && s.queue == [] && s.setup.Ended? && !s.refused)
    && (!s.ready ==> s.processingQueue == [] && !s.processing && s.delivered == [])
    && (s.closed ==> s.processingQueue == [] && s.queue == [])
    && (s.refused ==> s.setup.Ended?)
    && (!s.closed && !s.refused && s.setup.Ended? ==> s.ready)
  }

  /** No frame is lost, duplicated or reordered while the socket is open. */
  ghost predicate Conserved(s: State) {
    && (s.session.Some? ==> s.delivered <= Eligible(s.session.value, s.arrivals))
    && (!s.closed && s.ready ==>
         s.session.Some? && s.delivered + s.processingQueue == Eligible(s.session.value, s.arrivals))
    && (!s.closed && !s.ready && !s.refused ==> s.queue == s.arrivals)
  }

  ghost predicate Inv(l: Limits, s: State) {
    && Accounted(l, s)
    && OneInFlight(s)
    && HeldWithinBudget(l, s)
    && Phases(s)
    && Conserved(s)
  }

  // ---------- Sums and eligibility ----------

  lemma {:induction false} SumAppend(a: seq<Frame>, b: seq<Frame>)
    ensures Sum(a + b) == Sum(a) + Sum(b)
  {
    if a == [] {
      assert a + b == b;
    } else {
      assert (a + b)[1..] == a[1..] + b;
      SumAppend(a[1..], b);
    }
  }

  lemma {:induction false} EligibleAppend(native: bool, a: seq<Frame>, b: seq<Frame>)
    ensures Eligible(native, a + b) == Eligible(native, a) + Eligible(native, b)
  {
    if a == [] {
      assert a + b == b;
    } else {
      assert (a + b)[1..] == a[1..] + b;
      EligibleAppend(native, a[1..], b);
      Records.Associative(if Accepts(native, a[0]) then [a[0]] else [], Eligible(native, a[1..]), Eligible(native, b));
      hide Accepts;
    }
  }

  // ---------- The drain loop ----------

  /** What draining keeps: everything but the processing side, and the order of frames. */
  ghost predicate SameOutside(s: State, t: State) {
    t == s.(processingQueue := t.processingQueue, processing := t.processing, processingBytes := t.processingBytes,
            activeProcessingBytes := t.activeProcessingBytes, inFlight := t.inFlight, delivered := t.delivered)
  }

  /** Between frames: nothing in flight, the flag still up. */
  ghost predicate BetweenFrames(l: Limits, s: State) {
    && s.processing && s.inFlight.None? && s.activeProcessingBytes == 0
    && s.processingBytes == Sum(s.processingQueue) <= l.bytes
    && |s.processingQueue| <= l.frames
  }

  lemma {:induction false} DrainCorrect(l: Limits, s: State)
    requires BetweenFrames(l, s) && s.session.Some?
    requires s.closed ==> s.processingQueue == []
    ensures SameOutside(s, Drain(s))
    ensures Accounted(l, Drain(s)) && OneInFlight(Drain(s))
    ensures Drain(s).delivered + Drain(s).processingQueue == s.delivered + s.processingQueue
    ensures s.delivered <= Drain(s).delivered
    ensures |Drain(s).processingQueue| + InFlightCount(Drain(s)) <= |s.processingQueue|
    ensures s.processingQueue != [] ==> s.delivered + [s.processingQueue[0]] <= Drain(s).delivered
    decreases |s.processingQueue|
  {
    if s.processingQueue != [] {
      var f := s.processingQueue[0];
      var t := TakeFrame(s);
      assert s.delivered + s.processingQueue == t.delivered + t.processingQueue;
      if t.inFlight.None? {
        DrainCorrect(l, FinishFrame(t, f));
      }
    }
  }

  // ---------- Enqueueing ----------

  /** Room for `frames` more frames of `bytes` bytes in all. */
  ghost predicate Room(l: Limits, s: State, frames: nat, bytes: nat) {
    && |s.processingQueue| + InFlightCount(s) + frames <= l.frames
    && s.processingBytes + bytes <= l.bytes
  }

  /** From `s` to `t` exactly `frames` joined the work, in order, and the accounting still holds. */
  ghost predicate Forwards(l: Limits, s: State, t: State, frames: seq<Frame>) {
    && SameOutside(s, t)
    && Accounted(l, t) && OneInFlight(t)
    && t.delivered + t.processingQueue == s.delivered + s.processingQueue + frames
    && s.delivered <= t.delivered
  }

  lemma ForwardsTrans(l: Limits, s: State, t: State, u: State, a: seq<Frame>, b: seq<Frame>)
    requires Forwards(l, s, t, a) && Forwards(l, t, u, b)
    ensures Forwards(l, s, u, a + b)
  {
    hide Accounted, OneInFlight;
    assert s.delivered + s.processingQueue + a + b == s.delivered + s.processingQueue + (a + b);
  }

  // A frame that fits is appended to the work, and the budget shrinks by no more than it.
  lemma EnqueueFits(l: Limits, s: State, f: Frame, frames: nat, bytes: nat)
    requires Accounted(l, s) && OneInFlight(s) && !s.closed && s.session.Some?
    requires f.bytes <= l.frameBytes && Room(l, s, frames + 1, bytes + f.bytes)
    ensures Forwards(l, s, Enqueue(l, s, f), [f])
    ensures Room(l, Enqueue(l, s, f), frames, bytes)
  {
    var t := s.(processingBytes := s.processingBytes + f.bytes, processingQueue := s.processingQueue + [f]);
    SumAppend(s.processingQueue, [f]);
    if !t.processing {
      DrainBytes(l, t.(processing := true));
      DrainCorrect(l, t.(processing := true));
    }
  }

  lemma {:induction false} DrainBytes(l: Limits, s: State)
    requires BetweenFrames(l, s)
    ensures Drain(s).processingBytes <= s.processingBytes
    decreases |s.processingQueue|
  {
    if s.processingQueue != [] {
      var t := TakeFrame(s);
      if t.inFlight.None? {
        DrainBytes(l, FinishFrame(t, s.processingQueue[0]));
      }
    }
  }

  // Whatever happens to a frame, accounting survives and order is kept.
  lemma EnqueueSafe(l: Limits, s: State, f: Frame)
    requires Accounted(l, s) && OneInFlight(s) && s.session.Some? && !s.closed
    ensures Accounted(l, Enqueue(l, s, f)) && OneInFlight(Enqueue(l, s, f))
    ensures s.delivered <= Enqueue(l, s, f).delivered
    ensures Enqueue(l, s, f).closed <==> Overflows(l, s, f)
    ensures Overflows(l, s, f) ==>
              Enqueue(l, s, f).processingQueue == [] && Enqueue(l, s, f).delivered == s.delivered &&
              SameOutside(s.(closed := true, closeCodes := s.closeCodes + [1009]), Enqueue(l, s, f))
  {
    if !Overflows(l, s, f) {
      EnqueueFits(l, s, f, 0, 0);
    }
  }

  // Flushing frames that fit the budgets never closes the socket.
  lemma {:induction false} EnqueueAllFits(l: Limits, s: State, held: seq<Frame>)
    requires Accounted(l, s) && OneInFlight(s) && !s.closed && s.session.Some?
    requires Room(l, s, |held|, Sum(held)) && forall f :: f in held ==> f.bytes <= l.frameBytes
    ensures Forwards(l, s, EnqueueAll(l, s, held), Eligible(s.session.value, held))
    decreases |held|
  {
    hide Enqueue, Accounted, OneInFlight, Forwards;
    if held == [] {
      ForwardsNothing(l, s);
    } else {
      var f, rest := held[0], held[1..];
      assert f in held && forall g :: g in rest ==> g in held;
      var native := s.session.value;
      var t := EnqueueIfAccepted(l, s, f);
      OfferFits(l, s, f, |rest|, Sum(rest));
      EnqueueAllFits(l, t, rest);
      ForwardsTrans(l, s, t, EnqueueAll(l, t, rest), if Accepts(native, f) then [f] else [], Eligible(native, rest));
    }
  }

  lemma ForwardsNothing(l: Limits, s: State)
    requires Accounted(l, s) && OneInFlight(s)
    ensures Forwards(l, s, s, [])
  {
  }

  lemma OfferFits(l: Limits, s: State, f: Frame, frames: nat, bytes: nat)
    requires Accounted(l, s) && OneInFlight(s) && !s.closed && s.session.Some?
    requires f.bytes <= l.frameBytes && Room(l, s, frames + 1, bytes + f.bytes)
    ensures Forwards(l, s, EnqueueIfAccepted(l, s, f), if Accepts(s.session.value, f) then [f] else [])
    ensures Accounted(l, EnqueueIfAccepted(l, s, f)) && OneInFlight(EnqueueIfAccepted(l, s, f))
    ensures Room(l, EnqueueIfAccepted(l, s, f), frames, bytes) && !EnqueueIfAccepted(l, s, f).closed
  {
    if Accepts(s.session.value, f) {
      EnqueueFits(l, s, f, frames, bytes);
    }
  }

  // ---------- Every step keeps the invariant ----------

  lemma HoldKeepsInv(l: Limits, s: State, f: Frame)
    requires Inv(l, s) && f.bytes <= l.frameBytes && !s.closed && !s.ready
    ensures Inv(l, OnMessage(l, s, f))
    ensures OnMessage(l, s, f).delivered == s.delivered
  {
    SumAppend(s.queue, [f]);
    if s.session.Some? {
      EligibleAppend(s.session.value, s.arrivals, [f]);
    }
  }

  /** What serving a live frame must keep. */
  ghost predicate Serves(l: Limits, s: State, u: State) {
    Inv(l, u) && s.delivered <= u.delivered
  }

  lemma EligibleSnoc(native: bool, arrivals: seq<Frame>, f: Frame)
    ensures Eligible(native, arrivals + [f]) == Eligible(native, arrivals) + if Accepts(native, f) then [f] else []
  {
    EligibleAppend(native, arrivals, [f]);
    assert [f][1..] == [];
  }

  lemma SkippedFrame(l: Limits, s: State, f: Frame)
    requires Inv(l, s) && !s.closed && s.ready && !Accepts(s.session.value, f)
    ensures Serves(l, s, s.(arrivals := s.arrivals + [f]))
  {
    EligibleSnoc(s.session.value, s.arrivals, f);
    hide Eligible, Accepts, Sum;
  }

  lemma OverflowingFrame(l: Limits, s: State, f: Frame)
    requires Inv(l, s) && !s.closed && s.ready && Accepts(s.session.value, f)
    requires Overflows(l, s.(arrivals := s.arrivals + [f]), f)
    ensures Serves(l, s, Enqueue(l, s.(arrivals := s.arrivals + [f]), f))
  {
    var t := s.(arrivals := s.arrivals + [f]);
    EligibleSnoc(s.session.value, s.arrivals, f);
    PrefixTrans(s.delivered, Eligible(s.session.value, s.arrivals), Eligible(s.session.value, t.arrivals));
    EnqueueSafe(l, t, f);
    assert Sum([]) == 0;
    hide Eligible, Accepts, Enqueue, Overflows, Sum;
  }

  lemma FittingFrame(l: Limits, s: State, f: Frame)
    requires Inv(l, s) && f.bytes <= l.frameBytes && !s.closed && s.ready && Accepts(s.session.value, f)
    requires !Overflows(l, s.(arrivals := s.arrivals + [f]), f)
    ensures Serves(l, s, Enqueue(l, s.(arrivals := s.arrivals + [f]), f))
  {
    var t := s.(arrivals := s.arrivals + [f]);
    EligibleSnoc(s.session.value, s.arrivals, f);
    EnqueueSafe(l, t, f);
    EnqueueFits(l, t, f, 0, 0);
    hide Eligible, Accepts, Enqueue, Sum;
    var u := Enqueue(l, t, f);
    assert u.delivered + u.processingQueue == Eligible(s.session.value, u.arrivals);
    assert u.delivered <= u.delivered + u.processingQueue;
  }

  lemma ServeKeepsInv(l: Limits, s: State, f: Frame)
    requires Inv(l, s) && f.bytes <= l.frameBytes && !s.closed && s.ready
    ensures Inv(l, OnMessage(l, s, f))
    ensures s.delivered <= OnMessage(l, s, f).delivered
  {
    hide Drain, Sum, Eligible, Enqueue;
    var t := s.(arrivals := s.arrivals + [f]);
    if !Accepts(s.session.value, f) {
      SkippedFrame(l, s, f);
    } else if Overflows(l, t, f) {
      OverflowingFrame(l, s, f);
    } else {
      FittingFrame(l, s, f);
    }
  }

  lemma PrefixTrans(a: seq<Frame>, b: seq<Frame>, c: seq<Frame>)
    requires a <= b <= c
    ensures a <= c
  {
  }

  lemma MessageKeepsInv(l: Limits, s: State, f: Frame)
    requires Inv(l, s) && f.bytes <= l.frameBytes && !s.closed
    ensures Inv(l, OnMessage(l, s, f))
    ensures s.delivered <= OnMessage(l, s, f).delivered
  {
    if s.ready {
      ServeKeepsInv(l, s, f);
    } else {
      HoldKeepsInv(l, s, f);
    }
  }

  lemma HandlerDoneKeepsInv(l: Limits, s: State)
    requires Inv(l, s) && s.inFlight.Some?
    ensures Inv(l, OnHandlerDone(s))
    ensures s.delivered <= OnHandlerDone(s).delivered
  {
    DrainCorrect(l, FinishFrame(s, s.inFlight.value));
  }

  // Whatever the hold budget accepted fits the processing budget.
  lemma ReadyKeepsInv(l: Limits, s: State, native: bool)
    requires Inv(l, s) && !s.ready && !s.refused && !s.setup.Ended?
    ensures Inv(l, BecomeReady(l, s, native))
    ensures BecomeReady(l, s, native).closed == s.closed && BecomeReady(l, s, native).arrivals == s.arrivals
    ensures BecomeReady(l, s, native).closeCodes == s.closeCodes
    ensures s.delivered <= BecomeReady(l, s, native).delivered
  {
    var t := s.(session := Some(native), ready := true, setup := Ended);
    if !s.closed {
      EnqueueAllFits(l, t.(queue := [], queuedBytes := 0), s.queue);
      var u := BecomeReady(l, s, native);
      assert u.delivered + u.processingQueue == Eligible(native, s.arrivals);
      assert u.delivered <= u.delivered + u.processingQueue;
    }
  }

  // Ending the socket, or the setup, only drops frames.
  lemma EndKeepsInv(l: Limits, s: State)
    requires Inv(l, s)
    ensures Inv(l, OnEnd(s)) && OnEnd(s).delivered == s.delivered
  {
    hide Eligible, Accepts;
  }

  lemma SetupKeepsInv(l: Limits, s: State, e: Event)
    requires Inv(l, s)
    requires e.AuthAccepted? || e.AuthRefused? || e.ControlRefused? || e.FirstFrameRejected? || e.SetupFailed? ||
             e.RelayCreated?
    ensures Inv(l, Step(l, s, e)) && Step(l, s, e).delivered == s.delivered
  {
    hide Eligible, Accepts, Drain;
  }

  lemma PhaseKeepsInv(l: Limits, s: State, setup: Setup)
    requires Inv(l, s) && !s.ready && !s.refused && (setup.Ended? ==> s.closed)
    ensures Inv(l, s.(setup := setup))
  {
    hide Eligible, Sum;
  }

  lemma SessionKeepsInv(l: Limits, s: State, e: Event)
    requires Inv(l, s) && (e.SessionCreated? || e.RelayOpened? || e.Configured?)
    ensures Inv(l, Step(l, s, e)) && s.delivered <= Step(l, s, e).delivered
    ensures Step(l, s, e).closed == s.closed && Step(l, s, e).closeCodes == s.closeCodes
    ensures Step(l, s, e).arrivals == s.arrivals
  {
    InSetup(l, s);
    hide Inv, BecomeReady;
    match e
    case SessionCreated =>
      if s.setup.Authorized? {
        ReadyKeepsInv(l, s, false);
      }
    case RelayOpened(transcription) =>
      if s.setup.RelayOpening? {
        if s.closed || transcription {
          PhaseKeepsInv(l, s, if s.closed then Ended else Configuring);
        } else {
          ReadyKeepsInv(l, s, true);
        }
      }
    case _ =>
      if s.setup.Configuring? {
        ReadyKeepsInv(l, s, true);
      }
  }

  lemma InSetup(l: Limits, s: State)
    requires Inv(l, s)
    ensures !s.setup.Ended? ==> !s.ready && !s.refused
  {
  }

  lemma StepKeepsInv(l: Limits, s: State, e: Event)
    requires Inv(l, s)
    ensures Inv(l, Step(l, s, e))
    ensures s.delivered <= Step(l, s, e).delivered
  {
    hide Inv, OnEnd, OnMessage, OnHandlerDone;
    match e
    case Message(f) =>
      if f.bytes > l.frameBytes {
        EndKeepsInv(l, s);
      } else if s.closed {
        ClosedIgnores(l, s, f);
      } else {
        MessageKeepsInv(l, s, f);
      }
    case Close => EndKeepsInv(l, s);
    case Error => EndKeepsInv(l, s);
    case HandlerDone =>
      if s.inFlight.Some? {
        HandlerDoneKeepsInv(l, s);
      }
    case SessionCreated => SessionKeepsInv(l, s, e);
    case RelayOpened(_) => SessionKeepsInv(l, s, e);
    case Configured => SessionKeepsInv(l, s, e);
    case _ => SetupKeepsInv(l, s, e);
  }

  lemma ClosedIgnores(l: Limits, s: State, f: Frame)
    requires s.closed
    ensures OnMessage(l, s, f) == s
  {
  }
}
