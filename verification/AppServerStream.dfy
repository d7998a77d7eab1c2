// The stream's closure variables and the callbacks that update them. Every callback keeps the invariant.
module AppServerStream {
  import opened Options
  import opened AppServerTurn

  class TurnStream {
    var phase: Phase
    var isSealed: bool
    var done: bool
    var started: bool
    var toolIndex: nat
    var threadId: string
    var turnId: string
    var turnStartSent: bool
    var interruptLater: bool
    var clientClosed: bool
    ghost var stopped: bool
    ghost var cancelled: bool
    var out: seq<Chunk>
    var interrupts: seq<Interrupt>

    ghost function Abs(): State
      reads this
    {
      State(phase, isSealed, done, started, toolIndex, threadId, turnId, turnStartSent, interruptLater,
            clientClosed, stopped, cancelled, out, interrupts)
    }

    /** The stream follows its grammar and at most one interrupt is out, for a known thread and turn. */
    ghost predicate Valid()
      reads this
    {
      Inv(Abs())
    }

    constructor (aborted: bool)
      ensures Valid() && Abs() == Begin(aborted)
    {
      phase, isSealed, done, started, toolIndex := Connecting, false, false, false, 0;
      threadId, turnId, turnStartSent, interruptLater, clientClosed := "", "", false, false, false;
      stopped, cancelled, out, interrupts := false, false, [], [];
      new;
      BeginInv(aborted);
      if aborted {
        EndTurnEarly("stop", "");
        phase := Over;
      }
    }

    method Enqueue(c: Chunk)
      modifies this`out
      ensures out == if isSealed then old(out) else old(out) + [c]
    {
      if !isSealed {
        out := out + [c];
      }
    }

    method EnsureRole()
      modifies this`started, this`out
      ensures started && out == if isSealed then old(out) else old(Roled(Abs()))
    {
      if started {
        return;
      }
      started := true;
      Enqueue(Role);
    }

    method RequestInterrupt()
      modifies this`interrupts
      ensures Abs() == SendInterrupt(old(Abs()))
    {
      if threadId != "" && turnId != "" {
        interrupts := interrupts + [Interrupt(threadId, turnId)];
      }
    }

    /** A turn id arrives; one that an early end waits for is interrupted at once, and the socket closed. */
    method Learn(id: string)
      requires Valid() && turnStartSent
      modifies this`turnId, this`interruptLater, this`interrupts, this`clientClosed
      ensures Valid() && Abs() == LearnTurnId(old(Abs()), id)
      ensures old(interruptLater) ==> interrupts == Expected(threadId, Some(id)) && clientClosed
      ensures !old(interruptLater) ==> interrupts == old(interrupts)
    {
      LearnFollows(Abs(), id);
      turnId := id;
      if interruptLater {
        interruptLater := false;
        RequestInterrupt();
        clientClosed := true;
      }
    }

    /** The terminal record and the done marker, once. */
    method FinishTurn(reason: string, error: string, keepOpen: bool)
      modifies this`done, this`started, this`out, this`clientClosed, this`isSealed
      ensures done && Abs() == Finish(old(Abs()), reason, error, keepOpen)
    {
      if done {
        return;
      }
      done := true;
      if error != "" {
        Enqueue(ErrorRecord(error));
      } else {
        EnsureRole();
        Enqueue(FinishRecord(reason));
      }
      Enqueue(DoneMarker);
      if !keepOpen {
        clientClosed := true;
      }
      isSealed := true;
    }

    method EndTurnEarly(reason: string, error: string)
      modifies this`stopped, this`interruptLater, this`interrupts, this`done, this`started, this`out, this`clientClosed,
               this`isSealed
      requires Interrupts(Abs())
      ensures Abs() == EndTurn(old(Abs()), reason, error)
      ensures done && (!old(done) ==> interrupts == Expected(threadId, Some(turnId)))
    {
      hide Finish;
      if done {
        return;
      }
      stopped := true;
      if turnId != "" || !turnStartSent {
        RequestInterrupt();
        FinishTurn(reason, error, false);
        return;
      }
      interruptLater := true;
      FinishTurn(reason, error, true);
    }

    /** An abort or a timeout. */
    method StopEarly(reason: string, error: string)
      requires Valid() && reason != "tool_calls"
      modifies this
      ensures Valid() && Abs() == EndTurn(old(Abs()), reason, error)
      ensures isSealed && old(out) <= out && (old(isSealed) ==> out == old(out))
    {
      EndTurnFollows(Abs(), reason, error);
      hide EndTurn, Finish;
      EndTurnEarly(reason, error);
    }

    /** The reader goes away: nothing more is enqueued, and the turn is ended early if it still runs. */
    method CancelBody()
      requires Valid()
      modifies this
      ensures Valid() && Abs() == Cancel(old(Abs()))
      ensures isSealed && out == old(out)
    {
      CancelFollows(Abs());
      hide EndTurn;
      cancelled := cancelled || !done;
      isSealed := true;
      if !done {
        EndTurnEarly("stop", "");
      }
    }

    method Emit(c: Chunk)
      requires Valid() && Delta(c)
      modifies this`started, this`out
      ensures Valid() && Abs() == Deliver(old(Abs()), c)
      ensures old(out) <= out && (old(isSealed) ==> out == old(out))
    {
      DeliverFollows(Abs(), c);
      EnsureRole();
      Enqueue(c);
    }

    method EmitTool(name: string)
      modifies this`toolIndex, this`started, this`out
      ensures Abs() == old(Deliver(Abs(), Tool(toolIndex, name)).(toolIndex := toolIndex + 1))
    {
      EnsureRole();
      Enqueue(Tool(toolIndex, name));
      toolIndex := toolIndex + 1;
    }

    /** A tool call is surfaced once and ends the turn; later ones are dropped. */
    method OnToolCall(name: string)
      requires Valid()
      modifies this`toolIndex, this`done, this`started, this`out, this`clientClosed, this`isSealed
      ensures Valid() && Abs() == SurfaceTool(old(Abs()), name)
      ensures isSealed && old(out) <= out && (old(isSealed) ==> out == old(out))
    {
      ToolFollows(Abs(), name);
      hide Finish, Inv, InterruptExact;
      EmitTool(name);
      FinishTurn("tool_calls", "", false);
    }

    method HandleReply(r: Reply)
      requires Valid()
      modifies this
      ensures Valid() && Abs() == OnReply(old(Abs()), r)
    {
      ReplyFollows(Abs(), r);
      hide Finish, Shape, LearnTurnId;
      match r {
        case Connected =>
          if phase.Connecting? {
            phase := if done then Over else Initializing;
          }
        case Initialized =>
          if phase.Initializing? {
            phase := if done then Over else StartingThread;
          }
        case ThreadStarted(id) => OnThread(id);
        case TurnStartReply(reply) => OnTurnStart(reply);
        case RunFailed(message) => OnRunFailed(message);
      }
    }

    method OnRunFailed(message: string)
      modifies this`phase, this`done, this`started, this`out, this`clientClosed, this`isSealed
      ensures Abs() == OnReply(old(Abs()), RunFailed(message))
    {
      hide Finish;
      if !phase.Over? {
        phase := Over;
        FinishTurn("", message, false);
      }
    }

    method OnThread(id: string)
      modifies this`phase, this`threadId, this`turnStartSent
      ensures Abs() == OnReply(old(Abs()), ThreadStarted(id))
    {
      if phase.StartingThread? {
        if done {
          phase := Over;
          return;
        }
        phase, threadId, turnStartSent := StartingTurn, id, true;
      }
    }

    method OnTurnStart(reply: Option<string>)
      requires Valid()
      modifies this`phase, this`turnId, this`interruptLater, this`interrupts, this`clientClosed
      ensures Abs() == OnReply(old(Abs()), TurnStartReply(reply))
    {
      if phase.StartingTurn? {
        PhaseFollows(Abs(), Abs().(phase := Over));
        phase := Over;
        if reply.Some? {
          Learn(reply.value);
        }
      }
    }

    method HandleNotification(n: Notification)
      requires Valid()
      modifies this
      ensures Valid() && Abs() == OnNotification(old(Abs()), n)
    {
      NotificationFollows(Abs(), n);
      hide Finish, LearnTurnId, Deliver, SurfaceTool, Inv;
      if !turnStartSent {
        return;
      }
      match n {
        case TurnStarted(id) => Learn(id);
        case TextDelta(text) =>
          if text != "" {
            Emit(Text(text));
          }
        case ReasoningDelta(text) =>
          if text != "" {
            Emit(Reasoning(text));
          }
        case TurnCompleted => FinishTurn("stop", "", false);
        case ErrorNotice(message) => FinishTurn("", message, false);
        case ToolCall(name) => OnToolCall(name);
      }
    }

    /** Any callback at any time: the output only grows, not at all once sealed, and at most one interrupt is sent. */
    method Handle(e: Event)
      requires Valid()
      modifies this
      ensures Valid() && Abs() == Step(old(Abs()), e)
      ensures old(out) <= out && (old(isSealed) ==> isSealed && out == old(out))
      ensures |interrupts| <= 1
    {
      StepFollows(Abs(), e);
      OneInterrupt(Step(Abs(), e));
      hide EndTurn, Cancel, OnReply, OnNotification, Inv, InterruptExact;
      match e {
        case Aborted => StopEarly("stop", "");
        case TimedOut => StopEarly("", TIMEOUT_MESSAGE);
        case Cancelled => CancelBody();
        case GraceOver =>
          if done {
            clientClosed := true;
          }
        case Replied(r) => HandleReply(r);
        case Notified(n) => HandleNotification(n);
      }
    }

    static lemma OneInterrupt(s: State)
      ensures Inv(s) ==> |s.interrupts| <= 1
    {
    }
  }
}
