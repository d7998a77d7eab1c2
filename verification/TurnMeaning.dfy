// What a turn streams, event by event.
module TurnMeaning {
  import opened Options
  import opened AppServerTurn

  /** The content an event brings while the turn is listened to and its stream open. */
  function Heard(s: State, e: Event): seq<Chunk> {
    if s.sealed || !s.turnStartSent || !e.Notified? then []
    else match e.n
      case TextDelta(text) => if text == "" then [] else [Text(text)]
      case ReasoningDelta(text) => if text == "" then [] else [Reasoning(text)]
      case _ => []
  }

  function HeardAll(s: State, events: seq<Event>): seq<Chunk>
    decreases |events|
  {
    if events == [] then [] else Heard(s, events[0]) + HeardAll(Step(s, events[0]), events[1..])
  }

  /** The content of an output, in order. */
  function ContentOf(out: seq<Chunk>): seq<Chunk> {
    if out == [] then []
    else
      var last := out[|out| - 1];
      ContentOf(out[..|out| - 1]) + if last.Text? || last.Reasoning? then [last] else []
  }

  lemma ContentSnoc(out: seq<Chunk>, c: Chunk)
    ensures ContentOf(out + [c]) == ContentOf(out) + if c.Text? || c.Reasoning? then [c] else []
  {
    assert (out + [c])[..|out|] == out;
  }

  lemma RoledContent(s: State)
    ensures ContentOf(Roled(s)) == ContentOf(s.out)
  {
    if s.started {
      assert s.out + [] == s.out;
    } else {
      ContentSnoc(s.out, Role);
    }
  }

  lemma FinishContent(s: State, reason: string, error: string, keepOpen: bool)
    ensures ContentOf(Finish(s, reason, error, keepOpen).out) == ContentOf(s.out)
  {
    RoledContent(s);
    ContentSnoc(s.out, ErrorRecord(error));
    ContentSnoc(s.out + [ErrorRecord(error)], DoneMarker);
    ContentSnoc(Roled(s), FinishRecord(reason));
    ContentSnoc(Roled(s) + [FinishRecord(reason)], DoneMarker);
    hide ContentOf, Roled;
  }

  lemma DeliverContent(s: State, c: Chunk)
    ensures ContentOf(Deliver(s, c).out) ==
            ContentOf(s.out) + if !s.sealed && (c.Text? || c.Reasoning?) then [c] else []
  {
    RoledContent(s);
    ContentSnoc(Roled(s), c);
    hide ContentOf, Roled;
  }

  lemma EndTurnContent(s: State, reason: string, error: string)
    ensures ContentOf(EndTurn(s, reason, error).out) == ContentOf(s.out)
  {
    var waits := s.turnId == "" && s.turnStartSent;
    FinishContent(SendInterrupt(s.(stopped := true, interruptLater := waits)), reason, error, waits);
    hide ContentOf, Finish;
  }

  lemma StepContent(s: State, e: Event)
    ensures ContentOf(Step(s, e).out) == ContentOf(s.out) + Heard(s, e)
  {
    assert ContentOf(s.out) + [] == ContentOf(s.out);
    match e
    case Aborted => EndTurnContent(s, "stop", "");
    case TimedOut => EndTurnContent(s, "", TIMEOUT_MESSAGE);
    case Cancelled => EndTurnContent(s.(sealed := true, cancelled := s.cancelled || !s.done), "stop", "");
    case GraceOver =>
    case Replied(r) => ReplyContent(s, r);
    case Notified(n) => NotificationContent(s, n);
  }

  lemma LearnIsSilent(s: State, id: string)
    ensures LearnTurnId(s, id).out == s.out && LearnTurnId(s, id).done == s.done
  {
  }

  lemma OtherRepliesAreSilent(s: State, r: Reply)
    requires !r.RunFailed?
    ensures OnReply(s, r).out == s.out
  {
    if r.TurnStartReply? && r.reply.Some? {
      LearnIsSilent(s.(phase := Over), r.reply.value);
    }
    hide LearnTurnId, Finish;
  }

  lemma ReplyContent(s: State, r: Reply)
    ensures ContentOf(OnReply(s, r).out) == ContentOf(s.out)
  {
    if r.RunFailed? {
      RunFailedContent(s, r.message);
    } else {
      OtherRepliesAreSilent(s, r);
      hide OnReply, ContentOf;
    }
  }

  lemma RunFailedContent(s: State, message: string)
    ensures ContentOf(OnReply(s, RunFailed(message)).out) == ContentOf(s.out)
  {
    FinishContent(s.(phase := Over), "", message, false);
    hide ContentOf, Finish;
  }

  lemma NotificationContent(s: State, n: Notification)
    ensures ContentOf(OnNotification(s, n).out) == ContentOf(s.out) + Heard(s, Notified(n))
  {
    assert ContentOf(s.out) + [] == ContentOf(s.out);
    hide ContentOf, Finish, LearnTurnId, Deliver, SurfaceTool;
    match n
    case TurnStarted(id) => LearnIsSilent(s, id);
    case TextDelta(text) => DeliverContent(s, Text(text));
    case ReasoningDelta(text) => DeliverContent(s, Reasoning(text));
    case TurnCompleted => FinishContent(s, "stop", "", false);
    case ErrorNotice(message) => FinishContent(s, "", message, false);
    case ToolCall(name) => ToolContent(s, name);
  }

  lemma ToolContent(s: State, name: string)
    ensures ContentOf(SurfaceTool(s, name).out) == ContentOf(s.out)
  {
    DeliverContent(s, Tool(s.toolIndex, name));
    FinishContent(Deliver(s, Tool(s.toolIndex, name)).(toolIndex := s.toolIndex + 1), "tool_calls", "", false);
    hide ContentOf, Finish, Deliver;
  }

  /** The stream carries exactly the deltas that came while it was open, each as text or reasoning, in order. */
  lemma {:induction false} ContentIsWhatWasHeard(s: State, events: seq<Event>)
    ensures ContentOf(Steps(s, events).out) == ContentOf(s.out) + HeardAll(s, events)
    decreases |events|
  {
    hide Step, Heard, ContentOf;
    if events == [] {
      assert ContentOf(s.out) + [] == ContentOf(s.out);
    } else {
      StepContent(s, events[0]);
      ContentIsWhatWasHeard(Step(s, events[0]), events[1..]);
      assert ContentOf(s.out) + Heard(s, events[0]) + HeardAll(Step(s, events[0]), events[1..]) ==
             ContentOf(s.out) + (Heard(s, events[0]) + HeardAll(Step(s, events[0]), events[1..]));
    }
  }

  // ---------- How a stream ends ----------

  /** The records that end an open stream, with the role first if nothing was sent, and what makes them due. */
  function Last(s: State, e: Event): seq<Chunk> {
    match e
    case Aborted => [FinishRecord("stop")]
    case TimedOut => [ErrorRecord("Codex app-server turn timed out")]
    case Replied(RunFailed(message)) =>
      if s.phase == Over then [] else if message == "" then [FinishRecord("")] else [ErrorRecord(message)]
    case Notified(TurnCompleted) => if s.turnStartSent then [FinishRecord("stop")] else []
    case Notified(ErrorNotice(message)) =>
      if !s.turnStartSent then [] else if message == "" then [FinishRecord("")] else [ErrorRecord(message)]
    case Notified(ToolCall(name)) => if s.turnStartSent then [Tool(0, name), FinishRecord("tool_calls")] else []
    case _ => []
  }

  /** What a step does to an open stream: it ends it with these records, or leaves it open. */
  ghost predicate EndsAsDue(s: State, e: Event) {
    && (Step(s, e).done <==> Last(s, e) != [] || e == Cancelled)
    && (Last(s, e) != [] ==>
          Step(s, e).out == s.out +
            (if s.out == [] && !Last(s, e)[0].ErrorRecord? then [Role] else []) + Last(s, e) + [DoneMarker])
  }

  lemma EndingIs(s: State, e: Event)
    requires Inv(s) && !s.done
    ensures EndsAsDue(s, e)
  {
    RoleFirst(s);
    hide Inv, EndsAsDue;
    match e
    case Replied(r) => ReplyEnds(s, r);
    case Notified(n) => NotificationEnds(s, n);
    case _ => StopEnds(s, e);
  }

  lemma StopEnds(s: State, e: Event)
    requires !s.done && !s.sealed && (s.started <==> s.out != []) && !e.Replied? && !e.Notified?
    ensures EndsAsDue(s, e)
  {
    EndTurnIs(s, "stop", "");
    EndTurnIs(s, "", TIMEOUT_MESSAGE);
    CancelEnds(s);
    hide EndTurn, Cancel;
  }

  lemma EndTurnIs(s: State, reason: string, error: string)
    requires !s.done && !s.sealed
    ensures EndTurn(s, reason, error).done
    ensures EndTurn(s, reason, error).out ==
            (if error != "" then s.out + [ErrorRecord(error)] else Roled(s) + [FinishRecord(reason)]) + [DoneMarker]
  {
    var waits := s.turnId == "" && s.turnStartSent;
    FinishIs(SendInterrupt(s.(stopped := true, interruptLater := waits)), reason, error, waits);
    hide Finish;
  }

  lemma CancelEnds(s: State)
    requires !s.done
    ensures Cancel(s).done
  {
  }

  lemma ReplyEnds(s: State, r: Reply)
    requires !s.done && !s.sealed && (s.started <==> s.out != [])
    ensures EndsAsDue(s, Replied(r))
  {
    if r.RunFailed? {
      FinishIs(s.(phase := Over), "", r.message, false);
    } else if r.TurnStartReply? && r.reply.Some? {
      LearnIsSilent(s.(phase := Over), r.reply.value);
    }
    hide Finish, LearnTurnId;
  }

  lemma NotificationEnds(s: State, n: Notification)
    requires !s.done && !s.sealed && (s.started <==> s.out != []) && s.toolIndex == 0
    ensures EndsAsDue(s, Notified(n))
  {
    hide Finish, LearnTurnId;
    match n
    case TurnStarted(id) => LearnIsSilent(s, id);
    case TurnCompleted => FinishIs(s, "stop", "", false);
    case ErrorNotice(message) => FinishIs(s, "", message, false);
    case ToolCall(name) =>
      var t := Deliver(s, Tool(0, name)).(toolIndex := 1);
      FinishIs(t, "tool_calls", "", false);
      assert t.out + [] == t.out;
    case _ =>
  }

  lemma FinishIs(s: State, reason: string, error: string, keepOpen: bool)
    requires !s.done && !s.sealed
    ensures Finish(s, reason, error, keepOpen).done
    ensures Finish(s, reason, error, keepOpen).out ==
            (if error != "" then s.out + [ErrorRecord(error)] else Roled(s) + [FinishRecord(reason)]) + [DoneMarker]
  {
  }

  lemma RoleFirst(s: State)
    requires Inv(s) && !s.done
    ensures !s.sealed && (s.started <==> s.out != []) && s.toolIndex == 0
  {
  }

  /** When the grace period is over an ended turn gives its socket up, whether or not its id came. */
  lemma GraceCloses(s: State)
    ensures Step(s, GraceOver).clientClosed <==> s.clientClosed || s.done
    ensures Step(s, GraceOver).out == s.out && Step(s, GraceOver).interrupts == s.interrupts
  {
  }

  /** The start-up sequence stands where it stood. */
  predicate SameStartup(s: State, t: State) {
    t.phase == s.phase && t.turnStartSent == s.turnStartSent && t.threadId == s.threadId
  }

  lemma FinishKeepsStartup(s: State, reason: string, error: string, keepOpen: bool)
    ensures SameStartup(s, Finish(s, reason, error, keepOpen))
  {
  }

  lemma LearnKeepsStartup(s: State, id: string)
    ensures SameStartup(s, LearnTurnId(s, id))
  {
  }

  lemma EndTurnKeepsStartup(s: State, reason: string, error: string)
    ensures SameStartup(s, EndTurn(s, reason, error))
  {
    var waits := s.turnId == "" && s.turnStartSent;
    FinishKeepsStartup(SendInterrupt(s.(stopped := true, interruptLater := waits)), reason, error, waits);
    hide Finish;
  }

  /** Outside the replies nothing moves the start-up sequence. */
  lemma OnlyRepliesMove(s: State, e: Event)
    requires !e.Replied?
    ensures SameStartup(s, Step(s, e))
  {
    hide Finish, LearnTurnId, EndTurn;
    match e
    case Aborted => EndTurnKeepsStartup(s, "stop", "");
    case TimedOut => EndTurnKeepsStartup(s, "", TIMEOUT_MESSAGE);
    case Cancelled => EndTurnKeepsStartup(s.(sealed := true, cancelled := s.cancelled || !s.done), "stop", "");
    case GraceOver =>
    case Notified(n) =>
      match n {
        case TurnStarted(id) => LearnKeepsStartup(s, id);
        case TurnCompleted => FinishKeepsStartup(s, "stop", "", false);
        case ErrorNotice(message) => FinishKeepsStartup(s, "", message, false);
        case ToolCall(name) =>
          var delivered := Deliver(s, Tool(s.toolIndex, name));
          FinishKeepsStartup(delivered.(toolIndex := s.toolIndex + 1), "tool_calls", "", false);
        case _ =>
      }
  }

  /** The start-up sequence asks for one thing after the other and stops asking once the turn is over. */
  lemma ReplyMoves(s: State, r: Reply)
    ensures var t := Step(s, Replied(r));
            match r
            case Connected =>
              t == if s.phase != Connecting then s else s.(phase := if s.done then Over else Initializing)
            case Initialized =>
              t == if s.phase != Initializing then s else s.(phase := if s.done then Over else StartingThread)
            case ThreadStarted(id) =>
              t == if s.phase != StartingThread then s
                   else if s.done then s.(phase := Over)
                   else s.(phase := StartingTurn, threadId := id, turnStartSent := true)
            case TurnStartReply(_) => SameStartup(if s.phase == StartingTurn then s.(phase := Over) else s, t)
            case RunFailed(_) => SameStartup(s.(phase := Over), t)
  {
    hide Finish, LearnTurnId;
    match r
    case RunFailed(message) => FinishKeepsStartup(s.(phase := Over), "", message, false);
    case TurnStartReply(reply) =>
      if reply.Some? {
        LearnKeepsStartup(s.(phase := Over), reply.value);
      }
    case _ =>
  }
}
