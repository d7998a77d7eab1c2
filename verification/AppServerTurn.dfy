// One Codex app-server turn: asynchronous replies, notifications, aborts and timeouts against one output stream.
module AppServerTurn {
  import opened Options

  /** Records put on the stream; `reason == ""` is a null finish reason. */
  datatype Chunk = Role
                 | Text(text: string)
                 | Reasoning(text: string)
                 | Tool(index: nat, name: string)
                 | FinishRecord(reason: string)
                 | ErrorRecord(message: string)
                 | DoneMarker

  datatype Interrupt = Interrupt(threadId: string, turnId: string)

  /** Where the start-up sequence of requests is waiting. */
  datatype Phase = Connecting | Initializing | StartingThread | StartingTurn | Over

  // `stopped` and `cancelled` only record history: the turn was ended early, the reader went away first.
  datatype State = State(
    phase: Phase, sealed: bool, done: bool, started: bool, toolIndex: nat,
    threadId: string, turnId: string, turnStartSent: bool, interruptLater: bool, clientClosed: bool,
    stopped: bool, cancelled: bool,
    out: seq<Chunk>, interrupts: seq<Interrupt>)

  const DEFAULT_MESSAGE := "Codex app-server error"

  function FirstLine(text: string): (line: string)
    ensures line <= text && '\n' !in line
    ensures |line| < |text| ==> text[|line|] == '\n'
  {
    if text == "" || text[0] == '\n' then "" else [text[0]] + FirstLine(text[1..])
  }

  /** `sanitize`: redacted, cut to the first line and to 500 characters; an empty message has a default. */
  function Sanitise(redact: string -> string, message: string): string {
    var line := FirstLine(redact(if message == "" then DEFAULT_MESSAGE else message));
    if |line| <= 500 then line else line[..500]
  }

  // Messages are the sanitised ones.
  datatype Reply = Connected | Initialized | ThreadStarted(threadId: string)
                 | TurnStartReply(reply: Option<string>) | RunFailed(message: string)

  datatype Notification = TurnStarted(id: string) | TextDelta(text: string) | ReasoningDelta(text: string)
                        | TurnCompleted | ErrorNotice(message: string) | ToolCall(name: string)

  datatype Event = Aborted | TimedOut | Cancelled | GraceOver | Replied(r: Reply) | Notified(n: Notification)

  const TIMEOUT_MESSAGE := "Codex app-server turn timed out"

  const FRESH := State(Connecting, false, false, false, 0, "", "", false, false, false, false, false, [], [])

  /** What is out once the role chunk is. */
  function Roled(s: State): seq<Chunk> {
    s.out + if s.started then [] else [Role]
  }

  function SendInterrupt(s: State): State {
    if s.threadId != "" && s.turnId != "" then s.(interrupts := s.interrupts + [Interrupt(s.threadId, s.turnId)]) else s
  }

  // A turn id can come after the stream ended early; the pending interrupt is sent then.
  function LearnTurnId(s: State, id: string): State {
    if !s.interruptLater then s.(turnId := id)
    else s.(turnId := id, interruptLater := false, clientClosed := true,
            interrupts :=
              if s.threadId != "" && id != "" then s.interrupts + [Interrupt(s.threadId, id)] else s.interrupts)
  }

  /** The terminal record and the done marker; nothing when the stream is sealed or finished already. */
  function Finish(s: State, reason: string, error: string, keepOpen: bool): State {
    if s.done then s
    else
      s.(done := true, sealed := true, started := s.started || error == "", clientClosed := s.clientClosed || !keepOpen,
         out := if s.sealed then s.out
                else if error != "" then s.out + [ErrorRecord(error)] + [DoneMarker]
                else Roled(s) + [FinishRecord(reason)] + [DoneMarker])
  }

  /** Ends the turn early; while `turn/start` is in flight the interrupt waits for the turn id. */
  function EndTurn(s: State, reason: string, error: string): State {
    if s.done then s
    else
      var waits := s.turnId == "" && s.turnStartSent;
      Finish(SendInterrupt(s.(stopped := true, interruptLater := waits)), reason, error, waits)
  }

  function Cancel(s: State): State {
    EndTurn(s.(sealed := true, cancelled := s.cancelled || !s.done), "stop", "")
  }

  function Deliver(s: State, c: Chunk): State {
    if s.sealed then s.(started := true)
    else s.(started := true, out := Roled(s) + [c])
  }

  function SurfaceTool(s: State, name: string): State {
    var s1 := Deliver(s, Tool(s.toolIndex, name));
    Finish(s1.(toolIndex := s.toolIndex + 1), "tool_calls", "", false)
  }

  /** The start-up sequence: each reply sends the next request, unless the turn is already over. */
  function OnReply(s: State, r: Reply): State {
    match r
    case Connected => if !s.phase.Connecting? then s else s.(phase := if s.done then Over else Initializing)
    case Initialized => if !s.phase.Initializing? then s else s.(phase := if s.done then Over else StartingThread)
    case ThreadStarted(id) =>
      if !s.phase.StartingThread? then s
      else if s.done then s.(phase := Over)
      else s.(phase := StartingTurn, threadId := id, turnStartSent := true)
    case TurnStartReply(reply) =>
      if !s.phase.StartingTurn? then s
      else if reply.Some? then LearnTurnId(s.(phase := Over), reply.value)
      else s.(phase := Over)
    case RunFailed(message) => if s.phase.Over? then s else Finish(s.(phase := Over), "", message, false)
  }

  // Notifications and tool calls are only listened to once the thread is known.
  function OnNotification(s: State, n: Notification): State {
    if !s.turnStartSent then s
    else match n
      case TurnStarted(id) => LearnTurnId(s, id)
      case TextDelta(text) => if text == "" then s else Deliver(s, Text(text))
      case ReasoningDelta(text) => if text == "" then s else Deliver(s, Reasoning(text))
      case TurnCompleted => Finish(s, "stop", "", false)
      case ErrorNotice(message) => Finish(s, "", message, false)
      case ToolCall(name) => SurfaceTool(s, name)
  }

  function Step(s: State, e: Event): State {
    match e
    case Aborted => EndTurn(s, "stop", "")
    case TimedOut => EndTurn(s, "", TIMEOUT_MESSAGE)
    case Cancelled => Cancel(s)
    case GraceOver => if s.done then s.(clientClosed := true) else s
    case Replied(r) => OnReply(s, r)
    case Notified(n) => OnNotification(s, n)
  }

  /** The run starts unless the caller had aborted before; then nothing is ever requested. */
  function Begin(aborted: bool): State {
    if aborted then EndTurn(FRESH, "stop", "").(phase := Over) else FRESH
  }

  function Steps(s: State, events: seq<Event>): State
    decreases |events|
  {
    if events == [] then s else Steps(Step(s, events[0]), events[1..])
  }

  // ---------- The stream's grammar ----------

  predicate Delta(c: Chunk) {
    (c.Text? || c.Reasoning?) && c.text != ""
  }

  predicate Deltas(out: seq<Chunk>) {
    forall i :: 0 <= i < |out| ==> Delta(out[i])
  }

  /** One role chunk, then content. */
  predicate Opened(out: seq<Chunk>) {
    out != [] && out[0] == Role && Deltas(out[1..])
  }

  /** Role, content, a tool call exactly when the reason says so, the finish record. */
  predicate Finished(out: seq<Chunk>) {
    out != [] && out[|out| - 1].FinishRecord? &&
    var body := out[..|out| - 1];
    if out[|out| - 1].reason == "tool_calls"
    then |body| > 1 && body[|body| - 1].Tool? && body[|body| - 1].index == 0 && Opened(body[..|body| - 1])
    else Opened(body)
  }

  /** An error record after whatever was open, possibly nothing. */
  predicate Broken(out: seq<Chunk>) {
    out != [] && out[|out| - 1].ErrorRecord? && out[|out| - 1].message != "" &&
    (out[..|out| - 1] == [] || Opened(out[..|out| - 1]))
  }

  predicate Terminated(out: seq<Chunk>) {
    out != [] && out[|out| - 1] == DoneMarker && (Finished(out[..|out| - 1]) || Broken(out[..|out| - 1]))
  }

  predicate StillOpen(s: State) {
    if s.started then Opened(s.out) else s.out == []
  }

  ghost predicate Shape(s: State) {
    && s.sealed == s.done
    && (!s.done ==> StillOpen(s) && s.toolIndex == 0 && !s.cancelled)
    && (s.done && !s.cancelled ==> Terminated(s.out))
    && (s.done && s.cancelled ==> s.out == [] || Opened(s.out))
  }

  ghost predicate Interrupts(s: State) {
    && (!s.done ==> !s.stopped && s.interrupts == [] && !s.clientClosed)
    && (s.interruptLater ==> s.stopped && s.interrupts == [] && s.turnStartSent)
    && (if s.turnStartSent then s.phase.StartingTurn? || s.phase.Over?
        else s.turnId == "" && s.threadId == "" && !s.phase.StartingTurn?)
    && |s.interrupts| <= 1
    && (s.interrupts != [] ==>
         s.stopped && s.interrupts[0].threadId == s.threadId != "" && s.interrupts[0].turnId != "")
    && (s.done ==> s.clientClosed || s.interruptLater)
    && (s.stopped ==> s.done)
  }

  ghost predicate Inv(s: State) {
    Shape(s) && Interrupts(s)
  }

  /** The interrupt is out exactly when the turn was ended early and both ids are known by now. */
  ghost predicate InterruptExact(s: State) {
    && (s.interruptLater <==> s.stopped && s.turnStartSent && s.turnId == "")
    && (|s.interrupts| == 1 <==> s.stopped && s.threadId != "" && s.turnId != "")
  }

  /** What a transition keeps; `loses` says that it takes away an id the exactness relied on. */
  ghost predicate Follows(s: State, t: State, loses: bool) {
    && Inv(t)
    && (InterruptExact(s) ==> (InterruptExact(t) <==> !loses))
    && (s.sealed ==> t.sealed && t.out == s.out)
    && s.out <= t.out
  }

  lemma RoleShape(s: State)
    requires StillOpen(s)
    ensures Opened(Roled(s))
  {
    assert s.out + [] == s.out;
  }

  lemma Last<T>(out: seq<T>, c: T)
    ensures (out + [c])[..|out|] == out && (out + [c])[|out|] == c && |out + [c]| == |out| + 1
  {
  }

  lemma DeliverShape(s: State, c: Chunk)
    requires StillOpen(s) && Delta(c)
    ensures Opened(Roled(s) + [c])
  {
    RoleShape(s);
    var out := Roled(s);
    assert (out + [c])[1..] == out[1..] + [c];
    hide Roled;
  }

  // What follows an open stream terminates it.
  lemma FinishTerminates(out: seq<Chunk>, reason: string)
    requires Opened(out) && reason != "tool_calls"
    ensures Terminated(out + [FinishRecord(reason)] + [DoneMarker])
  {
    Last(out, FinishRecord(reason));
    Last(out + [FinishRecord(reason)], DoneMarker);
    hide Opened;
  }

  lemma ErrorTerminates(out: seq<Chunk>, error: string)
    requires (out == [] || Opened(out)) && error != ""
    ensures Terminated(out + [ErrorRecord(error)] + [DoneMarker])
  {
    Last(out, ErrorRecord(error));
    Last(out + [ErrorRecord(error)], DoneMarker);
    hide Opened;
  }

  lemma ToolTerminates(out: seq<Chunk>, name: string)
    requires Opened(out)
    ensures Terminated(out + [Tool(0, name)] + [FinishRecord("tool_calls")] + [DoneMarker])
  {
    var c := Tool(0, name);
    Last(out, c);
    Last(out + [c], FinishRecord("tool_calls"));
    Last(out + [c] + [FinishRecord("tool_calls")], DoneMarker);
    hide Opened;
  }

  // Finishing an open stream terminates it.
  lemma FinishOutput(s: State, reason: string, error: string, keepOpen: bool)
    requires !s.sealed && !s.done && StillOpen(s) && reason != "tool_calls"
    ensures var t := Finish(s, reason, error, keepOpen);
            Terminated(t.out) && s.out <= t.out
  {
    hide Terminated, Opened;
    if error == "" {
      RoleShape(s);
      FinishTerminates(Roled(s), reason);
    } else {
      ErrorTerminates(s.out, error);
    }
  }

  lemma FinishFollows(s: State, reason: string, error: string)
    requires Inv(s) && reason != "tool_calls"
    ensures Follows(s, Finish(s, reason, error, false), false)
  {
    if !s.done {
      FinishOutput(s, reason, error, false);
    }
    hide Terminated, Opened, Roled;
  }

  lemma ToolOutput(s: State, name: string)
    requires !s.sealed && !s.done && StillOpen(s) && s.toolIndex == 0
    ensures var t := SurfaceTool(s, name);
            Terminated(t.out) && s.out <= t.out
  {
    RoleShape(s);
    ToolTerminates(Roled(s), name);
    var t := Deliver(s, Tool(0, name));
    assert t.out + [] == t.out;
    hide Terminated, Opened, Roled;
  }

  lemma ToolFollows(s: State, name: string)
    requires Inv(s)
    ensures Follows(s, SurfaceTool(s, name), false)
  {
    if !s.done {
      ToolOutput(s, name);
    }
    hide Terminated, Opened, Roled;
  }

  // Ending early: at once when no turn can be running, else once its id is known.
  lemma EndTurnFollows(s: State, reason: string, error: string)
    requires Inv(s) && reason != "tool_calls"
    ensures Follows(s, EndTurn(s, reason, error), false)
  {
    hide Terminated, Opened, Roled;
    if !s.done {
      var waits := s.turnId == "" && s.turnStartSent;
      FinishOutput(SendInterrupt(s.(stopped := true, interruptLater := waits)), reason, error, waits);
    }
  }

  // A reader that goes away seals the stream as it stands.
  lemma CancelFollows(s: State)
    requires Inv(s)
    ensures Follows(s, Cancel(s), false)
    ensures Cancel(s).out == s.out && Cancel(s).sealed
    ensures s.done ==> Cancel(s) == s.(sealed := true)
  {
    hide Terminated, Opened;
  }

  lemma LearnFollows(s: State, id: string)
    requires Inv(s) && s.turnStartSent
    ensures Follows(s, LearnTurnId(s, id), id == "" && s.stopped)
  {
    hide Terminated, Opened;
  }

  lemma DeliverFollows(s: State, c: Chunk)
    requires Inv(s) && Delta(c)
    ensures Follows(s, Deliver(s, c), false)
  {
    hide Terminated, Opened;
    if !s.sealed {
      DeliverShape(s, c);
    }
  }

  /** The turn id an event teaches, if it is listened to at all. */
  function Learns(s: State, e: Event): Option<string> {
    if e.Notified? && e.n.TurnStarted? && s.turnStartSent then Some(e.n.id)
    else if e.Replied? && e.r.TurnStartReply? && s.phase.StartingTurn? then e.r.reply
    else None
  }

  /** An empty id that comes after the turn was ended early. */
  predicate LosesId(s: State, e: Event) {
    Learns(s, e) == Some("") && s.stopped
  }

  lemma PhaseFollows(s: State, t: State)
    requires Inv(s) && t == s.(phase := t.phase)
    requires if s.turnStartSent then t.phase.Over? else !t.phase.StartingTurn?
    ensures Follows(s, t, false)
  {
  }

  lemma ThreadFollows(s: State, id: string)
    requires Inv(s) && !s.done
    ensures Follows(s, s.(phase := StartingTurn, threadId := id, turnStartSent := true), false)
  {
  }

  lemma OverFollows(s: State)
    requires Inv(s)
    ensures Follows(s, s.(phase := Over), false)
  {
    PhaseFollows(s, s.(phase := Over));
  }

  lemma StartupFollows(s: State, r: Reply)
    requires Inv(s) && (r.Connected? || r.Initialized? || r.ThreadStarted?)
    ensures Follows(s, OnReply(s, r), false)
  {
    OverFollows(s);
    if !s.done && s.phase.StartingThread? && r.ThreadStarted? {
      ThreadFollows(s, r.threadId);
    }
    hide Shape;
  }

  lemma TurnReplyFollows(s: State, reply: Option<string>)
    requires Inv(s)
    ensures var r := TurnStartReply(reply);
            Follows(s, OnReply(s, r), LosesId(s, Replied(r)))
  {
    OverFollows(s);
    if s.phase.StartingTurn? && reply.Some? {
      LearnFollows(s.(phase := Over), reply.value);
    }
    hide LearnTurnId, Shape;
  }

  lemma ReplyFollows(s: State, r: Reply)
    requires Inv(s)
    ensures Follows(s, OnReply(s, r), LosesId(s, Replied(r)))
  {
    hide Inv, InterruptExact, Finish, LearnTurnId;
    match r {
      case TurnStartReply(reply) => TurnReplyFollows(s, reply);
      case RunFailed(message) =>
        OverFollows(s);
        FinishFollows(s.(phase := Over), "", message);
      case _ => StartupFollows(s, r);
    }
  }

  lemma NotificationFollows(s: State, n: Notification)
    requires Inv(s)
    ensures Follows(s, OnNotification(s, n), LosesId(s, Notified(n)))
  {
    hide LearnTurnId, Finish, Deliver, SurfaceTool, Inv, InterruptExact;
    match n {
      case TurnStarted(id) => if s.turnStartSent { LearnFollows(s, id); }
      case TextDelta(text) => if text != "" { DeliverFollows(s, Text(text)); }
      case ReasoningDelta(text) => if text != "" { DeliverFollows(s, Reasoning(text)); }
      case TurnCompleted => FinishFollows(s, "stop", "");
      case ErrorNotice(message) => FinishFollows(s, "", message);
      case ToolCall(name) => ToolFollows(s, name);
    }
  }

  /** Every event, in every reachable state. */
  lemma StepFollows(s: State, e: Event)
    requires Inv(s)
    ensures Follows(s, Step(s, e), LosesId(s, e))
  {
    hide Inv, InterruptExact;
    match e {
      case Aborted => EndTurnFollows(s, "stop", "");
      case TimedOut => EndTurnFollows(s, "", TIMEOUT_MESSAGE);
      case Cancelled => CancelFollows(s);
      case GraceOver => GraceFollows(s);
      case Replied(r) => ReplyFollows(s, r);
      case Notified(n) => NotificationFollows(s, n);
    }
  }

  lemma GraceFollows(s: State)
    requires Inv(s)
    ensures Follows(s, Step(s, GraceOver), false)
  {
    hide Terminated, Opened;
  }

  /** A step keeps the interrupt exact if and only if it brings no empty id after an early end. */
  lemma ExactUnlessIdLost(s: State, e: Event)
    requires Inv(s) && InterruptExact(s)
    ensures InterruptExact(Step(s, e)) <==> !LosesId(s, e)
  {
    StepFollows(s, e);
    hide Inv, InterruptExact, Step, LosesId;
  }

  lemma {:induction false} StepsKeepInv(s: State, events: seq<Event>)
    requires Inv(s)
    ensures Inv(Steps(s, events))
    ensures s.sealed ==> Steps(s, events).out == s.out
    ensures s.out <= Steps(s, events).out
    decreases |events|
  {
    if events != [] {
      StepFollows(s, events[0]);
      hide Step, Inv, InterruptExact, LosesId;
      StepsKeepInv(Step(s, events[0]), events[1..]);
    }
  }

  lemma BeginInv(aborted: bool)
    ensures Inv(Begin(aborted)) && InterruptExact(Begin(aborted))
  {
    EndTurnFollows(FRESH, "stop", "");
    PhaseFollows(EndTurn(FRESH, "stop", ""), EndTurn(FRESH, "stop", "").(phase := Over));
    hide Shape;
  }

  /**
   * Whatever arrives in whatever order: the stream follows its grammar, at most one interrupt is
   * sent, and only for a known thread and for the very turn that was ended early.
   */
  lemma TurnIsWellFormed(aborted: bool, events: seq<Event>)
    ensures Inv(Steps(Begin(aborted), events))
    ensures var t := Steps(Begin(aborted), events);
            t.interrupts == if aborted then [] else Expected(t.threadId, EndedTurn(FRESH, events))
  {
    BeginInv(aborted);
    StepsKeepInv(Begin(aborted), events);
    hide Step, Steps, Inv;
    if aborted {
      AbortedBegin();
      NoMoreInterrupts(Begin(true), events);
    } else {
      InterruptsAre(FRESH, events);
    }
  }

  lemma {:induction false} StepsSplit(s: State, a: seq<Event>, b: seq<Event>)
    ensures Steps(s, a + b) == Steps(Steps(s, a), b)
    decreases |a|
  {
    hide Step;
    if a == [] {
      assert a + b == b;
    } else {
      assert (a + b)[1..] == a[1..] + b;
      StepsSplit(Step(s, a[0]), a[1..], b);
    }
  }

  /** Nothing is enqueued after the stream was sealed. */
  lemma NothingAfterSeal(aborted: bool, before: seq<Event>, after: seq<Event>)
    requires Steps(Begin(aborted), before).sealed
    ensures Steps(Begin(aborted), before + after).out == Steps(Begin(aborted), before).out
  {
    BeginInv(aborted);
    StepsKeepInv(Begin(aborted), before);
    StepsKeepInv(Steps(Begin(aborted), before), after);
    StepsSplit(Begin(aborted), before, after);
  }

  // ---------- Which turn is interrupted ----------

  /** The first id learnt from here on. */
  function FirstLearnt(s: State, events: seq<Event>): Option<string>
    decreases |events|
  {
    if events == [] then None
    else if Learns(s, events[0]).Some? then Learns(s, events[0])
    else FirstLearnt(Step(s, events[0]), events[1..])
  }

  /** The turn an early end concerns: the one known at that moment, else the first one learnt afterwards. */
  function EndedTurn(s: State, events: seq<Event>): Option<string>
    decreases |events|
  {
    if events == [] then None
    else
      var t := Step(s, events[0]);
      if t.stopped && !s.stopped then (if s.turnId != "" then Some(s.turnId) else FirstLearnt(t, events[1..]))
      else EndedTurn(t, events[1..])
  }

  function Expected(threadId: string, turn: Option<string>): seq<Interrupt> {
    if threadId != "" && turn.Some? && turn.value != "" then [Interrupt(threadId, turn.value)] else []
  }

  /** One step, seen from the interrupt. */
  ghost predicate InterruptStep(s: State, e: Event, t: State) {
    && (s.done ==> t.done && t.stopped == s.stopped && t.threadId == s.threadId && t.turnStartSent == s.turnStartSent)
    && (s.done && !s.interruptLater ==> t.interrupts == s.interrupts && !t.interruptLater)
    && (s.interruptLater ==>
          if Learns(s, e).Some? then t.interrupts == Expected(s.threadId, Learns(s, e)) && !t.interruptLater
          else t.interrupts == [] && t.interruptLater)
    && (!s.done && t.stopped ==>
          && t.done && t.threadId == s.threadId && t.turnStartSent == s.turnStartSent
          && t.interrupts == Expected(s.threadId, if s.turnId != "" then Some(s.turnId) else None)
          && t.interruptLater == (s.turnStartSent && s.turnId == ""))
    && (s.stopped ==> t.stopped)
    && (!t.stopped ==> t.interrupts == [])
  }

  lemma EndTurnInterrupts(s: State, e: Event, reason: string, error: string)
    requires Interrupts(s) && Learns(s, e).None?
    ensures InterruptStep(s, e, EndTurn(s, reason, error))
  {
  }

  lemma FinishInterrupts(s: State, e: Event, t: State, reason: string, error: string)
    requires Interrupts(s) && Learns(s, e).None?
    requires t == s.(started := t.started, out := t.out, toolIndex := t.toolIndex, phase := t.phase)
    ensures InterruptStep(s, e, Finish(t, reason, error, false)) && InterruptStep(s, e, t)
  {
  }

  lemma LearnInterrupts(s: State, e: Event, phase: Phase, id: string)
    requires Interrupts(s) && Learns(s, e) == Some(id)
    ensures InterruptStep(s, e, LearnTurnId(s.(phase := phase), id))
  {
  }

  lemma ReplyInterrupts(s: State, r: Reply)
    requires Interrupts(s)
    ensures InterruptStep(s, Replied(r), OnReply(s, r))
  {
    hide Finish;
    if r.TurnStartReply? && s.phase.StartingTurn? && r.reply.Some? {
      LearnInterrupts(s, Replied(r), Over, r.reply.value);
    } else if r.RunFailed? {
      FinishInterrupts(s, Replied(r), s.(phase := Over), "", r.message);
    }
  }

  lemma NotificationInterrupts(s: State, n: Notification)
    requires Interrupts(s)
    ensures InterruptStep(s, Notified(n), OnNotification(s, n))
  {
    hide Finish;
    var e := Notified(n);
    if s.turnStartSent {
      match n {
        case TurnStarted(id) => LearnInterrupts(s, e, s.phase, id);
        case TextDelta(text) => FinishInterrupts(s, e, Deliver(s, Text(text)), "", "");
        case ReasoningDelta(text) => FinishInterrupts(s, e, Deliver(s, Reasoning(text)), "", "");
        case TurnCompleted => FinishInterrupts(s, e, s, "stop", "");
        case ErrorNotice(message) => FinishInterrupts(s, e, s, "", message);
        case ToolCall(name) =>
          var t := Deliver(s, Tool(s.toolIndex, name)).(toolIndex := s.toolIndex + 1);
          FinishInterrupts(s, e, t, "tool_calls", "");
      }
    }
    hide InterruptStep, LearnTurnId, Deliver;
    FinishInterrupts(s, TimedOut, s, "", "");
  }

  lemma StepInterrupts(s: State, e: Event)
    requires Inv(s)
    ensures InterruptStep(s, e, Step(s, e))
  {
    hide EndTurn, OnReply, OnNotification, Shape;
    match e {
      case Aborted => EndTurnInterrupts(s, e, "stop", "");
      case TimedOut => EndTurnInterrupts(s, e, "", TIMEOUT_MESSAGE);
      case Cancelled => CancelInterrupts(s);
      case GraceOver =>
      case Replied(r) => ReplyInterrupts(s, r);
      case Notified(n) => NotificationInterrupts(s, n);
    }
  }

  lemma CancelInterrupts(s: State)
    requires Interrupts(s)
    ensures InterruptStep(s, Cancelled, Cancel(s))
  {
    EndTurnInterrupts(s.(sealed := true, cancelled := s.cancelled || !s.done), Cancelled, "stop", "");
    hide EndTurn;
  }

  lemma AbortedBegin()
    ensures var s := Begin(true);
            s.done && !s.interruptLater && s.interrupts == []
  {
    EndTurnInterrupts(FRESH, Aborted, "stop", "");
    hide EndTurn;
  }

  lemma {:induction false} NoMoreInterrupts(s: State, events: seq<Event>)
    requires Inv(s) && s.done && !s.interruptLater
    ensures Steps(s, events).interrupts == s.interrupts && Steps(s, events).threadId == s.threadId
    decreases |events|
  {
    if events != [] {
      StepInterrupts(s, events[0]);
      StepFollows(s, events[0]);
      hide Step, Inv, InterruptExact, LosesId, Learns;
      NoMoreInterrupts(Step(s, events[0]), events[1..]);
    }
  }

  // Handlers are only registered with the thread; a turn over before that never learns an id.
  lemma {:induction false} NothingLearnt(s: State, events: seq<Event>)
    requires Inv(s) && s.done && !s.turnStartSent
    ensures FirstLearnt(s, events).None?
    decreases |events|
  {
    if events != [] {
      StepInterrupts(s, events[0]);
      StepFollows(s, events[0]);
      assert Learns(s, events[0]).None?;
      hide Step, Inv, InterruptExact, LosesId, Learns;
      NothingLearnt(Step(s, events[0]), events[1..]);
    }
  }

  lemma {:induction false} PendingInterrupts(s: State, events: seq<Event>)
    requires Inv(s) && s.done && s.interruptLater && s.interrupts == []
    ensures var t := Steps(s, events);
            t.threadId == s.threadId && t.interrupts == Expected(s.threadId, FirstLearnt(s, events))
    decreases |events|
  {
    if events != [] {
      var t := Step(s, events[0]);
      StepInterrupts(s, events[0]);
      StepFollows(s, events[0]);
      hide Step, Inv, InterruptExact, LosesId, Learns;
      if Learns(s, events[0]).Some? {
        NoMoreInterrupts(t, events[1..]);
      } else {
        PendingInterrupts(t, events[1..]);
      }
    }
  }

  /** The interrupts of a run: one for the turn an early end concerns, if thread and turn have names. */
  lemma {:induction false} InterruptsAre(s: State, events: seq<Event>)
    requires Inv(s) && !s.stopped && s.interrupts == []
    ensures var t := Steps(s, events);
            t.interrupts == Expected(t.threadId, EndedTurn(s, events))
    decreases |events|
  {
    if events != [] {
      var t := Step(s, events[0]);
      StepInterrupts(s, events[0]);
      StepFollows(s, events[0]);
      hide Step, Inv, InterruptExact, LosesId, Learns;
      if !t.stopped {
        InterruptsAre(t, events[1..]);
      } else if s.turnId != "" {
        NoMoreInterrupts(t, events[1..]);
      } else if t.interruptLater {
        PendingInterrupts(t, events[1..]);
      } else {
        NoMoreInterrupts(t, events[1..]);
        NothingLearnt(t, events[1..]);
      }
    }
  }

  /** An interrupt goes out if and only if an early end concerns a named turn of a named thread. */
  lemma InterruptedIff(aborted: bool, events: seq<Event>)
    ensures var s := Steps(Begin(aborted), events);
            var turn := EndedTurn(FRESH, events);
            |s.interrupts| == 1 <==> !aborted && s.threadId != "" && turn.Some? && turn.value != ""
  {
    TurnIsWellFormed(aborted, events);
    hide Step, Steps, Inv, EndedTurn;
  }

  /** All along a run, the interrupt is exact. */
  ghost predicate ExactThroughout(s: State, events: seq<Event>)
    decreases |events|
  {
    InterruptExact(s) && (events != [] ==> ExactThroughout(Step(s, events[0]), events[1..]))
  }

  predicate NeverLosesId(s: State, events: seq<Event>)
    decreases |events|
  {
    events == [] || (!LosesId(s, events[0]) && NeverLosesId(Step(s, events[0]), events[1..]))
  }

  /**
   * The interrupt is out exactly when an early end and both current ids call for it, at every point of a
   * run, if and only if no empty id comes after the early end.
   */
  lemma {:induction false} ExactThroughoutIff(s: State, events: seq<Event>)
    requires Inv(s) && InterruptExact(s)
    ensures ExactThroughout(s, events) <==> NeverLosesId(s, events)
    decreases |events|
  {
    if events != [] {
      ExactUnlessIdLost(s, events[0]);
      StepFollows(s, events[0]);
      hide Step, Inv, InterruptExact, LosesId;
      if InterruptExact(Step(s, events[0])) {
        ExactThroughoutIff(Step(s, events[0]), events[1..]);
      }
    }
  }

  /** The caller gives up while `turn/start` is still in flight. */
  function PendingInterrupt(): State {
    var listening := Step(Step(Step(FRESH, Replied(Connected)), Replied(Initialized)), Replied(ThreadStarted("t")));
    Step(listening, Aborted)
  }

  /** Then an empty turn id uses up the pending interrupt: the id that follows is never interrupted. */
  lemma EmptyIdLosesInterrupt()
    ensures var t := Step(Step(PendingInterrupt(), Notified(TurnStarted(""))), Replied(TurnStartReply(Some("u"))));
            t.stopped && t.threadId == "t" && t.turnId == "u" && t.interrupts == []
  {
    var listening := Step(Step(Step(FRESH, Replied(Connected)), Replied(Initialized)), Replied(ThreadStarted("t")));
    assert listening == FRESH.(phase := StartingTurn, threadId := "t", turnStartSent := true);
    FinishOutput(listening.(stopped := true, interruptLater := true), "stop", "", true);
    assert PendingInterrupt().interruptLater && PendingInterrupt().interrupts == [];
    hide Finish, Terminated;
  }

  // ---------- When an error looks like a success ----------

  /** How a terminated stream ended. */
  predicate EndsBroken(out: seq<Chunk>) {
    out != [] && out[|out| - 1] == DoneMarker && Broken(out[..|out| - 1])
  }

  predicate EndsFinished(out: seq<Chunk>, reason: string) {
    |out| >= 2 && out[|out| - 1] == DoneMarker && out[|out| - 2] == FinishRecord(reason) && Finished(out[..|out| - 1])
  }

  lemma BrokenEnding(out: seq<Chunk>, error: string)
    requires (out == [] || Opened(out)) && error != ""
    ensures EndsBroken(out + [ErrorRecord(error)] + [DoneMarker])
  {
    Last(out, ErrorRecord(error));
    Last(out + [ErrorRecord(error)], DoneMarker);
    hide Opened;
  }

  lemma FinishedEnding(out: seq<Chunk>, reason: string)
    requires Opened(out) && reason != "tool_calls"
    ensures EndsFinished(out + [FinishRecord(reason)] + [DoneMarker], reason)
  {
    Last(out, FinishRecord(reason));
    Last(out + [FinishRecord(reason)], DoneMarker);
    hide Opened;
  }

  lemma FinishEnding(s: State, error: string)
    requires !s.sealed && !s.done && StillOpen(s)
    ensures var out := Finish(s, "", error, false).out;
            if error != "" then EndsBroken(out) else EndsFinished(out, "")
  {
    hide Opened, EndsBroken, EndsFinished;
    if error != "" {
      BrokenEnding(s.out, error);
    } else {
      RoleShape(s);
      FinishedEnding(Roled(s), "");
    }
  }

  /** The events by which the server or the connection reports an error. */
  predicate ReportsError(s: State, e: Event, message: string) {
    (e == Notified(ErrorNotice(message)) && s.turnStartSent) || (e == Replied(RunFailed(message)) && !s.phase.Over?)
  }

  /** A reported error ends the stream with an error record if and only if its sanitised message is not empty. */
  lemma ErrorShownIff(s: State, e: Event, message: string)
    requires Inv(s) && !s.done && ReportsError(s, e, message)
    ensures var out := Step(s, e).out;
            (EndsBroken(out) <==> message != "") && (EndsFinished(out, "") <==> message == "")
  {
    hide Inv, Finish, EndsBroken, EndsFinished;
    var open := if e.Replied? then s.(phase := Over) else s;
    OpenStays(s, e, message);
    FinishEnding(open, message);
    NotBoth(Step(s, e).out, "");
  }

  lemma OpenStays(s: State, e: Event, message: string)
    requires Inv(s) && !s.done && ReportsError(s, e, message)
    ensures var open := if e.Replied? then s.(phase := Over) else s;
            !open.sealed && !open.done && StillOpen(open) && Step(s, e) == Finish(open, "", message, false)
  {
    hide Terminated, Opened, Finish;
  }

  lemma NotBoth(out: seq<Chunk>, reason: string)
    ensures !(EndsBroken(out) && EndsFinished(out, reason))
  {
    if |out| >= 2 {
      assert out[..|out| - 1][|out| - 2] == out[|out| - 2];
    }
  }

  /** A sanitised message is empty if and only if the redacted text is empty or starts a new line at once. */
  lemma SanitisedEmptyIff(redact: string -> string, message: string)
    ensures var text := redact(if message == "" then DEFAULT_MESSAGE else message);
            Sanitise(redact, message) == "" <==> text == "" || text[0] == '\n'
  {
  }

  /** The first line of the redacted text, at most five hundred characters of it; an empty message has a default. */
  lemma SanitiseMeaning(redact: string -> string, message: string)
    ensures var text := redact(if message == "" then "Codex app-server error" else message);
            var line := Sanitise(redact, message);
            line <= text && '\n' !in line && |line| <= 500 &&
            (|line| < 500 && |line| < |text| ==> text[|line|] == '\n')
  {
  }

  /** So an error that starts with a line break reads like a completed answer. */
  lemma HiddenErrorExample(s: State)
    requires Inv(s) && !s.done && s.turnStartSent
    ensures EndsFinished(Step(s, Notified(ErrorNotice(Sanitise(x => x, "\nfoo")))).out, "")
  {
    var text := "\nfoo";
    SanitisedEmptyIff(x => x, text);
    assert text[0] == '\n';
    ErrorShownIff(s, Notified(ErrorNotice("")), "");
    hide Step, Inv;
  }
}
