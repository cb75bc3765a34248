/** One thread end to end: the server appends to the log, the client polls it, the user replies.

    Ticks do not overlap: each one reads the log and handles the answer before the next starts. */
module ChatSystem {
  import opened Wrappers
  import opened ChatEvents
  import opened ChatThread

  datatype Server = Working | Waiting | Finished

  /** What the client took in, in order. */
  datatype Input = Event(ev: GatewayEvent) | Answer(text: string)

  /** The last five record the run and are read by nothing: what was handled and answered, how many
      replies reached the server, whether one did not, and whether the client gave up or left. */
  datatype Thread = Thread(
    log: seq<GatewayEvent>,
    server: Server,
    client: Client,
    script: seq<Input>,
    answers: nat,
    refused: bool,
    timedOut: bool,
    left: bool)

  datatype Action =
    | NodeEvent(ev: GatewayEvent)
    | Pause(next: seq<string>, values: seq<InterruptValue>)
    | Complete
    | Fail(detail: string)
    | Tick(now: int)
    | UserAnswers(text: string)
    | ReplyRefused(text: string)
    | Leave

  /** The graph's own nodes; it has no `plan` node. */
  predicate Quiet(ev: GatewayEvent) {
    ev.Usage? || ev.Budget? || ev.NodeStart? || (ev.NodeEnd? && ev.node != "plan")
  }

  /** The interrupts the graph raises: a question from `clarify`, or one of the three reviews. */
  predicate GraphInterrupt(ev: GatewayEvent) {
    && ev.Interrupt?
    && "entity_confirm" !in ev.next && "policy_review" !in ev.next
    && (|| FirstQuestion(ev.values).Some? || "hitl_step_review" in ev.next
        || "analysis_summary" in ev.next || "propose_fix" in ev.next)
  }

  /** They are what its four nodes that ask put into the log. */
  lemma OwnInterrupts(node: string, values: seq<InterruptValue>)
    requires node in {"clarify", "hitl_step_review", "analysis_summary", "propose_fix"}
    requires node == "clarify" ==> values != [] && values[0].question.Some?
    ensures GraphInterrupt(Interrupt([node], values))
  {
    assert "entity_confirm"[0] == 'e' && "policy_review"[1] == 'o';
    assert "clarify"[0] == 'c' && "hitl_step_review"[0] == 'h' && "analysis_summary"[0] == 'a';
    assert "propose_fix"[0] == 'p' && "propose_fix"[1] == 'r';
  }

  predicate Possible(t: Thread, a: Action) {
    match a
    case NodeEvent(ev) => t.server.Working? && Quiet(ev)
    case Pause(next, values) => t.server.Working? && GraphInterrupt(Interrupt(next, values))
    case Complete => t.server.Working?
    case Fail(_) => t.server.Working?
    case Tick(_) => t.client.polling
    case UserAnswers(_) => t.client.ui.hitl.Some?
    case ReplyRefused(_) => t.client.ui.hitl.Some?
    case Leave => true
  }

  function Events(evs: seq<GatewayEvent>): seq<Input> {
    seq(|evs|, i requires 0 <= i < |evs| => Event(evs[i]))
  }

  /** The tick gives up: it gets nothing, and the last new event is older than the stale timeout. */
  predicate StaleTick(t: Thread, now: int) {
    && t.client.polling && EventsFrom(t.log, t.client.cursor) == []
    && now - t.client.lastProgress > STALE_TIMEOUT_MS
  }

  /** A refused reply is shown and closes the question before the request fails; the server waits on.
      The user leaves the thread for a new chat, or by a text while no question is open. */
  function Next(t: Thread, a: Action): Thread {
    if !Possible(t, a) then t
    else
      match a
      case NodeEvent(ev) => t.(log := t.log + [ev])
      case Pause(next, values) => t.(log := t.log + [Interrupt(next, values)], server := Waiting)
      case Complete => t.(log := t.log + [Done], server := Finished)
      case Fail(detail) => t.(log := t.log + [Failure(Some(detail))], server := Finished)
      case Tick(now) =>
        var unread := EventsFrom(t.log, t.client.cursor);
        t.(client := Ticked(t.client, unread, now), script := t.script + Events(UpToDone(unread)),
           timedOut := t.timedOut || StaleTick(t, now))
      case UserAnswers(text) =>
        t.(client := t.client.(ui := Reply(t.client.ui, text)), server := Working,
           script := t.script + [Answer(text)], answers := t.answers + 1)
      case ReplyRefused(text) =>
        t.(client := t.client.(ui := Reply(t.client.ui, text)), script := t.script + [Answer(text)], refused := true)
      case Leave => t.(client := t.client.(ui := START, polling := false), left := true)
  }

  function After(now: int, acts: seq<Action>, n: nat): Thread
    requires n <= |acts|
  {
    if n == 0 then Thread([], Working, Client(START, 0, true, now), [], 0, false, false, false)
    else Next(After(now, acts, n - 1), acts[n - 1])
  }

  // ---- A published stream is a run of the server's actions ----

  function Perform(t: Thread, acts: seq<Action>): Thread {
    if acts == [] then t else Next(Perform(t, acts[..|acts| - 1]), acts[|acts| - 1])
  }

  function NodeEvents(evs: seq<GatewayEvent>): seq<Action> {
    seq(|evs|, i requires 0 <= i < |evs| => NodeEvent(evs[i]))
  }

  lemma {:induction false} NodeEventsAppend(t: Thread, evs: seq<GatewayEvent>)
    requires t.server.Working? && forall i :: 0 <= i < |evs| ==> Quiet(evs[i])
    ensures Perform(t, NodeEvents(evs)) == t.(log := t.log + evs)
  {
    if evs == [] {
      assert t.log + evs == t.log;
    } else {
      var front := evs[..|evs| - 1];
      NodeEventsAppend(t, front);
      assert NodeEvents(evs)[..|evs| - 1] == NodeEvents(front);
      assert t.log + evs == t.log + front + [evs[|evs| - 1]];
    }
  }

  function Closing(ending: Ending): Action {
    match ending
    case Paused(next, values) => Pause(next, values)
    case Ended => Complete
    case Raised(_, detail) => Fail(detail)
    case RaisedLate(detail) => Fail(detail)
  }

  predicate FromGraph(es: seq<StreamEvent>) {
    forall i :: 0 <= i < |es| && Published(es[i]) ==> Quiet(es[i].event)
  }

  lemma {:induction false} PublishedQuiet(es: seq<StreamEvent>)
    requires FromGraph(es)
    ensures forall i :: 0 <= i < |PublishedEvents(es)| ==> Quiet(PublishedEvents(es)[i])
  {
    if es != [] {
      PublishedQuiet(es[..|es| - 1]);
    }
  }

  /** What one `publish_stream` appends is what the server's actions append one by one, and it ends
      with the action that stops the server. */
  lemma PublishIsServerRun(t: Thread, es: seq<StreamEvent>, ending: Ending) returns (acts: seq<Action>)
    requires t.server.Working? && FromGraph(es)
    requires ending.Paused? ==> GraphInterrupt(Interrupt(ending.next, ending.values))
    ensures Perform(t, acts).log == t.log + Appended(es, ending) && !Perform(t, acts).server.Working?
    ensures Perform(t, acts).client == t.client
  {
    hide Quiet, GraphInterrupt;
    var kept := if ending.Raised? && ending.after < |es| then es[..ending.after] else es;
    var evs := PublishedEvents(kept) +
      if ending.Raised? then [] else [Usage(TokensIn(es), TokensOut(es))];
    PublishedQuiet(kept);
    UsageQuiet(TokensIn(es), TokensOut(es));
    NodeEventsAppend(t, evs);
    acts := NodeEvents(evs) + [Closing(ending)];
    assert acts[..|acts| - 1] == NodeEvents(evs);
    var u := t.(log := t.log + evs);
    hide Next;
    assert Perform(t, acts) == Next(u, Closing(ending));
    ClosingStops(u, ending);
    assert Appended(es, ending) == evs + [ClosingEvent(ending)];
  }

  function ClosingEvent(ending: Ending): GatewayEvent {
    match ending
    case Paused(next, values) => Interrupt(next, values)
    case Ended => Done
    case Raised(_, detail) => Failure(Some(detail))
    case RaisedLate(detail) => Failure(Some(detail))
  }

  lemma ClosingStops(t: Thread, ending: Ending)
    requires t.server.Working?
    requires ending.Paused? ==> GraphInterrupt(Interrupt(ending.next, ending.values))
    ensures var u := Next(t, Closing(ending));
            u.log == t.log + [ClosingEvent(ending)] && !u.server.Working? && u.client == t.client
  {
  }

  lemma UsageQuiet(a: int, b: int)
    ensures Quiet(Usage(a, b))
  {
  }

  // ---- The open question and the server ----

  function InterruptCount(evs: seq<GatewayEvent>): nat {
    if evs == [] then 0
    else InterruptCount(evs[..|evs| - 1]) + if evs[|evs| - 1].Interrupt? then 1 else 0
  }

  /** What is still unread: quiet events, and at the very end, if the server has stopped, the event
      it stopped with. */
  predicate UnreadFits(unread: seq<GatewayEvent>, server: Server) {
    && (forall i :: 0 <= i < |unread| - 1 ==> Quiet(unread[i]))
    && (unread != [] ==>
          var last := unread[|unread| - 1];
          match server
          case Working => Quiet(last)
          case Waiting => GraphInterrupt(last)
          case Finished => last.Done? || last.Failure?)
  }

  predicate Synchronised(t: Thread) {
    && InterruptCount(t.log) == t.answers + (if t.server.Waiting? then 1 else 0)
    && (!t.client.polling ==> t.client.ui.hitl.None?)
    && (t.client.polling ==>
          && t.client.cursor <= |t.log|
          && UnreadFits(t.log[t.client.cursor..], t.server)
          && (t.client.ui.hitl.Some? <==> t.client.cursor == |t.log| && t.server.Waiting? && !t.refused))
    && (t.refused ==> Lost(t))
  }

  /** The server waits for a reply the user can no longer give. */
  predicate Lost(t: Thread) {
    t.server.Waiting? && t.client.ui.hitl.None? && (t.client.polling ==> t.client.cursor == |t.log|)
  }

  lemma QuietKeepsQuiet(ui: Ui, ev: GatewayEvent)
    requires Quiet(ev) && ui.hitl.None?
    ensures Deliver(ui, ev).hitl.None?
  {
    match ev
    case NodeEnd(node, output) =>
      if output.Some? {
        ObservedKeepQuiet(ui, MapNodeEnd(node, output));
      } else {
        ObservedKeepQuiet(ui, MapNodeEnd(node, output));
      }
    case _ =>
      ObservedKeepQuiet(ui, MapEvent(ev));
  }

  lemma {:induction false} ObservedKeepQuiet(ui: Ui, ms: seq<Mapped>)
    requires ui.hitl.None?
    requires forall i :: 0 <= i < |ms| ==> ms[i].MStepStart? || ms[i].MStepObserved? || ms[i].MChainResult?
                                           || ms[i].MReport? || ms[i].MNodeDone? || ms[i].MBudget?
    ensures HandleAll(ui, ms).hitl.None?
  {
    if ms != [] {
      ObservedKeepQuiet(ui, ms[..|ms| - 1]);
    }
  }

  lemma {:induction false} QuietBatch(ui: Ui, evs: seq<GatewayEvent>)
    requires ui.hitl.None? && forall i :: 0 <= i < |evs| ==> Quiet(evs[i])
    ensures DeliverAll(ui, evs).hitl.None?
  {
    hide Deliver;
    if evs != [] {
      QuietBatch(ui, evs[..|evs| - 1]);
      QuietKeepsQuiet(DeliverAll(ui, evs[..|evs| - 1]), evs[|evs| - 1]);
    }
  }

  lemma StopEvents(ui: Ui, ev: GatewayEvent)
    ensures GraphInterrupt(ev) ==> Deliver(ui, ev).hitl.Some?
    ensures ev.Failure? ==> Deliver(ui, ev).hitl.None?
    ensures ev.Done? ==> Deliver(ui, ev).hitl == ui.hitl
  {
    if GraphInterrupt(ev) || ev.Failure? || ev.Done? {
      var ms := MapEvent(ev);
      assert |ms| == 1 && ms[..0] == [];
      assert HandleAll(ui, ms) == Handle(ui, ms[0]);
    }
  }

  /** What a non-empty batch of unread events does to the open question. */
  lemma BatchOutcome(ui: Ui, unread: seq<GatewayEvent>, server: Server)
    requires unread != [] && UnreadFits(unread, server) && ui.hitl.None?
    ensures var after := DeliverAll(ui, UpToDone(unread));
            after.hitl.Some? <==> server.Waiting? && Done !in unread
  {
    hide Deliver;
    var front, last := unread[..|unread| - 1], unread[|unread| - 1];
    QuietBatch(ui, front);
    StopEvents(DeliverAll(ui, front), last);
    UpToDonePrefix(unread);
    if Done in unread {
      DoneIsLast(unread, server);
      UpToDoneAt(unread, |unread| - 1);
      assert unread[..|unread| - 1 + 1] == unread;
      assert last == Done;
    } else if server.Working? {
      QuietBatch(ui, unread);
    }
  }

  lemma TickSynchronised(t: Thread, now: int)
    requires Synchronised(t) && t.client.polling
    ensures Synchronised(Next(t, Tick(now)))
  {
    hide Deliver, DeliverAll, UpToDone, Quiet, GraphInterrupt;
    var c := t.client;
    var unread := t.log[c.cursor..];
    if unread != [] {
      BatchOutcome(c.ui, unread, t.server);
      assert t.log[c.cursor + |unread|..] == [];
    } else {
      NothingHandled(c.ui);
    }
  }

  lemma NothingHandled(ui: Ui)
    ensures DeliverAll(ui, UpToDone([])) == ui
  {
  }

  lemma DoneIsLast(unread: seq<GatewayEvent>, server: Server)
    requires UnreadFits(unread, server) && Done in unread
    ensures unread[|unread| - 1].Done? && Done !in unread[..|unread| - 1]
  {
    var i :| 0 <= i < |unread| && unread[i].Done?;
  }

  lemma AppendSynchronised(t: Thread, ev: GatewayEvent, server: Server)
    requires Synchronised(t) && t.server.Working?
    requires UnreadFits([ev], server) && (ev.Interrupt? <==> server.Waiting?)
    ensures Synchronised(t.(log := t.log + [ev], server := server))
  {
    hide Quiet, GraphInterrupt;
    var log := t.log + [ev];
    assert log[..|log| - 1] == t.log;
    if t.client.polling {
      var unread := t.log[t.client.cursor..];
      assert log[t.client.cursor..] == unread + [ev];
    }
  }

  lemma QuietNoInterrupt(ev: GatewayEvent)
    ensures Quiet(ev) ==> !ev.Interrupt?
  {
  }

  /** A reply, whether it arrives or not. */
  lemma ReplySynchronised(t: Thread, text: string)
    requires Synchronised(t) && t.client.ui.hitl.Some?
    ensures Synchronised(Next(t, UserAnswers(text))) && Synchronised(Next(t, ReplyRefused(text)))
  {
    hide Quiet, GraphInterrupt, InterruptCount;
    assert t.client.polling && t.log[t.client.cursor..] == [];
  }

  lemma LeaveSynchronised(t: Thread)
    requires Synchronised(t)
    ensures Synchronised(Next(t, Leave))
  {
  }

  lemma StepSynchronised(t: Thread, a: Action)
    requires Synchronised(t) && Possible(t, a)
    ensures Synchronised(Next(t, a))
  {
    hide Synchronised, Quiet, GraphInterrupt, Ticked, Reply, EventsFrom, UpToDone, StaleTick;
    match a
    case NodeEvent(ev) =>
      QuietNoInterrupt(ev);
      AppendSynchronised(t, ev, Working);
    case Pause(next, values) => AppendSynchronised(t, Interrupt(next, values), Waiting);
    case Complete => AppendSynchronised(t, Done, Finished);
    case Fail(detail) => AppendSynchronised(t, Failure(Some(detail)), Finished);
    case Tick(at) => TickSynchronised(t, at);
    case UserAnswers(text) => ReplySynchronised(t, text);
    case ReplyRefused(text) => ReplySynchronised(t, text);
    case Leave => LeaveSynchronised(t);
  }

  lemma {:induction false} AlwaysSynchronised(now: int, acts: seq<Action>, n: nat)
    requires n <= |acts|
    ensures Synchronised(After(now, acts, n))
  {
    if n == 0 {
      StartSynchronised(now);
    } else {
      hide Synchronised, Possible;
      AlwaysSynchronised(now, acts, n - 1);
      var t, a := After(now, acts, n - 1), acts[n - 1];
      if Possible(t, a) {
        hide Next;
        StepSynchronised(t, a);
      }
    }
  }

  lemma StartSynchronised(now: int)
    ensures Synchronised(Thread([], Working, Client(START, 0, true, now), [], 0, false, false, false))
  {
  }

  // ---- Exactly once, in order ----

  function EventsOf(script: seq<Input>): seq<GatewayEvent> {
    if script == [] then []
    else EventsOf(script[..|script| - 1])
         + if script[|script| - 1].Event? then [script[|script| - 1].ev] else []
  }

  function Replay(ui: Ui, script: seq<Input>): Ui {
    if script == [] then ui
    else
      var before := Replay(ui, script[..|script| - 1]);
      match script[|script| - 1]
      case Event(ev) => Deliver(before, ev)
      case Answer(text) => Reply(before, text)
  }

  lemma {:induction false} ScriptGrows(script: seq<Input>, evs: seq<GatewayEvent>)
    ensures EventsOf(script + Events(evs)) == EventsOf(script) + evs
    ensures Replay(START, script + Events(evs)) == DeliverAll(Replay(START, script), evs)
  {
    hide Deliver;
    if evs == [] {
      assert script + Events(evs) == script;
    } else {
      var front := evs[..|evs| - 1];
      ScriptGrows(script, front);
      var longer := script + Events(evs);
      assert longer[..|longer| - 1] == script + Events(front);
      assert longer[|longer| - 1] == Event(evs[|evs| - 1]);
      assert evs == front + [evs[|evs| - 1]];
    }
  }

  /** What the screen shows: the events handled once each and the replies, in their order, and the
      timeout error if the client gave up; nothing once the user has left. */
  function Screen(t: Thread): Ui {
    if t.left then START else if t.timedOut then TimeOut(Replay(START, t.script)) else Replay(START, t.script)
  }

  /** The handled events are a prefix of the log; while the client polls, the prefix ends at its
      cursor; it stops polling when it has handled all of the log up to `done`, gives up or leaves. */
  predicate InStep(t: Thread) {
    var handled := EventsOf(t.script);
    && handled <= t.log
    && t.client.cursor <= |t.log|
    && t.client.ui == Screen(t)
    && (t.client.polling ==> !t.timedOut && !t.left && handled == t.log[..t.client.cursor])
    && (t.client.polling || t.timedOut ==> Done !in handled)
    && (Done in handled ==> handled == t.log && t.server.Finished?)
    && (!t.client.polling && !t.timedOut && !t.left ==> Done in handled)
  }

  lemma UnreadHandled(t: Thread, evs: seq<GatewayEvent>)
    requires InStep(t) && t.client.polling && evs <= t.log[t.client.cursor..]
    ensures var longer := t.script + Events(evs);
            && EventsOf(longer) == EventsOf(t.script) + evs == t.log[..t.client.cursor + |evs|]
            && Replay(START, longer) == DeliverAll(t.client.ui, evs)
  {
    hide Deliver, DeliverAll, Replay, EventsOf;
    ScriptGrows(t.script, evs);
    PrefixGrows(t.log, t.client.cursor, evs);
  }

  lemma PrefixGrows(log: seq<GatewayEvent>, cursor: nat, evs: seq<GatewayEvent>)
    requires cursor <= |log| && evs <= log[cursor..]
    ensures log[..cursor + |evs|] == log[..cursor] + evs
  {
    assert evs == log[cursor..][..|evs|];
  }

  /** An unread `done` is the last event, and the server has finished. */
  lemma DoneEnds(unread: seq<GatewayEvent>, server: Server)
    requires UnreadFits(unread, server) && Done in unread
    ensures server.Finished? && UpToDone(unread) == unread
  {
    DoneIsLast(unread, server);
    UpToDoneAt(unread, |unread| - 1);
    assert unread[..|unread| - 1 + 1] == unread;
  }

  lemma TickInStep(t: Thread, now: int)
    requires InStep(t) && t.client.polling && UnreadFits(t.log[t.client.cursor..], t.server)
    ensures InStep(Next(t, Tick(now)))
  {
    hide Deliver, Handle, TimeOut, Replay, EventsOf, DeliverAll, UpToDone, UnreadFits;
    var unread := t.log[t.client.cursor..];
    if Done in unread {
      DoneEnds(unread, t.server);
    } else {
      UpToDoneNone(unread);
    }
    UnreadHandled(t, unread);
    if unread == [] {
      NothingHandled(t.client.ui);
      assert t.script + Events([]) == t.script;
    }
  }

  lemma AnswerInStep(t: Thread, u: Thread, text: string)
    requires InStep(t) && t.client.polling
    requires u.client == t.client.(ui := Reply(t.client.ui, text)) && u.script == t.script + [Answer(text)]
    requires u.log == t.log && u.timedOut == t.timedOut && u.left == t.left
    ensures InStep(u)
  {
    assert u.script[..|u.script| - 1] == t.script;
  }

  lemma AppendInStep(t: Thread, u: Thread, ev: GatewayEvent)
    requires InStep(t) && t.server.Working?
    requires u.log == t.log + [ev] && u.client == t.client && u.script == t.script && u.timedOut == t.timedOut
    requires u.left == t.left
    ensures InStep(u)
  {
  }

  lemma {:induction false} AlwaysInStep(now: int, acts: seq<Action>, n: nat)
    requires n <= |acts|
    ensures InStep(After(now, acts, n))
  {
    hide Deliver, InStep, UnreadFits, Quiet, GraphInterrupt, Ticked, Handle, Reply, EventsFrom, UpToDone, StaleTick;
    if n == 0 {
      StartInStep(now);
    } else {
      AlwaysInStep(now, acts, n - 1);
      AlwaysSynchronised(now, acts, n - 1);
      var t, u, a := After(now, acts, n - 1), After(now, acts, n), acts[n - 1];
      StillPolling(t);
      if Possible(t, a) {
        match a
        case NodeEvent(ev) => AppendInStep(t, u, ev);
        case Pause(next, values) => AppendInStep(t, u, Interrupt(next, values));
        case Complete => AppendInStep(t, u, Done);
        case Fail(detail) => AppendInStep(t, u, Failure(Some(detail)));
        case Tick(at) => TickInStep(t, at);
        case UserAnswers(text) => AnswerInStep(t, u, text);
        case ReplyRefused(text) => AnswerInStep(t, u, text);
        case Leave => LeaveInStep(t);
      }
    }
  }

  lemma LeaveInStep(t: Thread)
    requires InStep(t)
    ensures InStep(Next(t, Leave))
  {
  }

  lemma StillPolling(t: Thread)
    requires InStep(t) && Synchronised(t)
    ensures t.client.ui.hitl.Some? ==> t.client.polling
    ensures t.client.polling ==> !t.timedOut && t.client.cursor <= |t.log|
  {
  }

  lemma StartInStep(now: int)
    ensures InStep(Thread([], Working, Client(START, 0, true, now), [], 0, false, false, false))
  {
  }

  lemma DoneAtEndNext(t: Thread, a: Action)
    requires Synchronised(t) && (!t.server.Finished? ==> Done !in t.log)
    requires t.log != [] ==> Done !in t.log[..|t.log| - 1]
    ensures var u := Next(t, a);
            (!u.server.Finished? ==> Done !in u.log) && (u.log != [] ==> Done !in u.log[..|u.log| - 1])
  {
    hide Ticked, Reply, EventsFrom, UpToDone, UnreadFits, GraphInterrupt;
    var u := Next(t, a);
    if u.log != t.log {
      assert u.log[..|u.log| - 1] == t.log;
    }
  }

  /** `done` can only be the last event of the log. */
  lemma {:induction false} DoneAtEnd(now: int, acts: seq<Action>, n: nat)
    requires n <= |acts|
    ensures var t := After(now, acts, n);
            && (!t.server.Finished? ==> Done !in t.log)
            && (t.log != [] ==> Done !in t.log[..|t.log| - 1])
  {
    hide Synchronised, Next;
    if n > 0 {
      DoneAtEnd(now, acts, n - 1);
      AlwaysSynchronised(now, acts, n - 1);
      DoneAtEndNext(After(now, acts, n - 1), acts[n - 1]);
    }
  }

  /** Every payload is handled once and in order: what was handled is a prefix of the log, up to its
      `done` if that was reached, and the screen is what handling it makes of the empty screen. The
      client polls until it has handled `done`, given up or left, and until then has handled all it
      read. */
  lemma {:induction false} ExactlyOnceInOrder(now: int, acts: seq<Action>, n: nat)
    requires n <= |acts|
    ensures var t := After(now, acts, n);
            var handled := EventsOf(t.script);
            && handled <= t.log && (t.log != [] ==> Done !in t.log[..|t.log| - 1])
            && t.client.ui == Screen(t)
            && (t.client.polling <==> !t.timedOut && !t.left && Done !in handled)
            && (t.client.polling ==> t.client.cursor <= |t.log| && handled == t.log[..t.client.cursor])
            && (Done in handled ==> handled == t.log && t.server.Finished?)
  {
    hide Deliver, Screen;
    AlwaysInStep(now, acts, n);
    DoneAtEnd(now, acts, n);
  }

  // ---- Awaiting a reply ----

  /** The client awaits a reply exactly when it has handled the whole log, the log holds an interrupt
      the user has not answered, no reply was refused, and it has neither given up nor left. */
  lemma {:induction false} AwaitsExactlyUnanswered(now: int, acts: seq<Action>, n: nat)
    requires n <= |acts|
    ensures var t := After(now, acts, n);
            t.client.ui.hitl.Some? <==>
              && EventsOf(t.script) == t.log
              && InterruptCount(t.log) == t.answers + 1
              && !t.refused && !t.timedOut && !t.left
  {
    hide Deliver, Screen, UnreadFits;
    AlwaysInStep(now, acts, n);
    AlwaysSynchronised(now, acts, n);
  }

  ghost predicate RefusedBefore(now: int, acts: seq<Action>, n: nat)
    requires n <= |acts|
  {
    exists i :: 0 <= i < n && RefusedAt(now, acts, i)
  }

  predicate RefusedAt(now: int, acts: seq<Action>, i: nat)
    requires i < |acts|
  {
    acts[i].ReplyRefused? && Possible(After(now, acts, i), acts[i])
  }

  ghost predicate LeftBefore(acts: seq<Action>, n: nat)
    requires n <= |acts|
  {
    exists i :: 0 <= i < n && acts[i].Leave?
  }

  ghost predicate GaveUpBefore(now: int, acts: seq<Action>, n: nat)
    requires n <= |acts|
  {
    exists i :: 0 <= i < n && GaveUpAt(now, acts, i)
  }

  predicate GaveUpAt(now: int, acts: seq<Action>, i: nat)
    requires i < |acts|
  {
    acts[i].Tick? && StaleTick(After(now, acts, i), acts[i].now)
  }

  /** What the records say about the run. */
  lemma {:induction false} RecordsMean(now: int, acts: seq<Action>, n: nat)
    requires n <= |acts|
    ensures After(now, acts, n).refused <==> RefusedBefore(now, acts, n)
    ensures After(now, acts, n).timedOut <==> GaveUpBefore(now, acts, n)
    ensures After(now, acts, n).left <==> LeftBefore(acts, n)
  {
    if n > 0 {
      RecordsMean(now, acts, n - 1);
      RecordsGrow(now, acts, n);
      hide RefusedBefore, GaveUpBefore, LeftBefore;
      RecordsNext(After(now, acts, n - 1), acts[n - 1]);
    }
  }

  lemma RecordsGrow(now: int, acts: seq<Action>, n: nat)
    requires 0 < n <= |acts|
    ensures RefusedBefore(now, acts, n) <==> RefusedBefore(now, acts, n - 1) || RefusedAt(now, acts, n - 1)
    ensures GaveUpBefore(now, acts, n) <==> GaveUpBefore(now, acts, n - 1) || GaveUpAt(now, acts, n - 1)
    ensures LeftBefore(acts, n) <==> LeftBefore(acts, n - 1) || acts[n - 1].Leave?
  {
  }

  lemma RecordsNext(t: Thread, a: Action)
    ensures Next(t, a).refused <==> t.refused || (a.ReplyRefused? && Possible(t, a))
    ensures Next(t, a).timedOut <==> t.timedOut || (a.Tick? && StaleTick(t, a.now))
    ensures Next(t, a).left <==> t.left || a.Leave?
  {
  }

  /** Over every run: the server waits for a reply the user can no longer give exactly when it waits
      and a reply was refused, or the client has given up, or the user has left, whether or not a
      question was open then. */
  lemma {:induction false} LostExactly(now: int, acts: seq<Action>, n: nat)
    requires n <= |acts|
    ensures var t := After(now, acts, n);
            Lost(t) <==>
              t.server.Waiting? && (RefusedBefore(now, acts, n) || GaveUpBefore(now, acts, n) || LeftBefore(acts, n))
  {
    hide Deliver, Screen, UnreadFits, RefusedBefore, GaveUpBefore, LeftBefore;
    AlwaysInStep(now, acts, n);
    AlwaysSynchronised(now, acts, n);
    RecordsMean(now, acts, n);
  }

  /** A step of the graph that takes longer than the stale timeout loses the next question before it
      is asked: no question was ever open, and nothing was refused. */
  lemma LostBeforeAsked(now: int, later: int, next: seq<string>, values: seq<InterruptValue>)
    requires later - now > 60000 && GraphInterrupt(Interrupt(next, values))
    ensures var acts := [Tick(later), Pause(next, values)];
            && (forall i :: 0 <= i <= 2 ==> After(now, acts, i).client.ui.hitl.None? && !After(now, acts, i).refused)
            && Lost(After(now, acts, 2)) && After(now, acts, 2).log == [Interrupt(next, values)]
  {
    var acts := [Tick(later), Pause(next, values)];
    hide GraphInterrupt, Deliver;
    NothingHandled(START);
    assert After(now, acts, 0) == Thread([], Working, Client(START, 0, true, now), [], 0, false, false, false);
    var t := After(now, acts, 1);
    assert t == Next(After(now, acts, 0), acts[0]);
    assert t.client.ui.hitl.None? && !t.client.polling && !t.refused && t.server.Working? && t.log == [];
    assert After(now, acts, 2) == Next(t, acts[1]);
  }

  /** A failed run does not end the polling, so its user is shown a second error, about a timeout. */
  lemma FailureTimesOut(now: int, detail: string, read: int, later: int)
    requires later - read > STALE_TIMEOUT_MS
    ensures var acts := [Fail(detail), Tick(read), Tick(later)];
            After(now, acts, 3).client.ui.messages == [ErrorText(detail), ErrorText("Agent stream timed out")]
  {
    var acts := [Fail(detail), Tick(read), Tick(later)];
    var ev := Failure(Some(detail));
    assert After(now, acts, 0) == Thread([], Working, Client(START, 0, true, now), [], 0, false, false, false);
    assert After(now, acts, 1) == Next(After(now, acts, 0), acts[0]);
    OneError(detail);
    assert EventsFrom([ev], 0) == [ev] && EventsFrom([ev], 1) == [];
    hide Deliver, DeliverAll, MapEvent;
    assert After(now, acts, 2) == Next(After(now, acts, 1), acts[1]);
    assert After(now, acts, 2).client.ui.messages == [ErrorText(detail)] && After(now, acts, 2).client.polling;
    assert After(now, acts, 3) == Next(After(now, acts, 2), acts[2]);
  }

  lemma OneError(detail: string)
    ensures var ev := Failure(Some(detail));
            UpToDone([ev]) == [ev] && DeliverAll(START, [ev]) == Handle(START, MError(detail))
  {
    var ev := Failure(Some(detail));
    var ms := [MError(detail)];
    assert [ev][..0] == [] && MapEvent(ev) == ms && ms[..0] == [];
    assert HandleAll(START, ms) == Handle(HandleAll(START, ms[..0]), ms[0]);
    assert DeliverAll(START, [ev]) == Deliver(DeliverAll(START, [ev][..0]), ev);
  }

  /** A question is never put before its turn: while it is open nothing is unread, and at most one
      interrupt is unanswered. */
  lemma {:induction false} QuestionsOneAtATime(now: int, acts: seq<Action>, n: nat)
    requires n <= |acts|
    ensures var t := After(now, acts, n);
            && InterruptCount(t.log) <= t.answers + 1
            && (t.client.polling && t.client.ui.hitl.Some? ==> t.client.cursor == |t.log|)
  {
    AlwaysSynchronised(now, acts, n);
  }

  /** While a question is open, one action loses it, leaving the server waiting, exactly when it is a
      tick later than the stale timeout after the last new event, a reply that is refused, or leaving. */
  lemma {:induction false} QuestionLostExactly(now: int, acts: seq<Action>, n: nat)
    requires n < |acts| && After(now, acts, n).client.ui.hitl.Some?
    ensures var t, u, a := After(now, acts, n), After(now, acts, n + 1), acts[n];
            && (Lost(u) <==>
                  || (a.Tick? && a.now - t.client.lastProgress > 60000) || a.ReplyRefused? || a.Leave?)
            && (u.client.ui.hitl.None? <==> Lost(u) || a.UserAnswers?)
  {
    hide Deliver;
    AlwaysSynchronised(now, acts, n);
    var t := After(now, acts, n);
    assert EventsFrom(t.log, t.client.cursor) == [];
  }

  lemma LostStays(t: Thread, a: Action)
    requires Lost(t)
    ensures Lost(Next(t, a)) && Next(t, a).log == t.log && Next(t, a).answers == t.answers
  {
    hide Deliver;
    if a.Tick? && t.client.polling {
      NothingHandled(t.client.ui);
      assert EventsFrom(t.log, t.client.cursor) == [];
    }
  }

  /** A lost question is never answered: the server waits for ever and appends nothing any more. */
  lemma {:induction false} LostForGood(now: int, acts: seq<Action>, m: nat, n: nat)
    requires m <= n <= |acts| && Lost(After(now, acts, m))
    ensures var t, u := After(now, acts, m), After(now, acts, n);
            Lost(u) && u.log == t.log && u.answers == t.answers
    decreases n
  {
    hide Next, Lost;
    if m < n {
      LostForGood(now, acts, m, n - 1);
      LostStays(After(now, acts, n - 1), acts[n - 1]);
    }
  }
}
