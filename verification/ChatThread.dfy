/** The chat client: how handled events change what the user sees, and the polling tick. */
module ChatThread {
  import opened Wrappers
  import opened ChatEvents

  datatype HitlKind = Entity | Clarification | StepReview | AnalysisSummary | ProposeFix | PolicyReview

  datatype Line = RunningLine(tool: string) | ResultLine(tao: Observed)

  datatype Message =
    | UserText(text: string)
    | AgentText(text: string)
    | ErrorText(text: string)
    | PlanMessage(steps: nat)
    | Compaction(evicted: int)
    | Executing(lines: seq<Line>)
    | FinalReport(text: string, opa: string)
    | ChainVerdict(opa: string)

  /** `executing` is the position of the message that grows by step lines; `pendingReport` and
      `opa` are held back until the remediation chain is done. */
  datatype Ui = Ui(
    messages: seq<Message>,
    running: bool,
    hitl: Option<HitlKind>,
    executing: Option<nat>,
    compacted: bool,
    chainActive: bool,
    pendingReport: Option<string>,
    opa: string)

  const START: Ui := Ui([], false, None, None, false, false, None, "UNKNOWN")

  function Say(ui: Ui, m: Message): Ui {
    ui.(messages := ui.messages + [m])
  }

  function Ask(ui: Ui, m: Message, kind: HitlKind): Ui {
    Say(ui, m).(hitl := Some(kind))
  }

  predicate IsExecuting(ui: Ui) {
    ui.executing.Some? && ui.executing.value < |ui.messages| && ui.messages[ui.executing.value].Executing?
  }

  function WithLines(ui: Ui, lines: seq<Line>): Ui
    requires IsExecuting(ui)
  {
    ui.(messages := ui.messages[ui.executing.value := Executing(lines)])
  }

  function AppendStepLine(ui: Ui, line: Line): Ui {
    if IsExecuting(ui) then WithLines(ui, ui.messages[ui.executing.value].lines + [line])
    else ui.(messages := ui.messages + [Executing([line])], executing := Some(|ui.messages|))
  }

  /** Replaces the first running line of the tool, or appends. */
  function ReplaceOrAppend(lines: seq<Line>, tao: Observed): seq<Line> {
    if lines == [] then [ResultLine(tao)]
    else if lines[0] == RunningLine(tao.tool) then [ResultLine(tao)] + lines[1..]
    else [lines[0]] + ReplaceOrAppend(lines[1..], tao)
  }

  function ReplaceOrAppendStepLine(ui: Ui, tao: Observed): Ui {
    if IsExecuting(ui) then WithLines(ui, ReplaceOrAppend(ui.messages[ui.executing.value].lines, tao))
    else AppendStepLine(ui, ResultLine(tao))
  }

  function HandleDone(ui: Ui): Ui {
    if ui.chainActive then
      ui.(chainActive := false, pendingReport := None, running := false,
          messages := ui.messages
                      + (if ui.pendingReport.Some? then [FinalReport(ui.pendingReport.value, ui.opa)] else [])
                      + [ChainVerdict(ui.opa)])
    else ui.(running := false)
  }

  function Handle(ui: Ui, m: Mapped): Ui {
    match m
    case MPlanReady(steps, needsApproval) =>
      if needsApproval then Ask(ui, PlanMessage(steps), PolicyReview) else Say(ui, PlanMessage(steps))
    case MStepStart(tool) => AppendStepLine(ui, RunningLine(tool))
    case MEntityConfirm(text) => Ask(ui, AgentText(text), Entity)
    case MClarification(question) => Ask(ui, AgentText(question), Clarification)
    case MStepReview(text) => Ask(ui.(executing := None), AgentText(text), StepReview)
    case MAnalysisSummary(text) => Ask(ui.(executing := None), AgentText(text), AnalysisSummary)
    case MProposeFix(text) => Ask(ui, AgentText(text), ProposeFix)
    case MStepObserved(tao) => ReplaceOrAppendStepLine(ui, tao)
    case MChainResult(opa) => ui.(opa := opa)
    case MReport(text) =>
      ui.(executing := None, pendingReport := Some(text), chainActive := true, opa := "UNKNOWN", hitl := None)
    case MError(message) => Say(ui, ErrorText(message)).(chainActive := false, running := false, hitl := None)
    case MBudget(_, compacted, evicted) =>
      (if compacted && !ui.compacted then Say(ui, Compaction(evicted)) else ui).(compacted := compacted)
    case MDone => HandleDone(ui)
    case MNodeDone(_) => ui
  }

  function HandleAll(ui: Ui, ms: seq<Mapped>): Ui {
    if ms == [] then ui else Handle(HandleAll(ui, ms[..|ms| - 1]), ms[|ms| - 1])
  }

  /** The reply to an open question; the thread stays. */
  function Reply(ui: Ui, text: string): Ui {
    Say(ui, UserText(text)).(hitl := None, running := true, executing := None)
  }

  const STALE_TIMEOUT_MS: int := 60000

  /** The polling state of one thread. */
  datatype Client = Client(ui: Ui, cursor: nat, polling: bool, lastProgress: int)

  function Deliver(ui: Ui, ev: GatewayEvent): Ui {
    HandleAll(ui, MapEvent(ev))
  }

  function DeliverAll(ui: Ui, evs: seq<GatewayEvent>): Ui {
    if evs == [] then ui else Deliver(DeliverAll(ui, evs[..|evs| - 1]), evs[|evs| - 1])
  }

  /** The events up to and including the first `done`. */
  function UpToDone(evs: seq<GatewayEvent>): seq<GatewayEvent> {
    if evs == [] then []
    else if evs[0].Done? then [evs[0]]
    else [evs[0]] + UpToDone(evs[1..])
  }

  /** The error the client shows when it gives up polling. */
  function TimeOut(ui: Ui): Ui {
    Handle(ui, MError("Agent stream timed out"))
  }

  /** One tick with the answer to its request. */
  function Ticked(c: Client, evs: seq<GatewayEvent>, now: int): Client {
    var ui := DeliverAll(c.ui, UpToDone(evs));
    if Done in evs then c.(ui := ui, polling := false)
    else if evs != [] then Client(ui, c.cursor + |evs|, c.polling, now)
    else if now - c.lastProgress > STALE_TIMEOUT_MS then
      c.(ui := TimeOut(c.ui), polling := false)
    else c
  }

  class ChatThreadHook {
    var ui: Ui
    var lastSeen: nat
    var aborted: bool
    var lastProgressAt: int

    ghost function State(): Client
      reads this
    {
      Client(ui, lastSeen, !aborted, lastProgressAt)
    }

    constructor (now: int)
      ensures State() == Client(START, 0, true, now)
    {
      ui, lastSeen, aborted, lastProgressAt := START, 0, false, now;
    }

    /** Handles what one payload maps to; `done` stops the tick. */
    method HandlePayload(ev: GatewayEvent) returns (stop: bool)
      modifies this`ui
      ensures ui == Deliver(old(ui), ev)
      ensures stop <==> ev.Done?
    {
      hide Handle, MapEvent;
      var mapped := MapEvent(ev);
      MapsDoneAlone(ev);
      for j := 0 to |mapped|
        invariant ui == HandleAll(old(ui), mapped[..j])
        invariant MDone !in mapped[..j]
      {
        assert mapped[..j + 1][..j] == mapped[..j];
        ui := Handle(ui, mapped[j]);
        if mapped[j] == MDone {
          assert mapped[..j + 1] == mapped;
          return true;
        }
      }
      assert mapped[..|mapped|] == mapped;
      return false;
    }

    method Tick(evs: seq<GatewayEvent>, now: int)
      requires !aborted
      modifies this
      ensures State() == Ticked(old(State()), evs, now)
    {
      hide Handle, Deliver;
      for i := 0 to |evs|
        invariant lastSeen == old(lastSeen) && !aborted && lastProgressAt == old(lastProgressAt)
        invariant Done !in evs[..i]
        invariant ui == DeliverAll(old(ui), evs[..i])
      {
        assert evs[..i + 1][..i] == evs[..i];
        var stop := HandlePayload(evs[i]);
        if stop {
          aborted := true;
          UpToDoneAt(evs, i);
          return;
        }
      }
      assert evs[..|evs|] == evs;
      UpToDoneNone(evs);
      if |evs| > 0 {
        lastSeen := lastSeen + |evs|;
        lastProgressAt := now;
      } else if now - lastProgressAt > STALE_TIMEOUT_MS {
        aborted := true;
        ui := TimeOut(ui);
      }
    }
  }

  /** Only the `done` event maps to done, and it maps to nothing else. */
  lemma MapsDoneAlone(ev: GatewayEvent)
    ensures MDone in MapEvent(ev) <==> ev.Done?
    ensures ev.Done? ==> MapEvent(ev) == [MDone]
  {
  }

  lemma {:induction false} UpToDoneAt(evs: seq<GatewayEvent>, i: nat)
    requires i < |evs| && evs[i].Done? && Done !in evs[..i]
    ensures Done in evs && UpToDone(evs) == evs[..i + 1]
  {
    if i > 0 {
      assert evs[0] == evs[..i][0];
      assert evs[1..][..i - 1] == evs[..i][1..];
      UpToDoneAt(evs[1..], i - 1);
      assert evs[..i + 1] == [evs[0]] + evs[1..][..i];
    }
  }

  lemma {:induction false} UpToDonePrefix(evs: seq<GatewayEvent>)
    ensures |UpToDone(evs)| <= |evs| && UpToDone(evs) == evs[..|UpToDone(evs)|]
    ensures Done !in evs ==> UpToDone(evs) == evs
  {
    if evs != [] && !evs[0].Done? {
      UpToDonePrefix(evs[1..]);
      assert evs[1..][..|UpToDone(evs[1..])|] == evs[1..|UpToDone(evs)|];
    }
  }

  lemma {:induction false} UpToDoneNone(evs: seq<GatewayEvent>)
    requires Done !in evs
    ensures UpToDone(evs) == evs
  {
    if evs != [] {
      UpToDoneNone(evs[1..]);
    }
  }
}
