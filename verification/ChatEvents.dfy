/** The event log of a thread: what the server appends, and what the chat client makes of one event. */
module ChatEvents {
  import opened Wrappers

  /** The first question and the free text of an interrupt value, and for each step of a policy
      review whether it needs approval. */
  datatype InterruptValue = InterruptValue(question: Option<string>, text: string, approvals: seq<bool>)

  datatype Observed = Observed(tool: string, finding: string)

  /** The output of a finished node, as far as the client looks at it. */
  datatype Output = Output(
    history: Option<seq<Observed>>,
    report: Option<string>,
    opaDecision: Option<string>,
    approvals: seq<bool>)

  datatype GatewayEvent =
    | NodeStart(node: string, tool: Option<string>)
    | NodeEnd(node: string, output: Option<Output>)
    | Usage(inputTokens: int, outputTokens: int)
    | Budget(tokens: int, compacted: bool, evicted: int)
    | Interrupt(next: seq<string>, values: seq<InterruptValue>)
    | Done
    | Failure(detail: Option<string>)

  /** What the client handles. */
  datatype Mapped =
    | MDone
    | MError(message: string)
    | MBudget(tokens: int, compacted: bool, evicted: int)
    | MEntityConfirm(text: string)
    | MClarification(question: string)
    | MPlanReady(steps: nat, needsApproval: bool)
    | MStepReview(text: string)
    | MAnalysisSummary(text: string)
    | MProposeFix(text: string)
    | MStepStart(tool: string)
    | MStepObserved(tao: Observed)
    | MNodeDone(node: string)
    | MChainResult(opa: string)
    | MReport(text: string)

  function FirstQuestion(values: seq<InterruptValue>): Option<string> {
    if values == [] then None
    else if values[0].question.Some? then values[0].question
    else FirstQuestion(values[1..])
  }

  function MapInterrupt(next: seq<string>, values: seq<InterruptValue>): seq<Mapped> {
    var text := if values == [] then "" else values[0].text;
    var question := FirstQuestion(values);
    if "entity_confirm" in next then [MEntityConfirm(text)]
    else if question.Some? then [MClarification(question.value)]
    else if "policy_review" in next then
      (var steps := if values == [] then [] else values[0].approvals;
       [MPlanReady(|steps|, true in steps)])
    else if "hitl_step_review" in next then [MStepReview(text)]
    else if "analysis_summary" in next then [MAnalysisSummary(text)]
    else if "propose_fix" in next then [MProposeFix(text)]
    else []
  }

  function MapObserved(taos: seq<Observed>): (r: seq<Mapped>)
    ensures |r| == |taos| && forall i :: 0 <= i < |r| ==> r[i] == MStepObserved(taos[i])
  {
    if taos == [] then [] else [MStepObserved(taos[0])] + MapObserved(taos[1..])
  }

  function MapNodeEnd(node: string, output: Option<Output>): seq<Mapped> {
    if node == "chain_remediate" then
      var decided := output.Some? && output.value.opaDecision.Some?;
      [MNodeDone(node), MChainResult(if decided then output.value.opaDecision.value else "UNKNOWN")]
    else if node == "plan" then
      (if output.Some? && output.value.approvals != [] then
         [MPlanReady(|output.value.approvals|, true in output.value.approvals)]
       else [])
    else if output.None? then [MNodeDone(node)]
    else
      var o := output.value;
      [MNodeDone(node)] +
      (if node == "observe" && o.history.Some? then MapObserved(o.history.value) else []) +
      (if node == "report" && o.report.Some? && o.report.value != "" then [MReport(o.report.value)] else [])
  }

  function MapEvent(ev: GatewayEvent): seq<Mapped> {
    match ev
    case Done => [MDone]
    case Failure(detail) => [MError(if detail.Some? then detail.value else "Unknown error")]
    case Budget(t, c, e) => [MBudget(t, c, e)]
    case Interrupt(next, values) => MapInterrupt(next, values)
    case NodeStart(node, tool) =>
      if node == "act" && tool.Some? && tool.value != "" then [MStepStart(tool.value)] else []
    case NodeEnd(node, output) => MapNodeEnd(node, output)
    case Usage(_, _) => []
  }

  // ---- The server's side ----

  /** One event of the running graph. */
  datatype StreamEvent =
    | ModelEnd(inputTokens: int, outputTokens: int)
    | Chain(owner: string, name: string, event: GatewayEvent)
    | Other

  /** How the graph stopped: at an interrupt, at its end, or by an exception raised after some
      number of its events, or only after its last one. */
  datatype Ending =
    | Paused(next: seq<string>, values: seq<InterruptValue>)
    | Ended
    | Raised(after: nat, detail: string)
    | RaisedLate(detail: string)

  /** A node's own start or end, not that of something running inside it. */
  predicate Published(e: StreamEvent) {
    e.Chain? && e.owner != "" && e.name == e.owner
  }

  function PublishedEvents(es: seq<StreamEvent>): seq<GatewayEvent> {
    if es == [] then []
    else PublishedEvents(es[..|es| - 1]) + if Published(es[|es| - 1]) then [es[|es| - 1].event] else []
  }

  function TokensIn(es: seq<StreamEvent>): int {
    if es == [] then 0
    else TokensIn(es[..|es| - 1]) + if es[|es| - 1].ModelEnd? then es[|es| - 1].inputTokens else 0
  }

  function TokensOut(es: seq<StreamEvent>): int {
    if es == [] then 0
    else TokensOut(es[..|es| - 1]) + if es[|es| - 1].ModelEnd? then es[|es| - 1].outputTokens else 0
  }

  /** Of a stream, the starts and ends of the graph's own nodes are published, in their order, and the
      tokens of all model calls are added up. */
  lemma {:induction false} StreamAddsUp(a: seq<StreamEvent>, b: seq<StreamEvent>)
    ensures PublishedEvents(a + b) == PublishedEvents(a) + PublishedEvents(b)
    ensures TokensIn(a + b) == TokensIn(a) + TokensIn(b) && TokensOut(a + b) == TokensOut(a) + TokensOut(b)
  {
    if b == [] {
      assert a + b == a;
    } else {
      StreamAddsUp(a, b[..|b| - 1]);
      assert (a + b)[..|a + b| - 1] == a + b[..|b| - 1];
    }
  }

  lemma StreamEventAlone(e: StreamEvent)
    ensures PublishedEvents([e]) ==
            match e
            case Chain(owner, name, event) => if owner != "" && owner == name then [event] else []
            case _ => []
    ensures TokensIn([e]) == match e case ModelEnd(a, _) => a case _ => 0
    ensures TokensOut([e]) == match e case ModelEnd(_, b) => b case _ => 0
  {
    assert [e][..0] == [];
  }

  /** What one invocation or resumption appends: the node events, the token totals, and one
      terminal event; an exception replaces what has not been appended yet by an error. */
  function Appended(es: seq<StreamEvent>, ending: Ending): seq<GatewayEvent> {
    match ending
    case Raised(n, detail) =>
      PublishedEvents(if n < |es| then es[..n] else es) + [Failure(Some(detail))]
    case RaisedLate(detail) =>
      PublishedEvents(es) + [Usage(TokensIn(es), TokensOut(es)), Failure(Some(detail))]
    case Paused(next, values) =>
      PublishedEvents(es) + [Usage(TokensIn(es), TokensOut(es)), Interrupt(next, values)]
    case Ended =>
      PublishedEvents(es) + [Usage(TokensIn(es), TokensOut(es)), Done]
  }

  /** What a poll completes: all events from an index on, and none past the end of the log. */
  function EventsFrom(log: seq<GatewayEvent>, from: nat): (events: seq<GatewayEvent>)
    ensures from <= |log| ==> log[..from] + events == log
    ensures from > |log| ==> events == []
  {
    if from <= |log| then log[from..] else []
  }

  /** Polls add up: as the log grows only at its end, one poll and then a second from where the
      first stopped give together what a single later poll gives. */
  lemma PollsAddUp(log: seq<GatewayEvent>, later: seq<GatewayEvent>, from: nat)
    requires log <= later
    ensures from <= |log| ==>
              var first := EventsFrom(log, from);
              first + EventsFrom(later, from + |first|) == EventsFrom(later, from)
  {
  }

  class SREAgent {
    var log: seq<GatewayEvent>

    constructor ()
      ensures log == []
    {
      log := [];
    }

    method PublishStream(es: seq<StreamEvent>, ending: Ending)
      modifies this
      ensures log == old(log) + Appended(es, ending)
    {
      var inputTokens, outputTokens := 0, 0;
      var stop := if ending.Raised? && ending.after < |es| then ending.after else |es|;
      for i := 0 to stop
        invariant log == old(log) + PublishedEvents(es[..i])
        invariant inputTokens == TokensIn(es[..i]) && outputTokens == TokensOut(es[..i])
      {
        assert es[..i + 1][..i] == es[..i];
        match es[i]
        case ModelEnd(a, b) => inputTokens, outputTokens := inputTokens + a, outputTokens + b;
        case Chain(owner, name, event) =>
          if owner != "" && name == owner {
            log := log + [event];
          }
        case Other =>
      }
      assert es[..|es|] == es;
      if ending.Raised? {
        log := log + [Failure(Some(ending.detail))];
        return;
      }
      log := log + [Usage(inputTokens, outputTokens)];
      match ending
      case RaisedLate(detail) => log := log + [Failure(Some(detail))];
      case Paused(next, values) => log := log + [Interrupt(next, values)];
      case Ended => log := log + [Done];
    }

    method GetEvents(from: nat) returns (events: seq<GatewayEvent>)
      ensures from <= |log| ==> log[..from] + events == log
      ensures from > |log| ==> events == []
      ensures events == EventsFrom(log, from)
    {
      events := EventsFrom(log, from);
    }
  }
}
