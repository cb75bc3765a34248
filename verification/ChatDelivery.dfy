/** What the events of the log, one by one and at the end of a run, show to the user. */
module ChatDelivery {
  import opened Wrappers
  import opened ChatEvents
  import opened ChatThread
  import opened ChatScreen

  // ---- What one event shows ----

  lemma HandleOne(ui: Ui, m: Mapped)
    ensures HandleAll(ui, [m]) == Handle(ui, m)
  {
    assert [m][..0] == [];
  }

  lemma HandleTwo(ui: Ui, a: Mapped, b: Mapped)
    ensures HandleAll(ui, [a, b]) == Handle(Handle(ui, a), b)
  {
    assert [a, b][..1] == [a];
    HandleOne(ui, a);
  }

  lemma {:induction false} FirstQuestionIs(values: seq<InterruptValue>, i: nat)
    requires i <= |values| && (forall j :: 0 <= j < i ==> values[j].question.None?)
    requires i < |values| ==> values[i].question.Some?
    ensures FirstQuestion(values) == if i < |values| then values[i].question else None
  {
    if i > 0 {
      FirstQuestionIs(values[1..], i - 1);
    }
  }

  /** A question of `clarify` is asked, whatever node the graph stopped at: the first one there is. */
  lemma ClarificationShown(ui: Ui, next: seq<string>, values: seq<InterruptValue>, i: nat, question: string)
    requires "entity_confirm" !in next && i < |values| && values[i].question == Some(question)
    requires forall j :: 0 <= j < i ==> values[j].question.None?
    ensures Deliver(ui, Interrupt(next, values)) ==
            ui.(messages := ui.messages + [AgentText(question)], hitl := Some(Clarification))
  {
    FirstQuestionIs(values, i);
    HandleOne(ui, MClarification(question));
  }

  /** Each review of the graph opens the question of its own node, with the text of its first value. The
      first two also end the message that collects step lines. */
  lemma ReviewShown(ui: Ui, node: string, values: seq<InterruptValue>)
    requires node in {"hitl_step_review", "analysis_summary", "propose_fix"}
    requires values != [] && forall i :: 0 <= i < |values| ==> values[i].question.None?
    ensures var after := Deliver(ui, Interrupt([node], values));
            && after.messages == ui.messages + [AgentText(values[0].text)]
            && (node == "hitl_step_review" ==> after.hitl == Some(StepReview) && after.executing.None?)
            && (node == "analysis_summary" ==> after.hitl == Some(AnalysisSummary) && after.executing.None?)
            && (node == "propose_fix" ==> after.hitl == Some(ProposeFix) && after.executing == ui.executing)
            && after == ui.(messages := after.messages, hitl := after.hitl, executing := after.executing)
  {
    FirstQuestionIs(values, |values|);
    NodeNames(node);
    var text := values[0].text;
    HandleOne(ui, MStepReview(text));
    HandleOne(ui, MAnalysisSummary(text));
    HandleOne(ui, MProposeFix(text));
  }

  /** Of several nodes the graph stopped at, the order of the client decides; an interrupt without values
      opens the same question with an empty text. */
  lemma ReviewPrecedence(ui: Ui, next: seq<string>, values: seq<InterruptValue>)
    requires "entity_confirm" !in next && "policy_review" !in next
    requires forall i :: 0 <= i < |values| ==> values[i].question.None?
    ensures var asked := Deliver(ui, Interrupt(next, values)).hitl;
            && ("hitl_step_review" in next ==> asked == Some(StepReview))
            && ("hitl_step_review" !in next && "analysis_summary" in next ==> asked == Some(AnalysisSummary))
            && ("hitl_step_review" !in next && "analysis_summary" !in next && "propose_fix" in next ==>
                  asked == Some(ProposeFix))
    ensures values == [] && ("hitl_step_review" in next || "analysis_summary" in next || "propose_fix" in next) ==>
              Deliver(ui, Interrupt(next, values)).messages == ui.messages + [AgentText("")]
    ensures "hitl_step_review" !in next && "analysis_summary" !in next && "propose_fix" !in next ==>
              Deliver(ui, Interrupt(next, values)) == ui
  {
    FirstQuestionIs(values, |values|);
    var text := if values == [] then "" else values[0].text;
    HandleOne(ui, MStepReview(text));
    HandleOne(ui, MAnalysisSummary(text));
    HandleOne(ui, MProposeFix(text));
  }

  lemma NodeNames(node: string)
    requires node in {"hitl_step_review", "analysis_summary", "propose_fix"}
    ensures node != "entity_confirm" && node != "policy_review"
    ensures node == "hitl_step_review" ==> node != "analysis_summary" && node != "propose_fix"
    ensures node == "analysis_summary" ==> node != "hitl_step_review" && node != "propose_fix"
    ensures node == "propose_fix" ==> node != "hitl_step_review" && node != "analysis_summary"
  {
    assert "hitl_step_review"[0] == 'h' && "analysis_summary"[0] == 'a' && "entity_confirm"[0] == 'e';
    assert "propose_fix"[1] == 'r' && "policy_review"[1] == 'o' && "propose_fix"[0] == 'p';
  }

  /** The questions of other graphs: entities to confirm, and a plan, shown with the number of its steps,
      that is put as a question exactly when a step needs approval. */
  lemma PlanShown(ui: Ui, values: seq<InterruptValue>, output: Output)
    requires values != [] && forall i :: 0 <= i < |values| ==> values[i].question.None?
    ensures Deliver(ui, Interrupt(["entity_confirm"], values)) ==
            ui.(messages := ui.messages + [AgentText(values[0].text)], hitl := Some(Entity))
    ensures Deliver(ui, Interrupt(["policy_review"], values)) ==
            ui.(messages := ui.messages + [PlanMessage(|values[0].approvals|)],
                hitl := if true in values[0].approvals then Some(PolicyReview) else ui.hitl)
    ensures Deliver(ui, NodeEnd("plan", Some(output))) ==
            if output.approvals == [] then ui
            else ui.(messages := ui.messages + [PlanMessage(|output.approvals|)],
                     hitl := if true in output.approvals then Some(PolicyReview) else ui.hitl)
  {
    FirstQuestionIs(values, |values|);
    HandleOne(ui, MEntityConfirm(values[0].text));
    HandleOne(ui, MPlanReady(|values[0].approvals|, true in values[0].approvals));
    HandleOne(ui, MPlanReady(|output.approvals|, true in output.approvals));
    assert "policy_review"[0] == 'p' && "entity_confirm"[0] == 'e' && "plan"[0] == 'p' && "chain_remediate"[0] == 'c';
  }

  /** The start of a tool call adds a running line of the tool, to the message that collects step lines or
      to a new one. */
  lemma ToolStartShown(ui: Ui, tool: string)
    requires tool != ""
    ensures var after := Deliver(ui, NodeStart("act", Some(tool)));
            if ui.executing.Some? && ui.executing.value < |ui.messages| && ui.messages[ui.executing.value].Executing?
            then
              && after.executing == ui.executing
              && after.messages == ui.messages[ui.executing.value :=
                   Executing(ui.messages[ui.executing.value].lines + [RunningLine(tool)])]
            else
              && after.executing == Some(|ui.messages|)
              && after.messages == ui.messages + [Executing([RunningLine(tool)])]
  {
    HandleOne(ui, MStepStart(tool));
  }

  /** The start of `act` without a tool, and that of any other node, shows nothing. */
  lemma OtherStartShown(ui: Ui, node: string, tool: Option<string>)
    requires node != "act" || tool.None? || tool.value == ""
    ensures Deliver(ui, NodeStart(node, tool)) == ui
  {
  }

  function ResultLines(taos: seq<Observed>): seq<Line> {
    seq(|taos|, i requires 0 <= i < |taos| => ResultLine(taos[i]))
  }

  predicate NothingRuns(lines: seq<Line>) {
    forall i :: 0 <= i < |lines| ==> lines[i].ResultLine?
  }

  lemma WithLinesTwice(ui: Ui, a: seq<Line>, b: seq<Line>)
    requires IsExecuting(ui)
    ensures var x := WithLines(ui, a);
            IsExecuting(x) && x.messages[x.executing.value].lines == a && WithLines(x, b) == WithLines(ui, b)
    ensures WithLines(ui, ui.messages[ui.executing.value].lines) == ui
  {
  }

  lemma ObservedHandled(ui: Ui, tao: Observed)
    requires IsExecuting(ui)
    ensures Handle(ui, MStepObserved(tao)) == WithLines(ui, ReplaceOrAppend(ui.messages[ui.executing.value].lines, tao))
  {
  }

  lemma OneMoreResult(ui: Ui, lines: seq<Line>, tao: Observed)
    requires IsExecuting(ui) && NothingRuns(lines)
    ensures Handle(WithLines(ui, lines), MStepObserved(tao)) == WithLines(ui, lines + [ResultLine(tao)])
  {
    hide Handle, WithLines, ReplaceOrAppend;
    WithLinesTwice(ui, lines, lines + [ResultLine(tao)]);
    ObservedHandled(WithLines(ui, lines), tao);
    ResultPosition(lines, tao, |lines|);
  }

  lemma {:induction false} ResultsInOrder(ui: Ui, lines: seq<Line>, taos: seq<Observed>)
    requires IsExecuting(ui) && NothingRuns(lines)
    ensures HandleAll(WithLines(ui, lines), MapObserved(taos)) == WithLines(ui, lines + ResultLines(taos))
  {
    hide Handle, IsExecuting, WithLines, MapObserved;
    if taos == [] {
      assert lines + ResultLines(taos) == lines && MapObserved(taos) == [];
    } else {
      var front, last := taos[..|taos| - 1], taos[|taos| - 1];
      ResultsInOrder(ui, lines, front);
      OneMoreResult(ui, lines + ResultLines(front), last);
      assert lines + ResultLines(front) + [ResultLine(last)] == lines + ResultLines(taos);
      var ms := MapObserved(taos);
      assert ms[..|ms| - 1] == MapObserved(front) && ms[|ms| - 1] == MStepObserved(last);
    }
  }

  lemma ObserveMaps(output: Output)
    requires output.history.Some?
    ensures MapEvent(NodeEnd("observe", Some(output))) == [MNodeDone("observe")] + MapObserved(output.history.value)
  {
    assert "observe"[0] == 'o' && "chain_remediate"[0] == 'c' && "plan"[0] == 'p' && "report"[0] == 'r';
  }

  lemma {:induction false} HandleAfter(ui: Ui, m: Mapped, ms: seq<Mapped>)
    ensures HandleAll(ui, [m] + ms) == HandleAll(Handle(ui, m), ms)
  {
    hide Handle;
    if ms == [] {
      assert [m] + ms == [m];
      HandleOne(ui, m);
    } else {
      var all := [m] + ms;
      HandleAfter(ui, m, ms[..|ms| - 1]);
      assert all[..|all| - 1] == [m] + ms[..|ms| - 1];
    }
  }

  lemma ObservedOne(ui: Ui, tao: Observed)
    requires IsExecuting(ui)
    ensures HandleAll(ui, MapObserved([tao])) ==
            WithLines(ui, ReplaceOrAppend(ui.messages[ui.executing.value].lines, tao))
  {
    hide Handle, WithLines, IsExecuting, ReplaceOrAppend;
    assert MapObserved([tao]) == [MStepObserved(tao)];
    HandleOne(ui, MStepObserved(tao));
    ObservedHandled(ui, tao);
  }

  /** The end of an observation shows its findings: the one of the tool that runs in place of its running
      line, and any number of them in their order when no tool runs. */
  lemma ObservedShown(ui: Ui, output: Output)
    requires IsExecuting(ui) && output.history.Some?
    ensures var lines, after := ui.messages[ui.executing.value].lines, Deliver(ui, NodeEnd("observe", Some(output)));
            && (forall tao :: output.history.value == [tao] ==> after == WithLines(ui, ReplaceOrAppend(lines, tao)))
            && (NothingRuns(lines) ==> after == WithLines(ui, lines + ResultLines(output.history.value)))
  {
    hide Handle, HandleAll, WithLines, MapObserved, MapEvent, ReplaceOrAppend, NothingRuns, ResultLines;
    var lines, taos := ui.messages[ui.executing.value].lines, output.history.value;
    ObserveMaps(output);
    HandleAfter(ui, MNodeDone("observe"), MapObserved(taos));
    NodeDoneShowsNothing(ui, "observe");
    WithLinesTwice(ui, lines, lines);
    if |taos| == 1 {
      ObservedOne(ui, taos[0]);
      assert taos == [taos[0]];
    }
    if NothingRuns(lines) {
      ResultsInOrder(ui, lines, taos);
    }
  }

  /** With no message that collects step lines, a finding opens one. */
  lemma ObservedAlone(ui: Ui, output: Output, tao: Observed)
    requires ui.executing.None? && output.history == Some([tao])
    ensures Deliver(ui, NodeEnd("observe", Some(output))) ==
            ui.(messages := ui.messages + [Executing([ResultLine(tao)])], executing := Some(|ui.messages|))
  {
    ObserveMaps(output);
    HandleTwo(ui, MNodeDone("observe"), MStepObserved(tao));
    NodeDoneShowsNothing(ui, "observe");
    assert MapObserved([tao]) == [MStepObserved(tao)];
    assert [MNodeDone("observe")] + [MStepObserved(tao)] == [MNodeDone("observe"), MStepObserved(tao)];
  }

  lemma NodeDoneShowsNothing(ui: Ui, node: string)
    ensures Handle(ui, MNodeDone(node)) == ui
  {
  }

  // ---- The end of a run ----

  lemma DeliverNext(ui: Ui, evs: seq<GatewayEvent>, ev: GatewayEvent)
    ensures DeliverAll(ui, evs + [ev]) == Deliver(DeliverAll(ui, evs), ev)
  {
    assert (evs + [ev])[..|evs|] == evs;
  }

  lemma ReportDelivered(ui: Ui, output: Output)
    requires output.report.Some? && output.report.value != ""
    ensures Deliver(ui, NodeEnd("report", Some(output))) == HeldReport(ui, output.report.value, "UNKNOWN")
  {
    assert "observe"[0] == 'o' && "chain_remediate"[0] == 'c' && "plan"[0] == 'p' && "report"[0] == 'r';
    assert MapEvent(NodeEnd("report", Some(output))) == [MNodeDone("report"), MReport(output.report.value)];
    HandleTwo(ui, MNodeDone("report"), MReport(output.report.value));
  }

  /** An empty or missing report is not shown. */
  lemma EmptyReportShown(ui: Ui, output: Output)
    requires output.report.None? || output.report.value == ""
    ensures Deliver(ui, NodeEnd("report", Some(output))) == ui
  {
    assert "observe"[0] == 'o' && "chain_remediate"[0] == 'c' && "plan"[0] == 'p' && "report"[0] == 'r';
    assert MapEvent(NodeEnd("report", Some(output))) == [MNodeDone("report")];
    HandleOne(ui, MNodeDone("report"));
  }

  lemma ChainDelivered(ui: Ui, output: Option<Output>)
    ensures Deliver(ui, NodeEnd("chain_remediate", output)) ==
            ui.(opa := if output.Some? && output.value.opaDecision.Some? then output.value.opaDecision.value
                       else "UNKNOWN")
  {
    var d := if output.Some? && output.value.opaDecision.Some? then output.value.opaDecision.value else "UNKNOWN";
    HandleTwo(ui, MNodeDone("chain_remediate"), MChainResult(d));
  }

  lemma UsageDelivered(ui: Ui, a: int, b: int)
    ensures Deliver(ui, Usage(a, b)) == ui
  {
  }

  lemma DoneDelivered(ui: Ui)
    ensures Deliver(ui, Done) == HandleDone(ui)
  {
    HandleOne(ui, MDone);
  }

  /** How a run with a report ends on the screen: the events of the last two nodes, the usage and `done`
      show the text of that report once, with the decision of the chain's output, or "UNKNOWN" if it
      has none. */
  lemma RunEndsWithReport(ui: Ui, output: Output, tool: Option<string>, chain: Option<Output>, a: int, b: int)
    requires output.report.Some? && output.report.value != ""
    ensures var evs := [NodeEnd("report", Some(output)), NodeStart("chain_remediate", tool),
                        NodeEnd("chain_remediate", chain), Usage(a, b), Done];
            var shown, text := DeliverAll(ui, evs), output.report.value;
            && !shown.running && shown.hitl.None? && !shown.chainActive && shown.pendingReport.None?
            && (forall d :: chain.Some? && chain.value.opaDecision == Some(d) ==>
                  shown.messages == ui.messages + [FinalReport(text, d), ChainVerdict(d)])
            && (chain.None? || chain.value.opaDecision.None? ==>
                  shown.messages == ui.messages + [FinalReport(text, "UNKNOWN"), ChainVerdict("UNKNOWN")])
  {
    hide Deliver;
    var report, start := NodeEnd("report", Some(output)), NodeStart("chain_remediate", tool);
    var ended, usage := NodeEnd("chain_remediate", chain), Usage(a, b);
    assert "act"[0] != "chain_remediate"[0];
    DeliverNext(ui, [], report);
    DeliverNext(ui, [report], start);
    DeliverNext(ui, [report, start], ended);
    DeliverNext(ui, [report, start, ended], usage);
    DeliverNext(ui, [report, start, ended, usage], Done);
    assert [] + [report] == [report] && [report] + [start] == [report, start];
    assert [report, start] + [ended] == [report, start, ended];
    assert [report, start, ended] + [usage] == [report, start, ended, usage];
    assert [report, start, ended, usage] + [Done] == [report, start, ended, usage, Done];
    ReportDelivered(ui, output);
    var held := HeldReport(ui, output.report.value, "UNKNOWN");
    OtherStartShown(held, "chain_remediate", tool);
    ChainDelivered(held, chain);
    UsageDelivered(DeliverAll(ui, [report, start, ended]), a, b);
    DoneDelivered(DeliverAll(ui, [report, start, ended, usage]));
  }

  /** An error is shown and closes everything. */
  lemma FailureShown(ui: Ui, detail: Option<string>)
    ensures Deliver(ui, Failure(detail)) ==
            ui.(messages := ui.messages + [ErrorText(if detail.Some? then detail.value else "Unknown error")],
                chainActive := false, running := false, hitl := None)
  {
    HandleOne(ui, MError(if detail.Some? then detail.value else "Unknown error"));
  }

  /** A compaction is shown when it sets in. */
  lemma BudgetShown(ui: Ui, tokens: int, compacted: bool, evicted: int)
    ensures Deliver(ui, Budget(tokens, compacted, evicted)) ==
            ui.(messages := ui.messages + (if compacted && !ui.compacted then [Compaction(evicted)] else []),
                compacted := compacted)
  {
    HandleOne(ui, MBudget(tokens, compacted, evicted));
    assert ui.messages + [] == ui.messages;
  }

  /** Without a report, `done` only ends the run. */
  lemma PlainDoneShown(ui: Ui)
    requires !ui.chainActive
    ensures Deliver(ui, Done) == ui.(running := false)
  {
    DoneDelivered(ui);
  }

  /** The end of any other node shows nothing. */
  lemma OtherNodeShown(ui: Ui, node: string, output: Option<Output>)
    requires node !in {"chain_remediate", "plan", "observe", "report"}
    ensures Deliver(ui, NodeEnd(node, output)) == ui
  {
    HandleOne(ui, MNodeDone(node));
    assert MapEvent(NodeEnd(node, output)) == [MNodeDone(node)];
  }

  /** A reply is shown as the user's, closes the question, sets the run going again and ends the message
      that collects step lines. */
  lemma ReplyShown(ui: Ui, text: string)
    ensures Reply(ui, text) ==
            ui.(messages := ui.messages + [UserText(text)], hitl := None, running := true, executing := None)
  {
  }
}
