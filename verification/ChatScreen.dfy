/** What the client shows: overlapping ticks, the report that waits for the chain, and step lines. */
module ChatScreen {
  import opened Wrappers
  import opened ChatEvents
  import opened ChatThread

  // ---- Overlapping ticks ----

  lemma {:induction false} DeliverBoth(ui: Ui, a: seq<GatewayEvent>, b: seq<GatewayEvent>)
    ensures DeliverAll(ui, a + b) == DeliverAll(DeliverAll(ui, a), b)
  {
    hide Deliver;
    if b == [] {
      assert a + b == a;
    } else {
      DeliverBoth(ui, a, b[..|b| - 1]);
      assert (a + b)[..|a + b| - 1] == a + b[..|b| - 1];
    }
  }

  /** Two ticks in flight together: both request the log from the same cursor, the first is answered
      when it is `log`, the second when it has grown to `later`. The second is handled even if the
      first one read `done`, because nothing cancels a tick that waits for its answer. */
  function Overlap(c: Client, log: seq<GatewayEvent>, later: seq<GatewayEvent>, now: int, nextNow: int): Client {
    Ticked(Ticked(c, EventsFrom(log, c.cursor), now), EventsFrom(later, c.cursor), nextNow)
  }

  /** Everything the first answer brings is handled again with the second. */
  lemma OverlapRepeats(c: Client, log: seq<GatewayEvent>, later: seq<GatewayEvent>, now: int, nextNow: int)
    requires c.cursor < |log| && log <= later
    ensures var first, second := EventsFrom(log, c.cursor), EventsFrom(later, c.cursor);
            && first <= second
            && Overlap(c, log, later, now, nextNow).ui == DeliverAll(c.ui, UpToDone(first) + UpToDone(second))
  {
    hide Deliver, DeliverAll, UpToDone;
    var first, second := EventsFrom(log, c.cursor), EventsFrom(later, c.cursor);
    assert log == later[..|log|];
    assert first == second[..|first|];
    DeliverBoth(c.ui, UpToDone(first), UpToDone(second));
  }

  /** Without a `done`, the cursor moves past as many events as the first answer brought, and no later
      poll ever gives them. */
  lemma OverlapSkips(c: Client, log: seq<GatewayEvent>, later: seq<GatewayEvent>, now: int, nextNow: int,
                     last: seq<GatewayEvent>)
    requires c.cursor < |log| && log <= later <= last && Done !in EventsFrom(later, c.cursor)
    ensures var both := Overlap(c, log, later, now, nextNow);
            var first, unread := EventsFrom(log, c.cursor), EventsFrom(last, |later|);
            && both.polling == c.polling
            && both.cursor == |later| + |first| > |later|
            && EventsFrom(last, both.cursor) == EventsFrom(unread, |first|)
  {
    hide DeliverAll, UpToDone;
    var first, second := EventsFrom(log, c.cursor), EventsFrom(later, c.cursor);
    assert log == later[..|log|];
    assert first == second[..|first|];
    assert Done !in first;
  }

  // ---- The report waits for the chain ----

  /** The decision of the last chain result, or the one before. */
  function LastOpa(ms: seq<Mapped>, opa: string): string {
    if ms == [] then opa
    else if ms[|ms| - 1].MChainResult? then ms[|ms| - 1].opa
    else LastOpa(ms[..|ms| - 1], opa)
  }

  predicate AfterReport(m: Mapped) {
    m.MChainResult? || m.MNodeDone?
  }

  lemma {:induction false} ChainHoldsReport(ui: Ui, ms: seq<Mapped>)
    requires forall i :: 0 <= i < |ms| ==> AfterReport(ms[i])
    ensures HandleAll(ui, ms) == ui.(opa := LastOpa(ms, ui.opa))
  {
    if ms != [] {
      ChainHoldsReport(ui, ms[..|ms| - 1]);
    }
  }

  /** A report shows nothing until the run is done; then it is shown once, with the decision of the
      remediation chain, followed by the verdict on the chain, and the run is over. */
  lemma {:induction false} ReportShownWithVerdict(ui: Ui, text: string, chain: seq<Mapped>)
    requires forall i :: 0 <= i < |chain| ==> AfterReport(chain[i])
    ensures var held := HandleAll(Handle(ui, MReport(text)), chain);
            var shown := Handle(held, MDone);
            var opa := LastOpa(chain, "UNKNOWN");
            && held.messages == ui.messages && held.hitl.None?
            && shown.messages == ui.messages + [FinalReport(text, opa), ChainVerdict(opa)]
            && !shown.running && !shown.chainActive && shown.pendingReport.None?
            && Handle(shown, MDone) == shown
  {
    var opa := LastOpa(chain, "UNKNOWN");
    ReportHeld(ui, text, chain);
    hide HandleAll, LastOpa;
    DoneShows(ui, HeldReport(ui, text, opa), text, opa);
  }

  /** The screen while a report is held back. */
  function HeldReport(ui: Ui, text: string, opa: string): Ui {
    ui.(executing := None, pendingReport := Some(text), chainActive := true, opa := opa, hitl := None)
  }

  lemma ReportHeld(ui: Ui, text: string, chain: seq<Mapped>)
    requires forall i :: 0 <= i < |chain| ==> AfterReport(chain[i])
    ensures HandleAll(Handle(ui, MReport(text)), chain) == HeldReport(ui, text, LastOpa(chain, "UNKNOWN"))
  {
    hide Handle, HandleAll, LastOpa, AfterReport;
    ReportHandled(ui, text);
    ChainHoldsReport(Handle(ui, MReport(text)), chain);
  }

  lemma ReportHandled(ui: Ui, text: string)
    ensures Handle(ui, MReport(text)) == HeldReport(ui, text, "UNKNOWN")
  {
  }

  lemma DoneShows(ui: Ui, held: Ui, text: string, opa: string)
    requires held == HeldReport(ui, text, opa)
    ensures var shown := Handle(held, MDone);
            && shown.messages == ui.messages + [FinalReport(text, opa), ChainVerdict(opa)]
            && !shown.running && !shown.chainActive && shown.pendingReport.None?
            && Handle(shown, MDone) == shown
  {
  }

  // ---- Step lines ----

  function RunningOf(lines: seq<Line>, tool: string): nat {
    if lines == [] then 0 else (if lines[0] == RunningLine(tool) then 1 else 0) + RunningOf(lines[1..], tool)
  }

  /** A step result takes the place of the running line of its own tool; without one it is a new
      line. The running lines of other tools stay. */
  lemma {:induction false} ResultReplacesRunning(lines: seq<Line>, tao: Observed, tool: string)
    ensures var after := ReplaceOrAppend(lines, tao);
            && |after| == |lines| + (if RunningOf(lines, tao.tool) == 0 then 1 else 0)
            && ResultLine(tao) in after
            && RunningOf(after, tool) ==
               RunningOf(lines, tool) - (if tool == tao.tool && RunningOf(lines, tool) > 0 then 1 else 0)
  {
    if lines != [] {
      ResultReplacesRunning(lines[1..], tao, tool);
      if lines[0] != RunningLine(tao.tool) {
        assert ResultLine(tao) in ReplaceOrAppend(lines[1..], tao);
      }
    }
  }

  /** A result is put where the first running line of its tool is, and at the end if there is none. */
  lemma {:induction false} ResultPosition(lines: seq<Line>, tao: Observed, i: nat)
    requires i <= |lines| && RunningLine(tao.tool) !in lines[..i]
    requires i < |lines| ==> lines[i] == RunningLine(tao.tool)
    ensures ReplaceOrAppend(lines, tao) ==
            if i < |lines| then lines[i := ResultLine(tao)] else lines + [ResultLine(tao)]
  {
    if i > 0 {
      assert lines[0] == lines[..i][0];
      assert lines[1..][..i - 1] == lines[..i][1..];
      ResultPosition(lines[1..], tao, i - 1);
    }
  }
}
