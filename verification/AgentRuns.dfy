/** What every run of a fresh thread keeps. */
module AgentRuns {
  import opened Wrappers
  import opened Text
  import opened AgentGraph

  // ---- How a reply is read ----

  /** A reply to a step review, read by itself. */
  datatype Verdict = Approve | Reject | Revise

  predicate BareModify(reply: string) {
    Normal(reply) == "modify" && !IsSpace(reply[0])
  }

  /** Everything that is neither a word of a list, nor blank, nor the bare word "modify" at the very
      start of the reply asks for a revision. */
  function VerdictOf(reply: string, approvals: set<string>): Verdict {
    var r := Normal(reply);
    if r in REJECTIONS then Reject
    else if r in approvals || r == "" || BareModify(reply) then Approve
    else Revise
  }

  /** "modify" with nothing after it gives empty feedback only without leading blanks: the code cuts
      six characters off the unstripped reply. */
  lemma AfterModifyEmpty(reply: string)
    requires StartsWithModify(Normal(reply))
    ensures AfterModify(reply) == "" <==> BareModify(reply)
  {
    var k, m := StripShape(reply);
    var r := Normal(reply);
    assert m - k == |r| >= 6 && |reply| >= 6;
    assert r[5] == 'y' && r[5] == LowerChar(reply[k..m][5]) && reply[k..m][5] == reply[k + 5];
    assert r[0] == 'm' && r[0] == LowerChar(reply[k..m][0]) && reply[k..m][0] == reply[k];
    var rest := reply[6..];
    StripEmpty(rest);
    if k > 0 {
      assert IsSpace(reply[..k][0]);
      assert rest[k + 5 - 6] == reply[k + 5];
    } else if m > 6 {
      assert rest[m - 1 - 6] == reply[m - 1];
    } else {
      assert r == "modify";
      assert rest == reply[m..];
    }
  }

  /** The text a user wrote after the word "modify". */
  function TextAfterWord(reply: string): string
    requires StartsWithModify(Normal(reply))
  {
    LStrip(Strip(reply)[6..])
  }

  /** Cutting inside the text: its rest, with the leading blanks of that rest gone. */
  lemma CutInside(text: string, after: string, cut: nat)
    requires 0 < cut <= |text| && !IsSpace(text[|text| - 1]) && AllSpace(after)
    ensures Strip(text[cut..] + after) == LStrip(text[cut..])
  {
    var y := text[cut..];
    var j := LStripShape(y);
    assert y + after == y[..j] + y[j..] + after;
    if j < |y| {
      assert y[j..][|y[j..]| - 1] == text[|text| - 1];
    }
    StripParts(y[..j], y[j..], after);
  }

  /** The reply is k blanks, a text that starts with the word, and blanks from m on. */
  lemma ModifyShape(reply: string) returns (k: nat, m: nat)
    requires StartsWithModify(Normal(reply))
    ensures k + 6 <= m <= |reply| && Strip(reply) == reply[k..m]
    ensures AllSpace(reply[..k]) && AllSpace(reply[m..]) && !IsSpace(reply[k]) && !IsSpace(reply[m - 1])
    ensures AfterModify(reply) == Strip(reply[6..])
  {
    k, m := StripShape(reply);
    assert |Strip(reply)| == |Normal(reply)| >= 6;
  }

  /** With k leading blanks the cut of six characters falls k characters too early in the text, or
      leaves the whole text when there are six blanks or more. */
  lemma ModifyCut(reply: string) returns (k: nat)
    requires StartsWithModify(Normal(reply))
    ensures k < |reply| && AllSpace(reply[..k]) && !IsSpace(reply[k])
    ensures AfterModify(reply) == LStrip(Strip(reply)[if k < 6 then 6 - k else 0..])
  {
    hide Normal, Strip, AfterModify, StartsWithModify, AllSpace, IsSpace;
    var m;
    k, m := ModifyShape(reply);
    var text, after := reply[k..m], reply[m..];
    if k < 6 {
      assert reply[6..] == text[6 - k..] + after;
      CutInside(text, after, 6 - k);
    } else {
      BlanksInside(reply, k);
      assert reply[6..] == reply[6..k] + text + after;
      StripParts(reply[6..k], text, after);
      assert text[0..] == text && LStrip(text) == text;
    }
  }

  lemma BlanksInside(reply: string, k: nat)
    requires 6 <= k <= |reply| && AllSpace(reply[..k])
    ensures AllSpace(reply[6..k])
  {
    assert forall i :: 0 <= i < k - 6 ==> reply[6..k][i] == reply[..k][i + 6];
  }

  lemma BlankNoLetter(c: char)
    requires IsSpace(c)
    ensures LowerChar(c) == c && !('a' <= c <= 'z')
  {
  }

  lemma WordNotBlank(text: string, i: nat)
    requires "modify" <= Lower(text) && i < 6
    ensures !IsSpace(text[i])
  {
    var letter := "modify"[i];
    assert 'a' <= letter <= 'z';
    assert LowerChar(text[i]) == Lower(text)[i] == letter;
    hide IsSpace, LowerChar;
    if IsSpace(text[i]) {
      BlankNoLetter(text[i]);
    }
  }

  /** The text passed on is the text after the word exactly when the reply has no leading blank. */
  lemma ModifyTextExactly(reply: string)
    requires StartsWithModify(Normal(reply))
    ensures AfterModify(reply) == TextAfterWord(reply) <==> !IsSpace(reply[0])
  {
    var k := ModifyCut(reply);
    if k > 0 {
      assert IsSpace(reply[..k][0]);
      var core := Strip(reply);
      var cut: nat := if k < 6 then 6 - k else 0;
      WordNotBlank(core, cut);
      assert LStrip(core[cut..]) == core[cut..];
      var j := LStripShape(core[6..]);
    }
  }

  /** The words of the lists are not blank, do not start with "modify", and are in one list only. */
  lemma Words(r: string)
    ensures r in APPROVALS ==> r != "" && !StartsWithModify(r) && r !in REJECTIONS
    ensures r in REJECTIONS ==> r != "" && !StartsWithModify(r)
    ensures r in FIX_APPROVALS ==> r in APPROVALS
  {
    if StartsWithModify(r) {
      assert r[0] == "modify"[0] == 'm';
    }
  }

  /** The verdict of a step review: auto-approval stands for an approving reply. */
  function ReviewOf(env: Env): Verdict {
    if env.autoApprove then Approve else VerdictOf(env.reply, APPROVALS)
  }

  lemma NormalApprove()
    ensures Normal("approve") == "approve" && "approve" !in REJECTIONS
  {
    assert LStrip("approve") == "approve" && RStrip("approve") == "approve";
    var r := Lower("approve");
    assert forall i :: 0 <= i < 7 ==> r[i] == "approve"[i];
    assert "approve" in FIX_APPROVALS;
    Words("approve");
  }

  /** A step review leaves feedback exactly when the verdict is to revise. */
  lemma StepReviewFeedback(st: State, env: Env)
    ensures var after := DoStepReview(st, env);
            && after == st.(response := if env.autoApprove then Some("approve") else Some(env.reply),
                            feedback := after.feedback)
            && (Truthy(after.feedback) <==> ReviewOf(env) == Revise)
  {
    Words(Normal(env.reply));
    StripEmpty(env.reply);
    if StartsWithModify(Normal(env.reply)) {
      AfterModifyEmpty(env.reply);
    }
  }

  /** A rejection ends the run, an approval goes on as the thought's signal says, and any other reply
      goes back to `think`. */
  lemma StepReviewByVerdict(st: State, env: Env)
    requires st.thought.Some?
    ensures RouteStepReview(DoStepReview(st, env)) ==
            match ReviewOf(env)
            case Reject => End
            case Revise => Think
            case Approve =>
              if st.thought.value.signal == Some(AnalysisDone) then AnalysisSummary
              else if st.thought.value.signal == Some(RemediationDone) then Report
              else Act
  {
    StepReviewFeedback(st, env);
    NormalApprove();
  }

  lemma ProposeFixFeedback(st: State, env: Env)
    ensures var after := DoProposeFix(st, env);
            && after.response == Some(env.reply)
            && (Truthy(after.feedback) <==> VerdictOf(env.reply, FIX_APPROVALS) == Revise)
            && after.cacheHit == (if Keeps(st, env) then st.cacheHit else Some(false))
  {
    Words(Normal(env.reply));
    StripEmpty(env.reply);
    if StartsWithModify(Normal(env.reply)) {
      AfterModifyEmpty(env.reply);
    }
  }

  /** `propose_fix`: approval goes to the report, a revision asks again, and a rejection ends the
      run or, when a cached plan is or was on the table or the plan was modified, starts over. */
  lemma ProposeFixByVerdict(st: State, env: Env)
    ensures RouteProposeFix(DoProposeFix(st, env)) ==
            match VerdictOf(env.reply, FIX_APPROVALS)
            case Approve => Report
            case Revise => ProposeFix
            case Reject => if st.cacheHit.Some? then Think else End
  {
    ProposeFixFeedback(st, env);
    var r := Normal(env.reply);
    Words(r);
    if BareModify(env.reply) {
      assert StartsWithModify(r);
    }
    if st.cacheHit.Some? && st.cacheHit.value {
      assert st.cacheHit == Some(true);
    } else if st.cacheHit.Some? {
      assert st.cacheHit == Some(false);
    }
  }

  /** The reply leaves the cache flag alone: an approval, or the rejection of a plan that is not
      a cached one. */
  predicate Keeps(st: State, env: Env) {
    var r := Normal(env.reply);
    r in FIX_APPROVALS || (r in REJECTIONS && st.cacheHit != Some(true))
  }

  /** A blank in front of "modify" turns the bare word into feedback. */
  lemma {:induction false} LeadingBlankModify(approvals: set<string>)
    requires approvals == APPROVALS || approvals == FIX_APPROVALS
    ensures VerdictOf("modify", approvals) == Approve
    ensures VerdictOf(" modify", approvals) == Revise
  {
    assert " modify"[1..] == "modify" && LStrip(" modify"[1..]) == "modify";
    assert RStrip("modify") == "modify" && Strip("modify") == "modify" && Strip(" modify") == "modify";
    LowerModify();
    Words("modify");
  }

  lemma LowerModify()
    ensures Lower("modify") == "modify"
  {
    var r := Lower("modify");
    assert forall i :: 0 <= i < 6 ==> r[i] == "modify"[i];
  }

  // ---- One pass through the graph ----

  /** The parts of the graph a run passes through, never backwards. */
  function Stage(n: Node): nat {
    match n
    case ManageContext | ExtractIntent | Clarify => 0
    case CheckPlanCache => 1
    case Think | HitlStepReview | Act | Observe | AnalysisSummary | ProposeFix => 2
    case Report => 3
    case ChainRemediate => 4
    case End => 5
  }

  lemma StageClimbs(n: Node, m: Node)
    requires m in Targets(n)
    ensures Stage(n) <= Stage(m)
    ensures n.CheckPlanCache? || n.Report? || n.ChainRemediate? ==> Stage(n) < Stage(m)
  {
  }

  lemma {:induction false} StageNeverFalls(envs: seq<Env>, i: nat, j: nat)
    requires i <= j <= |envs|
    ensures Stage(At(envs, i).node) <= Stage(At(envs, j).node)
    decreases j
  {
    hide Step;
    if i < j {
      StageNeverFalls(envs, i, j - 1);
      StageClimbs(At(envs, j - 1).node, At(envs, j).node);
    }
  }

  // ---- What has happened ----

  ghost predicate HitBefore(envs: seq<Env>, n: nat)
    requires n <= |envs|
  {
    exists i :: 0 <= i < n && HitAt(envs, i)
  }

  predicate HitAt(envs: seq<Env>, i: nat)
    requires i < |envs|
  {
    Hits(At(envs, i), envs[i])
  }

  /** The reply at step i modifies the proposal: it is in neither list, so a blank one counts. */
  predicate ModifiesAt(envs: seq<Env>, i: nat)
    requires i < |envs|
  {
    Modifies(At(envs, i), envs[i])
  }

  ghost predicate ModifiedBefore(envs: seq<Env>, n: nat)
    requires n <= |envs|
  {
    exists i :: 0 <= i < n && ModifiesAt(envs, i)
  }

  /** Completed act/observe rounds. */
  ghost function Observations(envs: seq<Env>, n: nat): nat
    requires n <= |envs|
  {
    if n == 0 then 0 else Observations(envs, n - 1) + if At(envs, n - 1).node.Observe? then 1 else 0
  }

  lemma HitBeforeNext(envs: seq<Env>, n: nat)
    requires 0 < n <= |envs|
    ensures HitBefore(envs, n) <==> HitBefore(envs, n - 1) || HitAt(envs, n - 1)
  {
  }

  lemma ModifiedBeforeNext(envs: seq<Env>, n: nat)
    requires 0 < n <= |envs|
    ensures ModifiedBefore(envs, n) <==> ModifiedBefore(envs, n - 1) || ModifiesAt(envs, n - 1)
  {
  }

  // ---- The invariant ----

  predicate Numbered(history: seq<Tao>) {
    forall i :: 0 <= i < |history| ==> history[i].stepNumber == i + 1
  }

  /** Which phase and thought each node may see. */
  predicate PhaseFits(c: Config) {
    && (c.st.phase == Some(Remediation) ==> Stage(c.node) >= 3)
    && (c.node in {HitlStepReview, Act, Observe, AnalysisSummary} ==>
          c.st.phase == Some(Analysis) && c.st.thought.Some?)
    && (c.node.Act? || c.node.Observe? ==> c.st.thought.value.signal.None?)
  }

  /** The invariant of a configuration, given whether the cache hit, whether a proposal was
      modified, and how many rounds were observed so far. */
  predicate Holds(c: Config, hit: bool, modified: bool, observations: nat) {
    && (Stage(c.node) <= 1 ==> !hit && c.st == FRESH.(intent := c.st.intent, clarifications := c.st.clarifications))
    && (c.node.CheckPlanCache? ==> c.st.intent.Some?)
    && PhaseFits(c)
    && Numbered(c.st.history)
    && |c.st.history| == observations
    && |c.st.findings| == observations + (if hit then 1 else 0)
    && (c.st.cacheHit.None? <==> !hit && !modified)
    && (c.st.cacheHit == Some(true) ==> c.node == ProposeFix || Stage(c.node) >= 3)
  }

  predicate Hits(c: Config, env: Env) {
    c.node.CheckPlanCache? && env.cached.Some?
  }

  predicate Modifies(c: Config, env: Env) {
    c.node.ProposeFix? && Normal(env.reply) !in FIX_APPROVALS && Normal(env.reply) !in REJECTIONS
  }

  /** A step review changes nothing but the reply and the feedback, and goes to `act` only on a
      thought without a signal. */
  lemma StepReviewFrame(c: Config, env: Env)
    requires c.node.HitlStepReview?
    ensures var next := Step(c, env);
            && next.st == c.st.(response := next.st.response, feedback := next.st.feedback)
            && (next.node.Act? && c.st.thought.Some? ==> c.st.thought.value.signal.None?)
  {
    if c.st.thought.Some? && c.st.thought.value.signal.Some? {
      assert c.st.thought.value.signal.value.AnalysisDone? || c.st.thought.value.signal.value.RemediationDone?;
    }
  }

  lemma KeptByStepReview(c: Config, next: Config, hit: bool, modified: bool, observations: nat)
    requires c.node.HitlStepReview? && Holds(c, hit, modified, observations)
    requires next.st == c.st.(response := next.st.response, feedback := next.st.feedback)
    requires next.node in Targets(c.node)
    requires next.node.Act? ==> c.st.thought.value.signal.None?
    ensures Holds(next, hit, modified, observations)
  {
  }

  lemma KeptByProposeFix(c: Config, env: Env, hit: bool, modified: bool, observations: nat)
    requires c.node.ProposeFix? && Holds(c, hit, modified, observations)
    ensures Holds(Step(c, env), hit, modified || Modifies(c, env), observations)
  {
    ProposeFixByVerdict(c.st, env);
    ProposeFixFeedback(c.st, env);
    Words(Normal(env.reply));
  }

  lemma Kept(c: Config, env: Env, hit: bool, modified: bool, observations: nat)
    requires !c.node.HitlStepReview? && !c.node.ProposeFix? && !c.node.AnalysisSummary?
    requires Holds(c, hit, modified, observations)
    ensures Holds(Step(c, env), hit || Hits(c, env), modified, observations + if c.node.Observe? then 1 else 0)
  {
    assert c.st.phase.Some? ==> c.st.phase.value.Analysis? || c.st.phase.value.Remediation?;
  }

  lemma KeptByAnalysisSummary(c: Config, env: Env, hit: bool, modified: bool, observations: nat)
    requires c.node.AnalysisSummary? && Holds(c, hit, modified, observations)
    ensures Holds(Step(c, env), hit, modified, observations)
  {
  }

  ghost predicate Inv(envs: seq<Env>, n: nat)
    requires n <= |envs|
  {
    Holds(At(envs, n), HitBefore(envs, n), ModifiedBefore(envs, n), Observations(envs, n))
  }

  lemma {:induction false} AlwaysInv(envs: seq<Env>, n: nat)
    requires n <= |envs|
    ensures Inv(envs, n)
  {
    hide Step;
    if n > 0 {
      AlwaysInv(envs, n - 1);
      HitBeforeNext(envs, n);
      ModifiedBeforeNext(envs, n);
      var c, env := At(envs, n - 1), envs[n - 1];
      var hit, modified, observations := HitBefore(envs, n - 1), ModifiedBefore(envs, n - 1), Observations(envs, n - 1);
      match c.node
      case HitlStepReview =>
        StepReviewFrame(c, env);
        KeptByStepReview(c, Step(c, env), hit, modified, observations);
      case ProposeFix => KeptByProposeFix(c, env, hit, modified, observations);
      case AnalysisSummary => KeptByAnalysisSummary(c, env, hit, modified, observations);
      case _ => Kept(c, env, hit, modified, observations);
    }
  }

  // ---- What runs guarantee ----

  /** History and findings: steps are numbered 1, 2, 3, ... with one record per observed round, and
      there is one finding per record plus the one a cached plan brings. */
  lemma {:induction false} HistoryNumbered(envs: seq<Env>, n: nat)
    requires n <= |envs|
    ensures var st := At(envs, n).st;
            && Numbered(st.history) && |st.history| == Observations(envs, n)
            && |st.findings| == |st.history| + (if HitBefore(envs, n) then 1 else 0)
  {
    AlwaysInv(envs, n);
  }

  /** The step review as a step of the graph. */
  lemma ReviewStep(c: Config, env: Env)
    requires c.node.HitlStepReview? && c.st.thought.Some?
    ensures Step(c, env).node ==
            match ReviewOf(env)
            case Reject => End
            case Revise => Think
            case Approve =>
              if c.st.thought.value.signal == Some(AnalysisDone) then AnalysisSummary
              else if c.st.thought.value.signal == Some(RemediationDone) then Report
              else Act
    ensures Truthy(Step(c, env).st.feedback) <==> ReviewOf(env) == Revise
  {
    StepReviewByVerdict(c.st, env);
    StepReviewFeedback(c.st, env);
  }

  /** Human in the loop: a tool runs exactly after an approved step review of a thought without a
      signal, and it is the reviewed thought that runs. */
  lemma {:induction false} ToolsRunOnlyApproved(envs: seq<Env>, n: nat)
    requires n < |envs|
    ensures At(envs, n + 1).node.Act? <==>
            && At(envs, n).node.HitlStepReview?
            && At(envs, n).st.thought.Some? && At(envs, n).st.thought.value.signal.None?
            && ReviewOf(envs[n]) == Approve
    ensures At(envs, n + 1).node.Act? ==> At(envs, n + 1).st.thought == At(envs, n).st.thought
  {
    hide Step;
    AlwaysInv(envs, n);
    var c := At(envs, n);
    if c.node.HitlStepReview? {
      ReviewStep(c, envs[n]);
      StepReviewFrame(c, envs[n]);
      ReviewTargets(c.st.thought.value.signal);
    } else {
      assert Act !in Targets(c.node);
    }
  }

  /** The other verdicts: a rejection ends the run, and a revision goes back to `think` with feedback
      to act on. */
  lemma {:induction false} ReviewRejectsOrRevises(envs: seq<Env>, n: nat)
    requires n < |envs| && At(envs, n).node.HitlStepReview?
    ensures At(envs, n + 1).node.End? <==> ReviewOf(envs[n]) == Reject
    ensures At(envs, n + 1).node.Think? <==> ReviewOf(envs[n]) == Revise
    ensures At(envs, n + 1).node.Think? ==> Truthy(At(envs, n + 1).st.feedback)
  {
    hide Step;
    AlwaysInv(envs, n);
    ReviewStep(At(envs, n), envs[n]);
  }

  /** At step m the user, or auto-approval, approved a thought without a signal. */
  predicate ApprovedAt(envs: seq<Env>, m: nat)
    requires m < |envs|
  {
    var c := At(envs, m);
    && c.node.HitlStepReview? && ReviewOf(envs[m]) == Approve
    && c.st.thought.Some? && c.st.thought.value.signal.None?
  }

  /** The record is of the thought reviewed at step m, with the finding made two steps later. */
  predicate RecordsThought(envs: seq<Env>, m: nat, tao: Tao)
    requires m + 2 < |envs|
  {
    var thought := At(envs, m).st.thought;
    thought.Some? &&
    tao == Tao(tao.stepNumber, thought.value.reasoning, thought.value.tool, thought.value.inputs, envs[m + 2].text)
  }

  lemma ActObserveKeep(c: Config, env: Env)
    ensures c.node.Act? ==> Step(c, env).node.Observe? && Step(c, env).st.thought == c.st.thought
    ensures !c.node.Observe? ==> Step(c, env).st.history == c.st.history
    ensures c.node.Observe? && c.st.thought.Some? ==>
              var t := c.st.thought.value;
              Step(c, env).st.history ==
              c.st.history + [Tao(|c.st.history| + 1, t.reasoning, t.tool, t.inputs, env.text)]
    ensures c.node.Observe? ==> Step(c, env).node.Think?
  {
  }

  /** An approval is acted on and observed in the next two steps. */
  lemma ApprovalActs(envs: seq<Env>, m: nat)
    requires m + 2 <= |envs| && ApprovedAt(envs, m)
    ensures At(envs, m + 1).node.Act? && At(envs, m + 2).node.Observe?
  {
    hide Step;
    ToolsRunOnlyApproved(envs, m);
    ActObserveKeep(At(envs, m + 1), envs[m + 1]);
  }

  /** What is observed was approved two steps before, and is still the thought in the state. */
  lemma ObservedWasApproved(envs: seq<Env>, n: nat)
    requires n <= |envs| && At(envs, n).node.Observe?
    ensures n >= 2 && ApprovedAt(envs, n - 2)
    ensures At(envs, n).st.thought == At(envs, n - 2).st.thought
    ensures At(envs, n).st.history == At(envs, n - 2).st.history
  {
    hide Step;
    assert n > 0;
    assert At(envs, n).node in Targets(At(envs, n - 1).node);
    assert At(envs, n - 1).node.Act?;
    assert n - 1 > 0;
    ToolsRunOnlyApproved(envs, n - 2);
    ActObserveKeep(At(envs, n - 2), envs[n - 2]);
    ActObserveKeep(At(envs, n - 1), envs[n - 1]);
  }

  /** The records of a run and the approvals that have been acted on match one to one, in order: the
      record i is of the thought approved at step ms[i], with what was observed then; no approval serves
      two records, and none is left without its record. */
  lemma {:induction false} EveryRecordApproved(envs: seq<Env>, n: nat) returns (ms: seq<nat>)
    requires n <= |envs|
    ensures |ms| == |At(envs, n).st.history|
    ensures forall i, j :: 0 <= i < j < |ms| ==> ms[i] < ms[j]
    ensures forall i :: 0 <= i < |ms| ==>
              ms[i] + 3 <= n && ApprovedAt(envs, ms[i]) && RecordsThought(envs, ms[i], At(envs, n).st.history[i])
    ensures forall m :: 0 <= m <= n - 3 && ApprovedAt(envs, m) ==> m in ms
  {
    hide Step, ApprovedAt, RecordsThought;
    ms := [];
    if n > 0 {
      var b := At(envs, n - 1);
      ActObserveKeep(b, envs[n - 1]);
      if b.node.Observe? {
        ObservedWasApproved(envs, n - 1);
        var before := EveryRecordApproved(envs, n - 3);
        ms := before + [n - 3];
        ObservedIsRecorded(envs, n);
        forall m | 0 <= m <= n - 3 && ApprovedAt(envs, m) ensures m in ms {
          ApprovalActs(envs, m);
          ApprovedIsReview(envs, n - 3);
          assert m == n - 3 || m in before;
        }
      } else {
        ms := EveryRecordApproved(envs, n - 1);
        forall m | 0 <= m <= n - 3 && ApprovedAt(envs, m) ensures m in ms {
          ApprovalActs(envs, m);
        }
      }
    }
  }

  lemma ApprovedIsReview(envs: seq<Env>, m: nat)
    requires m < |envs| && ApprovedAt(envs, m)
    ensures At(envs, m).node.HitlStepReview?
  {
  }

  lemma ObservedIsRecorded(envs: seq<Env>, n: nat)
    requires 3 <= n <= |envs| && At(envs, n - 1).node.Observe?
    ensures var before, now := At(envs, n - 3).st.history, At(envs, n).st.history;
            |now| == |before| + 1 && now[..|before|] == before && RecordsThought(envs, n - 3, now[|before|])
  {
    hide Step;
    ObservedWasApproved(envs, n - 1);
    ActObserveKeep(At(envs, n - 1), envs[n - 1]);
  }

  /** A rejected proposal ends the run exactly when no cached plan was found and no proposal was
      modified before; otherwise the run goes back to `think`. */
  lemma RejectedProposal(envs: seq<Env>, n: nat)
    requires n < |envs| && At(envs, n).node.ProposeFix? && Normal(envs[n].reply) in REJECTIONS
    ensures At(envs, n + 1).node ==
            if HitBefore(envs, n) || ModifiedBefore(envs, n) then Think else End
  {
    AlwaysInv(envs, n);
    ProposeFixByVerdict(At(envs, n).st, envs[n]);
  }

  lemma CacheHitOnlySetByLookup(c: Config, env: Env)
    requires Stage(c.node) >= 2 && c.st.cacheHit != Some(true)
    ensures Step(c, env).st.cacheHit != Some(true)
  {
  }

  lemma CacheHitStage(envs: seq<Env>, i: nat)
    requires i <= |envs| && At(envs, i).st.cacheHit == Some(true)
    ensures Stage(At(envs, i).node) >= 2
  {
    AlwaysInv(envs, i);
  }

  lemma {:induction false} CacheHitStaysOff(envs: seq<Env>, j: nat, k: nat)
    requires j <= k <= |envs|
    requires Stage(At(envs, j).node) >= 2 && At(envs, j).st.cacheHit != Some(true)
    ensures At(envs, k).st.cacheHit != Some(true)
    decreases k
  {
    hide Step;
    if j < k {
      CacheHitStaysOff(envs, j, k - 1);
      StageNeverFalls(envs, j, k - 1);
      CacheHitOnlySetByLookup(At(envs, k - 1), envs[k - 1]);
    }
  }

  /** The cache flag never comes back once it has left True. */
  lemma CacheHitNeverReturns(envs: seq<Env>, i: nat, j: nat, k: nat)
    requires i <= j <= k <= |envs|
    requires At(envs, i).st.cacheHit == Some(true) && At(envs, j).st.cacheHit != Some(true)
    ensures At(envs, k).st.cacheHit != Some(true)
  {
    CacheHitStage(envs, i);
    StageNeverFalls(envs, i, j);
    CacheHitStaysOff(envs, j, k);
  }

  /** `propose_fix` presents the stored plan instead of asking the model. */
  predicate ShowsCachedPlan(envs: seq<Env>, i: nat)
    requires i <= |envs|
  {
    var c := At(envs, i);
    c.node.ProposeFix? && c.st.cacheHit == Some(true) && !Truthy(c.st.feedback)
  }

  /** The cached plan is shown at most once in a run. */
  lemma CachedPlanShownOnce(envs: seq<Env>, i: nat, j: nat)
    requires i < j <= |envs| && ShowsCachedPlan(envs, i)
    ensures !ShowsCachedPlan(envs, j)
  {
    hide Step;
    if At(envs, i + 1).st.cacheHit == Some(true) {
      KeptHitReports(At(envs, i), envs[i]);
      StageNeverFalls(envs, i + 1, j);
    } else {
      CacheHitNeverReturns(envs, i, i + 1, j);
    }
  }

  /** While the flag is set, the proposal in the state is the one the lookup found. */
  ghost predicate ProposalFromLookup(envs: seq<Env>, n: nat)
    requires n <= |envs|
  {
    var st := At(envs, n).st;
    st.cacheHit == Some(true) ==>
      exists j :: 0 <= j < n && HitAt(envs, j) && st.cachedProposal == Some(envs[j].cached.value.proposal)
  }

  lemma ProposalKept(c: Config, env: Env)
    requires c.node.CheckPlanCache? ==> c.st.intent.Some?
    ensures Step(c, env).st.cacheHit == Some(true) ==>
              if c.st.cacheHit == Some(true) && !Hits(c, env) then Step(c, env).st.cachedProposal == c.st.cachedProposal
              else Hits(c, env) && Step(c, env).st.cachedProposal == Some(env.cached.value.proposal)
    ensures c.node.ProposeFix? ==> Step(c, env).st.plan == Some(FixText(c.st, env))
  {
  }

  lemma {:induction false} AlwaysFromLookup(envs: seq<Env>, n: nat)
    requires n <= |envs|
    ensures ProposalFromLookup(envs, n)
  {
    hide Step;
    if n > 0 {
      AlwaysFromLookup(envs, n - 1);
      AlwaysInv(envs, n - 1);
      ProposalKept(At(envs, n - 1), envs[n - 1]);
      if At(envs, n).st.cacheHit == Some(true) && HitAt(envs, n - 1) {
        assert At(envs, n).st.cachedProposal == Some(envs[n - 1].cached.value.proposal);
      }
    }
  }

  /** What is shown then is the plan that was found, or a note if it has no text, and it becomes the plan
      of the run. */
  lemma {:induction false} ShownPlanWasFound(envs: seq<Env>, i: nat)
    requires i < |envs| && ShowsCachedPlan(envs, i)
    ensures exists j :: 0 <= j < i && HitAt(envs, j)
              && At(envs, i + 1).st.plan ==
                 Some(if envs[j].cached.value.proposal != "" then envs[j].cached.value.proposal
                      else "(cached plan unavailable)")
  {
    hide Step;
    AlwaysFromLookup(envs, i);
    ProposalKept(At(envs, i), envs[i]);
  }

  lemma KeptHitReports(c: Config, env: Env)
    requires c.node.ProposeFix? && c.st.cacheHit == Some(true) && Step(c, env).st.cacheHit == Some(true)
    ensures Step(c, env).node.Report?
  {
    ProposeFixFeedback(c.st, env);
    ProposeFixByVerdict(c.st, env);
    Words(Normal(env.reply));
  }

  /** The remediation agent is called only straight after a report. */
  lemma {:induction false} RemediateAfterReport(envs: seq<Env>, n: nat)
    requires n < |envs|
    ensures At(envs, n + 1).node.ChainRemediate? <==> At(envs, n).node.Report?
  {
    hide Step;
    assert Step(At(envs, n), envs[n]).node in Targets(At(envs, n).node);
  }

  /** A report is written exactly after an approved proposal, or an approved thought that says the
      remediation is done. */
  lemma ReportExactlyWhen(envs: seq<Env>, n: nat)
    requires n < |envs|
    ensures At(envs, n + 1).node.Report? <==>
            || (At(envs, n).node.ProposeFix? && VerdictOf(envs[n].reply, FIX_APPROVALS) == Approve)
            || (At(envs, n).node.HitlStepReview? && ReviewOf(envs[n]) == Approve
                && At(envs, n).st.thought.Some? && At(envs, n).st.thought.value.signal == Some(RemediationDone))
  {
    hide Step;
    AlwaysInv(envs, n);
    var c := At(envs, n);
    assert Step(c, envs[n]).node in Targets(c.node);
    if c.node.HitlStepReview? {
      ReviewStep(c, envs[n]);
      ReviewTargets(c.st.thought.value.signal);
    } else if c.node.ProposeFix? {
      ProposeStep(c, envs[n]);
    }
  }

  lemma ProposeStep(c: Config, env: Env)
    requires c.node.ProposeFix?
    ensures Step(c, env).node.Report? <==> VerdictOf(env.reply, FIX_APPROVALS) == Approve
  {
    hide RouteProposeFix, DoProposeFix, VerdictOf;
    ProposeFixByVerdict(c.st, env);
  }

  lemma ReviewTargets(signal: Option<Signal>)
    ensures signal.None? || signal == Some(AnalysisDone) || signal == Some(RemediationDone)
  {
    if signal.Some? && signal.value.AnalysisDone? {
    } else if signal.Some? {
      assert signal.value.RemediationDone?;
    }
  }

  /** The thinking, tool and observation nodes never see the remediation phase. */
  lemma {:induction false} AnalysisPhaseInLoop(envs: seq<Env>, n: nat)
    requires n <= |envs| && At(envs, n).st.phase == Some(Remediation)
    ensures At(envs, n).node in {Report, ChainRemediate, End}
  {
    AlwaysInv(envs, n);
  }

  // ---- Clarification ----

  ghost function Extractions(envs: seq<Env>, n: nat): nat
    requires n <= |envs|
  {
    if n == 0 then 0 else Extractions(envs, n - 1) + if At(envs, n - 1).node.ExtractIntent? then 1 else 0
  }

  /** At step n, after so many extractions: where the intake is. */
  predicate Intake(c: Config, n: nat, extractions: nat) {
    var k := c.st.clarifications;
    && k <= 2
    && (c.node.ManageContext? ==> n == 0 && k == 0 && extractions == 0)
    && (c.node.ExtractIntent? ==> n == 1 + 2 * k && extractions == k)
    && (c.node.Clarify? ==> n == 2 + 2 * k && extractions == k + 1 && k < 2)
    && (Stage(c.node) >= 1 ==> extractions <= k + 1)
  }

  lemma IntakeStep(c: Config, env: Env, n: nat, extractions: nat)
    requires Stage(c.node) == 0 && Intake(c, n, extractions)
    ensures Intake(Step(c, env), n + 1, extractions + if c.node.ExtractIntent? then 1 else 0)
  {
  }

  lemma ClarificationsKept(c: Config, env: Env)
    requires !c.node.Clarify?
    ensures Step(c, env).st.clarifications == c.st.clarifications
  {
  }

  lemma {:induction false} IntakeProgress(envs: seq<Env>, n: nat)
    requires n <= |envs|
    ensures Intake(At(envs, n), n, Extractions(envs, n))
  {
    hide Step;
    if n > 0 {
      IntakeProgress(envs, n - 1);
      var c, env := At(envs, n - 1), envs[n - 1];
      if Stage(c.node) == 0 {
        IntakeStep(c, env, n - 1, Extractions(envs, n - 1));
      } else {
        StageClimbs(c.node, Step(c, env).node);
        ClarificationsKept(c, env);
      }
    }
  }

  /** The intake of every run ends within six steps, with at most three extractions. */
  lemma {:induction false} IntakeTerminates(envs: seq<Env>, n: nat)
    requires n <= |envs|
    ensures Extractions(envs, n) <= 3
    ensures n >= 6 ==> Stage(At(envs, n).node) >= 1
  {
    IntakeProgress(envs, n);
  }

  /** The plan cache is consulted only for a clear and confident intent whose action is registered
      for its domain (or the domain registers none), or after two clarifications. */
  lemma {:induction false} CacheConsultedFor(envs: seq<Env>, n: nat)
    requires n <= |envs| && At(envs, n).node.CheckPlanCache?
    ensures n > 0 && At(envs, n - 1).node.ExtractIntent?
    ensures var st := At(envs, n).st;
            && st.intent.Some?
            && (|| st.clarifications == 2
                || (&& !st.intent.value.ambiguous && st.intent.value.confidence >= 0.7
                    && (envs[n - 1].validIntents == [] || st.intent.value.action in envs[n - 1].validIntents)))
  {
    IntakeProgress(envs, n);
    assert CheckPlanCache in Targets(At(envs, n - 1).node);
  }
}
