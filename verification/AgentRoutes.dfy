/** Where every run goes next, and what it carries along, told from the replies and answers alone. */
module AgentRoutes {
  import opened Wrappers
  import opened Text
  import opened AgentGraph
  import opened AgentRuns

  // ---- The words of the replies ----

  /** The words that reject, and those that approve a step review or a summary; the last two of these
      do not approve a proposal. */
  lemma ReplyWords(r: string)
    ensures r in REJECTIONS <==>
            r == "no" || r == "n" || r == "reject" || r == "rejected" || r == "cancel" || r == "stop" || r == "abort"
    ensures r in FIX_APPROVALS <==>
            r == "yes" || r == "y" || r == "approve" || r == "approved" || r == "ok" || r == "okay" || r == "proceed"
            || r == "sure"
    ensures r in APPROVALS <==> r in FIX_APPROVALS || r == "go" || r == "go ahead"
  {
  }

  // ---- Which node is entered ----

  /** Questions asked by `clarify` so far. */
  ghost function Questions(envs: seq<Env>, n: nat): nat
    requires n <= |envs|
  {
    if n == 0 then 0 else Questions(envs, n - 1) + if At(envs, n - 1).node.Clarify? then 1 else 0
  }

  lemma ClarificationsNext(c: Config, env: Env)
    ensures Step(c, env).st.clarifications == c.st.clarifications + if c.node.Clarify? then 1 else 0
  {
  }

  lemma {:induction false} ClarificationsAre(envs: seq<Env>, n: nat)
    requires n <= |envs|
    ensures At(envs, n).st.clarifications == Questions(envs, n)
  {
    hide Step;
    if n > 0 {
      ClarificationsAre(envs, n - 1);
      ClarificationsNext(At(envs, n - 1), envs[n - 1]);
    }
  }

  predicate Unclear(intent: Option<Intent>) {
    intent.Some? && (intent.value.ambiguous || intent.value.confidence < 0.7)
  }

  lemma IntentNext(c: Config, env: Env)
    requires c.node.ExtractIntent?
    ensures Step(c, env).st.intent.Some?
    ensures Step(c, env).node ==
            if Unclear(Step(c, env).st.intent) && c.st.clarifications < 2 then Clarify else CheckPlanCache
  {
  }

  lemma CacheNext(c: Config, env: Env)
    requires c.node.CheckPlanCache? && c.st.intent.Some? && c.st.cacheHit.None?
    ensures Step(c, env).node == if env.cached.Some? then ProposeFix else Think
  {
  }

  lemma SummaryNext(c: Config, env: Env)
    requires c.node.AnalysisSummary?
    ensures Step(c, env).node == if Normal(env.reply) in APPROVALS then ProposeFix else End
  {
  }

  /** The intake: a user is asked again exactly while the intent is unclear and fewer than two questions
      were asked, and the plan cache is consulted exactly otherwise. */
  lemma {:induction false} IntakeExactly(envs: seq<Env>, n: nat)
    requires n < |envs|
    ensures At(envs, n + 1).node.ExtractIntent? <==> At(envs, n).node.ManageContext? || At(envs, n).node.Clarify?
    ensures At(envs, n + 1).node.Clarify? <==>
            At(envs, n).node.ExtractIntent? && Unclear(At(envs, n + 1).st.intent) && Questions(envs, n) < 2
    ensures At(envs, n + 1).node.CheckPlanCache? <==>
            At(envs, n).node.ExtractIntent? && !(Unclear(At(envs, n + 1).st.intent) && Questions(envs, n) < 2)
  {
    hide Step;
    var c := At(envs, n);
    ClarificationsAre(envs, n);
    assert Step(c, envs[n]).node in Targets(c.node);
    if c.node.ExtractIntent? {
      IntentNext(c, envs[n]);
    }
  }

  /** A fix is proposed exactly after a cache hit, a summary answered by an approval word, or a proposal
      the user wants revised. */
  lemma {:induction false} ProposalExactly(envs: seq<Env>, n: nat)
    requires n < |envs|
    ensures At(envs, n + 1).node.ProposeFix? <==>
            || (At(envs, n).node.CheckPlanCache? && envs[n].cached.Some?)
            || (At(envs, n).node.AnalysisSummary? && Normal(envs[n].reply) in APPROVALS)
            || (At(envs, n).node.ProposeFix? && VerdictOf(envs[n].reply, FIX_APPROVALS) == Revise)
  {
    hide Step;
    NextByCase(envs, n);
    assert Step(At(envs, n), envs[n]).node in Targets(At(envs, n).node);
  }

  /** The next step is thought about exactly after a cache miss, an observation, a step review that asks
      for a revision, or the rejection of a proposal in a run with a cache hit or a modification. */
  lemma {:induction false} ThinkExactly(envs: seq<Env>, n: nat)
    requires n < |envs|
    ensures At(envs, n + 1).node.Think? <==>
            || (At(envs, n).node.CheckPlanCache? && envs[n].cached.None?)
            || At(envs, n).node.Observe?
            || (At(envs, n).node.HitlStepReview? && ReviewOf(envs[n]) == Revise)
            || (At(envs, n).node.ProposeFix? && Normal(envs[n].reply) in REJECTIONS
                && (HitBefore(envs, n) || ModifiedBefore(envs, n)))
    ensures At(envs, n + 1).node.HitlStepReview? <==> At(envs, n).node.Think?
    ensures At(envs, n + 1).node.Observe? <==> At(envs, n).node.Act?
  {
    hide Step;
    NextByCase(envs, n);
    assert Step(At(envs, n), envs[n]).node in Targets(At(envs, n).node);
  }

  /** A run ends exactly after the remediation agent, a rejected step review, a summary not answered by
      an approval word, or the rejection of a proposal that was neither cached nor modified. */
  lemma {:induction false} EndExactly(envs: seq<Env>, n: nat)
    requires n < |envs|
    ensures At(envs, n + 1).node.End? <==>
            || At(envs, n).node.End? || At(envs, n).node.ChainRemediate?
            || (At(envs, n).node.HitlStepReview? && ReviewOf(envs[n]) == Reject)
            || (At(envs, n).node.AnalysisSummary? && Normal(envs[n].reply) !in APPROVALS)
            || (At(envs, n).node.ProposeFix? && Normal(envs[n].reply) in REJECTIONS
                && !HitBefore(envs, n) && !ModifiedBefore(envs, n))
    ensures At(envs, n + 1).node.AnalysisSummary? <==>
            && At(envs, n).node.HitlStepReview? && ReviewOf(envs[n]) == Approve
            && At(envs, n).st.thought.Some? && At(envs, n).st.thought.value.signal == Some(AnalysisDone)
  {
    hide Step;
    NextByCase(envs, n);
    assert Step(At(envs, n), envs[n]).node in Targets(At(envs, n).node);
  }

  /** The node after each node with a choice, by the reply. */
  lemma {:induction false} NextByCase(envs: seq<Env>, n: nat)
    requires n < |envs|
    ensures var c, next := At(envs, n), At(envs, n + 1).node;
            && (c.node.ExtractIntent? ==> next.Clarify? || next.CheckPlanCache?)
            && (c.node.CheckPlanCache? ==> next == if envs[n].cached.Some? then ProposeFix else Think)
            && (c.node.AnalysisSummary? ==> next == if Normal(envs[n].reply) in APPROVALS then ProposeFix else End)
            && (c.node.HitlStepReview? ==>
                  && c.st.thought.Some?
                  && next == match ReviewOf(envs[n])
                             case Reject => End
                             case Revise => Think
                             case Approve => if c.st.thought.value.signal == Some(AnalysisDone) then AnalysisSummary
                                             else if c.st.thought.value.signal == Some(RemediationDone) then Report
                                             else Act)
            && (c.node.ProposeFix? ==>
                  next == match VerdictOf(envs[n].reply, FIX_APPROVALS)
                          case Approve => Report
                          case Revise => ProposeFix
                          case Reject => if HitBefore(envs, n) || ModifiedBefore(envs, n) then Think else End)
    ensures VerdictOf(envs[n].reply, FIX_APPROVALS) == Reject <==> Normal(envs[n].reply) in REJECTIONS
  {
    hide Step, Targets;
    AlwaysInv(envs, n);
    var c, env := At(envs, n), envs[n];
    match c.node
    case ExtractIntent => IntentNext(c, env);
    case CheckPlanCache => CacheMissedBefore(envs, n); CacheNext(c, env);
    case AnalysisSummary => SummaryNext(c, env);
    case HitlStepReview => ReviewStep(c, env);
    case ProposeFix => ProposeNext(c, env);
    case _ =>
  }

  lemma CacheMissedBefore(envs: seq<Env>, n: nat)
    requires n <= |envs| && At(envs, n).node.CheckPlanCache?
    ensures At(envs, n).st.intent.Some? && At(envs, n).st.cacheHit.None?
  {
    AlwaysInv(envs, n);
  }

  lemma ProposeNext(c: Config, env: Env)
    requires c.node.ProposeFix?
    ensures Step(c, env).node ==
            match VerdictOf(env.reply, FIX_APPROVALS)
            case Approve => Report
            case Revise => ProposeFix
            case Reject => if c.st.cacheHit.Some? then Think else End
  {
    hide RouteProposeFix, DoProposeFix, VerdictOf;
    ProposeFixByVerdict(c.st, env);
  }

  // ---- What is carried along ----

  /** The text of a reply that asks for a revision. */
  function RevisionText(reply: string): string {
    if StartsWithModify(Normal(reply)) then AfterModify(reply) else Strip(reply)
  }

  /** No feedback is left over once a thought was approved. */
  ghost predicate FeedbackSpent(c: Config) {
    && (c.node in {HitlStepReview, Act, Observe, AnalysisSummary} ==> !Truthy(c.st.feedback))
    && (Stage(c.node) <= 1 ==> c.st.feedback.None?)
  }

  /** What the nodes do to the feedback. */
  lemma FeedbackNext(c: Config, env: Env)
    ensures c.node.Think? ==> Step(c, env).st.feedback.None?
    ensures !(c.node.Think? || c.node.HitlStepReview? || c.node.ProposeFix?) ==>
              Step(c, env).st.feedback == c.st.feedback
    ensures c.node.HitlStepReview? && ReviewOf(env) == Revise ==>
              Step(c, env).st.feedback == Some(RevisionText(env.reply))
    ensures c.node.ProposeFix? && VerdictOf(env.reply, FIX_APPROVALS) == Revise ==>
              Step(c, env).st.feedback == Some(RevisionText(env.reply))
    ensures c.node.ProposeFix? && VerdictOf(env.reply, FIX_APPROVALS) == Reject ==> Step(c, env).st.feedback.None?
  {
    Words(Normal(env.reply));
  }

  lemma SpentNext(c: Config, env: Env)
    requires FeedbackSpent(c) && (c.node.HitlStepReview? ==> c.st.thought.Some?)
    ensures FeedbackSpent(Step(c, env))
  {
    FeedbackNext(c, env);
    if c.node.HitlStepReview? {
      ReviewStep(c, env);
    }
    hide Step;
    assert Step(c, env).node in Targets(c.node);
    StageClimbs(c.node, Step(c, env).node);
  }

  lemma ReviewHasThought(envs: seq<Env>, n: nat)
    requires n <= |envs| && At(envs, n).node.HitlStepReview?
    ensures At(envs, n).st.thought.Some?
  {
    AlwaysInv(envs, n);
  }

  lemma {:induction false} AlwaysSpent(envs: seq<Env>, n: nat)
    requires n <= |envs|
    ensures FeedbackSpent(At(envs, n))
  {
    hide Step, FeedbackSpent;
    if n == 0 {
      StartSpent();
    } else {
      AlwaysSpent(envs, n - 1);
      if At(envs, n - 1).node.HitlStepReview? {
        ReviewHasThought(envs, n - 1);
      }
      SpentNext(At(envs, n - 1), envs[n - 1]);
    }
  }

  lemma StartSpent()
    ensures FeedbackSpent(Config(ManageContext, FRESH))
  {
  }

  /** `think` is given feedback exactly when it comes from a step review that asks for a revision, and then
      the text of that reply; it starts each thought of its own, and uses the feedback up. */
  lemma {:induction false} FeedbackForThink(envs: seq<Env>, n: nat)
    requires n < |envs|
    ensures At(envs, n + 1).node.Think? && At(envs, n).node.HitlStepReview? ==>
              At(envs, n + 1).st.feedback == Some(RevisionText(envs[n].reply))
    ensures At(envs, n + 1).node.Think? && !At(envs, n).node.HitlStepReview? ==> !Truthy(At(envs, n + 1).st.feedback)
    ensures At(envs, n).node.Think? ==>
              At(envs, n + 1).st.thought == Some(envs[n].thought) && At(envs, n + 1).st.feedback.None?
  {
    hide Step;
    var c := At(envs, n);
    AlwaysSpent(envs, n);
    FeedbackNext(c, envs[n]);
    NextByCase(envs, n);
    ThinkExactly(envs, n);
    ThoughtNext(c, envs[n]);
  }

  lemma ThoughtNext(c: Config, env: Env)
    ensures Step(c, env).st.thought == if c.node.Think? then Some(env.thought) else c.st.thought
  {
  }

  /** The next proposal is given feedback exactly when the user asked for a revision of one. */
  lemma {:induction false} FeedbackForProposal(envs: seq<Env>, n: nat)
    requires n < |envs| && At(envs, n + 1).node.ProposeFix?
    ensures At(envs, n).node.ProposeFix? ==> At(envs, n + 1).st.feedback == Some(RevisionText(envs[n].reply))
    ensures !At(envs, n).node.ProposeFix? ==> !Truthy(At(envs, n + 1).st.feedback)
  {
    hide Step;
    AlwaysSpent(envs, n);
    FeedbackNext(At(envs, n), envs[n]);
    NextByCase(envs, n);
    ProposalExactly(envs, n);
  }

  lemma PlanNext(c: Config, env: Env)
    ensures c.node.ProposeFix? && !(c.st.cacheHit == Some(true) && !Truthy(c.st.feedback)) ==>
              Step(c, env).st.plan == Some(env.text)
    ensures !c.node.ProposeFix? ==> Step(c, env).st.plan == c.st.plan
    ensures Step(c, env).st.report == if c.node.Report? then Some(env.text) else c.st.report
  {
  }

  /** The plan of a run is the one shown last: the model's own, except where the cached one is shown. The
      report is the model's. */
  lemma PlanIsShown(envs: seq<Env>, n: nat)
    requires n < |envs|
    ensures At(envs, n).node.ProposeFix? && !ShowsCachedPlan(envs, n) ==> At(envs, n + 1).st.plan == Some(envs[n].text)
    ensures !At(envs, n).node.ProposeFix? ==> At(envs, n + 1).st.plan == At(envs, n).st.plan
    ensures At(envs, n + 1).st.report == if At(envs, n).node.Report? then Some(envs[n].text) else At(envs, n).st.report
  {
    hide Step;
    PlanNext(At(envs, n), envs[n]);
  }

  lemma PhaseNext(c: Config, env: Env)
    requires c.node.ProposeFix? || c.node.HitlStepReview?
    ensures c.node.HitlStepReview? ==> Step(c, env).st.phase == c.st.phase
    ensures c.node.ProposeFix? && Normal(env.reply) in FIX_APPROVALS ==> Step(c, env).st.phase == Some(Remediation)
    ensures c.node.ProposeFix? && Normal(env.reply) !in FIX_APPROVALS ==>
              Step(c, env).st.phase == c.st.phase || Step(c, env).st.phase == Some(Analysis)
  {
    Words(Normal(env.reply));
  }

  /** What a step does to the phase: `think` sets it where it is missing and keeps it otherwise, and the
      rejection of a cached plan goes back to the analysis and drops the plan. */
  lemma PhaseKept(c: Config, env: Env)
    ensures c.node.Think? ==> Step(c, env).st.phase == if c.st.phase.Some? then c.st.phase else Some(Analysis)
    ensures c.node.ProposeFix? && c.st.cacheHit == Some(true) && Normal(env.reply) in REJECTIONS ==>
              && Step(c, env).st.phase == Some(Analysis)
              && Step(c, env).st.cacheHit == Some(false) && Step(c, env).st.cachedProposal.None?
    ensures c.node.ProposeFix? && c.st.cacheHit != Some(true) && Normal(env.reply) in REJECTIONS ==>
              && Step(c, env).st.phase == c.st.phase && Step(c, env).st.cacheHit == c.st.cacheHit
    ensures !c.node.Think? && !c.node.ProposeFix? ==> Step(c, env).st.phase == c.st.phase
  {
    Words(Normal(env.reply));
  }

  lemma NotYetRemediation(envs: seq<Env>, n: nat)
    requires n <= |envs| && Stage(At(envs, n).node) <= 2
    ensures At(envs, n).st.phase != Some(Remediation)
  {
    AlwaysInv(envs, n);
  }

  /** A report is of the remediation phase exactly when it follows a proposal approved by a word of the
      list: a blank reply and the bare word "modify" go on to the report without it. */
  lemma {:induction false} ReportPhase(envs: seq<Env>, n: nat)
    requires n < |envs| && At(envs, n + 1).node.Report?
    ensures At(envs, n + 1).st.phase == Some(Remediation) <==>
            At(envs, n).node.ProposeFix? && Normal(envs[n].reply) in FIX_APPROVALS
  {
    hide Step;
    ReportExactlyWhen(envs, n);
    NotYetRemediation(envs, n);
    PhaseNext(At(envs, n), envs[n]);
  }

  // ---- Intent, replies and tool results ----

  lemma AnswersNext(c: Config, env: Env)
    ensures c.node.ExtractIntent? ==>
              Step(c, env).st.intent == Some(Validated(env.intent, env.validIntents, env.score))
    ensures !c.node.ExtractIntent? ==> Step(c, env).st.intent == c.st.intent
    ensures c.node.AnalysisSummary? || c.node.ProposeFix? || (c.node.HitlStepReview? && !env.autoApprove) ==>
              Step(c, env).st.response == Some(env.reply)
    ensures c.node.Act? ==> Step(c, env).st.actResult == Some(env.toolResult)
    ensures c.node.Observe? ==> Step(c, env).st.actResult.None?
  {
  }

  /** What the nodes do where a value is missing: without an intent no plan is looked up, without a thought
      a record is made of an unknown tool, and only the analysis phase collects findings. */
  lemma MissingValues(c: Config, env: Env)
    ensures c.node.CheckPlanCache? && c.st.intent.None? ==> Step(c, env).st == c.st
    ensures c.node.Observe? && c.st.thought.None? ==>
              Step(c, env).st.history ==
              c.st.history + [Tao(|c.st.history| + 1, "", Some("unknown"), "{}", env.text)]
    ensures c.node.Observe? && c.st.phase != Some(Analysis) ==> Step(c, env).st.findings == c.st.findings
    ensures c.node.ExtractIntent? && c.st.intent.None? ==> Step(c, env).st.intent.Some?
  {
  }

  /** The intent is the model's, with the action corrected at most; the reply and the tool's result are
      kept as they came, and the result is there for `observe` and for no later node. */
  lemma AnswersAreKept(envs: seq<Env>, n: nat)
    requires n < |envs|
    ensures At(envs, n).node.ExtractIntent? ==>
              var given, kept := envs[n].intent, At(envs, n + 1).st.intent;
              && kept.Some? && kept.value.domain == given.domain && kept.value.confidence == given.confidence
              && (envs[n].validIntents == [] || given.action in envs[n].validIntents ==> kept.value == given)
    ensures At(envs, n).node.AnalysisSummary? || At(envs, n).node.ProposeFix? ==>
              At(envs, n + 1).st.response == Some(envs[n].reply)
    ensures At(envs, n + 1).node.Observe? ==> At(envs, n + 1).st.actResult == Some(envs[n].toolResult)
    ensures At(envs, n).node.Observe? ==> At(envs, n + 1).st.actResult.None?
  {
    hide Step;
    AnswersNext(At(envs, n), envs[n]);
    ThinkExactly(envs, n);
  }

  // ---- The findings ----

  /** The finding a cached plan brought. */
  ghost function CacheFindings(envs: seq<Env>, n: nat): seq<string>
    requires n <= |envs|
  {
    if n == 0 then []
    else CacheFindings(envs, n - 1)
         + if At(envs, n - 1).node.CheckPlanCache? && envs[n - 1].cached.Some?
           then [envs[n - 1].cached.value.finding] else []
  }

  function FindingsOf(history: seq<Tao>): seq<string> {
    seq(|history|, i requires 0 <= i < |history| => history[i].finding)
  }

  lemma FindingsNext(c: Config, env: Env)
    requires c.node.CheckPlanCache? ==> c.st.intent.Some? && c.st.history == []
    requires c.node.Observe? ==> c.st.phase == Some(Analysis)
    ensures Step(c, env).st.findings ==
            if c.node.CheckPlanCache? && env.cached.Some? then c.st.findings + [env.cached.value.finding]
            else if c.node.Observe? then c.st.findings + [env.text] else c.st.findings
    ensures FindingsOf(Step(c, env).st.history) ==
            if c.node.Observe? then FindingsOf(c.st.history) + [env.text] else FindingsOf(c.st.history)
  {
  }

  /** The findings of a run are that of the cached plan, if there was one, and then those of its records
      in their order. */
  lemma {:induction false} FindingsAre(envs: seq<Env>, n: nat)
    requires n <= |envs|
    ensures At(envs, n).st.findings == CacheFindings(envs, n) + FindingsOf(At(envs, n).st.history)
  {
    hide Step, FindingsOf;
    if n == 0 {
      NoFindings();
    } else {
      FindingsAre(envs, n - 1);
      AtCacheLookup(envs, n - 1);
      FindingsNext(At(envs, n - 1), envs[n - 1]);
      if At(envs, n - 1).node.CheckPlanCache? {
        NoFindings();
      }
    }
  }

  lemma NoFindings()
    ensures FindingsOf([]) == []
  {
  }

  lemma AtCacheLookup(envs: seq<Env>, n: nat)
    requires n <= |envs|
    ensures At(envs, n).node.CheckPlanCache? ==> At(envs, n).st.intent.Some? && At(envs, n).st.history == []
    ensures At(envs, n).node.Observe? ==> At(envs, n).st.phase == Some(Analysis)
  {
    AlwaysInv(envs, n);
  }
}
