/** The investigation graph: its state, its nodes, its routing and one step of a run.

    What the model, the user, the registry, the plan cache and the tools answer at a step is that
    step's `Env`, with arbitrary values. */
module AgentGraph {
  import opened Wrappers
  import opened Text

  datatype Intent = Intent(action: string, domain: string, confidence: real, ambiguous: bool, reason: string)

  datatype Signal = AnalysisDone | RemediationDone
  datatype Thought = Thought(reasoning: string, tool: Option<string>, inputs: string, signal: Option<Signal>)

  datatype Phase = Analysis | Remediation

  /** One act/observe round. */
  datatype Tao = Tao(stepNumber: nat, reasoning: string, tool: Option<string>, inputs: string, finding: string)

  datatype State = State(
    intent: Option<Intent>,
    clarifications: nat,
    cacheHit: Option<bool>,
    cachedProposal: Option<string>,
    feedback: Option<string>,
    response: Option<string>,
    phase: Option<Phase>,
    thought: Option<Thought>,
    history: seq<Tao>,
    findings: seq<string>,
    actResult: Option<string>,
    plan: Option<string>,
    report: Option<string>)

  const FRESH: State := State(None, 0, None, None, None, None, None, None, [], [], None, None, None)

  datatype CachedPlan = CachedPlan(proposal: string, finding: string)

  datatype Env = Env(
    intent: Intent,
    validIntents: seq<string>,
    score: (string, string) -> real,
    reply: string,
    autoApprove: bool,
    cached: Option<CachedPlan>,
    thought: Thought,
    toolResult: string,
    text: string)

  datatype Node =
    | ManageContext | ExtractIntent | Clarify | CheckPlanCache | Think | HitlStepReview | Act | Observe
    | AnalysisSummary | ProposeFix | Report | ChainRemediate | End

  // ---- Replies ----

  const REJECTIONS: set<string> := {"no", "n", "reject", "rejected", "cancel", "stop", "abort"}

  /** What `propose_fix` takes as approval. */
  const FIX_APPROVALS: set<string> := {"yes", "y", "approve", "approved", "ok", "okay", "proceed", "sure"}

  /** What the step review and the routes take as approval. */
  const APPROVALS: set<string> := FIX_APPROVALS + {"go", "go ahead"}

  function Normal(reply: string): string {
    Lower(Strip(reply))
  }

  predicate StartsWithModify(r: string) {
    "modify" <= r
  }

  /** The text after the word: the raw reply without its first six characters, stripped. */
  function AfterModify(reply: string): string {
    Strip(if |reply| <= 6 then "" else reply[6..])
  }

  predicate Truthy(s: Option<string>) {
    s.Some? && s.value != ""
  }

  function NormalResponse(st: State): string {
    if st.response.Some? then Normal(st.response.value) else ""
  }

  // ---- Intent ----

  /** Every candidate before some occurrence of r.0 scores less than r.1. */
  predicate EarliestOf(action: string, candidates: seq<string>, score: (string, string) -> real, r: (string, real)) {
    exists i :: 0 <= i < |candidates| && candidates[i] == r.0
                && forall j :: 0 <= j < i ==> score(Lower(action), Lower(candidates[j])) < r.1
  }

  lemma EarliestGrows(action: string, front: seq<string>, last: string,
                      score: (string, string) -> real, r: (string, real))
    requires forall c :: c in front ==> score(Lower(action), Lower(c)) <= r.1
    ensures EarliestOf(action, front, score, r) ==> EarliestOf(action, front + [last], score, r)
    ensures var s := score(Lower(action), Lower(last));
            s > r.1 ==> EarliestOf(action, front + [last], score, (last, s))
  {
    var all := front + [last];
    if i :| 0 <= i < |front| && front[i] == r.0
            && forall j :: 0 <= j < i ==> score(Lower(action), Lower(front[j])) < r.1 {
      assert all[i] == r.0;
    }
    assert all[|front|] == last;
  }

  /** The candidate with the highest positive score, the earliest of equals; the first one with
      score zero when no score is positive. */
  function Nearest(action: string, candidates: seq<string>, score: (string, string) -> real): (r: (string, real))
    requires candidates != []
    ensures r.0 in candidates && r.1 >= 0.0
    ensures forall c :: c in candidates ==> score(Lower(action), Lower(c)) <= r.1
    ensures r.1 == 0.0 ==> r.0 == candidates[0]
    ensures r.1 > 0.0 ==> score(Lower(action), Lower(r.0)) == r.1 && EarliestOf(action, candidates, score, r)
  {
    var last := candidates[|candidates| - 1];
    var s := score(Lower(action), Lower(last));
    if |candidates| == 1 then
      (last, if s > 0.0 then s else 0.0)
    else
      var front := candidates[..|candidates| - 1];
      assert candidates == front + [last];
      var r := Nearest(action, front, score);
      EarliestGrows(action, front, last, score, r);
      if s > r.1 then (last, s) else r
  }

  /** The running-maximum loop over the registered intents. */
  method CosineNearest(action: string, candidates: seq<string>, score: (string, string) -> real)
    returns (best: string, bestScore: real)
    requires candidates != []
    ensures (best, bestScore) == Nearest(action, candidates, score)
  {
    var a := Lower(action);
    best, bestScore := candidates[0], 0.0;
    for i := 0 to |candidates|
      invariant i > 0 ==> (best, bestScore) == Nearest(action, candidates[..i], score)
      invariant i == 0 ==> best == candidates[0] && bestScore == 0.0
    {
      assert candidates[..i + 1][..i] == candidates[..i];
      var s := score(a, Lower(candidates[i]));
      if s > bestScore {
        best, bestScore := candidates[i], s;
      }
    }
    assert candidates[..|candidates|] == candidates;
  }

  /** The model's intent with its action checked against the registered intents of the domain. An
      unregistered action becomes a registered one of highest score when some score is above 0.85,
      and otherwise makes the intent ambiguous. */
  function Validated(intent: Intent, valid: seq<string>, score: (string, string) -> real): (r: Intent)
    ensures !r.ambiguous ==> valid == [] || r.action in valid
    ensures r.domain == intent.domain && r.confidence == intent.confidence
    ensures valid == [] || intent.action in valid ==> r == intent
    ensures valid != [] && intent.action !in valid ==>
              if exists v :: v in valid && score(Lower(intent.action), Lower(v)) > 0.85 then
                && r.ambiguous == intent.ambiguous && r.reason == intent.reason
                && r.action in valid
                && forall v :: v in valid ==>
                     score(Lower(intent.action), Lower(v)) <= score(Lower(intent.action), Lower(r.action))
              else r.ambiguous && r.action == intent.action && r.reason != ""
                   && (intent.reason != "" ==> r.reason == intent.reason)
  {
    if valid == [] || intent.action in valid then intent
    else
      var (nearest, s) := Nearest(intent.action, valid, score);
      if s > 0.85 then intent.(action := nearest)
      else intent.(ambiguous := true,
                   reason := if intent.reason != "" then intent.reason else "not a valid intent")
  }

  // ---- Nodes ----

  function DoExtractIntent(st: State, env: Env): State {
    st.(intent := Some(Validated(env.intent, env.validIntents, env.score)))
  }

  function DoClarify(st: State): State {
    st.(clarifications := st.clarifications + 1)
  }

  function DoCheckPlanCache(st: State, env: Env): State {
    if st.intent.None? || env.cached.None? then st
    else st.(cacheHit := Some(true),
             cachedProposal := Some(env.cached.value.proposal),
             findings := st.findings + [env.cached.value.finding])
  }

  function DoThink(st: State, env: Env): State {
    st.(phase := Some(if st.phase.Some? then st.phase.value else Analysis),
        thought := Some(env.thought),
        feedback := None)
  }

  function DoStepReview(st: State, env: Env): State {
    var r := Normal(env.reply);
    if env.autoApprove then st.(response := Some("approve"), feedback := None)
    else if StartsWithModify(r) then st.(response := Some(env.reply), feedback := Some(AfterModify(env.reply)))
    else if r !in APPROVALS && r !in REJECTIONS then
      st.(response := Some(env.reply), feedback := Some(Strip(env.reply)))
    else st.(response := Some(env.reply), feedback := None)
  }

  function DoAct(st: State, env: Env): State {
    st.(actResult := Some(env.toolResult))
  }

  function DoObserve(st: State, env: Env): State {
    var tao := match st.thought
      case Some(t) => Tao(|st.history| + 1, t.reasoning, t.tool, t.inputs, env.text)
      case None => Tao(|st.history| + 1, "", Some("unknown"), "{}", env.text);
    st.(history := st.history + [tao],
        actResult := None,
        findings := if st.phase == Some(Analysis) then st.findings + [env.text] else st.findings)
  }

  function DoAnalysisSummary(st: State, env: Env): State {
    st.(response := Some(env.reply))
  }

  function FixText(st: State, env: Env): string {
    if st.cacheHit == Some(true) && !Truthy(st.feedback) then
      (if Truthy(st.cachedProposal) then st.cachedProposal.value else "(cached plan unavailable)")
    else env.text
  }

  function DoProposeFix(st: State, env: Env): State {
    var r := Normal(env.reply);
    var shown := st.(response := Some(env.reply), plan := Some(FixText(st, env)));
    if (r !in FIX_APPROVALS && r !in REJECTIONS) || StartsWithModify(r) then
      shown.(feedback := Some(if StartsWithModify(r) then AfterModify(env.reply) else Strip(env.reply)),
             cacheHit := Some(false), cachedProposal := None)
    else if r in FIX_APPROVALS then shown.(feedback := None, phase := Some(Remediation))
    else if st.cacheHit == Some(true) then
      shown.(feedback := None, cacheHit := Some(false), cachedProposal := None, phase := Some(Analysis))
    else shown.(feedback := None)
  }

  function DoReport(st: State, env: Env): State {
    st.(report := Some(env.text))
  }

  // ---- Routes ----

  function RouteIntent(st: State): (n: Node)
    ensures n in {Clarify, CheckPlanCache, End}
  {
    match st.intent
    case None => End
    case Some(i) =>
      if (i.ambiguous || i.confidence < 0.7) && st.clarifications < 2 then Clarify else CheckPlanCache
  }

  function RouteCache(st: State): (n: Node)
    ensures n in {Think, ProposeFix}
  {
    if st.cacheHit == Some(true) then ProposeFix else Think
  }

  function RouteStepReview(st: State): (n: Node)
    ensures n in {Act, Think, AnalysisSummary, Report, End}
  {
    var signal := if st.thought.Some? then st.thought.value.signal else None;
    if Truthy(st.feedback) then Think
    else if NormalResponse(st) in REJECTIONS then End
    else if signal == Some(AnalysisDone) then AnalysisSummary
    else if signal == Some(RemediationDone) then Report
    else Act
  }

  function RouteAnalysisSummary(st: State): (n: Node)
    ensures n in {ProposeFix, End}
  {
    if NormalResponse(st) in APPROVALS then ProposeFix else End
  }

  function RouteProposeFix(st: State): (n: Node)
    ensures n in {Report, Think, ProposeFix, End}
  {
    if Truthy(st.feedback) then ProposeFix
    else if NormalResponse(st) in REJECTIONS then (if st.cacheHit == Some(false) then Think else End)
    else Report
  }

  // ---- The graph ----

  /** The targets the builder registers for each node. */
  function Targets(n: Node): set<Node> {
    match n
    case ManageContext => {ExtractIntent}
    case ExtractIntent => {Clarify, CheckPlanCache, End}
    case Clarify => {ExtractIntent}
    case CheckPlanCache => {Think, ProposeFix}
    case Think => {HitlStepReview}
    case HitlStepReview => {Act, Think, AnalysisSummary, Report, End}
    case Act => {Observe}
    case Observe => {Think}
    case AnalysisSummary => {ProposeFix, End}
    case ProposeFix => {Report, Think, ProposeFix, End}
    case Report => {ChainRemediate}
    case ChainRemediate => {End}
    case End => {End}
  }

  /** A node about to run, and the state it sees. */
  datatype Config = Config(node: Node, st: State)

  /** Runs the node and follows its edge; every route stays among the registered targets. */
  function Step(c: Config, env: Env): (next: Config)
    ensures next.node in Targets(c.node)
  {
    match c.node
    case ManageContext => Config(ExtractIntent, c.st)
    case ExtractIntent => var st := DoExtractIntent(c.st, env); Config(RouteIntent(st), st)
    case Clarify => Config(ExtractIntent, DoClarify(c.st))
    case CheckPlanCache => var st := DoCheckPlanCache(c.st, env); Config(RouteCache(st), st)
    case Think => Config(HitlStepReview, DoThink(c.st, env))
    case HitlStepReview => var st := DoStepReview(c.st, env); Config(RouteStepReview(st), st)
    case Act => Config(Observe, DoAct(c.st, env))
    case Observe => Config(Think, DoObserve(c.st, env))
    case AnalysisSummary => var st := DoAnalysisSummary(c.st, env); Config(RouteAnalysisSummary(st), st)
    case ProposeFix => var st := DoProposeFix(c.st, env); Config(RouteProposeFix(st), st)
    case Report => Config(ChainRemediate, DoReport(c.st, env))
    case ChainRemediate => Config(End, c.st)
    case End => c
  }

  /** The run of a fresh thread after n steps. */
  function At(envs: seq<Env>, n: nat): Config
    requires n <= |envs|
  {
    if n == 0 then Config(ManageContext, FRESH) else Step(At(envs, n - 1), envs[n - 1])
  }
}
