/** The plans that `report` stores, and what mining can find in them. */
module SavedPlans {
  import opened Wrappers
  import opened Text
  import G = AgentGraph
  import R = AgentRuns
  import opened PlanGraph
  import opened PatternMining

  function IdOf(t: G.Tao): StepId {
    "s" + Decimal(t.stepNumber)
  }

  /** The step history as stored plan steps: no dependencies are recorded. */
  function PlanSteps(history: seq<G.Tao>): Plan {
    seq(|history|, i requires 0 <= i < |history| => PlanStep(IdOf(history[i]), history[i].tool, []))
  }

  /** The findings by step id. */
  function ToolResults(history: seq<G.Tao>): map<StepId, string> {
    if history == [] then map[]
    else
      var last := history[|history| - 1];
      ToolResults(history[..|history| - 1])[IdOf(last) := last.finding]
  }

  /** The plan some run of a fresh thread has stored on entering `report`. */
  ghost predicate Saved(plan: Plan) {
    exists envs: seq<G.Env>, n: nat :: SavedBy(plan, envs, n)
  }

  ghost predicate SavedBy(plan: Plan, envs: seq<G.Env>, n: nat) {
    n <= |envs| && G.At(envs, n).node.Report? && plan == PlanSteps(G.At(envs, n).st.history)
  }

  predicate NoDependencies(plan: Plan) {
    forall i :: 0 <= i < |plan| ==> plan[i].dependencies == []
  }

  lemma NumberedIds(history: seq<G.Tao>)
    requires R.Numbered(history)
    ensures forall i, j :: 0 <= i < j < |history| ==> IdOf(history[i]) != IdOf(history[j])
  {
    forall i, j | 0 <= i < j < |history| ensures IdOf(history[i]) != IdOf(history[j]) {
      if IdOf(history[i]) == IdOf(history[j]) {
        assert IdOf(history[i])[1..] == Decimal(i + 1) && IdOf(history[j])[1..] == Decimal(j + 1);
        DecimalInjective(i + 1, j + 1);
      }
    }
  }

  lemma {:induction false} ToolResultsKeys(history: seq<G.Tao>)
    requires R.Numbered(history)
    ensures forall id :: id in ToolResults(history) ==> exists i :: 0 <= i < |history| && id == IdOf(history[i])
    ensures |ToolResults(history)| == |history|
  {
    if history != [] {
      var front := history[..|history| - 1];
      ToolResultsKeys(front);
      NumberedIds(history);
      var last := IdOf(history[|history| - 1]);
      forall i | 0 <= i < |front| ensures IdOf(front[i]) != last {
        assert front[i] == history[i];
      }
      forall id | id in ToolResults(history) ensures exists i :: 0 <= i < |history| && id == IdOf(history[i]) {
        if id != last {
          var i :| 0 <= i < |front| && id == IdOf(front[i]);
          assert front[i] == history[i];
        }
      }
    }
  }

  /** Stored plans have unique step ids, one result per step and no dependencies. */
  lemma {:induction false} SavedPlanShape(envs: seq<G.Env>, n: nat)
    requires n <= |envs|
    ensures var history := G.At(envs, n).st.history;
            && UniqueIds(PlanSteps(history)) && NoDependencies(PlanSteps(history))
            && |ToolResults(history)| == |PlanSteps(history)| == R.Observations(envs, n)
  {
    R.HistoryNumbered(envs, n);
    var history := G.At(envs, n).st.history;
    NumberedIds(history);
    ToolResultsKeys(history);
  }

  lemma {:induction false} ToolResultAt(history: seq<G.Tao>, i: nat)
    requires R.Numbered(history) && i < |history|
    ensures IdOf(history[i]) in ToolResults(history) && ToolResults(history)[IdOf(history[i])] == history[i].finding
  {
    var front := history[..|history| - 1];
    if i < |front| {
      ToolResultAt(front, i);
      NumberedIds(history);
      assert IdOf(history[i]) != IdOf(history[|history| - 1]);
    }
  }

  /** Step i of a stored plan has the id of its number and the tool of the i-th thought that was approved,
      and what is stored for it is what was found then. */
  lemma {:induction false} SavedPlanContents(envs: seq<G.Env>, n: nat, ms: seq<nat>)
    requires n <= |envs| && |ms| == |G.At(envs, n).st.history|
    requires forall i :: 0 <= i < |ms| ==>
               ms[i] + 3 <= n && R.RecordsThought(envs, ms[i], G.At(envs, n).st.history[i])
    ensures var plan, results := PlanSteps(G.At(envs, n).st.history), ToolResults(G.At(envs, n).st.history);
            && |plan| == |ms|
            && forall i :: 0 <= i < |ms| ==>
                 && plan[i].id == "s" + Decimal(i + 1)
                 && G.At(envs, ms[i]).st.thought.Some? && plan[i].tool == G.At(envs, ms[i]).st.thought.value.tool
                 && plan[i].id in results && results[plan[i].id] == envs[ms[i] + 2].text
  {
    hide G.At;
    R.HistoryNumbered(envs, n);
    var history := G.At(envs, n).st.history;
    forall i | 0 <= i < |ms|
      ensures IdOf(history[i]) in ToolResults(history)
              && ToolResults(history)[IdOf(history[i])] == history[i].finding == envs[ms[i] + 2].text
    {
      ToolResultAt(history, i);
    }
  }

  // ---- Mining stored plans ----

  function ToolsUsed(plan: Plan): set<Tool> {
    set s | s in plan :: s.tool
  }

  lemma UniqueTools(plan: Plan)
    requires UniqueIds(plan)
    ensures ToolsOf(GraphOf(plan), GraphOf(plan).tools.Keys) == ToolsUsed(plan)
  {
    UniqueToolMap(plan);
    var g := GraphOf(plan);
    forall t | t in ToolsUsed(plan) ensures t in ToolsOf(g, g.tools.Keys) {
      var i :| 0 <= i < |plan| && plan[i].tool == t;
      assert plan[i].id in g.tools && g.tools[plan[i].id] == t;
    }
    forall t | t in ToolsOf(g, g.tools.Keys) ensures t in ToolsUsed(plan) {
      var id :| id in g.tools && g.tools[id] == t;
      var i :| 0 <= i < |plan| && plan[i].id == id;
      assert plan[i] in plan;
    }
  }

  lemma FlatGraph(plan: Plan)
    requires NoDependencies(plan)
    ensures GraphOf(plan).edges == {}
    ensures forall u, v :: !Reach(GraphOf(plan), u, v)
  {
    var g := GraphOf(plan);
    forall u, v, p ensures !PathBetween(g, p, u, v) {
      if 2 <= |p| {
        assert (p[0], p[0 + 1]) !in g.edges;
      }
    }
  }

  /** All steps of a plan without dependencies are one generation. */
  lemma FlatRounds(plan: Plan)
    requires UniqueIds(plan) && NoDependencies(plan)
    ensures Rounds(plan) == if plan == [] then [] else [ToolsUsed(plan)]
  {
    FlatGraph(plan);
    var g := GraphOf(plan);
    var all := g.tools.Keys;
    assert Ready(g, all) == all;
    assert Ready(g, {}) == {};
    if plan == [] {
      assert all == {};
    } else {
      assert plan[0] in plan && plan[0].id in all;
      assert all - all == {} && Peel(g, {}) == [];
      assert Peel(g, all) == [all] + Peel(g, all - all);
      UniqueTools(plan);
      assert RoundsFrom(g, [all]) == [ToolsOf(g, all)];
    }
  }

  ghost function PlansUsing(plans: seq<Plan>, pair: set<Tool>): nat {
    if plans == [] then 0
    else PlansUsing(plans[..|plans| - 1], pair)
         + if |pair| == 2 && pair <= ToolsUsed(plans[|plans| - 1]) then 1 else 0
  }

  ghost predicate AllFlat(plans: seq<Plan>) {
    forall i :: 0 <= i < |plans| ==> UniqueIds(plans[i]) && NoDependencies(plans[i])
  }

  lemma FlatPlan(plan: Plan, k: Pair, pair: set<Tool>)
    requires UniqueIds(plan) && NoDependencies(plan)
    ensures OrderIn(plan, k) == 0
    ensures RoundsWith(Rounds(plan), pair) == if |pair| == 2 && pair <= ToolsUsed(plan) then 1 else 0
  {
    FlatGraph(plan);
    assert OrderPairs(GraphOf(plan), k) == {};
    FlatRounds(plan);
    if plan == [] {
      assert ToolsUsed(plan) == {};
    }
  }

  lemma {:induction false} FlatCounts(plans: seq<Plan>, k: Pair, pair: set<Tool>)
    requires AllFlat(plans)
    ensures OrderCount(plans, k) == 0
    ensures ParallelCount(plans, pair) == PlansUsing(plans, pair) <= |plans|
  {
    hide Rounds, OrderIn;
    if plans != [] {
      FlatCounts(plans[..|plans| - 1], k, pair);
      FlatPlan(plans[|plans| - 1], k, pair);
    }
  }

  /** Mining plans stored by runs never yields an ordering, and a pair's frequency is exactly the
      share of plans that use both tools, even where tools repeat. */
  lemma {:induction false} MiningSavedPlans(plans: seq<Plan>, minFrequency: real, c: Candidate)
    requires forall i :: 0 <= i < |plans| ==> Saved(plans[i])
    ensures !OrderingCandidate(plans, minFrequency, c)
    ensures ParallelCandidate(plans, minFrequency, c) ==>
              c.frequency == Rounded(Frequency(PlansUsing(plans, c.tools), |plans|)) <= 1.0
  {
    forall i | 0 <= i < |plans| ensures UniqueIds(plans[i]) && NoDependencies(plans[i]) {
      var envs, n :| SavedBy(plans[i], envs, n);
      SavedPlanShape(envs, n);
    }
    if c.HardOrdering? {
      FlatCounts(plans, (c.before, c.after), {});
    } else if plans != [] {
      FlatCounts(plans, (None, None), c.tools);
      ShareAtMostOne(PlansUsing(plans, c.tools), |plans|);
    }
  }

  lemma ShareAtMostOne(count: nat, n: nat)
    requires 0 < n && count <= n
    ensures Frequency(count, n) <= 1.0
  {
  }
}
