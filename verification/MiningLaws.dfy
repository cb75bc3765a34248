/** What the frequency thresholds guarantee about the mined rules. */
module MiningLaws {
  import opened Wrappers
  import opened PlanGraph
  import opened PatternMining

  /** No two steps of the plan use the same tool. */
  predicate DistinctTools(plan: Plan) {
    var tools := GraphOf(plan).tools;
    forall u, v :: u in tools && v in tools && tools[u] == tools[v] ==> u == v
  }

  ghost predicate Sound(plan: Plan) {
    Acyclic(GraphOf(plan)) && DistinctTools(plan)
  }

  ghost predicate AllSound(plans: seq<Plan>) {
    forall i :: 0 <= i < |plans| ==> Sound(plans[i])
  }

  lemma AtMostOne<T>(s: set<T>)
    requires forall x, y :: x in s && y in s ==> x == y
    ensures |s| <= 1
  {
    if s != {} {
      var x :| x in s;
      assert s == {x};
    }
  }

  /** In a plan with distinct tools a tool pair is counted at most once, and counted exactly when
      the step of the one reaches the step of the other. */
  lemma OrderInOnce(plan: Plan, k: Pair)
    requires DistinctTools(plan)
    ensures OrderIn(plan, k) <= 1
    ensures OrderIn(plan, k) == 1 <==> Pairable(k) && exists u, v :: (u, v) in OrderPairs(GraphOf(plan), k)
  {
    var s := OrderPairs(GraphOf(plan), k);
    AtMostOne(s);
    if e :| e in s {
      assert e == (e.0, e.1);
    }
  }

  lemma OrderWitness(plan: Plan, k: Pair) returns (u: StepId, v: StepId)
    requires OrderIn(plan, k) > 0
    ensures Reach(GraphOf(plan), u, v) && Joins(GraphOf(plan), (u, v), k)
  {
    var e :| e in OrderPairs(GraphOf(plan), k);
    u, v := e.0, e.1;
  }

  // ---- One rule per pair ----

  lemma {:induction false} RoundsWithOnce(rounds: seq<set<Tool>>, pair: set<Tool>)
    requires forall i, j :: 0 <= i < j < |rounds| ==> !(pair <= rounds[i] && pair <= rounds[j])
    ensures RoundsWith(rounds, pair) <= 1
  {
    if rounds != [] {
      var front := rounds[..|rounds| - 1];
      RoundsWithOnce(front, pair);
      if RoundsWith(front, pair) > 0 {
        var i := RoundWitness(front, pair);
        assert rounds[i] == front[i];
      }
    }
  }

  lemma {:induction false} RoundWitness(rounds: seq<set<Tool>>, pair: set<Tool>) returns (i: nat)
    requires RoundsWith(rounds, pair) > 0
    ensures i < |rounds| && |pair| == 2 && pair <= rounds[i]
  {
    var last := |rounds| - 1;
    if |pair| == 2 && pair <= rounds[last] {
      i := last;
    } else {
      i := RoundWitness(rounds[..last], pair);
    }
  }

  /** A tool is in the round of its step's generation only. */
  lemma ToolInRound(plan: Plan, i: nat, a: Tool) returns (u: StepId)
    requires i < |Rounds(plan)| && a in Rounds(plan)[i]
    ensures i < |Generations(GraphOf(plan))| && u in Generations(GraphOf(plan))[i]
    ensures u in GraphOf(plan).tools && GraphOf(plan).tools[u] == a
  {
    var g := GraphOf(plan);
    u :| u in Generations(g)[i] && u in g.tools && g.tools[u] == a;
  }

  lemma ParallelOnce(plan: Plan, pair: set<Tool>)
    requires DistinctTools(plan)
    ensures RoundsWith(Rounds(plan), pair) <= 1
  {
    var rounds, gs := Rounds(plan), Generations(GraphOf(plan));
    if |pair| != 2 {
      if RoundsWith(rounds, pair) > 0 {
        var i := RoundWitness(rounds, pair);
      }
    } else {
      var a :| a in pair;
      forall i, j | 0 <= i < j < |rounds| ensures !(pair <= rounds[i] && pair <= rounds[j]) {
        if pair <= rounds[i] && pair <= rounds[j] {
          var u := ToolInRound(plan, i, a);
          var v := ToolInRound(plan, j, a);
          assert u == v && u in gs[i] * gs[j];
          PeelShape(GraphOf(plan), GraphOf(plan).tools.Keys);
        }
      }
      RoundsWithOnce(rounds, pair);
    }
  }

  /** Two tools of one plan are ordered one way, or the other, or share a round: never two of
      these, and none of them twice. */
  lemma PlanBudget(plan: Plan, a: Tool, b: Tool)
    requires Sound(plan)
    ensures OrderIn(plan, (a, b)) + OrderIn(plan, (b, a)) + RoundsWith(Rounds(plan), {a, b}) <= 1
  {
    var g := GraphOf(plan);
    GraphOfClosed(plan);
    OrderInOnce(plan, (a, b));
    OrderInOnce(plan, (b, a));
    ParallelOnce(plan, {a, b});
    if OrderIn(plan, (a, b)) > 0 && OrderIn(plan, (b, a)) > 0 {
      var u, v := OrderWitness(plan, (a, b));
      var v', u' := OrderWitness(plan, (b, a));
      ReachTransitive(g, u, v, u);
    }
    if RoundsWith(Rounds(plan), {a, b}) > 0 {
      var i := RoundWitness(Rounds(plan), {a, b});
      var u := ToolInRound(plan, i, a);
      var v := ToolInRound(plan, i, b);
      Antichain(g, i, u, v);
      Antichain(g, i, v, u);
      if OrderIn(plan, (a, b)) > 0 {
        var u', v' := OrderWitness(plan, (a, b));
      }
      if OrderIn(plan, (b, a)) > 0 {
        var v', u' := OrderWitness(plan, (b, a));
      }
    }
  }

  lemma {:induction false} PairBudget(plans: seq<Plan>, a: Tool, b: Tool)
    requires AllSound(plans)
    ensures OrderCount(plans, (a, b)) + OrderCount(plans, (b, a)) + ParallelCount(plans, {a, b}) <= |plans|
  {
    if plans != [] {
      PairBudget(plans[..|plans| - 1], a, b);
      PlanBudget(plans[|plans| - 1], a, b);
    }
  }

  /** A frequency threshold is a threshold on the count. */
  lemma FrequencyAtLeast(count: nat, n: nat, minFrequency: real)
    requires n > 0 && Frequency(count, n) >= minFrequency
    ensures count as real >= minFrequency * n as real
  {
    assert Frequency(count, n) * n as real == count as real;
    MulMonotone(minFrequency, Frequency(count, n), n as real);
  }

  lemma MulMonotone(x: real, y: real, z: real)
    requires x <= y && 0.0 <= z
    ensures x * z <= y * z
  {
  }

  ghost predicate OrderingMined(plans: seq<Plan>, k: Pair) {
    exists r :: OrderingCandidate(plans, 0.9, r) && r.before == k.0 && r.after == k.1
  }

  ghost predicate ParallelMined(plans: seq<Plan>, pair: set<Tool>) {
    exists r :: ParallelCandidate(plans, 0.8, r) && r.tools == pair
  }

  /** What being mined at the thresholds of the job says about the count. */
  lemma {:induction false} MinedCounts(plans: seq<Plan>, k: Pair, pair: set<Tool>)
    ensures OrderingMined(plans, k) ==> 10 * OrderCount(plans, k) >= 9 * |plans| > 0
    ensures ParallelMined(plans, pair) ==> 10 * ParallelCount(plans, pair) >= 8 * |plans| > 0
  {
    if OrderingMined(plans, k) {
      FrequencyAtLeast(OrderCount(plans, k), |plans|, 0.9);
    }
    if ParallelMined(plans, pair) {
      FrequencyAtLeast(ParallelCount(plans, pair), |plans|, 0.8);
    }
  }

  /** At the thresholds of the job, one pair of tools gets at most one rule: never an ordering both
      ways, and never an ordering together with a parallel pair. */
  lemma RulesExclusive(plans: seq<Plan>, a: Tool, b: Tool)
    requires AllSound(plans) && OrderingMined(plans, (a, b))
    ensures !OrderingMined(plans, (b, a))
    ensures !ParallelMined(plans, {a, b})
  {
    PairBudget(plans, a, b);
    MinedCounts(plans, (a, b), {a, b});
    MinedCounts(plans, (b, a), {a, b});
  }

  // ---- Chains and cycles of rules ----

  lemma PlanTriangle(plan: Plan, a: Tool, b: Tool, c: Tool)
    requires Sound(plan)
    ensures OrderIn(plan, (a, b)) + OrderIn(plan, (b, c)) <= 1 + OrderIn(plan, (a, c))
  {
    OrderInOnce(plan, (a, b));
    OrderInOnce(plan, (b, c));
    OrderInOnce(plan, (a, c));
    if OrderIn(plan, (a, b)) > 0 && OrderIn(plan, (b, c)) > 0 {
      var g := GraphOf(plan);
      var u, v := OrderWitness(plan, (a, b));
      var v', w := OrderWitness(plan, (b, c));
      ReachTransitive(g, u, v, w);
      assert u != w;
      assert (u, w) in OrderPairs(g, (a, c));
    }
  }

  /** Counts compose: what is before b in x plans and after it in y plans is ordered in at least
      x + y - n of them. */
  lemma {:induction false} Triangle(plans: seq<Plan>, a: Tool, b: Tool, c: Tool)
    requires AllSound(plans)
    ensures OrderCount(plans, (a, c)) >= OrderCount(plans, (a, b)) + OrderCount(plans, (b, c)) - |plans|
  {
    if plans != [] {
      Triangle(plans[..|plans| - 1], a, b, c);
      PlanTriangle(plans[|plans| - 1], a, b, c);
    }
  }

  /** The rules of the closed chain of tools c. */
  function Links(c: seq<Tool>): (ks: seq<Pair>)
    ensures |ks| == |c|
    ensures forall j :: 0 <= j < |c| - 1 ==> ks[j] == (c[j], c[j + 1])
    ensures c != [] ==> ks[|c| - 1] == (c[|c| - 1], c[0])
  {
    seq(|c|, j requires 0 <= j < |c| => (c[j], if j + 1 < |c| then c[j + 1] else c[0]))
  }

  ghost function RulesIn(plan: Plan, ks: seq<Pair>): nat {
    if ks == [] then 0 else RulesIn(plan, ks[..|ks| - 1]) + OrderIn(plan, ks[|ks| - 1])
  }

  ghost function RuleCount(plans: seq<Plan>, ks: seq<Pair>): nat {
    if ks == [] then 0 else RuleCount(plans, ks[..|ks| - 1]) + OrderCount(plans, ks[|ks| - 1])
  }

  lemma {:induction false} RuleCountSplits(plans: seq<Plan>, ks: seq<Pair>)
    requires plans != []
    ensures RuleCount(plans, ks) == RuleCount(plans[..|plans| - 1], ks) + RulesIn(plans[|plans| - 1], ks)
  {
    if ks != [] {
      RuleCountSplits(plans, ks[..|ks| - 1]);
    }
  }

  lemma {:induction false} RulesAtMost(plan: Plan, ks: seq<Pair>)
    requires DistinctTools(plan)
    ensures RulesIn(plan, ks) <= |ks|
    ensures RulesIn(plan, ks) == |ks| ==> forall j :: 0 <= j < |ks| ==> OrderIn(plan, ks[j]) == 1
  {
    if ks != [] {
      RulesAtMost(plan, ks[..|ks| - 1]);
      OrderInOnce(plan, ks[|ks| - 1]);
    }
  }

  /** Following the rules from the first tool reaches every tool of the chain. */
  lemma {:induction false} ChainReaches(plan: Plan, ks: seq<Pair>) returns (u: StepId, v: StepId)
    requires DistinctTools(plan) && ks != []
    requires forall j :: 0 <= j < |ks| - 1 ==> ks[j].1 == ks[j + 1].0
    requires forall j :: 0 <= j < |ks| ==> OrderIn(plan, ks[j]) == 1
    ensures Reach(GraphOf(plan), u, v) && Joins(GraphOf(plan), (u, v), (ks[0].0, ks[|ks| - 1].1))
  {
    var last := |ks| - 1;
    if last == 0 {
      u, v := OrderWitness(plan, ks[0]);
    } else {
      var w, w';
      u, w := ChainReaches(plan, ks[..last]);
      w', v := OrderWitness(plan, ks[last]);
      assert ks[last - 1].1 == ks[last - 1 + 1].0;
      ReachTransitive(GraphOf(plan), u, w, v);
    }
  }

  lemma PlanBreaksCycle(plan: Plan, c: seq<Tool>)
    requires Sound(plan) && c != []
    ensures RulesIn(plan, Links(c)) <= |c| - 1
  {
    var ks := Links(c);
    RulesAtMost(plan, ks);
    if RulesIn(plan, ks) == |c| {
      var u, v := ChainReaches(plan, ks);
    }
  }

  lemma {:induction false} PlansBreakCycle(plans: seq<Plan>, c: seq<Tool>)
    requires AllSound(plans) && c != []
    ensures RuleCount(plans, Links(c)) <= (|c| - 1) * |plans|
  {
    if plans == [] {
      NoPlans(Links(c));
    } else {
      PlansBreakCycle(plans[..|plans| - 1], c);
      PlanBreaksCycle(plans[|plans| - 1], c);
      RuleCountSplits(plans, Links(c));
      AddOne(|c| - 1, |plans| - 1);
    }
  }

  lemma AddOne(x: int, y: int)
    ensures x * (y + 1) == x * y + x
  {
  }

  lemma {:induction false} NoPlans(ks: seq<Pair>)
    ensures RuleCount([], ks) == 0
  {
    if ks != [] {
      NoPlans(ks[..|ks| - 1]);
    }
  }

  lemma {:induction false} RulesAtLeast(plans: seq<Plan>, ks: seq<Pair>, q: nat)
    requires forall j :: 0 <= j < |ks| ==> OrderCount(plans, ks[j]) >= q
    ensures RuleCount(plans, ks) >= q * |ks|
  {
    if ks != [] {
      RulesAtLeast(plans, ks[..|ks| - 1], q);
      AddOne(q, |ks| - 1);
    }
  }

  /** Pigeonhole: if each rule of a closed chain of k rules is seen in at least q of n plans, the
      plans that miss a rule must cover all n, so k * (n - q) >= n. */
  lemma {:induction false} CycleCost(plans: seq<Plan>, c: seq<Tool>, q: nat)
    requires AllSound(plans) && c != []
    requires forall j :: 0 <= j < |c| ==> OrderCount(plans, Links(c)[j]) >= q
    ensures |c| * (|plans| - q) >= |plans|
  {
    PlansBreakCycle(plans, c);
    RulesAtLeast(plans, Links(c), q);
    Expand(|c|, |plans|, q);
  }

  lemma Expand(k: int, n: int, q: int)
    ensures k * (n - q) == k * n - q * k && (k - 1) * n == k * n - n
  {
  }

  ghost predicate RuleCycle(plans: seq<Plan>, c: seq<Tool>) {
    c != [] && forall j :: 0 <= j < |c| ==> OrderingMined(plans, Links(c)[j])
  }

  /** The least count that reaches nine tenths of n plans. */
  function NineTenths(n: nat): (q: nat)
    ensures q <= n && 10 * q >= 9 * n && (q > 0 ==> 10 * (q - 1) < 9 * n)
  {
    (9 * n + 9) / 10
  }

  /** The orderings mined from any number n of sound plans have no cycle of a length k with
      k * (n - q) < n, where q is the least count that is mined; so none shorter than ten. */
  lemma NoShortRuleCycle(plans: seq<Plan>, c: seq<Tool>)
    requires AllSound(plans) && RuleCycle(plans, c)
    ensures |c| * (|plans| - NineTenths(|plans|)) >= |plans|
    ensures |c| >= 10
  {
    var n, q := |plans|, NineTenths(|plans|);
    forall j | 0 <= j < |c| ensures OrderCount(plans, Links(c)[j]) >= q && n > 0 {
      assert OrderingMined(plans, Links(c)[j]);
      MinedCounts(plans, Links(c)[j], {});
    }
    assert OrderingMined(plans, Links(c)[0]);
    MinedCounts(plans, Links(c)[0], {});
    CycleCost(plans, c, q);
    if |c| < 10 {
      MoreTimes(|c|, 9, n - q);
    }
  }

  lemma MoreTimes(k: nat, j: nat, m: nat)
    requires k <= j
    ensures k * m <= j * m
  {
    assert j * m == k * m + (j - k) * m;
  }
}
