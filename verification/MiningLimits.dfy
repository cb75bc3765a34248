/** How far the guarantees of the mined rules go: where they stop, with plans that show it. */
module MiningLimits {
  import opened Wrappers
  import opened PlanGraph
  import opened PatternMining
  import opened MiningLaws
  import opened EvolutionJob

  lemma EdgeCounts(plan: Plan, u: StepId, v: StepId, k: Pair)
    requires (u, v) in GraphOf(plan).edges && Pairable(k) && Joins(GraphOf(plan), (u, v), k)
    ensures OrderIn(plan, k) >= 1
  {
    EdgeReaches(GraphOf(plan), u, v);
    assert (u, v) in OrderPairs(GraphOf(plan), k);
  }

  lemma {:induction false} AllShow(plans: seq<Plan>, k: Pair)
    requires forall i :: 0 <= i < |plans| ==> OrderIn(plans[i], k) >= 1
    ensures OrderCount(plans, k) >= |plans|
  {
    hide OrderIn;
    if plans != [] {
      AllShow(plans[..|plans| - 1], k);
    }
  }

  lemma EnoughIsFrequent(count: nat, n: nat)
    requires n > 0 && count >= NineTenths(n)
    ensures count > 0 && Frequency(count, n) >= 0.9
  {
    RatioAtLeast(count as real, 0.9, n as real);
  }

  lemma RatioAtLeast(x: real, y: real, z: real)
    requires x >= y * z && 0.0 < z
    ensures x / z >= y
  {
    var ratio := x / z;
    assert ratio * z == x;
    if ratio < y {
      LessTimes(ratio, y, z);
    }
  }

  lemma LessTimes(x: real, y: real, z: real)
    requires x < y && 0.0 < z
    ensures x * z < y * z
  {
    assert y * z == x * z + (y - x) * z;
  }

  /** The least count that is mined. */
  lemma CountIsMined(plans: seq<Plan>, k: Pair)
    requires plans != [] && OrderCount(plans, k) >= NineTenths(|plans|)
    ensures OrderingMined(plans, k)
  {
    hide OrderCount, Frequency, NineTenths, Rounded;
    EnoughIsFrequent(OrderCount(plans, k), |plans|);
    var r := HardOrdering(k.0, k.1, Rounded(Frequency(OrderCount(plans, k), |plans|)), |plans|);
    assert k == (k.0, k.1);
    assert OrderingCandidate(plans, 0.9, r);
  }

  // ---- What the job proposes ----

  /** With no reviewed rows stored, a run over the plans adds the ordering. */
  ghost predicate Proposed(plans: seq<Plan>, k: Pair) {
    exists c :: AddedByRun(plans, [], c) && c.HardOrdering? && c.before == k.0 && c.after == k.1
  }

  ghost predicate ProposedParallel(plans: seq<Plan>, pair: set<Tool>) {
    exists c :: AddedByRun(plans, [], c) && c.SoftParallel? && c.tools == pair
  }

  lemma MinedIsProposed(plans: seq<Plan>, k: Pair, pair: set<Tool>)
    requires AllSortable(plans)
    ensures OrderingMined(plans, k) ==> Proposed(plans, k)
    ensures ParallelMined(plans, pair) ==> ProposedParallel(plans, pair)
  {
    hide AllSortable, OrderCount, ParallelCount, Rounded, Frequency;
    NothingReviewed(plans);
    if OrderingMined(plans, k) {
      var c :| OrderingCandidate(plans, 0.9, c) && c.HardOrdering? && c.before == k.0 && c.after == k.1;
      assert AddedByRun(plans, [], c);
    }
    if ParallelMined(plans, pair) {
      var c :| ParallelCandidate(plans, 0.8, c) && c.SoftParallel? && c.tools == pair;
      assert AddedByRun(plans, [], c);
    }
  }

  lemma NothingReviewed(plans: seq<Plan>)
    requires AllSortable(plans)
    ensures !RunFails(plans, [])
    ensures forall c :: Mined(plans, c) ==> AddedByRun(plans, [], c)
  {
    hide AllSortable, Mined;
    assert forall key :: Reviewed([], key) == 0;
  }

  predicate AllNamed(plan: Plan) {
    forall i :: 0 <= i < |plan| ==> plan[i].tool.Some?
  }

  lemma {:induction false} NamedTools(plan: Plan)
    requires AllNamed(plan)
    ensures forall id :: id in ToolMap(plan) ==> ToolMap(plan)[id].Some?
  {
    if plan != [] {
      NamedTools(plan[..|plan| - 1]);
    }
  }

  /** Rounds without a missing name can be sorted. */
  lemma NamedSortable(plan: Plan)
    requires AllNamed(plan)
    ensures RoundsSortable(Rounds(plan))
  {
    NamedTools(plan);
    hide ToolMap;
    var g := GraphOf(plan);
    forall j | 0 <= j < |Rounds(plan)| ensures None !in Rounds(plan)[j] {
      assert Rounds(plan)[j] == ToolsOf(g, Generations(g)[j]);
    }
  }

  // ---- One ordering both ways ----

  const PING_PONG: Plan := [
    PlanStep("s1", Some("probe"), []),
    PlanStep("s2", Some("reset"), ["s1"]),
    PlanStep("s3", Some("probe"), ["s2"])]

  /** Distinct tools are needed: ten acyclic plans that use a tool twice make the job propose an
      ordering both ways. */
  lemma RepeatedToolBothWays(plans: seq<Plan>)
    requires |plans| == 10 && forall i :: 0 <= i < 10 ==> plans[i] == PING_PONG
    ensures Acyclic(GraphOf(PING_PONG))
    ensures Proposed(plans, (Some("probe"), Some("reset")))
    ensures Proposed(plans, (Some("reset"), Some("probe")))
  {
    hide OrderIn, GraphOf, Rounds, Proposed, OrderingMined;
    var a, b := Some("probe"), Some("reset");
    PingPongGraph();
    PingPongAcyclic();
    PingPongOrders(a, b);
    AllShow(plans, (a, b));
    AllShow(plans, (b, a));
    CountIsMined(plans, (a, b));
    CountIsMined(plans, (b, a));
    NamedSortable(PING_PONG);
    MinedIsProposed(plans, (a, b), {});
    MinedIsProposed(plans, (b, a), {});
  }

  lemma PingPongAcyclic()
    ensures Acyclic(GraphOf(PING_PONG))
  {
    PingPongGraph();
    ChainAcyclic(["s1", "s2", "s3"], GraphOf(PING_PONG));
  }

  lemma PingPongOrders(a: Tool, b: Tool)
    requires a == Some("probe") && b == Some("reset")
    ensures OrderIn(PING_PONG, (a, b)) >= 1 && OrderIn(PING_PONG, (b, a)) >= 1
  {
    PingPongGraph();
    EdgeCounts(PING_PONG, "s1", "s2", (a, b));
    EdgeCounts(PING_PONG, "s2", "s3", (b, a));
  }

  lemma EdgeIn(plan: Plan, i: nat, d: StepId)
    requires i < |plan| && d in plan[i].dependencies && d in ToolMap(plan)
    ensures (d, plan[i].id) in GraphOf(plan).edges
  {
    assert plan[i] in plan;
  }

  lemma PingPongGraph()
    ensures GraphOf(PING_PONG).tools == map["s1" := Some("probe"), "s2" := Some("reset"), "s3" := Some("probe")]
    ensures ("s1", "s2") in GraphOf(PING_PONG).edges && ("s2", "s3") in GraphOf(PING_PONG).edges
    ensures AlongChain(GraphOf(PING_PONG), ["s1", "s2", "s3"])
  {
    var p1, p2 := PING_PONG[..1], PING_PONG[..2];
    assert p2[..1] == p1 && p1[..0] == [];
    assert ToolMap(p1) == map["s1" := Some("probe")];
    assert ToolMap(p2) == map["s1" := Some("probe"), "s2" := Some("reset")];
    EdgeIn(PING_PONG, 1, "s1");
    EdgeIn(PING_PONG, 2, "s2");
    PingPongEdges(GraphOf(PING_PONG));
  }

  lemma PingPongEdges(g: Graph)
    requires g.edges == Edges(PING_PONG, g.tools.Keys)
    ensures AlongChain(g, ["s1", "s2", "s3"])
  {
    var r := ["s1", "s2", "s3"];
    forall e | e in g.edges ensures exists j :: 0 < j < |r| && e.0 == r[j - 1] && e.1 == r[j] {
      var s, d :| s in PING_PONG && d in s.dependencies && d in g.tools && e == (d, s.id);
      var i :| 0 <= i < 3 && PING_PONG[i] == s;
      assert i > 0 && s.id == r[i] && d == r[i - 1];
    }
  }

  // ---- Chains of ids ----

  predicate NoRepeats(r: seq<StepId>) {
    forall i, j :: 0 <= i < j < |r| ==> r[i] != r[j]
  }

  /** Every edge of g goes from an element of r to the next. */
  ghost predicate AlongChain(g: Graph, r: seq<StepId>) {
    forall e :: e in g.edges ==> exists j :: 0 < j < |r| && e.0 == r[j - 1] && e.1 == r[j]
  }

  lemma {:induction false} PathFollowsChain(g: Graph, r: seq<StepId>, p: seq<StepId>, j: nat)
    requires NoRepeats(r) && AlongChain(g, r) && IsPath(g, p) && j < |r| && p[|p| - 1] == r[j]
    ensures |p| <= j + 1 && p[0] == r[j + 1 - |p|]
  {
    if |p| > 1 {
      assert (p[|p| - 2], p[|p| - 2 + 1]) in g.edges;
      var i :| 0 < i < |r| && p[|p| - 2] == r[i - 1] && p[|p| - 1] == r[i];
      PathFollowsChain(g, r, p[..|p| - 1], j - 1);
    }
  }

  lemma ChainAcyclic(r: seq<StepId>, g: Graph)
    requires NoRepeats(r) && AlongChain(g, r)
    ensures Acyclic(g)
  {
    forall u ensures !Reach(g, u, u) {
      if p :| PathBetween(g, p, u, u) {
        assert (p[|p| - 2], p[|p| - 2 + 1]) in g.edges;
        var j :| 0 < j < |r| && p[|p| - 2] == r[j - 1] && p[|p| - 1] == r[j];
        PathFollowsChain(g, r, p, j);
      }
    }
  }
}
