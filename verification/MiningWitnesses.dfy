/** Rules that are mined although too few plans show them. */
module MiningWitnesses {
  import opened Wrappers
  import opened PlanGraph
  import opened PatternMining
  import opened MiningLaws
  import opened MiningLimits
  import opened MiningShares

  const PROBE: Tool := Some("probe")
  const RESET: Tool := Some("reset")

  // ---- Many ordered pairs in one plan ----

  /** All steps of `ids` probe, and then one step resets. */
  function FanIn(ids: seq<StepId>, last: StepId): Plan {
    seq(|ids|, i requires 0 <= i < |ids| => PlanStep(ids[i], PROBE, [])) + [PlanStep(last, RESET, ids)]
  }

  lemma FanInUnique(ids: seq<StepId>, last: StepId)
    requires NoRepeats(ids) && last !in ids
    ensures UniqueIds(FanIn(ids, last)) && AllNamed(FanIn(ids, last))
  {
    var plan := FanIn(ids, last);
    forall i, j | 0 <= i < j < |plan| ensures plan[i].id != plan[j].id {
      assert plan[i].id == ids[i] && plan[j].id == if j < |ids| then ids[j] else last;
    }
  }

  lemma FanInTools(ids: seq<StepId>, last: StepId)
    requires NoRepeats(ids) && last !in ids
    ensures var m := ToolMap(FanIn(ids, last));
            && last in m && m[last] == RESET
            && (forall i :: 0 <= i < |ids| ==> ids[i] in m && m[ids[i]] == PROBE)
  {
    hide ToolMap, UniqueIds;
    var plan := FanIn(ids, last);
    FanInUnique(ids, last);
    UniqueToolMap(plan);
    assert plan[|ids|].id == last && plan[|ids|].tool == RESET;
    forall i | 0 <= i < |ids| ensures ids[i] in ToolMap(plan) && ToolMap(plan)[ids[i]] == PROBE {
      assert plan[i].id == ids[i] && plan[i].tool == PROBE;
    }
  }

  lemma FanInEdge(ids: seq<StepId>, last: StepId, i: nat)
    requires i < |ids| && ids[i] in ToolMap(FanIn(ids, last))
    ensures (ids[i], last) in GraphOf(FanIn(ids, last)).edges
  {
    hide ToolMap, GraphOf;
    var plan := FanIn(ids, last);
    assert plan[|ids|] == PlanStep(last, RESET, ids) && ids[i] in ids;
    EdgeIn(plan, |ids|, ids[i]);
  }

  lemma FanInEdgeOnly(ids: seq<StepId>, last: StepId, e: (StepId, StepId))
    requires e in GraphOf(FanIn(ids, last)).edges
    ensures e.0 in ids && e.1 == last
  {
    hide ToolMap;
    var plan := FanIn(ids, last);
    var s, d :| s in plan && d in s.dependencies && d in ToolMap(plan).Keys && e == (d, s.id);
    var i :| 0 <= i < |plan| && plan[i] == s;
    assert i == |ids|;
  }

  lemma FanInGraph(ids: seq<StepId>, last: StepId)
    requires NoRepeats(ids) && last !in ids
    ensures var g := GraphOf(FanIn(ids, last));
            && g.tools == ToolMap(FanIn(ids, last))
            && last in g.tools && g.tools[last] == RESET
            && (forall i :: 0 <= i < |ids| ==> ids[i] in g.tools && g.tools[ids[i]] == PROBE)
            && (forall i :: 0 <= i < |ids| ==> (ids[i], last) in g.edges)
            && (forall e :: e in g.edges ==> e.0 in ids && e.1 == last)
  {
    hide ToolMap, Edges, FanIn;
    FanInTools(ids, last);
    forall i | 0 <= i < |ids| ensures (ids[i], last) in GraphOf(FanIn(ids, last)).edges {
      FanInEdge(ids, last, i);
    }
    forall e | e in GraphOf(FanIn(ids, last)).edges ensures e.0 in ids && e.1 == last {
      FanInEdgeOnly(ids, last, e);
    }
  }

  lemma FanInAcyclic(ids: seq<StepId>, last: StepId)
    requires NoRepeats(ids) && last !in ids
    ensures Acyclic(GraphOf(FanIn(ids, last)))
  {
    FanInGraph(ids, last);
    var g := GraphOf(FanIn(ids, last));
    hide GraphOf, FanIn;
    forall u ensures !Reach(g, u, u) {
      if p :| PathBetween(g, p, u, u) {
        assert (p[0], p[0 + 1]) in g.edges && (p[|p| - 2], p[|p| - 2 + 1]) in g.edges;
      }
    }
  }

  lemma FanInCounts(ids: seq<StepId>, last: StepId)
    requires NoRepeats(ids) && last !in ids
    ensures OrderIn(FanIn(ids, last), (PROBE, RESET)) >= |ids|
  {
    FanInGraph(ids, last);
    ProbeAndReset();
    var g := GraphOf(FanIn(ids, last));
    hide GraphOf, FanIn, OrderPairs;
    PairsInto(g, (PROBE, RESET), ids, last);
  }

  lemma ProbeAndReset()
    ensures Pairable((PROBE, RESET)) && |{PROBE, RESET}| == 2
  {
    assert PROBE != RESET by {
      assert "probe"[0] != "reset"[0];
    }
  }

  lemma PairsInto(g: Graph, k: Pair, ids: seq<StepId>, last: StepId)
    requires NoRepeats(ids)
    requires forall i :: 0 <= i < |ids| ==> (ids[i], last) in g.edges && Joins(g, (ids[i], last), k)
    ensures |OrderPairs(g, k)| >= |ids|
  {
    var all, some := OrderPairs(g, k), set i | 0 <= i < |ids| :: (ids[i], last);
    forall i | 0 <= i < |ids| ensures (ids[i], last) in all {
      EdgeReaches(g, ids[i], last);
    }
    hide OrderPairs, Joins;
    SomeCount(ids, last);
    assert all == some + (all - some);
  }

  lemma {:induction false} SomeCount(ids: seq<StepId>, last: StepId)
    requires NoRepeats(ids)
    ensures |set i | 0 <= i < |ids| :: (ids[i], last)| == |ids|
  {
    if ids != [] {
      var front, top := ids[..|ids| - 1], ids[|ids| - 1];
      SomeCount(front, last);
      assert forall i :: 0 <= i < |front| ==> front[i] == ids[i];
      assert (set i | 0 <= i < |ids| :: (ids[i], last)) ==
             (set i | 0 <= i < |front| :: (front[i], last)) + {(top, last)};
    }
  }

  lemma {:induction false} NoneShow(plans: seq<Plan>, k: Pair)
    requires forall i :: 0 <= i < |plans| ==> !ShowsOrdering(plans[i], k)
    ensures PlansShowing(plans, k) == 0
  {
    hide ShowsOrdering;
    if plans != [] {
      NoneShow(plans[..|plans| - 1], k);
    }
  }

  lemma NamedWitness(others: seq<Plan>, plan: Plan)
    requires AllSortable(others) && AllNamed(plan)
    ensures AllSortable(others + [plan])
  {
    hide Rounds;
    NamedSortable(plan);
    var plans := others + [plan];
    forall i | 0 <= i < |plans| ensures RoundsSortable(Rounds(plans[i])) {
      assert plans[i] == if i < |others| then others[i] else plan;
    }
  }

  /** The job proposes an ordering at nine tenths that one plan in ten shows: nine probes of one acyclic
      plan precede its reset, and the other nine plans are any plans that do not show the ordering
      and whose rounds can be sorted. */
  lemma MinedFromOnePlan(others: seq<Plan>, ids: seq<StepId>, last: StepId)
    requires |others| == 9 && AllSortable(others)
    requires forall i :: 0 <= i < 9 ==> !ShowsOrdering(others[i], (PROBE, RESET))
    requires |ids| == 9 && NoRepeats(ids) && last !in ids
    ensures var plans := others + [FanIn(ids, last)];
            && Acyclic(GraphOf(FanIn(ids, last)))
            && Proposed(plans, (PROBE, RESET))
            && PlansShowing(plans, (PROBE, RESET)) == 1
  {
    hide OrderIn, ShowsOrdering, AllSortable, OrderingMined, Proposed, GraphOf;
    var plan, k := FanIn(ids, last), (PROBE, RESET);
    var plans := others + [plan];
    FanInAcyclic(ids, last);
    FanInCounts(ids, last);
    FanInUnique(ids, last);
    OrderInMeans(plan, k);
    NoneShow(others, k);
    assert plans[..|plans| - 1] == others;
    CountIsMined(plans, k);
    NamedWitness(others, plan);
    MinedIsProposed(plans, k, {});
  }

  // ---- Many shared rounds in one plan ----

  /** One probe a[i] and one reset b[i] per layer, both waiting for the probe of the layer before. */
  function Layers(a: seq<StepId>, b: seq<StepId>): Plan {
    seq(|a|, i requires 0 <= i < |a| => PlanStep(a[i], PROBE, Before(a, i))) +
    seq(|b|, i requires 0 <= i < |b| => PlanStep(b[i], RESET, Before(a, i)))
  }

  function Before(a: seq<StepId>, i: nat): seq<StepId> {
    if 0 < i <= |a| then [a[i - 1]] else []
  }

  function RestFrom(a: seq<StepId>, b: seq<StepId>, i: nat): set<StepId> {
    (set j | i <= j < |a| :: a[j]) + (set j | i <= j < |b| :: b[j])
  }

  predicate Columns(a: seq<StepId>, b: seq<StepId>) {
    |a| == |b| && NoRepeats(a) && NoRepeats(b) && forall i, j :: 0 <= i < |a| && 0 <= j < |b| ==> a[i] != b[j]
  }

  predicate WaitsAt(a: seq<StepId>, b: seq<StepId>, e: (StepId, StepId), j: nat) {
    0 < j < |a| && j < |b| && e.0 == a[j - 1] && (e.1 == a[j] || e.1 == b[j])
  }

  predicate Waits(g: Graph, a: seq<StepId>, b: seq<StepId>, j: nat) {
    0 < j < |a| && j < |b| ==> (a[j - 1], a[j]) in g.edges && (a[j - 1], b[j]) in g.edges
  }

  /** The graph of a layered plan. */
  ghost predicate LayeredGraph(g: Graph, a: seq<StepId>, b: seq<StepId>) {
    && g.tools.Keys == RestFrom(a, b, 0)
    && (forall j :: 0 <= j < |a| ==> a[j] in g.tools && g.tools[a[j]] == PROBE)
    && (forall j :: 0 <= j < |b| ==> b[j] in g.tools && g.tools[b[j]] == RESET)
    && (forall e :: e in g.edges ==> exists j: nat :: WaitsAt(a, b, e, j))
    && (forall j: nat :: Waits(g, a, b, j))
  }

  lemma LayersUnique(a: seq<StepId>, b: seq<StepId>)
    requires Columns(a, b)
    ensures UniqueIds(Layers(a, b))
  {
    var plan := Layers(a, b);
    hide Before;
    forall i, j | 0 <= i < j < |plan| ensures plan[i].id != plan[j].id {
      assert plan[i].id == if i < |a| then a[i] else b[i - |a|];
      assert plan[j].id == if j < |a| then a[j] else b[j - |a|];
    }
  }

  lemma LayersTools(a: seq<StepId>, b: seq<StepId>)
    requires Columns(a, b)
    ensures var m := ToolMap(Layers(a, b));
            && m.Keys == RestFrom(a, b, 0)
            && (forall j :: 0 <= j < |a| ==> a[j] in m && m[a[j]] == PROBE)
            && (forall j :: 0 <= j < |b| ==> b[j] in m && m[b[j]] == RESET)
  {
    hide ToolMap, UniqueIds, Columns, Before;
    var plan := Layers(a, b);
    LayersUnique(a, b);
    UniqueToolMap(plan);
    var m := ToolMap(plan);
    forall j | 0 <= j < |a| ensures a[j] in m && m[a[j]] == PROBE {
      assert plan[j].id == a[j];
    }
    forall j | 0 <= j < |b| ensures b[j] in m && m[b[j]] == RESET {
      assert plan[|a| + j].id == b[j];
    }
    forall id | id in m ensures id in RestFrom(a, b, 0) {
      var i := StepOf(plan, id);
      assert if i < |a| then id == a[i] else id == b[i - |a|];
    }
  }

  lemma StepOf(plan: Plan, id: StepId) returns (i: nat)
    requires id in ToolMap(plan)
    ensures i < |plan| && plan[i].id == id
  {
    var s :| s in plan && s.id == id;
    i :| 0 <= i < |plan| && plan[i] == s;
  }

  lemma LayersEdge(a: seq<StepId>, b: seq<StepId>, e: (StepId, StepId)) returns (j: nat)
    requires |a| == |b| && e in GraphOf(Layers(a, b)).edges
    ensures WaitsAt(a, b, e, j)
  {
    hide ToolMap, Layers, Before, WaitsAt;
    var plan := Layers(a, b);
    var s, d :| s in plan && d in s.dependencies && d in ToolMap(plan).Keys && e == (d, s.id);
    var i :| 0 <= i < |plan| && plan[i] == s;
    j := LayersStep(a, b, i, d);
  }

  lemma LayersStep(a: seq<StepId>, b: seq<StepId>, i: nat, d: StepId) returns (j: nat)
    requires |a| == |b| && i < |Layers(a, b)| && d in Layers(a, b)[i].dependencies
    ensures WaitsAt(a, b, (d, Layers(a, b)[i].id), j)
  {
    j := if i < |a| then i else i - |a|;
    assert Layers(a, b)[i].dependencies == Before(a, j);
  }

  lemma LayersWait(a: seq<StepId>, b: seq<StepId>, j: nat)
    requires |a| == |b| && (0 < j < |a| ==> a[j - 1] in ToolMap(Layers(a, b)))
    ensures Waits(GraphOf(Layers(a, b)), a, b, j)
  {
    if 0 < j < |a| {
      var plan := Layers(a, b);
      assert plan[j] == PlanStep(a[j], PROBE, [a[j - 1]]) && plan[|a| + j] == PlanStep(b[j], RESET, [a[j - 1]]);
      hide GraphOf, ToolMap, Layers;
      EdgeIn(plan, j, a[j - 1]);
      EdgeIn(plan, |a| + j, a[j - 1]);
    }
  }

  lemma LayersGraph(a: seq<StepId>, b: seq<StepId>)
    requires Columns(a, b)
    ensures LayeredGraph(GraphOf(Layers(a, b)), a, b)
  {
    var g := GraphOf(Layers(a, b));
    assert g.tools == ToolMap(Layers(a, b));
    LayersTools(a, b);
    hide ToolMap, GraphOf, Layers, Waits, WaitsAt, RestFrom;
    assert |a| == |b|;
    forall e | e in g.edges ensures exists j: nat :: WaitsAt(a, b, e, j) {
      var j := LayersEdge(a, b, e);
    }
    forall j: nat ensures Waits(g, a, b, j) {
      LayersWait(a, b, j);
    }
  }

  lemma LayerReady(g: Graph, a: seq<StepId>, b: seq<StepId>, i: nat)
    requires LayeredGraph(g, a, b) && Columns(a, b) && i < |a|
    ensures Ready(g, RestFrom(a, b, i)) == {a[i], b[i]}
  {
    assert i < |b|;
    hide LayeredGraph, Columns, RestFrom, Ready;
    var ready := Ready(g, RestFrom(a, b, i));
    forall n | n in ready ensures n == a[i] || n == b[i] {
      OnlyLayerReady(g, a, b, i, n);
    }
    LayerIsReady(g, a, b, i, a[i]);
    LayerIsReady(g, a, b, i, b[i]);
  }

  lemma LayerIsReady(g: Graph, a: seq<StepId>, b: seq<StepId>, i: nat, n: StepId)
    requires LayeredGraph(g, a, b) && Columns(a, b) && i < |a| && (n == a[i] || n == b[i])
    ensures n in Ready(g, RestFrom(a, b, i))
  {
    assert n in RestFrom(a, b, i);
    hide LayeredGraph, Columns, RestFrom;
    forall m | m in RestFrom(a, b, i) ensures (m, n) !in g.edges {
      NotWaiting(g, a, b, i, m, n);
    }
  }

  lemma OnlyLayerReady(g: Graph, a: seq<StepId>, b: seq<StepId>, i: nat, n: StepId)
    requires LayeredGraph(g, a, b) && Columns(a, b) && i < |a| && n in Ready(g, RestFrom(a, b, i))
    ensures n == a[i] || n == b[i]
  {
    assert |a| == |b|;
    hide LayeredGraph, Columns;
    var j :| i <= j < |a| && (n == a[j] || n == b[j]);
    if j > i {
      assert a[j - 1] in RestFrom(a, b, i);
      StillWaiting(g, a, b, j);
    }
  }

  lemma StillWaiting(g: Graph, a: seq<StepId>, b: seq<StepId>, j: nat)
    requires LayeredGraph(g, a, b) && |a| == |b| && 0 < j < |a|
    ensures (a[j - 1], a[j]) in g.edges && (a[j - 1], b[j]) in g.edges
  {
    assert Waits(g, a, b, j);
  }

  lemma NotWaiting(g: Graph, a: seq<StepId>, b: seq<StepId>, i: nat, m: StepId, n: StepId)
    requires LayeredGraph(g, a, b) && Columns(a, b) && i < |a| && (n == a[i] || n == b[i])
    requires m in RestFrom(a, b, i)
    ensures (m, n) !in g.edges
  {
    forall j: nat ensures !WaitsAt(a, b, (m, n), j) {
    }
  }

  function LayerSets(a: seq<StepId>, b: seq<StepId>, i: nat): (gs: seq<set<StepId>>)
    requires |a| == |b| && i <= |a|
    ensures |gs| == |a| - i
    decreases |a| - i
  {
    if i < |a| then [{a[i], b[i]}] + LayerSets(a, b, i + 1) else []
  }

  lemma {:induction false} LayerSetsAt(a: seq<StepId>, b: seq<StepId>, i: nat, k: nat)
    requires |a| == |b| && i + k < |a|
    ensures LayerSets(a, b, i)[k] == {a[i + k], b[i + k]}
    decreases k
  {
    if k > 0 {
      LayerSetsAt(a, b, i + 1, k - 1);
    }
  }

  /** The generations of a layered plan are its layers. */
  lemma {:induction false} LayersPeel(g: Graph, a: seq<StepId>, b: seq<StepId>, i: nat)
    requires LayeredGraph(g, a, b) && Columns(a, b) && i <= |a| && |a| == |b|
    ensures Peel(g, RestFrom(a, b, i)) == LayerSets(a, b, i)
    decreases |a| - i
  {
    hide LayeredGraph, Columns, Ready, Peel, RestFrom, LayerSets;
    if i < |a| {
      LayersPeel(g, a, b, i + 1);
      LayersPeelNext(g, a, b, i);
    } else {
      RestNothing(a, b);
      PeelNothing(g);
      NoLayers(a, b);
    }
  }

  lemma LayersPeelNext(g: Graph, a: seq<StepId>, b: seq<StepId>, i: nat)
    requires LayeredGraph(g, a, b) && Columns(a, b) && i < |a| && |a| == |b|
    requires Peel(g, RestFrom(a, b, i + 1)) == LayerSets(a, b, i + 1)
    ensures Peel(g, RestFrom(a, b, i)) == LayerSets(a, b, i)
  {
    var gen := {a[i], b[i]};
    assert LayerSets(a, b, i) == [gen] + LayerSets(a, b, i + 1);
    hide LayeredGraph, Columns, Ready, Peel, RestFrom, LayerSets;
    LayerReady(g, a, b, i);
    RestNext(a, b, i);
    PeelNext(g, RestFrom(a, b, i), gen);
  }

  lemma PeelNext(g: Graph, rest: set<StepId>, gen: set<StepId>)
    requires gen == Ready(g, rest) && gen != {}
    ensures Peel(g, rest) == [gen] + Peel(g, rest - gen)
  {
  }

  lemma NoLayers(a: seq<StepId>, b: seq<StepId>)
    requires |a| == |b|
    ensures LayerSets(a, b, |a|) == []
  {
  }

  lemma RestNothing(a: seq<StepId>, b: seq<StepId>)
    requires |a| == |b|
    ensures RestFrom(a, b, |a|) == {}
  {
  }

  lemma PeelNothing(g: Graph)
    ensures Peel(g, {}) == []
  {
    assert Ready(g, {}) == {};
  }

  lemma RestNext(a: seq<StepId>, b: seq<StepId>, i: nat)
    requires Columns(a, b) && i < |a|
    ensures RestFrom(a, b, i) - {a[i], b[i]} == RestFrom(a, b, i + 1)
  {
  }

  lemma {:induction false} EveryRound(rounds: seq<set<Tool>>, pair: set<Tool>)
    requires forall i: nat :: i < |rounds| ==> RoundHas(rounds, pair, i)
    ensures RoundsWith(rounds, pair) == |rounds|
  {
    if rounds != [] {
      var front := rounds[..|rounds| - 1];
      forall i: nat | i < |front| ensures RoundHas(front, pair, i) {
        assert RoundHas(rounds, pair, i);
      }
      EveryRound(front, pair);
      assert RoundHas(rounds, pair, |rounds| - 1);
    }
  }

  lemma LayerRounds(g: Graph, a: seq<StepId>, b: seq<StepId>, pair: set<Tool>)
    requires |a| == |b| && |pair| == 2
    requires forall i :: 0 <= i < |a| ==> pair <= ToolsOf(g, {a[i], b[i]})
    ensures RoundsWith(RoundsFrom(g, LayerSets(a, b, 0)), pair) == |a|
  {
    var rounds := RoundsFrom(g, LayerSets(a, b, 0));
    hide RoundsFrom, RoundsWith, ToolsOf, LayerSets;
    forall i: nat | i < |rounds| ensures RoundHas(rounds, pair, i) {
      LayerSetsAt(a, b, 0, i);
      assert rounds[i] == ToolsOf(g, {a[i], b[i]});
    }
    EveryRound(rounds, pair);
  }

  lemma LayerTools(g: Graph, a: seq<StepId>, b: seq<StepId>)
    requires LayeredGraph(g, a, b) && |a| == |b|
    ensures forall i :: 0 <= i < |a| ==> {PROBE, RESET} <= ToolsOf(g, {a[i], b[i]})
  {
    forall i | 0 <= i < |a| ensures {PROBE, RESET} <= ToolsOf(g, {a[i], b[i]}) {
      assert g.tools[a[i]] == PROBE && g.tools[b[i]] == RESET;
    }
  }

  lemma LayersCount(a: seq<StepId>, b: seq<StepId>)
    requires Columns(a, b)
    ensures RoundsWith(Rounds(Layers(a, b)), {PROBE, RESET}) == |a|
  {
    var g := GraphOf(Layers(a, b));
    assert Rounds(Layers(a, b)) == RoundsFrom(g, Peel(g, g.tools.Keys));
    hide Rounds, GraphOf, Layers, Peel, RoundsFrom, RoundsWith, ToolsOf;
    LayersGraph(a, b);
    assert g.tools.Keys == RestFrom(a, b, 0);
    LayersPeel(g, a, b, 0);
    LayerTools(g, a, b);
    ProbeAndReset();
    hide RestFrom, LayeredGraph;
    LayerRounds(g, a, b, {PROBE, RESET});
  }

  lemma {:induction false} NoneShare(plans: seq<Plan>, pair: set<Tool>)
    requires forall i :: 0 <= i < |plans| ==> !ShowsParallel(plans[i], pair)
    ensures PlansSharing(plans, pair) == 0
  {
    hide ShowsParallel;
    if plans != [] {
      NoneShare(plans[..|plans| - 1], pair);
    }
  }

  lemma LayersNamed(a: seq<StepId>, b: seq<StepId>)
    ensures AllNamed(Layers(a, b))
  {
  }

  /** The job proposes a parallel pair at eight tenths that one plan in ten shows: the two tools meet in
      eight generations of one plan, and never in the other nine. */
  lemma ParallelFromOnePlan(others: seq<Plan>, a: seq<StepId>, b: seq<StepId>)
    requires |others| == 9 && AllSortable(others)
    requires forall i :: 0 <= i < 9 ==> !ShowsParallel(others[i], {PROBE, RESET})
    requires |a| == 8 && Columns(a, b)
    ensures var plans := others + [Layers(a, b)];
            ProposedParallel(plans, {PROBE, RESET}) && PlansSharing(plans, {PROBE, RESET}) == 1
  {
    hide Rounds, RoundsWith, ShowsParallel, Layers, Columns, ParallelMined, AllSortable, ProposedParallel;
    var plan, pair := Layers(a, b), {PROBE, RESET};
    var plans := others + [plan];
    LayersCount(a, b);
    RoundsWithMeans(plan, pair);
    NoneShare(others, pair);
    assert plans[..|plans| - 1] == others;
    ParallelCountIsMined(plans, pair);
    LayersNamed(a, b);
    NamedWitness(others, plan);
    MinedIsProposed(plans, (PROBE, RESET), pair);
  }

  lemma ParallelCountIsMined(plans: seq<Plan>, pair: set<Tool>)
    requires |plans| == 10 && ParallelCount(plans, pair) >= 8
    ensures ParallelMined(plans, pair)
  {
    var r := SoftParallel(pair, Rounded(Frequency(ParallelCount(plans, pair), 10)), 10);
    assert ParallelCandidate(plans, 0.8, r);
  }
}
