/** Rings of orderings: from how many plans a job can mine one of which length. */
module RuleRings {
  import opened Wrappers
  import opened PlanGraph
  import opened PatternMining
  import opened MiningLaws
  import opened MiningLimits

  /** Each step uses the tool of its own name and depends on the step before it. */
  function ChainPlan(r: seq<StepId>): Plan {
    seq(|r|, j requires 0 <= j < |r| => PlanStep(r[j], Some(r[j]), if j == 0 then [] else [r[j - 1]]))
  }

  lemma {:induction false} OwnNameTools(plan: Plan)
    requires forall i :: 0 <= i < |plan| ==> plan[i].tool == Some(plan[i].id)
    ensures forall id :: id in ToolMap(plan) ==> ToolMap(plan)[id] == Some(id)
  {
    if plan != [] {
      OwnNameTools(plan[..|plan| - 1]);
    }
  }

  lemma {:induction false} ChainPlanTools(r: seq<StepId>)
    ensures forall id :: id in ToolMap(ChainPlan(r)) ==> ToolMap(ChainPlan(r))[id] == Some(id)
    ensures forall j :: 0 <= j < |r| ==> r[j] in ToolMap(ChainPlan(r))
  {
    var plan := ChainPlan(r);
    OwnNameTools(plan);
    hide ToolMap;
    forall j | 0 <= j < |r| ensures r[j] in ToolMap(plan) {
      assert plan[j] in plan && plan[j].id == r[j];
    }
  }

  /** The only dependency of a step of the chain is the element before it. */
  lemma ChainPlanEdge(r: seq<StepId>, ids: set<StepId>, e: (StepId, StepId)) returns (j: nat)
    requires e in Edges(ChainPlan(r), ids)
    ensures 0 < j < |r| && e.0 == r[j - 1] && e.1 == r[j]
  {
    var plan := ChainPlan(r);
    var s, d :| s in plan && d in s.dependencies && d in ids && e == (d, s.id);
    j :| 0 <= j < |plan| && plan[j] == s;
  }

  lemma ChainPlanAlong(r: seq<StepId>)
    ensures AlongChain(GraphOf(ChainPlan(r)), r)
  {
    var g := GraphOf(ChainPlan(r));
    assert g.edges == Edges(ChainPlan(r), ToolMap(ChainPlan(r)).Keys);
    hide GraphOf, Edges, ToolMap, ChainPlan;
    forall e | e in g.edges ensures exists j :: 0 < j < |r| && e.0 == r[j - 1] && e.1 == r[j] {
      var j := ChainPlanEdge(r, ToolMap(ChainPlan(r)).Keys, e);
    }
  }

  lemma ChainPlanLink(r: seq<StepId>, j: nat)
    requires 0 < j < |r|
    ensures (r[j - 1], r[j]) in GraphOf(ChainPlan(r)).edges
  {
    var plan := ChainPlan(r);
    ChainPlanTools(r);
    assert plan[j].dependencies[0] == r[j - 1] && plan[j].id == r[j];
    hide GraphOf, Edges, ToolMap;
    EdgeIn(plan, j, r[j - 1]);
  }

  /** A chain of different names is a sound plan: its graph has no cycle, and each tool is used once. */
  lemma {:induction false} ChainPlanSound(r: seq<StepId>)
    requires NoRepeats(r)
    ensures Sound(ChainPlan(r))
  {
    var g := GraphOf(ChainPlan(r));
    assert g.tools == ToolMap(ChainPlan(r));
    ChainPlanTools(r);
    ChainPlanAlong(r);
    hide GraphOf, ToolMap, ChainPlan, AlongChain;
    ChainAcyclic(r, g);
  }

  lemma ChainPlanOrders(r: seq<StepId>, j: nat)
    requires NoRepeats(r) && "" !in r && 0 < j < |r|
    ensures OrderIn(ChainPlan(r), (Some(r[j - 1]), Some(r[j]))) >= 1
  {
    var g := GraphOf(ChainPlan(r));
    assert g.tools == ToolMap(ChainPlan(r));
    ChainPlanTools(r);
    ChainPlanLink(r, j);
    hide GraphOf, ToolMap, ChainPlan, OrderIn;
    EdgeCounts(ChainPlan(r), r[j - 1], r[j], (Some(r[j - 1]), Some(r[j])));
  }

  function Rotation(names: seq<StepId>, i: nat): seq<StepId>
    requires i <= |names|
  {
    names[i..] + names[..i]
  }

  function Tools(names: seq<StepId>): seq<Tool> {
    seq(|names|, i requires 0 <= i < |names| => Some(names[i]))
  }

  lemma RotationNext(names: seq<StepId>, i: nat, j: nat) returns (at: nat)
    requires i < |names| && j < |names|
    requires i != if j + 1 < |names| then j + 1 else 0
    ensures at + 1 < |names|
    ensures Rotation(names, i)[at] == names[j]
    ensures Rotation(names, i)[at + 1] == names[if j + 1 < |names| then j + 1 else 0]
  {
    at := if j >= i then j - i else j - i + |names|;
  }

  /** The rule from name j to the next is shown by every rotation except the one starting between them. */
  lemma RotationShows(names: seq<StepId>, i: nat, j: nat)
    requires NoRepeats(names) && "" !in names && i < |names| && j < |names|
    requires i != if j + 1 < |names| then j + 1 else 0
    ensures OrderIn(ChainPlan(Rotation(names, i)), Links(Tools(names))[j]) >= 1
  {
    RotationNoRepeats(names, i);
    var at := RotationNext(names, i, j);
    var r := Rotation(names, i);
    assert Links(Tools(names))[j] == (Some(r[at]), Some(r[at + 1]));
    hide OrderIn, ChainPlan, Rotation, Links, Tools, NoRepeats;
    ChainPlanOrders(r, at + 1);
  }

  lemma RotationNoRepeats(names: seq<StepId>, i: nat)
    requires NoRepeats(names) && "" !in names && i <= |names|
    ensures NoRepeats(Rotation(names, i)) && "" !in Rotation(names, i)
  {
    var r := Rotation(names, i);
    forall a, b | 0 <= a < b < |r| ensures r[a] != r[b] {
      var tail := |names| - i;
      var a', b' := if a < tail then a + i else a - tail, if b < tail then b + i else b - tail;
      assert r[a] == names[a'] && r[b] == names[b'] && a' != b';
    }
  }

  /** The i-th of k turns, taken round and round. */
  function Turn(i: nat, k: nat): (m: nat)
    requires k > 0
    ensures m < k
  {
    if i < k then i else Turn(i - k, k)
  }

  /** n plans, each the ring of tools cut open at another place, in turn. */
  function RoundRobin(names: seq<StepId>, n: nat): seq<Plan>
    requires names != []
  {
    seq(n, i requires 0 <= i < n => ChainPlan(Rotation(names, Turn(i, |names|))))
  }

  /** How many of the first n turns are m. */
  function Misses(n: int, k: nat, m: nat): nat
    requires k > 0
    decreases if n > m then n - m else 0
  {
    if n <= m then 0 else 1 + Misses(n - k, k, m)
  }

  lemma {:induction false} MissesNext(n: nat, k: nat, m: nat)
    requires m < k
    ensures Misses(n + 1, k, m) == Misses(n, k, m) + if Turn(n, k) == m then 1 else 0
  {
    if n >= k {
      MissesNext(n - k, k, m);
    }
  }

  /** No turn comes more than its share, rounded up. */
  lemma {:induction false} MissesBound(n: int, k: nat, m: nat)
    requires k > 0 && n > 0
    ensures k * Misses(n, k, m) <= n + k - 1
    decreases n
  {
    if n > m && n - k > m {
      MissesBound(n - k, k, m);
      AddOne(k, Misses(n - k, k, m));
    } else if n > m {
      assert Misses(n - k, k, m) == 0;
    }
  }

  function NextIndex(names: seq<StepId>, j: nat): nat {
    if j + 1 < |names| then j + 1 else 0
  }

  /** Only the plans cut open at link j miss its rule. */
  lemma {:induction false} RingCount(names: seq<StepId>, n: nat, j: nat)
    requires NoRepeats(names) && "" !in names && j < |names|
    ensures OrderCount(RoundRobin(names, n), Links(Tools(names))[j]) >=
            n - Misses(n, |names|, NextIndex(names, j))
  {
    hide OrderIn, Links, Tools, ChainPlan, Rotation, Turn;
    if n > 0 {
      RingCount(names, n - 1, j);
      var plans, k := RoundRobin(names, n), |names|;
      assert plans[..n - 1] == RoundRobin(names, n - 1);
      MissesNext(n - 1, k, NextIndex(names, j));
      if Turn(n - 1, k) != NextIndex(names, j) {
        RotationShows(names, Turn(n - 1, k), j);
      }
    }
  }

  lemma {:induction false} RingSound(names: seq<StepId>, n: nat)
    requires NoRepeats(names) && "" !in names && names != []
    ensures AllSound(RoundRobin(names, n))
    ensures forall i :: 0 <= i < n ==> AllNamed(RoundRobin(names, n)[i])
  {
    hide Sound;
    forall i | 0 <= i < n ensures Sound(RoundRobin(names, n)[i]) {
      RotationNoRepeats(names, Turn(i, |names|));
      ChainPlanSound(Rotation(names, Turn(i, |names|)));
    }
  }

  lemma {:induction false} ShareBound(k: nat, misses: nat, spare: nat, n: nat)
    requires k * misses <= n + k - 1 && k * spare >= n
    ensures misses <= spare
  {
    assert k * misses == k * spare + (misses - spare) * k;
    if misses > spare {
      MoreTimes(1, misses - spare, k);
    }
  }

  /** Where the plans have room to miss each rule of the ring in turn, all of it is mined. */
  lemma {:induction false} RingMined(names: seq<StepId>, n: nat)
    requires NoRepeats(names) && "" !in names && names != [] && n > 0
    requires |names| * (n - NineTenths(n)) >= n
    ensures RuleCycle(RoundRobin(names, n), Tools(names))
  {
    hide OrderCount, OrderingMined, Links;
    var plans, ks, k := RoundRobin(names, n), Links(Tools(names)), |names|;
    forall j | 0 <= j < k ensures OrderingMined(plans, ks[j]) {
      var m := NextIndex(names, j);
      RingCount(names, n, j);
      MissesBound(n, k, m);
      ShareBound(k, Misses(n, k, m), n - NineTenths(n), n);
      CountIsMined(plans, ks[j]);
    }
  }

  /** The bound on rings of orderings is exact: n sound plans can give a ring of the k tools exactly
      when k * (n - q) >= n, where q is the least count that is mined. */
  lemma {:induction false} RingExactly(names: seq<StepId>, n: nat)
    requires NoRepeats(names) && "" !in names && n > 0
    ensures (exists plans: seq<Plan> :: |plans| == n && AllSound(plans) && RuleCycle(plans, Tools(names))) <==>
            |names| * (n - NineTenths(n)) >= n
  {
    hide AllSound, RuleCycle;
    if plans: seq<Plan> :| |plans| == n && AllSound(plans) && RuleCycle(plans, Tools(names)) {
      NoShortRuleCycle(plans, Tools(names));
    }
    if |names| * (n - NineTenths(n)) >= n {
      assert names != [];
      RingMined(names, n);
      RingSound(names, n);
      assert |RoundRobin(names, n)| == n;
    }
  }

  /** So one batch of ten sound plans can make the job propose a ring of ten orderings. */
  lemma TenRuleCycle(names: seq<StepId>)
    requires |names| == 10 && NoRepeats(names) && "" !in names
    ensures AllSound(RoundRobin(names, 10)) && |RoundRobin(names, 10)| == 10
    ensures forall j :: 0 <= j < 10 ==> Proposed(RoundRobin(names, 10), Links(Tools(names))[j])
  {
    hide AllSound, OrderingMined, Proposed, Links, Rounds;
    var plans := RoundRobin(names, 10);
    RingSound(names, 10);
    RingMined(names, 10);
    forall i | 0 <= i < 10 ensures RoundsSortable(Rounds(plans[i])) {
      NamedSortable(plans[i]);
    }
    forall j | 0 <= j < 10 ensures Proposed(plans, Links(Tools(names))[j]) {
      MinedIsProposed(plans, Links(Tools(names))[j], {});
    }
  }
}
