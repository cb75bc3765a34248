/** What a reported frequency says about the share of plans that show the rule.

    The extractors promise rules seen in at least a given share of the plans, and count pairs of
    steps and rounds. Here a plan shows a rule through its steps, whatever the extractors count. */
module MiningShares {
  import opened Wrappers
  import opened PlanGraph
  import opened PatternMining
  import opened MiningLaws

  // ---- Orderings ----

  /** Step u uses the first tool, step v the second, and v depends on u. */
  ghost predicate Precedes(plan: Plan, k: Pair, u: StepId, v: StepId) {
    var g := GraphOf(plan);
    u in g.tools && v in g.tools && g.tools[u] == k.0 && g.tools[v] == k.1 && Reach(g, u, v)
  }

  /** Two tools with different, non-empty names. */
  predicate TwoNames(k: Pair) {
    match k
    case (Some(a), Some(b)) => a != "" && b != "" && a != b
    case _ => false
  }

  ghost predicate ShowsOrdering(plan: Plan, k: Pair) {
    TwoNames(k) && exists u, v :: Precedes(plan, k, u, v)
  }

  /** The plan does not show the ordering through two pairs of steps. */
  ghost predicate OrderedOnce(plan: Plan, k: Pair) {
    TwoNames(k) ==>
      forall u, v, x, y :: Precedes(plan, k, u, v) && Precedes(plan, k, x, y) ==> u == x && v == y
  }

  ghost function PlansShowing(plans: seq<Plan>, k: Pair): nat {
    if plans == [] then 0
    else PlansShowing(plans[..|plans| - 1], k) + if ShowsOrdering(plans[|plans| - 1], k) then 1 else 0
  }

  lemma TwoInSet<T>(s: set<T>, x: T, y: T)
    requires x in s && y in s && x != y
    ensures |s| >= 2
  {
    assert |s - {x} - {y}| == |s| - 2;
  }

  /** What the count of one plan says about its steps. */
  lemma OrderInMeans(plan: Plan, k: Pair)
    ensures OrderIn(plan, k) > 0 <==> ShowsOrdering(plan, k)
    ensures OrderIn(plan, k) <= 1 <==> OrderedOnce(plan, k)
  {
    var s := OrderPairs(GraphOf(plan), k);
    forall u, v ensures (u, v) in s <==> Precedes(plan, k, u, v) {
    }
    if e :| e in s {
      assert Precedes(plan, k, e.0, e.1);
    }
    if OrderedOnce(plan, k) && TwoNames(k) {
      forall e, f | e in s && f in s ensures e == f {
        assert Precedes(plan, k, e.0, e.1) && Precedes(plan, k, f.0, f.1);
      }
      AtMostOne(s);
    }
    if OrderIn(plan, k) <= 1 && TwoNames(k) {
      forall u, v, x, y | Precedes(plan, k, u, v) && Precedes(plan, k, x, y) ensures u == x && v == y {
        if (u, v) != (x, y) {
          TwoInSet(s, (u, v), (x, y));
        }
      }
    }
  }

  /** A plan is counted for two names exactly when a step that uses the one precedes, by dependencies, a
      step that uses the other. */
  lemma OrderInExactly(plan: Plan, a: string, b: string)
    requires a != "" && b != "" && a != b
    ensures OrderIn(plan, (Some(a), Some(b))) > 0 <==>
            exists u, v :: Reach(GraphOf(plan), u, v)
                           && u in GraphOf(plan).tools && GraphOf(plan).tools[u] == Some(a)
                           && v in GraphOf(plan).tools && GraphOf(plan).tools[v] == Some(b)
  {
    hide OrderIn;
    var k := (Some(a), Some(b));
    OrderInMeans(plan, k);
    if u, v :| Reach(GraphOf(plan), u, v) && u in GraphOf(plan).tools && GraphOf(plan).tools[u] == Some(a)
               && v in GraphOf(plan).tools && GraphOf(plan).tools[v] == Some(b) {
      assert Precedes(plan, k, u, v);
    }
  }

  /** Over any plans and at any threshold, an ordering is between two different non-empty names, and some
      plan shows it. */
  lemma CandidatesAreShown(plans: seq<Plan>, minFrequency: real, c: Candidate)
    requires OrderingCandidate(plans, minFrequency, c)
    ensures TwoNames((c.before, c.after)) && c.sampleSize == |plans|
    ensures exists i :: 0 <= i < |plans| && ShowsOrdering(plans[i], (c.before, c.after))
  {
    hide ShowsOrdering, OrderIn;
    var i := CountedSomewhere(plans, (c.before, c.after));
    OrderInMeans(plans[i], (c.before, c.after));
    ShownNames(plans[i], (c.before, c.after));
  }

  lemma ShownNames(plan: Plan, k: Pair)
    requires ShowsOrdering(plan, k)
    ensures TwoNames(k)
  {
  }

  lemma {:induction false} CountedSomewhere(plans: seq<Plan>, k: Pair) returns (i: nat)
    requires OrderCount(plans, k) > 0
    ensures i < |plans| && OrderIn(plans[i], k) > 0
  {
    hide OrderIn;
    var last := |plans| - 1;
    if OrderIn(plans[last], k) > 0 {
      i := last;
    } else {
      i := CountedSomewhere(plans[..last], k);
    }
  }

  /** The count is at least the number of plans that show the ordering, and equal to it exactly when
      each plan shows it through at most one pair of steps. */
  lemma {:induction false} OrderingIsShareOfPlans(plans: seq<Plan>, k: Pair)
    ensures OrderCount(plans, k) >= PlansShowing(plans, k)
    ensures OrderCount(plans, k) == PlansShowing(plans, k) <==>
            forall i :: 0 <= i < |plans| ==> OrderedOnce(plans[i], k)
  {
    hide OrderIn, OrderedOnce, ShowsOrdering;
    if plans != [] {
      var front, last := plans[..|plans| - 1], plans[|plans| - 1];
      OrderingIsShareOfPlans(front, k);
      OrderInMeans(last, k);
      assert forall i :: 0 <= i < |front| ==> plans[i] == front[i];
    }
  }

  /** The documented promise for k: whatever the threshold, a candidate is seen in that share. */
  ghost predicate OrderingPromise(plans: seq<Plan>, k: Pair) {
    forall minFrequency, c :: OrderingCandidate(plans, minFrequency, c) && c.before == k.0 && c.after == k.1 ==>
      Frequency(PlansShowing(plans, k), |plans|) >= minFrequency
  }

  lemma MoreIsMoreFrequent(a: nat, b: nat, n: nat)
    requires n > 0
    ensures a < b <==> Frequency(a, n) < Frequency(b, n)
  {
    assert Frequency(a, n) * n as real == a as real && Frequency(b, n) * n as real == b as real;
  }

  /** The promise is kept exactly when no plan shows the ordering through two pairs of steps. */
  lemma OrderingPromiseExactly(plans: seq<Plan>, k: Pair)
    ensures OrderingPromise(plans, k) <==> forall i :: 0 <= i < |plans| ==> OrderedOnce(plans[i], k)
  {
    hide OrderedOnce, PlansShowing;
    OrderingIsShareOfPlans(plans, k);
    var count, share := OrderCount(plans, k), PlansShowing(plans, k);
    assert k == (k.0, k.1);
    if count > share {
      assert plans != [];
      var f := Frequency(count, |plans|);
      assert OrderingCandidate(plans, f, HardOrdering(k.0, k.1, Rounded(f), |plans|));
      MoreIsMoreFrequent(share, count, |plans|);
    }
  }

  // ---- Parallel pairs ----

  /** Steps of generation i use all the tools of the pair. */
  ghost predicate SharesGeneration(plan: Plan, pair: set<Tool>, i: nat) {
    var g := GraphOf(plan);
    && |pair| == 2 && i < |Generations(g)|
    && forall t :: t in pair ==> exists n :: n in Generations(g)[i] && n in g.tools && g.tools[n] == t
  }

  ghost predicate ShowsParallel(plan: Plan, pair: set<Tool>) {
    exists i: nat :: SharesGeneration(plan, pair, i)
  }

  /** The two tools do not meet in two generations of the plan. */
  ghost predicate ParallelAtMostOnce(plan: Plan, pair: set<Tool>) {
    forall i: nat, j: nat :: SharesGeneration(plan, pair, i) && SharesGeneration(plan, pair, j) ==> i == j
  }

  ghost function PlansSharing(plans: seq<Plan>, pair: set<Tool>): nat {
    if plans == [] then 0
    else PlansSharing(plans[..|plans| - 1], pair) + if ShowsParallel(plans[|plans| - 1], pair) then 1 else 0
  }

  predicate RoundHas(rounds: seq<set<Tool>>, pair: set<Tool>, i: nat) {
    i < |rounds| && |pair| == 2 && pair <= rounds[i]
  }

  lemma {:induction false} RoundsWithSome(rounds: seq<set<Tool>>, pair: set<Tool>, i: nat)
    requires RoundHas(rounds, pair, i)
    ensures RoundsWith(rounds, pair) >= 1
  {
    if i < |rounds| - 1 {
      RoundsWithSome(rounds[..|rounds| - 1], pair, i);
    }
  }

  lemma {:induction false} RoundsWithTwo(rounds: seq<set<Tool>>, pair: set<Tool>, i: nat, j: nat)
    requires i < j && RoundHas(rounds, pair, i) && RoundHas(rounds, pair, j)
    ensures RoundsWith(rounds, pair) >= 2
  {
    var front := rounds[..|rounds| - 1];
    if j < |rounds| - 1 {
      RoundsWithTwo(front, pair, i, j);
    } else {
      RoundsWithSome(front, pair, i);
    }
  }

  lemma RoundsWithAtMostOne(rounds: seq<set<Tool>>, pair: set<Tool>)
    ensures RoundsWith(rounds, pair) > 0 <==> exists i: nat :: RoundHas(rounds, pair, i)
    ensures RoundsWith(rounds, pair) <= 1 <==>
            forall i: nat, j: nat :: RoundHas(rounds, pair, i) && RoundHas(rounds, pair, j) ==> i == j
  {
    if RoundsWith(rounds, pair) > 0 {
      var i := RoundWitness(rounds, pair);
      assert RoundHas(rounds, pair, i);
    }
    if i: nat :| RoundHas(rounds, pair, i) {
      RoundsWithSome(rounds, pair, i);
    }
    if i: nat, j: nat :| RoundHas(rounds, pair, i) && RoundHas(rounds, pair, j) && i != j {
      RoundsWithTwo(rounds, pair, if i < j then i else j, if i < j then j else i);
    } else if |pair| == 2 {
      forall i, j | 0 <= i < j < |rounds| ensures !(pair <= rounds[i] && pair <= rounds[j]) {
        assert RoundHas(rounds, pair, i) && RoundHas(rounds, pair, j) ==> i == j;
      }
      RoundsWithOnce(rounds, pair);
    }
  }

  lemma SharesGenerationMeans(plan: Plan, pair: set<Tool>)
    ensures forall i: nat :: SharesGeneration(plan, pair, i) <==> RoundHas(Rounds(plan), pair, i)
  {
  }

  /** What the count of one plan says about its generations. */
  lemma RoundsWithMeans(plan: Plan, pair: set<Tool>)
    ensures RoundsWith(Rounds(plan), pair) > 0 <==> ShowsParallel(plan, pair)
    ensures RoundsWith(Rounds(plan), pair) <= 1 <==> ParallelAtMostOnce(plan, pair)
  {
    SharesGenerationMeans(plan, pair);
    hide SharesGeneration, RoundHas, Rounds, RoundsWith;
    RoundsWithAtMostOne(Rounds(plan), pair);
  }

  /** The same for parallel pairs: one generation of each plan at most. */
  lemma {:induction false} ParallelIsShareOfPlans(plans: seq<Plan>, pair: set<Tool>)
    ensures ParallelCount(plans, pair) >= PlansSharing(plans, pair)
    ensures ParallelCount(plans, pair) == PlansSharing(plans, pair) <==>
            forall i :: 0 <= i < |plans| ==> ParallelAtMostOnce(plans[i], pair)
  {
    hide Rounds, RoundsWith, ParallelAtMostOnce, ShowsParallel;
    if plans != [] {
      var front, last := plans[..|plans| - 1], plans[|plans| - 1];
      ParallelIsShareOfPlans(front, pair);
      RoundsWithMeans(last, pair);
      assert forall i :: 0 <= i < |front| ==> plans[i] == front[i];
    }
  }

  ghost predicate ParallelPromise(plans: seq<Plan>, pair: set<Tool>) {
    forall minFrequency, c :: ParallelCandidate(plans, minFrequency, c) && c.tools == pair ==>
      Frequency(PlansSharing(plans, pair), |plans|) >= minFrequency
  }

  /** The promise is kept exactly when the two tools meet at most once in each plan. */
  lemma ParallelPromiseExactly(plans: seq<Plan>, pair: set<Tool>)
    ensures ParallelPromise(plans, pair) <==> forall i :: 0 <= i < |plans| ==> ParallelAtMostOnce(plans[i], pair)
  {
    hide ParallelAtMostOnce, PlansSharing;
    ParallelIsShareOfPlans(plans, pair);
    var count, share := ParallelCount(plans, pair), PlansSharing(plans, pair);
    if count > share {
      assert plans != [];
      var f := Frequency(count, |plans|);
      assert ParallelCandidate(plans, f, SoftParallel(pair, Rounded(f), |plans|));
      MoreIsMoreFrequent(share, count, |plans|);
    }
  }

  // ---- What a caller can check ----

  /** At most one step of the plan uses the tool. */
  predicate UsedOnce(plan: Plan, t: Tool) {
    var tools := GraphOf(plan).tools;
    forall u, v :: u in tools && v in tools && tools[u] == t && tools[v] == t ==> u == v
  }

  lemma UsedOnceOrders(plan: Plan, k: Pair)
    requires UsedOnce(plan, k.0) && UsedOnce(plan, k.1)
    ensures OrderedOnce(plan, k)
  {
  }

  lemma UsedOnceShares(plan: Plan, pair: set<Tool>, t: Tool)
    requires t in pair && UsedOnce(plan, t)
    ensures ParallelAtMostOnce(plan, pair)
  {
    var g := GraphOf(plan);
    PeelShape(g, g.tools.Keys);
    var gs := Generations(g);
    forall i: nat, j: nat | SharesGeneration(plan, pair, i) && SharesGeneration(plan, pair, j) ensures i == j {
      var u :| u in gs[i] && u in g.tools && g.tools[u] == t;
      var v :| v in gs[j] && v in g.tools && g.tools[v] == t;
      assert u == v;
      assert u in gs[i] * gs[j] && u in gs[j] * gs[i];
    }
  }

  /** Both promises are kept where no plan repeats a tool of the rule; for a parallel pair it is
      enough that one of the two is not repeated. */
  lemma PromisesKept(plans: seq<Plan>, k: Pair, pair: set<Tool>, t: Tool)
    ensures (forall i :: 0 <= i < |plans| ==> UsedOnce(plans[i], k.0) && UsedOnce(plans[i], k.1)) ==>
              OrderingPromise(plans, k)
    ensures t in pair && (forall i :: 0 <= i < |plans| ==> UsedOnce(plans[i], t)) ==> ParallelPromise(plans, pair)
  {
    hide OrderingPromise, ParallelPromise;
    OrderingPromiseExactly(plans, k);
    ParallelPromiseExactly(plans, pair);
    hide UsedOnce, OrderedOnce, ParallelAtMostOnce;
    if forall i :: 0 <= i < |plans| ==> UsedOnce(plans[i], k.0) && UsedOnce(plans[i], k.1) {
      forall i | 0 <= i < |plans| ensures OrderedOnce(plans[i], k) {
        UsedOnceOrders(plans[i], k);
      }
    }
    if t in pair && forall i :: 0 <= i < |plans| ==> UsedOnce(plans[i], t) {
      forall i | 0 <= i < |plans| ensures ParallelAtMostOnce(plans[i], pair) {
        UsedOnceShares(plans[i], pair, t);
      }
    }
  }
}
