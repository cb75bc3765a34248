/** Mining ordering and parallelism rules from the plans of past runs. */
module PatternMining {
  import opened Wrappers
  import opened PlanGraph

  /** (before, after) */
  type Pair = (Tool, Tool)

  datatype Candidate =
    | HardOrdering(before: Tool, after: Tool, frequency: real, sampleSize: nat)
    | SoftParallel(tools: set<Tool>, frequency: real, sampleSize: nat)

  // ---- Counts ----

  /** Missing and empty tool names are not paired, and neither is a tool with itself. */
  predicate Pairable(k: Pair) {
    k.0.Some? && k.0.value != "" && k.1.Some? && k.1.value != "" && k.0 != k.1
  }

  predicate Joins(g: Graph, e: (StepId, StepId), k: Pair) {
    e.0 in g.tools && e.1 in g.tools && g.tools[e.0] == k.0 && g.tools[e.1] == k.1
  }

  /** The pairs of steps, not of tools, in which a step of k.0 precedes a step of k.1. */
  ghost function OrderPairs(g: Graph, k: Pair): set<(StepId, StepId)> {
    set u, v | u in g.tools && v in g.tools && Reach(g, u, v) && Joins(g, (u, v), k) :: (u, v)
  }

  ghost function OrderIn(plan: Plan, k: Pair): nat {
    if Pairable(k) then |OrderPairs(GraphOf(plan), k)| else 0
  }

  ghost function OrderCount(plans: seq<Plan>, k: Pair): nat {
    if plans == [] then 0 else OrderCount(plans[..|plans| - 1], k) + OrderIn(plans[|plans| - 1], k)
  }

  /** The rounds that contain both tools of a two-element set. */
  ghost function RoundsWith(rounds: seq<set<Tool>>, pair: set<Tool>): nat {
    if rounds == [] then 0
    else RoundsWith(rounds[..|rounds| - 1], pair)
         + if |pair| == 2 && pair <= rounds[|rounds| - 1] then 1 else 0
  }

  ghost function ParallelCount(plans: seq<Plan>, pair: set<Tool>): nat {
    if plans == [] then 0
    else ParallelCount(plans[..|plans| - 1], pair) + RoundsWith(Rounds(plans[|plans| - 1]), pair)
  }

  function Frequency(count: nat, n: nat): real
    requires n > 0
  {
    count as real / n as real
  }

  /** Rounding to four digits, ties to even, as the candidates report it. */
  function Rounded(x: real): (r: real)
    ensures x - 0.00005 <= r <= x + 0.00005
    ensures x <= 1.0 ==> r <= 1.0
  {
    var y := x * 10000.0;
    var down := y.Floor;
    var rest := y - down as real;
    (if rest < 0.5 || (rest == 0.5 && down % 2 == 0) then down else down + 1) as real / 10000.0
  }

  /** Half way between two multiples, the even one is reported. */
  lemma RoundedTie(m: int)
    ensures Rounded((m as real + 0.5) / 10000.0) == (if m % 2 == 0 then m else m + 1) as real / 10000.0
  {
    var y := (m as real + 0.5) / 10000.0 * 10000.0;
    assert y == m as real + 0.5 && y.Floor == m;
  }

  /** In a sample whose size divides 10000, as the job's batch of ten does, nothing is rounded off. */
  lemma RoundedExact(count: nat, n: nat)
    requires n > 0 && 10000 % n == 0
    ensures Rounded(Frequency(count, n)) == Frequency(count, n)
  {
    var m := 10000 / n;
    assert n as real * m as real == 10000.0;
    assert Frequency(count, n) * 10000.0 == (count * m) as real by {
      assert Frequency(count, n) * n as real == count as real;
      assert Frequency(count, n) * (n as real * m as real) == Frequency(count, n) * n as real * m as real;
    }
  }

  /** The reported frequency is the count's share of the n plans, to four digits. */
  predicate Near(frequency: real, count: nat, n: nat) {
    n > 0 && frequency - 0.00005 <= count as real / n as real <= frequency + 0.00005
  }

  ghost predicate OrderingCandidate(plans: seq<Plan>, minFrequency: real, c: Candidate) {
    && c.HardOrdering? && plans != [] && c.sampleSize == |plans|
    && 0 < OrderCount(plans, (c.before, c.after))
    && c.frequency == Rounded(Frequency(OrderCount(plans, (c.before, c.after)), |plans|))
    && Frequency(OrderCount(plans, (c.before, c.after)), |plans|) >= minFrequency
  }

  ghost predicate ParallelCandidate(plans: seq<Plan>, minFrequency: real, c: Candidate) {
    && c.SoftParallel? && plans != [] && c.sampleSize == |plans|
    && 0 < ParallelCount(plans, c.tools)
    && c.frequency == Rounded(Frequency(ParallelCount(plans, c.tools), |plans|))
    && Frequency(ParallelCount(plans, c.tools), |plans|) >= minFrequency
  }

  /** A round with a missing name beside another name cannot be sorted. */
  predicate Sortable(round: set<Tool>) {
    |round| < 2 || None !in round
  }

  predicate RoundsSortable(rounds: seq<set<Tool>>) {
    forall j :: 0 <= j < |rounds| ==> Sortable(rounds[j])
  }

  /** The rounds of a plan cannot be sorted exactly when some generation has a step without a tool name
      beside a step with one. */
  lemma UnsortableExactly(plan: Plan)
    ensures !RoundsSortable(Rounds(plan)) <==>
            exists i: nat, u, v :: SharesUnnamed(plan, i, u, v)
  {
    var g, rounds := GraphOf(plan), Rounds(plan);
    if j :| 0 <= j < |rounds| && !Sortable(rounds[j]) {
      var t := OtherTool(rounds[j]);
      var u :| u in Generations(g)[j] && u in g.tools && g.tools[u] == None;
      var v :| v in Generations(g)[j] && v in g.tools && g.tools[v] == t;
      assert SharesUnnamed(plan, j, u, v);
    }
    if i: nat, u, v :| SharesUnnamed(plan, i, u, v) {
      assert g.tools[u] in rounds[i] && g.tools[v] in rounds[i];
      TwoMembers(rounds[i], g.tools[u], g.tools[v]);
    }
  }

  ghost predicate SharesUnnamed(plan: Plan, i: nat, u: StepId, v: StepId) {
    var g := GraphOf(plan);
    && i < |Generations(g)| && u in Generations(g)[i] && v in Generations(g)[i]
    && u in g.tools && g.tools[u].None? && v in g.tools && g.tools[v].Some?
  }

  lemma OtherTool(round: set<Tool>) returns (t: Tool)
    requires None in round && |round| >= 2
    ensures t in round && t.Some?
  {
    assert |round - {None}| == |round| - 1;
    t :| t in round - {None};
  }

  lemma TwoMembers(round: set<Tool>, a: Tool, b: Tool)
    requires a in round && b in round && a != b
    ensures |round| >= 2
  {
    assert |round - {a} - {b}| == |round| - 2;
  }

  ghost predicate AllSortable(plans: seq<Plan>) {
    forall i :: 0 <= i < |plans| ==> RoundsSortable(Rounds(plans[i]))
  }

  // ---- The extractors ----

  function Get<K>(counts: map<K, nat>, k: K): nat {
    if k in counts then counts[k] else 0
  }

  ghost function Matching(g: Graph, seen: set<(StepId, StepId)>, k: Pair): set<(StepId, StepId)> {
    set e | e in seen && Joins(g, e, k)
  }

  ghost function Tally(g: Graph, seen: set<(StepId, StepId)>, k: Pair): nat {
    if Pairable(k) then |Matching(g, seen, k)| else 0
  }

  lemma TallyAdd(g: Graph, seen: set<(StepId, StepId)>, e: (StepId, StepId), k: Pair)
    requires e !in seen
    ensures Tally(g, seen + {e}, k) == Tally(g, seen, k) + if Pairable(k) && Joins(g, e, k) then 1 else 0
  {
    if Joins(g, e, k) {
      assert Matching(g, seen + {e}, k) == Matching(g, seen, k) + {e};
    } else {
      assert Matching(g, seen + {e}, k) == Matching(g, seen, k);
    }
  }

  lemma TallyIsOrderIn(plan: Plan, tc: set<(StepId, StepId)>, k: Pair)
    requires forall u, v :: (u, v) in tc <==> Reach(GraphOf(plan), u, v)
    ensures Tally(GraphOf(plan), tc, k) == OrderIn(plan, k)
  {
    var g := GraphOf(plan);
    forall e ensures e in Matching(g, tc, k) <==> e in OrderPairs(g, k) {
      assert e == (e.0, e.1);
    }
    assert Matching(g, tc, k) == OrderPairs(g, k);
  }

  method CountOrderings(plans: seq<Plan>) returns (counts: map<Pair, nat>)
    ensures forall k :: Get(counts, k) == OrderCount(plans, k)
    ensures forall k :: k in counts ==> counts[k] > 0
  {
    hide GraphOf, OrderIn, Reach;
    counts := map[];
    for i := 0 to |plans|
      invariant forall k :: Get(counts, k) == OrderCount(plans[..i], k)
      invariant forall k :: k in counts ==> counts[k] > 0
    {
      var g := BuildGraph(plans[i]);
      GraphOfClosed(plans[i]);
      var tc := TransitiveClosure(g);
      ghost var before := counts;
      ghost var seen := {};
      var todo := tc;
      while todo != {}
        invariant seen == tc - todo && todo <= tc
        invariant forall k :: Get(counts, k) == Get(before, k) + Tally(g, seen, k)
        invariant forall k :: k in counts ==> counts[k] > 0
      {
        var e :| e in todo;
        assert (e.0, e.1) in tc;
        ReachEndsInNodes(g, e.0, e.1);
        var key := (g.tools[e.0], g.tools[e.1]);
        ghost var last := counts;
        if Pairable(key) {
          counts := counts[key := Get(counts, key) + 1];
        }
        forall k ensures Get(counts, k) == Get(before, k) + Tally(g, seen + {e}, k) {
          TallyAdd(g, seen, e, k);
          assert Get(last, k) == Get(before, k) + Tally(g, seen, k);
          assert Joins(g, e, k) <==> k == key;
        }
        todo := todo - {e};
        seen := seen + {e};
      }
      assert seen == tc;
      forall k ensures Get(counts, k) == OrderCount(plans[..i + 1], k) {
        TallyIsOrderIn(plans[i], tc, k);
        assert plans[..i + 1][..i] == plans[..i];
      }
    }
    assert plans[..|plans|] == plans;
  }

  lemma {:induction false} CountedIsPairable(plans: seq<Plan>, k: Pair)
    requires OrderCount(plans, k) > 0
    ensures Pairable(k)
  {
    if OrderIn(plans[|plans| - 1], k) == 0 {
      CountedIsPairable(plans[..|plans| - 1], k);
    }
  }

  /** Exactly the tool pairs whose count reaches the frequency, each once; they have two different names. */
  method ExtractConsistentOrderings(plans: seq<Plan>, minFrequency: real) returns (results: seq<Candidate>)
    ensures forall c :: c in results <==> OrderingCandidate(plans, minFrequency, c)
    ensures forall c :: c in results ==>
              && c.HardOrdering? && c.sampleSize == |plans|
              && c.before.Some? && c.before.value != "" && c.after.Some? && c.after.value != "" && c.before != c.after
              && Near(c.frequency, OrderCount(plans, (c.before, c.after)), |plans|)
    ensures forall i, j :: 0 <= i < j < |results| ==> results[i] != results[j]
  {
    results := [];
    var n := |plans|;
    if n == 0 {
      return;
    }
    var counts := CountOrderings(plans);
    var todo := counts.Keys;
    while todo != {}
      invariant todo <= counts.Keys
      invariant forall c :: c in results <==>
                  OrderingCandidate(plans, minFrequency, c) && (c.before, c.after) in counts.Keys - todo
      invariant forall i, j :: 0 <= i < j < |results| ==> results[i] != results[j]
    {
      var k :| k in todo;
      assert k == (k.0, k.1) && Get(counts, k) == OrderCount(plans, k);
      var frequency := Frequency(counts[k], n);
      var found := HardOrdering(k.0, k.1, Rounded(frequency), n);
      assert found !in results;
      if frequency >= minFrequency {
        results := results + [found];
      }
      todo := todo - {k};
    }
    forall c | OrderingCandidate(plans, minFrequency, c)
      ensures (c.before, c.after) in counts.Keys && Pairable((c.before, c.after))
    {
      assert Get(counts, (c.before, c.after)) == OrderCount(plans, (c.before, c.after));
      CountedIsPairable(plans, (c.before, c.after));
    }
  }

  function PairsOf(round: set<Tool>): set<set<Tool>> {
    set a, b | a in round && b in round && a != b :: {a, b}
  }

  lemma PairsOfMeans(round: set<Tool>, pair: set<Tool>)
    ensures pair in PairsOf(round) <==> |pair| == 2 && pair <= round
  {
    if |pair| == 2 && pair <= round {
      var a :| a in pair;
      assert |pair - {a}| == 1;
      var b :| b in pair - {a};
      assert |pair - {a} - {b}| == 0;
      assert pair == {a, b};
    }
  }

  ghost predicate CountsParallel(counts: map<set<Tool>, nat>, plans: seq<Plan>) {
    && (forall k :: Get(counts, k) == ParallelCount(plans, k))
    && (forall k :: k in counts ==> counts[k] > 0)
  }

  lemma CountsNothing(counts: map<set<Tool>, nat>)
    requires counts == map[]
    ensures CountsParallel(counts, [])
  {
  }

  lemma CountsParallelPositive(counts: map<set<Tool>, nat>, plans: seq<Plan>)
    requires CountsParallel(counts, plans)
    ensures forall k :: k in counts ==> counts[k] > 0
  {
  }

  lemma CountsParallelSnoc(counts: map<set<Tool>, nat>, next: map<set<Tool>, nat>, plans: seq<Plan>, plan: Plan)
    requires CountsParallel(counts, plans)
    requires forall k :: Get(next, k) == Get(counts, k) + RoundsWith(Rounds(plan), k)
    requires forall k :: k in next ==> next[k] > 0
    ensures CountsParallel(next, plans + [plan])
  {
    assert (plans + [plan])[..|plans|] == plans;
  }

  /** Counts each pair of a round once; fails where sorting a round would raise. */
  method CountParallel(plans: seq<Plan>) returns (counts: Option<map<set<Tool>, nat>>)
    ensures counts.None? <==> !AllSortable(plans)
    ensures counts.Some? ==> CountsParallel(counts.value, plans)
  {
    hide Rounds, CountsParallel;
    var acc: map<set<Tool>, nat> := map[];
    CountsNothing(acc);
    for i := 0 to |plans|
      invariant forall j :: 0 <= j < i ==> RoundsSortable(Rounds(plans[j]))
      invariant CountsParallel(acc, plans[..i])
    {
      var rounds := GetParallelRounds(plans[i]);
      CountsParallelPositive(acc, plans[..i]);
      var next := CountRounds(acc, rounds);
      if next.None? {
        return None;
      }
      CountsParallelSnoc(acc, next.value, plans[..i], plans[i]);
      assert plans[..i + 1] == plans[..i] + [plans[i]];
      acc := next.value;
    }
    assert plans[..|plans|] == plans;
    return Some(acc);
  }

  method CountRounds(counts: map<set<Tool>, nat>, rounds: seq<set<Tool>>) returns (after: Option<map<set<Tool>, nat>>)
    requires forall k :: k in counts ==> counts[k] > 0
    ensures after.None? <==> !RoundsSortable(rounds)
    ensures after.Some? ==> forall k :: Get(after.value, k) == Get(counts, k) + RoundsWith(rounds, k)
    ensures after.Some? ==> forall k :: k in after.value ==> after.value[k] > 0
  {
    var acc := counts;
    for j := 0 to |rounds|
      invariant RoundsSortable(rounds[..j])
      invariant forall k :: Get(acc, k) == Get(counts, k) + RoundsWith(rounds[..j], k)
      invariant forall k :: k in acc ==> acc[k] > 0
    {
      if !Sortable(rounds[j]) {
        return None;
      }
      assert rounds[..j + 1][..j] == rounds[..j];
      acc := CountRound(acc, rounds[j]);
    }
    assert rounds[..|rounds|] == rounds;
    return Some(acc);
  }

  method CountRound(counts: map<set<Tool>, nat>, round: set<Tool>) returns (after: map<set<Tool>, nat>)
    requires forall k :: k in counts ==> counts[k] > 0
    ensures forall k :: Get(after, k) == Get(counts, k) + if |k| == 2 && k <= round then 1 else 0
    ensures forall k :: k in after ==> after[k] > 0
  {
    after := counts;
    var todo := PairsOf(round);
    while todo != {}
      invariant todo <= PairsOf(round)
      invariant forall k :: Get(after, k) == Get(counts, k) + if k in PairsOf(round) - todo then 1 else 0
      invariant forall k :: k in after ==> after[k] > 0
    {
      var pair :| pair in todo;
      after := after[pair := Get(after, pair) + 1];
      todo := todo - {pair};
    }
    forall k ensures k in PairsOf(round) <==> |k| == 2 && k <= round {
      PairsOfMeans(round, k);
    }
  }

  lemma {:induction false} RoundsWithPair(rounds: seq<set<Tool>>, pair: set<Tool>)
    requires RoundsWith(rounds, pair) > 0
    ensures |pair| == 2
  {
    if |pair| != 2 {
      RoundsWithPair(rounds[..|rounds| - 1], pair);
    }
  }

  lemma {:induction false} CountedIsPair(plans: seq<Plan>, pair: set<Tool>)
    requires ParallelCount(plans, pair) > 0
    ensures |pair| == 2
  {
    hide Rounds;
    if RoundsWith(Rounds(plans[|plans| - 1]), pair) > 0 {
      RoundsWithPair(Rounds(plans[|plans| - 1]), pair);
    } else {
      CountedIsPair(plans[..|plans| - 1], pair);
    }
  }

  /** Exactly the pairs that meet often enough, each once; fails where sorting a round would raise. */
  method ExtractParallelPatterns(plans: seq<Plan>, minFrequency: real) returns (results: Option<seq<Candidate>>)
    ensures results.None? <==> !AllSortable(plans)
    ensures results.Some? ==> forall c :: c in results.value <==> ParallelCandidate(plans, minFrequency, c)
    ensures results.Some? ==> forall c :: c in results.value ==>
              && c.SoftParallel? && c.sampleSize == |plans| && |c.tools| == 2
              && Near(c.frequency, ParallelCount(plans, c.tools), |plans|)
    ensures results.Some? ==> forall i, j :: 0 <= i < j < |results.value| ==> results.value[i] != results.value[j]
  {
    var n := |plans|;
    if n == 0 {
      return Some([]);
    }
    var counted := CountParallel(plans);
    if counted.None? {
      return None;
    }
    var counts := counted.value;
    var found: seq<Candidate> := [];
    var todo := counts.Keys;
    while todo != {}
      invariant todo <= counts.Keys
      invariant forall c :: c in found <==>
                  ParallelCandidate(plans, minFrequency, c) && c.tools in counts.Keys - todo
      invariant forall i, j :: 0 <= i < j < |found| ==> found[i] != found[j]
    {
      var k :| k in todo;
      assert Get(counts, k) == ParallelCount(plans, k);
      var frequency := Frequency(counts[k], n);
      var c := SoftParallel(k, Rounded(frequency), n);
      assert c !in found;
      if frequency >= minFrequency {
        found := found + [c];
      }
      todo := todo - {k};
    }
    forall c | ParallelCandidate(plans, minFrequency, c) ensures c.tools in counts.Keys && |c.tools| == 2 {
      assert Get(counts, c.tools) == ParallelCount(plans, c.tools);
      CountedIsPair(plans, c.tools);
    }
    return Some(found);
  }
}
