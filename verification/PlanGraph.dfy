/** The dependency graph of a stored plan, its transitive closure and its generations. */
module PlanGraph {
  import opened Wrappers

  type StepId = string

  /** A missing tool name is stored as null. */
  type Tool = Option<string>

  datatype PlanStep = PlanStep(id: StepId, tool: Tool, dependencies: seq<StepId>)
  type Plan = seq<PlanStep>

  /** Each node with its tool, and each edge from a dependency to the step that needs it. */
  datatype Graph = Graph(tools: map<StepId, Tool>, edges: set<(StepId, StepId)>)

  /** Adding a node again replaces its tool, so the last step of an id wins. */
  function ToolMap(plan: Plan): (m: map<StepId, Tool>)
    ensures m.Keys == set s | s in plan :: s.id
  {
    if plan == [] then map[]
    else
      var last := plan[|plan| - 1];
      assert plan == plan[..|plan| - 1] + [last];
      ToolMap(plan[..|plan| - 1])[last.id := last.tool]
  }

  predicate UniqueIds(plan: Plan) {
    forall i, j :: 0 <= i < j < |plan| ==> plan[i].id != plan[j].id
  }

  lemma {:induction false} UniqueToolMap(plan: Plan)
    requires UniqueIds(plan)
    ensures forall i :: 0 <= i < |plan| ==> plan[i].id in ToolMap(plan) && ToolMap(plan)[plan[i].id] == plan[i].tool
  {
    if plan != [] {
      var front, last := plan[..|plan| - 1], plan[|plan| - 1];
      assert UniqueIds(front);
      UniqueToolMap(front);
      var m := ToolMap(plan);
      forall i | 0 <= i < |plan| ensures plan[i].id in m && m[plan[i].id] == plan[i].tool {
        if i < |front| {
          assert front[i] == plan[i];
        }
      }
    }
  }

  /** The tool of an id is that of the last step with it. */
  lemma {:induction false} LastToolWins(plan: Plan, i: nat)
    requires i < |plan| && forall j :: i < j < |plan| ==> plan[j].id != plan[i].id
    ensures plan[i].id in ToolMap(plan) && ToolMap(plan)[plan[i].id] == plan[i].tool
  {
    var front := plan[..|plan| - 1];
    if i < |front| {
      assert plan[|plan| - 1].id != plan[i].id;
      LastToolWins(front, i);
    }
  }

  /** Dependencies on ids that are not in the plan are ignored. */
  function Edges(plan: Plan, ids: set<StepId>): set<(StepId, StepId)> {
    set s, d | s in plan && d in s.dependencies && d in ids :: (d, s.id)
  }

  function GraphOf(plan: Plan): Graph {
    Graph(ToolMap(plan), Edges(plan, ToolMap(plan).Keys))
  }

  method BuildGraph(plan: Plan) returns (g: Graph)
    ensures g == GraphOf(plan)
  {
    var tools: map<StepId, Tool> := map[];
    for i := 0 to |plan|
      invariant tools == ToolMap(plan[..i])
    {
      assert plan[..i + 1][..i] == plan[..i];
      tools := tools[plan[i].id := plan[i].tool];
    }
    assert plan[..|plan|] == plan;
    var edges := BuildEdges(plan, tools.Keys);
    g := Graph(tools, edges);
  }

  method BuildEdges(plan: Plan, ids: set<StepId>) returns (edges: set<(StepId, StepId)>)
    ensures edges == Edges(plan, ids)
  {
    edges := {};
    for i := 0 to |plan|
      invariant edges == Edges(plan[..i], ids)
    {
      var s := plan[i];
      assert plan[..i + 1] == plan[..i] + [s];
      var before := edges;
      for j := 0 to |s.dependencies|
        invariant edges == before + set d | d in s.dependencies[..j] && d in ids :: (d, s.id)
      {
        var dep := s.dependencies[j];
        assert s.dependencies[..j + 1] == s.dependencies[..j] + [dep];
        if dep in ids {
          edges := edges + {(dep, s.id)};
        }
      }
      assert s.dependencies[..|s.dependencies|] == s.dependencies;
    }
    assert plan[..|plan|] == plan;
  }

  /** Every edge joins two nodes. */
  predicate Closed(g: Graph) {
    forall e :: e in g.edges ==> e.0 in g.tools && e.1 in g.tools
  }

  lemma GraphOfClosed(plan: Plan)
    ensures Closed(GraphOf(plan))
  {
  }

  // ---- Reachability ----

  predicate IsPath(g: Graph, p: seq<StepId>) {
    p != [] && forall i :: 0 <= i < |p| - 1 ==> (p[i], p[i + 1]) in g.edges
  }

  ghost predicate PathBetween(g: Graph, p: seq<StepId>, u: StepId, v: StepId) {
    2 <= |p| && IsPath(g, p) && p[0] == u && p[|p| - 1] == v
  }

  /** v depends on u through one or more edges. */
  ghost predicate Reach(g: Graph, u: StepId, v: StepId) {
    exists p :: PathBetween(g, p, u, v)
  }

  ghost predicate Acyclic(g: Graph) {
    forall u :: !Reach(g, u, u)
  }

  lemma EdgeReaches(g: Graph, u: StepId, v: StepId)
    requires (u, v) in g.edges
    ensures Reach(g, u, v)
  {
    assert PathBetween(g, [u, v], u, v);
  }

  lemma ReachTransitive(g: Graph, u: StepId, v: StepId, w: StepId)
    requires Reach(g, u, v) && Reach(g, v, w)
    ensures Reach(g, u, w)
  {
    var p :| PathBetween(g, p, u, v);
    var q :| PathBetween(g, q, v, w);
    var r := p + q[1..];
    forall i | 0 <= i < |r| - 1 ensures (r[i], r[i + 1]) in g.edges {
      if i < |p| - 1 {
        assert r[i] == p[i] && r[i + 1] == p[i + 1];
      } else {
        assert r[i] == q[i - (|p| - 1)] && r[i + 1] == q[i + 1 - (|p| - 1)];
      }
    }
    assert PathBetween(g, r, u, w);
  }

  lemma ReachEndsInNodes(g: Graph, u: StepId, v: StepId)
    requires Closed(g) && Reach(g, u, v)
    ensures u in g.tools && v in g.tools
  {
    var p :| PathBetween(g, p, u, v);
    assert (p[0], p[1]) in g.edges && (p[|p| - 2], p[|p| - 2 + 1]) in g.edges;
  }

  /** A set that contains the edges and is closed under composition contains every reachable pair. */
  lemma {:induction false} ClosureContains(g: Graph, tc: set<(StepId, StepId)>, p: seq<StepId>)
    requires g.edges <= tc
    requires forall e, f :: e in tc && f in tc && e.1 == f.0 ==> (e.0, f.1) in tc
    requires 2 <= |p| && IsPath(g, p)
    ensures (p[0], p[|p| - 1]) in tc
  {
    if |p| > 2 {
      var q := p[..|p| - 1];
      ClosureContains(g, tc, q);
      assert (p[|p| - 2], p[|p| - 2 + 1]) in g.edges;
      assert (q[0], q[|q| - 1]) in tc;
    }
  }

  /** The closure the ordering extractor walks: exactly the reachable pairs. */
  method TransitiveClosure(g: Graph) returns (tc: set<(StepId, StepId)>)
    requires Closed(g)
    ensures forall u, v :: (u, v) in tc <==> Reach(g, u, v)
  {
    tc := g.edges;
    ghost var all := set u, v | u in g.tools && v in g.tools :: (u, v);
    forall e | e in tc ensures Reach(g, e.0, e.1) {
      EdgeReaches(g, e.0, e.1);
    }
    var composed := set e, f | e in tc && f in tc && e.1 == f.0 :: (e.0, f.1);
    while !(composed <= tc)
      invariant g.edges <= tc <= all
      invariant forall e :: e in tc ==> Reach(g, e.0, e.1)
      invariant composed == set e, f | e in tc && f in tc && e.1 == f.0 :: (e.0, f.1)
      decreases all - tc
    {
      forall e, f | e in tc && f in tc && e.1 == f.0 ensures Reach(g, e.0, f.1) {
        ReachTransitive(g, e.0, e.1, f.1);
      }
      assert composed <= all;
      tc := tc + composed;
      composed := set e, f | e in tc && f in tc && e.1 == f.0 :: (e.0, f.1);
    }
    forall e, f | e in tc && f in tc && e.1 == f.0 ensures (e.0, f.1) in tc {
      assert (e.0, f.1) in composed;
    }
    forall u, v | Reach(g, u, v) ensures (u, v) in tc {
      var p :| PathBetween(g, p, u, v);
      ClosureContains(g, tc, p);
    }
  }

  // ---- Generations ----

  /** The steps of `rest` that wait for no other step of `rest`. */
  function Ready(g: Graph, rest: set<StepId>): set<StepId> {
    set n | n in rest && forall m :: m in rest ==> (m, n) !in g.edges
  }

  /** Repeatedly takes off the steps that are ready; stops when none is. */
  function Peel(g: Graph, rest: set<StepId>): seq<set<StepId>>
    decreases |rest|
  {
    var gen := Ready(g, rest);
    if gen == {} then []
    else
      assert |rest - gen| < |rest|;
      [gen] + Peel(g, rest - gen)
  }

  function Generations(g: Graph): seq<set<StepId>> {
    Peel(g, g.tools.Keys)
  }

  ghost predicate Covered(gs: seq<set<StepId>>, n: StepId) {
    exists i :: 0 <= i < |gs| && n in gs[i]
  }

  ghost predicate Layered(gs: seq<set<StepId>>, rest: set<StepId>) {
    && (forall i :: 0 <= i < |gs| ==> gs[i] <= rest && gs[i] != {})
    && (forall i, j :: 0 <= i < j < |gs| ==> gs[i] * gs[j] == {})
  }

  lemma LayeredCons(gen: set<StepId>, later: seq<set<StepId>>, rest: set<StepId>)
    requires gen != {} && gen <= rest && Layered(later, rest - gen)
    ensures Layered([gen] + later, rest)
  {
    var gs := [gen] + later;
    forall i | 0 <= i < |gs| ensures gs[i] <= rest && gs[i] != {} {
      assert gs[i] == if i == 0 then gen else later[i - 1];
    }
    forall i, j | 0 <= i < j < |gs| ensures gs[i] * gs[j] == {} {
      assert gs[i] == if i == 0 then gen else later[i - 1];
      assert gs[j] == later[j - 1];
    }
  }

  /** Generations are disjoint non-empty parts of the steps. */
  lemma {:induction false} PeelShape(g: Graph, rest: set<StepId>)
    ensures Layered(Peel(g, rest), rest)
    decreases |rest|
  {
    var gen := Ready(g, rest);
    if gen != {} {
      assert rest == (rest - gen) + gen;
      PeelShape(g, rest - gen);
      LayeredCons(gen, Peel(g, rest - gen), rest);
    }
  }

  lemma PeelUnfold(g: Graph, rest: set<StepId>)
    requires Peel(g, rest) != []
    ensures var gen := Ready(g, rest);
            gen != {} && |rest - gen| < |rest| && Peel(g, rest) == [gen] + Peel(g, rest - gen)
  {
    assert rest == (rest - Ready(g, rest)) + Ready(g, rest);
  }

  /** A step comes after all steps it waits for. */
  lemma {:induction false} PeelOrder(g: Graph, rest: set<StepId>, i: nat, n: StepId, m: StepId)
    requires i < |Peel(g, rest)| && n in Peel(g, rest)[i] && m in rest && (m, n) in g.edges
    ensures exists j :: 0 <= j < i && m in Peel(g, rest)[j]
    decreases |rest|
  {
    PeelUnfold(g, rest);
    var gen, later := Ready(g, rest), Peel(g, rest - Ready(g, rest));
    if i > 0 {
      assert Peel(g, rest)[i] == later[i - 1];
      if m in gen {
        assert m in Peel(g, rest)[0];
      } else {
        PeelOrder(g, rest - gen, i - 1, n, m);
        var j :| 0 <= j < i - 1 && m in later[j];
        assert m in Peel(g, rest)[j + 1];
      }
    }
  }

  /** Past the first generation, a step waits for one of the generation just before. */
  lemma {:induction false} PeelPrevious(g: Graph, rest: set<StepId>, i: nat, n: StepId)
    requires 0 < i < |Peel(g, rest)| && n in Peel(g, rest)[i]
    ensures exists m :: m in Peel(g, rest)[i - 1] && (m, n) in g.edges
    decreases |rest|
  {
    PeelUnfold(g, rest);
    var gen, later := Ready(g, rest), Peel(g, rest - Ready(g, rest));
    assert Peel(g, rest)[i] == later[i - 1];
    PeelUnfold(g, rest - gen);
    if i == 1 {
      ReadyNext(g, rest, n);
    } else {
      PeelPrevious(g, rest - gen, i - 1, n);
      assert Peel(g, rest)[i - 1] == later[i - 2];
    }
  }

  /** A step that becomes ready when `gen` is taken off was waiting for one of `gen`. */
  lemma ReadyNext(g: Graph, rest: set<StepId>, n: StepId)
    requires n in Ready(g, rest - Ready(g, rest))
    ensures exists m :: m in Ready(g, rest) && (m, n) in g.edges
  {
    assert n !in Ready(g, rest);
    var m :| m in rest && (m, n) in g.edges;
    assert m in Ready(g, rest);
  }

  lemma {:induction false} DistinctCount(s: seq<StepId>)
    requires forall i, j :: 0 <= i < j < |s| ==> s[i] != s[j]
    ensures |(set x | x in s)| == |s|
  {
    if s != [] {
      var front := s[..|s| - 1];
      var last := s[|s| - 1];
      DistinctCount(front);
      assert s == front + [last];
      assert (set x | x in s) == (set x | x in front) + {last};
    }
  }

  lemma Pigeonhole(s: seq<StepId>, rest: set<StepId>) returns (i: nat, j: nat)
    requires |s| > |rest| && forall k :: 0 <= k < |s| ==> s[k] in rest
    ensures i < j < |s| && s[i] == s[j]
  {
    var elems := set x | x in s;
    if forall a, b :: 0 <= a < b < |s| ==> s[a] != s[b] {
      DistinctCount(s);
      SubsetSize(elems, rest);
      assert false;
    }
    i, j :| 0 <= i < j < |s| && s[i] == s[j];
  }

  lemma {:induction false} SubsetSize(a: set<StepId>, b: set<StepId>)
    requires a <= b
    ensures |a| <= |b|
  {
    assert b == a + (b - a);
  }

  /** Walks backwards inside a set in which every step waits for another of the set. */
  lemma {:induction false} BackwardPath(g: Graph, rest: set<StepId>, k: nat) returns (p: seq<StepId>)
    requires rest != {} && Ready(g, rest) == {}
    ensures |p| == k + 1 && IsPath(g, p) && forall i :: 0 <= i < |p| ==> p[i] in rest
  {
    if k == 0 {
      var n :| n in rest;
      p := [n];
    } else {
      var q := BackwardPath(g, rest, k - 1);
      assert q[0] in rest && q[0] !in Ready(g, rest);
      var m :| m in rest && (m, q[0]) in g.edges;
      p := [m] + q;
    }
  }

  lemma StuckMeansCyclic(g: Graph, rest: set<StepId>)
    requires rest != {} && Ready(g, rest) == {}
    ensures !Acyclic(g)
  {
    var p := BackwardPath(g, rest, |rest|);
    var i, j := Pigeonhole(p, rest);
    var loop := p[i..j + 1];
    forall k | 0 <= k < |loop| - 1 ensures (loop[k], loop[k + 1]) in g.edges {
      assert loop[k] == p[i + k] && loop[k + 1] == p[i + k + 1];
    }
    assert PathBetween(g, loop, p[i], p[i]);
    assert Reach(g, p[i], p[i]);
  }

  lemma {:induction false} PeelCovers(g: Graph, rest: set<StepId>, n: StepId)
    requires Acyclic(g) && n in rest
    ensures Covered(Peel(g, rest), n)
    decreases |rest|
  {
    var gen := Ready(g, rest);
    if gen == {} {
      StuckMeansCyclic(g, rest);
    } else if n in gen {
      assert n in Peel(g, rest)[0];
    } else {
      assert |rest - gen| < |rest|;
      PeelCovers(g, rest - gen, n);
      var i :| 0 <= i < |Peel(g, rest - gen)| && n in Peel(g, rest - gen)[i];
      assert n in Peel(g, rest)[i + 1];
    }
  }

  /** Along a path that ends in generation i, the k-th node from the front is in generation k or
      later, and before the end strictly earlier than i. */
  lemma {:induction false} PathClimbs(g: Graph, p: seq<StepId>, i: nat)
    requires Closed(g) && IsPath(g, p)
    requires i < |Generations(g)| && p[|p| - 1] in Generations(g)[i]
    ensures |p| <= i + 1
    ensures |p| >= 2 ==> exists j :: 0 <= j < i && p[0] in Generations(g)[j]
  {
    if |p| >= 2 {
      var gs, q := Generations(g), p[..|p| - 1];
      var m, n := p[|p| - 2], p[|p| - 1];
      assert (p[|p| - 2], p[|p| - 2 + 1]) in g.edges;
      PeelOrder(g, g.tools.Keys, i, n, m);
      var j: nat :| j < i && m in gs[j];
      PathClimbs(g, q, j);
      assert p[0] == q[0];
    }
  }

  lemma {:induction false} LongestChain(g: Graph, i: nat, n: StepId) returns (p: seq<StepId>)
    requires i < |Generations(g)| && n in Generations(g)[i]
    ensures |p| == i + 1 && IsPath(g, p) && p[|p| - 1] == n
  {
    if i == 0 {
      p := [n];
    } else {
      PeelPrevious(g, g.tools.Keys, i, n);
      var m :| m in Generations(g)[i - 1] && (m, n) in g.edges;
      var q := LongestChain(g, i - 1, m);
      p := q + [n];
    }
  }

  /** The generation of a step is the length of its longest dependency chain. */
  lemma GenerationIsDepth(g: Graph, i: nat, n: StepId)
    requires Closed(g) && i < |Generations(g)| && n in Generations(g)[i]
    ensures exists p :: IsPath(g, p) && p[|p| - 1] == n && |p| == i + 1
    ensures forall p :: IsPath(g, p) && p[|p| - 1] == n ==> |p| <= i + 1
  {
    var p := LongestChain(g, i, n);
    forall q | IsPath(g, q) && q[|q| - 1] == n ensures |q| <= i + 1 {
      PathClimbs(g, q, i);
    }
  }

  /** The generations use up all steps exactly when the dependencies have no cycle: the silent
      handler for an unfeasible order drops steps of cyclic plans and of no others. */
  lemma CompleteIffAcyclic(g: Graph)
    requires Closed(g)
    ensures Acyclic(g) <==> forall n :: n in g.tools ==> Covered(Generations(g), n)
  {
    if Acyclic(g) {
      forall n | n in g.tools ensures Covered(Generations(g), n) {
        PeelCovers(g, g.tools.Keys, n);
      }
    }
    if forall n :: n in g.tools ==> Covered(Generations(g), n) {
      forall u ensures !Reach(g, u, u) {
        if Reach(g, u, u) {
          ReachEndsInNodes(g, u, u);
          var i: nat :| i < |Generations(g)| && u in Generations(g)[i];
          Antichain(g, i, u, u);
        }
      }
    }
  }

  /** No step of a generation depends on another of the same generation. */
  lemma Antichain(g: Graph, i: nat, u: StepId, v: StepId)
    requires Closed(g) && i < |Generations(g)| && u in Generations(g)[i] && v in Generations(g)[i]
    ensures !Reach(g, u, v)
  {
    if Reach(g, u, v) {
      var p :| PathBetween(g, p, u, v);
      PathClimbs(g, p, i);
      var j :| 0 <= j < i && p[0] in Generations(g)[j];
      assert u in Generations(g)[j] * Generations(g)[i];
      PeelShape(g, g.tools.Keys);
    }
  }

  // ---- Rounds ----

  function ToolsOf(g: Graph, gen: set<StepId>): set<Tool> {
    set n | n in gen && n in g.tools :: g.tools[n]
  }

  function RoundsFrom(g: Graph, gs: seq<set<StepId>>): (rounds: seq<set<Tool>>)
    ensures |rounds| == |gs|
    ensures forall i :: 0 <= i < |gs| ==> rounds[i] == ToolsOf(g, gs[i])
  {
    if gs == [] then [] else [ToolsOf(g, gs[0])] + RoundsFrom(g, gs[1..])
  }

  function Rounds(plan: Plan): seq<set<Tool>> {
    var g := GraphOf(plan);
    RoundsFrom(g, Generations(g))
  }

  lemma PeelStep(g: Graph, done: seq<set<StepId>>, rest: set<StepId>)
    requires Ready(g, rest) != {}
    ensures |rest - Ready(g, rest)| < |rest|
    ensures done + Peel(g, rest) == done + [Ready(g, rest)] + Peel(g, rest - Ready(g, rest))
  {
    PeelUnfold(g, rest);
  }

  lemma RoundsSnoc(g: Graph, gs: seq<set<StepId>>, gen: set<StepId>)
    ensures RoundsFrom(g, gs + [gen]) == RoundsFrom(g, gs) + [ToolsOf(g, gen)]
  {
    var both := RoundsFrom(g, gs + [gen]);
    forall i | 0 <= i < |both| ensures both[i] == (RoundsFrom(g, gs) + [ToolsOf(g, gen)])[i] {
    }
  }

  /** One set of tool names per generation; the rounds found before a cycle is met are kept. */
  method GetParallelRounds(plan: Plan) returns (rounds: seq<set<Tool>>)
    ensures rounds == Rounds(plan)
  {
    var g := BuildGraph(plan);
    rounds := [];
    var rest := g.tools.Keys;
    ghost var done: seq<set<StepId>> := [];
    while Ready(g, rest) != {}
      invariant Generations(g) == done + Peel(g, rest)
      invariant rounds == RoundsFrom(g, done)
      decreases |rest|
    {
      var gen := Ready(g, rest);
      PeelStep(g, done, rest);
      RoundsSnoc(g, done, gen);
      rounds := rounds + [ToolsOf(g, gen)];
      done := done + [gen];
      rest := rest - gen;
    }
    assert done + [] == done;
  }
}
