/** The job that mines the latest completed plans and stores suggestions for review. */
module EvolutionJob {
  import opened Wrappers
  import opened PlanGraph
  import opened PatternMining
  import opened MiningLaws

  const BATCH_SIZE: nat := 10
  const MIN_FREQ_ORDERING: real := 0.9
  const MIN_FREQ_PARALLEL: real := 0.8

  datatype Review = Open | Accepted | Rejected
  datatype Suggestion = Suggestion(rule: Candidate, review: Review)

  /** The columns the duplicate lookup compares; a parallel rule leaves both tools NULL. */
  datatype LookupKey = LookupKey(ordering: bool, before: Tool, after: Tool)

  function KeyOf(c: Candidate): LookupKey {
    match c
    case HardOrdering(a, b, _, _) => LookupKey(true, a, b)
    case SoftParallel(_, _, _) => LookupKey(false, None, None)
  }

  /** Reviewed rows the lookup of a candidate finds. */
  function Reviewed(table: seq<Suggestion>, key: LookupKey): nat {
    if table == [] then 0
    else Reviewed(table[..|table| - 1], key)
         + if !table[|table| - 1].review.Open? && KeyOf(table[|table| - 1].rule) == key then 1 else 0
  }

  /** Rows added meanwhile are open, so a lookup does not find them, flushed or not. */
  lemma {:induction false} OpenRowsNotFound(table: seq<Suggestion>, rows: seq<Suggestion>, key: LookupKey)
    requires forall r :: r in rows ==> r.review.Open?
    ensures Reviewed(table + rows, key) == Reviewed(table, key)
  {
    if rows == [] {
      assert table + rows == table;
    } else {
      OpenRowsNotFound(table, rows[..|rows| - 1], key);
      assert (table + rows)[..|table + rows| - 1] == table + rows[..|rows| - 1];
    }
  }

  /** The rows for the candidates without a reviewed row. */
  function Unreviewed(table: seq<Suggestion>, candidates: seq<Candidate>): seq<Suggestion> {
    if candidates == [] then []
    else
      var last := candidates[|candidates| - 1];
      Unreviewed(table, candidates[..|candidates| - 1]) +
      if Reviewed(table, KeyOf(last)) == 0 then [Suggestion(last, Open)] else []
  }

  /** Exactly these candidates get a row. */
  lemma {:induction false} UnreviewedMeans(table: seq<Suggestion>, candidates: seq<Candidate>)
    ensures forall r :: r in Unreviewed(table, candidates) <==>
              r.review.Open? && r.rule in candidates && Reviewed(table, KeyOf(r.rule)) == 0
  {
    if candidates != [] {
      var front, last := candidates[..|candidates| - 1], candidates[|candidates| - 1];
      UnreviewedMeans(table, front);
      assert candidates == front + [last];
    }
  }

  /** Each of them as often as it is a candidate. */
  lemma {:induction false} UnreviewedEach(table: seq<Suggestion>, candidates: seq<Candidate>, c: Candidate)
    ensures multiset(Unreviewed(table, candidates))[Suggestion(c, Open)] ==
            if Reviewed(table, KeyOf(c)) == 0 then multiset(candidates)[c] else 0
  {
    if candidates != [] {
      var front, last := candidates[..|candidates| - 1], candidates[|candidates| - 1];
      UnreviewedEach(table, front, c);
      assert candidates == front + [last];
      hide Reviewed;
    }
  }

  /** The rows come in the order of their candidates. */
  lemma {:induction false} UnreviewedAppend(table: seq<Suggestion>, a: seq<Candidate>, b: seq<Candidate>)
    ensures Unreviewed(table, a + b) == Unreviewed(table, a) + Unreviewed(table, b)
  {
    hide Reviewed;
    if b == [] {
      assert a + b == a;
    } else {
      var front := b[..|b| - 1];
      UnreviewedAppend(table, a, front);
      assert (a + b)[..|a + b| - 1] == a + front;
    }
  }

  /** How many candidates are looked up before a lookup finds two reviewed rows and raises. */
  function Clear(table: seq<Suggestion>, candidates: seq<Candidate>): (n: nat)
    ensures n <= |candidates|
    ensures forall i :: 0 <= i < n ==> Reviewed(table, KeyOf(candidates[i])) < 2
    ensures n < |candidates| ==> Reviewed(table, KeyOf(candidates[n])) >= 2
  {
    if candidates == [] || Reviewed(table, KeyOf(candidates[0])) >= 2 then 0
    else 1 + Clear(table, candidates[1..])
  }

  lemma ClearAt(table: seq<Suggestion>, candidates: seq<Candidate>, n: nat)
    requires n <= |candidates| && forall i :: 0 <= i < n ==> Reviewed(table, KeyOf(candidates[i])) < 2
    requires n < |candidates| ==> Reviewed(table, KeyOf(candidates[n])) >= 2
    ensures Clear(table, candidates) == n
  {
  }

  /** The database session of the caller: the suggestion rows, with those it has added itself. */
  class Session {
    var rows: seq<Suggestion>

    /** Adds a row for each candidate whose lookup finds nothing reviewed. A lookup that finds two
        rows raises; what was added before it stays in the session. */
    method WriteSuggestions(candidates: seq<Candidate>) returns (failed: bool)
      modifies this
      ensures failed <==> exists c :: c in candidates && Reviewed(old(rows), KeyOf(c)) >= 2
      ensures rows == old(rows) + Unreviewed(old(rows), candidates[..Clear(old(rows), candidates)])
    {
      hide Reviewed;
      ghost var table := rows;
      for i := 0 to |candidates|
        invariant forall j :: 0 <= j < i ==> Reviewed(table, KeyOf(candidates[j])) < 2
        invariant rows == table + Unreviewed(table, candidates[..i])
      {
        var c := candidates[i];
        assert candidates[..i + 1][..i] == candidates[..i];
        UnreviewedMeans(table, candidates[..i]);
        OpenRowsNotFound(table, Unreviewed(table, candidates[..i]), KeyOf(c));
        var existing := Reviewed(rows, KeyOf(c));
        if existing >= 2 {
          ClearAt(table, candidates, i);
          return true;
        }
        if existing == 0 {
          rows := rows + [Suggestion(c, Open)];
        }
      }
      ClearAt(table, candidates, |candidates|);
      return false;
    }
  }

  /** The two rules contradict each other. */
  predicate Conflict(c: Candidate, d: Candidate) {
    match (c, d)
    case (HardOrdering(a, b, _, _), HardOrdering(a', b', _, _)) => a == b' && b == a'
    case (HardOrdering(a, b, _, _), SoftParallel(tools, _, _)) => tools == {a, b}
    case (SoftParallel(tools, _, _), HardOrdering(a, b, _, _)) => tools == {a, b}
    case (SoftParallel(_, _, _), SoftParallel(_, _, _)) => false
  }

  ghost predicate Mined(batch: seq<Plan>, c: Candidate) {
    OrderingCandidate(batch, MIN_FREQ_ORDERING, c) || ParallelCandidate(batch, MIN_FREQ_PARALLEL, c)
  }

  lemma MinedDoNotConflict(batch: seq<Plan>, c: Candidate, d: Candidate)
    requires AllSound(batch) && Mined(batch, c) && Mined(batch, d)
    ensures !Conflict(c, d)
  {
    if c.HardOrdering? {
      assert OrderingMined(batch, (c.before, c.after));
      RulesExclusive(batch, c.before, c.after);
    } else if d.HardOrdering? {
      assert OrderingMined(batch, (d.before, d.after));
      RulesExclusive(batch, d.before, d.after);
    }
  }

  /** A run over the batch meets a round that cannot be sorted, or a lookup that finds two rows. */
  ghost predicate RunFails(batch: seq<Plan>, table: seq<Suggestion>) {
    !AllSortable(batch) || exists c :: Mined(batch, c) && Reviewed(table, KeyOf(c)) >= 2
  }

  /** A run over the batch adds an open row for the rule. */
  ghost predicate AddedByRun(batch: seq<Plan>, table: seq<Suggestion>, c: Candidate) {
    !RunFails(batch, table) && Mined(batch, c) && Reviewed(table, KeyOf(c)) == 0
  }

  /** The rows of one run: open, mined from the batch, without a reviewed row, each once, and for a
      sound batch never two that contradict each other. */
  ghost predicate RowsOfRun(batch: seq<Plan>, table: seq<Suggestion>, added: seq<Suggestion>) {
    && (forall r :: r in added ==> r.review.Open? && Mined(batch, r.rule) && Reviewed(table, KeyOf(r.rule)) == 0)
    && (forall i, j :: 0 <= i < j < |added| ==> added[i] != added[j])
    && (AllSound(batch) ==> forall r, q :: r in added && q in added ==> !Conflict(r.rule, q.rule))
  }

  predicate Distinct<T(==)>(s: seq<T>) {
    forall i, j :: 0 <= i < j < |s| ==> s[i] != s[j]
  }

  lemma {:induction false} UnreviewedDistinct(table: seq<Suggestion>, candidates: seq<Candidate>)
    requires Distinct(candidates)
    ensures Distinct(Unreviewed(table, candidates))
  {
    if candidates != [] {
      var front, last := candidates[..|candidates| - 1], candidates[|candidates| - 1];
      UnreviewedDistinct(table, front);
      UnreviewedMeans(table, front);
      assert last !in front;
    }
  }

  lemma UnreviewedRows(batch: seq<Plan>, table: seq<Suggestion>, candidates: seq<Candidate>)
    requires Distinct(candidates) && forall c :: c in candidates ==> Mined(batch, c)
    ensures RowsOfRun(batch, table, Unreviewed(table, candidates))
  {
    hide Mined, AllSound, Conflict, Reviewed, Unreviewed;
    UnreviewedDistinct(table, candidates);
    UnreviewedMeans(table, candidates);
    var rows := Unreviewed(table, candidates);
    if AllSound(batch) {
      forall r, q | r in rows && q in rows ensures !Conflict(r.rule, q.rule) {
        MinedDoNotConflict(batch, r.rule, q.rule);
      }
    }
  }

  lemma NoRows(batch: seq<Plan>, table: seq<Suggestion>)
    ensures RowsOfRun(batch, table, [])
  {
  }

  /** One run over the completed plans, newest first. Below a full batch nothing happens. Otherwise it
      adds the rows of the mined rules, all of them unless it fails; and it fails exactly when a
      round cannot be sorted or a lookup finds two reviewed rows. */
  method Run(completed: seq<Plan>, session: Session) returns (failed: bool)
    modifies session
    ensures |completed| < 10 ==> !failed && session.rows == old(session.rows)
    ensures old(session.rows) <= session.rows
    ensures |completed| >= 10 ==>
              var batch, table := completed[..10], old(session.rows);
              var added := session.rows[|table|..];
              && RowsOfRun(batch, table, added)
              && (failed <==> RunFails(batch, table))
              && (!AllSortable(batch) ==> added == [])
              && (forall c :: AddedByRun(batch, table, c) ==> Suggestion(c, Open) in added)
  {
    hide AllSound, AllSortable, Conflict, OrderingCandidate, ParallelCandidate, Reviewed, Unreviewed, RowsOfRun;
    var plans := completed[..if |completed| < BATCH_SIZE then |completed| else BATCH_SIZE];
    if |plans| < BATCH_SIZE {
      return false;
    }
    ghost var table := session.rows;
    var candidates := ExtractConsistentOrderings(plans, MIN_FREQ_ORDERING);
    var parallel := ExtractParallelPatterns(plans, MIN_FREQ_PARALLEL);
    if parallel.None? {
      NoRows(plans, table);
      assert session.rows[|table|..] == [];
      return true;
    }
    OnlyKinds(plans, candidates, parallel.value);
    candidates := candidates + parallel.value;
    assert forall c :: c in candidates <==> Mined(plans, c);
    failed := session.WriteSuggestions(candidates);
    var looked := candidates[..Clear(table, candidates)];
    UnreviewedRows(plans, table, looked);
    assert session.rows[|table|..] == Unreviewed(table, looked);
    UnreviewedMeans(table, looked);
    if !failed {
      assert looked == candidates;
    }
  }

  // ---- What a lookup finds ----

  predicate AcceptedOrRejected(row: Suggestion) {
    row.review.Accepted? || row.review.Rejected?
  }

  function ReviewedOrdering(table: seq<Suggestion>, before: Tool, after: Tool): nat {
    if table == [] then 0
    else
      var row := table[|table| - 1];
      ReviewedOrdering(table[..|table| - 1], before, after)
      + if AcceptedOrRejected(row) && row.rule.HardOrdering? && row.rule.before == before && row.rule.after == after
        then 1 else 0
  }

  /** The lookup of an ordering finds the accepted and rejected orderings of the same two tools, in that
      order, and nothing else, whatever their frequency. */
  lemma {:induction false} OrderingLookup(table: seq<Suggestion>, c: Candidate)
    requires c.HardOrdering?
    ensures Reviewed(table, KeyOf(c)) == ReviewedOrdering(table, c.before, c.after)
  {
    if table != [] {
      OrderingLookup(table[..|table| - 1], c);
    }
  }

  function ReviewedParallel(table: seq<Suggestion>): nat {
    if table == [] then 0
    else ReviewedParallel(table[..|table| - 1])
         + if AcceptedOrRejected(table[|table| - 1]) && table[|table| - 1].rule.SoftParallel? then 1 else 0
  }

  lemma {:induction false} ParallelLookup(table: seq<Suggestion>, c: Candidate)
    requires c.SoftParallel?
    ensures Reviewed(table, KeyOf(c)) == ReviewedParallel(table)
  {
    if table != [] {
      ParallelLookup(table[..|table| - 1], c);
    }
  }

  /** The lookup of a parallel rule does not look at its tools. After one review of any parallel rule no
      other is ever added, and after two every run that mines one fails. */
  lemma OneParallelReviewForAll(batch: seq<Plan>, table: seq<Suggestion>, c: Candidate)
    requires c.SoftParallel? && Mined(batch, c)
    ensures ReviewedParallel(table) >= 1 ==> !AddedByRun(batch, table, c)
    ensures ReviewedParallel(table) >= 2 ==> RunFails(batch, table)
  {
    hide Mined, Reviewed, ReviewedParallel;
    ParallelLookup(table, c);
  }

  /** No candidate is found by both extractors. */
  lemma OnlyKinds(plans: seq<Plan>, orderings: seq<Candidate>, parallel: seq<Candidate>)
    requires forall c :: c in orderings ==> OrderingCandidate(plans, MIN_FREQ_ORDERING, c)
    requires forall c :: c in parallel ==> ParallelCandidate(plans, MIN_FREQ_PARALLEL, c)
    requires Distinct(orderings) && Distinct(parallel)
    ensures Distinct(orderings + parallel)
  {
    var both := orderings + parallel;
    forall i, j | 0 <= i < j < |both| ensures both[i] != both[j] {
      if i < |orderings| <= j {
        assert both[i] in orderings && both[j] in parallel;
      }
    }
  }
}
