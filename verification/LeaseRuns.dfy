/** Runs of the adapter: any callers, in any order, with the clock moving only forward.

    A run is a sequence of calls made on freshly created rows. The theorems hold after every
    prefix of every run. */
module LeaseRuns {
  import opened Wrappers
  import opened LeaseStore

  /** `began` is the time the transaction of `complete` began, which is what now() gives in it. */
  datatype Call =
    | Enqueue(s: StepId)
    | Claim(s: StepId, w: WorkerId, lease: int)
    | Extend(s: StepId, w: WorkerId, lease: int)
    | Complete(s: StepId, w: WorkerId, payload: Payload, began: real)
    | Release(s: StepId, w: WorkerId)
    | Elapse(seconds: real)

  datatype World = World(db: Store, clock: real)

  function Do(x: World, c: Call): World {
    match c
    case Enqueue(s) => x.(db := Enqueued(x.db, s))
    case Claim(s, w, lease) => x.(db := Claimed(x.db, s, w, lease, x.clock))
    case Extend(s, w, lease) => x.(db := Extended(x.db, s, w, lease, x.clock))
    case Complete(s, w, p, began) => x.(db := CompletedBy(x.db, s, w, p, began))
    case Release(s, w) => x.(db := Released(x.db, s, w))
    case Elapse(d) => if d > 0.0 then x.(clock := x.clock + d) else x
  }

  /** The world after the first n calls. */
  function At(w0: World, calls: seq<Call>, n: nat): World
    requires n <= |calls|
  {
    if n == 0 then w0 else Do(At(w0, calls, n - 1), calls[n - 1])
  }

  predicate FreshRow(row: Row) {
    row.status.Pending? && row.lockToken.None? && row.lockExpiresAt.None? && row.attempts == 0
  }

  predicate Initial(w0: World) {
    (forall s :: s in w0.db.steps ==> FreshRow(w0.db.steps[s])) && w0.db.results == []
  }

  // ---- What a run says about who holds a step ----

  /** Call n is a successful claim of step s. */
  predicate Grants(w0: World, calls: seq<Call>, n: nat, s: StepId)
    requires n < |calls|
  {
    calls[n].Claim? && calls[n].s == s && CanClaim(At(w0, calls, n).db, s, At(w0, calls, n).clock)
  }

  /** w asks to complete or release s. */
  predicate Ends(c: Call, s: StepId, w: WorkerId) {
    (c.Complete? || c.Release?) && c.s == s && c.w == w
  }

  /** From call i up to call n: i granted s to w, and since then nobody was granted s and w has
      not asked to complete or release it. */
  ghost predicate HoldsSince(w0: World, calls: seq<Call>, i: nat, n: nat, s: StepId, w: WorkerId)
    requires n <= |calls|
  {
    && i < n
    && Grants(w0, calls, i, s) && calls[i].w == w
    && (forall j :: i < j < n ==> !Grants(w0, calls, j, s) && !Ends(calls[j], s, w))
  }

  ghost predicate CurrentHolder(w0: World, calls: seq<Call>, n: nat, s: StepId, w: WorkerId)
    requires n <= |calls|
  {
    exists i :: 0 <= i < n && HoldsSince(w0, calls, i, n, s, w)
  }

  lemma HolderExtends(w0: World, calls: seq<Call>, n: nat, s: StepId, w: WorkerId)
    requires 0 < n <= |calls|
    ensures CurrentHolder(w0, calls, n, s, w) <==>
            if Grants(w0, calls, n - 1, s) then calls[n - 1].w == w
            else CurrentHolder(w0, calls, n - 1, s, w) && !Ends(calls[n - 1], s, w)
  {
    if Grants(w0, calls, n - 1, s) {
      if calls[n - 1].w == w {
        assert HoldsSince(w0, calls, n - 1, n, s, w);
      }
    } else {
      if i: nat :| i < n && HoldsSince(w0, calls, i, n, s, w) {
        assert HoldsSince(w0, calls, i, n - 1, s, w);
      }
      if CurrentHolder(w0, calls, n - 1, s, w) && !Ends(calls[n - 1], s, w) {
        var i: nat :| i < n - 1 && HoldsSince(w0, calls, i, n - 1, s, w);
        assert HoldsSince(w0, calls, i, n, s, w);
      }
    }
  }

  /** The token in the row names exactly the worker that the run's claims, completions and
      releases make the current holder. */
  lemma {:induction false} TokenIsHolder(w0: World, calls: seq<Call>, n: nat, s: StepId, w: WorkerId)
    requires Initial(w0) && n <= |calls|
    ensures HeldBy(At(w0, calls, n).db, s, w) <==> CurrentHolder(w0, calls, n, s, w)
  {
    if n > 0 {
      TokenIsHolder(w0, calls, n - 1, s, w);
      HolderExtends(w0, calls, n, s, w);
      if calls[n - 1].Complete? || calls[n - 1].Release? {
        TokenIsHolder(w0, calls, n - 1, s, calls[n - 1].w);
      }
    }
  }

  /** Fencing: over every run, `complete` commits exactly when its caller is the most recent
      successful claimer with no completion or release since; a commit appends one result and
      ends the lease, and a refusal changes neither table. */
  lemma Fencing(w0: World, calls: seq<Call>, n: nat)
    requires Initial(w0) && n < |calls| && calls[n].Complete?
    ensures var c := calls[n];
            var before, after := At(w0, calls, n).db, At(w0, calls, n + 1).db;
            if CurrentHolder(w0, calls, n, c.s, c.w) then
              && |after.results| == |before.results| + 1
              && before.results == after.results[..|before.results|]
              && after.results[|before.results|].workerId == c.w
              && after.results[|before.results|].payload == c.payload
              && c.s in after.steps && after.steps[c.s].status == Finished(c.payload.status)
              && (forall v :: !HeldBy(after, c.s, v))
            else after == before
  {
    TokenIsHolder(w0, calls, n, calls[n].s, calls[n].w);
  }

  // ---- Attempts and results ----

  /** Successful claims of s among the first n calls. */
  ghost function GrantCount(w0: World, calls: seq<Call>, n: nat, s: StepId): nat
    requires n <= |calls|
  {
    if n == 0 then 0
    else GrantCount(w0, calls, n - 1, s) + if Grants(w0, calls, n - 1, s) then 1 else 0
  }

  /** The claim takes a lapsed lease over from a holder. */
  predicate TakesOver(x: World, c: Call, s: StepId) {
    c.Claim? && c.s == s && CanClaim(x.db, s, x.clock) && x.db.steps[s].lockToken.Some?
  }

  predicate GivesBack(x: World, c: Call, s: StepId) {
    c.Release? && c.s == s && HeldBy(x.db, s, c.w)
  }

  ghost function TakeoverCount(w0: World, calls: seq<Call>, n: nat, s: StepId): nat
    requires n <= |calls|
  {
    if n == 0 then 0
    else TakeoverCount(w0, calls, n - 1, s) + if TakesOver(At(w0, calls, n - 1), calls[n - 1], s) then 1 else 0
  }

  ghost function ReleaseCount(w0: World, calls: seq<Call>, n: nat, s: StepId): nat
    requires n <= |calls|
  {
    if n == 0 then 0
    else ReleaseCount(w0, calls, n - 1, s) + if GivesBack(At(w0, calls, n - 1), calls[n - 1], s) then 1 else 0
  }

  function ResultCount(results: seq<ResultRow>, s: StepId): nat {
    if results == [] then 0
    else ResultCount(results[..|results| - 1], s) + if results[|results| - 1].stepId == s then 1 else 0
  }

  /** Claims of s that have not ended in a result and are not the lease in the row. */
  ghost function Unaccounted(db: Store, s: StepId): int
    requires s in db.steps
  {
    db.steps[s].attempts - ResultCount(db.results, s) - if db.steps[s].lockToken.Some? then 1 else 0
  }

  lemma CallTally(x: World, c: Call, s: StepId)
    requires s in x.db.steps
    ensures s in Do(x, c).db.steps
    ensures Unaccounted(Do(x, c).db, s) == Unaccounted(x.db, s)
              + (if GivesBack(x, c, s) then 1 else 0) + if TakesOver(x, c, s) then 1 else 0
    ensures Do(x, c).db.steps[s].attempts == x.db.steps[s].attempts
              + if c.Claim? && c.s == s && CanClaim(x.db, s, x.clock) then 1 else 0
  {
    if c.Complete? && HeldBy(x.db, c.s, c.w) {
      var results := Do(x, c).db.results;
      assert results[..|results| - 1] == x.db.results;
    }
  }

  /** Conservation of attempts: a step's attempt counter is its number of successful claims, and
      each of them ended in exactly one way: a result row, a release, a takeover, or it is the
      lease still in the row. */
  lemma {:induction false} AttemptsConserved(w0: World, calls: seq<Call>, n: nat, s: StepId)
    requires Initial(w0) && n <= |calls| && s in w0.db.steps
    ensures var db := At(w0, calls, n).db;
            && s in db.steps
            && db.steps[s].attempts == GrantCount(w0, calls, n, s)
            && GrantCount(w0, calls, n, s) ==
               ResultCount(db.results, s) + ReleaseCount(w0, calls, n, s) + TakeoverCount(w0, calls, n, s)
               + if db.steps[s].lockToken.Some? then 1 else 0
  {
    if n > 0 {
      AttemptsConserved(w0, calls, n - 1, s);
      CallTally(At(w0, calls, n - 1), calls[n - 1], s);
    }
  }

  /** Rows of one step carry strictly increasing attempt numbers, so no attempt has two results. */
  ghost predicate AttemptsIncrease(results: seq<ResultRow>) {
    forall i, j :: 0 <= i < j < |results| && results[i].stepId == results[j].stepId
      ==> results[i].attempt < results[j].attempt
  }

  ghost predicate RowAgrees(row: Row, s: StepId, results: seq<ResultRow>) {
    && (row.lockToken.Some? <==> row.lockExpiresAt.Some?)
    && (row.lockToken.Some? ==> 1 <= row.attempts)
    && (row.status.Running? ==> row.lockToken.Some?)
    && (row.status.Finished? ==> row.lockToken.None?)
    && (forall i :: 0 <= i < |results| && results[i].stepId == s ==>
          && 1 <= results[i].attempt <= row.attempts
          && (row.lockToken.Some? ==> results[i].attempt < row.attempts))
    && (row.status.Finished? ==>
          exists i :: 0 <= i < |results| && results[i].stepId == s
                      && results[i].attempt == row.attempts && results[i].payload.status == row.status.outcome)
  }

  ghost predicate Disciplined(db: Store) {
    && AttemptsIncrease(db.results)
    && (forall i :: 0 <= i < |db.results| ==> db.results[i].stepId in db.steps)
    && (forall s :: s in db.steps ==> RowAgrees(db.steps[s], s, db.results))
  }

  lemma CommitDisciplined(db: Store, s: StepId, w: WorkerId, p: Payload, now: real)
    requires Disciplined(db)
    ensures Disciplined(CompletedBy(db, s, w, p, now))
  {
    if HeldBy(db, s, w) {
      var after := CompletedBy(db, s, w, p, now);
      var k := |db.results|;
      assert after.results[k] == ResultRow(s, db.steps[s].attempts, p, now, w);
      forall t | t in after.steps ensures RowAgrees(after.steps[t], t, after.results) {
        assert RowAgrees(db.steps[t], t, db.results);
        if t != s && after.steps[t].status.Finished? {
          var i :| 0 <= i < k && db.results[i].stepId == t && db.results[i].attempt == db.steps[t].attempts
                   && db.results[i].payload.status == db.steps[t].status.outcome;
          assert after.results[i] == db.results[i];
        }
      }
    }
  }

  lemma StepDisciplined(x: World, c: Call)
    requires Disciplined(x.db)
    ensures Disciplined(Do(x, c).db)
  {
    if c.Complete? {
      CommitDisciplined(x.db, c.s, c.w, c.payload, c.began);
    } else {
      var after := Do(x, c).db;
      assert after.results == x.db.results;
      forall t | t in after.steps ensures RowAgrees(after.steps[t], t, after.results) {
        assert RowAgrees(x.db.steps[t], t, x.db.results);
      }
    }
  }

  /** After every run: at most one result per attempt, in increasing order; a terminal status is
      the status of the result of the latest attempt; a running or claimed row has a lease, and a
      finished row has none. */
  lemma {:induction false} AlwaysDisciplined(w0: World, calls: seq<Call>, n: nat)
    requires Initial(w0) && n <= |calls|
    ensures Disciplined(At(w0, calls, n).db)
  {
    if n > 0 {
      AlwaysDisciplined(w0, calls, n - 1);
      StepDisciplined(At(w0, calls, n - 1), calls[n - 1]);
    }
  }

  /** A committed result is numbered by how often the step has been claimed. */
  lemma CommitNumbering(w0: World, calls: seq<Call>, n: nat)
    requires Initial(w0) && n < |calls| && calls[n].Complete?
    requires CurrentHolder(w0, calls, n, calls[n].s, calls[n].w)
    ensures var results := At(w0, calls, n + 1).db.results;
            results != [] && results[|results| - 1].attempt == GrantCount(w0, calls, n, calls[n].s)
  {
    var s := calls[n].s;
    TokenIsHolder(w0, calls, n, s, calls[n].w);
    SameSteps(w0, calls, n);
    AttemptsConserved(w0, calls, n, s);
  }

  /** No call adds or removes a step or changes its plan. */
  lemma {:induction false} SameSteps(w0: World, calls: seq<Call>, n: nat)
    requires n <= |calls|
    ensures At(w0, calls, n).db.steps.Keys == w0.db.steps.Keys
    ensures forall s :: s in w0.db.steps ==> At(w0, calls, n).db.steps[s].planId == w0.db.steps[s].planId
  {
    if n > 0 {
      SameSteps(w0, calls, n - 1);
    }
  }

  // ---- Handover ----

  predicate EnqueuedBetween(calls: seq<Call>, i: nat, n: nat, s: StepId)
    requires n <= |calls|
  {
    exists k :: i < k < n && calls[k] == Enqueue(s)
  }

  /** Call r is the last one up to n that set the expiry of w's lease of s, granted at i. */
  ghost predicate LastRenewal(calls: seq<Call>, i: nat, r: nat, n: nat, s: StepId, w: WorkerId)
    requires n <= |calls|
  {
    && i <= r < n
    && (r == i || (calls[r].Extend? && calls[r].s == s && calls[r].w == w))
    && (forall k :: r < k < n ==> !(calls[k].Extend? && calls[k].s == s && calls[k].w == w))
  }

  /** While w holds s since call i, the row is RUNNING unless it was enqueued again, and its
      expiry is the one the last renewal set. */
  lemma {:induction false} HeldRow(w0: World, calls: seq<Call>, i: nat, r: nat, n: nat, s: StepId, w: WorkerId)
    requires n <= |calls|
    requires HoldsSince(w0, calls, i, n, s, w)
    requires LastRenewal(calls, i, r, n, s, w)
    requires calls[r].Claim? || calls[r].Extend?
    ensures var x := At(w0, calls, n);
            && s in x.db.steps
            && x.db.steps[s].lockToken == Some(w)
            && x.db.steps[s].lockExpiresAt == Some(At(w0, calls, r).clock + calls[r].lease as real)
            && x.db.steps[s].status == (if EnqueuedBetween(calls, i, n, s) then Pending else Running)
    decreases n
  {
    var c := calls[n - 1];
    if n == i + 1 {
      assert r == i;
    } else {
      assert HoldsSince(w0, calls, i, n - 1, s, w);
      assert !Grants(w0, calls, n - 1, s) && !Ends(c, s, w);
      if r == n - 1 {
        var q := PreviousRenewal(w0, calls, i, n - 1, s, w);
        HeldRow(w0, calls, i, q, n - 1, s, w);
      } else {
        HeldRow(w0, calls, i, r, n - 1, s, w);
      }
      assert EnqueuedBetween(calls, i, n, s) <==> EnqueuedBetween(calls, i, n - 1, s) || c == Enqueue(s);
    }
  }

  lemma {:induction false} PreviousRenewal(w0: World, calls: seq<Call>, i: nat, n: nat, s: StepId, w: WorkerId)
    returns (q: nat)
    requires n <= |calls| && HoldsSince(w0, calls, i, n, s, w)
    ensures LastRenewal(calls, i, q, n, s, w)
    ensures calls[q].Claim? || calls[q].Extend?
    decreases n
  {
    var c := calls[n - 1];
    if n == i + 1 {
      q := i;
    } else if c.Extend? && c.s == s && c.w == w {
      q := n - 1;
    } else {
      assert HoldsSince(w0, calls, i, n - 1, s, w);
      q := PreviousRenewal(w0, calls, i, n - 1, s, w);
    }
  }

  /** Takeover: while w holds s, a claim by anyone succeeds exactly when the step was enqueued
      again after w's claim and the clock is past the expiry w last obtained. */
  lemma TakeoverExactly(w0: World, calls: seq<Call>, i: nat, r: nat, n: nat, s: StepId, w: WorkerId)
    requires n < |calls| && calls[n].Claim? && calls[n].s == s
    requires HoldsSince(w0, calls, i, n, s, w)
    requires LastRenewal(calls, i, r, n, s, w)
    ensures calls[r].Claim? || calls[r].Extend?
    ensures Grants(w0, calls, n, s) <==>
            && EnqueuedBetween(calls, i, n, s)
            && At(w0, calls, n).clock > At(w0, calls, r).clock + calls[r].lease as real
  {
    HeldRow(w0, calls, i, r, n, s, w);
  }
}
