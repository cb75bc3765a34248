/** When a claim succeeds, told from the calls of the run and which of them took effect. */
module LeaseClaims {
  import opened Wrappers
  import opened LeaseStore
  import opened LeaseRuns

  /** The call changes the tables. */
  predicate TakesEffect(w0: World, calls: seq<Call>, i: nat)
    requires i < |calls|
  {
    At(w0, calls, i + 1).db != At(w0, calls, i).db
  }

  /** Call i claims, completes or releases s, and takes effect. */
  predicate MovesLease(w0: World, calls: seq<Call>, i: nat, s: StepId)
    requires i < |calls|
  {
    var c := calls[i];
    (c.Claim? || c.Complete? || c.Release?) && c.s == s && TakesEffect(w0, calls, i)
  }

  /** Call i also settles whether s waits to be claimed: it moves the lease of s or enqueues s. */
  predicate Settles(w0: World, calls: seq<Call>, i: nat, s: StepId)
    requires i < |calls|
  {
    MovesLease(w0, calls, i, s) || calls[i] == Enqueue(s)
  }

  ghost predicate LastSettled(w0: World, calls: seq<Call>, i: nat, n: nat, s: StepId)
    requires n <= |calls|
  {
    i < n && Settles(w0, calls, i, s) && forall j :: i < j < n ==> !Settles(w0, calls, j, s)
  }

  ghost predicate LastMoved(w0: World, calls: seq<Call>, i: nat, n: nat, s: StepId)
    requires n <= |calls|
  {
    i < n && MovesLease(w0, calls, i, s) && forall j :: i < j < n ==> !MovesLease(w0, calls, j, s)
  }

  /** s was never touched, or what settled it last was a release or an enqueue. */
  ghost predicate Waits(w0: World, calls: seq<Call>, n: nat, s: StepId)
    requires n <= |calls|
  {
    || (forall i :: 0 <= i < n ==> !Settles(w0, calls, i, s))
    || (exists i :: 0 <= i < n && LastSettled(w0, calls, i, n, s) && (calls[i].Enqueue? || calls[i].Release?))
  }

  /** The lease of s was claimed at i and not given up since. */
  ghost predicate Leased(w0: World, calls: seq<Call>, i: nat, n: nat, s: StepId)
    requires n <= |calls|
  {
    LastMoved(w0, calls, i, n, s) && calls[i].Claim?
  }

  /** What each call does to a row, told from whether it takes effect. */
  lemma EffectOnRow(x: World, c: Call, s: StepId)
    requires s in x.db.steps
    ensures s in Do(x, c).db.steps
    ensures var row, after := x.db.steps[s], Do(x, c).db.steps[s];
            var effect := Do(x, c).db != x.db;
            && (c.Claim? && c.s == s && effect ==> after.status.Running? && after.lockToken == Some(c.w))
            && (c.Complete? && c.s == s && effect ==> after.status.Finished? && after.lockToken.None?)
            && (c.Release? && c.s == s && effect ==> after.status.Pending? && after.lockToken.None?)
            && (c == Enqueue(s) ==> after.status.Pending? && after.lockToken == row.lockToken)
            && (!((c.Claim? || c.Complete? || c.Release?) && c.s == s && effect) ==> after.lockToken == row.lockToken)
            && (!((c.Claim? || c.Complete? || c.Release?) && c.s == s && effect) && c != Enqueue(s) ==>
                  after.status == row.status)
  {
    if c.Complete? && HeldBy(x.db, c.s, c.w) {
      assert |Do(x, c).db.results| == |x.db.results| + 1;
    }
  }

  lemma WaitsNext(w0: World, calls: seq<Call>, n: nat, s: StepId)
    requires 0 < n <= |calls|
    ensures Waits(w0, calls, n, s) <==>
            if Settles(w0, calls, n - 1, s) then calls[n - 1].Enqueue? || calls[n - 1].Release?
            else Waits(w0, calls, n - 1, s)
  {
    hide Settles;
    if Settles(w0, calls, n - 1, s) {
      assert LastSettled(w0, calls, n - 1, n, s);
    } else {
      forall i | 0 <= i < n - 1
        ensures LastSettled(w0, calls, i, n, s) <==> LastSettled(w0, calls, i, n - 1, s)
      {
      }
    }
  }

  /** A row is pending exactly when the run says that the step waits. */
  lemma {:induction false} PendingExactly(w0: World, calls: seq<Call>, n: nat, s: StepId)
    requires Initial(w0) && n <= |calls| && s in w0.db.steps
    ensures s in At(w0, calls, n).db.steps
    ensures At(w0, calls, n).db.steps[s].status.Pending? <==> Waits(w0, calls, n, s)
  {
    hide Waits, Do;
    if n == 0 {
      NothingSettled(w0, calls, s);
    } else {
      PendingExactly(w0, calls, n - 1, s);
      WaitsNext(w0, calls, n, s);
      EffectOnRow(At(w0, calls, n - 1), calls[n - 1], s);
      assert At(w0, calls, n) == Do(At(w0, calls, n - 1), calls[n - 1]);
    }
  }

  lemma NothingSettled(w0: World, calls: seq<Call>, s: StepId)
    ensures Waits(w0, calls, 0, s)
  {
  }

  lemma LastMovedNext(w0: World, calls: seq<Call>, i: nat, n: nat, s: StepId)
    requires 0 < n <= |calls|
    ensures LastMoved(w0, calls, i, n, s) <==>
            if MovesLease(w0, calls, n - 1, s) then i == n - 1 else LastMoved(w0, calls, i, n - 1, s)
  {
    hide MovesLease;
  }

  ghost predicate LeasedBy(w0: World, calls: seq<Call>, n: nat, s: StepId, w: WorkerId)
    requires n <= |calls|
  {
    exists i :: 0 <= i < n && Leased(w0, calls, i, n, s) && calls[i].w == w
  }

  lemma LeasedByNext(w0: World, calls: seq<Call>, n: nat, s: StepId, w: WorkerId)
    requires 0 < n <= |calls|
    ensures LeasedBy(w0, calls, n, s, w) <==>
            if MovesLease(w0, calls, n - 1, s) then calls[n - 1].Claim? && calls[n - 1].w == w
            else LeasedBy(w0, calls, n - 1, s, w)
  {
    hide LastMoved, MovesLease;
    forall i: nat ensures LastMoved(w0, calls, i, n, s) <==>
          if MovesLease(w0, calls, n - 1, s) then i == n - 1 else LastMoved(w0, calls, i, n - 1, s)
    {
      LastMovedNext(w0, calls, i, n, s);
    }
    if MovesLease(w0, calls, n - 1, s) && calls[n - 1].Claim? {
      assert Leased(w0, calls, n - 1, n, s);
    }
    if !MovesLease(w0, calls, n - 1, s) {
      if i: nat :| i < n - 1 && Leased(w0, calls, i, n - 1, s) && calls[i].w == w {
        assert Leased(w0, calls, i, n, s);
      }
      if i: nat :| i < n && Leased(w0, calls, i, n, s) && calls[i].w == w {
        LastMovedBefore(w0, calls, i, n - 1, s);
        assert Leased(w0, calls, i, n - 1, s);
      }
    }
  }

  lemma LastMovedBefore(w0: World, calls: seq<Call>, i: nat, n: nat, s: StepId)
    requires n <= |calls| && LastMoved(w0, calls, i, n, s)
    ensures i < n
  {
  }

  /** A row is locked by w exactly when the run says that w claimed it and has not given it up. */
  lemma {:induction false} LockedExactly(w0: World, calls: seq<Call>, n: nat, s: StepId, w: WorkerId)
    requires Initial(w0) && n <= |calls| && s in w0.db.steps
    ensures s in At(w0, calls, n).db.steps
    ensures At(w0, calls, n).db.steps[s].lockToken == Some(w) <==> LeasedBy(w0, calls, n, s, w)
  {
    hide Do, LeasedBy, MovesLease;
    if n == 0 {
      NobodyLeased(w0, calls, s, w);
    } else {
      LockedExactly(w0, calls, n - 1, s, w);
      LeasedByNext(w0, calls, n, s, w);
      MoveOnRow(w0, calls, n, s);
    }
  }

  lemma NobodyLeased(w0: World, calls: seq<Call>, s: StepId, w: WorkerId)
    ensures !LeasedBy(w0, calls, 0, s, w)
  {
  }

  lemma MoveOnRow(w0: World, calls: seq<Call>, n: nat, s: StepId)
    requires 0 < n <= |calls| && s in At(w0, calls, n - 1).db.steps
    ensures s in At(w0, calls, n).db.steps
    ensures var before, after := At(w0, calls, n - 1).db.steps[s].lockToken, At(w0, calls, n).db.steps[s].lockToken;
            if MovesLease(w0, calls, n - 1, s) then
              after == if calls[n - 1].Claim? then Some(calls[n - 1].w) else None
            else after == before
  {
    hide Do;
    EffectOnRow(At(w0, calls, n - 1), calls[n - 1], s);
  }

  /** A call that cannot be made takes no effect. */
  lemma IdleCalls(x: World, c: Call)
    ensures c.Claim? && Do(x, c).db != x.db ==> CanClaim(x.db, c.s, x.clock)
    ensures c.Claim? && CanClaim(x.db, c.s, x.clock) ==> Do(x, c).db != x.db
    ensures (c.Complete? || c.Release?) && HeldBy(x.db, c.s, c.w) ==> Do(x, c).db != x.db
  {
    if c.Claim? && CanClaim(x.db, c.s, x.clock) {
      assert Do(x, c).db.steps[c.s].attempts == x.db.steps[c.s].attempts + 1;
    } else if c.Complete? && HeldBy(x.db, c.s, c.w) {
      assert |Do(x, c).db.results| == |x.db.results| + 1;
    } else if c.Release? && HeldBy(x.db, c.s, c.w) {
      assert Do(x, c).db.steps[c.s].lockToken.None?;
    }
  }

  lemma LeasedEarlier(w0: World, calls: seq<Call>, i: nat, j: nat, n: nat, s: StepId)
    requires i < j <= n <= |calls| && Leased(w0, calls, i, n, s)
    ensures Leased(w0, calls, i, j, s)
  {
    hide MovesLease;
  }

  /** Who has leased a step is its holder. */
  lemma LeasedIsHeld(w0: World, calls: seq<Call>, i: nat, n: nat, s: StepId)
    requires Initial(w0) && n <= |calls| && s in w0.db.steps && Leased(w0, calls, i, n, s)
    ensures HoldsSince(w0, calls, i, n, s, calls[i].w)
  {
    hide Do;
    var w := calls[i].w;
    IdleCalls(At(w0, calls, i), calls[i]);
    forall j | i < j < n ensures !Grants(w0, calls, j, s) && !Ends(calls[j], s, w) {
      IdleCalls(At(w0, calls, j), calls[j]);
      LeasedEarlier(w0, calls, i, j, n, s);
      assert LeasedBy(w0, calls, j, s, w);
      LockedExactly(w0, calls, j, s, w);
      assert !MovesLease(w0, calls, j, s);
    }
  }

  /** Every lease of s at n has lapsed: its last renewal was longer ago than it was for. */
  ghost predicate Lapsed(w0: World, calls: seq<Call>, n: nat, s: StepId)
    requires n <= |calls|
  {
    forall i: nat, r: nat :: Leased(w0, calls, i, n, s) && LastRenewal(calls, i, r, n, s, calls[i].w) ==>
      At(w0, calls, n).clock > At(w0, calls, r).clock + calls[r].lease as real
  }

  lemma LapsedExactly(w0: World, calls: seq<Call>, n: nat, s: StepId)
    requires Initial(w0) && n <= |calls| && s in w0.db.steps
    ensures s in At(w0, calls, n).db.steps
    ensures var row := At(w0, calls, n).db.steps[s];
            Lapsed(w0, calls, n, s) <==>
              row.lockToken.None? || (row.lockExpiresAt.Some? && row.lockExpiresAt.value < At(w0, calls, n).clock)
  {
    hide At, MovesLease;
    SameSteps(w0, calls, n);
    var row := At(w0, calls, n).db.steps[s];
    forall i: nat, r: nat | Leased(w0, calls, i, n, s) && LastRenewal(calls, i, r, n, s, calls[i].w)
      ensures row.lockToken.Some? && row.lockExpiresAt == Some(At(w0, calls, r).clock + calls[r].lease as real)
    {
      LeasedIsHeld(w0, calls, i, n, s);
      HeldRow(w0, calls, i, r, n, s, calls[i].w);
    }
    if row.lockToken.Some? {
      LockedExactly(w0, calls, n, s, row.lockToken.value);
      var i: nat :| i < n && Leased(w0, calls, i, n, s) && calls[i].w == row.lockToken.value;
      LeasedIsHeld(w0, calls, i, n, s);
      var r := PreviousRenewal(w0, calls, i, n, s, calls[i].w);
    }
  }

  /** Over every run, a claim takes effect exactly when the step is in the table, waits to be claimed,
      and has no lease that has not lapsed. It then holds a lease from now on, in the next attempt. */
  lemma ClaimExactly(w0: World, calls: seq<Call>, n: nat)
    requires Initial(w0) && n < |calls| && calls[n].Claim?
    ensures var c := calls[n];
            TakesEffect(w0, calls, n) <==>
              c.s in w0.db.steps && Waits(w0, calls, n, c.s) && Lapsed(w0, calls, n, c.s)
    ensures var c, x, y := calls[n], At(w0, calls, n), At(w0, calls, n + 1);
            TakesEffect(w0, calls, n) ==>
              && c.s in x.db.steps && c.s in y.db.steps
              && y.db.steps[c.s] == Row(x.db.steps[c.s].planId, Running, Some(c.w),
                                        Some(x.clock + c.lease as real), x.db.steps[c.s].attempts + 1)
  {
    hide Waits, Lapsed;
    var c := calls[n];
    SameSteps(w0, calls, n);
    IdleCalls(At(w0, calls, n), c);
    if c.s in w0.db.steps {
      PendingExactly(w0, calls, n, c.s);
      LapsedExactly(w0, calls, n, c.s);
    }
  }

  /** In particular a step that nobody has leased is claimed by whoever asks first, when it was never
      touched, or was last released or enqueued. */
  lemma UnleasedClaim(w0: World, calls: seq<Call>, n: nat)
    requires Initial(w0) && n < |calls| && calls[n].Claim? && calls[n].s in w0.db.steps
    requires forall v :: !LeasedBy(w0, calls, n, calls[n].s, v)
    ensures TakesEffect(w0, calls, n) <==> Waits(w0, calls, n, calls[n].s)
  {
    ClaimExactly(w0, calls, n);
    hide At, MovesLease, Waits;
    forall i: nat ensures !Leased(w0, calls, i, n, calls[n].s) {
      assert Leased(w0, calls, i, n, calls[n].s) ==> LeasedBy(w0, calls, n, calls[n].s, calls[i].w);
    }
  }
}
