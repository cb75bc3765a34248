/** The worker processes around the adapter.

    Each worker runs one loop: poll for a pending step, claim it, execute it under a heartbeat,
    then complete or release it. The steps of all workers, of a control plane that enqueues, and
    of the clock interleave freely. A worker that is cancelled or killed takes no further step. */
module WorkerSystem {
  import opened Wrappers
  import opened LeaseStore
  import opened LeaseRuns

  /** Where a worker's loop is. `since` is the moment its lease was last set, by the claim or by a
      successful heartbeat; `beating` is false once a heartbeat found the lease gone. While it is
      committing, its result row is inserted but not committed, with the attempt number `read`. */
  datatype Phase =
    | Polling
    | Claiming(pending: StepId)
    | Executing(step: StepId, attempt: nat, since: real, beating: bool)
    | Finishing(step: StepId, attempt: nat, since: real, payload: Payload, unknownTool: bool)
    | Committing(step: StepId, attempt: nat, since: real, payload: Payload, unknownTool: bool, read: nat, began: real)
    | Releasing(step: StepId, attempt: nat, since: real)
    | Crashed

  predicate InExecute(p: Phase) {
    p.Executing? || p.Finishing? || p.Committing? || p.Releasing?
  }

  /** Workers are keyed by their id; `lease` is LEASE_SECS. */
  datatype System = System(world: World, workers: map<WorkerId, Phase>, lease: int)

  datatype Action =
    | Poll(w: WorkerId, found: Option<StepId>)
    | TryClaim(w: WorkerId)
    | Heartbeat(w: WorkerId)
    | ToolReturns(w: WorkerId, output: Option<string>)
    | ToolUnknown(w: WorkerId, error: string)
    | ToolRaises(w: WorkerId)
    | Insert(w: WorkerId)
    | Finish(w: WorkerId)
    | GiveBack(w: WorkerId)
    | ControlPlaneEnqueue(s: StepId)
    | TimePasses(seconds: real)

  function SleepSecs(lease: int): int {
    lease / 2
  }

  /** What `next_pending_step_id` may answer: some pending step, or None if there is none. */
  predicate Finds(db: Store, found: Option<StepId>) {
    match found
    case Some(s) => s in db.steps && db.steps[s].status.Pending?
    case None => forall s :: s in db.steps ==> !db.steps[s].status.Pending?
  }

  /** An action that is not possible in a state leaves it unchanged. */
  predicate Possible(x: System, a: Action) {
    if a.ControlPlaneEnqueue? then true
    else if a.TimePasses? then a.seconds > 0.0
    else if a.w !in x.workers then false
    else
      var p := x.workers[a.w];
      match a
      case Poll(_, found) => p.Polling? && Finds(x.world.db, found)
      case TryClaim(_) => p.Claiming?
      case Heartbeat(_) => p.Executing? && p.beating && x.world.clock >= p.since + SleepSecs(x.lease) as real
      case ToolReturns(_, _) => p.Executing?
      case ToolUnknown(_, _) => p.Executing?
      case ToolRaises(_) => p.Executing?
      case Insert(_) => p.Finishing? && p.step in x.world.db.steps  // always so, see LeasesOwned
      case Finish(_) => p.Committing?
      case GiveBack(_) => p.Releasing?
  }

  /** The adapter call the action makes, if any; `complete` takes effect with its second statement. */
  function CallOf(x: System, a: Action): Option<Call>
    requires Possible(x, a)
  {
    match a
    case ControlPlaneEnqueue(s) => Some(Enqueue(s))
    case TimePasses(d) => Some(Elapse(d))
    case TryClaim(w) => Some(Claim(x.workers[w].pending, w, x.lease))
    case Heartbeat(w) => Some(Extend(x.workers[w].step, w, x.lease))
    case Finish(w) => Some(Complete(x.workers[w].step, w, x.workers[w].payload, x.workers[w].began))
    case GiveBack(w) => Some(Release(x.workers[w].step, w))
    case _ => None
  }

  /** Where the acting worker goes, given the reply of its call. */
  function NextPhase(x: System, a: Action): Phase
    requires Possible(x, a) && !a.ControlPlaneEnqueue? && !a.TimePasses?
  {
    var p, db, now := x.workers[a.w], x.world.db, x.world.clock;
    match a
    case Poll(_, found) => if found.Some? then Claiming(found.value) else Polling
    case TryClaim(_) =>
      if CanClaim(db, p.pending, now) then Executing(p.pending, db.steps[p.pending].attempts + 1, now, true)
      else Polling
    case Heartbeat(w) =>
      if HeldBy(db, p.step, w) then Executing(p.step, p.attempt, now, true)
      else Executing(p.step, p.attempt, p.since, false)
    case ToolReturns(_, output) => Finishing(p.step, p.attempt, p.since, Payload(Completed, output, None), false)
    case ToolUnknown(_, error) => Finishing(p.step, p.attempt, p.since, Payload(Failed, None, Some(error)), true)
    case ToolRaises(_) => Releasing(p.step, p.attempt, p.since)
    case Insert(_) =>
      Committing(p.step, p.attempt, p.since, p.payload, p.unknownTool, db.steps[p.step].attempts, now)
    case Finish(w) =>
      if !HeldBy(db, p.step, w) && p.unknownTool then Crashed  // nothing catches the second refusal
      else Polling                                             // a LeaseExpiredError discards the result
    case GiveBack(_) => Polling
  }

  /** The guarded UPDATE of `complete`, and the commit of both tables or the rollback: the row was
      inserted earlier, with the attempt number read then. */
  function CommitOrRollback(db: Store, w: WorkerId, p: Phase): Store
    requires p.Committing?
  {
    if HeldBy(db, p.step, w) then
      Store(db.steps[p.step := Unlocked(db.steps[p.step], Finished(p.payload.status))],
            db.results + [ResultRow(p.step, p.read, p.payload, p.began, w)])
    else db
  }

  function NextWorld(x: System, a: Action): World
    requires Possible(x, a)
  {
    if a.Finish? then x.world.(db := CommitOrRollback(x.world.db, a.w, x.workers[a.w]))
    else if CallOf(x, a).Some? then Do(x.world, CallOf(x, a).value)
    else x.world
  }

  function Next(x: System, a: Action): System {
    if !Possible(x, a) then x
    else
      var world := NextWorld(x, a);
      var workers := if a.ControlPlaneEnqueue? || a.TimePasses? then x.workers else x.workers[a.w := NextPhase(x, a)];
      System(world, workers, x.lease)
  }

  function After(x0: System, acts: seq<Action>, n: nat): System
    requires n <= |acts|
  {
    if n == 0 then x0 else Next(After(x0, acts, n - 1), acts[n - 1])
  }

  predicate Start(x0: System) {
    && Initial(x0.world)
    && (forall w :: w in x0.workers ==> x0.workers[w].Polling?)
  }

  // ---- The end of one execution ----

  /** How the tool of a step ended, or that its execution was cancelled meanwhile. */
  datatype ToolRun = Returned(output: Option<string>) | NoSuchTool(error: string) | Raised | Cancelled

  /** `execute_and_complete` once the tool has ended, whatever other callers did to the tables before.
      The worker still holds the step afterwards exactly when it was cancelled as its holder, because
      nothing handles a cancellation; on every other way out it does not. What escapes is a
      cancellation, or a refusal met while reporting an unknown tool. */
  method ExecuteAndComplete(adapter: PostgresDispatchAdapter, s: StepId, w: WorkerId, run: ToolRun, now: real)
    returns (escaped: bool)
    modifies adapter
    ensures HeldBy(adapter.Db(), s, w) <==> run.Cancelled? && HeldBy(old(adapter.Db()), s, w)
    ensures escaped <==> run.Cancelled? || (run.NoSuchTool? && !HeldBy(old(adapter.Db()), s, w))
    ensures run.Cancelled? ==> adapter.Db() == old(adapter.Db())
    ensures run.Raised? ==> adapter.Db() == Released(old(adapter.Db()), s, w)
    ensures run.Returned? ==>
              adapter.Db() == CompletedBy(old(adapter.Db()), s, w, Payload(Completed, run.output, None), now)
    ensures run.NoSuchTool? ==>
              adapter.Db() == CompletedBy(old(adapter.Db()), s, w, Payload(Failed, None, Some(run.error)), now)
  {
    escaped := false;
    match run
    case Returned(output) =>
      var reply := adapter.Complete(s, w, Payload(Completed, output, None), now);
      if reply.UnknownStep? {
        adapter.Release(s, w);
      }
    case NoSuchTool(error) =>
      var reply := adapter.Complete(s, w, Payload(Failed, None, Some(error)), now);
      escaped := !reply.Committed?;
    case Raised =>
      adapter.Release(s, w);
    case Cancelled =>
      escaped := true;
  }

  // ---- Every system run is an adapter run ----

  function CallsMade(x0: System, acts: seq<Action>, n: nat): seq<Call>
    requires n <= |acts|
  {
    if n == 0 then []
    else
      var x, a := After(x0, acts, n - 1), acts[n - 1];
      CallsMade(x0, acts, n - 1) +
      if Possible(x, a) && CallOf(x, a).Some? then [CallOf(x, a).value] else []
  }

  lemma {:induction false} AtPrefix(w0: World, calls: seq<Call>, more: seq<Call>, n: nat)
    requires n <= |calls|
    ensures At(w0, calls + more, n) == At(w0, calls, n)
  {
    if n > 0 {
      AtPrefix(w0, calls, more, n - 1);
    }
  }

  /** A worker that commits and still holds its step has read the attempt number the row still has:
      nobody else was granted the step in between, and a worker does one thing at a time. */
  ghost predicate ReadFits(x: System) {
    forall w :: w in x.workers && x.workers[w].Committing? && HeldBy(x.world.db, x.workers[w].step, w) ==>
      x.workers[w].read == x.world.db.steps[x.workers[w].step].attempts
  }

  /** So the two statements have the effect of one call. */
  lemma EffectIsCall(x: System, a: Action)
    requires ReadFits(x) && Possible(x, a)
    ensures NextWorld(x, a) == if CallOf(x, a).Some? then Do(x.world, CallOf(x, a).value) else x.world
  {
  }

  /** A call changes the lease of one row only, and it sets the token only by granting a claim. */
  lemma CallTokens(x: World, c: Call, s: StepId)
    requires s in x.db.steps
    ensures Do(x, c).db.steps.Keys == x.db.steps.Keys
    ensures var row, after := x.db.steps[s], Do(x, c).db.steps[s];
            if c.Claim? && c.s == s && CanClaim(x.db, s, x.clock) then
              after.lockToken == Some(c.w) && after.attempts == row.attempts + 1
            else if (c.Complete? || c.Release?) && c.s == s && row.lockToken == Some(c.w) then after.lockToken.None?
            else after.lockToken == row.lockToken && after.attempts == row.attempts
  {
  }

  lemma CallKeys(x: World, c: Call)
    ensures Do(x, c).db.steps.Keys == x.db.steps.Keys
  {
  }

  lemma StepKeepsReadFits(x: System, a: Action)
    requires ReadFits(x)
    ensures ReadFits(Next(x, a))
  {
    if Possible(x, a) {
      EffectIsCall(x, a);
      var y := Next(x, a);
      forall w | w in y.workers && y.workers[w].Committing? && HeldBy(y.world.db, y.workers[w].step, w)
        ensures y.workers[w].read == y.world.db.steps[y.workers[w].step].attempts
      {
        StillRead(x, a, w);
      }
    }
  }

  lemma StillRead(x: System, a: Action, w: WorkerId)
    requires ReadFits(x) && Possible(x, a)
    requires NextWorld(x, a) == if CallOf(x, a).Some? then Do(x.world, CallOf(x, a).value) else x.world
    requires w in Next(x, a).workers && Next(x, a).workers[w].Committing?
    requires HeldBy(Next(x, a).world.db, Next(x, a).workers[w].step, w)
    ensures Next(x, a).workers[w].read == Next(x, a).world.db.steps[Next(x, a).workers[w].step].attempts
  {
    hide NextWorld, Do;
    var s := Next(x, a).workers[w].step;
    if CallOf(x, a).Some? {
      CallKeys(x.world, CallOf(x, a).value);
      CallTokens(x.world, CallOf(x, a).value, s);
    }
  }

  lemma {:induction false} AlwaysReadFits(x0: System, acts: seq<Action>, n: nat)
    requires Start(x0) && n <= |acts|
    ensures ReadFits(After(x0, acts, n))
  {
    if n > 0 {
      hide ReadFits, Next;
      AlwaysReadFits(x0, acts, n - 1);
      StepKeepsReadFits(After(x0, acts, n - 1), acts[n - 1]);
    } else {
      StartReads(x0);
    }
  }

  lemma StartReads(x0: System)
    requires Start(x0)
    ensures ReadFits(x0)
  {
  }

  /** The database of a system run is the database after the adapter calls it made, so everything
      proved of adapter runs holds of the system, although other calls run between the statements of
      one `complete`. */
  lemma {:induction false} SystemRefinesAdapter(x0: System, acts: seq<Action>, n: nat)
    requires Start(x0) && n <= |acts|
    ensures At(x0.world, CallsMade(x0, acts, n), |CallsMade(x0, acts, n)|) == After(x0, acts, n).world
  {
    if n > 0 {
      SystemRefinesAdapter(x0, acts, n - 1);
      AlwaysReadFits(x0, acts, n - 1);
      hide Do, CallOf, NextWorld, ReadFits;
      var x, a := After(x0, acts, n - 1), acts[n - 1];
      var calls := CallsMade(x0, acts, n - 1);
      if Possible(x, a) {
        EffectIsCall(x, a);
      }
      if Possible(x, a) && CallOf(x, a).Some? {
        AtPrefix(x0.world, calls, [CallOf(x, a).value], |calls|);
        assert CallsMade(x0, acts, n) == calls + [CallOf(x, a).value];
      } else {
        assert CallsMade(x0, acts, n) == calls;
      }
    }
  }

  /** So in every system state the two tables agree. */
  lemma SystemDisciplined(x0: System, acts: seq<Action>, n: nat)
    requires Start(x0) && n <= |acts|
    ensures Disciplined(After(x0, acts, n).world.db)
  {
    SystemRefinesAdapter(x0, acts, n);
    AlwaysDisciplined(x0.world, CallsMade(x0, acts, n), |CallsMade(x0, acts, n)|);
  }

  // ---- Leases belong to executing workers ----

  /** The lease of row s, if any, belongs to a worker executing that step in that very attempt. */
  ghost predicate LeaseOwned(x: System, s: StepId)
    requires s in x.world.db.steps
  {
    var row := x.world.db.steps[s];
    row.lockToken.Some? ==>
      var w := row.lockToken.value;
      w in x.workers && InExecute(x.workers[w]) && x.workers[w].step == s && x.workers[w].attempt == row.attempts
  }

  ghost predicate LeasesOwned(x: System) {
    && (forall s :: s in x.world.db.steps ==> LeaseOwned(x, s))
    && (forall w :: w in x.workers && x.workers[w].Claiming? ==> x.workers[w].pending in x.world.db.steps)
    && (forall w :: w in x.workers && InExecute(x.workers[w]) ==> x.workers[w].step in x.world.db.steps)
  }

  lemma StepKeepsLeaseOwned(x: System, a: Action, s: StepId)
    requires LeasesOwned(x) && s in x.world.db.steps
    ensures s in Next(x, a).world.db.steps && LeaseOwned(Next(x, a), s)
  {
    assert LeaseOwned(x, s);
    if Possible(x, a) && CallOf(x, a).Some? {
      CallTokens(x.world, CallOf(x, a).value, s);
    }
  }

  lemma StepKeepsLeasesOwned(x: System, a: Action)
    requires LeasesOwned(x)
    ensures LeasesOwned(Next(x, a))
  {
    var y := Next(x, a);
    StepKeepsKnownSteps(x, a);
    hide Next;
    forall s | s in y.world.db.steps ensures LeaseOwned(y, s) {
      StepKeepsLeaseOwned(x, a, s);
    }
  }

  lemma StepKeepsKnownSteps(x: System, a: Action)
    requires LeasesOwned(x)
    ensures var y := Next(x, a);
            && y.world.db.steps.Keys == x.world.db.steps.Keys
            && (forall w :: w in y.workers && y.workers[w].Claiming? ==> y.workers[w].pending in y.world.db.steps)
            && (forall w :: w in y.workers && InExecute(y.workers[w]) ==> y.workers[w].step in y.world.db.steps)
  {
  }

  lemma {:induction false} AlwaysLeasesOwned(x0: System, acts: seq<Action>, n: nat)
    requires Start(x0) && n <= |acts|
    ensures LeasesOwned(After(x0, acts, n))
  {
    if n > 0 {
      AlwaysLeasesOwned(x0, acts, n - 1);
      StepKeepsLeasesOwned(After(x0, acts, n - 1), acts[n - 1]);
    }
  }

  /** In every reachable state a worker holds at most one lease, for the step it is executing, and
      none outside `execute_and_complete`, unless it was stopped there. */
  lemma LeaseMeansExecuting(x0: System, acts: seq<Action>, n: nat, w: WorkerId, s: StepId)
    requires Start(x0) && n <= |acts|
    requires HeldBy(After(x0, acts, n).world.db, s, w)
    ensures var x := After(x0, acts, n);
            && w in x.workers && InExecute(x.workers[w]) && x.workers[w].step == s
            && (forall t :: HeldBy(x.world.db, t, w) ==> t == s)
  {
    AlwaysLeasesOwned(x0, acts, n);
    var x := After(x0, acts, n);
    forall t | HeldBy(x.world.db, t, w) ensures t == s {
      assert LeaseOwned(x, t) && LeaseOwned(x, s);
    }
  }

  /** The token names a worker and not an attempt, yet a commit is always for the attempt the
      worker was handed: a worker that lost its lease cannot commit into a later attempt. */
  lemma CommitsOwnAttempt(x0: System, acts: seq<Action>, n: nat)
    requires Start(x0) && n < |acts| && acts[n].Finish? && Possible(After(x0, acts, n), acts[n])
    ensures var x, y := After(x0, acts, n), After(x0, acts, n + 1);
            var p := x.workers[acts[n].w];
            || y.world.db == x.world.db
            || y.world.db.results == x.world.db.results + [ResultRow(p.step, p.attempt, p.payload, p.began, acts[n].w)]
  {
    AlwaysLeasesOwned(x0, acts, n);
    AlwaysReadFits(x0, acts, n);
    var x := After(x0, acts, n);
    var p := x.workers[acts[n].w];
    assert LeaseOwned(x, p.step);
  }

  // ---- Heartbeats that land in time ----

  /** Time never passes a worker's next heartbeat by more than the other half of the lease: after
      its sleep of lease/2 rounded down, it lands within lease/2 rounded up; the call that ends
      the execution obeys the same limit. */
  ghost predicate Timely(x0: System, acts: seq<Action>) {
    forall n, w :: 0 <= n < |acts| && acts[n].TimePasses? && w in After(x0, acts, n).workers
                   && InExecute(After(x0, acts, n).workers[w])
      ==> BeatInTime(After(x0, acts, n), w, acts[n].seconds)
  }

  predicate BeatInTime(x: System, w: WorkerId, seconds: real)
    requires w in x.workers && InExecute(x.workers[w])
  {
    x.world.clock + seconds <= x.workers[w].since + SleepSecs(x.lease) as real + ((x.lease + 1) / 2) as real
  }

  ghost predicate LeaseLive(x: System, w: WorkerId)
    requires w in x.workers && InExecute(x.workers[w])
  {
    var p, db := x.workers[w], x.world.db;
    && HeldBy(db, p.step, w)
    && db.steps[p.step].lockExpiresAt == Some(p.since + x.lease as real)
    && x.world.clock <= p.since + x.lease as real
    && db.steps[p.step].attempts == p.attempt
    && (p.Executing? ==> p.beating)
  }

  ghost predicate AllLive(x: System) {
    forall w :: w in x.workers ==> !x.workers[w].Crashed? && (InExecute(x.workers[w]) ==> LeaseLive(x, w))
  }

  /** What a call does to a row that w holds. */
  lemma CallOnHeldRow(x: World, c: Call, s: StepId, w: WorkerId)
    requires HeldBy(x.db, s, w) && !CanClaim(x.db, s, x.clock)
    requires c.Extend? || c.Complete? || c.Release? ==> c.s != s || c.w != w
    ensures HeldBy(Do(x, c).db, s, w)
    ensures Do(x, c).db.steps[s].lockExpiresAt == x.db.steps[s].lockExpiresAt
    ensures Do(x, c).db.steps[s].attempts == x.db.steps[s].attempts
  {
  }

  /** The lease of a worker survives the actions of everyone else. */
  lemma OthersKeepLive(x: System, a: Action, w: WorkerId)
    requires w in x.workers && InExecute(x.workers[w]) && LeaseLive(x, w)
    requires a.ControlPlaneEnqueue? || a.TimePasses? || a.w != w
    requires a.TimePasses? ==> BeatInTime(x, w, a.seconds) && 0 <= x.lease
    ensures w in Next(x, a).workers && Next(x, a).workers[w] == x.workers[w] && LeaseLive(Next(x, a), w)
  {
    if Possible(x, a) && CallOf(x, a).Some? {
      CallOnHeldRow(x.world, CallOf(x, a).value, x.workers[w].step, w);
    }
  }

  /** The acting worker's own lease. */
  lemma ActorKeepsLive(x: System, a: Action)
    requires 0 <= x.lease && Possible(x, a) && !a.ControlPlaneEnqueue? && !a.TimePasses?
    requires !x.workers[a.w].Crashed? && (InExecute(x.workers[a.w]) ==> LeaseLive(x, a.w))
    ensures var p := Next(x, a).workers[a.w];
            !p.Crashed? && (InExecute(p) ==> LeaseLive(Next(x, a), a.w))
  {
  }

  lemma StepKeepsLive(x: System, a: Action)
    requires 0 <= x.lease && AllLive(x)
    requires a.TimePasses? ==> forall w :: w in x.workers && InExecute(x.workers[w]) ==> BeatInTime(x, w, a.seconds)
    ensures AllLive(Next(x, a))
  {
    if Possible(x, a) {
      var y := Next(x, a);
      forall w | w in y.workers
        ensures !y.workers[w].Crashed? && (InExecute(y.workers[w]) ==> LeaseLive(y, w))
      {
        if !a.ControlPlaneEnqueue? && !a.TimePasses? && a.w == w {
          ActorKeepsLive(x, a);
        } else if InExecute(x.workers[w]) {
          OthersKeepLive(x, a, w);
        }
      }
    }
  }

  lemma {:induction false} SameLease(x0: System, acts: seq<Action>, n: nat)
    requires n <= |acts|
    ensures After(x0, acts, n).lease == x0.lease
  {
    if n > 0 {
      SameLease(x0, acts, n - 1);
    }
  }

  /** With timely heartbeats the lease of an executing worker never lapses, whatever is enqueued:
      no run crashes a worker or stops a heartbeat. */
  lemma {:induction false} TimelyHeartbeatsKeepLeases(x0: System, acts: seq<Action>, n: nat)
    requires Start(x0) && 0 <= x0.lease && Timely(x0, acts) && n <= |acts|
    ensures AllLive(After(x0, acts, n))
  {
    if n > 0 {
      TimelyHeartbeatsKeepLeases(x0, acts, n - 1);
      SameLease(x0, acts, n - 1);
      StepKeepsLive(After(x0, acts, n - 1), acts[n - 1]);
    }
  }

  /** With timely heartbeats no claim of a step under execution succeeds, and every `complete` a
      worker sends commits. */
  lemma TimelyHeartbeatsExclude(x0: System, acts: seq<Action>, n: nat)
    requires Start(x0) && 0 <= x0.lease && Timely(x0, acts) && n < |acts|
    ensures var x := After(x0, acts, n);
            && (forall w :: w in x.workers && InExecute(x.workers[w]) ==>
                  !CanClaim(x.world.db, x.workers[w].step, x.world.clock))
            && (acts[n].Finish? && Possible(x, acts[n]) ==>
                  |After(x0, acts, n + 1).world.db.results| == |x.world.db.results| + 1)
  {
    TimelyHeartbeatsKeepLeases(x0, acts, n);
    var x := After(x0, acts, n);
    SameLease(x0, acts, n);
    forall w | w in x.workers && InExecute(x.workers[w])
      ensures !CanClaim(x.world.db, x.workers[w].step, x.world.clock)
    {
      assert LeaseLive(x, w);
    }
    if acts[n].Finish? && Possible(x, acts[n]) {
      assert LeaseLive(x, acts[n].w);
    }
  }

  /** The two halves make up the lease, also when it is odd. */
  lemma HalvesOfLease(x: System, w: WorkerId, seconds: real)
    requires w in x.workers && InExecute(x.workers[w])
    ensures BeatInTime(x, w, seconds) <==> x.world.clock + seconds <= x.workers[w].since + x.lease as real
  {
    assert x.lease / 2 + (x.lease + 1) / 2 == x.lease;
  }

  /** The limit cannot be relaxed: once the whole lease has passed without a heartbeat, an enqueue lets
      another worker take the step over, in its next attempt. */
  lemma LateHeartbeatLosesLease(x: System, w: WorkerId, v: WorkerId)
    requires w in x.workers && x.workers[w].Executing? && HeldBy(x.world.db, x.workers[w].step, w)
    requires x.world.db.steps[x.workers[w].step].lockExpiresAt == Some(x.workers[w].since + x.lease as real)
    requires v in x.workers && x.workers[v].Polling?
    ensures var p, s := x.workers[w], x.workers[w].step;
            var y := Next(Next(Next(x, ControlPlaneEnqueue(s)), Poll(v, Some(s))), TryClaim(v));
            var attempt := x.world.db.steps[s].attempts + 1;
            if x.world.clock > p.since + x.lease as real then
              HeldBy(y.world.db, s, v) && !HeldBy(y.world.db, s, w)
              && y.workers[v] == Executing(s, attempt, x.world.clock, true)
            else HeldBy(y.world.db, s, w) && y.workers[v].Polling?
  {
    var s := x.workers[w].step;
    var x1 := Next(x, ControlPlaneEnqueue(s));
    assert x1.world.db.steps[s] == x.world.db.steps[s].(status := Pending);
    var x2 := Next(x1, Poll(v, Some(s)));
    assert x2.world == x1.world && x2.workers[v] == Claiming(s);
  }

  // ---- One step, from the queue to its result ----

  /** From the start, the first worker that finds a step and claims it executes attempt 1, and holds the
      step for the length of a lease. */
  lemma FirstClaim(x0: System, w: WorkerId, s: StepId)
    requires Start(x0) && w in x0.workers && s in x0.world.db.steps
    ensures var x := After(x0, [Poll(w, Some(s)), TryClaim(w)], 2);
            && x.workers == x0.workers[w := Executing(s, 1, x0.world.clock, true)]
            && x.world.db == x0.world.db.(steps := x0.world.db.steps[s :=
                 Row(x0.world.db.steps[s].planId, Running, Some(w), Some(x0.world.clock + x0.lease as real), 1)])
  {
    var acts := [Poll(w, Some(s)), TryClaim(w)];
    assert FreshRow(x0.world.db.steps[s]);
    assert After(x0, acts, 0) == x0;
    var x1 := After(x0, acts, 1);
    assert x1 == Next(x0, Poll(w, Some(s)));
    assert x1.workers == x0.workers[w := Claiming(s)] && x1.world == x0.world;
    assert After(x0, acts, 2) == Next(x1, TryClaim(w));
  }

  /** A poll answers any pending step, and nothing exactly when no step is pending. */
  lemma PollAnswers(x: System, w: WorkerId, s: StepId)
    requires w in x.workers && x.workers[w].Polling?
    ensures var pending := set t | t in x.world.db.steps && x.world.db.steps[t].status == Pending;
            && (Next(x, Poll(w, Some(s))).workers[w] == Claiming(s) <==> s in pending)
            && (Possible(x, Poll(w, None)) <==> pending == {})
    ensures Next(x, Poll(w, Some(s))).world == x.world
  {
    var steps := x.world.db.steps;
    var pending := set t | t in steps && steps[t].status == Pending;
    forall t | t in steps && steps[t].status.Pending? ensures t in pending {
    }
    if pending == {} {
      assert Finds(x.world.db, None);
    }
  }

  /** The control plane makes a step pending and changes nothing else. */
  lemma EnqueueIsPending(x: System, s: StepId)
    ensures var y := Next(x, ControlPlaneEnqueue(s));
            && y.workers == x.workers && y.world.clock == x.world.clock
            && y.world.db.results == x.world.db.results && y.world.db.steps.Keys == x.world.db.steps.Keys
            && (forall t :: t in x.world.db.steps ==>
                  y.world.db.steps[t] ==
                  if t == s then x.world.db.steps[t].(status := Pending) else x.world.db.steps[t])
  {
  }

  /** The clock advances by what passes, and nothing else changes. */
  lemma TimeOnlyPasses(x: System, seconds: real)
    requires seconds > 0.0
    ensures Next(x, TimePasses(seconds)) == System(World(x.world.db, x.world.clock + seconds), x.workers, x.lease)
  {
  }

  /** A worker that finds the step taken polls again, and one that finds nothing goes on polling. */
  lemma TakenStepPolls(x: System, w: WorkerId)
    requires w in x.workers
    ensures x.workers[w].Claiming? && !CanClaim(x.world.db, x.workers[w].pending, x.world.clock) ==>
              Next(x, TryClaim(w)) == x.(workers := x.workers[w := Polling])
    ensures x.workers[w].Polling? ==> Next(x, Poll(w, None)).workers[w].Polling?
  {
  }

  /** A worker that holds the step it executes: what is stored once its tool has ended, and that it is
      free again. The result is the same as that of the method above. */
  lemma EndOfExecution(x: System, w: WorkerId, output: Option<string>, error: string)
    requires w in x.workers && x.workers[w].Executing?
    requires HeldBy(x.world.db, x.workers[w].step, w)
    ensures var p, db, now := x.workers[w], x.world.db, x.world.clock;
            var returned := Next(Next(Next(x, ToolReturns(w, output)), Insert(w)), Finish(w));
            var unknown := Next(Next(Next(x, ToolUnknown(w, error)), Insert(w)), Finish(w));
            var raised := Next(Next(x, ToolRaises(w)), GiveBack(w));
            && returned.world.db == CompletedBy(db, p.step, w, Payload(Completed, output, None), now)
            && unknown.world.db == CompletedBy(db, p.step, w, Payload(Failed, None, Some(error)), now)
            && raised.world.db == Released(db, p.step, w)
            && returned.workers[w].Polling? && unknown.workers[w].Polling? && raised.workers[w].Polling?
  {
    hide Next, CompletedBy, Released;
    ToolEnds(x, w, output, error);
    ReturnedEnds(x, w, Payload(Completed, output, None), false, ToolReturns(w, output));
    ReturnedEnds(x, w, Payload(Failed, None, Some(error)), true, ToolUnknown(w, error));
    RaisedEnds(x, w);
  }

  lemma ToolEnds(x: System, w: WorkerId, output: Option<string>, error: string)
    requires w in x.workers && x.workers[w].Executing?
    ensures var p := x.workers[w];
            && Next(x, ToolReturns(w, output)) ==
               System(x.world, x.workers[w :=
                 Finishing(p.step, p.attempt, p.since, Payload(Completed, output, None), false)], x.lease)
            && Next(x, ToolUnknown(w, error)) ==
               System(x.world, x.workers[w :=
                 Finishing(p.step, p.attempt, p.since, Payload(Failed, None, Some(error)), true)], x.lease)
  {
  }

  lemma RaisedEnds(x: System, w: WorkerId)
    requires w in x.workers && x.workers[w].Executing?
    ensures var y := Next(Next(x, ToolRaises(w)), GiveBack(w));
            && y.world.db == Released(x.world.db, x.workers[w].step, w)
            && y.workers[w].Polling?
  {
  }

  lemma ReturnedEnds(x: System, w: WorkerId, payload: Payload, unknown: bool, a: Action)
    requires w in x.workers && x.workers[w].Executing? && HeldBy(x.world.db, x.workers[w].step, w)
    requires a.ToolReturns? || a.ToolUnknown?
    requires var p := x.workers[w];
             Next(x, a) ==
             System(x.world, x.workers[w := Finishing(p.step, p.attempt, p.since, payload, unknown)], x.lease)
    ensures var y := Next(Next(Next(x, a), Insert(w)), Finish(w));
            && y.world.db == CompletedBy(x.world.db, x.workers[w].step, w, payload, x.world.clock)
            && y.workers[w].Polling?
  {
  }

  /** A worker's loop ends by an error exactly when it finishes a step whose tool is unknown and which it
      does not hold any more. */
  lemma CrashesExactly(x: System, a: Action, w: WorkerId)
    requires w in x.workers && !x.workers[w].Crashed?
    ensures var p := x.workers[w];
            Next(x, a).workers[w].Crashed? <==>
              a == Finish(w) && p.Committing? && p.unknownTool && !HeldBy(x.world.db, p.step, w)
  {
  }

  /** A worker sends a heartbeat half a lease after the last renewal at the earliest; if it finds the
      lease gone it sends no more. */
  lemma HeartbeatsSpaced(x: System, w: WorkerId)
    requires w in x.workers && x.workers[w].Executing?
    ensures var p := x.workers[w];
            Possible(x, Heartbeat(w)) <==> p.beating && x.world.clock >= p.since + (x.lease / 2) as real
    ensures var y := Next(x, Heartbeat(w));
            Possible(x, Heartbeat(w)) && !HeldBy(x.world.db, x.workers[w].step, w) ==>
              y.world == x.world && !Possible(y, Heartbeat(w))
  {
  }
}
