/** The step-dispatch tables and the adapter that updates them.

    Every SQL statement of the adapter is one atomic change of the two tables; `now` is the
    database clock at that statement, in `complete` when its transaction began. The functions say what
    each statement does to a pair of tables, and the class performs the same statements on its own
    fields. */
module LeaseStore {
  import opened Wrappers

  type StepId = string
  type WorkerId = string

  datatype Outcome = Completed | Failed | Skipped
  datatype Status = Pending | Running | Finished(outcome: Outcome)

  datatype Row = Row(
    planId: string,
    status: Status,
    lockToken: Option<WorkerId>,
    lockExpiresAt: Option<real>,
    attempts: nat)

  datatype Payload = Payload(status: Outcome, output: Option<string>, error: Option<string>)

  datatype ResultRow = ResultRow(
    stepId: StepId,
    attempt: nat,
    payload: Payload,
    finishedAt: real,
    workerId: WorkerId)

  datatype StepMessage = StepMessage(planId: string, stepId: StepId, attempt: nat)

  /** The `steps` table by primary key, and the append-only `step_results` table. */
  datatype Store = Store(steps: map<StepId, Row>, results: seq<ResultRow>)

  /** LeaseExpired is the adapter's own error; UnknownStep is the integrity error the INSERT
      raises when no row gives it an attempt number. */
  datatype CompleteReply = Committed | LeaseExpired | UnknownStep

  predicate HeldBy(db: Store, s: StepId, w: WorkerId) {
    s in db.steps && db.steps[s].lockToken == Some(w)
  }

  /** The WHERE clause of `claim`; comparing with a NULL expiry is not true. */
  predicate Claimable(row: Row, now: real) {
    && row.status.Pending?
    && (row.lockToken.None? || (row.lockExpiresAt.Some? && row.lockExpiresAt.value < now))
  }

  predicate CanClaim(db: Store, s: StepId, now: real) {
    s in db.steps && Claimable(db.steps[s], now)
  }

  function Enqueued(db: Store, s: StepId): Store {
    if s in db.steps then db.(steps := db.steps[s := db.steps[s].(status := Pending)]) else db
  }

  function Claimed(db: Store, s: StepId, w: WorkerId, lease: int, now: real): Store {
    if CanClaim(db, s, now) then
      var row := db.steps[s];
      db.(steps := db.steps[s := Row(row.planId, Running, Some(w), Some(now + lease as real), row.attempts + 1)])
    else db
  }

  function Extended(db: Store, s: StepId, w: WorkerId, lease: int, now: real): Store {
    if HeldBy(db, s, w) then
      db.(steps := db.steps[s := db.steps[s].(lockExpiresAt := Some(now + lease as real))])
    else db
  }

  function Unlocked(row: Row, status: Status): Row {
    row.(status := status, lockToken := None, lockExpiresAt := None)
  }

  /** The transaction of `complete`: both tables change, or neither. */
  function CompletedBy(db: Store, s: StepId, w: WorkerId, p: Payload, now: real): Store {
    if HeldBy(db, s, w) then
      Store(db.steps[s := Unlocked(db.steps[s], Finished(p.status))],
            db.results + [ResultRow(s, db.steps[s].attempts, p, now, w)])
    else db
  }

  function Released(db: Store, s: StepId, w: WorkerId): Store {
    if HeldBy(db, s, w) then db.(steps := db.steps[s := Unlocked(db.steps[s], Pending)]) else db
  }

  /** The adapter, with the two tables it talks to as its fields. */
  class PostgresDispatchAdapter {
    var steps: map<StepId, Row>
    var results: seq<ResultRow>

    ghost function Db(): Store
      reads this
    {
      Store(steps, results)
    }

    method NextPendingStepId() returns (id: Option<StepId>)
      ensures id.Some? ==> id.value in steps && steps[id.value].status.Pending?
      ensures id.None? ==> forall s :: s in steps ==> !steps[s].status.Pending?
    {
      var pending := set s | s in steps && steps[s].status.Pending?;
      if pending == {} {
        forall s | s in steps ensures !steps[s].status.Pending? {
          assert s !in pending;
        }
        return None;
      }
      var s :| s in pending;
      return Some(s);
    }

    method Enqueue(s: StepId)
      modifies this
      ensures Db() == Enqueued(old(Db()), s)
    {
      if s in steps {
        steps := steps[s := steps[s].(status := Pending)];
      }
    }

    method Claim(s: StepId, w: WorkerId, lease: int, now: real) returns (msg: Option<StepMessage>)
      modifies this
      ensures Db() == Claimed(old(Db()), s, w, lease, now)
      ensures msg.Some? <==> CanClaim(old(Db()), s, now)
      ensures msg.Some? ==> HeldBy(Db(), s, w)
      ensures msg.Some? ==> msg.value == StepMessage(steps[s].planId, s, old(steps[s].attempts) + 1)
    {
      if s in steps && Claimable(steps[s], now) {
        var row := steps[s];
        steps := steps[s := Row(row.planId, Running, Some(w), Some(now + lease as real), row.attempts + 1)];
        return Some(StepMessage(row.planId, s, row.attempts + 1));
      }
      return None;
    }

    method Extend(s: StepId, w: WorkerId, lease: int, now: real) returns (stillHeld: bool)
      modifies this
      ensures Db() == Extended(old(Db()), s, w, lease, now)
      ensures stillHeld <==> HeldBy(old(Db()), s, w)
    {
      stillHeld := s in steps && steps[s].lockToken == Some(w);
      if stillHeld {
        steps := steps[s := steps[s].(lockExpiresAt := Some(now + lease as real))];
      }
    }

    /** Inserts the result first and rolls both tables back when the guarded UPDATE misses. */
    method Complete(s: StepId, w: WorkerId, p: Payload, now: real) returns (reply: CompleteReply)
      modifies this
      ensures Db() == CompletedBy(old(Db()), s, w, p, now)
      ensures reply.Committed? <==> HeldBy(old(Db()), s, w)
      ensures reply.UnknownStep? <==> s !in old(steps)
      ensures !reply.Committed? ==> steps == old(steps) && results == old(results)
    {
      var stepsBefore, resultsBefore := steps, results;
      if s !in steps {
        return UnknownStep;
      }
      results := results + [ResultRow(s, steps[s].attempts, p, now, w)];
      var updated := 0;
      if steps[s].lockToken == Some(w) {
        steps := steps[s := Unlocked(steps[s], Finished(p.status))];
        updated := 1;
      }
      if updated != 1 {
        steps, results := stepsBefore, resultsBefore;
        return LeaseExpired;
      }
      return Committed;
    }

    method Release(s: StepId, w: WorkerId)
      modifies this
      ensures Db() == Released(old(Db()), s, w)
    {
      if s in steps && steps[s].lockToken == Some(w) {
        steps := steps[s := Unlocked(steps[s], Pending)];
      }
    }
  }
}
