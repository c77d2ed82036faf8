/**
 Exactly-once commands: what the ledger guarantees over runs of the job protocol, and why
 neither clean-up can be noticed.
 */
module JobReplays {
  import opened Prelude
  import opened CommandLedger
  import opened JobTables
  import opened JobDatabase
  import opened JobInvariants

  // ---------------------------------------------------------------- stored until expiry

  lemma StepKeepsLiveRow(s: Db, op: Op, k: LedgerKey)
    requires Sound(s) && k in s.rows && Step(s, op).t.now < s.rows[k].expiresAt
    ensures k in Step(s, op).rows && Step(s, op).rows[k] == s.rows[k]
  {
    StepSound(s, op);
  }

  /** A completed row stays as it is until it expires. */
  lemma {:induction false} LiveRowPersists(s: Db, ops: seq<Op>, k: LedgerKey)
    requires Sound(s) && k in s.rows && After(s, ops).t.now < s.rows[k].expiresAt
    ensures k in After(s, ops).rows && After(s, ops).rows[k] == s.rows[k]
    decreases |ops|
  {
    if ops != [] {
      var before := ops[..|ops| - 1];
      RunSound(s, before);
      StepSound(After(s, before), ops[|ops| - 1]);
      LiveRowPersists(s, before, k);
      StepKeepsLiveRow(After(s, before), ops[|ops| - 1], k);
    }
  }

  /** After a fresh command has succeeded, and until its retention ends, issuing its key again
      in any later database runs no transaction: the same request is answered from the stored
      response, and any other request is refused and changes nothing. */
  lemma ExactlyOnce(s: Db, c: Command, id: CommandId, ops: seq<Op>, again: Command, id': CommandId)
    requires Sound(s) && !LiveAt(s.rows, KeyOf(c, id), s.t.now) && Execute(s, c, id).1.Success?
    requires KeyOf(again, id') == KeyOf(c, id)
    requires After(Execute(s, c, id).0, ops).t.now < s.t.now + Retention(s.t.cfg, c)
    ensures var later, stored := After(Execute(s, c, id).0, ops), Execute(s, c, id).1.value;
            Execute(later, again, id') ==
              if RequestOf(again) == RequestOf(c)
              then (later.(t := ReplayStored(later.t, again, stored).0),
                    Success(ReplayStored(later.t, again, stored).1))
              else (later, Failure(AlreadyExists))
  {
    hide Mutate, KeyOf, RequestOf, ReplayStored, Retention, Sound, Moves, After;
    var done := Execute(s, c, id).0;
    ExecuteSound(s, c, id);
    LiveRowPersists(done, ops, KeyOf(c, id));
    var row := After(done, ops).rows[KeyOf(c, id)];
    assert row == Row.Completed(RequestOf(c), [], Execute(s, c, id).1.value, s.t.now + Retention(s.t.cfg, c));
    assert HashesMeet(row.hash, row.aliases, RequestOf(again), []) <==> RequestOf(again) == RequestOf(c) by {
      assert RequestOf(c) in [RequestOf(c)] + [];
    }
  }

  /** A replay never touches anything but the leases that a recovery still holds. */
  lemma ReplayChangesOnlyHeldLeases(s: Db, c: Command, id: CommandId)
    requires Sound(s) && LiveAt(s.rows, KeyOf(c, id), s.t.now)
    ensures Execute(s, c, id).0.rows == s.rows
    ensures !c.Recover? ==> Execute(s, c, id).0 == s
    ensures var t := Execute(s, c, id).0.t;
            t == s.t.(jobs := t.jobs) && t.jobs.Keys == s.t.jobs.Keys
            && forall j :: j in t.jobs && t.jobs[j] != s.t.jobs[j] ==>
                 t.jobs[j] == s.t.jobs[j].(lease := t.jobs[j].lease) && Holding(s.t, s.t.jobs[j], t.jobs[j])
  {
  }

  // ---------------------------------------------------------------- no half-done command

  /** No command is ever found still processing: that answer cannot occur. */
  lemma NeverStillProcessing(s: Db, c: Command, id: CommandId)
    requires Reachable(s)
    ensures Settled(s.rows)
    ensures Execute(s, c, id).1 != Failure(Aborted)
  {
    ReachableSound(s);
  }

  // ---------------------------------------------------------------- clean-up is invisible

  function WithoutOutbox(t: Tables): (r: Tables) {
    t.(outbox := {})
  }

  /** Two databases that differ at most in expired ledger rows and in purged outbox rows. */
  ghost predicate Alike(a: Db, b: Db) {
    && Sound(a) && Sound(b)
    && WithoutOutbox(a.t) == WithoutOutbox(b.t)
    && SameLive(a.rows, b.rows, a.t.now)
  }

  ghost predicate AlikeEffects(a: Effect, b: Effect) {
    || (a.Failure? && a == b)
    || (a.Success? && b.Success? && a.value.1 == b.value.1 && WithoutOutbox(a.value.0) == WithoutOutbox(b.value.0))
  }

  lemma SameRuntime(t: Tables, u: Tables)
    requires WithoutOutbox(t) == WithoutOutbox(u)
    ensures SelectRuntime(t) == SelectRuntime(u)
  {
    assert forall n :: HasRoom(t, n) == HasRoom(u, n);
  }

  lemma ClaimAlike(t: Tables, u: Tables, c: Command)
    requires WithoutOutbox(t) == WithoutOutbox(u) && c.Claim?
    ensures AlikeEffects(ClaimJob(t, c), ClaimJob(u, c))
  {
    SameRuntime(t, u);
  }

  lemma OutcomeAlike(t: Tables, u: Tables, c: Command)
    requires TablesSound(t) && TablesSound(u) && WithoutOutbox(t) == WithoutOutbox(u)
    ensures c.Complete? ==> AlikeEffects(CompleteJob(t, c), CompleteJob(u, c))
    ensures c.Fail? ==> AlikeEffects(FailJob(t, c), FailJob(u, c))
  {
    if (c.Complete? || c.Fail?) && Holds(t.jobs, c.job, c.token) {
      assert !Caused(t.jobs, JobAnalytics(c.job)) && !Caused(t.jobs, JobCompleted(c.job));
      assert !Caused(t.jobs, JobFailed(c.job));
    }
  }

  lemma SameToRecover(t: Tables, u: Tables, batch: int)
    requires WithoutOutbox(t) == WithoutOutbox(u)
    ensures ToRecover(t, batch) == ToRecover(u, batch)
  {
    hide TakeExpired;
    assert (set j | j in t.jobs && Recoverable(t, j)) == (set j | j in u.jobs && Recoverable(u, j)) by {
      assert forall j :: Recoverable(t, j) == Recoverable(u, j);
    }
  }

  lemma SameRecords(t: Tables, u: Tables, taken: seq<JobId>)
    requires WithoutOutbox(t) == WithoutOutbox(u) && forall j :: j in taken ==> j in t.jobs
    ensures Records(t, taken) == Records(u, taken)
  {
    hide Records;
  }

  lemma RecoverAlike(t: Tables, u: Tables, c: Command)
    requires WithoutOutbox(t) == WithoutOutbox(u) && c.Recover?
    ensures AlikeEffects(RecoverLeases(t, c), RecoverLeases(u, c))
  {
    hide Records, ToRecover, RecordOf;
    SameToRecover(t, u, c.batch);
    SameRecords(t, u, ToRecover(t, c.batch));
  }

  lemma ScheduleAlike(t: Tables, u: Tables, c: Command, key: CommandId)
    requires WithoutOutbox(t) == WithoutOutbox(u) && c.Schedule?
    ensures AlikeEffects(ScheduleJob(t, c, key), ScheduleJob(u, c, key))
  {
    assert KeyHolders(t, c.workflow, key) == KeyHolders(u, c.workflow, key);
    assert SlotHolders(t, c.workflow, c.at) == SlotHolders(u, c.workflow, c.at);
  }

  lemma MutateAlike(t: Tables, u: Tables, c: Command, id: CommandId)
    requires TablesSound(t) && TablesSound(u) && WithoutOutbox(t) == WithoutOutbox(u)
    ensures AlikeEffects(Mutate(t, c, id), Mutate(u, c, id))
  {
    match c
    case Claim(_, _, _, _, _, _) => ClaimAlike(t, u, c);
    case Complete(_, _) => OutcomeAlike(t, u, c);
    case Fail(_, _, _, _) => OutcomeAlike(t, u, c);
    case Recover(_, _, _, _) => RecoverAlike(t, u, c);
    case Schedule(_, _, _, _, _, _) => ScheduleAlike(t, u, c, IdOf(c, id));
    case _ =>
  }

  lemma ReplayAlike(t: Tables, u: Tables, c: Command, stored: Response)
    requires WithoutOutbox(t) == WithoutOutbox(u)
    ensures ReplayStored(t, c, stored).1 == ReplayStored(u, c, stored).1
    ensures WithoutOutbox(ReplayStored(t, c, stored).0) == WithoutOutbox(ReplayStored(u, c, stored).0)
  {
    if c.Recover? && stored.Recovered? {
      assert RenewedJobs(t, stored.leases, c.worker, c.process) == RenewedJobs(u, stored.leases, c.worker, c.process);
    }
  }

  lemma ExecuteAlike(a: Db, b: Db, c: Command, id: CommandId)
    requires Alike(a, b)
    ensures Alike(Execute(a, c, id).0, Execute(b, c, id).0)
    ensures Execute(a, c, id).1 == Execute(b, c, id).1
  {
    hide Mutate, ReplayStored, KeyOf, RequestOf, Sound;
    var k, request, now := KeyOf(c, id), RequestOf(c), a.t.now;
    ExecuteSound(a, c, id);
    ExecuteSound(b, c, id);
    ReserveIgnoresExpired(a.rows, b.rows, k, request, [], now);
    match ReserveRow(a.rows, k, request, [], now).1
    case Replay(stored) => ReplayAlike(a.t, b.t, c, stored);
    case Fresh => FreshAlike(a, b, c, id);
    case Conflict =>
    case InProgress =>
  }

  lemma FreshAlike(a: Db, b: Db, c: Command, id: CommandId)
    requires Alike(a, b)
    ensures ExecuteFresh(a, c, id).1 == ExecuteFresh(b, c, id).1
    ensures WithoutOutbox(ExecuteFresh(a, c, id).0.t) == WithoutOutbox(ExecuteFresh(b, c, id).0.t)
    ensures SameLive(ExecuteFresh(a, c, id).0.rows, ExecuteFresh(b, c, id).0.rows, a.t.now)
  {
    MutateAlike(a.t, b.t, c, id);
    var x, y := ExecuteFresh(a, c, id).0.rows, ExecuteFresh(b, c, id).0.rows;
    forall k | LiveAt(x, k, a.t.now) || LiveAt(y, k, a.t.now)
      ensures k in x && k in y && x[k] == y[k]
    {
      assert k != KeyOf(c, id) ==> LiveAt(a.rows, k, a.t.now) || LiveAt(b.rows, k, a.t.now);
    }
  }

  lemma DispatchAlike(t: Tables, u: Tables, j: JobId)
    requires TablesSound(t) && TablesSound(u) && WithoutOutbox(t) == WithoutOutbox(u)
    ensures WithoutOutbox(DispatchJob(t, j)) == WithoutOutbox(DispatchJob(u, j))
  {
    if Dispatchable(t, j) {
      assert !Caused(t.jobs, Dispatched(j, t.jobs[j].dispatchAttempts + 1));
    }
  }

  lemma NodesAlike(t: Tables, u: Tables, n: NodeId, status: NodeStatus, limit: int, refresh: bool)
    requires WithoutOutbox(t) == WithoutOutbox(u)
    ensures WithoutOutbox(UpsertNode(t, n, status, limit, refresh)) == WithoutOutbox(UpsertNode(u, n, status, limit, refresh))
    ensures WithoutOutbox(HeartbeatRow(t, n, limit)) == WithoutOutbox(HeartbeatRow(u, n, limit))
  {
    hide RunningOn;
  }

  lemma StaleAlike(t: Tables, u: Tables, w: WorkflowId, user: UserId, automaticOnly: bool)
    requires WithoutOutbox(t) == WithoutOutbox(u)
    ensures WithoutOutbox(CancelStaleJobs(t, w, user, automaticOnly)) == WithoutOutbox(CancelStaleJobs(u, w, user, automaticOnly))
  {
    assert t.jobs == u.jobs && t.now == u.now;
  }

  lemma TablesStepAlike(a: Db, b: Db, op: Op)
    requires Alike(a, b) && TablesSound(a.t) && TablesSound(b.t) && !op.Run? && !op.PurgeLedger?
    ensures WithoutOutbox(Step(a, op).t) == WithoutOutbox(Step(b, op).t)
    ensures Step(a, op).rows == a.rows && Step(b, op).rows == b.rows
  {
    hide DispatchJob, Sound, SameLive, TablesSound, UpsertNode, HeartbeatRow, CancelStaleJobs;
    match op
    case Dispatch(j) => DispatchAlike(a.t, b.t, j);
    case Upsert(n, status, limit, refresh) => NodesAlike(a.t, b.t, n, status, limit, refresh);
    case HeartbeatNode(n, limit) => NodesAlike(a.t, b.t, n, Ready, limit, true);
    case CancelStale(w, user, automaticOnly) => StaleAlike(a.t, b.t, w, user, automaticOnly);
    case _ =>
  }

  lemma StepAlike(a: Db, b: Db, op: Op)
    requires Alike(a, b)
    ensures Alike(Step(a, op), Step(b, op))
  {
    StepSound(a, op);
    StepSound(b, op);
    if op.Run? {
      ExecuteAlike(a, b, op.c, op.id);
    } else if op.PurgeLedger? {
      forall k | LiveAt(Step(a, op).rows, k, a.t.now) || LiveAt(Step(b, op).rows, k, a.t.now)
        ensures k in Step(a, op).rows && k in Step(b, op).rows && Step(a, op).rows[k] == Step(b, op).rows[k]
      {
        assert LiveAt(a.rows, k, a.t.now) || LiveAt(b.rows, k, a.t.now);
      }
    } else {
      TablesStepAlike(a, b, op);
      forall k | LiveAt(a.rows, k, Step(a, op).t.now) || LiveAt(b.rows, k, Step(a, op).t.now)
        ensures k in a.rows && k in b.rows && a.rows[k] == b.rows[k]
      {
        assert LiveAt(a.rows, k, a.t.now) || LiveAt(b.rows, k, a.t.now);
      }
    }
  }

  lemma {:induction false} RunAlike(a: Db, b: Db, ops: seq<Op>)
    requires Alike(a, b)
    ensures Alike(After(a, ops), After(b, ops))
    decreases |ops|
  {
    if ops != [] {
      RunAlike(a, b, ops[..|ops| - 1]);
      StepAlike(After(a, ops[..|ops| - 1]), After(b, ops[..|ops| - 1]), ops[|ops| - 1]);
    }
  }

  /** Deleting expired ledger rows and any outbox rows at some point changes no later reply,
      and no later state of the jobs, the nodes, the workflows or the inserted events. */
  lemma CleanupIsInvisible(
    s: Db, keys: set<LedgerKey>, events: set<Event>, ops: seq<Op>, c: Command, id: CommandId)
    requires Reachable(s)
    ensures var cleaned := Step(Step(s, PurgeLedger(keys)), PurgeOutbox(events));
            && WithoutOutbox(After(cleaned, ops).t) == WithoutOutbox(After(s, ops).t)
            && Execute(After(cleaned, ops), c, id).1 == Execute(After(s, ops), c, id).1
  {
    ReachableSound(s);
    var purged := Step(s, PurgeLedger(keys));
    var cleaned := Step(purged, PurgeOutbox(events));
    StepSound(s, PurgeLedger(keys));
    StepSound(purged, PurgeOutbox(events));
    PurgeIsInvisible(s.rows, keys, s.t.now, s.t.now);
    RunAlike(s, cleaned, ops);
    ExecuteAlike(After(s, ops), After(cleaned, ops), c, id);
  }
}
