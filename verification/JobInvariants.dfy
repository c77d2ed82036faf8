/**
 What every operation keeps: the invariant of the job tables and the moves a job row makes.
 */
module JobInvariants {
  import opened Prelude
  import opened CommandLedger
  import opened JobTables
  import opened JobDatabase

  // ---------------------------------------------------------------- the invariant

  /** A job is running exactly when it holds a lease, under a token already drawn. */
  ghost predicate RowSound(t: Tables, job: Job) {
    && (job.status.Running? <==> job.lease.Some?)
    && (job.lease.Some? ==> job.lease.value.token < t.nextToken)
    && (job.node.Some? ==> job.node.value in t.nodes)
    && job.workflow in t.workflows
  }

  ghost predicate RowsSound(t: Tables) {
    forall j :: j in t.jobs ==> j < t.nextJob && RowSound(t, t.jobs[j])
  }

  /** Each node's counter is the number of jobs running on it. */
  ghost predicate SlotsExact(t: Tables) {
    forall n :: n in t.nodes ==> t.nodes[n].runningJobs == |RunningOn(t.jobs, n)|
  }

  predicate InFlight(job: Job) {
    job.status.Queued? || job.status.Running?
  }

  predicate FlyTogether(a: Job, b: Job) {
    InFlight(a) && InFlight(b) && a.workflow == b.workflow
  }

  /** At most one job of a workflow is queued or running. */
  ghost predicate OnePerWorkflow(jobs: map<JobId, Job>) {
    forall j, k | j in jobs && k in jobs :: FlyTogether(jobs[j], jobs[k]) ==> j == k
  }

  /** Which events a job in this state has caused. */
  ghost predicate Caused(jobs: map<JobId, Job>, e: Event) {
    && e.job in jobs
    && match e
       case Dispatched(j, attempt) => 1 <= attempt <= jobs[j].dispatchAttempts
       case JobAnalytics(j) => jobs[j].status.Completed? || jobs[j].status.Failed?
       case JobCompleted(j) => jobs[j].status.Completed?
       case JobFailed(j) => jobs[j].status.Failed?
  }

  ghost predicate NoRepeats(inserted: seq<Event>) {
    forall i, k :: 0 <= i < k < |inserted| ==> inserted[i] != inserted[k]
  }

  /** The events ever inserted are exactly those the jobs have caused, each once, whatever
      has been purged from the outbox since. */
  ghost predicate EventsExact(t: Tables) {
    && NoRepeats(t.inserted)
    && (forall e :: e in t.outbox ==> e in t.inserted)
    && (forall e :: e in t.inserted <==> Caused(t.jobs, e))
  }

  predicate SameOccurrence(a: Job, b: Job) {
    a.trigger.Automatic? && b.trigger.Automatic? && a.workflow == b.workflow
    && (a.eventKey == b.eventKey || a.scheduledAt == b.scheduledAt)
  }

  /** At most one automatic job of a workflow has a given key, and one a given instant. */
  ghost predicate OccurrencesUnique(jobs: map<JobId, Job>) {
    forall j, k | j in jobs && k in jobs :: SameOccurrence(jobs[j], jobs[k]) ==> j == k
  }

  ghost predicate TablesSound(t: Tables) {
    && RowsSound(t) && SlotsExact(t) && OnePerWorkflow(t.jobs) && EventsExact(t) && OccurrencesUnique(t.jobs)
  }

  // ---------------------------------------------------------------- moves of one row

  predicate SameIdentity(a: Job, b: Job) {
    && a.workflow == b.workflow && a.user == b.user && a.trigger == b.trigger && a.eventKey == b.eventKey
    && a.generation == b.generation && a.scheduledAt == b.scheduledAt && a.createdAt == b.createdAt
  }

  predicate SameCounts(a: Job, b: Job) {
    a.attempts == b.attempts && a.dispatchAttempts == b.dispatchAttempts
  }

  predicate Queueing(a: Job, b: Job) {
    a.status.Pending? && b == a.(status := Queued, dispatchAttempts := a.dispatchAttempts + 1)
  }

  predicate Deferring(a: Job, b: Job) {
    a.status.Queued? && b == a.(status := Pending)
  }

  predicate Claiming(t: Tables, a: Job, b: Job) {
    a.status.Queued? && b.status.Running? && b.attempts == a.attempts + 1 && b.dispatchAttempts == a.dispatchAttempts
    && b.lease.Some? && b.lease.value.token == t.nextToken
  }

  /** Same holder, and prolonged only while unexpired; or a new holder of an expired lease. */
  predicate Leasing(t: Tables, a: Lease, b: Lease) {
    || (a.token == b.token && a.worker == b.worker && a.process == b.process
        && (a.expiresAt == b.expiresAt || t.now < a.expiresAt))
    || (a.expiresAt < t.now && b.token == t.nextToken)
  }

  predicate Holding(t: Tables, a: Job, b: Job) {
    a.status.Running? && b.status.Running? && SameCounts(a, b) && b.node == a.node
    && a.lease.Some? && b.lease.Some? && Leasing(t, a.lease.value, b.lease.value)
  }

  predicate Returning(a: Job, b: Job) {
    a.status.Running? && b.status.Pending? && SameCounts(a, b) && b.lease.None?
  }

  predicate Ending(a: Job, b: Job) {
    a.status.Active() && b.status.Terminal() && SameCounts(a, b) && b.lease.None?
  }

  /** Every change that one operation makes to an existing job row is one of these. */
  predicate Move(t: Tables, a: Job, b: Job) {
    SameIdentity(a, b)
    && (b == a || Queueing(a, b) || Deferring(a, b) || Claiming(t, a, b) || Holding(t, a, b) || Returning(a, b)
        || Ending(a, b))
  }

  predicate NewRow(t: Tables, j: JobId, job: Job) {
    t.nextJob <= j && job.status.Pending? && job.attempts == 0 && job.dispatchAttempts == 0 && job.createdAt == t.now
  }

  ghost predicate Moves(t: Tables, t': Tables) {
    && t.now <= t'.now && t.nextToken <= t'.nextToken && t.nextJob <= t'.nextJob && t'.cfg == t.cfg
    && (forall j :: j in t.jobs ==> j in t'.jobs && Move(t, t.jobs[j], t'.jobs[j]))
    && (forall j :: j in t'.jobs && j !in t.jobs ==> NewRow(t, j, t'.jobs[j]))
  }

  /** A transaction that rewrites one row, by a legal move, and draws no identifier. */
  predicate RewritesRow(t: Tables, t': Tables, j: JobId) {
    && j in t.jobs && j in t'.jobs && t'.jobs == t.jobs[j := t'.jobs[j]]
    && Move(t, t.jobs[j], t'.jobs[j])
    && t.now <= t'.now && t.nextToken <= t'.nextToken && t.nextJob <= t'.nextJob && t'.cfg == t.cfg
  }

  lemma RowMoves(t: Tables, t': Tables, j: JobId)
    requires RewritesRow(t, t', j)
    ensures Moves(t, t')
  {
  }

  lemma ClaimMoves(t: Tables, c: Command)
    requires RowsSound(t) && c.Claim? && ClaimJob(t, c).Success?
    ensures Moves(t, ClaimJob(t, c).value.0)
  {
  }

  lemma AttachMoves(t: Tables, c: Command)
    requires c.Attach? && AttachContainer(t, c).Success?
    ensures Moves(t, AttachContainer(t, c).value.0)
  {
  }

  lemma CompleteMoves(t: Tables, c: Command)
    requires c.Complete? && CompleteJob(t, c).Success?
    ensures Moves(t, CompleteJob(t, c).value.0)
  {
    RowMoves(t, CompleteJob(t, c).value.0, c.job);
  }

  lemma FailMoves(t: Tables, c: Command)
    requires c.Fail? && FailJob(t, c).Success?
    ensures Moves(t, FailJob(t, c).value.0)
  {
    RowMoves(t, FailJob(t, c).value.0, c.job);
  }

  lemma CancelHeldMoves(t: Tables, j: JobId, token: Token, reason: Reason)
    requires CancelHeld(t, j, token, reason).Success?
    ensures Moves(t, CancelHeld(t, j, token, reason).value.0)
  {
    RowMoves(t, CancelHeld(t, j, token, reason).value.0, j);
  }

  lemma ReleaseMoves(t: Tables, c: Command)
    requires c.Release? && ReleaseJob(t, c).Success?
    ensures Moves(t, ReleaseJob(t, c).value.0)
  {
    if OwnerTerminated(t, c.job) {
      CancelHeldMoves(t, c.job, c.token, WorkflowTerminated);
    } else {
      var row := ReleasedRow(t.jobs[c.job], c);
      assert Move(t, t.jobs[c.job], row) by {
        assert Returning(t.jobs[c.job], row);
      }
      RowMoves(t, ReleaseJob(t, c).value.0, c.job);
    }
  }

  lemma CancelMoves(t: Tables, c: Command)
    requires c.CancelJob? && CancelAnyJob(t, c).Success?
    ensures Moves(t, CancelAnyJob(t, c).value.0)
  {
    RowMoves(t, CancelAnyJob(t, c).value.0, c.job);
  }

  lemma RecoverMoves(t: Tables, c: Command)
    requires c.Recover?
    ensures Moves(t, RecoverLeases(t, c).value.0)
  {
    var t' := RecoverLeases(t, c).value.0;
    forall j | j in t.jobs
      ensures j in t'.jobs && Move(t, t.jobs[j], t'.jobs[j])
    {
      assert j in ToRecover(t, c.batch) ==> Recoverable(t, j);
    }
  }

  lemma ReplayRecoverMoves(t: Tables, c: Command, stored: seq<ExpiredLease>)
    requires c.Recover?
    ensures Moves(t, ReplayRecover(t, c, stored).0)
  {
    var t' := ReplayRecover(t, c, stored).0;
    forall j | j in t.jobs
      ensures j in t'.jobs && Move(t, t.jobs[j], t'.jobs[j])
    {
    }
  }

  lemma ScheduleMoves(t: Tables, c: Command, key: CommandId)
    requires RowsSound(t) && c.Schedule? && ScheduleJob(t, c, key).Success?
    ensures Moves(t, ScheduleJob(t, c, key).value.0)
  {
  }

  // ---------------------------------------------------------------- counting slots

  function Occupies(job: Job, n: NodeId): (r: int) {
    if job.status.Running? && job.node == Some(n) then 1 else 0
  }

  lemma RewriteCount(jobs: map<JobId, Job>, j: JobId, row: Job, n: NodeId)
    requires j in jobs
    ensures |RunningOn(jobs[j := row], n)| == |RunningOn(jobs, n)| - Occupies(jobs[j], n) + Occupies(row, n)
  {
    var before, after := RunningOn(jobs, n), RunningOn(jobs[j := row], n);
    if Occupies(jobs[j], n) == Occupies(row, n) {
      assert after == before;
    } else if Occupies(row, n) == 1 {
      assert after == before + {j};
    } else {
      assert before == after + {j};
    }
  }

  /** Row j stops running and gives its slot back. */
  lemma LeavingKeepsSlots(t: Tables, t': Tables, j: JobId)
    requires SlotsExact(t) && j in t.jobs && t.jobs[j].status.Running?
    requires j in t'.jobs && t'.jobs == t.jobs[j := t'.jobs[j]] && !t'.jobs[j].status.Running?
    requires t'.nodes == FreeSlot(t.nodes, t.jobs[j].node)
    ensures SlotsExact(t')
  {
    forall n | n in t'.nodes
      ensures t'.nodes[n].runningJobs == |RunningOn(t'.jobs, n)|
    {
      RewriteCount(t.jobs, j, t'.jobs[j], n);
      assert j in RunningOn(t.jobs, n) <==> Occupies(t.jobs[j], n) == 1;
    }
  }

  // ---------------------------------------------------------------- preservation

  /** Everything but the events. */
  ghost predicate RowsAndSlots(t: Tables) {
    RowsSound(t) && SlotsExact(t) && OnePerWorkflow(t.jobs) && OccurrencesUnique(t.jobs)
  }

  /** Row j is rewritten; workflows and counters of identifiers stay. */
  predicate RewritesOnly(t: Tables, t': Tables, j: JobId) {
    RewritesRow(t, t', j) && t'.workflows == t.workflows && t'.nextToken == t.nextToken && t'.nextJob == t.nextJob
  }

  lemma LeavingKeepsRows(t: Tables, t': Tables, j: JobId)
    requires RowsAndSlots(t) && RewritesOnly(t, t', j)
    requires t.jobs[j].status.Running? && !t'.jobs[j].status.Running? && t'.jobs[j].lease.None?
    requires t'.jobs[j].node in {None, t.jobs[j].node} && t'.nodes == FreeSlot(t.nodes, t.jobs[j].node)
    ensures RowsAndSlots(t')
  {
    LeavingKeepsSlots(t, t', j);
  }

  predicate Alone(jobs: map<JobId, Job>, j: JobId)
    requires j in jobs
  {
    forall k :: k in jobs && k != j && jobs[k].workflow == jobs[j].workflow ==> !InFlight(jobs[k])
  }

  /** Row j is rewritten without starting or stopping to run. */
  lemma QuietKeepsRows(t: Tables, t': Tables, j: JobId)
    requires RowsAndSlots(t) && RewritesOnly(t, t', j) && t'.nodes == t.nodes
    requires t.jobs[j].status.Running? == t'.jobs[j].status.Running? == t'.jobs[j].lease.Some?
    requires t'.jobs[j].node == t.jobs[j].node
    requires InFlight(t'.jobs[j]) ==> InFlight(t.jobs[j]) || Alone(t.jobs, j)
    requires t'.jobs[j].lease.Some? ==> t'.jobs[j].lease.value.token < t.nextToken
    ensures RowsAndSlots(t')
  {
    forall n | n in t'.nodes
      ensures t'.nodes[n].runningJobs == |RunningOn(t'.jobs, n)|
    {
      RewriteCount(t.jobs, j, t'.jobs[j], n);
    }
  }

  lemma EventsFollow(t: Tables, t': Tables, added: seq<Event>)
    requires EventsExact(t) && NoRepeats(added)
    requires t'.inserted == t.inserted + added && (forall e :: e in t'.outbox ==> e in t.outbox || e in added)
    requires forall e :: e in added ==> !Caused(t.jobs, e)
    requires forall e :: Caused(t'.jobs, e) <==> Caused(t.jobs, e) || e in added
    ensures EventsExact(t')
  {
    forall i, k | 0 <= i < k < |t'.inserted|
      ensures t'.inserted[i] != t'.inserted[k]
    {
      if i < |t.inserted| <= k {
        assert t'.inserted[i] in t.inserted && t'.inserted[k] in added;
      }
    }
  }

  predicate Unreported(job: Job) {
    !job.status.Completed? && !job.status.Failed?
  }

  /** Row j is rewritten with nothing to report. */
  lemma SilentKeepsEvents(t: Tables, t': Tables, j: JobId)
    requires EventsExact(t) && RewritesRow(t, t', j)
    requires t'.inserted == t.inserted && t'.outbox <= t.outbox
    requires Unreported(t.jobs[j]) && Unreported(t'.jobs[j])
    requires t.jobs[j].dispatchAttempts == t'.jobs[j].dispatchAttempts
    ensures EventsExact(t')
  {
    assert forall e :: Caused(t'.jobs, e) <==> Caused(t.jobs, e);
    EventsFollow(t, t', []);
  }

  /** Row j reaches its outcome; the two events it causes are inserted, never for a second time. */
  lemma OutcomeKeepsEvents(t: Tables, closed: Tables, j: JobId, outcome: Event)
    requires EventsExact(t) && RewritesRow(t, closed, j)
    requires closed.inserted == t.inserted && closed.outbox == t.outbox
    requires Unreported(t.jobs[j]) && !Unreported(closed.jobs[j])
    requires t.jobs[j].dispatchAttempts == closed.jobs[j].dispatchAttempts
    requires outcome == if closed.jobs[j].status.Completed? then JobCompleted(j) else JobFailed(j)
    ensures EventsExact(InsertEvent(InsertEvent(closed, JobAnalytics(j)), outcome))
  {
    var t' := InsertEvent(InsertEvent(closed, JobAnalytics(j)), outcome);
    assert !Caused(t.jobs, JobAnalytics(j)) && !Caused(t.jobs, outcome);
    var added := [JobAnalytics(j), outcome];
    assert t'.inserted == t.inserted + added;
    forall e
      ensures Caused(t'.jobs, e) <==> Caused(t.jobs, e) || e in added
    {
    }
    EventsFollow(t, t', added);
  }

  lemma CompleteSound(t: Tables, c: Command)
    requires TablesSound(t) && c.Complete? && CompleteJob(t, c).Success?
    ensures TablesSound(CompleteJob(t, c).value.0)
  {
    CompleteMoves(t, c);
    LeavingKeepsRows(t, CompleteJob(t, c).value.0, c.job);
    var closed := t.(jobs := t.jobs[c.job := ClosedRow(t.jobs[c.job], Status.Completed, t.now)],
                     nodes := FreeSlot(t.nodes, t.jobs[c.job].node));
    OutcomeKeepsEvents(t, closed, c.job, JobCompleted(c.job));
  }

  lemma FailSound(t: Tables, c: Command)
    requires TablesSound(t) && c.Fail? && FailJob(t, c).Success?
    ensures TablesSound(FailJob(t, c).value.0)
  {
    FailMoves(t, c);
    LeavingKeepsRows(t, FailJob(t, c).value.0, c.job);
    var failure := c.failure.(message := Utf8.Truncate(c.failure.message));
    var row := ClosedRow(t.jobs[c.job], Status.Failed, t.now).(failure := Some(failure), reason := Some(c.reason));
    var closed := t.(jobs := t.jobs[c.job := row], nodes := FreeSlot(t.nodes, t.jobs[c.job].node));
    OutcomeKeepsEvents(t, closed, c.job, JobFailed(c.job));
  }

  lemma CancelHeldSound(t: Tables, j: JobId, token: Token, reason: Reason)
    requires TablesSound(t) && CancelHeld(t, j, token, reason).Success?
    ensures TablesSound(CancelHeld(t, j, token, reason).value.0)
  {
    var t' := CancelHeld(t, j, token, reason).value.0;
    CancelHeldMoves(t, j, token, reason);
    LeavingKeepsRows(t, t', j);
    SilentKeepsEvents(t, t', j);
  }

  lemma ReleaseSound(t: Tables, c: Command)
    requires TablesSound(t) && c.Release? && ReleaseJob(t, c).Success?
    ensures TablesSound(ReleaseJob(t, c).value.0)
  {
    if OwnerTerminated(t, c.job) {
      CancelHeldSound(t, c.job, c.token, WorkflowTerminated);
    } else {
      var t' := ReleaseJob(t, c).value.0;
      ReleaseMoves(t, c);
      LeavingKeepsRows(t, t', c.job);
      SilentKeepsEvents(t, t', c.job);
    }
  }

  lemma CancelSound(t: Tables, c: Command)
    requires TablesSound(t) && c.CancelJob? && CancelAnyJob(t, c).Success?
    ensures TablesSound(CancelAnyJob(t, c).value.0)
  {
    var t' := CancelAnyJob(t, c).value.0;
    CancelMoves(t, c);
    if t.jobs[c.job].status.Running? {
      LeavingKeepsRows(t, t', c.job);
      SilentKeepsEvents(t, t', c.job);
    } else if t.jobs[c.job].status.Active() {
      QuietKeepsRows(t, t', c.job);
      SilentKeepsEvents(t, t', c.job);
    }
  }

  lemma AttachSound(t: Tables, c: Command)
    requires TablesSound(t) && c.Attach? && AttachContainer(t, c).Success?
    ensures TablesSound(AttachContainer(t, c).value.0)
  {
    var t' := AttachContainer(t, c).value.0;
    AttachMoves(t, c);
    QuietKeepsRows(t, t', c.job);
    SilentKeepsEvents(t, t', c.job);
  }

  /** A granted claim starts a queued job, on a node that had room when it needs one. */
  lemma GrantKeepsRows(t: Tables, c: Command)
    requires RowsAndSlots(t) && c.Claim? && CanClaim(t, c)
    ensures RowsAndSlots(ClaimJob(t, c).value.0)
  {
    var t' := ClaimJob(t, c).value.0;
    var row := ClaimedRow(t, c);
    forall n | n in t'.nodes
      ensures t'.nodes[n].runningJobs == |RunningOn(t'.jobs, n)|
    {
      RewriteCount(t.jobs, c.job, row, n);
    }
    forall j, k | j in t'.jobs && k in t'.jobs && FlyTogether(t'.jobs[j], t'.jobs[k])
      ensures j == k
    {
      assert FlyTogether(t.jobs[j], t.jobs[k]);
    }
  }

  lemma ClaimSound(t: Tables, c: Command)
    requires TablesSound(t) && c.Claim? && ClaimJob(t, c).Success?
    ensures TablesSound(ClaimJob(t, c).value.0)
  {
    var t' := ClaimJob(t, c).value.0;
    ClaimMoves(t, c);
    if CanClaim(t, c) {
      GrantKeepsRows(t, c);
      SilentKeepsEvents(t, t', c.job);
    } else if t' != t {
      QuietKeepsRows(t, t', c.job);
      SilentKeepsEvents(t, t', c.job);
    }
  }

  // ---- operations over many rows

  /** No row starts or stops running, moves node, or has anything new to report. */
  predicate StandsStill(a: Job, b: Job) {
    && SameIdentity(a, b)
    && a.status.Running? == b.status.Running? == b.lease.Some? && a.node == b.node
    && Unreported(a) == Unreported(b) && a.status.Completed? == b.status.Completed?
    && a.dispatchAttempts == b.dispatchAttempts
    && (InFlight(b) ==> InFlight(a))
  }

  predicate AllStandStill(t: Tables, t': Tables) {
    && t'.jobs.Keys == t.jobs.Keys && t'.nodes == t.nodes && t'.workflows == t.workflows
    && t'.inserted == t.inserted && t'.outbox == t.outbox && t'.nextJob == t.nextJob
    && (forall j :: j in t.jobs ==> StandsStill(t.jobs[j], t'.jobs[j]))
  }

  lemma StillKeepsSound(t: Tables, t': Tables)
    requires TablesSound(t) && AllStandStill(t, t')
    requires forall j :: j in t'.jobs && t'.jobs[j].lease.Some? ==> t'.jobs[j].lease.value.token < t'.nextToken
    ensures TablesSound(t')
  {
    forall n
      ensures RunningOn(t'.jobs, n) == RunningOn(t.jobs, n)
    {
    }
    forall e
      ensures Caused(t'.jobs, e) <==> Caused(t.jobs, e)
    {
    }
    assert OnePerWorkflow(t'.jobs) by {
      forall j, k | j in t'.jobs && k in t'.jobs && FlyTogether(t'.jobs[j], t'.jobs[k])
        ensures j == k
      {
        assert FlyTogether(t.jobs[j], t.jobs[k]);
      }
    }
    assert OccurrencesUnique(t'.jobs) by {
      forall j, k | j in t'.jobs && k in t'.jobs && SameOccurrence(t'.jobs[j], t'.jobs[k])
        ensures j == k
      {
        assert SameOccurrence(t.jobs[j], t.jobs[k]);
      }
    }
  }

  lemma RecoverSound(t: Tables, c: Command)
    requires TablesSound(t) && c.Recover?
    ensures TablesSound(RecoverLeases(t, c).value.0)
  {
    var t' := RecoverLeases(t, c).value.0;
    forall j | j in t.jobs
      ensures StandsStill(t.jobs[j], t'.jobs[j])
    {
      assert j in ToRecover(t, c.batch) ==> Recoverable(t, j);
    }
    StillKeepsSound(t, t');
  }

  lemma ReplayRecoverSound(t: Tables, c: Command, stored: seq<ExpiredLease>)
    requires TablesSound(t) && c.Recover?
    ensures TablesSound(ReplayRecover(t, c, stored).0)
  {
    StillKeepsSound(t, ReplayRecover(t, c, stored).0);
  }

  lemma RenewSound(t: Tables, j: JobId, token: Token, duration: Time)
    requires TablesSound(t) && RenewLease(t, j, token, duration).Success?
    ensures TablesSound(RenewLease(t, j, token, duration).value)
    ensures Moves(t, RenewLease(t, j, token, duration).value)
  {
    var t' := RenewLease(t, j, token, duration).value;
    StillKeepsSound(t, t');
    RowMoves(t, t', j);
  }

  lemma CancelStaleSound(t: Tables, workflow: WorkflowId, user: UserId, automaticOnly: bool)
    requires TablesSound(t)
    ensures TablesSound(CancelStaleJobs(t, workflow, user, automaticOnly))
  {
    StillKeepsSound(t, CancelStaleJobs(t, workflow, user, automaticOnly));
  }

  lemma CancelStaleMoves(t: Tables, workflow: WorkflowId, user: UserId, automaticOnly: bool)
    requires RowsSound(t)
    ensures Moves(t, CancelStaleJobs(t, workflow, user, automaticOnly))
  {
    var t' := CancelStaleJobs(t, workflow, user, automaticOnly);
    forall j | j in t.jobs
      ensures Move(t, t.jobs[j], t'.jobs[j])
    {
      assert t'.jobs[j] == t.jobs[j] || Ending(t.jobs[j], t'.jobs[j]);
    }
  }

  lemma InsertSound(t: Tables, c: Command, key: CommandId)
    requires TablesSound(t) && c.Schedule? && c.workflow in t.workflows
    requires c.trigger.Automatic? ==> KeyHolders(t, c.workflow, key) == {} == SlotHolders(t, c.workflow, c.at)
    ensures TablesSound(InsertJob(t, c, key).value.0)
  {
    var t' := InsertJob(t, c, key).value.0;
    var j := t.nextJob;
    assert j !in t.jobs;
    forall n
      ensures RunningOn(t'.jobs, n) == RunningOn(t.jobs, n)
    {
    }
    forall e
      ensures Caused(t'.jobs, e) <==> Caused(t.jobs, e)
    {
    }
    forall k | k in t.jobs
      ensures !SameOccurrence(t.jobs[k], NewJob(t, c, key))
    {
      if c.trigger.Automatic? {
        assert k !in KeyHolders(t, c.workflow, key) && k !in SlotHolders(t, c.workflow, c.at);
      }
    }
  }

  lemma ScheduleSound(t: Tables, c: Command, key: CommandId)
    requires TablesSound(t) && c.Schedule? && ScheduleJob(t, c, key).Success?
    ensures TablesSound(ScheduleJob(t, c, key).value.0)
  {
    if ScheduleJob(t, c, key).value.0 != t {
      InsertSound(t, c, key);
    }
  }

  lemma DispatchSound(t: Tables, j: JobId)
    requires TablesSound(t)
    ensures TablesSound(DispatchJob(t, j)) && Moves(t, DispatchJob(t, j))
  {
    if Dispatchable(t, j) {
      var t' := DispatchJob(t, j);
      var row := t.jobs[j].(status := Queued, dispatchAttempts := t.jobs[j].dispatchAttempts + 1);
      var event := Dispatched(j, row.dispatchAttempts);
      assert Queueing(t.jobs[j], row);
      RowMoves(t, t', j);
      QuietKeepsRows(t, t', j);
      assert !Caused(t.jobs, event);
      forall e
        ensures Caused(t'.jobs, e) <==> Caused(t.jobs, e) || e in [event]
      {
      }
      EventsFollow(t, t', [event]);
    }
  }

  lemma NodeSound(t: Tables, n: NodeId, node: Node)
    requires TablesSound(t)
    ensures TablesSound(t.(nodes := t.nodes[n := Reconciled(t.jobs, n, node)]))
  {
  }

  lemma UpsertSound(t: Tables, n: NodeId, status: NodeStatus, limit: int, refresh: bool)
    requires TablesSound(t)
    ensures TablesSound(UpsertNode(t, n, status, limit, refresh))
    ensures Moves(t, UpsertNode(t, n, status, limit, refresh))
  {
    NodeSound(t, n, UpsertNode(t, n, status, limit, refresh).nodes[n]);
  }

  lemma HeartbeatSound(t: Tables, n: NodeId, limit: int)
    requires TablesSound(t)
    ensures TablesSound(HeartbeatRow(t, n, limit)) && Moves(t, HeartbeatRow(t, n, limit))
  {
    if n in t.nodes {
      NodeSound(t, n, HeartbeatRow(t, n, limit).nodes[n]);
    } else {
      UpsertSound(t, n, Ready, limit, true);
    }
  }

  // ---------------------------------------------------------------- every operation

  lemma MutateSound(t: Tables, c: Command, id: CommandId)
    requires TablesSound(t) && Mutate(t, c, id).Success?
    ensures TablesSound(Mutate(t, c, id).value.0)
    ensures Moves(t, Mutate(t, c, id).value.0)
  {
    match c
    case Claim(_, _, _, _, _, _) => ClaimSound(t, c); ClaimMoves(t, c);
    case Attach(_, _, _, _) => AttachSound(t, c); AttachMoves(t, c);
    case Complete(_, _) => CompleteSound(t, c); CompleteMoves(t, c);
    case Fail(_, _, _, _) => FailSound(t, c); FailMoves(t, c);
    case CancelClaimed(j, token, reason) => CancelHeldSound(t, j, token, reason); CancelHeldMoves(t, j, token, reason);
    case Release(_, _, _, _, _) => ReleaseSound(t, c); ReleaseMoves(t, c);
    case Recover(_, _, _, _) => RecoverSound(t, c); RecoverMoves(t, c);
    case CancelJob(_, _) => CancelSound(t, c); CancelMoves(t, c);
    case Schedule(_, _, _, _, _, _) => ScheduleSound(t, c, IdOf(c, id)); ScheduleMoves(t, c, IdOf(c, id));
  }

  lemma ReplaySound(t: Tables, c: Command, stored: Response)
    requires TablesSound(t)
    ensures TablesSound(ReplayStored(t, c, stored).0)
    ensures Moves(t, ReplayStored(t, c, stored).0)
  {
    if c.Recover? && stored.Recovered? {
      ReplayRecoverSound(t, c, stored.leases);
      ReplayRecoverMoves(t, c, stored.leases);
    }
  }

  ghost predicate Sound(s: Db) {
    TablesSound(s.t) && Settled(s.rows)
  }

  lemma FreshSound(s: Db, c: Command, id: CommandId)
    requires Sound(s)
    ensures Sound(ExecuteFresh(s, c, id).0) && Moves(s.t, ExecuteFresh(s, c, id).0.t)
  {
    if Mutate(s.t, c, id).Success? {
      MutateSound(s.t, c, id);
    }
  }

  lemma ExecuteSound(s: Db, c: Command, id: CommandId)
    requires Sound(s)
    ensures Sound(Execute(s, c, id).0) && Moves(s.t, Execute(s, c, id).0.t)
  {
    match ReserveRow(s.rows, KeyOf(c, id), RequestOf(c), [], s.t.now).1
    case Replay(stored) => ReplaySound(s.t, c, stored);
    case Fresh => FreshSound(s, c, id);
    case Conflict =>
    case InProgress =>
  }

  lemma EnvironmentSound(s: Db, op: Op)
    requires Sound(s) && (op.PurgeLedger? || op.PurgeOutbox? || op.PutWorkflow? || op.Tick?)
    ensures Sound(Step(s, op)) && Moves(s.t, Step(s, op).t)
  {
  }

  /** One operation keeps the invariant, and moves every existing row legally. */
  lemma StepSound(s: Db, op: Op)
    requires Sound(s)
    ensures Sound(Step(s, op)) && Moves(s.t, Step(s, op).t)
  {
    match op
    case Run(c, id) =>
      ExecuteSound(s, c, id);
    case Renew(j, token, duration) =>
      if RenewLease(s.t, j, token, duration).Success? { RenewSound(s.t, j, token, duration); }
    case Dispatch(j) => DispatchSound(s.t, j);
    case Upsert(n, status, limit, refresh) => UpsertSound(s.t, n, status, limit, refresh);
    case HeartbeatNode(n, limit) => HeartbeatSound(s.t, n, limit);
    case CancelStale(w, user, automaticOnly) =>
      CancelStaleSound(s.t, w, user, automaticOnly);
      CancelStaleMoves(s.t, w, user, automaticOnly);
    case _ => EnvironmentSound(s, op);
  }

  lemma {:induction false} RunSound(s: Db, ops: seq<Op>)
    requires Sound(s)
    ensures Sound(After(s, ops))
    decreases |ops|
  {
    if ops != [] {
      RunSound(s, ops[..|ops| - 1]);
      StepSound(After(s, ops[..|ops| - 1]), ops[|ops| - 1]);
    }
  }

  lemma ReachableSound(s: Db)
    requires Reachable(s)
    ensures Sound(s)
  {
    var cfg, now, ops :| s == After(Initial(cfg, now), ops);
    RunSound(Initial(cfg, now), ops);
  }
}
