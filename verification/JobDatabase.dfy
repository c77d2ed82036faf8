/**
 The whole database of the job protocol: the tables together with the command ledger, the
 step each operation takes, and runs of operations in any order.

 Every ledgered command has one shape. It reserves its key; a completed reservation is
 answered from the stored response; a fresh one changes the tables and stores its response
 in the same transaction, and rolls back to the database it found when it fails.
 */
module JobDatabase {
  import opened Prelude
  import opened CommandLedger
  import opened JobTables

  datatype Scope =
    | JobScope(job: JobId)
    | WorkerScope(process: ProcessId)
    | WorkflowScope(workflow: WorkflowId)
    | UserScope(user: UserId)

  datatype Operation =
    | OpClaim | OpAttach | OpComplete | OpFail | OpCancelClaimed | OpRelease | OpRecover | OpCancel
    | OpScheduleAutomatic
    | OpScheduleManual(workflow: WorkflowId)

  datatype LedgerKey = LedgerKey(scope: Scope, operation: Operation, id: CommandId)

  /** Hashes are injective, so a request stands for its own hash. */
  type Rows = Table<LedgerKey, Command, Response>

  datatype Db = Db(t: Tables, rows: Rows)

  function ScopeOf(c: Command): (r: Scope) {
    match c
    case Claim(_, _, _, process, _, _) => WorkerScope(process)
    case Recover(_, _, process, _) => WorkerScope(process)
    case Schedule(workflow, user, _, trigger, _, _) =>
      if trigger.Automatic? then WorkflowScope(workflow) else UserScope(user)
    case _ => JobScope(c.job)
  }

  function OperationOf(c: Command): (r: Operation) {
    match c
    case Claim(_, _, _, _, _, _) => OpClaim
    case Attach(_, _, _, _) => OpAttach
    case Complete(_, _) => OpComplete
    case Fail(_, _, _, _) => OpFail
    case CancelClaimed(_, _, _) => OpCancelClaimed
    case Release(_, _, _, _, _) => OpRelease
    case Recover(_, _, _, _) => OpRecover
    case CancelJob(_, _) => OpCancel
    case Schedule(workflow, _, _, trigger, _, _) =>
      if trigger.Automatic? then OpScheduleAutomatic else OpScheduleManual(workflow)
  }

  /** An automatic occurrence with no key of its own is known by its instant. */
  function IdOf(c: Command, id: CommandId): (r: CommandId) {
    if c.Schedule? && c.trigger.Automatic? && !c.keyed then OccurrenceOf(c.workflow, c.at) else id
  }

  function KeyOf(c: Command, id: CommandId): (r: LedgerKey) {
    LedgerKey(ScopeOf(c), OperationOf(c), IdOf(c, id))
  }

  /** What the request hash covers. Lease durations count in seconds, a batch that is not positive
      as the default one, error messages after truncation, and an automatic occurrence's instant
      is output rather than input. */
  function RequestOf(c: Command): (r: Command) {
    match c
    case Claim(job, workflow, worker, process, duration, dispatch) =>
      Claim(job, workflow, worker, process, LeaseSeconds(duration), dispatch)
    case Recover(batch, worker, process, duration) =>
      Recover(if batch <= 0 then 100 else batch, worker, process, LeaseSeconds(duration))
    case Fail(job, token, failure, reason) =>
      Fail(job, token, failure.(message := Utf8.Truncate(failure.message)), reason)
    case Release(job, token, nextAttemptAt, code, message) =>
      Release(job, token, nextAttemptAt, code, Utf8.Truncate(message))
    case Schedule(workflow, user, _, trigger, _, generation) =>
      Schedule(workflow, user, 0, trigger, false, if trigger.Automatic? then generation else 0)
    case _ => c
  }

  function Retention(cfg: Config, c: Command): (r: Time) {
    if c.CancelJob? || (c.Schedule? && c.trigger.Automatic?) then cfg.eventRetention else CLIENT_RETENTION
  }

  /** The transaction a fresh command runs. */
  function Mutate(t: Tables, c: Command, id: CommandId): (r: Effect) {
    match c
    case Claim(_, _, _, _, _, _) => ClaimJob(t, c)
    case Attach(_, _, _, _) => AttachContainer(t, c)
    case Complete(_, _) => CompleteJob(t, c)
    case Fail(_, _, _, _) => FailJob(t, c)
    case CancelClaimed(job, token, reason) => CancelHeld(t, job, token, reason)
    case Release(_, _, _, _, _) => ReleaseJob(t, c)
    case Recover(_, _, _, _) => RecoverLeases(t, c)
    case CancelJob(_, _) => CancelAnyJob(t, c)
    case Schedule(_, _, _, _, _, _) => ScheduleJob(t, c, IdOf(c, id))
  }

  /** What a replay does with the stored response: only a recovery touches the tables. */
  function ReplayStored(t: Tables, c: Command, stored: Response): (r: (Tables, Response)) {
    if c.Claim? then (t, ReplayClaim(t, c, stored))
    else if c.Recover? && stored.Recovered? then ReplayRecover(t, c, stored.leases)
    else (t, stored)
  }

  /** A fresh command: run the transaction and store its response, or roll both back. */
  function ExecuteFresh(s: Db, c: Command, id: CommandId): (r: (Db, Result<Response>)) {
    match Mutate(s.t, c, id)
    case Failure(code) => (s, Failure(code))
    case Success((t, response)) =>
      if Retention(s.t.cfg, c) <= 0 then (s, Failure(Internal))
      else
        var row := Row.Completed(RequestOf(c), [], response, s.t.now + Retention(s.t.cfg, c));
        (Db(t, s.rows[KeyOf(c, id) := row]), Success(response))
  }

  function Execute(s: Db, c: Command, id: CommandId): (r: (Db, Result<Response>)) {
    match ReserveRow(s.rows, KeyOf(c, id), RequestOf(c), [], s.t.now).1
    case Conflict => (s, Failure(AlreadyExists))
    case InProgress => (s, Failure(Aborted))
    case Replay(stored) =>
      var (t, response) := ReplayStored(s.t, c, stored);
      (s.(t := t), Success(response))
    case Fresh => ExecuteFresh(s, c, id)
  }

  // ---------------------------------------------------------------- the other operations

  datatype Op =
    | Run(c: Command, id: CommandId)
    | Renew(job: JobId, token: Token, duration: Time)
    | Dispatch(job: JobId)
    | Upsert(node: NodeId, status: NodeStatus, maxConcurrency: int, refresh: bool)
    | HeartbeatNode(node: NodeId, maxConcurrency: int)
    | PurgeLedger(keys: set<LedgerKey>)
    | PurgeOutbox(events: set<Event>)
    | PutWorkflow(workflow: WorkflowId, row: Workflow)
    | CancelStale(workflow: WorkflowId, user: UserId, automaticOnly: bool)
    | Tick(elapsed: nat)

  function RenewLease(t: Tables, j: JobId, token: Token, duration: Time): (r: Result<Tables>) {
    if Holds(t.jobs, j, token) && t.now < t.jobs[j].lease.value.expiresAt then
      var lease := t.jobs[j].lease.value.(expiresAt := t.now + LeaseSeconds(duration) * SECOND);
      Success(t.(jobs := t.jobs[j := Renewed(t.jobs[j], lease)]))
    else Failure(FailedPrecondition)
  }

  predicate Due(t: Tables, j: JobId)
    requires j in t.jobs
  {
    t.jobs[j].status.Pending? && t.jobs[j].scheduledAt <= t.now
    && (t.jobs[j].nextAttemptAt.None? || t.jobs[j].nextAttemptAt.value <= t.now)
  }

  /** The scheduler may queue this job: its workflow is live, idle, and has nothing earlier. */
  predicate Dispatchable(t: Tables, j: JobId) {
    && j in t.jobs && Due(t, j)
    && t.jobs[j].workflow in t.workflows
    && (var w := t.workflows[t.jobs[j].workflow]; w.built && !w.terminated && w.user == t.jobs[j].user)
    && (forall k :: k in t.jobs && t.jobs[k].workflow == t.jobs[j].workflow ==>
          !t.jobs[k].status.Queued? && !t.jobs[k].status.Running?)
    && (forall k :: k in t.jobs ==> !EarlierActive(t.jobs, k, j))
  }

  function DispatchJob(t: Tables, j: JobId): (r: Tables) {
    if Dispatchable(t, j) then
      var row := t.jobs[j].(status := Queued, dispatchAttempts := t.jobs[j].dispatchAttempts + 1);
      InsertEvent(t.(jobs := t.jobs[j := row]), Dispatched(j, row.dispatchAttempts))
    else t
  }

  function Reconciled(jobs: map<JobId, Job>, n: NodeId, node: Node): (r: Node) {
    node.(runningJobs := |RunningOn(jobs, n)|)
  }

  function UpsertNode(t: Tables, n: NodeId, status: NodeStatus, maxConcurrency: int, refresh: bool): (r: Tables) {
    var limit := if maxConcurrency <= 0 then 1 else maxConcurrency;
    var stale := if n in t.nodes then t.nodes[n].heartbeatAt else 0;
    var running := if n in t.nodes then t.nodes[n].runningJobs else 0;
    var node := Node(status, if refresh then t.now else stale, limit, running);
    t.(nodes := t.nodes[n := Reconciled(t.jobs, n, node)])
  }

  function HeartbeatRow(t: Tables, n: NodeId, maxConcurrency: int): (r: Tables) {
    if n !in t.nodes then UpsertNode(t, n, Ready, maxConcurrency, true)
    else t.(nodes := t.nodes[n := Reconciled(t.jobs, n, t.nodes[n].(status := Ready, heartbeatAt := t.now))])
  }

  predicate Stale(job: Job, workflow: WorkflowId, user: UserId, automaticOnly: bool) {
    job.workflow == workflow && job.user == user && (job.status.Pending? || job.status.Queued?)
    && (automaticOnly ==> job.trigger.Automatic?)
  }

  function CancelStaleJobs(t: Tables, workflow: WorkflowId, user: UserId, automaticOnly: bool): (r: Tables) {
    t.(jobs := map j | j in t.jobs ::
         if Stale(t.jobs[j], workflow, user, automaticOnly)
         then ClosedRow(t.jobs[j], Status.Canceled, t.now).(reason := Some(WorkflowUpdated))
         else t.jobs[j])
  }

  /** The database after one operation, whatever its reply was. */
  function Step(s: Db, op: Op): (r: Db) {
    match op
    case Run(c, id) => Execute(s, c, id).0
    case Renew(j, token, duration) =>
      (match RenewLease(s.t, j, token, duration) case Success(t) => s.(t := t) case Failure(_) => s)
    case Dispatch(j) => s.(t := DispatchJob(s.t, j))
    case Upsert(n, status, limit, refresh) => s.(t := UpsertNode(s.t, n, status, limit, refresh))
    case HeartbeatNode(n, limit) => s.(t := HeartbeatRow(s.t, n, limit))
    case PurgeLedger(keys) => s.(rows := PurgeRows(s.rows, keys, s.t.now))
    case PurgeOutbox(events) => s.(t := s.t.(outbox := s.t.outbox - events))
    case PutWorkflow(w, row) => s.(t := s.t.(workflows := s.t.workflows[w := row]))
    case CancelStale(w, user, automaticOnly) => s.(t := CancelStaleJobs(s.t, w, user, automaticOnly))
    case Tick(elapsed) => s.(t := s.t.(now := s.t.now + elapsed))
  }

  function Initial(cfg: Config, now: Time): (s: Db) {
    Db(Tables(cfg, now, 0, 0, map[], map[], map[], {}, []), map[])
  }

  function After(s: Db, ops: seq<Op>): (r: Db)
    decreases |ops|
  {
    if ops == [] then s else Step(After(s, ops[..|ops| - 1]), ops[|ops| - 1])
  }

  /** The databases that some sequence of operations leads to from an empty one. */
  ghost predicate Reachable(s: Db) {
    exists cfg, now, ops :: s == After(Initial(cfg, now), ops)
  }
}
