/**
 The tables behind the job lease protocol and the effect of each transaction on them
 (internal/repository/jobs/lease.go, internal/repository/jobs/jobs.go,
 internal/repository/runtime/runtime.go, internal/repository/scheduler/scheduler.go).

 A transaction is a function from the tables it finds to the tables it commits; one that
 fails commits nothing. Identifiers are numbers whose order is the column's order. Lease
 tokens and job identifiers are drawn from counters, so a drawn value is a new one.
 */
module JobTables {
  import opened Prelude
  import Utf8

  type JobId = nat
  type WorkflowId = nat
  type UserId = nat
  type NodeId = nat
  type WorkerId = nat
  type ProcessId = nat
  type Token = nat
  type ContainerId = nat
  type Text = Utf8.Bytes

  datatype Status = Pending | Queued | Running | Completed | Failed | Canceled {
    predicate Active() { Pending? || Queued? || Running? }
    predicate Terminal() { !Active() }
  }

  datatype Trigger = Automatic | Manual
  datatype WorkflowKind = Container | Heartbeat
  datatype NodeStatus = Ready | Draining | Unhealthy

  /** The four lease columns, which every statement writes together. */
  datatype Lease = Lease(token: Token, worker: WorkerId, process: ProcessId, expiresAt: Time)

  datatype FailureKind = User | System
  datatype FailureInfo = FailureInfo(kind: FailureKind, code: Text, message: Text)

  /** Terminal reason codes; the named ones are written by the protocol itself. */
  datatype Reason = WorkflowTerminated | WorkflowUpdated | SystemError | ExecutionFailed | Other(code: Text)

  /** What a command is known by: a caller's own key, or a key derived from the occurrence. */
  datatype CommandId =
    | Given(id: nat)
    | ClaimOf(process: ProcessId, job: JobId, dispatch: nat)
    | OccurrenceOf(workflow: WorkflowId, at: Time)

  datatype Job = Job(
    workflow: WorkflowId,
    user: UserId,
    trigger: Trigger,
    eventKey: CommandId,
    generation: Option<nat>,
    scheduledAt: Time,
    createdAt: Time,
    status: Status,
    dispatchAttempts: nat,
    attempts: nat,
    lease: Option<Lease>,
    node: Option<NodeId>,
    container: Option<ContainerId>,
    startedAt: Option<Time>,
    completedAt: Option<Time>,
    nextAttemptAt: Option<Time>,
    failure: Option<FailureInfo>,
    reason: Option<Reason>)

  datatype Node = Node(status: NodeStatus, heartbeatAt: Time, maxConcurrency: int, runningJobs: int)

  datatype Workflow = Workflow(
    kind: WorkflowKind, user: UserId, generation: nat, built: bool, terminated: bool, logRetention: bool)

  /** Outbox identities (topic and event key) written by these transactions. */
  datatype Event =
    | Dispatched(job: JobId, attempt: nat)
    | JobAnalytics(job: JobId)
    | JobCompleted(job: JobId)
    | JobFailed(job: JobId)

  datatype Config = Config(heartbeatTtl: Time, lostAfter: Time, eventRetention: Time)

  datatype Tables = Tables(
    cfg: Config,
    now: Time,
    nextToken: Token,
    nextJob: JobId,
    workflows: map<WorkflowId, Workflow>,
    jobs: map<JobId, Job>,
    nodes: map<NodeId, Node>,
    outbox: set<Event>,
    inserted: seq<Event>)   // every event ever inserted, in order

  const CLIENT_RETENTION: Time := 24 * 60 * 60 * SECOND

  /** A lease lasts a whole number of seconds, at least one. */
  function LeaseSeconds(duration: Time): (seconds: int) {
    if duration <= 0 then 1 else if duration / SECOND < 1 then 1 else duration / SECOND
  }

  // ---------------------------------------------------------------- reading the tables

  /** (scheduled_at, created_at, id), compared lexicographically. */
  predicate Before(a: JobId, x: Job, b: JobId, y: Job) {
    x.scheduledAt < y.scheduledAt
    || (x.scheduledAt == y.scheduledAt && x.createdAt < y.createdAt)
    || (x.scheduledAt == y.scheduledAt && x.createdAt == y.createdAt && a < b)
  }

  predicate Sibling(jobs: map<JobId, Job>, k: JobId, j: JobId)
    requires j in jobs
  {
    k in jobs && k != j && jobs[k].workflow == jobs[j].workflow
  }

  predicate EarlierActive(jobs: map<JobId, Job>, k: JobId, j: JobId)
    requires j in jobs
  {
    Sibling(jobs, k, j) && jobs[k].status.Active() && Before(k, jobs[k], j, jobs[j])
  }

  /** Another job of the workflow is running, or an earlier one is not finished. */
  predicate Blocked(jobs: map<JobId, Job>, j: JobId)
    requires j in jobs
  {
    (exists k :: k in jobs && Sibling(jobs, k, j) && jobs[k].status.Running?)
    || (exists k :: k in jobs && EarlierActive(jobs, k, j))
  }

  function RunningOn(jobs: map<JobId, Job>, n: NodeId): (r: set<JobId>) {
    set j | j in jobs && jobs[j].status.Running? && jobs[j].node == Some(n)
  }

  predicate HasRoom(t: Tables, n: NodeId) {
    n in t.nodes && t.nodes[n].status.Ready?
    && t.now - t.cfg.heartbeatTtl < t.nodes[n].heartbeatAt
    && t.nodes[n].runningJobs < t.nodes[n].maxConcurrency
  }

  /** Claim preference: least loaded, then freshest heartbeat, then identifier. */
  predicate Preferred(nodes: map<NodeId, Node>, m: NodeId, n: NodeId)
    requires m in nodes && n in nodes
  {
    nodes[m].runningJobs < nodes[n].runningJobs
    || (nodes[m].runningJobs == nodes[n].runningJobs
        && (nodes[n].heartbeatAt < nodes[m].heartbeatAt
            || (nodes[m].heartbeatAt == nodes[n].heartbeatAt && m <= n)))
  }

  predicate Chosen(nodes: map<NodeId, Node>, candidates: set<NodeId>, n: NodeId) {
    n in candidates && n in nodes && forall m :: m in candidates && m in nodes ==> Preferred(nodes, n, m)
  }

  lemma {:induction false} SomeNodeIsChosen(nodes: map<NodeId, Node>, candidates: set<NodeId>)
    requires candidates != {} && candidates <= nodes.Keys
    ensures exists n :: Chosen(nodes, candidates, n)
    decreases candidates
  {
    var m :| m in candidates;
    var rest := candidates - {m};
    assert candidates == rest + {m};
    if rest == {} {
      assert Chosen(nodes, candidates, m);
    } else {
      SomeNodeIsChosen(nodes, rest);
      var best :| Chosen(nodes, rest, best);
      assert Chosen(nodes, candidates, if Preferred(nodes, best, m) then best else m);
    }
  }

  function SelectRuntime(t: Tables): (chosen: Option<NodeId>)
    ensures chosen.None? <==> forall n :: !HasRoom(t, n)
    ensures chosen.Some? ==> HasRoom(t, chosen.value)
    ensures chosen.Some? ==> forall n :: HasRoom(t, n) ==> Preferred(t.nodes, chosen.value, n)
  {
    var candidates := set n | n in t.nodes && HasRoom(t, n);
    assert forall n :: HasRoom(t, n) ==> n in candidates;
    if candidates == {} then None
    else
      SomeNodeIsChosen(t.nodes, candidates);
      var n :| Chosen(t.nodes, candidates, n);
      Some(n)
  }

  // ---------------------------------------------------------------- rows and counters

  /** The job is running under exactly this token. */
  predicate Holds(jobs: map<JobId, Job>, j: JobId, token: Token) {
    j in jobs && jobs[j].status.Running? && jobs[j].lease.Some? && jobs[j].lease.value.token == token
  }

  function FreeSlot(nodes: map<NodeId, Node>, n: Option<NodeId>): (r: map<NodeId, Node>) {
    if n.Some? && n.value in nodes then
      var node := nodes[n.value];
      nodes[n.value := node.(runningJobs := if node.runningJobs - 1 < 0 then 0 else node.runningJobs - 1)]
    else nodes
  }

  function TakeSlot(nodes: map<NodeId, Node>, n: Option<NodeId>): (r: map<NodeId, Node>) {
    if n.Some? && n.value in nodes then
      nodes[n.value := nodes[n.value].(runningJobs := nodes[n.value].runningJobs + 1)]
    else nodes
  }

  /** Insert-if-absent on the event's identity (internal/pkg/outbox/outbox.go). */
  function InsertEvent(t: Tables, e: Event): (r: Tables) {
    if e in t.outbox then t else t.(outbox := t.outbox + {e}, inserted := t.inserted + [e])
  }

  function ClosedRow(job: Job, status: Status, now: Time): (r: Job) {
    job.(status := status, completedAt := Some(now), lease := None)
  }

  // ---------------------------------------------------------------- commands

  datatype Command =
    | Claim(job: JobId, workflow: WorkflowId, worker: WorkerId, process: ProcessId, duration: Time, dispatch: nat)
    | Attach(job: JobId, token: Token, container: ContainerId, node: NodeId)
    | Complete(job: JobId, token: Token)
    | Fail(job: JobId, token: Token, failure: FailureInfo, reason: Reason)
    | CancelClaimed(job: JobId, token: Token, reason: Reason)
    | Release(job: JobId, token: Token, nextAttemptAt: Time, code: Text, message: Text)
    | Recover(batch: int, worker: WorkerId, process: ProcessId, duration: Time)
    | CancelJob(job: JobId, reason: Reason)
    | Schedule(workflow: WorkflowId, user: UserId, at: Time, trigger: Trigger, keyed: bool, generation: nat)

  datatype DenyReason = Deferred | StatusIs(status: Status) | DispatchMismatch(current: nat) | LeaseInactive

  datatype Grant = Grant(
    job: JobId, workflow: WorkflowId, dispatch: nat, attempts: nat, token: Token,
    node: Option<NodeId>, expiresAt: Time)

  datatype ExpiredLease = ExpiredLease(
    job: JobId, workflow: WorkflowId, attempts: nat, token: Token,
    container: Option<ContainerId>, node: Option<NodeId>, unavailable: bool)

  datatype Response =
    | Granted(grant: Grant)
    | Denied(reason: DenyReason)
    | Recovered(leases: seq<ExpiredLease>)
    | CancelSnapshot(previous: Status, container: Option<ContainerId>, node: Option<NodeId>, attempts: nat)
    | Scheduled(job: JobId)
    | Ack

  type Effect = Result<(Tables, Response)>

  // ---- job.claim

  predicate CanClaim(t: Tables, c: Command)
    requires c.Claim?
  {
    && c.job in t.jobs
    && t.jobs[c.job].workflow == c.workflow
    && t.jobs[c.job].status.Queued?
    && t.jobs[c.job].dispatchAttempts == c.dispatch
    && c.workflow in t.workflows
    && (t.workflows[c.workflow].kind.Container? ==> SelectRuntime(t).Some?)
    && !Blocked(t.jobs, c.job)
  }

  function ClaimedRow(t: Tables, c: Command): (r: Job)
    requires c.Claim? && CanClaim(t, c)
  {
    t.jobs[c.job].(
      status := Running,
      attempts := t.jobs[c.job].attempts + 1,
      lease := Some(Lease(t.nextToken, c.worker, c.process, t.now + LeaseSeconds(c.duration) * SECOND)),
      startedAt := Some(t.now), completedAt := None, failure := None, reason := None,
      node := if t.workflows[c.workflow].kind.Container? then SelectRuntime(t) else None)
  }

  /** A queued container job of this dispatch has no runtime node to go to. */
  predicate MissingRuntime(t: Tables, c: Command)
    requires c.Claim?
  {
    && c.job in t.jobs
    && t.jobs[c.job].workflow == c.workflow
    && t.jobs[c.job].status.Queued?
    && t.jobs[c.job].dispatchAttempts == c.dispatch
    && c.workflow in t.workflows
    && t.workflows[c.workflow].kind.Container?
    && SelectRuntime(t).None?
  }

  function ClaimJob(t: Tables, c: Command): (r: Effect)
    requires c.Claim?
  {
    if CanClaim(t, c) then
      var row := ClaimedRow(t, c);
      var grant := Grant(c.job, c.workflow, row.dispatchAttempts, row.attempts, t.nextToken, row.node,
                         row.lease.value.expiresAt);
      Success((t.(jobs := t.jobs[c.job := row], nodes := TakeSlot(t.nodes, row.node), nextToken := t.nextToken + 1),
               Granted(grant)))
    else if c.job in t.jobs && t.jobs[c.job].status.Queued? && Blocked(t.jobs, c.job) then
      Success((t.(jobs := t.jobs[c.job := t.jobs[c.job].(status := Pending)]), Denied(Deferred)))
    else if MissingRuntime(t, c) then Failure(Unavailable)
    else if c.job !in t.jobs || t.jobs[c.job].workflow != c.workflow then Failure(NotFound)
    else if !t.jobs[c.job].status.Queued? then Success((t, Denied(StatusIs(t.jobs[c.job].status))))
    else Success((t, Denied(DispatchMismatch(t.jobs[c.job].dispatchAttempts))))
  }

  /** The stored lease is still this claimant's, for this dispatch, and has not expired. */
  predicate LeaseActive(t: Tables, j: JobId, token: Token, worker: WorkerId, process: ProcessId, dispatch: nat) {
    && Holds(t.jobs, j, token)
    && t.jobs[j].lease.value.worker == worker
    && t.jobs[j].lease.value.process == process
    && t.jobs[j].dispatchAttempts == dispatch
    && t.now < t.jobs[j].lease.value.expiresAt
  }

  /** A replayed claim is answered from the ledger, but only while its lease is active. */
  function ReplayClaim(t: Tables, c: Command, stored: Response): (r: Response)
    requires c.Claim?
  {
    if !stored.Granted? then stored
    else if LeaseActive(t, c.job, stored.grant.token, c.worker, c.process, c.dispatch) then
      Granted(stored.grant.(expiresAt := t.jobs[c.job].lease.value.expiresAt))
    else Denied(LeaseInactive)
  }

  // ---- job.attach_container, job.complete, job.fail, job.cancel_claimed

  function AttachContainer(t: Tables, c: Command): (r: Effect)
    requires c.Attach?
  {
    if Holds(t.jobs, c.job, c.token) && t.jobs[c.job].node == Some(c.node) then
      Success((t.(jobs := t.jobs[c.job := t.jobs[c.job].(container := Some(c.container))]), Ack))
    else Failure(FailedPrecondition)
  }

  function CompleteJob(t: Tables, c: Command): (r: Effect)
    requires c.Complete?
  {
    if !Holds(t.jobs, c.job, c.token) then Failure(FailedPrecondition)
    else
      var closed := t.(jobs := t.jobs[c.job := ClosedRow(t.jobs[c.job], Completed, t.now)],
                       nodes := FreeSlot(t.nodes, t.jobs[c.job].node));
      Success((InsertEvent(InsertEvent(closed, JobAnalytics(c.job)), JobCompleted(c.job)), Ack))
  }

  function FailJob(t: Tables, c: Command): (r: Effect)
    requires c.Fail?
  {
    if !Holds(t.jobs, c.job, c.token) then Failure(FailedPrecondition)
    else
      var failure := c.failure.(message := Utf8.Truncate(c.failure.message));
      var row := ClosedRow(t.jobs[c.job], Failed, t.now).(failure := Some(failure), reason := Some(c.reason));
      var closed := t.(jobs := t.jobs[c.job := row], nodes := FreeSlot(t.nodes, t.jobs[c.job].node));
      Success((InsertEvent(InsertEvent(closed, JobAnalytics(c.job)), JobFailed(c.job)), Ack))
  }

  function CancelHeld(t: Tables, j: JobId, token: Token, reason: Reason): (r: Effect) {
    if !Holds(t.jobs, j, token) then Failure(FailedPrecondition)
    else
      Success((t.(jobs := t.jobs[j := ClosedRow(t.jobs[j], Status.Canceled, t.now).(reason := Some(reason))],
                  nodes := FreeSlot(t.nodes, t.jobs[j].node)), Ack))
  }

  // ---- job.release_for_retry

  predicate OwnerTerminated(t: Tables, j: JobId) {
    j in t.jobs && t.jobs[j].workflow in t.workflows && t.workflows[t.jobs[j].workflow].terminated
  }

  function ReleasedRow(job: Job, c: Command): (r: Job)
    requires c.Release?
  {
    job.(status := Pending, container := None, node := None, startedAt := None, completedAt := None,
         lease := None, reason := None, nextAttemptAt := Some(c.nextAttemptAt),
         failure := Some(FailureInfo(System, c.code, Utf8.Truncate(c.message))))
  }

  function ReleaseJob(t: Tables, c: Command): (r: Effect)
    requires c.Release?
  {
    if OwnerTerminated(t, c.job) then CancelHeld(t, c.job, c.token, WorkflowTerminated)
    else if !Holds(t.jobs, c.job, c.token) then Failure(FailedPrecondition)
    else
      Success((t.(jobs := t.jobs[c.job := ReleasedRow(t.jobs[c.job], c)],
                  nodes := FreeSlot(t.nodes, t.jobs[c.job].node)), Ack))
  }

  // ---- job.recover_expired_leases

  predicate Recoverable(t: Tables, j: JobId) {
    && j in t.jobs
    && t.jobs[j].status.Running?
    && t.jobs[j].lease.Some?
    && t.jobs[j].lease.value.expiresAt < t.now
    && (t.jobs[j].node.None?
        || t.jobs[j].node.value !in t.nodes
        || (var node := t.nodes[t.jobs[j].node.value];
            || node.status.Unhealthy?
            || node.status.Draining?
            || (node.status.Ready? && t.now - t.cfg.heartbeatTtl < node.heartbeatAt)
            || node.heartbeatAt <= t.now - t.cfg.lostAfter))
  }

  predicate RuntimeUnavailable(t: Tables, j: JobId)
    requires j in t.jobs
  {
    t.jobs[j].node.Some?
    && (t.jobs[j].node.value !in t.nodes
        || t.nodes[t.jobs[j].node.value].status.Unhealthy?
        || t.nodes[t.jobs[j].node.value].heartbeatAt <= t.now - t.cfg.lostAfter)
  }

  /** Recovery order: earliest expiry first, then identifier. */
  predicate ExpiresFirst(jobs: map<JobId, Job>, a: JobId, b: JobId) {
    && a in jobs && b in jobs && jobs[a].lease.Some? && jobs[b].lease.Some?
    && (jobs[a].lease.value.expiresAt < jobs[b].lease.value.expiresAt
        || (jobs[a].lease.value.expiresAt == jobs[b].lease.value.expiresAt && a <= b))
  }

  predicate FirstToExpire(jobs: map<JobId, Job>, candidates: set<JobId>, j: JobId) {
    j in candidates && forall k :: k in candidates ==> ExpiresFirst(jobs, j, k)
  }

  predicate AllLeased(jobs: map<JobId, Job>, candidates: set<JobId>) {
    forall j :: j in candidates ==> j in jobs && jobs[j].lease.Some?
  }

  lemma {:induction false} SomeJobExpiresFirst(jobs: map<JobId, Job>, candidates: set<JobId>)
    requires candidates != {} && AllLeased(jobs, candidates)
    ensures exists j :: FirstToExpire(jobs, candidates, j)
    decreases candidates
  {
    var k :| k in candidates;
    var rest := candidates - {k};
    assert candidates == rest + {k};
    if rest == {} {
      assert FirstToExpire(jobs, candidates, k);
    } else {
      SomeJobExpiresFirst(jobs, rest);
      var first :| FirstToExpire(jobs, rest, first);
      assert FirstToExpire(jobs, candidates, if ExpiresFirst(jobs, first, k) then first else k);
    }
  }

  /** The first `limit` candidates in recovery order. */
  function TakeExpired(jobs: map<JobId, Job>, candidates: set<JobId>, limit: nat): (taken: seq<JobId>)
    requires AllLeased(jobs, candidates)
    ensures forall j :: j in taken ==> j in candidates
    ensures forall i, k :: 0 <= i < k < |taken| ==> taken[i] != taken[k] && ExpiresFirst(jobs, taken[i], taken[k])
    ensures forall j, k :: j in taken && k in candidates && k !in taken ==> ExpiresFirst(jobs, j, k)
    ensures |taken| == if |candidates| < limit then |candidates| else limit
    ensures |candidates| <= limit ==> forall j :: j in candidates ==> j in taken
    decreases limit
  {
    if limit == 0 || candidates == {} then []
    else
      SomeJobExpiresFirst(jobs, candidates);
      var j :| FirstToExpire(jobs, candidates, j);
      [j] + TakeExpired(jobs, candidates - {j}, limit - 1)
  }

  function ToRecover(t: Tables, batch: int): (taken: seq<JobId>)
    ensures forall j :: j in taken ==> Recoverable(t, j)
    ensures forall i, k :: 0 <= i < k < |taken| ==> taken[i] != taken[k]
    ensures 0 < batch ==> |taken| <= batch
    ensures 0 < batch && |taken| < batch ==> forall j :: Recoverable(t, j) ==> j in taken
  {
    TakeExpired(t.jobs, set j | j in t.jobs && Recoverable(t, j), if batch <= 0 then 100 else batch)
  }

  function Renewed(job: Job, lease: Lease): (r: Job) {
    job.(lease := Some(lease))
  }

  function RecordOf(t: Tables, j: JobId): (r: ExpiredLease)
    requires j in t.jobs
  {
    ExpiredLease(j, t.jobs[j].workflow, t.jobs[j].attempts, t.nextToken, t.jobs[j].container, t.jobs[j].node,
                 RuntimeUnavailable(t, j))
  }

  function Records(t: Tables, taken: seq<JobId>): (r: seq<ExpiredLease>)
    requires forall j :: j in taken ==> j in t.jobs
    ensures |r| == |taken| && forall i :: 0 <= i < |r| ==> r[i] == RecordOf(t, taken[i])
  {
    if taken == [] then [] else [RecordOf(t, taken[0])] + Records(t, taken[1..])
  }

  /** One new token covers the whole batch. */
  function RecoverLeases(t: Tables, c: Command): (r: Effect)
    requires c.Recover?
  {
    var taken := ToRecover(t, c.batch);
    var lease := Lease(t.nextToken, c.worker, c.process, t.now + LeaseSeconds(c.duration) * SECOND);
    var jobs := map j | j in t.jobs :: if j in taken then Renewed(t.jobs[j], lease) else t.jobs[j];
    Success((t.(jobs := jobs, nextToken := t.nextToken + 1), Recovered(Records(t, taken))))
  }

  /** The recovery lease recorded for this job is still the caller's and has not expired. */
  predicate StillRecovering(t: Tables, e: ExpiredLease, worker: WorkerId, process: ProcessId) {
    && Holds(t.jobs, e.job, e.token)
    && t.jobs[e.job].lease.value.worker == worker
    && t.jobs[e.job].lease.value.process == process
    && t.now < t.jobs[e.job].lease.value.expiresAt
  }

  function RenewedJobs(t: Tables, stored: seq<ExpiredLease>, worker: WorkerId, process: ProcessId): (r: set<JobId>) {
    set e | e in stored && StillRecovering(t, e, worker, process) :: e.job
  }

  /** The entries of a response whose job was renewed, in their order. */
  function EntriesFor(stored: seq<ExpiredLease>, renewed: set<JobId>): (r: seq<ExpiredLease>) {
    if stored == [] then []
    else
      var rest, e := EntriesFor(stored[..|stored| - 1], renewed), stored[|stored| - 1];
      if e.job in renewed then rest + [e] else rest
  }

  function RenewRows(t: Tables, renewed: set<JobId>, until: Time): (r: map<JobId, Job>) {
    map j | j in t.jobs ::
      if j in renewed && t.jobs[j].lease.Some?
      then Renewed(t.jobs[j], t.jobs[j].lease.value.(expiresAt := until)) else t.jobs[j]
  }

  /** A replayed recovery renews what it still holds and answers with those entries only. */
  function ReplayRecover(t: Tables, c: Command, stored: seq<ExpiredLease>): (r: (Tables, Response))
    requires c.Recover?
  {
    var renewed := RenewedJobs(t, stored, c.worker, c.process);
    (t.(jobs := RenewRows(t, renewed, t.now + LeaseSeconds(c.duration) * SECOND)),
     Recovered(EntriesFor(stored, renewed)))
  }

  // ---- job.cancel

  function CancelAnyJob(t: Tables, c: Command): (r: Effect)
    requires c.CancelJob?
  {
    if c.job !in t.jobs then Failure(NotFound)
    else
      var job := t.jobs[c.job];
      var response := CancelSnapshot(job.status, job.container, job.node, job.attempts);
      if !job.status.Active() then Success((t, response))
      else
        Success((t.(jobs := t.jobs[c.job := ClosedRow(job, Status.Canceled, t.now).(reason := Some(c.reason))],
                    nodes := if job.status.Running? then FreeSlot(t.nodes, job.node) else t.nodes), response))
  }

  // ---- job.schedule

  predicate Schedulable(t: Tables, c: Command)
    requires c.Schedule?
  {
    && c.workflow in t.workflows
    && t.workflows[c.workflow].user == c.user
    && !t.workflows[c.workflow].terminated
    && t.workflows[c.workflow].built
    && (c.trigger.Automatic? ==> t.workflows[c.workflow].generation == c.generation)
  }

  /** The automatic jobs of the workflow that occupy this key, or this instant. Unique
      indexes keep each of these to one row. */
  function KeyHolders(t: Tables, workflow: WorkflowId, key: CommandId): (r: set<JobId>) {
    set j | j in t.jobs && t.jobs[j].workflow == workflow && t.jobs[j].trigger.Automatic? && t.jobs[j].eventKey == key
  }

  function SlotHolders(t: Tables, workflow: WorkflowId, at: Time): (r: set<JobId>) {
    set j | j in t.jobs && t.jobs[j].workflow == workflow && t.jobs[j].trigger.Automatic? && t.jobs[j].scheduledAt == at
  }

  predicate IsLeast(s: set<JobId>, j: JobId) {
    j in s && forall k :: k in s ==> j <= k
  }

  lemma {:induction false} SomeJobIsLeast(s: set<JobId>)
    requires s != {}
    ensures exists j :: IsLeast(s, j)
    decreases s
  {
    var k :| k in s;
    var rest := s - {k};
    assert s == rest + {k};
    if rest == {} {
      assert IsLeast(s, k);
    } else {
      SomeJobIsLeast(rest);
      var least :| IsLeast(rest, least);
      assert IsLeast(s, if least <= k then least else k);
    }
  }

  function Least(s: set<JobId>): (j: JobId)
    requires s != {}
    ensures j in s
  {
    SomeJobIsLeast(s);
    var j :| IsLeast(s, j);
    j
  }

  function Adopt(t: Tables, c: Command, j: JobId): (r: Effect)
    requires c.Schedule? && j in t.jobs
  {
    if t.jobs[j].user == c.user && t.jobs[j].generation == Some(c.generation)
    then Success((t, Scheduled(j))) else Failure(AlreadyExists)
  }

  function NewJob(t: Tables, c: Command, key: CommandId): (r: Job)
    requires c.Schedule?
  {
    Job(c.workflow, c.user, c.trigger, key, if c.trigger.Automatic? then Some(c.generation) else None,
        c.at, t.now, Pending, 0, 0, None, None, None, None, None, None, None, None)
  }

  function InsertJob(t: Tables, c: Command, key: CommandId): (r: Effect)
    requires c.Schedule?
  {
    Success((t.(jobs := t.jobs[t.nextJob := NewJob(t, c, key)], nextJob := t.nextJob + 1), Scheduled(t.nextJob)))
  }

  function ScheduleJob(t: Tables, c: Command, key: CommandId): (r: Effect)
    requires c.Schedule?
  {
    if c.trigger.Manual? then
      if Schedulable(t, c) then InsertJob(t, c, key) else Failure(NotFound)
    else if KeyHolders(t, c.workflow, key) != {} then Adopt(t, c, Least(KeyHolders(t, c.workflow, key)))
    else if 0 < c.generation && !Schedulable(t, c) then Failure(FailedPrecondition)
    else if c.workflow !in t.workflows then Failure(Internal)
    else if SlotHolders(t, c.workflow, c.at) != {} then
      if c.keyed then Failure(Internal) else Adopt(t, c, Least(SlotHolders(t, c.workflow, c.at)))
    else InsertJob(t, c, key)
  }
}
