/**
 Every answer to the other job commands, and what it changes, over the columns of the tables
 (internal/repository/jobs/lease.go, internal/repository/jobs/jobs.go). A command is answered
 from its stored row while that lives; here it has none.
 */
module JobAnswers {
  import opened Prelude
  import opened CommandLedger
  import opened JobTables
  import opened JobDatabase
  import opened JobInvariants
  import opened ClaimAnswers
  import Utf8

  /** The job runs under this token. */
  predicate RunsUnder(t: Tables, j: JobId, token: Token) {
    j in t.jobs && t.jobs[j].status == Running
    && match t.jobs[j].lease
       case Some(lease) => lease.token == token
       case None => false
  }

  /** Only this job's row changes, and the counter of its node falls by one if it had one. */
  predicate Leaves(t: Tables, t': Tables, j: JobId, row: Job)
    requires j in t.jobs
  {
    && t'.jobs == t.jobs[j := row]
    && (match t.jobs[j].node
        case Some(n) =>
          n in t.nodes
          && t'.nodes == t.nodes[n := t.nodes[n].(runningJobs := t.nodes[n].runningJobs - 1)]
        case None => t'.nodes == t.nodes)
    && t'.workflows == t.workflows && t'.nextToken == t.nextToken && t'.nextJob == t.nextJob && t'.now == t.now
  }

  /** The row of a job that has ended now. */
  function Ended(job: Job, status: Status, now: Time, failure: Option<FailureInfo>, reason: Option<Reason>): (row: Job) {
    Job(job.workflow, job.user, job.trigger, job.eventKey, job.generation, job.scheduledAt, job.createdAt, status,
        job.dispatchAttempts, job.attempts, None, job.node, job.container, job.startedAt, Some(now), job.nextAttemptAt,
        failure, reason)
  }

  lemma SlotIsExact(s: Db, j: JobId)
    requires Sound(s) && j in s.t.jobs && s.t.jobs[j].status.Running? && s.t.jobs[j].node.Some?
    ensures s.t.jobs[j].node.value in s.t.nodes && 1 <= s.t.nodes[s.t.jobs[j].node.value].runningJobs
  {
    assert j in RunningOn(s.t.jobs, s.t.jobs[j].node.value);
  }

  /** Inserting an event again changes nothing, and a new one is inserted once, as the last. */
  lemma InsertsOnce(t: Tables, e: Event)
    ensures InsertEvent(InsertEvent(t, e), e) == InsertEvent(t, e)
    ensures e !in t.outbox ==> InsertEvent(t, e) == t.(outbox := t.outbox + {e}, inserted := t.inserted + [e])
  {
  }

  /** Freeing a slot takes one from its node's counter, which never falls below zero, and from no
      other. */
  lemma FreesOne(nodes: map<NodeId, Node>, n: Option<NodeId>)
    ensures FreeSlot(nodes, n).Keys == nodes.Keys
    ensures forall m :: m in nodes ==>
              FreeSlot(nodes, n)[m] == if n == Some(m) && 1 <= nodes[m].runningJobs
                                       then nodes[m].(runningJobs := nodes[m].runningJobs - 1)
                                       else if n == Some(m) then nodes[m].(runningJobs := 0)
                                       else nodes[m]
  {
  }

  // ---------------------------------------------------------------- outcomes under a lease

  /** A completion succeeds exactly under the job's token; it ends the job, frees its slot and inserts
      the analytics event and then the completion event. */
  lemma CompletionAnswers(s: Db, c: Command, id: CommandId)
    requires Sound(s) && c.Complete? && !LiveAt(s.rows, KeyOf(c, id), s.t.now)
    ensures var (s', reply) := Execute(s, c, id);
            if RunsUnder(s.t, c.job, c.token) then
              reply == Success(Ack)
              && Leaves(s.t, s'.t, c.job,
                   Ended(s.t.jobs[c.job], Status.Completed, s.t.now, s.t.jobs[c.job].failure, s.t.jobs[c.job].reason))
              && s'.t.inserted == s.t.inserted + [JobAnalytics(c.job), JobCompleted(c.job)]
            else reply == Failure(FailedPrecondition) && s' == s
  {
    hide TablesSound;
    if RunsUnder(s.t, c.job, c.token) {
      NoOutcomeYet(s, c.job);
      if s.t.jobs[c.job].node.Some? { SlotIsExact(s, c.job); }
    }
  }

  lemma NoOutcomeYet(s: Db, j: JobId)
    requires Sound(s) && j in s.t.jobs && s.t.jobs[j].status.Running?
    ensures JobAnalytics(j) !in s.t.outbox && JobCompleted(j) !in s.t.outbox && JobFailed(j) !in s.t.outbox
  {
    assert !Caused(s.t.jobs, JobAnalytics(j)) && !Caused(s.t.jobs, JobCompleted(j)) && !Caused(s.t.jobs, JobFailed(j));
  }

  /** A failure likewise; it keeps the failure with its message truncated, and the reason. */
  lemma FailureAnswers(s: Db, c: Command, id: CommandId)
    requires Sound(s) && c.Fail? && !LiveAt(s.rows, KeyOf(c, id), s.t.now)
    ensures var (s', reply) := Execute(s, c, id);
            if RunsUnder(s.t, c.job, c.token) then
              reply == Success(Ack)
              && Leaves(s.t, s'.t, c.job,
                   Ended(s.t.jobs[c.job], Failed, s.t.now,
                         Some(FailureInfo(c.failure.kind, c.failure.code, Utf8.Truncate(c.failure.message))),
                         Some(c.reason)))
              && s'.t.inserted == s.t.inserted + [JobAnalytics(c.job), JobFailed(c.job)]
            else reply == Failure(FailedPrecondition) && s' == s
  {
    hide TablesSound, Utf8.Truncate;
    if RunsUnder(s.t, c.job, c.token) {
      NoOutcomeYet(s, c.job);
      if s.t.jobs[c.job].node.Some? { SlotIsExact(s, c.job); }
    }
  }

  /** A cancellation by the holder likewise, without events. */
  lemma CancellationAnswers(s: Db, c: Command, id: CommandId)
    requires Sound(s) && c.CancelClaimed? && !LiveAt(s.rows, KeyOf(c, id), s.t.now)
    ensures var (s', reply) := Execute(s, c, id);
            if RunsUnder(s.t, c.job, c.token) then
              reply == Success(Ack)
              && Leaves(s.t, s'.t, c.job,
                   Ended(s.t.jobs[c.job], Status.Canceled, s.t.now, s.t.jobs[c.job].failure, Some(c.reason)))
              && s'.t.inserted == s.t.inserted && s'.t.outbox == s.t.outbox
            else reply == Failure(FailedPrecondition) && s' == s
  {
    hide TablesSound;
    if RunsUnder(s.t, c.job, c.token) && s.t.jobs[c.job].node.Some? { SlotIsExact(s, c.job); }
  }

  /** A release gives the job back to wait for the instant asked for, with its attempts and without
      a node or container; if its workflow was terminated meanwhile the job is canceled for that. */
  lemma ReleaseAnswers(s: Db, c: Command, id: CommandId)
    requires Sound(s) && c.Release? && !LiveAt(s.rows, KeyOf(c, id), s.t.now)
    ensures var (s', reply) := Execute(s, c, id);
            if RunsUnder(s.t, c.job, c.token) then
              reply == Success(Ack) && s.t.jobs[c.job].workflow in s.t.workflows
              && Leaves(s.t, s'.t, c.job,
                   if s.t.workflows[s.t.jobs[c.job].workflow].terminated then
                     Ended(s.t.jobs[c.job], Status.Canceled, s.t.now, s.t.jobs[c.job].failure, Some(WorkflowTerminated))
                   else
                     s.t.jobs[c.job].(
                       status := Pending, lease := None, node := None, container := None, startedAt := None,
                       completedAt := None, nextAttemptAt := Some(c.nextAttemptAt), reason := None,
                       failure := Some(FailureInfo(System, c.code, Utf8.Truncate(c.message)))))
              && s'.t.inserted == s.t.inserted && s'.t.outbox == s.t.outbox
            else reply == Failure(FailedPrecondition) && s' == s
  {
    hide TablesSound, Utf8.Truncate;
    if RunsUnder(s.t, c.job, c.token) {
      WorkflowKnown(s, c.job);
      if s.t.jobs[c.job].node.Some? { SlotIsExact(s, c.job); }
    }
  }

  lemma WorkflowKnown(s: Db, j: JobId)
    requires Sound(s) && j in s.t.jobs
    ensures s.t.jobs[j].workflow in s.t.workflows
  {
  }

  /** A container is attached exactly under the token and on the node of the lease, and nothing
      else changes. */
  lemma AttachmentAnswers(s: Db, c: Command, id: CommandId)
    requires c.Attach? && !LiveAt(s.rows, KeyOf(c, id), s.t.now)
    ensures var (s', reply) := Execute(s, c, id);
            if RunsUnder(s.t, c.job, c.token) && s.t.jobs[c.job].node == Some(c.node) then
              reply == Success(Ack)
              && s'.t == s.t.(jobs := s.t.jobs[c.job := s.t.jobs[c.job].(container := Some(c.container))])
            else reply == Failure(FailedPrecondition) && s' == s
  {
  }

  /** A renewal prolongs exactly an unexpired lease under its token, by the duration in whole
      seconds. */
  lemma RenewalAnswers(s: Db, j: JobId, token: Token, duration: Time)
    ensures RenewLease(s.t, j, token, duration).Failure? ==>
              RenewLease(s.t, j, token, duration) == Failure(FailedPrecondition)
    ensures var s' := Step(s, Renew(j, token, duration));
            if RunsUnder(s.t, j, token) && s.t.now < s.t.jobs[j].lease.value.expiresAt then
              j in s'.t.jobs && s'.t.jobs[j].lease.Some?
              && var until := s'.t.jobs[j].lease.value.expiresAt;
                 s' == s.(t := s.t.(jobs := s.t.jobs[j := s.t.jobs[j].(lease :=
                         Some(s.t.jobs[j].lease.value.(expiresAt := until)))]))
                 && s.t.now + SECOND <= until
                 && (SECOND <= duration ==> until <= s.t.now + duration < until + SECOND)
                 && (duration < SECOND ==> until == s.t.now + SECOND)
            else s' == s
  {
  }

  // ---------------------------------------------------------------- recovery

  /** The lease expired, and its node is not one that may come back: it has none, or one that is
      gone, unhealthy or draining, or is in touch again, or has been silent for long. */
  predicate CanRecover(t: Tables, j: JobId) {
    && j in t.jobs && t.jobs[j].status == Running
    && (match t.jobs[j].lease
        case Some(lease) => lease.expiresAt < t.now
        case None => false)
    && (match t.jobs[j].node
        case None => true
        case Some(n) =>
          n !in t.nodes
          || match t.nodes[n].status
             case Unhealthy => true
             case Draining => true
             case Ready =>
               t.now < t.nodes[n].heartbeatAt + t.cfg.heartbeatTtl || t.nodes[n].heartbeatAt + t.cfg.lostAfter <= t.now)
  }

  /** The lease of job a expired before that of job b, or at the same instant and a is the lesser. */
  predicate Sooner(t: Tables, a: JobId, b: JobId) {
    && a in t.jobs && b in t.jobs
    && match (t.jobs[a].lease, t.jobs[b].lease)
       case (Some(x), Some(y)) => x.expiresAt < y.expiresAt || (x.expiresAt == y.expiresAt && a < b)
       case _ => false
  }

  lemma TakenSooner(t: Tables, batch: int)
    ensures var taken := ToRecover(t, batch);
            && (forall i, k :: 0 <= i < k < |taken| ==> Sooner(t, taken[i], taken[k]))
            && (forall j, k :: j in taken && CanRecover(t, k) && k !in taken ==> Sooner(t, j, k))
  {
    var candidates := set j | j in t.jobs && Recoverable(t, j);
    forall j ensures Recoverable(t, j) <==> CanRecover(t, j) { RecoverableIs(t, j); }
    assert AllLeased(t.jobs, candidates);
    hide Recoverable, CanRecover;
    var taken := TakeExpired(t.jobs, candidates, if batch <= 0 then 100 else batch);
    assert ToRecover(t, batch) == taken;
    forall j, k | j in taken && CanRecover(t, k) && k !in taken ensures Sooner(t, j, k) {
      assert k in t.jobs && k in candidates by { RecoverableIsKnown(t, k); }
      assert ExpiresFirst(t.jobs, j, k);
    }
  }

  lemma RecoverableIsKnown(t: Tables, j: JobId)
    requires CanRecover(t, j)
    ensures j in t.jobs
  {
  }

  lemma RecoverableIs(t: Tables, j: JobId)
    ensures Recoverable(t, j) <==> CanRecover(t, j)
  {
  }

  /** A recovery always succeeds. What it tells of each lease is the row it found, under the new token,
      and whether the node is beyond reach; a lease it took is the caller's for the duration asked
      for, a lease it did not take is as it was, and every recoverable one is taken unless a
      whole batch was. */
  lemma RecoveryAnswers(s: Db, c: Command, id: CommandId)
    requires Sound(s) && c.Recover? && !LiveAt(s.rows, KeyOf(c, id), s.t.now)
    ensures var (s', reply) := Execute(s, c, id);
            && reply.Success? && reply.value.Recovered? && s'.t.jobs.Keys == s.t.jobs.Keys
            && s'.t == s.t.(jobs := s'.t.jobs, nextToken := s.t.nextToken + 1)
            && var told := reply.value.leases;
               var batch := if c.batch <= 0 then 100 else c.batch;
               && |told| <= batch
               && (forall e :: e in told ==> e.job in s.t.jobs && CanRecover(s.t, e.job) && Tells(s.t, e))
               && (forall i, k :: 0 <= i < k < |told| ==> told[i].job != told[k].job && Sooner(s.t, told[i].job, told[k].job))
               && (forall e, j :: e in told && CanRecover(s.t, j) && (forall f :: f in told ==> f.job != j) ==>
                     Sooner(s.t, e.job, j))
               && (|told| < batch ==> forall j :: CanRecover(s.t, j) ==> exists e :: e in told && e.job == j)
               && (forall j :: j in s.t.jobs ==>
                     s'.t.jobs[j] == if exists e :: e in told && e.job == j
                                     then s.t.jobs[j].(lease := Some(RecoveredLease(s.t, c))) else s.t.jobs[j])
  {
    hide TablesSound, Recoverable, CanRecover, Tells, ToRecover, Records, RecordOf;
    forall j ensures Recoverable(s.t, j) <==> CanRecover(s.t, j) { RecoverableIs(s.t, j); }
    BatchIsBounded(s.t, c.batch);
    TakenSooner(s.t, c.batch);
    hide Sooner;
    RecoveryIs(s, c, id);
    RecordsTell(s.t, ToRecover(s.t, c.batch));
  }

  lemma RecoveryIs(s: Db, c: Command, id: CommandId)
    requires c.Recover? && !LiveAt(s.rows, KeyOf(c, id), s.t.now)
    ensures var (s', reply) := Execute(s, c, id);
            var taken := ToRecover(s.t, c.batch);
            && (forall j :: j in taken ==> j in s.t.jobs)
            && reply == Success(Recovered(Records(s.t, taken))) && s'.t.jobs.Keys == s.t.jobs.Keys
            && s'.t == s.t.(jobs := s'.t.jobs, nextToken := s.t.nextToken + 1)
            && forall j :: j in s.t.jobs ==>
                 s'.t.jobs[j] == if j in taken then s.t.jobs[j].(lease := Some(RecoveredLease(s.t, c))) else s.t.jobs[j]
  {
    hide ToRecover, Records;
  }

  lemma RecordsTell(t: Tables, taken: seq<JobId>)
    requires forall j :: j in taken ==> j in t.jobs
    ensures var told := Records(t, taken);
            && |told| == |taken| && (forall i :: 0 <= i < |told| ==> told[i].job == taken[i])
            && (forall e :: e in told ==> e.job in taken && Tells(t, e))
            && (forall j :: (exists e :: e in told && e.job == j) <==> j in taken)
  {
    hide Records;
    var told := Records(t, taken);
    forall j | j in taken ensures exists e :: e in told && e.job == j {
      var i :| 0 <= i < |taken| && taken[i] == j;
      assert told[i] in told;
    }
  }

  lemma BatchIsBounded(t: Tables, batch: int)
    ensures |ToRecover(t, batch)| <= if batch <= 0 then 100 else batch
    ensures |ToRecover(t, batch)| < (if batch <= 0 then 100 else batch) ==>
              forall j :: Recoverable(t, j) ==> j in ToRecover(t, batch)
  {
    hide Recoverable;
    assert forall j :: Recoverable(t, j) ==> j in (set k | k in t.jobs && Recoverable(t, k)) by {
      forall j | Recoverable(t, j) ensures j in t.jobs { RecoverableIs(t, j); }
    }
  }

  predicate Tells(t: Tables, e: ExpiredLease)
    requires e.job in t.jobs
  {
    && e.workflow == t.jobs[e.job].workflow && e.attempts == t.jobs[e.job].attempts && e.token == t.nextToken
    && e.container == t.jobs[e.job].container && e.node == t.jobs[e.job].node
    && (e.unavailable <==>
          match t.jobs[e.job].node
          case None => false
          case Some(n) =>
            n !in t.nodes || t.nodes[n].status.Unhealthy? || t.nodes[n].heartbeatAt + t.cfg.lostAfter <= t.now)
  }

  function RecoveredLease(t: Tables, c: Command): (lease: Lease)
    requires c.Recover?
  {
    Lease(t.nextToken, c.worker, c.process, t.now + LeaseSeconds(c.duration) * SECOND)
  }

  /** A lease that is no longer renewed can be recovered some time, whatever its node does then:
      once it has expired and its node, if it has one, was silent for long. */
  lemma ExpiredIsRecovered(s: Db, j: JobId, wait: nat, c: Command, id: CommandId)
    requires Sound(s) && j in s.t.jobs && s.t.jobs[j].status.Running? && s.t.jobs[j].lease.Some?
    requires s.t.jobs[j].lease.value.expiresAt < s.t.now + wait
    requires s.t.jobs[j].node.Some? && s.t.jobs[j].node.value in s.t.nodes ==>
               s.t.nodes[s.t.jobs[j].node.value].heartbeatAt + s.t.cfg.lostAfter <= s.t.now + wait
    requires c.Recover? && !LiveAt(s.rows, KeyOf(c, id), s.t.now + wait)
    ensures var (s', reply) := Execute(Step(s, Tick(wait)), c, id);
            && reply.Success? && reply.value.Recovered?
            && (|reply.value.leases| < (if c.batch <= 0 then 100 else c.batch) ==>
                  j in s'.t.jobs && s'.t.jobs[j].lease.Some? && s'.t.jobs[j].lease.value.token == s.t.nextToken)
  {
    hide Execute, Sound, Recoverable;
    var later := Step(s, Tick(wait));
    StepSound(s, Tick(wait));
    assert later == s.(t := s.t.(now := s.t.now + wait));
    assert CanRecover(later.t, j);
    RecoveryAnswers(later, c, id);
  }

  // ---------------------------------------------------------------- cancelling

  /** Whoever cancels a job is told the state it was found in; only an unfinished job changes, and a
      running one frees its slot. */
  lemma CancelAnswers(s: Db, c: Command, id: CommandId)
    requires Sound(s) && c.CancelJob? && 0 < s.t.cfg.eventRetention && !LiveAt(s.rows, KeyOf(c, id), s.t.now)
    ensures var (s', reply) := Execute(s, c, id);
            if c.job !in s.t.jobs then reply == Failure(NotFound) && s' == s
            else
              var job := s.t.jobs[c.job];
              var row := Ended(job, Status.Canceled, s.t.now, job.failure, Some(c.reason));
              && reply == Success(CancelSnapshot(job.status, job.container, job.node, job.attempts))
              && (match job.status
                  case Running => Leaves(s.t, s'.t, c.job, row.(lease := None))
                  case Pending => s'.t == s.t.(jobs := s.t.jobs[c.job := row])
                  case Queued => s'.t == s.t.(jobs := s.t.jobs[c.job := row])
                  case _ => s'.t == s.t)
  {
    hide TablesSound;
    if c.job in s.t.jobs {
      UnleasedIs(s, c.job);
      if s.t.jobs[c.job].status.Running? && s.t.jobs[c.job].node.Some? { SlotIsExact(s, c.job); }
    }
  }

  lemma UnleasedIs(s: Db, j: JobId)
    requires Sound(s) && j in s.t.jobs
    ensures s.t.jobs[j].status.Running? <==> s.t.jobs[j].lease.Some?
  {
  }

  // ---------------------------------------------------------------- scheduling

  /** The row of a job that waits for its instant. */
  function Waiting(c: Command, key: CommandId, now: Time): (row: Job)
    requires c.Schedule?
  {
    Job(c.workflow, c.user, c.trigger, key, if c.trigger == Manual then None else Some(c.generation),
        c.at, now, Pending, 0, 0, None, None, None, None, None, None, None, None)
  }

  predicate Inserts(s: Db, s': Db, c: Command, key: CommandId)
    requires c.Schedule?
  {
    s'.t == s.t.(jobs := s.t.jobs[s.t.nextJob := Waiting(c, key, s.t.now)], nextJob := s.t.nextJob + 1)
  }

  /** The workflow is the user's, live and built. */
  predicate Accepting(t: Tables, c: Command)
    requires c.Schedule?
  {
    c.workflow in t.workflows && t.workflows[c.workflow].user == c.user
    && t.workflows[c.workflow].built && !t.workflows[c.workflow].terminated
  }

  /** A manual run is inserted exactly when its workflow accepts it, under the caller's key and for
      the instant asked for, however many jobs there are. */
  lemma ManualAnswers(s: Db, c: Command, id: CommandId)
    requires c.Schedule? && c.trigger.Manual? && !LiveAt(s.rows, KeyOf(c, id), s.t.now)
    ensures var (s', reply) := Execute(s, c, id);
            if Accepting(s.t, c) then reply == Success(Scheduled(s.t.nextJob)) && Inserts(s, s', c, id)
            else reply == Failure(NotFound) && s' == s
  {
  }

  ghost predicate Occupies(t: Tables, c: Command, j: JobId)
    requires c.Schedule?
  {
    j in t.jobs && t.jobs[j].workflow == c.workflow && t.jobs[j].trigger == Automatic
  }

  /** An automatic run, in order of precedence: the job that has the key answers, to its own user and
      generation only; a newer workflow that no longer accepts the generation refuses; an unknown
      workflow is an error; the job that has the instant answers a call without a key, and is an
      error for a call with one; otherwise the job is inserted. */
  lemma AutomaticAnswers(s: Db, c: Command, id: CommandId)
    requires Sound(s) && c.Schedule? && c.trigger.Automatic? && 0 < s.t.cfg.eventRetention
    requires !LiveAt(s.rows, KeyOf(c, id), s.t.now)
    ensures var (s', reply) := Execute(s, c, id);
            var key := if c.keyed then id else OccurrenceOf(c.workflow, c.at);
            && (forall j :: Occupies(s.t, c, j) && s.t.jobs[j].eventKey == key ==>
                  s'.t == s.t && reply == Adopted(s.t, c, j))
            && ((forall j :: Occupies(s.t, c, j) ==> s.t.jobs[j].eventKey != key) ==>
                  if 0 < c.generation && !(Accepting(s.t, c) && s.t.workflows[c.workflow].generation == c.generation) then
                    reply == Failure(FailedPrecondition) && s' == s
                  else if c.workflow !in s.t.workflows then reply == Failure(Internal) && s' == s
                  else
                    && (forall j :: Occupies(s.t, c, j) && s.t.jobs[j].scheduledAt == c.at ==>
                          s'.t == s.t && reply == if c.keyed then Failure(Internal) else Adopted(s.t, c, j))
                    && ((forall j :: Occupies(s.t, c, j) ==> s.t.jobs[j].scheduledAt != c.at) ==>
                          reply == Success(Scheduled(s.t.nextJob)) && Inserts(s, s', c, key)))
  {
    hide TablesSound;
    HoldersAre(s, c, if c.keyed then id else OccurrenceOf(c.workflow, c.at));
    hide KeyHolders, SlotHolders, Occupies, Least;
  }

  function Adopted(t: Tables, c: Command, j: JobId): (reply: Result<Response>)
    requires c.Schedule? && j in t.jobs
  {
    if t.jobs[j].user == c.user && t.jobs[j].generation == Some(c.generation) then Success(Scheduled(j))
    else Failure(AlreadyExists)
  }

  lemma HoldersAre(s: Db, c: Command, key: CommandId)
    requires Sound(s) && c.Schedule?
    ensures KeyHolders(s.t, c.workflow, key) == {} <==>
              forall j :: Occupies(s.t, c, j) ==> s.t.jobs[j].eventKey != key
    ensures SlotHolders(s.t, c.workflow, c.at) == {} <==>
              forall j :: Occupies(s.t, c, j) ==> s.t.jobs[j].scheduledAt != c.at
    ensures forall j :: Occupies(s.t, c, j) && s.t.jobs[j].eventKey == key ==> Least(KeyHolders(s.t, c.workflow, key)) == j
    ensures forall j :: Occupies(s.t, c, j) && s.t.jobs[j].scheduledAt == c.at ==>
              Least(SlotHolders(s.t, c.workflow, c.at)) == j
  {
    var keyed, slots := KeyHolders(s.t, c.workflow, key), SlotHolders(s.t, c.workflow, c.at);
    assert forall j :: Occupies(s.t, c, j) && s.t.jobs[j].eventKey == key <==> j in keyed;
    assert forall j :: Occupies(s.t, c, j) && s.t.jobs[j].scheduledAt == c.at <==> j in slots;
    forall j, k | j in keyed && k in keyed ensures j == k {
      assert SameOccurrence(s.t.jobs[j], s.t.jobs[k]);
    }
    forall j, k | j in slots && k in slots ensures j == k {
      assert SameOccurrence(s.t.jobs[j], s.t.jobs[k]);
    }
  }

  // ---------------------------------------------------------------- the scheduler and the nodes

  /** The scheduler queues a job exactly when it is due, its live and built workflow is its user's and
      has nothing in flight, and no unfinished job of the workflow comes before it; that is one more
      dispatch, and its event. */
  lemma DispatchAnswers(s: Db, j: JobId)
    requires Sound(s)
    ensures var s' := Step(s, Dispatch(j));
            if j in s.t.jobs && s.t.jobs[j].status == Pending && s.t.jobs[j].scheduledAt <= s.t.now
               && (s.t.jobs[j].nextAttemptAt.Some? ==> s.t.jobs[j].nextAttemptAt.value <= s.t.now)
               && s.t.jobs[j].workflow in s.t.workflows
               && s.t.workflows[s.t.jobs[j].workflow].built && !s.t.workflows[s.t.jobs[j].workflow].terminated
               && s.t.workflows[s.t.jobs[j].workflow].user == s.t.jobs[j].user
               && !MustWait(s.t.jobs, j)
               && (forall k :: k in s.t.jobs && s.t.jobs[k].workflow == s.t.jobs[j].workflow ==> s.t.jobs[k].status != Queued)
            then
              var dispatch := s.t.jobs[j].dispatchAttempts + 1;
              && s'.t == s.t.(jobs := s.t.jobs[j := s.t.jobs[j].(status := Queued, dispatchAttempts := dispatch)],
                              outbox := s.t.outbox + {Dispatched(j, dispatch)},
                              inserted := s.t.inserted + [Dispatched(j, dispatch)])
              && s'.rows == s.rows
            else s' == s
  {
    hide TablesSound;
    if j in s.t.jobs {
      NotDispatchedYet(s, j);
      MustWaitIs(s.t.jobs, j);
      hide MustWait;
    }
  }

  lemma NotDispatchedYet(s: Db, j: JobId)
    requires Sound(s) && j in s.t.jobs
    ensures Dispatched(j, s.t.jobs[j].dispatchAttempts + 1) !in s.t.outbox
  {
    assert !Caused(s.t.jobs, Dispatched(j, s.t.jobs[j].dispatchAttempts + 1));
  }

  /** How many jobs run on the node, counted afresh. */
  function JobsOn(jobs: map<JobId, Job>, n: NodeId): (count: nat) {
    |set j | j in jobs && jobs[j].status == Running && jobs[j].node == Some(n)|
  }

  lemma CountsAfresh(jobs: map<JobId, Job>, n: NodeId)
    ensures |RunningOn(jobs, n)| == JobsOn(jobs, n)
  {
    assert RunningOn(jobs, n) == set j | j in jobs && jobs[j].status == Running && jobs[j].node == Some(n);
  }

  /** A node is registered with a limit of at least one; its heartbeat is refreshed if asked for, and is
      at the beginning of time for a new node that does not ask; its counter is counted afresh,
      whatever it was. */
  lemma UpsertAnswers(s: Db, n: NodeId, status: NodeStatus, maxConcurrency: int, refresh: bool)
    ensures var s' := Step(s, Upsert(n, status, maxConcurrency, refresh));
            s' == s.(t := s.t.(nodes := s.t.nodes[n := Node(
              status,
              if refresh then s.t.now else if n in s.t.nodes then s.t.nodes[n].heartbeatAt else 0,
              if 1 <= maxConcurrency then maxConcurrency else 1,
              JobsOn(s.t.jobs, n))]))
  {
    CountsAfresh(s.t.jobs, n);
    hide RunningOn, JobsOn;
  }

  /** A heartbeat makes a known node ready and fresh, leaves its limit and counts its jobs afresh; an
      unknown one is registered. */
  lemma HeartbeatAnswers(s: Db, n: NodeId, maxConcurrency: int)
    ensures var s' := Step(s, HeartbeatNode(n, maxConcurrency));
            if n in s.t.nodes then
              s' == s.(t := s.t.(nodes := s.t.nodes[n := Node(
                Ready, s.t.now, s.t.nodes[n].maxConcurrency, JobsOn(s.t.jobs, n))]))
            else s' == Step(s, Upsert(n, Ready, maxConcurrency, true))
  {
    CountsAfresh(s.t.jobs, n);
    hide RunningOn, JobsOn;
  }

  /** Clean-up drops exactly chosen ledger rows that are completed and have expired, or chosen outbox
      rows, and touches nothing else. */
  lemma CleanupAnswers(s: Db, keys: set<LedgerKey>, events: set<Event>)
    ensures var s' := Step(s, PurgeLedger(keys));
            && s'.t == s.t
            && forall k :: (k in s'.rows <==> k in s.rows && !(k in keys && s.rows[k].Completed? && s.rows[k].expiresAt <= s.t.now))
                           && (k in s'.rows ==> s'.rows[k] == s.rows[k])
    ensures var s' := Step(s, PurgeOutbox(events));
            && s' == s.(t := s.t.(outbox := s'.t.outbox))
            && forall e :: e in s'.t.outbox <==> e in s.t.outbox && e !in events
  {
  }

  /** Changing a workflow cancels exactly its waiting jobs of that user, the automatic ones only if so
      asked. */
  lemma CancelStaleAnswers(s: Db, workflow: WorkflowId, user: UserId, automaticOnly: bool)
    requires Sound(s)
    ensures var s' := Step(s, CancelStale(workflow, user, automaticOnly));
            && s' == s.(t := s.t.(jobs := s'.t.jobs)) && s'.t.jobs.Keys == s.t.jobs.Keys
            && forall j :: j in s.t.jobs ==>
                 var job := s.t.jobs[j];
                 s'.t.jobs[j] ==
                   if job.workflow == workflow && job.user == user && job.status in {Pending, Queued}
                      && (job.trigger == Manual ==> !automaticOnly)
                   then Ended(job, Status.Canceled, s.t.now, job.failure, Some(WorkflowUpdated)) else job
  {
    forall j | j in s.t.jobs ensures s.t.jobs[j].status.Running? <==> s.t.jobs[j].lease.Some? { UnleasedIs(s, j); }
  }
}
