/**
 The repositories that run the transactions (internal/repository/jobs/lease.go,
 internal/repository/jobs/jobs.go, internal/repository/runtime/runtime.go), statement by
 statement over mutable tables. Each method commits exactly the step that JobDatabase
 specifies for its command, or leaves the database as it found it.
 */
module JobsRepository {
  import opened Prelude
  import opened CommandLedger
  import opened JobTables
  import opened JobDatabase

  class Repository {
    const cfg: Config
    const ledger: Ledger<LedgerKey, Command, Response>
    var now: Time
    var nextToken: Token
    var nextJob: JobId
    var workflows: map<WorkflowId, Workflow>
    var jobs: map<JobId, Job>
    var nodes: map<NodeId, Node>
    var outbox: set<Event>
    var inserted: seq<Event>

    constructor (cfg: Config, now: Time)
      ensures Snapshot() == Initial(cfg, now) && fresh(ledger)
    {
      this.cfg := cfg;
      this.now := now;
      ledger := new Ledger<LedgerKey, Command, Response>();
      nextToken, nextJob, workflows, jobs, nodes := 0, 0, map[], map[], map[];
      outbox, inserted := {}, [];
    }

    function CurrentTables(): (t: Tables)
      reads this
    {
      Tables(cfg, now, nextToken, nextJob, workflows, jobs, nodes, outbox, inserted)
    }

    function Snapshot(): (s: Db)
      reads this, ledger
    {
      Db(CurrentTables(), ledger.rows)
    }

    // ---- transactions

    method Rollback(saved: Db)
      requires saved.t.cfg == cfg
      modifies this, ledger
      ensures Snapshot() == saved
    {
      now, nextToken, nextJob := saved.t.now, saved.t.nextToken, saved.t.nextJob;
      workflows, jobs, nodes := saved.t.workflows, saved.t.jobs, saved.t.nodes;
      outbox, inserted := saved.t.outbox, saved.t.inserted;
      ledger.rows := saved.rows;
    }

    /** Completes the command reserved by this transaction and commits, or rolls back. */
    method CompleteAndCommit(saved: Db, c: Command, id: CommandId, response: Response)
      returns (reply: Result<Response>)
      requires saved.t.cfg == cfg && saved.t.now == now
      requires ReserveRow(saved.rows, KeyOf(c, id), RequestOf(c), [], now).1.Fresh?
      requires ledger.rows == ReserveRow(saved.rows, KeyOf(c, id), RequestOf(c), [], now).0
      requires Mutate(saved.t, c, id) == Success((CurrentTables(), response))
      modifies this, ledger
      ensures (Snapshot(), reply) == ExecuteFresh(saved, c, id)
    {
      hide Mutate, KeyOf, RequestOf;
      var k, request, retention := KeyOf(c, id), RequestOf(c), Retention(cfg, c);
      var code := ledger.Complete(k, request, response, retention, now);
      if code != OK {
        Rollback(saved);
        return Failure(code);
      }
      CompletesOwnReservation(saved.rows, k, request, [], response, retention, now, now);
      return Success(response);
    }

    /** Reserves the command. Any answer but Fresh already decides the transaction. */
    method Reserve(c: Command, id: CommandId) returns (reservation: Reservation<Response>)
      modifies ledger
      ensures CurrentTables() == old(CurrentTables())
      ensures (ledger.rows, reservation) == ReserveRow(old(ledger.rows), KeyOf(c, id), RequestOf(c), [], now)
    {
      reservation := ledger.Reserve(KeyOf(c, id), RequestOf(c), [], now);
    }

    /** Insert-if-absent into the outbox. */
    method InsertTx(e: Event)
      modifies this`outbox, this`inserted
      ensures CurrentTables() == InsertEvent(old(CurrentTables()), e)
    {
      if e !in outbox {
        outbox := outbox + {e};
        inserted := inserted + [e];
      }
    }

    method DecrementRuntimeSlotForJob(j: JobId)
      modifies this`nodes
      ensures nodes == if j in jobs then FreeSlot(old(nodes), jobs[j].node) else old(nodes)
    {
      if j in jobs && jobs[j].node.Some? && jobs[j].node.value in nodes {
        var n := jobs[j].node.value;
        var running := nodes[n].runningJobs - 1;
        if running < 0 {
          running := 0;
        }
        nodes := nodes[n := nodes[n].(runningJobs := running)];
      }
    }

    // ---- commands under a lease token

    /** The answer of a command whose reservation was not fresh. */
    function Decided(reservation: Reservation<Response>): (reply: Result<Response>)
      requires !reservation.Fresh?
    {
      match reservation
      case Conflict => Failure(AlreadyExists)
      case InProgress => Failure(Aborted)
      case Replay(stored) => Success(stored)
    }

    method AttachJobContainer(j: JobId, token: Token, container: ContainerId, n: NodeId, id: CommandId)
      returns (reply: Result<Response>)
      modifies this, ledger
      ensures (Snapshot(), reply) == Execute(old(Snapshot()), Attach(j, token, container, n), id)
    {
      var c, saved := Attach(j, token, container, n), Snapshot();
      var reservation := Reserve(c, id);
      if !reservation.Fresh? {
        return Decided(reservation);
      }
      if !Holds(jobs, j, token) || jobs[j].node != Some(n) {
        Rollback(saved);
        return Failure(FailedPrecondition);
      }
      jobs := jobs[j := jobs[j].(container := Some(container))];
      reply := CompleteAndCommit(saved, c, id, Ack);
    }

    method CompleteJob(j: JobId, token: Token, id: CommandId) returns (reply: Result<Response>)
      modifies this, ledger
      ensures (Snapshot(), reply) == Execute(old(Snapshot()), Complete(j, token), id)
    {
      var c, saved := Complete(j, token), Snapshot();
      var reservation := Reserve(c, id);
      if !reservation.Fresh? {
        return Decided(reservation);
      }
      if !Holds(jobs, j, token) {
        Rollback(saved);
        return Failure(FailedPrecondition);
      }
      jobs := jobs[j := jobs[j].(status := Status.Completed, completedAt := Some(now), lease := None)];
      InsertTx(JobAnalytics(j));
      InsertTx(JobCompleted(j));
      DecrementRuntimeSlotForJob(j);
      reply := CompleteAndCommit(saved, c, id, Ack);
    }

    method FailJob(j: JobId, token: Token, failure: FailureInfo, reason: Reason, id: CommandId)
      returns (reply: Result<Response>)
      modifies this, ledger
      ensures (Snapshot(), reply) == Execute(old(Snapshot()), Fail(j, token, failure, reason), id)
    {
      var c, saved := Fail(j, token, failure, reason), Snapshot();
      var reservation := Reserve(c, id);
      if !reservation.Fresh? {
        return Decided(reservation);
      }
      if !Holds(jobs, j, token) {
        Rollback(saved);
        return Failure(FailedPrecondition);
      }
      var truncated := failure.(message := Utf8.Truncate(failure.message));
      jobs := jobs[j := jobs[j].(status := Status.Failed, completedAt := Some(now), lease := None,
                                 failure := Some(truncated), reason := Some(reason))];
      InsertTx(JobAnalytics(j));
      InsertTx(JobFailed(j));
      DecrementRuntimeSlotForJob(j);
      reply := CompleteAndCommit(saved, c, id, Ack);
    }

    method CancelClaimedJob(j: JobId, token: Token, reason: Reason, id: CommandId) returns (reply: Result<Response>)
      modifies this, ledger
      ensures (Snapshot(), reply) == Execute(old(Snapshot()), CancelClaimed(j, token, reason), id)
    {
      var c, saved := CancelClaimed(j, token, reason), Snapshot();
      var reservation := Reserve(c, id);
      if !reservation.Fresh? {
        return Decided(reservation);
      }
      if !Holds(jobs, j, token) {
        Rollback(saved);
        return Failure(FailedPrecondition);
      }
      CloseCanceled(j, reason);
      DecrementRuntimeSlotForJob(j);
      reply := CompleteAndCommit(saved, c, id, Ack);
    }

    method CloseCanceled(j: JobId, reason: Reason)
      requires j in jobs
      modifies this`jobs
      ensures jobs == old(jobs)[j := ClosedRow(old(jobs)[j], Status.Canceled, now).(reason := Some(reason))]
    {
      jobs := jobs[j := jobs[j].(status := Status.Canceled, completedAt := Some(now), lease := None,
                                 reason := Some(reason))];
    }

    /** A release whose workflow has been terminated cancels the job instead. */
    method ReleaseJobForRetry(j: JobId, token: Token, nextAttemptAt: Time, code: Text, message: Text, id: CommandId)
      returns (reply: Result<Response>)
      modifies this, ledger
      ensures (Snapshot(), reply) == Execute(old(Snapshot()), Release(j, token, nextAttemptAt, code, message), id)
    {
      var c, saved := Release(j, token, nextAttemptAt, code, message), Snapshot();
      var reservation := Reserve(c, id);
      if !reservation.Fresh? {
        return Decided(reservation);
      }
      if !Holds(jobs, j, token) {
        Rollback(saved);
        return Failure(FailedPrecondition);
      }
      if OwnerTerminated(CurrentTables(), j) {
        CloseCanceled(j, WorkflowTerminated);
        DecrementRuntimeSlotForJob(j);
      } else {
        DecrementRuntimeSlotForJob(j);
        jobs := jobs[j := jobs[j].(
          status := Pending, container := None, node := None, startedAt := None, completedAt := None,
          lease := None, reason := None, nextAttemptAt := Some(nextAttemptAt),
          failure := Some(FailureInfo(System, code, Utf8.Truncate(message))))];
      }
      reply := CompleteAndCommit(saved, c, id, Ack);
    }

    method RenewJobLease(j: JobId, token: Token, duration: Time) returns (expiresAt: Result<Time>)
      modifies this
      ensures Snapshot() == Step(old(Snapshot()), Renew(j, token, duration))
      ensures expiresAt ==
        if RenewLease(old(CurrentTables()), j, token, duration).Success?
        then Success(now + LeaseSeconds(duration) * SECOND) else Failure(FailedPrecondition)
    {
      if j !in jobs || !jobs[j].status.Running? || jobs[j].lease.None? {
        return Failure(FailedPrecondition);
      }
      var lease := jobs[j].lease.value;
      if lease.token != token || lease.expiresAt <= now {
        return Failure(FailedPrecondition);
      }
      var until := now + LeaseSeconds(duration) * SECOND;
      jobs := jobs[j := jobs[j].(lease := Some(lease.(expiresAt := until)))];
      return Success(until);
    }

    // ---- claims

    method ClaimJob(j: JobId, w: WorkflowId, worker: WorkerId, process: ProcessId, duration: Time, dispatch: nat,
                    id: CommandId)
      returns (reply: Result<Response>)
      modifies this, ledger
      ensures (Snapshot(), reply) == Execute(old(Snapshot()), Claim(j, w, worker, process, duration, dispatch), id)
    {
      var c, saved := Claim(j, w, worker, process, duration, dispatch), Snapshot();
      var reservation := Reserve(c, id);
      if reservation.Replay? {
        reply := ReplayJobClaim(c, reservation.response);
        return;
      }
      if !reservation.Fresh? {
        return Decided(reservation);
      }
      if CanClaim(CurrentTables(), c) {
        var until := now + LeaseSeconds(duration) * SECOND;
        var node := if workflows[w].kind.Container? then SelectRuntime(CurrentTables()) else None;
        var attempts := jobs[j].attempts + 1;
        jobs := jobs[j := jobs[j].(
          status := Running, attempts := attempts, lease := Some(Lease(nextToken, worker, process, until)),
          startedAt := Some(now), completedAt := None, failure := None, reason := None, node := node)];
        if node.Some? {
          nodes := nodes[node.value := nodes[node.value].(runningJobs := nodes[node.value].runningJobs + 1)];
        }
        var grant := Grant(j, w, dispatch, attempts, nextToken, node, until);
        nextToken := nextToken + 1;
        reply := CompleteAndCommit(saved, c, id, Granted(grant));
        return;
      }
      reply := RejectJobClaim(saved, c, id);
    }

    /** A stored grant is returned only while its lease is still active. */
    method ReplayJobClaim(c: Command, stored: Response) returns (reply: Result<Response>)
      requires c.Claim?
      ensures reply == Success(ReplayClaim(CurrentTables(), c, stored))
    {
      if !stored.Granted? {
        return Success(stored);
      }
      if !LeaseActive(CurrentTables(), c.job, stored.grant.token, c.worker, c.process, c.dispatch) {
        return Success(Denied(LeaseInactive));
      }
      return Success(Granted(stored.grant.(expiresAt := jobs[c.job].lease.value.expiresAt)));
    }

    /** Classifies a missed claim inside its own transaction. */
    method RejectJobClaim(saved: Db, c: Command, id: CommandId) returns (reply: Result<Response>)
      requires c.Claim? && saved.t == CurrentTables() && !CanClaim(saved.t, c)
      requires ReserveRow(saved.rows, KeyOf(c, id), RequestOf(c), [], now).1.Fresh?
      requires ledger.rows == ReserveRow(saved.rows, KeyOf(c, id), RequestOf(c), [], now).0
      modifies this, ledger
      ensures (Snapshot(), reply) == ExecuteFresh(saved, c, id)
    {
      if c.job in jobs && jobs[c.job].status.Queued? && Blocked(jobs, c.job) {
        jobs := jobs[c.job := jobs[c.job].(status := Pending)];
        reply := CompleteAndCommit(saved, c, id, Denied(Deferred));
        return;
      }
      if MissingRuntime(CurrentTables(), c) {
        Rollback(saved);
        return Failure(Unavailable);
      }
      if c.job !in jobs || jobs[c.job].workflow != c.workflow {
        Rollback(saved);
        return Failure(NotFound);
      }
      var reason := if jobs[c.job].status != Queued then StatusIs(jobs[c.job].status)
                    else DispatchMismatch(jobs[c.job].dispatchAttempts);
      reply := CompleteAndCommit(saved, c, id, Denied(reason));
    }

    // ---- recovery

    method RecoverExpiredJobLeases(batch: int, worker: WorkerId, process: ProcessId, duration: Time, id: CommandId)
      returns (reply: Result<Response>)
      modifies this, ledger
      ensures (Snapshot(), reply) == Execute(old(Snapshot()), Recover(batch, worker, process, duration), id)
    {
      hide ToRecover, Records, RecordOf, EntriesFor, RenewRows, RenewedJobs;
      var c, saved := Recover(batch, worker, process, duration), Snapshot();
      var reservation := Reserve(c, id);
      if reservation.Replay? && reservation.response.Recovered? {
        var active := RenewRecoveryReplay(reservation.response.leases, worker, process, duration);
        return Success(Recovered(active));
      }
      if !reservation.Fresh? {
        return Decided(reservation);
      }
      var taken := ToRecover(CurrentTables(), batch);
      var leases := Records(CurrentTables(), taken);
      var lease := Lease(nextToken, worker, process, now + LeaseSeconds(duration) * SECOND);
      jobs := map j | j in jobs :: if j in taken then Renewed(jobs[j], lease) else jobs[j];
      nextToken := nextToken + 1;
      assert jobs == RecoverLeases(saved.t, c).value.0.jobs;
      reply := CompleteAndCommit(saved, c, id, Recovered(leases));
    }

    method RenewRecoveryReplay(stored: seq<ExpiredLease>, worker: WorkerId, process: ProcessId, duration: Time)
      returns (active: seq<ExpiredLease>)
      modifies this`jobs
      ensures var renewed := RenewedJobs(old(CurrentTables()), stored, worker, process);
              && jobs == RenewRows(old(CurrentTables()), renewed, now + LeaseSeconds(duration) * SECOND)
              && active == EntriesFor(stored, renewed)
    {
      var t := CurrentTables();
      var renewed := RenewedJobs(t, stored, worker, process);
      jobs := RenewRows(t, renewed, now + LeaseSeconds(duration) * SECOND);
      active := ActiveRecoveryReplayJobs(stored, renewed);
    }

    method ActiveRecoveryReplayJobs(stored: seq<ExpiredLease>, renewed: set<JobId>) returns (active: seq<ExpiredLease>)
      ensures active == EntriesFor(stored, renewed)
    {
      active := [];
      for i := 0 to |stored|
        invariant active == EntriesFor(stored[..i], renewed)
      {
        assert stored[..i + 1][..i] == stored[..i];
        if stored[i].job in renewed {
          active := active + [stored[i]];
        }
      }
      assert stored[..|stored|] == stored;
    }

    // ---- cancellation and scheduling

    method CancelJob(j: JobId, reason: Reason, id: CommandId) returns (reply: Result<Response>)
      modifies this, ledger
      ensures (Snapshot(), reply) == Execute(old(Snapshot()), Command.CancelJob(j, reason), id)
    {
      var c, saved := Command.CancelJob(j, reason), Snapshot();
      var reservation := Reserve(c, id);
      if !reservation.Fresh? {
        return Decided(reservation);
      }
      if j !in jobs {
        Rollback(saved);
        return Failure(NotFound);
      }
      var previous := jobs[j];
      var response := CancelSnapshot(previous.status, previous.container, previous.node, previous.attempts);
      if previous.status == Pending || previous.status == Queued || previous.status == Running {
        CloseCanceled(j, reason);
        if previous.status == Running {
          DecrementRuntimeSlotForJob(j);
        }
      }
      reply := CompleteAndCommit(saved, c, id, response);
    }

    method ScheduleJob(w: WorkflowId, user: UserId, at: Time, trigger: Trigger, keyed: bool, generation: nat,
                       id: CommandId)
      returns (reply: Result<Response>)
      modifies this, ledger
      ensures (Snapshot(), reply) == Execute(old(Snapshot()), Schedule(w, user, at, trigger, keyed, generation), id)
    {
      var c, saved := Schedule(w, user, at, trigger, keyed, generation), Snapshot();
      var reservation := Reserve(c, id);
      if !reservation.Fresh? {
        return Decided(reservation);
      }
      var key := IdOf(c, id);
      if trigger.Automatic? {
        var legacy := KeyHolders(CurrentTables(), w, key);
        if legacy != {} {
          reply := AdoptStored(saved, c, id, Least(legacy));
          return;
        }
        if 0 < generation && !Schedulable(CurrentTables(), c) {
          Rollback(saved);
          return Failure(FailedPrecondition);
        }
        if w !in workflows {
          Rollback(saved);
          return Failure(Internal);
        }
        var occupied := SlotHolders(CurrentTables(), w, at);
        if occupied != {} {
          if keyed {
            Rollback(saved);
            return Failure(Internal);
          }
          reply := AdoptStored(saved, c, id, Least(occupied));
          return;
        }
      } else if !Schedulable(CurrentTables(), c) {
        Rollback(saved);
        return Failure(NotFound);
      }
      var j := nextJob;
      jobs := jobs[j := NewJob(CurrentTables(), c, key)];
      nextJob := nextJob + 1;
      reply := CompleteAndCommit(saved, c, id, Scheduled(j));
    }

    /** Answers with a job that already stands for this occurrence, if its input agrees. */
    method AdoptStored(saved: Db, c: Command, id: CommandId, j: JobId) returns (reply: Result<Response>)
      requires c.Schedule? && saved.t == CurrentTables() && j in jobs
      requires Mutate(saved.t, c, id) == Adopt(saved.t, c, j)
      requires ReserveRow(saved.rows, KeyOf(c, id), RequestOf(c), [], now).1.Fresh?
      requires ledger.rows == ReserveRow(saved.rows, KeyOf(c, id), RequestOf(c), [], now).0
      modifies this, ledger
      ensures (Snapshot(), reply) == ExecuteFresh(saved, c, id)
    {
      if jobs[j].generation.None? || jobs[j].generation.value != c.generation || jobs[j].user != c.user {
        Rollback(saved);
        return Failure(AlreadyExists);
      }
      reply := CompleteAndCommit(saved, c, id, Scheduled(j));
    }

    // ---- runtime nodes

    method ReconcileRunningJobs(n: NodeId)
      requires n in nodes
      modifies this`nodes
      ensures nodes == old(nodes)[n := Reconciled(jobs, n, old(nodes)[n])]
    {
      nodes := nodes[n := nodes[n].(runningJobs := |RunningOn(jobs, n)|)];
    }

    method UpsertRuntimeNode(n: NodeId, status: NodeStatus, maxConcurrency: int, refreshHeartbeat: bool)
      modifies this`nodes
      ensures CurrentTables() == UpsertNode(old(CurrentTables()), n, status, maxConcurrency, refreshHeartbeat)
    {
      hide RunningOn;
      ghost var t := CurrentTables();
      var limit := if maxConcurrency <= 0 then 1 else maxConcurrency;
      if n in nodes {
        var heartbeatAt := if refreshHeartbeat then now else nodes[n].heartbeatAt;
        nodes := nodes[n := nodes[n].(status := status, heartbeatAt := heartbeatAt, maxConcurrency := limit)];
      } else {
        nodes := nodes[n := Node(status, if refreshHeartbeat then now else 0, limit, 0)];
      }
      ReconcileRunningJobs(n);
      assert nodes == UpsertNode(t, n, status, maxConcurrency, refreshHeartbeat).nodes;
    }

    method Heartbeat(n: NodeId, maxConcurrency: int)
      modifies this`nodes
      ensures Snapshot() == Step(old(Snapshot()), HeartbeatNode(n, maxConcurrency))
    {
      if n !in nodes {
        UpsertRuntimeNode(n, NodeStatus.Ready, maxConcurrency, true);
        return;
      }
      nodes := nodes[n := nodes[n].(status := NodeStatus.Ready, heartbeatAt := now)];
      ReconcileRunningJobs(n);
    }

    // ---- the scheduler's dispatch of one selected job

    method DispatchJob(j: JobId) returns (dispatched: bool)
      modifies this
      ensures Snapshot() == Step(old(Snapshot()), Dispatch(j))
      ensures dispatched <==> Dispatchable(old(CurrentTables()), j)
    {
      if !Dispatchable(CurrentTables(), j) {
        return false;
      }
      var attempt := jobs[j].dispatchAttempts + 1;
      jobs := jobs[j := jobs[j].(status := Queued, dispatchAttempts := attempt)];
      InsertTx(Dispatched(j, attempt));
      return true;
    }
  }
}
