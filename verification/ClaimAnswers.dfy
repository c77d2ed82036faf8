/**
 Every answer to a claim, over the columns of the tables, and what the answer says about the
 dispatch it was asked for (ClaimJob and rejectJobClaim in internal/repository/jobs/lease.go).
 */
module ClaimAnswers {
  import opened Prelude
  import opened CommandLedger
  import opened JobTables
  import opened JobDatabase
  import opened JobInvariants
  import opened DispatchGrants

  // ---------------------------------------------------------------- a first call

  /** The job waits in the queue for exactly this dispatch. */
  predicate Awaits(t: Tables, c: Command)
    requires c.Claim?
  {
    c.job in t.jobs && t.jobs[c.job].status.Queued? && t.jobs[c.job].workflow == c.workflow
    && t.jobs[c.job].dispatchAttempts == c.dispatch
  }

  /** Another job of the workflow runs, or is unfinished and comes first: by its instant, then by its
      creation, then by its identifier. */
  predicate MustWait(jobs: map<JobId, Job>, j: JobId)
    requires j in jobs
  {
    exists k :: k in jobs && k != j && jobs[k].workflow == jobs[j].workflow
      && (jobs[k].status == Running
          || (jobs[k].status in {Pending, Queued}
              && (jobs[k].scheduledAt < jobs[j].scheduledAt
                  || (jobs[k].scheduledAt == jobs[j].scheduledAt && jobs[k].createdAt < jobs[j].createdAt)
                  || (jobs[k].scheduledAt == jobs[j].scheduledAt && jobs[k].createdAt == jobs[j].createdAt && k < j))))
  }

  lemma MustWaitIs(jobs: map<JobId, Job>, j: JobId)
    requires j in jobs
    ensures Blocked(jobs, j) <==> MustWait(jobs, j)
  {
    if Blocked(jobs, j) {
      if k :| k in jobs && Sibling(jobs, k, j) && jobs[k].status.Running? {
        assert MustWait(jobs, j);
      } else {
        var k :| k in jobs && EarlierActive(jobs, k, j);
        assert MustWait(jobs, j);
      }
    }
    if MustWait(jobs, j) {
      var k :| k in jobs && k != j && jobs[k].workflow == jobs[j].workflow
        && (jobs[k].status == Running
            || (jobs[k].status in {Pending, Queued}
                && (jobs[k].scheduledAt < jobs[j].scheduledAt
                    || (jobs[k].scheduledAt == jobs[j].scheduledAt && jobs[k].createdAt < jobs[j].createdAt)
                    || (jobs[k].scheduledAt == jobs[j].scheduledAt && jobs[k].createdAt == jobs[j].createdAt && k < j))));
      assert Sibling(jobs, k, j) && (jobs[k].status.Running? || EarlierActive(jobs, k, j));
    }
  }

  predicate Behind(t: Tables, c: Command)
    requires c.Claim?
  {
    c.job in t.jobs && t.jobs[c.job].status.Queued? && MustWait(t.jobs, c.job)
  }

  /** The node is ready, was heard of in time and is below its limit. */
  predicate IsPlace(t: Tables, n: NodeId) {
    n in t.nodes && t.nodes[n].status == Ready
    && t.now < t.nodes[n].heartbeatAt + t.cfg.heartbeatTtl && t.nodes[n].runningJobs < t.nodes[n].maxConcurrency
  }

  /** A container workflow needs a place. */
  ghost predicate HasPlace(t: Tables, w: WorkflowId) {
    w in t.workflows && (t.workflows[w].kind == Container ==> exists n :: IsPlace(t, n))
  }

  /** The answers to a claim whose key has no live row, in their order of precedence: a queued job
      that is blocked is put back, whoever asks; then the job must exist and be the workflow's;
      then be queued; then for this dispatch; and then a container workflow must have a place. */
  lemma FreshClaimAnswers(s: Db, c: Command, id: CommandId)
    requires Sound(s) && c.Claim? && !LiveAt(s.rows, KeyOf(c, id), s.t.now)
    ensures var (t, reply) := (s.t, Execute(s, c, id).1);
            && (reply == Success(Denied(Deferred)) <==> Behind(t, c))
            && (reply == Failure(NotFound) <==>
                  !Behind(t, c) && (c.job !in t.jobs || t.jobs[c.job].workflow != c.workflow))
            && (forall status :: reply == Success(Denied(StatusIs(status))) <==>
                  c.job in t.jobs && t.jobs[c.job].workflow == c.workflow
                  && status == t.jobs[c.job].status && !status.Queued?)
            && (forall n :: reply == Success(Denied(DispatchMismatch(n))) <==>
                  !Behind(t, c) && c.job in t.jobs && t.jobs[c.job].workflow == c.workflow
                  && t.jobs[c.job].status.Queued? && n == t.jobs[c.job].dispatchAttempts && n != c.dispatch)
            && (reply == Failure(Unavailable) <==> !Behind(t, c) && Awaits(t, c) && !HasPlace(t, c.workflow))
            && (reply.Success? && reply.value.Granted? <==> !Behind(t, c) && Awaits(t, c) && HasPlace(t, c.workflow))
  {
    if c.job in s.t.jobs { MustWaitIs(s.t.jobs, c.job); }
    hide Blocked, MustWait, TablesSound, HasPlace, Retention;
    WorkflowKnown(s, c);
    PlaceIsRoom(s.t, c.workflow);
    MutateIsClaim(s.t, c, id);
  }

  lemma WorkflowKnown(s: Db, c: Command)
    requires Sound(s) && c.Claim?
    ensures c.job in s.t.jobs ==> s.t.jobs[c.job].workflow in s.t.workflows
  {
  }

  lemma PlaceIsRoom(t: Tables, w: WorkflowId)
    ensures HasPlace(t, w) <==> w in t.workflows && (t.workflows[w].kind.Container? ==> SelectRuntime(t).Some?)
  {
    var chosen := SelectRuntime(t);
    forall n ensures IsPlace(t, n) <==> HasRoom(t, n) {}
    assert chosen.Some? ==> IsPlace(t, chosen.value);
  }

  lemma MutateIsClaim(t: Tables, c: Command, id: CommandId)
    requires c.Claim?
    ensures Mutate(t, c, id) == ClaimJob(t, c) && 0 < Retention(t.cfg, c)
  {
    hide ClaimJob;
  }

  /** What the answers change: a failure nothing, a deferral the queued status, any other denial
      no table at all; and every answer but a failure is stored for a day. */
  lemma FreshClaimChanges(s: Db, c: Command, id: CommandId)
    requires c.Claim? && !LiveAt(s.rows, KeyOf(c, id), s.t.now)
    ensures var (s', reply) := Execute(s, c, id);
            && (reply.Failure? ==> s' == s)
            && (reply.Success? ==> s'.rows == s.rows[KeyOf(c, id) := Row.Completed(
                  RequestOf(c), [], reply.value, s.t.now + 86_400 * SECOND)])
            && (reply == Success(Denied(Deferred)) ==>
                  c.job in s.t.jobs
                  && s'.t == s.t.(jobs := s.t.jobs[c.job := s.t.jobs[c.job].(status := Pending)]))
            && (reply.Success? && reply.value.Denied? && !reply.value.reason.Deferred? ==> s'.t == s.t)
  {
    hide Blocked, SelectRuntime, ClaimedRow, TakeSlot;
  }

  /** Least loaded, then last heard of, then by identifier. */
  predicate ComesFirst(nodes: map<NodeId, Node>, n: NodeId, m: NodeId)
    requires n in nodes && m in nodes
  {
    var a, b := nodes[n], nodes[m];
    if a.runningJobs != b.runningJobs then a.runningJobs < b.runningJobs
    else if a.heartbeatAt != b.heartbeatAt then b.heartbeatAt < a.heartbeatAt
    else n <= m
  }

  lemma PlacesAreRanked(t: Tables)
    requires SelectRuntime(t).Some?
    ensures var n := SelectRuntime(t).value;
            n in t.nodes
            && IsPlace(t, n) && forall m :: IsPlace(t, m) ==> ComesFirst(t.nodes, n, m)
  {
    var n := SelectRuntime(t).value;
    assert HasRoom(t, n);
    forall m | IsPlace(t, m)
      ensures ComesFirst(t.nodes, n, m)
    {
      assert HasRoom(t, m);
    }
  }

  /** A grant starts the job under a new lease of the duration asked for in whole seconds, and tells
      the caller exactly that; a container job takes a slot of the place that is preferred. */
  lemma GrantStarts(s: Db, c: Command, id: CommandId)
    requires Sound(s) && c.Claim? && !LiveAt(s.rows, KeyOf(c, id), s.t.now)
    requires Execute(s, c, id).1.Success? && Execute(s, c, id).1.value.Granted?
    ensures var t, t', grant := s.t, Execute(s, c, id).0.t, Execute(s, c, id).1.value.grant;
            && c.job in t.jobs && c.workflow in t.workflows
            && grant.job == c.job && grant.workflow == c.workflow && grant.dispatch == c.dispatch
            && grant.attempts == t.jobs[c.job].attempts + 1 && grant.token == t.nextToken
            && t'.jobs == t.jobs[c.job := t.jobs[c.job].(
                 status := Running, attempts := grant.attempts, node := grant.node,
                 lease := Some(Lease(grant.token, c.worker, c.process, grant.expiresAt)),
                 startedAt := Some(t.now), completedAt := None, failure := None, reason := None)]
            && t.now + SECOND <= grant.expiresAt
            && (SECOND <= c.duration ==> grant.expiresAt <= t.now + c.duration < grant.expiresAt + SECOND)
            && (c.duration < SECOND ==> grant.expiresAt == t.now + SECOND)
            && (grant.expiresAt - t.now) % SECOND == 0
            && (if t.workflows[c.workflow].kind.Container? then
                  && grant.node.Some? && grant.node.value in t.nodes
                  && t'.nodes == t.nodes[grant.node.value := t.nodes[grant.node.value].(
                       runningJobs := t.nodes[grant.node.value].runningJobs + 1)]
                  && IsPlace(t, grant.node.value)
                  && (forall n :: IsPlace(t, n) ==> ComesFirst(t.nodes, grant.node.value, n))
                else grant.node.None? && t'.nodes == t.nodes)
  {
    if SelectRuntime(s.t).Some? { PlacesAreRanked(s.t); }
    hide Blocked, TablesSound, ComesFirst, IsPlace;
  }

  // ---------------------------------------------------------------- what an answer settles

  /** The dispatch happened, for this workflow's job. */
  predicate Delivered(t: Tables, c: Command)
    requires c.Claim?
  {
    c.job in t.jobs && t.jobs[c.job].workflow == c.workflow && c.dispatch <= t.jobs[c.job].dispatchAttempts
  }

  lemma DeliveredStays(t: Tables, t': Tables, c: Command)
    requires Moves(t, t') && c.Claim? && Delivered(t, c)
    ensures Delivered(t', c)
  {
    assert Move(t, t.jobs[c.job], t'.jobs[c.job]);
  }

  /** Claims carry the identity made of their process, job and dispatch. */
  predicate OwnKey(c: Command, id: CommandId) {
    c.Claim? ==> id == ClaimOf(c.process, c.job, c.dispatch)
  }

  /** Every stored answer of this process is about a dispatch that is over. */
  ghost predicate AnswersSettle(s: Db, process: ProcessId) {
    forall k :: k in s.rows && k.scope == WorkerScope(process) && k.operation.OpClaim? && s.rows[k].Completed? ==>
      k.id.ClaimOf? && k.id.process == process && Spent(s.t, k.id.job, k.id.dispatch)
  }

  /** The dispatch asked for has happened, if the job exists at all. */
  predicate Happened(t: Tables, c: Command) {
    c.Claim? && c.job in t.jobs ==> c.dispatch <= t.jobs[c.job].dispatchAttempts
  }

  /** An answer to a first call, other than a failure, ends the dispatch. */
  lemma FreshAnswerSettles(s: Db, c: Command, id: CommandId)
    requires Sound(s) && c.Claim? && !LiveAt(s.rows, KeyOf(c, id), s.t.now) && Happened(s.t, c)
    ensures var (s', reply) := Execute(s, c, id);
            && (reply.Success? ==> Spent(s'.t, c.job, c.dispatch))
            && (reply.Failure? ==> s' == s && reply.code in {NotFound, Unavailable})
            && (reply == Failure(Unavailable) ==> !Spent(s.t, c.job, c.dispatch))
            && (reply == Failure(NotFound) ==> !Delivered(s.t, c))
  {
    hide Execute, MustWait, Sound, HasPlace, LiveAt;
    FreshClaimAnswers(s, c, id);
    FreshClaimChanges(s, c, id);
    var (s', reply) := Execute(s, c, id);
    if c.job !in s.t.jobs {
      assert reply == Failure(NotFound);
    } else if Behind(s.t, c) {
      assert reply == Success(Denied(Deferred));
    } else if s.t.jobs[c.job].workflow != c.workflow {
      assert reply == Failure(NotFound);
    } else if !s.t.jobs[c.job].status.Queued? {
      assert reply == Success(Denied(StatusIs(s.t.jobs[c.job].status)));
    } else if s.t.jobs[c.job].dispatchAttempts != c.dispatch {
      assert reply == Success(Denied(DispatchMismatch(s.t.jobs[c.job].dispatchAttempts)));
    } else if HasPlace(s.t, c.workflow) {
      GrantStarts(s, c, id);
    }
  }

  /** Whatever is stored, the answer to a claim for a dispatch that happened is to ask again later
      exactly when the dispatch is still open; every other answer means that it is over. */
  lemma AnswerSettles(s: Db, c: Command, id: CommandId)
    requires Sound(s) && c.Claim? && OwnKey(c, id) && Delivered(s.t, c) && AnswersSettle(s, c.process)
    ensures var (s', reply) := Execute(s, c, id);
            && (reply == Failure(Unavailable) <==> !Spent(s'.t, c.job, c.dispatch))
            && (reply.Failure? ==> s' == s && reply.code in {AlreadyExists, Unavailable})
  {
    hide Spent, Delivered, Mutate;
    if LiveAt(s.rows, KeyOf(c, id), s.t.now) {
      assert s.rows[KeyOf(c, id)].Completed?;
    } else {
      DeliveredHappened(s.t, c);
      FreshAnswerSettles(s, c, id);
    }
  }

  lemma DeliveredHappened(t: Tables, c: Command)
    requires c.Claim? && Delivered(t, c)
    ensures Happened(t, c)
  {
  }

  /** Stored answers stay true as long as the process asks only for dispatches that happened. */
  lemma StepKeepsSettled(s: Db, op: Op, process: ProcessId)
    requires Sound(s) && AnswersSettle(s, process)
    requires op.Run? && op.c.Claim? && op.c.process == process ==> OwnKey(op.c, op.id) && Happened(s.t, op.c)
    ensures AnswersSettle(Step(s, op), process)
  {
    hide Sound, Moves, Step, Spent, Mutate, Happened;
    StepSound(s, op);
    SettledRows(s);
    var s' := Step(s, op);
    forall k | k in s'.rows && k.scope == WorkerScope(process) && k.operation.OpClaim? && s'.rows[k].Completed?
      ensures k.id.ClaimOf? && k.id.process == process && Spent(s'.t, k.id.job, k.id.dispatch)
    {
      RowsComeFrom(s, op, k);
      if k in s.rows && s'.rows[k] == s.rows[k] {
        SpentStays(s.t, s'.t, k.id.job, k.id.dispatch);
      } else {
        FreshAnswerSettles(s, op.c, op.id);
        StepExecutes(s, op.c, op.id);
      }
    }
  }

  lemma SettledRows(s: Db)
    requires Sound(s)
    ensures Settled(s.rows)
  {
  }

  lemma StepExecutes(s: Db, c: Command, id: CommandId)
    ensures Step(s, Run(c, id)) == Execute(s, c, id).0
    ensures !LiveAt(s.rows, KeyOf(c, id), s.t.now) && Mutate(s.t, c, id).Success? && 0 < Retention(s.t.cfg, c) ==>
              Execute(s, c, id).1.Success?
  {
    hide Mutate, Retention;
  }
}
