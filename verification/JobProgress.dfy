/**
 Workflow ordering: jobs of a workflow run one at a time, earliest first, and the ordering
 rule by itself never leaves a workflow stuck.
 */
module JobProgress {
  import opened Prelude
  import opened CommandLedger
  import opened JobTables
  import opened JobDatabase
  import opened JobInvariants

  ghost predicate ActiveOf(jobs: map<JobId, Job>, w: WorkflowId, j: JobId) {
    j in jobs && jobs[j].workflow == w && jobs[j].status.Active()
  }

  /** The unfinished job of the workflow that comes first. */
  ghost predicate First(jobs: map<JobId, Job>, w: WorkflowId, j: JobId) {
    ActiveOf(jobs, w, j) && forall k :: ActiveOf(jobs, w, k) && k != j ==> Before(j, jobs[j], k, jobs[k])
  }

  ghost predicate NoneRunning(jobs: map<JobId, Job>, w: WorkflowId) {
    forall k :: k in jobs && jobs[k].workflow == w ==> !jobs[k].status.Running?
  }

  lemma OneInFlightPerWorkflow(s: Db, j: JobId, k: JobId)
    requires Reachable(s) && j in s.t.jobs && k in s.t.jobs && s.t.jobs[j].workflow == s.t.jobs[k].workflow
    requires InFlight(s.t.jobs[j]) && InFlight(s.t.jobs[k])
    ensures j == k
  {
    ReachableSound(s);
    assert FlyTogether(s.t.jobs[j], s.t.jobs[k]);
  }

  /** A claim is granted only to the first unfinished job of its workflow. */
  lemma ClaimTakesTheFirst(t: Tables, c: Command)
    requires c.Claim? && ClaimJob(t, c).Success? && ClaimJob(t, c).value.1.Granted?
    ensures First(t.jobs, c.workflow, c.job) && NoneRunning(t.jobs, c.workflow)
  {
    forall k | ActiveOf(t.jobs, c.workflow, k) && k != c.job
      ensures Before(c.job, t.jobs[c.job], k, t.jobs[k])
    {
      assert !EarlierActive(t.jobs, k, c.job);
    }
    forall k | k in t.jobs && t.jobs[k].workflow == c.workflow
      ensures !t.jobs[k].status.Running?
    {
      assert k != c.job ==> Sibling(t.jobs, k, c.job);
    }
  }

  /** With none running, the first job is not blocked, and every other unfinished one is. */
  lemma OnlyTheFirstIsUnblocked(jobs: map<JobId, Job>, w: WorkflowId, j: JobId, k: JobId)
    requires NoneRunning(jobs, w) && First(jobs, w, j) && ActiveOf(jobs, w, k)
    ensures Blocked(jobs, k) <==> k != j
  {
    if k != j {
      assert EarlierActive(jobs, j, k);
    } else {
      forall i | i in jobs
        ensures !EarlierActive(jobs, i, j)
      {
        assert ActiveOf(jobs, w, i) && i != j ==> Before(j, jobs[j], i, jobs[i]);
      }
    }
  }

  lemma {:induction false} SomeJobIsFirst(jobs: map<JobId, Job>, w: WorkflowId, among: set<JobId>)
    returns (first: JobId)
    requires among != {} && forall k :: k in among ==> ActiveOf(jobs, w, k)
    ensures first in among && ActiveOf(jobs, w, first)
    ensures forall k :: k in among && k != first && ActiveOf(jobs, w, k) ==> Before(first, jobs[first], k, jobs[k])
    decreases among
  {
    var k :| k in among;
    var rest := among - {k};
    if rest == {} {
      assert among == {k};
      return k;
    }
    var best := SomeJobIsFirst(jobs, w, rest);
    first := if Before(best, jobs[best], k, jobs[k]) then best else k;
  }

  /** Every workflow with unfinished jobs has a first one. */
  lemma FirstExists(jobs: map<JobId, Job>, w: WorkflowId, k: JobId) returns (first: JobId)
    requires ActiveOf(jobs, w, k)
    ensures First(jobs, w, first)
  {
    var among := set j | j in jobs && ActiveOf(jobs, w, j);
    assert k in among;
    first := SomeJobIsFirst(jobs, w, among);
    forall i | ActiveOf(jobs, w, i) && i != first
      ensures Before(first, jobs[first], i, jobs[i])
    {
      assert i in among;
    }
  }

  // ---------------------------------------------------------------- a way forward

  /** The workflow can be run: it is built and live, its first job is its owner's, and when it
      needs a node, some node has a slot to spare. */
  ghost predicate Runnable(t: Tables, w: WorkflowId, first: JobId) {
    && w in t.workflows && t.workflows[w].built && !t.workflows[w].terminated
    && First(t.jobs, w, first) && t.jobs[first].user == t.workflows[w].user
    && (t.workflows[w].kind.Container? ==> 0 < t.cfg.heartbeatTtl && exists n :: Spare(t, n))
  }

  predicate Spare(t: Tables, n: NodeId) {
    n in t.nodes && t.nodes[n].runningJobs < t.nodes[n].maxConcurrency
  }

  /** A process identity that no command has used yet. */
  ghost predicate Unused(rows: Rows, p: ProcessId) {
    forall k :: k in rows ==> k.scope != WorkerScope(p)
  }

  lemma {:induction false} SomeProcessIsUnused(keys: set<LedgerKey>) returns (p: ProcessId)
    ensures forall k :: k in keys && k.scope.WorkerScope? ==> k.scope.process < p
    decreases keys
  {
    if keys == {} {
      return 0;
    }
    var k :| k in keys;
    p := SomeProcessIsUnused(keys - {k});
    if k.scope.WorkerScope? && p <= k.scope.process {
      p := k.scope.process + 1;
    }
  }

  /** At most `steps` operations lead from one database to the other. */
  ghost predicate Leads(s: Db, s': Db, steps: nat) {
    exists ops :: |ops| <= steps && After(s, ops) == s'
  }

  lemma LeadsNowhere(s: Db)
    ensures Leads(s, s, 0)
  {
    assert After(s, []) == s;
  }

  lemma LeadsLonger(s: Db, s': Db, steps: nat)
    requires Leads(s, s', steps)
    ensures Leads(s, s', steps + 1)
  {
    var ops :| |ops| <= steps && After(s, ops) == s';
  }

  lemma LeadsFurther(s: Db, s': Db, steps: nat, op: Op)
    requires Leads(s, s', steps)
    ensures Leads(s, Step(s', op), steps + 1)
  {
    var ops :| |ops| <= steps && After(s, ops) == s';
    assert (ops + [op])[..|ops|] == ops;
    assert After(s, ops + [op]) == Step(s', op);
  }

  function ClaimOp(t: Tables, j: JobId, p: ProcessId, id: nat): (op: Op)
    requires j in t.jobs
  {
    Run(Claim(j, t.jobs[j].workflow, 0, p, 0, t.jobs[j].dispatchAttempts), Given(id))
  }

  /** Claiming a queued job that is not the first puts it back behind the first. */
  lemma ClaimDefers(s: Db, first: JobId, q: JobId, p: ProcessId)
    requires Sound(s) && Unused(s.rows, p)
    requires q in s.t.jobs && s.t.jobs[q].status.Queued? && q != first
    requires First(s.t.jobs, s.t.jobs[q].workflow, first)
    ensures var s' := Step(s, ClaimOp(s.t, q, p, 0));
            && s'.t == s.t.(jobs := s.t.jobs[q := s.t.jobs[q].(status := Pending)])
            && KeyOf(ClaimOp(s.t, q, p, 1).c, Given(1)) !in s'.rows
  {
    assert EarlierActive(s.t.jobs, first, q);
    assert KeyOf(ClaimOp(s.t, q, p, 0).c, Given(0)) !in s.rows;
  }

  lemma ClaimStarts(s: Db, w: WorkflowId, first: JobId, p: ProcessId)
    requires Sound(s) && Runnable(s.t, w, first) && NoneRunning(s.t.jobs, w) && s.t.jobs[first].status.Queued?
    requires s.t.workflows[w].kind.Container? ==> exists n :: HasRoom(s.t, n)
    requires KeyOf(ClaimOp(s.t, first, p, 1).c, Given(1)) !in s.rows
    ensures var s' := Step(s, ClaimOp(s.t, first, p, 1));
            first in s'.t.jobs && s'.t.jobs[first].status.Running?
  {
    OnlyTheFirstIsUnblocked(s.t.jobs, w, first, first);
    assert CanClaim(s.t, ClaimOp(s.t, first, p, 1).c);
  }

  /** How long until the job is due. */
  function UntilDue(t: Tables, j: JobId): (wait: nat)
    requires j in t.jobs
  {
    var due := if t.jobs[j].nextAttemptAt.Some? && t.jobs[j].scheduledAt < t.jobs[j].nextAttemptAt.value
               then t.jobs[j].nextAttemptAt.value else t.jobs[j].scheduledAt;
    if t.now < due then due - t.now else 0
  }

  ghost predicate Ready(t: Tables, w: WorkflowId, first: JobId) {
    Runnable(t, w, first) && NoneRunning(t.jobs, w)
    && (t.workflows[w].kind.Container? ==> exists n :: HasRoom(t, n))
  }

  lemma HeartbeatMakesRoom(s: Db, n: NodeId)
    requires Sound(s)
    ensures var t' := Step(s, HeartbeatNode(n, 1)).t;
            && t' == s.t.(nodes := t'.nodes)
            && (Spare(s.t, n) ==> Spare(t', n) && (0 < s.t.cfg.heartbeatTtl ==> HasRoom(t', n)))
  {
  }

  /** Wait until the first job is due, then hear from a node with a spare slot. */
  lemma WaitingMakesReady(s: Db, w: WorkflowId, first: JobId, n: NodeId)
    requires Sound(s) && Runnable(s.t, w, first) && NoneRunning(s.t.jobs, w)
    requires s.t.workflows[w].kind.Container? ==> Spare(s.t, n)
    ensures var s' := Step(Step(s, Tick(UntilDue(s.t, first))), HeartbeatNode(n, 1));
            && Sound(s') && Ready(s'.t, w, first)
            && s'.t.jobs == s.t.jobs && s'.rows == s.rows && s'.t.workflows == s.t.workflows
            && (s.t.jobs[first].status.Pending? ==> Due(s'.t, first))
  {
    hide Sound, Moves, HeartbeatRow, Spare, HasRoom;
    var s1 := Step(s, Tick(UntilDue(s.t, first)));
    StepSound(s, Tick(UntilDue(s.t, first)));
    StepSound(s1, HeartbeatNode(n, 1));
    SpareLater(s.t, UntilDue(s.t, first), n);
    HeartbeatMakesRoom(s1, n);
  }

  lemma SpareLater(t: Tables, elapsed: nat, n: NodeId)
    ensures Spare(t, n) <==> Spare(t.(now := t.now + elapsed), n)
  {
  }

  lemma DispatchQueues(s: Db, w: WorkflowId, first: JobId)
    requires Sound(s) && Ready(s.t, w, first) && Due(s.t, first)
    requires forall k :: k in s.t.jobs && s.t.jobs[k].workflow == w ==> !InFlight(s.t.jobs[k])
    ensures var s' := Step(s, Dispatch(first));
            Ready(s'.t, w, first) && s'.rows == s.rows && s'.t.jobs[first].status.Queued?
  {
    hide InsertEvent, HasRoom, Spare;
    var row := s.t.jobs[first].(status := Queued, dispatchAttempts := s.t.jobs[first].dispatchAttempts + 1);
    assert forall k :: k in s.t.jobs ==> !EarlierActive(s.t.jobs, k, first);
    assert Dispatchable(s.t, first);
    DispatchIs(s, first);
    var t := s.t.(jobs := s.t.jobs[first := row]);
    assert forall k :: ActiveOf(t.jobs, w, k) <==> ActiveOf(s.t.jobs, w, k);
    SameRoom(s.t, Step(s, Dispatch(first)).t);
  }

  lemma DispatchIs(s: Db, j: JobId)
    requires Dispatchable(s.t, j)
    ensures var row := s.t.jobs[j].(status := Queued, dispatchAttempts := s.t.jobs[j].dispatchAttempts + 1);
            var s' := Step(s, Dispatch(j));
            && s' == s.(t := s'.t) && s'.t == s.t.(jobs := s.t.jobs[j := row], outbox := s'.t.outbox, inserted := s'.t.inserted)
  {
    hide Dispatchable;
  }

  lemma SameRoom(t: Tables, u: Tables)
    requires u.nodes == t.nodes && u.now == t.now && u.cfg == t.cfg
    ensures forall n :: (HasRoom(t, n) <==> HasRoom(u, n)) && (Spare(t, n) <==> Spare(u, n))
  {
  }

  lemma DeferKeepsFirst(s: Db, w: WorkflowId, first: JobId, q: JobId)
    requires Sound(s) && Runnable(s.t, w, first)
    requires q in s.t.jobs && q != first && s.t.jobs[q].status.Queued? && s.t.jobs[q].workflow == w
    ensures var t' := s.t.(jobs := s.t.jobs[q := s.t.jobs[q].(status := Pending)]);
            && Runnable(t', w, first)
            && (forall k :: k in t'.jobs && t'.jobs[k].workflow == w ==> !InFlight(t'.jobs[k]))
  {
    var t' := s.t.(jobs := s.t.jobs[q := s.t.jobs[q].(status := Pending)]);
    forall k | k in s.t.jobs && s.t.jobs[k].workflow == w && InFlight(s.t.jobs[k])
      ensures k == q
    {
      assert FlyTogether(s.t.jobs[k], s.t.jobs[q]);
    }
    assert forall k :: ActiveOf(t'.jobs, w, k) <==> ActiveOf(s.t.jobs, w, k);
    assert forall n :: Spare(s.t, n) <==> Spare(t', n);
  }

  /** Puts back whatever is queued ahead of its turn. */
  lemma DeferOthers(s: Db, w: WorkflowId, first: JobId, p: ProcessId) returns (s': Db)
    requires Sound(s) && Unused(s.rows, p) && Runnable(s.t, w, first) && NoneRunning(s.t.jobs, w)
    ensures Leads(s, s', 1) && Sound(s') && Runnable(s'.t, w, first)
    ensures s'.t.nodes == s.t.nodes && s'.t.workflows == s.t.workflows
    ensures NoneRunning(s'.t.jobs, w) && first in s'.t.jobs
    ensures forall k :: k in s'.t.jobs && s'.t.jobs[k].workflow == w && k != first ==> !InFlight(s'.t.jobs[k])
    ensures LedgerKey(WorkerScope(p), OpClaim, Given(1)) !in s'.rows
  {
    hide After, Leads, Sound, Moves, Step;
    LeadsNowhere(s);
    LeadsLonger(s, s, 0);
    if q :| q in s.t.jobs && s.t.jobs[q].workflow == w && s.t.jobs[q].status.Queued? && q != first {
      var op := ClaimOp(s.t, q, p, 0);
      LeadsFurther(s, s, 0, op);
      ClaimDefers(s, first, q, p);
      StepSound(s, op);
      s' := Step(s, op);
      DeferKeepsFirst(s, w, first, q);
    } else {
      s' := s;
    }
  }

  /** From every reachable database in which a runnable workflow has none running, at most five
      ordinary operations start its first job: ordering alone cannot deadlock. */
  lemma OrderingCannotDeadlock(s: Db, w: WorkflowId, first: JobId) returns (ops: seq<Op>)
    requires Reachable(s) && Runnable(s.t, w, first) && NoneRunning(s.t.jobs, w)
    ensures |ops| <= 5 && first in After(s, ops).t.jobs && After(s, ops).t.jobs[first].status.Running?
  {
    hide Step, Sound, After;
    ReachableSound(s);
    var p := SomeProcessIsUnused(s.rows.Keys);
    var s1 := DeferOthers(s, w, first, p);
    var n: NodeId := 0;
    if s.t.workflows[w].kind.Container? {
      n :| Spare(s1.t, n);
    }
    var tick, beat := Tick(UntilDue(s1.t, first)), HeartbeatNode(n, 1);
    WaitingMakesReady(s1, w, first, n);
    LeadsFurther(s, s1, 1, tick);
    LeadsFurther(s, Step(s1, tick), 2, beat);
    var s2 := Step(Step(s1, tick), beat);
    var s3 := s2;
    if s2.t.jobs[first].status.Pending? {
      DispatchQueues(s2, w, first);
      StepSound(s2, Dispatch(first));
      LeadsFurther(s, s2, 3, Dispatch(first));
      s3 := Step(s2, Dispatch(first));
    }
    ClaimStarts(s3, w, first, p);
    LeadsFurther(s, s3, 4, ClaimOp(s3.t, first, p, 1));
    ops :| |ops| <= 5 && After(s, ops) == Step(s3, ClaimOp(s3.t, first, p, 1));
  }

  /** The workflow is live, its unfinished jobs are its owner's, and a container workflow has a
      node with a spare slot. */
  ghost predicate CanRun(t: Tables, w: WorkflowId) {
    && w in t.workflows && t.workflows[w].built && !t.workflows[w].terminated
    && (forall j :: ActiveOf(t.jobs, w, j) ==> t.jobs[j].user == t.workflows[w].user)
    && (t.workflows[w].kind.Container? ==> 0 < t.cfg.heartbeatTtl && exists n :: Spare(t, n))
  }

  /** So any unfinished job is enough for such a workflow to make progress: it has a first one,
      and a few operations start it. */
  lemma UnfinishedWorkIsStarted(s: Db, w: WorkflowId, k: JobId) returns (first: JobId, ops: seq<Op>)
    requires Reachable(s) && CanRun(s.t, w) && ActiveOf(s.t.jobs, w, k) && NoneRunning(s.t.jobs, w)
    ensures First(s.t.jobs, w, first) && |ops| <= 5
    ensures first in After(s, ops).t.jobs && After(s, ops).t.jobs[first].status.Running?
  {
    hide After, Reachable;
    first := FirstExists(s.t.jobs, w, k);
    ops := OrderingCannotDeadlock(s, w, first);
  }
}
