/**
 What the job protocol guarantees in every reachable database and over every run.
 */
module JobTheorems {
  import opened Prelude
  import opened CommandLedger
  import opened JobTables
  import opened JobDatabase
  import opened JobInvariants

  // ---------------------------------------------------------------- runtime slots

  /** Each node's counter is exact, so heartbeat reconciliation never corrects it. */
  lemma SlotsConserved(s: Db, n: NodeId)
    requires Reachable(s) && n in s.t.nodes
    ensures s.t.nodes[n].runningJobs == |RunningOn(s.t.jobs, n)|
    ensures Reconciled(s.t.jobs, n, s.t.nodes[n]) == s.t.nodes[n]
  {
    ReachableSound(s);
  }

  /** A running job's node is known and counts it, so freeing the slot is never clamped at zero. */
  lemma SlotClampNeverFires(s: Db, j: JobId)
    requires Reachable(s) && j in s.t.jobs && s.t.jobs[j].status.Running? && s.t.jobs[j].node.Some?
    ensures var n := s.t.jobs[j].node.value;
            n in s.t.nodes && 1 <= s.t.nodes[n].runningJobs
            && FreeSlot(s.t.nodes, Some(n))[n].runningJobs == s.t.nodes[n].runningJobs - 1
  {
    ReachableSound(s);
    assert j in RunningOn(s.t.jobs, s.t.jobs[j].node.value);
  }

  /** No claim takes a node above the limit in force, and every container job gets a node. */
  lemma ClaimRespectsCapacity(s: Db, c: Command)
    requires Reachable(s) && c.Claim? && CanClaim(s.t, c)
    ensures var t, node := ClaimJob(s.t, c).value.0, ClaimJob(s.t, c).value.1.grant.node;
            && (node.Some? <==> s.t.workflows[c.workflow].kind.Container?)
            && (node.Some? ==> HasRoom(s.t, node.value))
            && (node.Some? ==> |RunningOn(t.jobs, node.value)| == |RunningOn(s.t.jobs, node.value)| + 1)
            && (node.Some? ==> |RunningOn(t.jobs, node.value)| <= t.nodes[node.value].maxConcurrency)
  {
    ReachableSound(s);
    var node := ClaimJob(s.t, c).value.1.grant.node;
    if node.Some? {
      RewriteCount(s.t.jobs, c.job, ClaimedRow(s.t, c), node.value);
    }
  }

  // ---------------------------------------------------------------- rows over runs

  ghost predicate Kept(a: Job, b: Job) {
    SameIdentity(a, b) && a.attempts <= b.attempts && a.dispatchAttempts <= b.dispatchAttempts
    && (a.status.Terminal() ==> b == a)
  }

  lemma MovesKeep(t: Tables, t': Tables, j: JobId)
    requires Moves(t, t') && RowsSound(t) && j in t.jobs
    ensures j in t'.jobs && Kept(t.jobs[j], t'.jobs[j])
  {
  }

  /** No job is ever forgotten; its identity is fixed, its counters only grow, and a terminal
      job never changes again. */
  lemma {:induction false} TerminalIsAbsorbing(s: Db, ops: seq<Op>, j: JobId)
    requires Sound(s) && j in s.t.jobs
    ensures j in After(s, ops).t.jobs && Kept(s.t.jobs[j], After(s, ops).t.jobs[j])
    decreases |ops|
  {
    if ops != [] {
      var last := After(s, ops[..|ops| - 1]);
      TerminalIsAbsorbing(s, ops[..|ops| - 1], j);
      RunSound(s, ops[..|ops| - 1]);
      StepSound(last, ops[|ops| - 1]);
      MovesKeep(last.t, After(s, ops).t, j);
    }
  }

  lemma RunningIffLeased(s: Db, j: JobId)
    requires Reachable(s) && j in s.t.jobs
    ensures s.t.jobs[j].status.Running? <==> s.t.jobs[j].lease.Some?
  {
    ReachableSound(s);
  }

  /** Whatever was purged since, a job's analytics event has been inserted exactly when the job
      completed or failed, the outcome event matches, and no event was ever inserted twice. */
  lemma EffectsArePaired(s: Db, j: JobId)
    requires Reachable(s) && j in s.t.jobs
    ensures JobAnalytics(j) in s.t.inserted <==> s.t.jobs[j].status.Completed? || s.t.jobs[j].status.Failed?
    ensures JobCompleted(j) in s.t.inserted <==> s.t.jobs[j].status.Completed?
    ensures JobFailed(j) in s.t.inserted <==> s.t.jobs[j].status.Failed?
    ensures forall d: nat :: Dispatched(j, d) in s.t.inserted <==> 1 <= d <= s.t.jobs[j].dispatchAttempts
    ensures forall i, k :: 0 <= i < k < |s.t.inserted| ==> s.t.inserted[i] != s.t.inserted[k]
  {
    ReachableSound(s);
    assert Caused(s.t.jobs, JobAnalytics(j)) <==> JobAnalytics(j) in s.t.inserted;
    assert Caused(s.t.jobs, JobCompleted(j)) <==> JobCompleted(j) in s.t.inserted;
    assert Caused(s.t.jobs, JobFailed(j)) <==> JobFailed(j) in s.t.inserted;
    assert forall d: nat :: Caused(s.t.jobs, Dispatched(j, d)) <==> Dispatched(j, d) in s.t.inserted;
  }

  // ---------------------------------------------------------------- lease tokens

  /** The commands a lease token protects. */
  predicate Tokened(c: Command) {
    c.Attach? || c.Complete? || c.Fail? || c.CancelClaimed? || c.Release?
  }

  /** With a token the job is not running under, nothing in the database changes. */
  lemma StaleTokenChangesNothing(s: Db, c: Command, id: CommandId, duration: Time)
    requires Tokened(c) && !Holds(s.t.jobs, c.job, c.token)
    ensures Execute(s, c, id).0 == s
    ensures Step(s, Renew(c.job, c.token, duration)) == s
    ensures Execute(s, c, id).1.Success? ==> LiveAt(s.rows, KeyOf(c, id), s.t.now)
  {
  }

  lemma MovesNeverRevive(
    t: Tables, t': Tables, j: JobId, token: Token, worker: WorkerId, process: ProcessId, dispatch: nat)
    requires Moves(t, t') && token < t.nextToken && !LeaseActive(t, j, token, worker, process, dispatch)
    ensures !LeaseActive(t', j, token, worker, process, dispatch)
  {
    assert j in t.jobs ==> Move(t, t.jobs[j], t'.jobs[j]);
  }

  /** Once a drawn lease is inactive, no run makes it active again. */
  lemma {:induction false} LeaseNeverRevives(
    s: Db, ops: seq<Op>, j: JobId, token: Token, worker: WorkerId, process: ProcessId, dispatch: nat)
    requires Sound(s) && token < s.t.nextToken && !LeaseActive(s.t, j, token, worker, process, dispatch)
    ensures !LeaseActive(After(s, ops).t, j, token, worker, process, dispatch)
    ensures s.t.nextToken <= After(s, ops).t.nextToken
    decreases |ops|
  {
    if ops != [] {
      var before := ops[..|ops| - 1];
      LeaseNeverRevives(s, before, j, token, worker, process, dispatch);
      RunSound(s, before);
      StepSound(After(s, before), ops[|ops| - 1]);
      MovesNeverRevive(After(s, before).t, After(s, ops).t, j, token, worker, process, dispatch);
    }
  }

  /** A lease that has not expired is left exactly as it is by every recovery, and the leases a
      bounded recovery takes expired no later than any it leaves. */
  lemma RecoveryTakesOldestExpired(t: Tables, c: Command, j: JobId)
    requires c.Recover? && j in t.jobs
    ensures var t' := RecoverLeases(t, c).value.0;
            && (t'.jobs[j] == t.jobs[j] || (Recoverable(t, j) && t'.jobs[j].lease.Some?
                                            && t'.jobs[j].lease.value.token == t.nextToken))
            && forall k :: k in ToRecover(t, c.batch) && Recoverable(t, j) && j !in ToRecover(t, c.batch) ==>
                 ExpiresFirst(t.jobs, k, j)
  {
    hide Recoverable, Records;
    var candidates := set k | k in t.jobs && Recoverable(t, k);
    RecoverableIsLeased(t);
    assert ToRecover(t, c.batch) == TakeExpired(t.jobs, candidates, if c.batch <= 0 then 100 else c.batch);
  }

  lemma RecoverableIsLeased(t: Tables)
    ensures forall k :: Recoverable(t, k) ==> k in t.jobs && t.jobs[k].lease.Some?
  {
  }

  // ---------------------------------------------------------------- automatic occurrences

  /** A workflow has at most one automatic job for a key, and at most one for an instant. */
  lemma OccurrenceIsOneJob(s: Db, j: JobId, k: JobId)
    requires Reachable(s) && j in s.t.jobs && k in s.t.jobs && SameOccurrence(s.t.jobs[j], s.t.jobs[k])
    ensures j == k
  {
    ReachableSound(s);
  }

  /** Scheduling the same automatic occurrence again finds its one job and changes nothing, at any
      later time and whatever has become of the job or of the command's ledger row. */
  lemma ReschedulingFindsTheJob(s: Db, ops: seq<Op>, c: Command, id: CommandId, j: JobId)
    requires Sound(s) && c.Schedule? && c.trigger.Automatic? && j in KeyHolders(s.t, c.workflow, IdOf(c, id))
    requires s.t.jobs[j].user == c.user && s.t.jobs[j].generation == Some(c.generation)
    ensures var later := After(s, ops);
            Mutate(later.t, c, id) == Success((later.t, Scheduled(j)))
  {
    hide Moves, SlotsExact, EventsExact, Step, After;
    TerminalIsAbsorbing(s, ops, j);
    RunSound(s, ops);
    var t := After(s, ops).t;
    var key := IdOf(c, id);
    assert j in KeyHolders(t, c.workflow, key);
    forall k | k in KeyHolders(t, c.workflow, key) ensures k == j {
      assert SameOccurrence(t.jobs[k], t.jobs[j]);
    }
    assert KeyHolders(t, c.workflow, key) == {j};
  }
}
