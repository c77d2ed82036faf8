/**
 A run in which reconciliation gives up a handoff whose lease is active: a job that runs, and
 renews its lease, for as long as claims are stored, and whose completion is then lost.
 */
module ExecutorRetention {
  import opened Prelude
  import opened CommandLedger
  import opened JobTables
  import opened JobDatabase
  import opened JobInvariants
  import opened DispatchGrants
  import opened Handoffs
  import opened E = ExecutorSteps
  import opened ExecutorSafety
  import opened ExecutorTheorems

  // ---------------------------------------------------------------- a job to claim

  const HeartbeatWorkflow := Workflow(WorkflowKind.Heartbeat, 0, 0, true, false, true)

  const Setup: seq<JobDatabase.Op> :=
    [PutWorkflow(0, HeartbeatWorkflow), Run(Schedule(0, 0, 0, Manual, true, 0), Given(0)), Dispatch(0)]

  /** One queued job of a heartbeat workflow, dispatched once, and no worker has claimed anything. */
  predicate OneQueued(s: Db) {
    && s.t.jobs.Keys == {0} && s.t.jobs[0].workflow == 0 && s.t.jobs[0].status.Queued?
    && s.t.jobs[0].dispatchAttempts == 1
    && 0 in s.t.workflows && s.t.workflows[0] == HeartbeatWorkflow
    && forall k :: k in s.rows ==> k.scope == UserScope(0)
  }

  lemma AfterOps(s: Db, ops: seq<JobDatabase.Op>, op: JobDatabase.Op)
    ensures JobDatabase.After(s, ops + [op]) == JobDatabase.Step(JobDatabase.After(s, ops), op)
  {
    hide JobDatabase.Step;
    assert (ops + [op])[..|ops + [op]| - 1] == ops;
  }

  lemma SetupQueues(cfg: JobTables.Config)
    ensures OneQueued(JobDatabase.After(Initial(cfg, 0), Setup))
  {
    hide JobDatabase.Step, OneQueued;
    var a, b, c := Setup[0], Setup[1], Setup[2];
    var s := Initial(cfg, 0);
    AfterOps(s, [], a);
    AfterOps(s, [a], b);
    AfterOps(s, [a, b], c);
    assert [] + [a] == [a] && [a] + [b] == [a, b] && [a, b] + [c] == Setup;
    PutThenSchedule(cfg);
    ThenDispatch(cfg);
  }

  function Scheduled0(cfg: JobTables.Config): (s: Db) {
    var c := Schedule(0, 0, 0, Manual, true, 0);
    var t := Initial(cfg, 0).t.(workflows := map[0 := HeartbeatWorkflow]);
    Db(t.(jobs := map[0 := NewJob(t, c, Given(0))], nextJob := 1),
       map[KeyOf(c, Given(0)) := Row.Completed(RequestOf(c), [], Scheduled(0), CLIENT_RETENTION)])
  }

  lemma PutThenSchedule(cfg: JobTables.Config)
    ensures JobDatabase.Step(JobDatabase.Step(Initial(cfg, 0), Setup[0]), Setup[1]) == Scheduled0(cfg)
  {
    var s := Initial(cfg, 0);
    var put := s.(t := s.t.(workflows := map[0 := HeartbeatWorkflow]));
    assert JobDatabase.Step(s, Setup[0]) == put;
    var c := Schedule(0, 0, 0, Manual, true, 0);
    assert Schedulable(put.t, c);
    assert Mutate(put.t, c, Given(0)) == InsertJob(put.t, c, Given(0));
  }

  lemma ThenDispatch(cfg: JobTables.Config)
    ensures OneQueued(JobDatabase.Step(Scheduled0(cfg), Dispatch(0)))
  {
    assert Dispatchable(Scheduled0(cfg).t, 0);
  }

  // ---------------------------------------------------------------- claimed and handed off

  function TheClaim(w: World, duration: Time): (c: Command) {
    Claim(0, 0, w.worker, w.process, duration, 1)
  }

  function TheId(w: World): (id: CommandId) {
    ClaimOf(w.process, 0, 1)
  }

  /** The job's lease is the process's and lasts a whole duration from now. */
  predicate HoldsLease(w: World, duration: Time) {
    && TheId(w) in w.granted && 0 in w.db.t.jobs && w.db.t.jobs[0].status.Running?
    && w.db.t.jobs[0].dispatchAttempts == 1
    && w.db.t.jobs[0].lease
       == Some(Lease(w.granted[TheId(w)], w.worker, w.process, w.db.t.now + LeaseSeconds(duration) * SECOND))
  }

  /** The process executes the job; `age` is how long ago it was granted. */
  predicate Executing(w: World, duration: Time, age: Time) {
    var id := TheId(w);
    && HoldsLease(w, duration) && StoresGrant(w.db, w.process, id)
    && id in w.grantedAt && w.db.t.now == w.grantedAt[id] + age
    && HandedOff(w, id) && w.entries[id].serial == 0 && w.entries[id].state.Active?
    && w.entries[id].request == TheClaim(w, duration)
    && 0 in w.tasks && w.tasks[0].Running? && w.tasks[0].id == id && id in w.started
  }

  lemma ClaimIsGranted(s: Db, c: Command, id: CommandId)
    requires OneQueued(s) && c.Claim? && c == Claim(0, 0, c.worker, c.process, c.duration, 1)
    ensures !LiveAt(s.rows, KeyOf(c, id), s.t.now) && CanClaim(s.t, c)
    ensures var (s', reply) := Execute(s, c, id);
            && IsGrant(reply) && StoresGrant(s', c.process, id)
            && s'.t == ClaimJob(s.t, c).value.0 && reply == Success(ClaimJob(s.t, c).value.1)
  {
    hide SelectRuntime;
    assert KeyOf(c, id).scope == WorkerScope(c.process);
    assert forall k :: k in s.t.jobs ==> k == 0;
  }

  function Begun(w: World, duration: Time): (r: World) {
    var held := E.Step(w, AcquireSlot);
    var reserved := E.Step(held, TryReserve(0, 0, 0, duration, 1));
    E.Step(E.Step(reserved, Ask(0, true, true)), Settle(0))
  }

  lemma ClaimBegins(w: World, duration: Time)
    requires OneQueued(w.db) && w == Start(w.db, w.process, w.worker, 1, 1)
    ensures Executing(Begun(w, duration), duration, 0)
  {
    hide Execute, StoresGrant;
    var c, id := TheClaim(w, duration), TheId(w);
    ClaimIsGranted(w.db, c, id);
    var held := w.(slots := 1, tasks := map[0 := Holding], next := 1);
    assert E.Step(w, AcquireSlot) == held;
    var reserved := held.(entries := map[id := Entry(0, c, Claiming, None)], tasks := map[0 := Reserved(id)]);
    assert E.Step(held, TryReserve(0, 0, 0, duration, 1)) == reserved;
    ThenAsked(reserved, duration);
  }

  lemma ThenAsked(w: World, duration: Time)
    requires OneQueued(w.db) && w.granted == map[] && w.started == [] && w.grantedAt == map[]
    requires w.entries == map[TheId(w) := Entry(0, TheClaim(w, duration), Claiming, None)]
    requires w.tasks == map[0 := Reserved(TheId(w))]
    ensures Executing(E.Step(E.Step(w, Ask(0, true, true)), Settle(0)), duration, 0)
  {
    hide Execute, StoresGrant;
    var c, id := TheClaim(w, duration), TheId(w);
    ClaimIsGranted(w.db, c, id);
    var reply := Execute(w.db, c, id).1;
    var asked := CallClaim(w, id, c).(tasks := map[0 := Replied(id, reply)]);
    assert w.tasks[0 := Replied(id, reply)] == map[0 := Replied(id, reply)];
    assert E.Step(w, Ask(0, true, true)) == asked;
    GrantHoldsLease(w.db, c);
    assert asked.granted[id] == w.db.t.nextToken && asked.grantedAt[id] == w.db.t.now;
  }

  lemma GrantHoldsLease(s: Db, c: Command)
    requires OneQueued(s) && c.Claim? && c == Claim(0, 0, c.worker, c.process, c.duration, 1) && CanClaim(s.t, c)
    ensures var (t, response) := ClaimJob(s.t, c).value;
            && 0 in t.jobs && t.jobs[0].status.Running? && t.jobs[0].dispatchAttempts == 1 && t.now == s.t.now
            && t.jobs[0].lease == Some(Lease(s.t.nextToken, c.worker, c.process, s.t.now + LeaseSeconds(c.duration) * SECOND))
            && response.Granted? && response.grant.token == s.t.nextToken
  {
  }

  // ---------------------------------------------------------------- renewed for as long as needed

  /** One second passes and the lease is renewed. */
  function Renewing(w: World, duration: Time): (r: World)
    requires TheId(w) in w.granted
  {
    E.Step(E.Step(w, Elsewhere(Tick(SECOND))), Elsewhere(Renew(0, w.granted[TheId(w)], duration)))
  }

  lemma RenewingKeepsExecuting(w: World, duration: Time, age: Time)
    requires Executing(w, duration, age) && 2 <= LeaseSeconds(duration)
    ensures Executing(Renewing(w, duration), duration, age + SECOND)
  {
    hide Execute;
    var token := w.granted[TheId(w)];
    var ticked := w.(db := w.db.(t := w.db.t.(now := w.db.t.now + SECOND)));
    assert E.Step(w, Elsewhere(Tick(SECOND))) == ticked;
    var lease := Lease(token, w.worker, w.process, ticked.db.t.now + LeaseSeconds(duration) * SECOND);
    var renewed := ticked.(db := ticked.db.(t := ticked.db.t.(jobs := ticked.db.t.jobs[0 := Renewed(ticked.db.t.jobs[0], lease)])));
    assert E.Step(ticked, Elsewhere(Renew(0, token, duration))) == renewed;
  }

  /** Some steps lead from one world to the other. */
  ghost predicate LeadsTo(w: World, r: World) {
    exists ops :: E.After(w, ops) == r
  }

  lemma LeadsToItself(w: World)
    ensures LeadsTo(w, w)
  {
    assert E.After(w, []) == w;
  }

  lemma LeadsOneFurther(w: World, r: World, op: E.Op)
    requires LeadsTo(w, r)
    ensures LeadsTo(w, E.Step(r, op))
  {
    hide E.Step;
    var ops :| E.After(w, ops) == r;
    assert (ops + [op])[..|ops + [op]| - 1] == ops;
    assert E.After(w, ops + [op]) == E.Step(r, op);
  }

  lemma {:induction false} ExecutesFor(w: World, duration: Time, start: World, seconds: nat) returns (r: World)
    requires Executing(start, duration, 0) && 2 <= LeaseSeconds(duration) && LeadsTo(w, start)
    ensures LeadsTo(w, r) && Executing(r, duration, seconds * SECOND)
    decreases seconds
  {
    hide E.Step, Executing, LeadsTo, LeaseSeconds;
    if seconds == 0 {
      return start;
    }
    var before := ExecutesFor(w, duration, start, seconds - 1);
    KnowsToken(before, duration, (seconds - 1) * SECOND);
    RenewingKeepsExecuting(before, duration, (seconds - 1) * SECOND);
    LeadsOneFurther(w, before, Elsewhere(Tick(SECOND)));
    LeadsOneFurther(w, E.Step(before, Elsewhere(Tick(SECOND))), Elsewhere(Renew(0, before.granted[TheId(before)], duration)));
    r := Renewing(before, duration);
  }

  lemma KnowsToken(w: World, duration: Time, age: Time)
    requires Executing(w, duration, age)
    ensures TheId(w) in w.granted
  {
  }

  // ---------------------------------------------------------------- given up

  /** The completion is lost, the goroutine ends, and reconciliation asks and evicts. */
  function GivenUpOn(w: World): (r: World) {
    var id, token := TheId(w), if TheId(w) in w.granted then w.granted[TheId(w)] else 0;
    var marked := E.Step(E.Step(w, Report(Complete(0, token), Given(1), false, false)), Mark(0));
    E.Step(E.Step(marked, Probe(id, true, true)), Evict(id, 0))
  }

  lemma ThenGivenUp(w: World, duration: Time)
    requires WorldSound(w) && GrantsDated(w) && Executing(w, duration, CLIENT_RETENTION)
    ensures var r, id := GivenUpOn(w), TheId(w);
            id in r.started && id in r.granted && !Dead(r, id, r.granted[id]) && !HandedOff(r, id)
  {
    hide Execute, WorldSound, GrantsDated, Sound;
    var id, token := TheId(w), w.granted[TheId(w)];
    assert E.Step(w, Report(Complete(0, token), Given(1), false, false)) == w;
    var marked := w.(entries := w.entries[id := w.entries[id].(state := Awaiting)], tasks := w.tasks[0 := Leaving]);
    assert E.Step(w, Mark(0)) == marked;
    WorldStepSound(w, Mark(0));
    StepDated(w, Mark(0));
    ExpiredProbe(marked, duration);
    var called := CallClaim(marked, id, TheClaim(marked, duration));
    var probed := called.(verdicts := marked.verdicts + {(id, 0)});
    assert E.Step(marked, Probe(id, true, true)) == probed;
    assert E.Step(probed, Evict(id, 0)).entries == marked.entries - {id};
  }

  /** A claim call for an expired grant of a running job is denied and leaves the job alone. */
  lemma ExpiredProbe(w: World, duration: Time)
    requires WorldSound(w) && GrantsDated(w) && HoldsLease(w, duration) && StoresGrant(w.db, w.process, TheId(w))
    requires TheId(w) in w.grantedAt && w.grantedAt[TheId(w)] + CLIENT_RETENTION <= w.db.t.now
    ensures var (s', reply) := Execute(w.db, TheClaim(w, duration), TheId(w));
            Dismisses(reply) && s'.t == w.db.t
  {
    hide Sound, Execute, WorldSound;
    assert Dated(w, TheId(w));
    RunningIsDenied(w.db, TheClaim(w, duration), TheId(w));
    DenialChangesNoTable(w.db, TheClaim(w, duration), TheId(w));
  }

  /** For every lease duration of at least two seconds there is a run of a process on a reachable
      database after which a command it started still holds its lease but is not registered. */
  lemma AnActiveLeaseIsGivenUp(cfg: JobTables.Config, process: ProcessId, worker: WorkerId, duration: Time)
    returns (w: World, ops: seq<E.Op>, id: CommandId)
    requires 2 <= LeaseSeconds(duration)
    ensures Begins(w) && w.process == process && w.worker == worker && Reachable(w.db)
    ensures var r := E.After(w, ops);
            id in r.started && id in r.granted && !Dead(r, id, r.granted[id]) && !HandedOff(r, id)
  {
    hide E.Step, Executing, Sound, LeaseSeconds, WorldSound, GrantsDated;
    var s := JobDatabase.After(Initial(cfg, 0), Setup);
    SetupQueues(cfg);
    ReachableRowsTrue(cfg, 0, Setup);
    w := Start(s, process, worker, 1, 1);
    StartSound(s, process, worker, 1, 1);
    var start := Begun(w, duration);
    ClaimBegins(w, duration);
    BegunIsLedTo(w, duration);
    var busy := ExecutesFor(w, duration, start, 24 * 60 * 60);
    assert 24 * 60 * 60 * SECOND == CLIENT_RETENTION;
    var before :| E.After(w, before) == busy;
    WorldRunSound(w, before);
    StartDated(w);
    RunDated(w, before);
    ThenGivenUp(busy, duration);
    GivenUpIsLedTo(w, busy);
    ops :| E.After(w, ops) == GivenUpOn(busy);
    id := TheId(busy);
  }

  lemma BegunIsLedTo(w: World, duration: Time)
    ensures LeadsTo(w, Begun(w, duration))
  {
    hide E.Step, LeadsTo;
    LeadsToItself(w);
    var held := E.Step(w, AcquireSlot);
    LeadsOneFurther(w, w, AcquireSlot);
    LeadsOneFurther(w, held, TryReserve(0, 0, 0, duration, 1));
    var reserved := E.Step(held, TryReserve(0, 0, 0, duration, 1));
    LeadsOneFurther(w, reserved, Ask(0, true, true));
    LeadsOneFurther(w, E.Step(reserved, Ask(0, true, true)), Settle(0));
  }

  lemma GivenUpIsLedTo(w: World, r: World)
    requires LeadsTo(w, r)
    ensures LeadsTo(w, GivenUpOn(r))
  {
    hide E.Step, LeadsTo;
    var id, token := TheId(r), if TheId(r) in r.granted then r.granted[TheId(r)] else 0;
    var report := Report(Complete(0, token), Given(1), false, false);
    LeadsOneFurther(w, r, report);
    LeadsOneFurther(w, E.Step(r, report), Mark(0));
    var marked := E.Step(E.Step(r, report), Mark(0));
    LeadsOneFurther(w, marked, Probe(id, true, true));
    LeadsOneFurther(w, E.Step(marked, Probe(id, true, true)), Evict(id, 0));
  }
}
