/**
 The executor's processRecord and its recovery loop as code over the registry, the slots and
 the jobs repository (internal/repository/executor/executor.go,
 internal/repository/executor/recovery.go), each run without interruption.

 Waiting is modelled by its end: a caller that waits for a slot, or for another owner's entry,
 ends when it is cancelled, unless what it waits for is there already.
 */
module ExecutorWorker {
  import opened Prelude
  import opened CommandLedger
  import opened JobTables
  import opened JobDatabase
  import opened JobsRepository
  import H = Handoffs
  import opened HandoffRegistry
  import E = ExecutorSteps

  /** A dispatch as read from its record. */
  datatype Scheduled = Scheduled(job: JobId, workflow: WorkflowId, dispatch: int)

  /** What happens to one call: what authorising it answered, and whether it was applied and its
      reply seen. */
  datatype CallFate = CallFate(auth: Code, applied: bool, seen: bool)

  predicate Answered(fate: CallFate) {
    fate.auth.OK? && fate.applied && fate.seen
  }

  datatype Settings = Settings(
    worker: WorkerId, process: ProcessId, concurrency: nat, leaseDuration: Time, recoveryBatchSize: int)

  const MAX_INT32: int := 0x7fff_ffff

  function BoundedInt32(value: int): (r: int)
    ensures 0 <= r <= MAX_INT32 && (0 <= value <= MAX_INT32 ==> r == value)
  {
    if value <= 0 then 0 else if MAX_INT32 < value then MAX_INT32 else value
  }

  function RecoveryBatchSize(cfg: Settings): (r: int)
    ensures 1 <= r && (1 <= cfg.recoveryBatchSize ==> r == cfg.recoveryBatchSize)
  {
    if cfg.recoveryBatchSize <= 0 then 1 else cfg.recoveryBatchSize
  }

  /** At most one wave's worth of recoveries runs at a time, and always at least one. */
  function RecoveryClaimLimit(cfg: Settings): (r: int)
    ensures 1 <= r <= RecoveryBatchSize(cfg)
    ensures 0 < cfg.concurrency ==> r <= cfg.concurrency
    ensures cfg.concurrency == 0 || RecoveryBatchSize(cfg) <= cfg.concurrency ==> r == RecoveryBatchSize(cfg)
    ensures 0 < cfg.concurrency < RecoveryBatchSize(cfg) && cfg.concurrency <= MAX_INT32 ==> r == cfg.concurrency
  {
    var limit := RecoveryBatchSize(cfg);
    if 0 < cfg.concurrency && cfg.concurrency < limit then BoundedInt32(cfg.concurrency) else limit
  }

  class Worker {
    const cfg: Settings
    const repo: Repository
    const registry: Registry
    var slots: nat
    ghost var executing: nat    // goroutines started and not ended

    constructor (cfg: Settings, repo: Repository, registry: Registry)
      ensures this.cfg == cfg && this.repo == repo && this.registry == registry && slots == 0 && executing == 0
    {
      this.cfg, this.repo, this.registry := cfg, repo, registry;
      slots, executing := 0, 0;
    }

    /** The slots in use are those of running goroutines, and the registry is in order. */
    ghost predicate Valid()
      reads this, registry, registry.made
    {
      slots == executing <= cfg.concurrency && registry.Valid()
    }

    method AcquireExecutionSlot() returns (acquired: bool)
      modifies this`slots
      ensures acquired <==> old(slots) < cfg.concurrency
      ensures slots == old(slots) + if acquired then 1 else 0
    {
      if slots < cfg.concurrency {
        slots := slots + 1;
        return true;
      }
      return false;
    }

    method ReleaseExecutionSlot()
      modifies this`slots
      ensures slots == if 0 < old(slots) then old(slots) - 1 else 0
    {
      if 0 < slots {
        slots := slots - 1;
      }
    }

    function ClaimRequest(record: Scheduled): (c: Command)
      requires 0 <= record.dispatch
    {
      Claim(record.job, record.workflow, cfg.worker, cfg.process, cfg.leaseDuration, record.dispatch)
    }

    /** One claim call: it may be applied with its reply lost, or not applied at all. */
    method CallClaim(c: Command, id: CommandId, fate: CallFate) returns (reply: Result<Response>)
      requires c.Claim?
      modifies repo, repo.ledger
      ensures var (db, applied) := Execute(old(repo.Snapshot()), c, id);
              && repo.Snapshot() == (if fate.applied then db else old(repo.Snapshot()))
              && reply == if fate.applied && fate.seen then applied else Failure(Unavailable)
    {
      if !fate.applied {
        return Failure(Unavailable);
      }
      reply := repo.ClaimJob(c.job, c.workflow, c.worker, c.process, c.duration, c.dispatch, id);
      if !fate.seen {
        return Failure(Unavailable);
      }
    }

    /** Claims the dispatch and registers it: either the job is handed off, as an active entry
        with its claim, or the registry is as it was before. */
    method ClaimRegistered(entry: HandoffEntry, c: Command, fate: CallFate)
      returns (code: Code, claim: Option<Grant>)
      requires registry.Valid() && registry.Made(entry) && registry.Registered(entry) && entry.state.Claiming?
      requires c.Claim?
      modifies repo, repo.ledger, registry`entries, entry
      ensures registry.Valid() && (old(registry.NoneHangs()) ==> registry.NoneHangs())
      ensures var (db, applied) := Execute(old(repo.Snapshot()), c, entry.id);
              var reply := if fate.applied && fate.seen then applied else Failure(Unavailable);
              && repo.Snapshot() == (if fate.applied then db else old(repo.Snapshot()))
              && claim == (if reply.Success? && reply.value.Granted? then Some(reply.value.grant) else None)
              && code == (if reply.Failure? then reply.code else OK)
      ensures if claim.Some? then registry.View() == H.Activate(old(registry.View()), entry.id, entry.serial, claim.value)
              else registry.View() == H.ResolveRemoved(old(registry.View()), entry.id, entry.serial)
      ensures entry.closes == 1 && entry.result == code
    {
      hide Execute, Registry.NoneHangs, Registry.View, Repository.Snapshot, H.Activate, H.ResolveRemoved;
      var reply := CallClaim(c, entry.id, fate);
      if reply.Failure? {
        registry.ResolveRemoved(entry, reply.code);
        return reply.code, None;
      }
      if !reply.value.Granted? {
        registry.ResolveRemoved(entry, OK);
        return OK, None;
      }
      var active := registry.Activate(entry, reply.value.grant);
      assert active;
      return OK, Some(reply.value.grant);
    }

    /** The caller's own placeholder, or the answer in its place: the registry is full, or the
        command has another owner, whose result is awaited. */
    method Register(id: CommandId, c: Command) returns (entry: HandoffEntry?, code: Code)
      requires registry.Valid()
      modifies registry
      ensures registry.Valid() && (old(registry.NoneHangs()) ==> registry.NoneHangs())
      ensures entry != null <==> H.CanReserve(old(registry.View()), registry.limit, id)
      ensures entry == null ==> registry.View() == old(registry.View())
      ensures entry == null ==>
                code == if id !in old(registry.View()) then ResourceExhausted
                        else if old(registry.View())[id].state.Claiming? then Code.Canceled else OK
      ensures entry != null ==>
                && registry.View() == H.Reserve(old(registry.View()), id, old(registry.nextSerial), c)
                && fresh(entry) && entry.id == id && entry.serial == old(registry.nextSerial)
                && registry.Made(entry) && registry.Registered(entry) && entry.state.Claiming?
      ensures registry.made == if entry != null then old(registry.made) + [entry] else old(registry.made)
    {
      hide Registry.NoneHangs, Registry.View, H.Reserve;
      var owner;
      entry, owner, code := registry.GetOrReserve(id, c);
      if !code.OK? {
        return null, code;
      }
      if !owner {
        code := if entry.closes == 0 then Code.Canceled else entry.result;
        return null, code;
      }
    }

    /** With a slot held: the slot is released on every path but the one that hands the job off,
        whose goroutine then owns it. */
    method ProcessDispatch(c: Command, id: CommandId, fate: CallFate) returns (code: Code, handoff: Option<Grant>)
      requires registry.Valid() && c.Claim? && 0 < slots
      modifies this`slots, repo, repo.ledger, registry, registry.made
      ensures registry.Valid() && (old(registry.NoneHangs()) ==> registry.NoneHangs())
      ensures Flow(repo.Snapshot(), registry.View(), handoff, code)
           == HandOff(old(repo.Snapshot()), old(registry.View()), registry.limit, old(registry.nextSerial), id, c, fate)
      ensures slots == old(slots) - if handoff.Some? then 0 else 1
    {
      hide Execute, HandOff, Registry.NoneHangs, Registry.Valid, Registry.View, Repository.Snapshot, H.Activate,
        H.Reserve, H.ResolveRemoved;
      ghost var db, entries, serial := repo.Snapshot(), registry.View(), registry.nextSerial;
      NotClaimed(db, entries, registry.limit, serial, id, c, fate);
      if fate.auth != OK {
        ReleaseExecutionSlot();
        return fate.auth, None;
      }
      var entry;
      entry, code := Register(id, c);
      if entry == null {
        ReleaseExecutionSlot();
        return code, None;
      }
      Claimed(db, entries, registry.limit, serial, id, c, fate);
      code, handoff := ClaimRegistered(entry, c, fate);
      if handoff.None? {
        ReleaseExecutionSlot();
      }
    }

    /** One record: a malformed one, or one that gets no slot, changes nothing. */
    method ProcessRecord(record: Result<Scheduled>, fate: CallFate) returns (code: Code, handoff: Option<Grant>)
      requires Valid()
      modifies this, repo, repo.ledger, registry, registry.made
      ensures Valid() && executing == old(executing) + if handoff.Some? then 1 else 0
      ensures old(registry.NoneHangs()) ==> registry.NoneHangs()
      ensures Flow(repo.Snapshot(), registry.View(), handoff, code)
           == if record.Failure? || record.value.dispatch <= 0
              then Flow(old(repo.Snapshot()), old(registry.View()), None, InvalidArgument)
              else if cfg.concurrency <= old(slots)
              then Flow(old(repo.Snapshot()), old(registry.View()), None, Code.Canceled)
              else HandOff(old(repo.Snapshot()), old(registry.View()), registry.limit, old(registry.nextSerial),
                              ClaimOf(cfg.process, record.value.job, record.value.dispatch), ClaimRequest(record.value),
                              fate)
    {
      hide HandOff, Registry.NoneHangs, Registry.View, Repository.Snapshot;
      if record.Failure? || record.value.dispatch <= 0 {
        return InvalidArgument, None;
      }
      var acquired := AcquireExecutionSlot();
      if !acquired {
        return Code.Canceled, None;
      }
      var dispatch: nat := record.value.dispatch;
      code, handoff := ProcessDispatch(ClaimRequest(record.value), ClaimOf(cfg.process, record.value.job, dispatch), fate);
      if handoff.Some? {
        executing := executing + 1;
      }
    }

    /** Recovers expired leases wave by wave until the batch is used up, a wave comes back short,
        or a call fails. A call that fails may have been applied all the same: its leases are
        taken, but not known here. No lease is recovered twice, and if the batch is not used up and
        every call was answered, no recoverable lease is left. What was recovered is held under the token
        told, and when every call was answered it is all that was taken. */
    method RecoverExpiredLeaseBatch(nextId: nat, fate: nat -> CallFate)
      returns (recovered: seq<ExpiredLease>, complete: bool)
      requires UnusedFrom(repo.Snapshot(), cfg.process, nextId)
      modifies repo, repo.ledger
      ensures |recovered| <= RecoveryBatchSize(cfg)
      ensures forall i, k :: 0 <= i < k < |recovered| ==> recovered[i].job != recovered[k].job
      ensures forall i :: 0 <= i < |recovered| ==> !Recoverable(repo.Snapshot().t, recovered[i].job)
      ensures forall j :: Recoverable(repo.Snapshot().t, j) ==> Recoverable(old(repo.Snapshot()).t, j)
      ensures complete && |recovered| < RecoveryBatchSize(cfg) ==> forall j :: !Recoverable(repo.Snapshot().t, j)
      ensures complete <== forall n :: Answered(fate(n))
      ensures forall i :: 0 <= i < |recovered| ==> Holds(repo.Snapshot().t.jobs, recovered[i].job, recovered[i].token)
      ensures complete ==> forall j :: Recoverable(old(repo.Snapshot()).t, j) && !Recoverable(repo.Snapshot().t, j) ==>
                             Has(recovered, j)
    {
      hide Execute, Recoverable, Holds, Has, Repository.Snapshot;
      var remaining, claimLimit, id := RecoveryBatchSize(cfg), RecoveryClaimLimit(cfg), nextId;
      recovered := [];
      while 0 < remaining
        invariant 0 <= remaining && |recovered| + remaining == RecoveryBatchSize(cfg)
        invariant UnusedFrom(repo.Snapshot(), cfg.process, id)
        invariant forall i, k :: 0 <= i < k < |recovered| ==> recovered[i].job != recovered[k].job
        invariant forall i :: 0 <= i < |recovered| ==> !Recoverable(repo.Snapshot().t, recovered[i].job)
        invariant forall j :: Recoverable(repo.Snapshot().t, j) ==> Recoverable(old(repo.Snapshot()).t, j)
        invariant forall i :: 0 <= i < |recovered| ==> Holds(repo.Snapshot().t.jobs, recovered[i].job, recovered[i].token)
        invariant forall j :: Recoverable(old(repo.Snapshot()).t, j) && !Recoverable(repo.Snapshot().t, j) ==>
                    Has(recovered, j)
        decreases remaining
      {
        var waveSize := if remaining < claimLimit then remaining else claimLimit;
        ghost var before := repo.Snapshot();
        WaveRecovers(before, Recover(waveSize, cfg.worker, cfg.process, cfg.leaseDuration), cfg.process, id);
        WaveTells(before, Recover(waveSize, cfg.worker, cfg.process, cfg.leaseDuration), cfg.process, id);
        var reply := CallRecover(waveSize, Given(id), fate(id));
        if reply.Failure? {
          return recovered, false;
        }
        var jobs := reply.value.leases;
        HasBoth(recovered, jobs);
        recovered := recovered + jobs;
        id := id + 1;
        if |jobs| == 0 || remaining <= |jobs| || |jobs| < waveSize {
          return recovered, true;
        }
        remaining := remaining - |jobs|;
      }
      complete := true;
    }

    /** One recovery call, with the fate of a claim call. */
    method CallRecover(waveSize: int, id: CommandId, fate: CallFate) returns (reply: Result<Response>)
      modifies repo, repo.ledger
      ensures var (db, applied) := Execute(old(repo.Snapshot()),
                                           Recover(waveSize, cfg.worker, cfg.process, cfg.leaseDuration), id);
              && repo.Snapshot() == (if fate.auth.OK? && fate.applied then db else old(repo.Snapshot()))
              && reply == if Answered(fate) then applied else Failure(if fate.auth.OK? then Unavailable else fate.auth)
    {
      if fate.auth != OK {
        return Failure(fate.auth);
      }
      if !fate.applied {
        return Failure(Unavailable);
      }
      reply := repo.RecoverExpiredJobLeases(waveSize, cfg.worker, cfg.process, cfg.leaseDuration, id);
      if !fate.seen {
        return Failure(Unavailable);
      }
    }

    /** One turn of the reconciliation loop: the entry's claim is asked again, and only the answer that
        the job is not found or the claim denied removes this very entry, if it still awaits. */
    method ReconcileHandoff(entry: HandoffEntry, fate: CallFate)
      requires registry.Valid() && registry.Made(entry) && entry.request.Claim?
      modifies repo, repo.ledger, registry`entries
      ensures registry.Valid() && (old(registry.NoneHangs()) ==> registry.NoneHangs())
      ensures var (db, reply) := Execute(old(repo.Snapshot()), entry.request, entry.id);
              var over := match reply case Failure(code) => code.NotFound? case Success(response) => !response.Granted?;
              && repo.Snapshot() == (if fate.auth.OK? && fate.applied then db else old(repo.Snapshot()))
              && registry.View() == if Answered(fate) && over then H.RemoveAwaiting(old(registry.View()), entry.id, entry.serial)
                                    else old(registry.View())
    {
      hide Execute, Registry.NoneHangs, Registry.View, Repository.Snapshot, H.RemoveAwaiting;
      if fate.auth != OK {
        return;
      }
      var reply := CallClaim(entry.request, entry.id, fate);
      if reply.Failure? {
        if reply.code.NotFound? {
          registry.RemoveAwaiting(entry);
        }
        return;
      }
      if !reply.value.Granted? {
        registry.RemoveAwaiting(entry);
      }
    }

    /** The end of the goroutine that executed a handed-off job. */
    method EndExecution(id: CommandId)
      requires Valid() && 0 < executing
      modifies this, registry.made
      ensures Valid() && executing == old(executing) - 1 && slots == old(slots) - 1
      ensures old(registry.NoneHangs()) ==> registry.NoneHangs()
      ensures registry.View() == H.MarkAwaiting(old(registry.View()), id)
    {
      registry.MarkAwaiting(id);
      ReleaseExecutionSlot();
      executing := executing - 1;
    }
  }

  /** The parts of the state that one dispatch can change, what was handed off, and the answer
      that decides whether the record is committed. */
  datatype Flow = Flow(db: Db, entries: H.Entries, handoff: Option<Grant>, code: Code)

  /** Only an authorised call whose command is new to the registry, and for which there is room,
      claims; only an applied and seen grant is handed off, as an active entry; after anything
      else the registry is as before. A command that has another owner waits for that owner's
      entry, and a registered entry's result is OK. */
  function HandOff(db: Db, entries: H.Entries, limit: int, serial: nat, id: CommandId, c: Command, fate: CallFate)
    : (flow: Flow)
  {
    if fate.auth != OK then Flow(db, entries, None, fate.auth)
    else if id in entries then Flow(db, entries, None, if entries[id].state.Claiming? then Code.Canceled else OK)
    else if limit <= |entries| then Flow(db, entries, None, ResourceExhausted)
    else
      var (changed, reply) := Execute(db, c, id);
      if !fate.applied then Flow(db, entries, None, Unavailable)
      else if !fate.seen then Flow(changed, entries, None, Unavailable)
      else
        match reply
        case Failure(code) => Flow(changed, entries, None, code)
        case Success(response) =>
          if response.Granted? then
            Flow(changed, H.Activate(H.Reserve(entries, id, serial, c), id, serial, response.grant), Some(response.grant), OK)
          else Flow(changed, entries, None, OK)
  }

  lemma NotClaimed(db: Db, entries: H.Entries, limit: int, serial: nat, id: CommandId, c: Command, fate: CallFate)
    ensures var flow := HandOff(db, entries, limit, serial, id, c, fate);
            && (fate.auth != OK ==> flow == Flow(db, entries, None, fate.auth))
            && (fate.auth.OK? && id in entries ==>
                  flow == Flow(db, entries, None, if entries[id].state.Claiming? then Code.Canceled else OK))
            && (fate.auth.OK? && id !in entries && limit <= |entries| ==> flow == Flow(db, entries, None, ResourceExhausted))
  {
    hide Execute, H.Activate;
  }

  lemma Claimed(db: Db, entries: H.Entries, limit: int, serial: nat, id: CommandId, c: Command, fate: CallFate)
    requires fate.auth.OK? && H.CanReserve(entries, limit, id)
    ensures var (changed, reply) := Execute(db, c, id);
            var told := if fate.applied && fate.seen then reply else Failure(Unavailable);
            var grant := if told.Success? && told.value.Granted? then Some(told.value.grant) else None;
            var placed := H.Reserve(entries, id, serial, c);
            HandOff(db, entries, limit, serial, id, c, fate)
            == Flow(if fate.applied then changed else db,
                    if grant.Some? then H.Activate(placed, id, serial, grant.value) else H.ResolveRemoved(placed, id, serial),
                    grant, if told.Failure? then told.code else OK)
  {
    hide Execute, H.Activate, H.Reserve, H.ResolveRemoved;
    GivenUp(entries, limit, id, serial, c);
    var (changed, reply) := Execute(db, c, id);
    assert reply.Success? && !reply.value.Granted? && fate.applied && fate.seen ==>
        HandOff(db, entries, limit, serial, id, c, fate) == Flow(changed, entries, None, OK);
  }

  /** A placeholder that is given up leaves no trace. */
  lemma GivenUp(entries: H.Entries, limit: int, id: CommandId, serial: nat, c: Command)
    ensures H.CanReserve(entries, limit, id) ==>
              H.ResolveRemoved(H.Reserve(entries, id, serial, c), id, serial) == entries
  {
  }

  /** Command identifiers of recoveries are drawn anew. */
  ghost predicate UnusedFrom(db: Db, process: ProcessId, n: nat) {
    forall k :: n <= k ==> LedgerKey(WorkerScope(process), OpRecover, Given(k)) !in db.rows
  }

  /** One wave takes recoverable leases only, each once, leaves none of them recoverable, and when
      it is short leaves no lease recoverable at all. */
  lemma WaveRecovers(db: Db, c: Command, process: ProcessId, n: nat)
    requires c.Recover? && c.process == process && 0 < c.batch && UnusedFrom(db, process, n)
    ensures var (after, reply) := Execute(db, c, Given(n));
            && reply.Success? && reply.value.Recovered? && |reply.value.leases| <= c.batch
            && (forall i :: 0 <= i < |reply.value.leases| ==>
                  Recoverable(db.t, reply.value.leases[i].job) && !Recoverable(after.t, reply.value.leases[i].job))
            && (forall i, k :: 0 <= i < k < |reply.value.leases| ==>
                  reply.value.leases[i].job != reply.value.leases[k].job)
            && (forall j :: Recoverable(after.t, j) ==> Recoverable(db.t, j))
            && (|reply.value.leases| < c.batch ==> forall j :: !Recoverable(after.t, j))
            && UnusedFrom(after, process, n + 1)
  {
    hide ToRecover, Records, RuntimeUnavailable;
    RecoveredIsStored(db, c, n);
    var taken := ToRecover(db.t, c.batch);
    var after := Execute(db, c, Given(n)).0;
    forall j | Recoverable(after.t, j) ensures Recoverable(db.t, j) && j !in taken {
    }
  }

  predicate Has(recovered: seq<ExpiredLease>, j: JobId) {
    exists i :: 0 <= i < |recovered| && recovered[i].job == j
  }

  lemma HasBoth(a: seq<ExpiredLease>, b: seq<ExpiredLease>)
    ensures forall j :: Has(a + b, j) <==> Has(a, j) || Has(b, j)
  {
    forall j ensures Has(a + b, j) <==> Has(a, j) || Has(b, j) {
      if Has(b, j) {
        var i :| 0 <= i < |b| && b[i].job == j;
        assert (a + b)[|a| + i].job == j;
      }
      if Has(a, j) {
        var i :| 0 <= i < |a| && a[i].job == j;
        assert (a + b)[i].job == j;
      }
    }
  }

  /** Every lease a wave takes is in its answer, under the token that the job now runs under; leases that
      are not recoverable stay with their holders. */
  lemma WaveTells(db: Db, c: Command, process: ProcessId, n: nat)
    requires c.Recover? && c.process == process && 0 < c.batch && UnusedFrom(db, process, n)
    ensures var (after, reply) := Execute(db, c, Given(n));
            && reply.Success? && reply.value.Recovered?
            && (forall j :: Recoverable(db.t, j) && !Recoverable(after.t, j) ==> Has(reply.value.leases, j))
            && (forall i :: 0 <= i < |reply.value.leases| ==>
                  Holds(after.t.jobs, reply.value.leases[i].job, reply.value.leases[i].token))
            && (forall j, token :: Holds(db.t.jobs, j, token) && !Recoverable(db.t, j) ==> Holds(after.t.jobs, j, token))
  {
    hide ToRecover, Records, RuntimeUnavailable;
    RecoveredIsStored(db, c, n);
    var taken := ToRecover(db.t, c.batch);
    var after, leases := Execute(db, c, Given(n)).0, Records(db.t, taken);
    forall j | Recoverable(db.t, j) && !Recoverable(after.t, j) ensures Has(leases, j) {
      assert j in taken;
      var i :| 0 <= i < |taken| && taken[i] == j;
      assert leases[i].job == j;
    }
  }

  lemma RecoveredIsStored(db: Db, c: Command, n: nat)
    requires c.Recover? && UnusedFrom(db, c.process, n)
    ensures var (after, reply) := Execute(db, c, Given(n));
            && after.t == RecoverLeases(db.t, c).value.0 && reply == Success(RecoverLeases(db.t, c).value.1)
            && UnusedFrom(after, c.process, n + 1)
  {
    hide ToRecover, Records;
    assert db.rows.Keys !! {LedgerKey(WorkerScope(c.process), OpRecover, Given(n))};
  }

  // ---------------------------------------------------------------- the code is the machine

  /** The process takes a slot, tries to reserve, asks, and settles. */
  function Processed(w: E.World, c: Command, fate: CallFate): (r: E.World)
    requires c.Claim?
  {
    var n := w.next;
    var held := E.Step(w, E.AcquireSlot);
    if fate.auth != OK then E.Step(held, E.Abandon(n))
    else
      var reserved := E.Step(held, E.TryReserve(n, c.job, c.workflow, c.duration, c.dispatch));
      E.Step(E.Step(reserved, E.Ask(n, fate.applied, fate.seen)), E.Settle(n))
  }

  /** What processRecord does to the database and the registry is what those steps of the machine
      do, so the theorems about runs of the machine are about this code. */
  lemma ProcessRecordIsSteps(w: E.World, c: Command, fate: CallFate)
    requires w.slots < w.capacity && w.next !in w.tasks
    requires c.Claim? && c.worker == w.worker && c.process == w.process
    ensures var id, r := ClaimOf(w.process, c.job, c.dispatch), Processed(w, c, fate);
            var flow := HandOff(w.db, w.entries, w.limit, w.next, id, c, fate);
            && r.db == flow.db && r.entries == flow.entries
            && r.started == (if flow.handoff.Some? then w.started + [id] else w.started)
            && r.slots == (if flow.handoff.Some? then w.slots + 1 else w.slots)
            && r.tasks == if flow.handoff.Some? then w.tasks[w.next := E.Task.Running(id, flow.handoff.value)] else w.tasks
  {
    hide Execute;
    var n, id := w.next, ClaimOf(w.process, c.job, c.dispatch);
    var held := w.(slots := w.slots + 1, tasks := w.tasks[n := E.Holding], next := n + 1);
    assert E.Step(w, E.AcquireSlot) == held;
    assert held.tasks - {n} == w.tasks;
    if fate.auth != OK {
      assert E.Step(held, E.Abandon(n)) == E.Done(held, n);
    } else if !H.CanReserve(w.entries, w.limit, id) {
      RefusedStays(held, n, c, id, fate);
    } else {
      ReservedSettles(held, n, c, id, fate);
    }
  }

  lemma RefusedStays(held: E.World, n: nat, c: Command, id: CommandId, fate: CallFate)
    requires n in held.tasks && held.tasks[n].Holding? && !H.CanReserve(held.entries, held.limit, id)
    requires c.Claim? && c.worker == held.worker && c.process == held.process && id == ClaimOf(held.process, c.job, c.dispatch)
    ensures var reserved := E.Step(held, E.TryReserve(n, c.job, c.workflow, c.duration, c.dispatch));
            E.Step(E.Step(reserved, E.Ask(n, fate.applied, fate.seen)), E.Settle(n)) == E.Done(held, n)
  {
    hide E.AskStep, E.SettleStep;
    assert E.Step(held, E.TryReserve(n, c.job, c.workflow, c.duration, c.dispatch)) == E.Done(held, n);
  }

  /** From the placeholder to the active entry, or to no trace. */
  lemma ReservedSettles(held: E.World, n: nat, c: Command, id: CommandId, fate: CallFate)
    requires n in held.tasks && held.tasks[n].Holding? && H.CanReserve(held.entries, held.limit, id) && 0 < held.slots
    requires c.Claim? && c.worker == held.worker && c.process == held.process && id == ClaimOf(held.process, c.job, c.dispatch)
    requires fate.auth.OK?
    ensures var reserved := E.Step(held, E.TryReserve(n, c.job, c.workflow, c.duration, c.dispatch));
            var r := E.Step(E.Step(reserved, E.Ask(n, fate.applied, fate.seen)), E.Settle(n));
            var flow := HandOff(held.db, held.entries, held.limit, n, id, c, fate);
            && r.db == flow.db && r.entries == flow.entries
            && r.started == (if flow.handoff.Some? then held.started + [id] else held.started)
            && r.slots == (if flow.handoff.Some? then held.slots else held.slots - 1)
            && r.tasks == if flow.handoff.Some? then held.tasks[n := E.Task.Running(id, flow.handoff.value)] else held.tasks - {n}
  {
    hide Execute, E.Step, E.SettleStep, E.AskStep, HandOff, H.Reserve;
    StepReserves(held, n, c, id);
    var reserved := WithPlaceholder(held, n, c, id);
    AskedIs(held, n, c, id, fate);
    StepAsks(reserved, n, id, fate);
    var asked := E.AskStep(reserved, n, id, fate.applied, fate.seen);
    StepSettles(asked, n, id);
    SettledIs(held, n, c, id, fate);
  }

  function WithPlaceholder(held: E.World, n: nat, c: Command, id: CommandId): (r: E.World) {
    held.(entries := H.Reserve(held.entries, id, n, c), tasks := held.tasks[n := E.Reserved(id)])
  }

  lemma StepReserves(held: E.World, n: nat, c: Command, id: CommandId)
    requires n in held.tasks && held.tasks[n].Holding? && H.CanReserve(held.entries, held.limit, id)
    requires c.Claim? && c.worker == held.worker && c.process == held.process && id == ClaimOf(held.process, c.job, c.dispatch)
    ensures E.Step(held, E.TryReserve(n, c.job, c.workflow, c.duration, c.dispatch)) == WithPlaceholder(held, n, c, id)
  {
  }

  lemma StepAsks(w: E.World, n: nat, id: CommandId, fate: CallFate)
    requires n in w.tasks && w.tasks[n] == E.Reserved(id) && id in w.entries
    ensures E.Step(w, E.Ask(n, fate.applied, fate.seen)) == E.AskStep(w, n, id, fate.applied, fate.seen)
  {
    hide E.AskStep;
  }

  lemma StepSettles(w: E.World, n: nat, id: CommandId)
    requires n in w.tasks && w.tasks[n].Replied? && w.tasks[n].id == id
    ensures E.Step(w, E.Settle(n)) == E.SettleStep(w, n, id, w.tasks[n].reply)
  {
    hide E.SettleStep;
  }

  lemma AskedIs(held: E.World, n: nat, c: Command, id: CommandId, fate: CallFate)
    ensures var reserved := WithPlaceholder(held, n, c, id);
            id in reserved.entries
            && var asked := E.AskStep(reserved, n, id, fate.applied, fate.seen);
               && asked.tasks == held.tasks[n := E.Replied(id, E.ClaimReply(held, id, c, fate.applied, fate.seen))]
               && asked.entries == reserved.entries && asked.slots == held.slots && asked.started == held.started
               && asked.db == if fate.applied then Execute(held.db, c, id).0 else held.db
  {
    hide Execute;
    assert held.tasks[n := E.Reserved(id)][n := E.Replied(id, E.ClaimReply(held, id, c, fate.applied, fate.seen))]
        == held.tasks[n := E.Replied(id, E.ClaimReply(held, id, c, fate.applied, fate.seen))];
  }

  lemma SettledIs(held: E.World, n: nat, c: Command, id: CommandId, fate: CallFate)
    requires H.CanReserve(held.entries, held.limit, id) && 0 < held.slots && fate.auth.OK?
    ensures var asked := E.AskStep(WithPlaceholder(held, n, c, id), n, id, fate.applied, fate.seen);
            var r := E.SettleStep(asked, n, id, E.ClaimReply(held, id, c, fate.applied, fate.seen));
            var flow := HandOff(held.db, held.entries, held.limit, n, id, c, fate);
            && r.db == flow.db && r.entries == flow.entries
            && r.started == (if flow.handoff.Some? then held.started + [id] else held.started)
            && r.slots == (if flow.handoff.Some? then held.slots else held.slots - 1)
            && r.tasks == if flow.handoff.Some? then held.tasks[n := E.Task.Running(id, flow.handoff.value)] else held.tasks - {n}
  {
    hide Execute, E.AskStep;
    AskedIs(held, n, c, id, fate);
    GivenUp(held.entries, held.limit, id, n, c);
    var reply := E.ClaimReply(held, id, c, fate.applied, fate.seen);
    assert held.tasks[n := E.Replied(id, reply)] - {n} == held.tasks - {n};
  }
}
