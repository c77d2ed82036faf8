/**
 One executor process together with the database it calls and everyone else who calls it
 (internal/repository/executor/executor.go, internal/repository/executor/recovery.go).

 A call to the database is applied or not, and its reply is seen or lost; every combination is
 a step. All other processes, the scheduler, the nodes, clean-up and the clock run between any
 two steps of this process.
 */
module ExecutorSteps {
  import opened Prelude
  import opened CommandLedger
  import opened JobTables
  import opened JobDatabase
  import opened DispatchGrants
  import opened Handoffs

  /** What one call of processRecord, or the goroutine it started, is doing. Each task holds one
      execution slot. */
  datatype Task =
    | Holding                                          // has its slot, not yet in the registry
    | Reserved(id: CommandId)                          // owns the placeholder
    | Replied(id: CommandId, reply: Result<Response>)  // has its claim reply, or an error
    | Running(id: CommandId, grant: Grant)             // has been handed off
    | Leaving                                          // about to release its slot

  /** `granted` and `grantedAt` record, for each command of this process, the token and the moment
      of its first grant; `started` lists the commands whose execution was started; `verdicts` holds the replies of
      reconciliation that allow an eviction. */
  datatype World = World(
    db: Db, process: ProcessId, worker: WorkerId, capacity: nat, limit: nat, slots: nat,
    entries: Entries, tasks: map<nat, Task>, next: nat,
    granted: map<CommandId, Token>, grantedAt: map<CommandId, Time>, started: seq<CommandId>,
    verdicts: set<(CommandId, nat)>)

  datatype Op =
    | Elsewhere(op: JobDatabase.Op)
    | AcquireSlot
    | Abandon(task: nat)
    | TryReserve(task: nat, job: JobId, workflow: WorkflowId, duration: Time, dispatch: nat)
    | Ask(task: nat, applied: bool, seen: bool)
    | Settle(task: nat)
    | Report(c: Command, id: CommandId, applied: bool, seen: bool)
    | Mark(task: nat)
    | Leave(task: nat)
    | Probe(id: CommandId, applied: bool, seen: bool)
    | Evict(id: CommandId, serial: nat)

  /** The release has a default branch: with no slot taken it does nothing. */
  function ReleaseSlot(slots: nat): (r: nat) {
    if 0 < slots then slots - 1 else 0
  }

  /** A task ends: its slot is released. */
  function Done(w: World, n: nat): (r: World) {
    w.(tasks := w.tasks - {n}, slots := ReleaseSlot(w.slots))
  }

  function IsGrant(reply: Result<Response>): (r: bool) {
    reply.Success? && reply.value.Granted?
  }

  /** One claim call for a registered command. */
  function CallClaim(w: World, id: CommandId, request: Command): (r: World) {
    var (db, reply) := Execute(w.db, request, id);
    if IsGrant(reply) && id !in w.granted then
      w.(db := db, granted := w.granted[id := reply.value.grant.token], grantedAt := w.grantedAt[id := w.db.t.now])
    else w.(db := db)
  }

  function ClaimReply(w: World, id: CommandId, request: Command, applied: bool, seen: bool): (r: Result<Response>) {
    if applied && seen then Execute(w.db, request, id).1 else Failure(Unavailable)
  }

  /** The command id of a claim names the process, the job and the dispatch. */
  function TryReserveStep(w: World, n: nat, request: Command): (r: World)
    requires request.Claim?
  {
    var id := ClaimOf(w.process, request.job, request.dispatch);
    if CanReserve(w.entries, w.limit, id) then
      w.(entries := Reserve(w.entries, id, n, request), tasks := w.tasks[n := Reserved(id)])
    else Done(w, n)
  }

  function AskStep(w: World, n: nat, id: CommandId, applied: bool, seen: bool): (r: World)
    requires id in w.entries
  {
    var request := w.entries[id].request;
    var after := if applied then CallClaim(w, id, request) else w;
    after.(tasks := w.tasks[n := Replied(id, ClaimReply(w, id, request, applied, seen))])
  }

  function SettleStep(w: World, n: nat, id: CommandId, reply: Result<Response>): (r: World) {
    if !IsGrant(reply) then Done(w.(entries := ResolveRemoved(w.entries, id, n)), n)
    else if Placeholder(w.entries, id, n) then
      w.(entries := Activate(w.entries, id, n, reply.value.grant),
         tasks := w.tasks[n := Task.Running(id, reply.value.grant)], started := w.started + [id])
    else Done(w, n)
  }

  /** Reports an outcome; a success that is seen consumes the handoff of that lease. */
  function ReportStep(w: World, c: Command, id: CommandId, applied: bool, seen: bool): (r: World)
    requires Outcome(c)
  {
    if !applied then w
    else
      var (db, reply) := Execute(w.db, c, id);
      w.(db := db,
         entries := if seen && reply.Success? then w.entries - Matching(w.entries, c.job, c.token) else w.entries)
  }

  predicate Dismisses(reply: Result<Response>) {
    reply == Failure(NotFound) || (reply.Success? && !reply.value.Granted?)
  }

  function ProbeStep(w: World, id: CommandId, applied: bool, seen: bool): (r: World)
    requires id in w.entries
  {
    var e := w.entries[id];
    var after := if applied then CallClaim(w, id, e.request) else w;
    after.(verdicts := if Dismisses(ClaimReply(w, id, e.request, applied, seen))
                       then w.verdicts + {(id, e.serial)} else w.verdicts)
  }

  /** What this process never lets others do: claim under its own identity. */
  predicate Foreign(w: World, op: JobDatabase.Op) {
    !(op.Run? && op.c.Claim? && op.c.process == w.process)
  }

  function Step(w: World, op: Op): (r: World) {
    match op
    case Elsewhere(o) => if Foreign(w, o) then w.(db := JobDatabase.Step(w.db, o)) else w
    case AcquireSlot =>
      if w.slots < w.capacity then w.(slots := w.slots + 1, tasks := w.tasks[w.next := Holding], next := w.next + 1)
      else w
    case Abandon(n) => if n in w.tasks && w.tasks[n].Holding? then Done(w, n) else w
    case TryReserve(n, job, workflow, duration, dispatch) =>
      if n in w.tasks && w.tasks[n].Holding?
      then TryReserveStep(w, n, Claim(job, workflow, w.worker, w.process, duration, dispatch)) else w
    case Ask(n, applied, seen) =>
      if n in w.tasks && w.tasks[n].Reserved? && w.tasks[n].id in w.entries
      then AskStep(w, n, w.tasks[n].id, applied, seen) else w
    case Settle(n) =>
      if n in w.tasks && w.tasks[n].Replied? then SettleStep(w, n, w.tasks[n].id, w.tasks[n].reply) else w
    case Report(c, id, applied, seen) => if Outcome(c) then ReportStep(w, c, id, applied, seen) else w
    case Mark(n) =>
      if n in w.tasks && w.tasks[n].Running?
      then w.(entries := MarkAwaiting(w.entries, w.tasks[n].id), tasks := w.tasks[n := Leaving]) else w
    case Leave(n) => if n in w.tasks && w.tasks[n].Leaving? then Done(w, n) else w
    case Probe(id, applied, seen) =>
      if id in w.entries && w.entries[id].state.Awaiting? then ProbeStep(w, id, applied, seen) else w
    case Evict(id, serial) =>
      if (id, serial) in w.verdicts then w.(entries := RemoveAwaiting(w.entries, id, serial)) else w
  }

  function After(w: World, ops: seq<Op>): (r: World)
    decreases |ops|
  {
    if ops == [] then w else Step(After(w, ops[..|ops| - 1]), ops[|ops| - 1])
  }

  /** A process that has just started on a database in any state. */
  function Start(db: Db, process: ProcessId, worker: WorkerId, capacity: nat, limit: nat): (w: World) {
    World(db, process, worker, capacity, limit, 0, map[], map[], 0, map[], map[], [], {})
  }

  function ClaimKey(process: ProcessId, id: CommandId): (k: LedgerKey) {
    LedgerKey(WorkerScope(process), OpClaim, id)
  }

  /** No row was ever stored under this process identity. */
  predicate NewProcess(db: Db, process: ProcessId) {
    forall k :: k in db.rows ==> k.scope != WorkerScope(process)
  }
}
