/**
 The Kafka partition runner as a machine of interleaved steps
 (internal/pkg/kafka/partition_runner.go, internal/pkg/kafka/commit_policy.go).

 Every partition that has records gets a lane with a first-in first-out queue and a goroutine
 that pops, processes and commits. A step is one critical section of the poller, of a rebalance
 callback or of one lane, except that these are merged into one step: finding a lane and putting
 records in its queue; reading the queue length and ending a backlog pause; setting a pause
 reason, checking that the lane owns its partition and telling the client; checking ownership and
 committing; a failed attempt to process or to commit and the pause that follows it; changing
 assignments and telling the client to resume. Putting records in a queue
 and pausing for the backlog are two steps (Fetch, Pause), and for comparison also one
 (DeliverAtOnce).

 Lanes are numbered in the order they are created and a number is never used again, so a
 number identifies a lane as its address does. The last three fields of a lane are its
 history: every record ever put in its queue, every record its processor is done with, and
 every record it has committed.
 */
module PartitionLanes {
  import opened Prelude

  datatype Key = Key(topic: string, partition: int)
  type Record = nat
  type LaneId = nat

  /** fillWait: the runner waits for a batch to fill up (a positive batch interval). */
  datatype Config = Config(channelBuffer: int, batchSize: int, fillWait: bool)

  const DEFAULT_CHANNEL_BUFFER := 1024

  function NewConfig(channelBuffer: int, batchSize: int, fillWait: bool): (r: Config)
    ensures Sensible(r) && r.fillWait == fillWait
    ensures r.channelBuffer == if 1 <= channelBuffer then channelBuffer else 1024
    ensures r.batchSize == if 1 <= batchSize then batchSize else 1
  {
    Config(if channelBuffer <= 0 then DEFAULT_CHANNEL_BUFFER else channelBuffer,
           if batchSize <= 0 then 1 else batchSize, fillWait)
  }

  predicate Sensible(cfg: Config) {
    1 <= cfg.channelBuffer && 1 <= cfg.batchSize
  }

  /** Where the lane's goroutine is. `retrying` and `recommitting` are the local flags by which
      the processing loop and the commit loop remember that they paused the partition. */
  datatype Phase =
    | Popping
    | Waiting                                    // pop has seen an empty queue
    | Filling                                    // popBatch, between two drains
    | FillWaiting                                // popBatch has seen an empty queue
    | Popped
    | Processing(retrying: bool)
    | Committing(recommitting: bool, retrying: bool)
    | Unwinding(recommitting: bool, retrying: bool, stopping: bool)   // deferred resumes
    | Stopped

  datatype Lane = Lane(
    key: Key, canceled: bool, notified: bool, queue: seq<Record>, backlogPaused: bool, retryPaused: bool,
    phase: Phase, inflight: seq<Record>,
    enqueued: seq<Record>, accepted: seq<Record>, committed: seq<Record>)

  /** `paused` is the client's set of partitions it does not fetch; `pending` is a poller
      between putting records in a queue and pausing the partition for its backlog. */
  datatype Runner = Runner(
    cfg: Config, assignment: set<Key>, known: bool, owners: map<Key, LaneId>, lanes: seq<Lane>,
    paused: set<Key>, done: bool, stopped: bool, pending: Option<LaneId>)

  datatype Reason = Backlog | Retry

  /** Every code but these six lets a failed record be committed. */
  predicate ShouldCommitOnError(code: Code) {
    !(code.Aborted? || code.Canceled? || code.DeadlineExceeded? || code.Internal? || code.ResourceExhausted?
      || code.Unavailable?)
  }

  // ---------------------------------------------------------------- ownership and pausing

  predicate OwnedBy(assignment: set<Key>, known: bool, owners: map<Key, LaneId>, key: Key, i: LaneId) {
    (known ==> key in assignment) && key in owners && owners[key] == i
  }

  predicate Owns(r: Runner, i: LaneId) {
    i < |r.lanes| && OwnedBy(r.assignment, r.known, r.owners, r.lanes[i].key, i)
  }

  predicate Flagged(l: Lane) {
    l.backlogPaused || l.retryPaused
  }

  function SetPaused(l: Lane, reason: Reason, value: bool): (l': Lane) {
    if reason.Backlog? then l.(backlogPaused := value) else l.(retryPaused := value)
  }

  /** The client hears of a lane only when its two reasons taken together change, and only while
      the lane owns its partition. */
  function Update(r: Runner, i: LaneId, l: Lane): (r': Runner)
    requires i < |r.lanes| && l.key == r.lanes[i].key
  {
    var paused :=
      if Flagged(l) == Flagged(r.lanes[i]) || !Owns(r, i) then r.paused
      else if Flagged(l) then r.paused + {l.key}
      else r.paused - {l.key};
    r.(lanes := r.lanes[i := l], paused := paused)
  }

  // ---------------------------------------------------------------- the poller

  function NewLane(key: Key): (l: Lane) {
    Lane(key, false, false, [], false, false, Popping, [], [], [], [])
  }

  predicate Accepts(r: Runner, key: Key) {
    r.known ==> key in r.assignment
  }

  /** The lane of an accepted partition, made on first use. */
  function LaneFor(r: Runner, key: Key): (r': Runner)
    requires Accepts(r, key)
  {
    if key in r.owners then r
    else r.(owners := r.owners[key := |r.lanes|], lanes := r.lanes + [NewLane(key)])
  }

  function Enqueue(l: Lane, records: seq<Record>): (l': Lane) {
    l.(queue := l.queue + records, notified := true, enqueued := l.enqueued + records)
  }

  function Deliver(r: Runner, key: Key, records: seq<Record>): (r': Runner) {
    if r.stopped || r.pending.Some? || !Accepts(r, key) || records == [] then r
    else
      var with := LaneFor(r, key);
      var i := with.owners[key];
      if i < |with.lanes| then
        var l := Enqueue(with.lanes[i], records);
        with.(lanes := with.lanes[i := l], pending := if r.cfg.channelBuffer <= |l.queue| then Some(i) else None)
      else r
  }

  function PauseBacklog(r: Runner): (r': Runner) {
    if r.pending.None? then r
    else if r.pending.value < |r.lanes| then
      Update(r, r.pending.value, SetPaused(r.lanes[r.pending.value], Backlog, true)).(pending := None)
    else r
  }

  // ---------------------------------------------------------------- rebalances

  function Assign(r: Runner, keys: set<Key>): (r': Runner) {
    r.(assignment := r.assignment + keys, known := true, paused := r.paused - (keys - r.owners.Keys))
  }

  function Cancel(r: Runner, keys: set<Key>): (lanes: seq<Lane>)
    ensures |lanes| == |r.lanes|
    ensures forall i :: 0 <= i < |lanes| ==>
              lanes[i] == if r.lanes[i].key in keys && r.lanes[i].key in r.owners && r.owners[r.lanes[i].key] == i
                          then r.lanes[i].(canceled := true) else r.lanes[i]
  {
    seq(|r.lanes|, i requires 0 <= i < |r.lanes| =>
      if r.lanes[i].key in keys && r.lanes[i].key in r.owners && r.owners[r.lanes[i].key] == i
      then r.lanes[i].(canceled := true) else r.lanes[i])
  }

  function Revoke(r: Runner, keys: set<Key>): (r': Runner) {
    r.(assignment := r.assignment - keys, lanes := Cancel(r, keys), owners := r.owners - keys, paused := r.paused - keys)
  }

  /** The poller stops every lane when it returns, so not while it is delivering. */
  function StopAll(r: Runner): (r': Runner) {
    if r.pending.Some? then r
    else r.(lanes := Cancel(r, r.owners.Keys), owners := map[], stopped := true)
  }

  // ---------------------------------------------------------------- one lane

  datatype Action =
    | Pop | Wake | Drain | TimeOut | ResumeIfReady | Process(code: Code) | Commit(works: bool) | Unwind | Quit

  predicate IsCanceled(r: Runner, l: Lane) {
    l.canceled || r.done
  }

  function TakeHead(l: Lane): (l': Lane)
    requires l.queue != []
  {
    l.(queue := l.queue[1..], inflight := l.queue[..1])
  }

  function DrainSize(l: Lane, limit: int): (n: nat)
    ensures n <= |l.queue|
  {
    if limit <= 0 then 0 else if |l.queue| < limit then |l.queue| else limit
  }

  function DrainInto(l: Lane, limit: int): (l': Lane) {
    var n := DrainSize(l, limit);
    l.(queue := l.queue[n..], inflight := l.inflight + l.queue[..n])
  }

  function PopStep(cfg: Config, l: Lane): (l': Lane) {
    if !l.phase.Popping? then l
    else if l.queue == [] then l.(phase := Waiting)
    else TakeHead(l).(phase := if cfg.batchSize <= 1 then Popped else Filling)
  }

  function WakeStep(l: Lane): (l': Lane) {
    if !l.notified then l
    else if l.phase.Waiting? then l.(notified := false, phase := Popping)
    else if l.phase.FillWaiting? then l.(notified := false, phase := Filling)
    else l
  }

  function DrainStep(cfg: Config, l: Lane): (l': Lane) {
    if !l.phase.Filling? then l
    else
      var taken := DrainInto(l, cfg.batchSize - |l.inflight|);
      if !cfg.fillWait || cfg.batchSize <= |taken.inflight| then taken.(phase := Popped)
      else if l.queue == [] then l.(phase := FillWaiting)
      else taken
  }

  function QuitStep(l: Lane): (l': Lane) {
    match l.phase
    case Waiting => l.(phase := Stopped)
    case FillWaiting => l.(phase := Stopped)
    case Processing(retrying) => l.(phase := Unwinding(false, retrying, true))
    case Committing(recommitting, retrying) => l.(phase := Unwinding(recommitting, retrying, true))
    case _ => l
  }

  /** After the batch is popped, a backlog pause ends once half the buffer is free. */
  function ResumeStep(cfg: Config, l: Lane): (l': Lane) {
    if !l.phase.Popped? then l
    else if |l.queue| <= cfg.channelBuffer / 2 then SetPaused(l, Backlog, false).(phase := Processing(false))
    else l.(phase := Processing(false))
  }

  /** A record whose processor gave a retryable code stays with the lane. */
  function ProcessStep(l: Lane, code: Code): (l': Lane) {
    if !l.phase.Processing? then l
    else if ShouldCommitOnError(code) then
      l.(phase := Committing(false, l.phase.retrying), accepted := l.accepted + l.inflight)
    else if l.phase.retrying then l
    else SetPaused(l, Retry, true).(phase := Processing(true))
  }

  function CommitStep(l: Lane, works: bool, owns: bool): (l': Lane) {
    if !l.phase.Committing? then l
    else if !owns then l.(phase := Unwinding(l.phase.recommitting, l.phase.retrying, true))
    else if works then
      l.(phase := Unwinding(l.phase.recommitting, l.phase.retrying, false),
         inflight := [], committed := l.committed + l.inflight)
    else if l.phase.recommitting then l
    else SetPaused(l, Retry, true).(phase := Committing(true, l.phase.retrying))
  }

  /** The two loops end a pause they began, then the lane goes on or stops. */
  function UnwindStep(l: Lane): (l': Lane) {
    match l.phase
    case Unwinding(recommitting, retrying, stopping) =>
      if recommitting then SetPaused(l, Retry, false).(phase := Unwinding(false, retrying, stopping))
      else if retrying then SetPaused(l, Retry, false).(phase := Unwinding(false, false, stopping))
      else l.(phase := if stopping then Stopped else Popping)
    case _ => l
  }

  function Advance(cfg: Config, l: Lane, a: Action, canceled: bool, owns: bool): (l': Lane)
    ensures l'.key == l.key
  {
    match a
    case Pop => PopStep(cfg, l)
    case Wake => WakeStep(l)
    case Drain => DrainStep(cfg, l)
    case TimeOut => if l.phase.FillWaiting? then l.(phase := Popped) else l
    case ResumeIfReady => ResumeStep(cfg, l)
    case Process(code) => ProcessStep(l, code)
    case Commit(works) => CommitStep(l, works, owns)
    case Unwind => UnwindStep(l)
    case Quit => if canceled then QuitStep(l) else l
  }

  function LaneStep(r: Runner, i: LaneId, a: Action): (r': Runner) {
    if i < |r.lanes| then Update(r, i, Advance(r.cfg, r.lanes[i], a, IsCanceled(r, r.lanes[i]), Owns(r, i))) else r
  }

  // ---------------------------------------------------------------- runs

  /** DeliverAtOnce is Deliver with its pause in the same step. */
  datatype Op =
    | Fetch(key: Key, records: seq<Record>)
    | Pause
    | DeliverAtOnce(key: Key, records: seq<Record>)
    | Assigned(keys: set<Key>)
    | Revoked(keys: set<Key>)
    | Cancelled
    | Stop
    | Act(lane: LaneId, action: Action)

  function Step(r: Runner, op: Op): (r': Runner) {
    match op
    case Fetch(key, records) => Deliver(r, key, records)
    case Pause => PauseBacklog(r)
    case DeliverAtOnce(key, records) => if r.pending.Some? then r else PauseBacklog(Deliver(r, key, records))
    case Assigned(keys) => Assign(r, keys)
    case Revoked(keys) => Revoke(r, keys)
    case Cancelled => r.(done := true)
    case Stop => StopAll(r)
    case Act(i, a) => LaneStep(r, i, a)
  }

  function After(r: Runner, ops: seq<Op>): (r': Runner)
    decreases |ops|
  {
    if ops == [] then r else Step(After(r, ops[..|ops| - 1]), ops[|ops| - 1])
  }

  function Initial(cfg: Config): (r: Runner) {
    Runner(cfg, {}, false, map[], [], {}, false, false, None)
  }
}
