/**
 What the partition runner guarantees in every run: no record is lost, reordered or committed
 before its processor is done with it, a lane that lost its partition never commits again, no
 wake-up is lost, and a partition is paused exactly for its lane's reasons.
 */
module PartitionSafety {
  import opened Prelude
  import opened PartitionLanes

  /** The answers of a processor after which the runner keeps the record and asks again. */
  const ASK_AGAIN: set<Code> := {Aborted, Canceled, DeadlineExceeded, Internal, ResourceExhausted, Unavailable}

  // ---------------------------------------------------------------- the invariant of a lane

  /** Outside the batch nothing is in flight; inside it, acceptance is ahead of commitment by
      the whole batch or not at all. */
  ghost predicate HistorySound(l: Lane) {
    && l.enqueued == l.committed + l.inflight + l.queue
    && match l.phase
       case Popping => l.inflight == [] && l.accepted == l.committed
       case Waiting => l.inflight == [] && l.accepted == l.committed
       case Committing(_, _) => l.inflight != [] && l.accepted == l.committed + l.inflight
       case Unwinding(_, _, stopping) =>
         if stopping then l.accepted == l.committed || l.accepted == l.committed + l.inflight
         else l.inflight == [] && l.accepted == l.committed
       case Stopped => l.accepted == l.committed || l.accepted == l.committed + l.inflight
       case _ => l.inflight != [] && l.accepted == l.committed
  }

  predicate InSelect(l: Lane) {
    l.phase.Waiting? || l.phase.FillWaiting?
  }

  ghost predicate WakeSound(l: Lane) {
    InSelect(l) && l.queue != [] ==> l.notified
  }

  /** A lane remembers a retry pause for as long as it lasts. */
  ghost predicate RetrySound(l: Lane) {
    match l.phase
    case Processing(retrying) => l.retryPaused == retrying
    case Committing(recommitting, retrying) => l.retryPaused == (recommitting || retrying)
    case Unwinding(recommitting, retrying, _) => l.retryPaused ==> recommitting || retrying
    case _ => !l.retryPaused
  }

  ghost predicate LaneSound(cfg: Config, l: Lane) {
    && HistorySound(l) && WakeSound(l) && RetrySound(l)
    && (l.phase.Filling? || l.phase.FillWaiting? ==> |l.inflight| < cfg.batchSize)
    && (l.phase.FillWaiting? ==> cfg.fillWait)
  }

  ghost predicate LanesSound(r: Runner) {
    forall i :: 0 <= i < |r.lanes| ==> LaneSound(r.cfg, r.lanes[i])
  }

  ghost predicate OwnersSound(r: Runner) {
    && (forall key :: key in r.owners ==> r.owners[key] < |r.lanes| && r.lanes[r.owners[key]].key == key)
    && (r.stopped ==> r.owners == map[])
    && (r.pending.Some? ==> r.pending.value < |r.lanes|)
  }

  ghost predicate Sound(r: Runner) {
    Sensible(r.cfg) && LanesSound(r) && OwnersSound(r)
  }

  // ---------------------------------------------------------------- every step keeps it

  lemma UpdateSound(r: Runner, i: LaneId, l: Lane)
    requires Sound(r) && i < |r.lanes| && l.key == r.lanes[i].key && LaneSound(r.cfg, l)
    ensures Sound(Update(r, i, l))
  {
  }

  lemma PopSound(cfg: Config, l: Lane)
    requires Sensible(cfg) && LaneSound(cfg, l)
    ensures LaneSound(cfg, PopStep(cfg, l))
  {
    if l.phase.Popping? && l.queue != [] {
      assert l.queue == l.queue[..1] + l.queue[1..];
      assert l.committed + [] + l.queue == l.committed + l.queue[..1] + l.queue[1..];
    }
  }

  lemma DrainSound(cfg: Config, l: Lane)
    requires Sensible(cfg) && LaneSound(cfg, l)
    ensures LaneSound(cfg, DrainStep(cfg, l))
  {
    if l.phase.Filling? {
      var n := DrainSize(l, cfg.batchSize - |l.inflight|);
      assert l.queue == l.queue[..n] + l.queue[n..];
      assert l.committed + l.inflight + l.queue == l.committed + (l.inflight + l.queue[..n]) + l.queue[n..];
    }
  }

  lemma CommitSound(cfg: Config, l: Lane, works: bool, owns: bool)
    requires LaneSound(cfg, l)
    ensures LaneSound(cfg, CommitStep(l, works, owns))
  {
    assert l.committed + l.inflight + l.queue == (l.committed + l.inflight) + [] + l.queue;
  }

  lemma UnwindSound(cfg: Config, l: Lane)
    requires LaneSound(cfg, l)
    ensures LaneSound(cfg, UnwindStep(l))
  {
  }

  lemma QuitSound(cfg: Config, l: Lane)
    requires LaneSound(cfg, l)
    ensures LaneSound(cfg, QuitStep(l))
  {
  }

  lemma ProcessSound(cfg: Config, l: Lane, code: Code)
    requires LaneSound(cfg, l)
    ensures LaneSound(cfg, ProcessStep(l, code)) && LaneSound(cfg, ResumeStep(cfg, l)) && LaneSound(cfg, WakeStep(l))
  {
    hide ShouldCommitOnError;
  }

  lemma AdvanceSound(cfg: Config, l: Lane, a: Action, canceled: bool, owns: bool)
    requires Sensible(cfg) && LaneSound(cfg, l)
    ensures LaneSound(cfg, Advance(cfg, l, a, canceled, owns))
  {
    hide PopStep, DrainStep, CommitStep, UnwindStep, QuitStep, ProcessStep, ResumeStep, WakeStep;
    match a
    case Pop => PopSound(cfg, l);
    case Drain => DrainSound(cfg, l);
    case Commit(works) => CommitSound(cfg, l, works, owns);
    case Process(code) => ProcessSound(cfg, l, code);
    case TimeOut =>
    case Unwind => UnwindSound(cfg, l);
    case Quit => QuitSound(cfg, l);
    case _ => ProcessSound(cfg, l, OK);
  }

  lemma EnqueueSound(cfg: Config, l: Lane, records: seq<Record>)
    requires LaneSound(cfg, l)
    ensures LaneSound(cfg, Enqueue(l, records))
  {
    assert l.committed + l.inflight + (l.queue + records) == l.committed + l.inflight + l.queue + records;
  }

  lemma LaneForSound(r: Runner, key: Key)
    requires Sound(r) && Accepts(r, key) && !r.stopped
    ensures Sound(LaneFor(r, key))
  {
    hide LaneSound;
    assert LaneSound(r.cfg, NewLane(key)) by { NewLaneSound(r.cfg, key); }
  }

  lemma NewLaneSound(cfg: Config, key: Key)
    ensures LaneSound(cfg, NewLane(key))
  {
  }

  lemma DeliverSound(r: Runner, key: Key, records: seq<Record>)
    requires Sound(r)
    ensures Sound(Deliver(r, key, records))
  {
    hide LaneSound, LaneFor;
    if !(r.stopped || r.pending.Some? || !Accepts(r, key) || records == []) {
      LaneForSound(r, key);
      LaneForFinds(r, key);
      var with := LaneFor(r, key);
      EnqueueSound(r.cfg, with.lanes[with.owners[key]], records);
    }
  }

  lemma LaneForFinds(r: Runner, key: Key)
    requires OwnersSound(r) && Accepts(r, key)
    ensures var with := LaneFor(r, key);
            && key in with.owners && with.owners[key] < |with.lanes| && with.cfg == r.cfg
            && with.stopped == r.stopped && with.pending == r.pending
  {
  }

  lemma PauseSound(r: Runner)
    requires Sound(r)
    ensures Sound(PauseBacklog(r))
  {
    if r.pending.Some? {
      UpdateSound(r, r.pending.value, SetPaused(r.lanes[r.pending.value], Backlog, true));
    }
  }

  lemma StepSound(r: Runner, op: Op)
    requires Sound(r)
    ensures Sound(Step(r, op))
  {
    hide Deliver, PauseBacklog, Advance, Update;
    match op
    case Fetch(key, records) => DeliverSound(r, key, records);
    case Pause => PauseSound(r);
    case DeliverAtOnce(key, records) =>
      DeliverSound(r, key, records);
      PauseSound(Deliver(r, key, records));
    case Act(i, a) =>
      if i < |r.lanes| {
        var l := Advance(r.cfg, r.lanes[i], a, IsCanceled(r, r.lanes[i]), Owns(r, i));
        AdvanceSound(r.cfg, r.lanes[i], a, IsCanceled(r, r.lanes[i]), Owns(r, i));
        UpdateSound(r, i, l);
      }
    case _ =>
  }

  lemma {:induction false} RunSound(r: Runner, ops: seq<Op>)
    requires Sound(r)
    ensures Sound(After(r, ops))
    decreases |ops|
  {
    if ops != [] {
      RunSound(r, ops[..|ops| - 1]);
      StepSound(After(r, ops[..|ops| - 1]), ops[|ops| - 1]);
    }
  }

  // ---------------------------------------------------------------- records and commits

  /** In every run, what entered a lane is what it committed, then what it has in flight, then
      what is queued, in order; and it commits only what its processor has finished with. */
  lemma HistoryIsKept(cfg: Config, ops: seq<Op>, i: LaneId)
    requires Sensible(cfg) && i < |After(Initial(cfg), ops).lanes|
    ensures var l := After(Initial(cfg), ops).lanes[i];
            && l.enqueued == l.committed + l.inflight + l.queue
            && l.committed <= l.accepted <= l.enqueued
  {
    RunSound(Initial(cfg), ops);
  }

  predicate SameHistory(a: Lane, b: Lane) {
    b.key == a.key && b.committed == a.committed && b.accepted == a.accepted && a.enqueued <= b.enqueued
  }

  ghost predicate LanesKeep(r: Runner, r': Runner) {
    |r.lanes| <= |r'.lanes| && forall i :: 0 <= i < |r.lanes| ==> SameHistory(r.lanes[i], r'.lanes[i])
  }

  lemma DeliverKeeps(r: Runner, key: Key, records: seq<Record>)
    requires OwnersSound(r)
    ensures LanesKeep(r, Deliver(r, key, records))
  {
  }

  lemma PauseKeeps(r: Runner)
    ensures LanesKeep(r, PauseBacklog(r))
  {
  }

  /** Nothing but its own actions and arriving records changes a lane's history. */
  lemma OthersLeaveHistory(r: Runner, op: Op, i: LaneId)
    requires Sound(r) && i < |r.lanes| && (op.Act? ==> op.lane != i)
    ensures i < |Step(r, op).lanes| && SameHistory(r.lanes[i], Step(r, op).lanes[i])
  {
    hide Advance, LaneSound, Deliver, PauseBacklog;
    match op
    case Fetch(key, records) => DeliverKeeps(r, key, records);
    case Pause => PauseKeeps(r);
    case DeliverAtOnce(key, records) =>
      DeliverKeeps(r, key, records);
      PauseKeeps(Deliver(r, key, records));
    case _ =>
  }

  /** What an action of the lane itself does to its history. */
  lemma AdvanceHistory(cfg: Config, l: Lane, a: Action, canceled: bool, owns: bool)
    requires LaneSound(cfg, l)
    ensures var l' := Advance(cfg, l, a, canceled, owns);
            && (l'.committed != l.committed ==>
                  owns && a == Commit(true) && l'.committed == l.accepted == l.committed + l.inflight)
            && (l'.accepted != l.accepted ==>
                  a.Process? && ShouldCommitOnError(a.code) && l'.accepted == l.accepted + l.inflight)
  {
    hide ShouldCommitOnError;
    match a
    case Commit(_) => assert l.phase.Committing? ==> l.accepted == l.committed + l.inflight;
    case Process(_) =>
    case _ => hide *;
      QuietHistory(cfg, l, a, canceled, owns);
  }

  lemma QuietHistory(cfg: Config, l: Lane, a: Action, canceled: bool, owns: bool)
    requires !a.Commit? && !a.Process?
    ensures var l' := Advance(cfg, l, a, canceled, owns); l'.committed == l.committed && l'.accepted == l.accepted
  {
    match a
    case Pop =>
    case Wake =>
    case Drain => hide DrainSize;
    case ResumeIfReady =>
    case Unwind =>
    case Quit =>
    case _ =>
  }

  /** A lane's commits change only in its own commit step, as the owner, by its whole batch,
      after the processor accepted that batch. */
  lemma CommitsOnlyAsOwner(r: Runner, op: Op, i: LaneId)
    requires Sound(r) && i < |r.lanes|
    ensures i < |Step(r, op).lanes| && Step(r, op).lanes[i].key == r.lanes[i].key
    ensures Step(r, op).lanes[i].committed != r.lanes[i].committed ==>
              Owns(r, i) && op == Act(i, Commit(true))
              && Step(r, op).lanes[i].committed == r.lanes[i].accepted == r.lanes[i].committed + r.lanes[i].inflight
  {
    hide Advance, LaneSound;
    if op.Act? && op.lane == i {
      AdvanceHistory(r.cfg, r.lanes[i], op.action, IsCanceled(r, r.lanes[i]), Owns(r, i));
    } else {
      OthersLeaveHistory(r, op, i);
    }
  }

  /** The commit policy, over the codes themselves. */
  lemma FinalAnswers()
    ensures forall code :: ShouldCommitOnError(code) <==> code !in ASK_AGAIN
  {
  }

  /** Only an answer of its processor makes a lane accept records, and it accepts the batch in
      flight exactly when the answer is final. After an answer to ask again the batch stays in
      flight and the partition is paused. */
  lemma AcceptsOnlyFinalAnswers(r: Runner, op: Op, i: LaneId)
    requires Sound(r) && i < |r.lanes|
    ensures i < |Step(r, op).lanes|
    ensures var l, l' := r.lanes[i], Step(r, op).lanes[i];
            if op.Act? && op.lane == i && op.action.Process? && l.phase.Processing? then
              l.inflight != []
              && if op.action.code in ASK_AGAIN then l' == l.(phase := Processing(true), retryPaused := true)
                 else l' == l.(phase := Committing(false, l.phase.retrying), accepted := l.accepted + l.inflight)
            else l'.accepted == l.accepted
  {
    hide Advance, LaneSound;
    FinalAnswers();
    if op.Act? && op.lane == i {
      AdvanceHistory(r.cfg, r.lanes[i], op.action, IsCanceled(r, r.lanes[i]), Owns(r, i));
      if op.action.Process? {
        assert LaneSound(r.cfg, r.lanes[i]);
        AnswerAdvances(r.cfg, r.lanes[i], op.action.code, IsCanceled(r, r.lanes[i]), Owns(r, i));
      }
    } else {
      OthersLeaveHistory(r, op, i);
    }
  }

  lemma AnswerAdvances(cfg: Config, l: Lane, code: Code, canceled: bool, owns: bool)
    requires LaneSound(cfg, l)
    ensures var l' := Advance(cfg, l, Process(code), canceled, owns);
            && (!l.phase.Processing? ==> l' == l)
            && (l.phase.Processing? ==>
                  l.inflight != []
                  && if code in ASK_AGAIN then l' == l.(phase := Processing(true), retryPaused := true)
                     else l' == l.(phase := Committing(false, l.phase.retrying), accepted := l.accepted + l.inflight))
  {
    FinalAnswers();
  }

  /** The batches of a lane that its processor answered finally, in the order of the answers. */
  ghost function FinallyAnswered(r: Runner, ops: seq<Op>, i: LaneId): (records: seq<Record>)
    decreases |ops|
  {
    if ops == [] then []
    else
      var before, op := After(r, ops[..|ops| - 1]), ops[|ops| - 1];
      FinallyAnswered(r, ops[..|ops| - 1], i)
      + if op.Act? && op.lane == i && i < |before.lanes| && before.lanes[i].phase.Processing?
           && op.action.Process? && op.action.code !in ASK_AGAIN
        then before.lanes[i].inflight else []
  }

  lemma NewLanesAreEmpty(r: Runner, op: Op, i: LaneId)
    requires Sound(r) && |r.lanes| <= i < |Step(r, op).lanes|
    ensures Step(r, op).lanes[i].accepted == []
  {
    hide Advance, LaneSound, Deliver, PauseBacklog;
    PauseAddsNone(r);
    if op.Fetch? || op.DeliverAtOnce? {
      PauseAddsNone(Deliver(r, op.key, op.records));
      NewLaneIsEmpty(r, op.key, op.records, i);
      PauseKeeps(Deliver(r, op.key, op.records));
    }
  }

  lemma PauseAddsNone(r: Runner)
    ensures |PauseBacklog(r).lanes| == |r.lanes|
  {
  }

  lemma NewLaneIsEmpty(r: Runner, key: Key, records: seq<Record>, i: LaneId)
    requires OwnersSound(r) && |r.lanes| <= i < |Deliver(r, key, records).lanes|
    ensures Deliver(r, key, records).lanes[i].accepted == []
  {
  }

  /** In every run a lane has accepted exactly the batches that were answered finally, and what it
      has committed is the beginning of that: no record is ever committed after answers to ask
      again alone. */
  lemma {:induction false} CommittedWereAnswered(cfg: Config, ops: seq<Op>, i: LaneId)
    requires Sensible(cfg)
    ensures var r, answered := After(Initial(cfg), ops), FinallyAnswered(Initial(cfg), ops, i);
            if i < |r.lanes| then r.lanes[i].accepted == answered && r.lanes[i].committed <= answered else answered == []
    decreases |ops|
  {
    hide Step, LaneSound, Sound;
    var start := Initial(cfg);
    InitialSound(cfg);
    RunSound(start, ops);
    if ops != [] {
      var before, op := After(start, ops[..|ops| - 1]), ops[|ops| - 1];
      CommittedWereAnswered(cfg, ops[..|ops| - 1], i);
      RunSound(start, ops[..|ops| - 1]);
      if i < |before.lanes| {
        AcceptsOnlyFinalAnswers(before, op, i);
      } else if i < |After(start, ops).lanes| {
        NewLanesAreEmpty(before, op, i);
      }
    }
    if i < |After(start, ops).lanes| {
      HistoryIsKept(cfg, ops, i);
    }
  }

  lemma InitialSound(cfg: Config)
    requires Sensible(cfg)
    ensures Sound(Initial(cfg)) && Initial(cfg).lanes == []
  {
  }

  /** The lane's partition was revoked, or has another lane since. */
  predicate Detached(r: Runner, i: LaneId) {
    i < |r.lanes| && !(r.lanes[i].key in r.owners && r.owners[r.lanes[i].key] == i)
  }

  /** An assignment adds its partitions, and resumes those that have no lane; it touches no lane. */
  lemma AssigningResumes(r: Runner, keys: set<Key>)
    ensures var r' := Step(r, Assigned(keys));
            && r'.known && r'.lanes == r.lanes && r'.owners == r.owners
            && forall key ::
                 && (key in r'.assignment <==> key in r.assignment || key in keys)
                 && (key in r'.paused <==> key in r.paused && (key in keys ==> key in r.owners))
  {
  }

  /** A revocation takes its partitions away, cancels and forgets their lanes, and resumes them;
      stopping cancels and forgets every lane, unless a delivery is under way. */
  lemma RevokingForgets(r: Runner, keys: set<Key>)
    ensures var r' := Step(r, Revoked(keys));
            && |r'.lanes| == |r.lanes|
            && (forall key ::
                  && (key in r'.assignment <==> key in r.assignment && key !in keys)
                  && (key in r'.owners <==> key in r.owners && key !in keys)
                  && (key in r'.owners ==> r'.owners[key] == r.owners[key])
                  && (key in r'.paused <==> key in r.paused && key !in keys))
            && (forall i :: 0 <= i < |r.lanes| ==>
                  var forgotten := r.lanes[i].key in keys && r.lanes[i].key in r.owners && r.owners[r.lanes[i].key] == i;
                  r'.lanes[i] == if forgotten then r.lanes[i].(canceled := true) else r.lanes[i])
    ensures var r' := Step(r, Stop);
            if r.pending.Some? then r' == r
            else
              r'.stopped && r'.owners == map[] && |r'.lanes| == |r.lanes|
              && forall i :: 0 <= i < |r.lanes| ==>
                   r'.lanes[i].canceled == (r.lanes[i].canceled
                                            || (r.lanes[i].key in r.owners && r.owners[r.lanes[i].key] == i))
  {
  }

  lemma RevokingDetaches(r: Runner, keys: set<Key>, i: LaneId)
    requires i < |r.lanes| && r.lanes[i].key in keys
    ensures Detached(Revoke(r, keys), i)
    ensures Owns(r, i) ==> Revoke(r, keys).lanes[i].canceled
  {
  }

  lemma DeliverKeepsDetached(r: Runner, key: Key, records: seq<Record>, i: LaneId)
    requires OwnersSound(r) && Detached(r, i)
    ensures Detached(Deliver(r, key, records), i)
  {
  }

  lemma PauseKeepsDetached(r: Runner, i: LaneId)
    requires Detached(r, i)
    ensures Detached(PauseBacklog(r), i)
  {
  }

  lemma StepKeepsDetached(r: Runner, op: Op, i: LaneId)
    requires Sound(r) && Detached(r, i)
    ensures Detached(Step(r, op), i) && Step(r, op).lanes[i].committed == r.lanes[i].committed
    ensures forall a :: Step(r, Act(i, a)).paused == r.paused
  {
    hide Advance, LaneSound, Deliver, PauseBacklog;
    CommitsOnlyAsOwner(r, op, i);
    if op.Fetch? || op.DeliverAtOnce? {
      DeliverKeepsDetached(r, op.key, op.records, i);
      PauseKeepsDetached(Deliver(r, op.key, op.records), i);
    }
    PauseKeepsDetached(r, i);
  }

  /** From then on it never commits, pauses or resumes anything, whatever is assigned again. */
  lemma {:induction false} DetachedForever(r: Runner, ops: seq<Op>, i: LaneId)
    requires Sound(r) && Detached(r, i)
    ensures var r' := After(r, ops);
            && Detached(r', i) && !Owns(r', i)
            && r'.lanes[i].committed == r.lanes[i].committed
            && forall a :: Step(r', Act(i, a)).paused == r'.paused
    decreases |ops|
  {
    if ops != [] {
      DetachedForever(r, ops[..|ops| - 1], i);
      RunSound(r, ops[..|ops| - 1]);
      StepKeepsDetached(After(r, ops[..|ops| - 1]), ops[|ops| - 1], i);
    }
    RunSound(r, ops);
    StepKeepsDetached(After(r, ops), Cancelled, i);
  }

  // ---------------------------------------------------------------- wake-ups

  /** However enqueues interleave with pops, batch fills and drains, a lane that waits while
      records are queued has a notification to wake it, and waking it takes them. */
  lemma NoLostWakeup(cfg: Config, ops: seq<Op>, i: LaneId)
    requires Sensible(cfg) && i < |After(Initial(cfg), ops).lanes|
    ensures var r := After(Initial(cfg), ops);
            InSelect(r.lanes[i]) && r.lanes[i].queue != [] ==>
              r.lanes[i].notified && !InSelect(Step(r, Act(i, Wake)).lanes[i])
  {
    RunSound(Initial(cfg), ops);
  }

  /** A waiting lane goes on exactly when it is notified, and uses the notification up; a lane whose work
      is cancelled, by its revocation or with the runner, gives up exactly where it waits. */
  lemma WaitsEndExactly(r: Runner, i: LaneId)
    requires i < |r.lanes|
    ensures var l := r.lanes[i];
            Step(r, Act(i, Wake)).lanes[i]
            == if l.phase == Waiting && l.notified then l.(notified := false, phase := Popping)
               else if l.phase == FillWaiting && l.notified then l.(notified := false, phase := Filling)
               else l
    ensures var l, l' := r.lanes[i], Step(r, Act(i, Quit)).lanes[i];
            if !l.canceled && !r.done then l' == l
            else
              match l.phase
              case Waiting => l' == l.(phase := Stopped)
              case FillWaiting => l' == l.(phase := Stopped)
              case Processing(retrying) => l' == l.(phase := Unwinding(false, retrying, true))
              case Committing(recommitting, retrying) => l' == l.(phase := Unwinding(recommitting, retrying, true))
              case _ => l' == l
  {
  }

  /** A drain fills the batch as far as it can, in order; the batch is popped when it is full or need not
      wait, and waits when there was nothing. */
  lemma DrainsExactly(cfg: Config, l: Lane)
    requires l.phase.Filling? && |l.inflight| < cfg.batchSize
    ensures var l' := DrainStep(cfg, l);
            && l'.inflight + l'.queue == l.inflight + l.queue
            && |l'.inflight| == (if |l.inflight| + |l.queue| < cfg.batchSize then |l.inflight| + |l.queue| else cfg.batchSize)
            && l'.phase == (if !cfg.fillWait || |l'.inflight| == cfg.batchSize then Popped
                            else if l.queue == [] then FillWaiting else Filling)
            && l' == l.(queue := l'.queue, inflight := l'.inflight, phase := l'.phase)
  {
    var n := DrainSize(l, cfg.batchSize - |l.inflight|);
    assert l.queue[..n] + l.queue[n..] == l.queue;
    assert l.inflight + l.queue[..n] + l.queue[n..] == l.inflight + l.queue;
  }

  /** An attempt to commit: without the partition the lane gives up with its batch in flight; a commit that
      works takes the batch; one that fails leaves it in flight and the partition paused. */
  lemma CommitsExactly(r: Runner, i: LaneId, works: bool)
    requires Sound(r) && i < |r.lanes| && r.lanes[i].phase.Committing?
    ensures var l, l' := r.lanes[i], Step(r, Act(i, Commit(works))).lanes[i];
            var Committing(recommitting, retrying) := l.phase;
            l' == if !Owns(r, i) then l.(phase := Unwinding(recommitting, retrying, true))
                  else if works then l.(phase := Unwinding(recommitting, retrying, false), inflight := [],
                                        committed := l.committed + l.inflight)
                  else l.(phase := Committing(true, retrying), retryPaused := true)
  {
    assert LaneSound(r.cfg, r.lanes[i]);
  }

  /** The batch timer ends a wait for more records and nothing else; shutting the runner down cancels the
      work of every lane. */
  lemma TimesOutExactly(r: Runner, i: LaneId)
    requires i < |r.lanes|
    ensures var l := r.lanes[i];
            Step(r, Act(i, TimeOut)).lanes[i] == if l.phase == FillWaiting then l.(phase := Popped) else l
    ensures Step(r, Cancelled).done && Step(r, Cancelled).lanes == r.lanes
  {
  }
}
