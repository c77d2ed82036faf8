/**
 Waiting for a batch to fill while the lane's own backlog keeps its partition paused: when a
 run can come to it, and which pause leads to it.
 */
module PartitionFilling {
  import opened Prelude
  import opened PartitionLanes
  import opened PartitionSafety
  import opened PartitionPauses

  /** popBatch waits for its batch to fill while the backlog keeps its partition paused, so only
      its timer can end the wait. */
  predicate FillsPaused(r: Runner, i: LaneId) {
    i < |r.lanes| && r.lanes[i].phase.FillWaiting? && r.lanes[i].queue == [] && r.lanes[i].backlogPaused
  }

  // ---------------------------------------------------------------- which pause leads to it

  /** The lane waits for a record, its first or one more, that its own backlog pause holds back. */
  predicate WaitsPaused(r: Runner, i: LaneId) {
    i < |r.lanes| && InSelect(r.lanes[i]) && r.lanes[i].queue == [] && r.lanes[i].backlogPaused
  }

  /** The most records a lane can hold when it waits for another. */
  function WaitFloor(cfg: Config): (n: int) {
    if cfg.fillWait then cfg.batchSize - 1 else 0
  }

  predicate OnlyActs(ops: seq<Op>) {
    forall k :: 0 <= k < |ops| ==> ops[k].Act?
  }

  predicate NoPauses(ops: seq<Op>) {
    forall k :: 0 <= k < |ops| ==> !ops[k].Pause?
  }

  /** No live lane comes to wait paused by what the lanes do by themselves. */
  ghost predicate NoneWillWait(r: Runner) {
    forall more, i :: OnlyActs(more) && WaitsPaused(After(r, more), i) ==> !Live(After(r, more), i)
  }

  /** Nor by anything that is not a separate pause. */
  ghost predicate NoneCanWait(r: Runner) {
    forall more, i :: NoPauses(more) && WaitsPaused(After(r, more), i) ==> !Live(After(r, more), i)
  }

  /** What the lane does next, unless it waits on an empty queue. */
  function NextAction(l: Lane): (a: Action) {
    match l.phase
    case Popping => Pop
    case Filling => Drain
    case Processing(_) => Process(OK)
    case Committing(_, _) => Action.Commit(true)
    case Unwinding(_, _, _) => Unwind
    case _ => Wake
  }

  function StepsToWait(l: Lane): (n: nat) {
    match l.phase
    case Processing(_) => 12
    case Committing(_, _) => 11
    case Unwinding(recommitting, retrying, _) => 8 + (if recommitting then 1 else 0) + (if retrying then 1 else 0)
    case Waiting => if l.queue == [] then 0 else 7
    case Popping => 6
    case FillWaiting => if l.queue == [] then 0 else 5
    case Filling => if l.queue == [] then 3 else 4
    case _ => 0
  }

  /** The lane will wait with what it holds, without another check of the backlog. */
  ghost predicate HeadsForWait(cfg: Config, l: Lane) {
    LaneSound(cfg, l) && l.backlogPaused && !ChecksAgain(l, WaitFloor(cfg))
  }

  lemma NextNearsWait(cfg: Config, l: Lane)
    requires Sensible(cfg) && HeadsForWait(cfg, l) && !(InSelect(l) && l.queue == [])
    ensures var l' := Advance(cfg, l, NextAction(l), false, true);
            && HeadsForWait(cfg, l') && Ahead(l') == Ahead(l)
            && StepsToWait(l') < StepsToWait(l)
  {
    WaitsWithFewer(cfg, l);
    AdvanceSound(cfg, l, NextAction(l), false, true);
    hide LaneSound;
    match l.phase
    case Popping =>
    case Filling => FillsUp(cfg, l);
    case Unwinding(_, _, _) =>
    case _ =>
  }

  lemma WaitsWithFewer(cfg: Config, l: Lane)
    requires Sensible(cfg) && HeadsForWait(cfg, l)
    ensures HistorySound(l) && WakeSound(l)
    ensures l.phase.Filling? || l.phase.FillWaiting? ==> cfg.fillWait && |l.inflight| + |l.queue| < cfg.batchSize
  {
  }

  lemma FillsUp(cfg: Config, l: Lane)
    requires l.phase.Filling? && cfg.fillWait && |l.inflight| + |l.queue| < cfg.batchSize
    ensures var l' := DrainStep(cfg, l);
            && l'.queue == [] && |l'.inflight| == |l.inflight| + |l.queue| && l'.backlogPaused == l.backlogPaused
            && l'.phase == if l.queue == [] then FillWaiting else Filling
  {
  }

  lemma LiveAct(r: Runner, i: LaneId, a: Action)
    requires Live(r, i)
    ensures var r' := Step(r, Act(i, a));
            && Live(r', i) && r'.cfg == r.cfg && r'.lanes[i] == Advance(r.cfg, r.lanes[i], a, false, true)
  {
    hide Advance;
    AdvanceKeepsCanceled(r.cfg, r.lanes[i], a, false, true);
  }

  lemma {:induction false} AfterFirst(r: Runner, op: Op, more: seq<Op>)
    ensures After(r, [op] + more) == After(Step(r, op), more)
    decreases |more|
  {
    hide Step;
    if more == [] {
      assert [op] + more == [op];
      AfterMore(r, [], op);
      assert [] + [op] == [op];
    } else {
      var before := more[..|more| - 1];
      AfterFirst(r, op, before);
      assert [op] + more == ([op] + before) + [more[|more| - 1]];
      AfterMore(r, [op] + before, more[|more| - 1]);
    }
  }

  /** Paused too late, a live lane comes to wait with what it holds by its own actions. */
  lemma {:induction false} WaitsOn(r: Runner, i: LaneId) returns (more: seq<Op>)
    requires Sensible(r.cfg) && Live(r, i) && HeadsForWait(r.cfg, r.lanes[i])
    ensures OnlyActs(more) && Live(After(r, more), i) && WaitsPaused(After(r, more), i)
    ensures 0 < Ahead(r.lanes[i]) ==> FillsPaused(After(r, more), i)
    decreases StepsToWait(r.lanes[i])
  {
    var l := r.lanes[i];
    hide Step, Advance, LaneSound, Live, StepsToWait, ChecksAgain, After;
    if InSelect(l) && l.queue == [] {
      more := [];
      AfterNothing(r);
    } else {
      NextNearsWait(r.cfg, l);
      LiveAct(r, i, NextAction(l));
      var op := Act(i, NextAction(l));
      var rest := WaitsOn(Step(r, op), i);
      more := [op] + rest;
      AfterFirst(r, op, rest);
    }
  }

  lemma LatePauseWaits(r: Runner, op: Op) returns (more: seq<Op>)
    requires Sound(r) && PausesLate(r, op, WaitFloor(r.cfg))
    ensures r.pending.Some? && r.pending.value < |r.lanes| && OnlyActs(more)
    ensures var r', i := After(Step(r, op), more), r.pending.value;
            Live(r', i) && WaitsPaused(r', i) && (0 < Ahead(r.lanes[i]) ==> FillsPaused(r', i))
  {
    hide After;
    assert LaneSound(r.cfg, r.lanes[r.pending.value]);
    more := WaitsOn(Step(r, op), r.pending.value);
  }

  lemma BackedNeverWaits(r: Runner, i: LaneId)
    requires Sound(r) && LiveBacked(r, WaitFloor(r.cfg)) && Live(r, i)
    ensures !WaitsPaused(r, i)
  {
    assert LaneSound(r.cfg, r.lanes[i]);
  }

  lemma {:induction false} NoPausesNeverLate(r: Runner, ops: seq<Op>, floor: int)
    requires NoPauses(ops)
    ensures NeverLate(r, ops, floor)
    decreases |ops|
  {
    if ops != [] {
      NoPausesNeverLate(r, ops[..|ops| - 1], floor);
    }
  }

  lemma BackedCanNotWait(r: Runner)
    requires Sound(r) && PausesExact(r) && LiveBacked(r, WaitFloor(r.cfg))
    requires WaitFloor(r.cfg) <= r.cfg.channelBuffer / 2
    ensures NoneCanWait(r) && NoneWillWait(r)
  {
    hide Sound, PausesExact, LiveBacked, Live, WaitsPaused;
    SoundLanes(r);
    forall more, i | NoPauses(more) && Live(After(r, more), i) ensures !WaitsPaused(After(r, more), i) {
      NoPausesNeverLate(r, more, WaitFloor(r.cfg));
      NeverLateKeepsLiveBacked(r, more, WaitFloor(r.cfg));
      RunSound(r, more);
      BackedNeverWaits(After(r, more), i);
    }
    assert forall more :: OnlyActs(more) ==> NoPauses(more);
  }

  /** With batches of at most half the buffer and one, a run can nowhere come to a live lane that
      waits while its own backlog pauses it exactly when no pause came too late for the lane. */
  lemma {:induction false} WaitsExactlyWhenLate(r: Runner, ops: seq<Op>)
    requires Sound(r) && PausesExact(r) && LiveBacked(r, WaitFloor(r.cfg))
    requires WaitFloor(r.cfg) <= r.cfg.channelBuffer / 2
    ensures NeverLate(r, ops, WaitFloor(r.cfg)) <==> forall n :: 0 <= n <= |ops| ==> NoneWillWait(After(r, ops[..n]))
    ensures NeverLate(r, ops, WaitFloor(r.cfg)) <==> forall n :: 0 <= n <= |ops| ==> NoneCanWait(After(r, ops[..n]))
    decreases |ops|
  {
    hide Sound, PausesExact, LiveBacked, Step, PausesLate, Live, WaitsPaused;
    var floor := WaitFloor(r.cfg);
    SoundLanes(r);
    assert ops[..|ops|] == ops;
    if ops == [] {
      BackedCanNotWait(r);
    } else {
      var before, op := ops[..|ops| - 1], ops[|ops| - 1];
      assert forall n :: 0 <= n <= |before| ==> before[..n] == ops[..n];
      WaitsExactlyWhenLate(r, before);
      if NeverLate(r, before, floor) {
        NeverLateKeepsLiveBacked(r, before, floor);
        RunSound(r, before);
        var last := After(r, before);
        assert After(r, ops) == Step(last, op);
        if PausesLate(last, op, floor) {
          var more := LatePauseWaits(last, op);
          assert NoPauses(more);
          assert !NoneWillWait(After(r, ops[..|ops|])) && !NoneCanWait(After(r, ops[..|ops|]));
        } else {
          NeverLateKeepsLiveBacked(r, ops, floor);
          RunSound(r, ops);
          RunExact(r, ops);
          BackedCanNotWait(After(r, ops));
        }
      }
    }
  }

  // ---------------------------------------------------------------- with each delivery in one step

  lemma SmallBatchesNeverFillPaused(cfg: Config, keys: set<Key>, ops: seq<Op>, i: LaneId)
    requires Sensible(cfg) && WholeDeliveries(ops) && cfg.batchSize < cfg.channelBuffer / 2 + 2
    ensures !FillsPaused(After(Assign(Initial(cfg), keys), ops), i)
  {
    var start := Assign(Initial(cfg), keys);
    WholeDeliveriesArePrompt(start, ops, cfg.channelBuffer / 2);
    RunBacked(start, ops, cfg.channelBuffer / 2);
    RunSound(start, ops);
    var r := After(start, ops);
    assert i < |r.lanes| ==> LaneSound(cfg, r.lanes[i]);
  }

  /** Some run from this one assigned partition leads to this lane; unless the poller still owes
      a pause, a run of whole deliveries. */
  ghost predicate Leads(cfg: Config, key: Key, l: Lane, pending: Option<LaneId>) {
    exists ops :: (pending.None? ==> WholeDeliveries(ops))
      && After(Assign(Initial(cfg), {key}), ops) == Solo(cfg, l, pending)
  }

  lemma LeadsOn(cfg: Config, key: Key, l: Lane, pending: Option<LaneId>, a: Action)
    requires Leads(cfg, key, l, pending) && !l.canceled
    ensures Leads(cfg, key, Advance(cfg, l, a, false, true), pending)
  {
    hide Advance, Step, Solo;
    var start := Assign(Initial(cfg), {key});
    var ops :| (pending.None? ==> WholeDeliveries(ops)) && After(start, ops) == Solo(cfg, l, pending);
    SoloStep(cfg, l, pending, a);
    AfterMore(start, ops, Act(0, a));
    var more := ops + [Act(0, a)];
    assert After(start, more) == Solo(cfg, Advance(cfg, l, a, false, true), pending);
  }

  lemma FillsBatch(cfg: Config, key: Key, l: Lane, pending: Option<LaneId>) returns (l': Lane)
    requires Leads(cfg, key, l, pending) && l.phase.Popping? && !l.canceled && l.queue != []
    requires cfg.fillWait && 2 <= cfg.batchSize
    ensures Leads(cfg, key, l', pending) && !l'.canceled && l'.backlogPaused == l.backlogPaused
    ensures if cfg.batchSize <= |l.queue| then l'.phase.Popped? && |l'.queue| == |l.queue| - cfg.batchSize
            else l'.phase.FillWaiting? && l'.queue == []
  {
    hide Leads;
    LeadsOn(cfg, key, l, pending, Pop);
    var popped := PopStep(cfg, l);
    LeadsOn(cfg, key, popped, pending, Drain);
    l' := DrainStep(cfg, popped);
    if l'.phase.Filling? {
      LeadsOn(cfg, key, l', pending, Drain);
      l' := DrainStep(cfg, l');
    }
  }

  lemma FinishesBatch(cfg: Config, key: Key, l: Lane, pending: Option<LaneId>) returns (l': Lane)
    requires Leads(cfg, key, l, pending) && l.phase.Popped? && !l.canceled
    requires l.backlogPaused ==> cfg.channelBuffer / 2 < |l.queue|
    ensures Leads(cfg, key, l', pending) && l'.phase.Popping? && !l'.canceled
    ensures l'.backlogPaused == l.backlogPaused && l'.queue == l.queue
  {
    hide Leads;
    LeadsOn(cfg, key, l, pending, ResumeIfReady);
    l' := ResumeStep(cfg, l);
    LeadsOn(cfg, key, l', pending, Process(OK));
    l' := ProcessStep(l', OK);
    LeadsOn(cfg, key, l', pending, Action.Commit(true));
    l' := CommitStep(l', true, true);
    LeadsOn(cfg, key, l', pending, Unwind);
    l' := UnwindStep(l');
  }

  /** From 2b - 1 queued records, a first batch of b is taken and committed, the b - 1 left are
      too many to resume, and the second batch takes them and waits for one more. */
  lemma LargeBatchesFillPaused(cfg: Config, key: Key, records: seq<Record>)
    requires Sensible(cfg) && cfg.fillWait && cfg.channelBuffer / 2 + 2 <= cfg.batchSize
    requires |records| == 2 * cfg.batchSize - 1
    ensures exists ops :: WholeDeliveries(ops) && FillsPaused(After(Assign(Initial(cfg), {key}), ops), 0)
  {
    hide Step, After;
    var l := SetPaused(Enqueue(NewLane(key), records), Backlog, true);
    SoloDelivery(cfg, key, records);
    var start := Assign(Initial(cfg), {key});
    AfterNothing(start);
    AfterMore(start, [], DeliverAtOnce(key, records));
    assert WholeDeliveries([] + [DeliverAtOnce(key, records)]);
    assert Leads(cfg, key, l, None);
    var full := FillsBatch(cfg, key, l, None);
    var next := FinishesBatch(cfg, key, full, None);
    var waiting := FillsBatch(cfg, key, next, None);
    var ops :| WholeDeliveries(ops) && After(start, ops) == Solo(cfg, waiting, None);
    assert FillsPaused(Solo(cfg, waiting, None), 0);
  }

  /** Exactly when it can happen although every delivery is one step: the batch exceeds half the
      buffer by two. */
  lemma FillsPausedExactly(cfg: Config, key: Key)
    requires Sensible(cfg) && cfg.fillWait
    ensures (exists ops, i :: WholeDeliveries(ops) && FillsPaused(After(Assign(Initial(cfg), {key}), ops), i))
       <==> cfg.channelBuffer / 2 + 2 <= cfg.batchSize
  {
    hide FillsPaused;
    if cfg.channelBuffer / 2 + 2 <= cfg.batchSize {
      LargeBatchesFillPaused(cfg, key, seq(2 * cfg.batchSize - 1, _ => 0));
    } else {
      forall ops, i | WholeDeliveries(ops) ensures !FillsPaused(After(Assign(Initial(cfg), {key}), ops), i) {
        SmallBatchesNeverFillPaused(cfg, {key}, ops, i);
      }
    }
  }

  // ---------------------------------------------------------------- over all runs

  /** While the poller is about to pause the lane, the lane can finish batch after batch. */
  lemma {:induction false} RunsDown(cfg: Config, key: Key, l: Lane, batches: nat) returns (l': Lane)
    requires Sensible(cfg) && cfg.fillWait && 2 <= cfg.batchSize
    requires Leads(cfg, key, l, Some(0)) && l.phase.Popping? && !l.canceled && !l.backlogPaused
    requires |l.queue| == batches * cfg.batchSize + 1
    ensures !l'.canceled && !l'.backlogPaused
    ensures Leads(cfg, key, l', Some(0)) && l'.phase.FillWaiting? && l'.queue == []
    decreases batches
  {
    hide Leads;
    l' := FillsBatch(cfg, key, l, Some(0));
    if batches > 0 {
      assert |l.queue| - cfg.batchSize == (batches - 1) * cfg.batchSize + 1;
      l' := FinishesBatch(cfg, key, l', Some(0));
      l' := RunsDown(cfg, key, l', batches - 1);
    }
  }

  lemma BatchesOfTwoFillPaused(cfg: Config, key: Key, records: seq<Record>) returns (ops: seq<Op>)
    requires Sensible(cfg) && cfg.fillWait && 2 <= cfg.batchSize
    requires |records| == cfg.channelBuffer * cfg.batchSize + 1
    ensures FillsPaused(After(Assign(Initial(cfg), {key}), ops), 0)
  {
    assert cfg.channelBuffer <= |records|;
    var start, l := Assign(Initial(cfg), {key}), Enqueue(NewLane(key), records);
    SoloFetch(cfg, key, records);
    AfterNothing(start);
    AfterMore(start, [], Fetch(key, records));
    assert Leads(cfg, key, l, Some(0));
    var waiting := RunsDown(cfg, key, l, cfg.channelBuffer);
    var fetched :| After(start, fetched) == Solo(cfg, waiting, Some(0));
    SoloPause(cfg, waiting);
    AfterMore(start, fetched, Pause);
    ops := fetched + [Pause];
  }

  lemma BatchesOfOneNeverFillPaused(cfg: Config, keys: set<Key>, ops: seq<Op>, i: LaneId)
    requires Sensible(cfg) && cfg.batchSize < 2
    ensures !FillsPaused(After(Assign(Initial(cfg), keys), ops), i)
  {
    var start := Assign(Initial(cfg), keys);
    RunSound(start, ops);
    RunKeepsConfig(start, ops);
    var r := After(start, ops);
    assert i < |r.lanes| ==> LaneSound(cfg, r.lanes[i]);
  }

  lemma {:induction false} RunKeepsConfig(r: Runner, ops: seq<Op>)
    ensures After(r, ops).cfg == r.cfg
    decreases |ops|
  {
    hide Step;
    if ops != [] {
      RunKeepsConfig(r, ops[..|ops| - 1]);
      StepKeepsConfig(After(r, ops[..|ops| - 1]), ops[|ops| - 1]);
    }
  }

  /** Exactly when it can happen at all: the batch is of more than one record. */
  lemma FillsPausedAtAllExactly(cfg: Config, key: Key)
    requires Sensible(cfg) && cfg.fillWait
    ensures (exists ops, i :: FillsPaused(After(Assign(Initial(cfg), {key}), ops), i)) <==> 2 <= cfg.batchSize
  {
    hide FillsPaused;
    if 2 <= cfg.batchSize {
      var ops := BatchesOfTwoFillPaused(cfg, key, seq(cfg.channelBuffer * cfg.batchSize + 1, _ => 0));
      assert FillsPaused(After(Assign(Initial(cfg), {key}), ops), 0);
    } else {
      forall ops, i ensures !FillsPaused(After(Assign(Initial(cfg), {key}), ops), i) {
        BatchesOfOneNeverFillPaused(cfg, {key}, ops, i);
      }
    }
  }
}
