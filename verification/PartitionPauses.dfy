/**
 Paused partitions: when the client's pauses are exactly the lanes' reasons, and when a lane
 can be left waiting on an empty queue while its partition stays paused.
 */
module PartitionPauses {
  import opened Prelude
  import opened PartitionLanes
  import opened PartitionSafety

  // ---------------------------------------------------------------- pauses are the reasons

  /** With known assignments, every lane's partition is an assigned one, a partition is paused
      exactly for its lane's reasons, and nothing else is paused while the poller lives. */
  ghost predicate PausesExact(r: Runner) {
    && r.known && r.owners.Keys <= r.assignment
    && (forall key :: key in r.owners && r.owners[key] < |r.lanes| ==>
          (key in r.paused <==> Flagged(r.lanes[r.owners[key]])))
    && (!r.stopped ==> r.paused <= r.owners.Keys)
  }

  lemma UpdateExact(r: Runner, i: LaneId, l: Lane)
    requires OwnersSound(r) && PausesExact(r) && i < |r.lanes| && l.key == r.lanes[i].key
    ensures PausesExact(Update(r, i, l))
  {
  }

  lemma PauseExact(r: Runner)
    requires OwnersSound(r) && PausesExact(r)
    ensures PausesExact(PauseBacklog(r))
  {
    if r.pending.Some? {
      UpdateExact(r, r.pending.value, SetPaused(r.lanes[r.pending.value], Backlog, true));
    }
  }

  lemma DeliverExact(r: Runner, key: Key, records: seq<Record>)
    requires OwnersSound(r) && PausesExact(r)
    ensures PausesExact(Deliver(r, key, records))
  {
  }

  lemma StepExact(r: Runner, op: Op)
    requires Sound(r) && PausesExact(r)
    ensures PausesExact(Step(r, op))
  {
    hide Deliver, PauseBacklog, Advance, Update, LanesSound, Owns;
    match op
    case Fetch(key, records) => DeliverExact(r, key, records);
    case Pause => PauseExact(r);
    case DeliverAtOnce(key, records) =>
      DeliverSound(r, key, records);
      DeliverExact(r, key, records);
      PauseExact(Deliver(r, key, records));
    case Act(i, a) =>
      if i < |r.lanes| {
        UpdateExact(r, i, Advance(r.cfg, r.lanes[i], a, IsCanceled(r, r.lanes[i]), Owns(r, i)));
      }
    case _ =>
  }

  lemma {:induction false} RunExact(r: Runner, ops: seq<Op>)
    requires Sound(r) && PausesExact(r)
    ensures PausesExact(After(r, ops))
    decreases |ops|
  {
    if ops != [] {
      RunExact(r, ops[..|ops| - 1]);
      RunSound(r, ops[..|ops| - 1]);
      StepExact(After(r, ops[..|ops| - 1]), ops[|ops| - 1]);
    }
  }

  predicate AtLoopHead(l: Lane) {
    l.phase.Popping? || l.phase.Waiting? || l.phase.Filling? || l.phase.FillWaiting? || l.phase.Popped?
  }

  /** Started from known assignments, at every later moment the client has an owned lane's
      partition paused exactly when the lane has a reason, and no retry pause outlives the
      record it was for. */
  lemma PauseRefinesReasons(cfg: Config, keys: set<Key>, ops: seq<Op>, i: LaneId)
    requires Sensible(cfg)
    ensures var r := After(Assign(Initial(cfg), keys), ops);
            && (Owns(r, i) ==> (r.lanes[i].key in r.paused <==> r.lanes[i].backlogPaused || r.lanes[i].retryPaused))
            && (i < |r.lanes| && (AtLoopHead(r.lanes[i]) || r.lanes[i].phase.Stopped?) ==> !r.lanes[i].retryPaused)
  {
    RunExact(Assign(Initial(cfg), keys), ops);
    RunSound(Assign(Initial(cfg), keys), ops);
  }

  // ---------------------------------------------------------------- one lane alone

  /** The runner that only ever had one lane, for its one assigned partition, and whose poller
      may still owe that lane its backlog pause. */
  function Solo(cfg: Config, l: Lane, pending: Option<LaneId>): (r: Runner) {
    Runner(cfg, {l.key}, true, map[l.key := 0], [l], if Flagged(l) then {l.key} else {}, false, false, pending)
  }

  lemma SoloStep(cfg: Config, l: Lane, pending: Option<LaneId>, a: Action)
    requires !l.canceled
    ensures Step(Solo(cfg, l, pending), Act(0, a)) == Solo(cfg, Advance(cfg, l, a, false, true), pending)
  {
    var l' := Advance(cfg, l, a, false, true);
    assert [l][0 := l'] == [l'];
    assert {l.key} - {l.key} == {} && {} + {l.key} == {l.key};
  }

  lemma SoloFetch(cfg: Config, key: Key, records: seq<Record>)
    requires Sensible(cfg) && cfg.channelBuffer <= |records|
    ensures Step(Assign(Initial(cfg), {key}), Fetch(key, records)) == Solo(cfg, Enqueue(NewLane(key), records), Some(0))
  {
    var l := Enqueue(NewLane(key), records);
    var r := Assign(Initial(cfg), {key});
    assert r.assignment == {key} && r.paused == {};
    assert ([] + [NewLane(key)])[0 := l] == [l];
    assert map[][key := 0] == map[key := 0];
  }

  lemma SoloPause(cfg: Config, l: Lane)
    ensures Step(Solo(cfg, l, Some(0)), Pause) == Solo(cfg, SetPaused(l, Backlog, true), None)
  {
    assert [l][0 := SetPaused(l, Backlog, true)] == [SetPaused(l, Backlog, true)];
    assert {} + {l.key} == {l.key};
  }

  lemma SoloDelivery(cfg: Config, key: Key, records: seq<Record>)
    requires Sensible(cfg) && cfg.channelBuffer <= |records|
    ensures Step(Assign(Initial(cfg), {key}), DeliverAtOnce(key, records))
         == Solo(cfg, SetPaused(Enqueue(NewLane(key), records), Backlog, true), None)
  {
    SoloFetch(cfg, key, records);
    SoloPause(cfg, Enqueue(NewLane(key), records));
  }

  // ---------------------------------------------------------------- a backlog pause ends

  /** Records that the lane will still count before its next check of the backlog. */
  function Ahead(l: Lane): (n: nat) {
    |l.queue| + if l.phase.Filling? || l.phase.FillWaiting? then |l.inflight| else 0
  }

  predicate Ended(l: Lane) {
    l.phase.Stopped? || (l.phase.Unwinding? && l.phase.stopping)
  }

  /** The lane will check its backlog again before it can wait with `floor` records or fewer. */
  predicate ChecksAgain(l: Lane, floor: int) {
    l.phase.Popped? || Ended(l) || floor < Ahead(l)
  }

  ghost predicate Backed(r: Runner, floor: int) {
    forall i :: 0 <= i < |r.lanes| && r.lanes[i].backlogPaused ==> ChecksAgain(r.lanes[i], floor)
  }

  /** The pause that the poller still owes comes before the lane has passed its last check. */
  predicate InTime(r: Runner, floor: int) {
    r.pending.Some? && r.pending.value < |r.lanes| ==> ChecksAgain(r.lanes[r.pending.value], floor)
  }

  /** Every separate pause of the run comes in time. With deliveries in one step there is none. */
  ghost predicate Prompt(r: Runner, ops: seq<Op>, floor: int)
    decreases |ops|
  {
    ops == []
    || (Prompt(r, ops[..|ops| - 1], floor)
        && (ops[|ops| - 1].Pause? ==> InTime(After(r, ops[..|ops| - 1]), floor)))
  }

  lemma AdvanceBacked(cfg: Config, l: Lane, a: Action, canceled: bool, owns: bool, floor: int)
    requires 0 <= floor <= cfg.channelBuffer / 2 && (l.backlogPaused ==> ChecksAgain(l, floor))
    ensures var l' := Advance(cfg, l, a, canceled, owns); l'.backlogPaused ==> ChecksAgain(l', floor)
  {
    match a
    case Pop =>
    case Wake =>
    case Drain =>
    case ResumeIfReady =>
    case Process(_) => hide ShouldCommitOnError;
    case Commit(_) =>
    case Unwind =>
    case Quit =>
    case TimeOut =>
  }

  lemma DeliverBacked(r: Runner, key: Key, records: seq<Record>, floor: int)
    requires Sound(r) && Backed(r, floor) && floor <= r.cfg.channelBuffer / 2
    ensures Backed(Deliver(r, key, records), floor)
    ensures r.pending.None? ==> InTime(Deliver(r, key, records), floor)
  {
    hide LanesSound;
  }

  lemma PauseBacked(r: Runner, floor: int)
    requires Backed(r, floor) && InTime(r, floor)
    ensures Backed(PauseBacklog(r), floor)
  {
  }

  lemma StepBacked(r: Runner, op: Op, floor: int)
    requires Sound(r) && Backed(r, floor) && 0 <= floor <= r.cfg.channelBuffer / 2
    requires op.Pause? ==> InTime(r, floor)
    ensures Backed(Step(r, op), floor)
  {
    hide Deliver, PauseBacklog, Advance, LanesSound, ChecksAgain, Owns;
    match op
    case Fetch(key, records) => DeliverBacked(r, key, records, floor);
    case Pause => PauseBacked(r, floor);
    case DeliverAtOnce(key, records) =>
      DeliverBacked(r, key, records, floor);
      if r.pending.None? {
        PauseBacked(Deliver(r, key, records), floor);
      }
    case Act(i, a) =>
      if i < |r.lanes| {
        AdvanceBacked(r.cfg, r.lanes[i], a, IsCanceled(r, r.lanes[i]), Owns(r, i), floor);
      }
    case Revoked(keys) => CancelBacked(r, keys, floor);
    case Stop => CancelBacked(r, r.owners.Keys, floor);
    case _ =>
  }

  lemma CancelBacked(r: Runner, keys: set<Key>, floor: int)
    requires Backed(r, floor)
    ensures forall i :: 0 <= i < |Cancel(r, keys)| && Cancel(r, keys)[i].backlogPaused ==>
                          ChecksAgain(Cancel(r, keys)[i], floor)
  {
  }

  lemma {:induction false} RunBacked(r: Runner, ops: seq<Op>, floor: int)
    requires Sound(r) && Backed(r, floor) && 0 <= floor <= r.cfg.channelBuffer / 2 && Prompt(r, ops, floor)
    ensures Backed(After(r, ops), floor) && After(r, ops).cfg == r.cfg
    decreases |ops|
  {
    if ops != [] {
      var last := After(r, ops[..|ops| - 1]);
      RunBacked(r, ops[..|ops| - 1], floor);
      RunSound(r, ops[..|ops| - 1]);
      StepBacked(last, ops[|ops| - 1], floor);
      StepKeepsConfig(last, ops[|ops| - 1]);
    }
  }

  lemma StepKeepsConfig(r: Runner, op: Op)
    ensures Step(r, op).cfg == r.cfg
  {
    hide Advance;
  }

  /** No operation of the run is a separate pause. */
  predicate WholeDeliveries(ops: seq<Op>) {
    forall k :: 0 <= k < |ops| ==> !ops[k].Pause? && !ops[k].Fetch?
  }

  lemma {:induction false} WholeDeliveriesArePrompt(r: Runner, ops: seq<Op>, floor: int)
    requires WholeDeliveries(ops)
    ensures Prompt(r, ops, floor)
    decreases |ops|
  {
    if ops != [] {
      WholeDeliveriesArePrompt(r, ops[..|ops| - 1], floor);
    }
  }

  /** When every pause comes in time, and so when a delivery is one step, no lane waits for
      records while its own backlog keeps its partition paused. */
  lemma NeverWaitsPaused(cfg: Config, ops: seq<Op>, i: LaneId)
    requires Sensible(cfg) && (WholeDeliveries(ops) || Prompt(Initial(cfg), ops, 0))
    requires i < |After(Initial(cfg), ops).lanes|
    ensures var l := After(Initial(cfg), ops).lanes[i];
            l.phase.Waiting? && l.queue == [] ==> !l.backlogPaused
  {
    if WholeDeliveries(ops) {
      WholeDeliveriesArePrompt(Initial(cfg), ops, 0);
    }
    RunBacked(Initial(cfg), ops, 0);
  }

  // ---------------------------------------------------------------- a late pause strands

  /** The lane is alive and has nothing to do, nothing more is fetched for it, and the check
      that would resume it comes only after a record. */
  predicate Stranded(r: Runner, i: LaneId) {
    && Owns(r, i) && !IsCanceled(r, r.lanes[i])
    && r.lanes[i].backlogPaused && r.lanes[i].queue == [] && r.lanes[i].key in r.paused
    && (match r.lanes[i].phase
        case Popping => true
        case Waiting => true
        case Processing(_) => true
        case Committing(_, _) => true
        case Unwinding(_, _, stopping) => !stopping
        case _ => false)
  }

  /** A pause strands a live lane exactly when it comes after the lane's last check. */
  lemma LatePauseStrands(r: Runner, i: LaneId)
    requires Sound(r) && PausesExact(r) && r.pending == Some(i)
    requires Owns(r, i) && !IsCanceled(r, r.lanes[i]) && !Ended(r.lanes[i])
    ensures Stranded(Step(r, Pause), i) <==> !InTime(r, 0)
  {
    assert LaneSound(r.cfg, r.lanes[i]);
    PauseExact(r);
    var r' := Step(r, Pause);
    assert Owns(r', i) && r'.lanes[i].key in r'.paused;
  }

  /** Without a new delivery, a rebalance or a shutdown of this partition. */
  predicate Undisturbed(op: Op, key: Key) {
    match op
    case Fetch(k, _) => k != key
    case DeliverAtOnce(k, _) => k != key
    case Revoked(keys) => key !in keys
    case Cancelled => false
    case Stop => false
    case _ => true
  }

  lemma StrandedAdvance(cfg: Config, l: Lane, a: Action)
    requires HistorySound(l) && l.backlogPaused && l.queue == [] && !Ended(l)
    requires !l.phase.Popped? && !l.phase.Filling? && !l.phase.FillWaiting?
    ensures var l' := Advance(cfg, l, a, false, true);
            && l'.backlogPaused && l'.queue == [] && !Ended(l') && l'.canceled == l.canceled
            && !l'.phase.Popped? && !l'.phase.Filling? && !l'.phase.FillWaiting?
  {
    match a
    case Unwind =>
    case Quit =>
    case _ =>
  }

  lemma StrandedDelivery(r: Runner, key: Key, records: seq<Record>, i: LaneId)
    requires Sound(r) && Stranded(r, i) && key != r.lanes[i].key
    ensures Stranded(Deliver(r, key, records), i)
    ensures i < |Deliver(r, key, records).lanes| && Deliver(r, key, records).lanes[i] == r.lanes[i]
  {
    hide LanesSound;
  }

  lemma StrandedPause(r: Runner, i: LaneId)
    requires Sound(r) && Stranded(r, i)
    ensures Stranded(PauseBacklog(r), i) && PauseBacklog(r).lanes[i].key == r.lanes[i].key
  {
    hide LanesSound;
  }

  lemma StepKeepsStranded(r: Runner, op: Op, i: LaneId)
    requires Sound(r) && PausesExact(r) && Stranded(r, i) && Undisturbed(op, r.lanes[i].key)
    ensures Stranded(Step(r, op), i) && Step(r, op).lanes[i].key == r.lanes[i].key
  {
    hide Deliver, PauseBacklog, Advance, LaneSound;
    match op
    case Fetch(key, records) => StrandedDelivery(r, key, records, i);
    case Pause => StrandedPause(r, i);
    case DeliverAtOnce(key, records) =>
      DeliverSound(r, key, records);
      StrandedDelivery(r, key, records, i);
      StrandedPause(Deliver(r, key, records), i);
    case Act(k, a) => StrandedAct(r, k, a, i);
    case _ =>
  }

  lemma StrandedAct(r: Runner, k: LaneId, a: Action, i: LaneId)
    requires Sound(r) && PausesExact(r) && Stranded(r, i)
    ensures Stranded(Step(r, Act(k, a)), i) && Step(r, Act(k, a)).lanes[i].key == r.lanes[i].key
  {
    hide Advance, HistorySound;
    if k == i {
      assert LaneSound(r.cfg, r.lanes[i]);
      StrandedAdvance(r.cfg, r.lanes[i], a);
      var r' := Step(r, Act(k, a));
      var l' := Advance(r.cfg, r.lanes[i], a, false, true);
      assert r'.lanes[i] == l' && r'.paused == r.paused;
      assert Owns(r', i) && !IsCanceled(r', l');
    }
  }

  /** A stranded lane stays so, with its partition paused, through any steps of its own and of
      every other lane: only a record, a rebalance or a shutdown can help it. */
  lemma {:induction false} StrandedForever(r: Runner, ops: seq<Op>, i: LaneId)
    requires Sound(r) && PausesExact(r) && Stranded(r, i)
    requires forall k :: 0 <= k < |ops| ==> Undisturbed(ops[k], r.lanes[i].key)
    ensures Stranded(After(r, ops), i) && After(r, ops).lanes[i].key == r.lanes[i].key
    decreases |ops|
  {
    if ops != [] {
      var before := ops[..|ops| - 1];
      StrandedForever(r, before, i);
      RunSound(r, before);
      RunExact(r, before);
      StepKeepsStranded(After(r, before), ops[|ops| - 1], i);
    }
  }

  predicate Live(r: Runner, i: LaneId) {
    Owns(r, i) && !IsCanceled(r, r.lanes[i])
  }

  /** The poller pauses a live lane for its backlog when the lane may come to wait with `floor`
      records or fewer before it checks again. */
  predicate PausesLate(r: Runner, op: Op, floor: int) {
    op.Pause? && r.pending.Some? && Live(r, r.pending.value) && !InTime(r, floor)
  }

  /** Every live lane that is paused for its backlog will check it again before that. */
  ghost predicate LiveBacked(r: Runner, floor: int) {
    forall i :: 0 <= i < |r.lanes| && r.lanes[i].backlogPaused && Live(r, i) ==> ChecksAgain(r.lanes[i], floor)
  }

  ghost predicate NoneStranded(r: Runner) {
    forall i :: !Stranded(r, i)
  }

  lemma LiveBackedStrandsNone(r: Runner)
    requires LanesSound(r) && LiveBacked(r, 0)
    ensures NoneStranded(r)
  {
  }

  lemma AdvanceKeepsCanceled(cfg: Config, l: Lane, a: Action, canceled: bool, owns: bool)
    ensures Advance(cfg, l, a, canceled, owns).canceled == l.canceled
  {
    match a
    case Pop =>
    case Wake =>
    case Drain => hide DrainSize;
    case ResumeIfReady =>
    case Process(_) => hide ShouldCommitOnError;
    case Commit(_) =>
    case Unwind =>
    case Quit =>
    case TimeOut =>
  }

  lemma ActKeepsLiveBacked(r: Runner, i: LaneId, a: Action, floor: int)
    requires Sound(r) && LiveBacked(r, floor) && 0 <= floor <= r.cfg.channelBuffer / 2 && i < |r.lanes|
    ensures LiveBacked(LaneStep(r, i, a), floor)
  {
    hide Advance, ChecksAgain, LanesSound;
    var l, l' := r.lanes[i], Advance(r.cfg, r.lanes[i], a, IsCanceled(r, r.lanes[i]), Owns(r, i));
    AdvanceKeepsCanceled(r.cfg, l, a, IsCanceled(r, l), Owns(r, i));
    if Live(r, i) {
      AdvanceBacked(r.cfg, l, a, IsCanceled(r, l), Owns(r, i), floor);
    }
  }

  lemma DeliverKeepsLiveBacked(r: Runner, key: Key, records: seq<Record>, floor: int)
    requires Sound(r) && LiveBacked(r, floor) && floor <= r.cfg.channelBuffer / 2
    ensures LiveBacked(Deliver(r, key, records), floor)
    ensures r.pending.None? ==> InTime(Deliver(r, key, records), floor)
  {
    hide LanesSound;
  }

  lemma PauseKeepsLiveBacked(r: Runner, floor: int)
    requires LiveBacked(r, floor) && !PausesLate(r, Pause, floor)
    ensures LiveBacked(PauseBacklog(r), floor)
  {
  }

  lemma RebalanceKeepsLiveBacked(r: Runner, op: Op, floor: int)
    requires PausesExact(r) && LiveBacked(r, floor) && (op.Assigned? || op.Revoked? || op.Cancelled? || op.Stop?)
    ensures LiveBacked(Step(r, op), floor)
  {
    hide ChecksAgain;
  }

  /** A step leaves no live lane stranded, unless it is a late pause. */
  lemma StepKeepsLiveBacked(r: Runner, op: Op, floor: int)
    requires Sound(r) && PausesExact(r) && LiveBacked(r, floor) && 0 <= floor <= r.cfg.channelBuffer / 2
    requires !PausesLate(r, op, floor)
    ensures LiveBacked(Step(r, op), floor)
  {
    hide Deliver, PauseBacklog, Advance, LanesSound, ChecksAgain, LiveBacked;
    match op
    case Fetch(key, records) => DeliverKeepsLiveBacked(r, key, records, floor);
    case Pause => PauseKeepsLiveBacked(r, floor);
    case DeliverAtOnce(key, records) =>
      if r.pending.None? {
        DeliverKeepsLiveBacked(r, key, records, floor);
        PauseKeepsLiveBacked(Deliver(r, key, records), floor);
      }
    case Act(i, a) =>
      if i < |r.lanes| { ActKeepsLiveBacked(r, i, a, floor); }
    case _ => RebalanceKeepsLiveBacked(r, op, floor);
  }

  lemma LatePauseStrandsSome(r: Runner, op: Op)
    requires Sound(r) && PausesExact(r) && PausesLate(r, op, 0)
    ensures r.pending.Some? && Stranded(Step(r, op), r.pending.value)
  {
    LatePauseStrands(r, r.pending.value);
  }

  ghost predicate NeverLate(r: Runner, ops: seq<Op>, floor: int)
    decreases |ops|
  {
    ops == [] || (NeverLate(r, ops[..|ops| - 1], floor)
        && !PausesLate(After(r, ops[..|ops| - 1]), ops[|ops| - 1], floor))
  }

  lemma {:induction false} NeverLateKeepsLiveBacked(r: Runner, ops: seq<Op>, floor: int)
    requires Sound(r) && PausesExact(r) && LiveBacked(r, floor) && 0 <= floor <= r.cfg.channelBuffer / 2
    requires NeverLate(r, ops, floor)
    ensures LiveBacked(After(r, ops), floor) && After(r, ops).cfg == r.cfg
    decreases |ops|
  {
    hide Sound, PausesExact, LiveBacked, Step, PausesLate;
    if ops != [] {
      var before, op := ops[..|ops| - 1], ops[|ops| - 1];
      NeverLateKeepsLiveBacked(r, before, floor);
      RunSound(r, before);
      RunExact(r, before);
      StepKeepsLiveBacked(After(r, before), op, floor);
      StepKeepsConfig(After(r, before), op);
    }
  }

  /** Throughout a run no lane is stranded exactly when the run has no late pause. */
  lemma {:induction false} StrandsExactlyWhenLate(r: Runner, ops: seq<Op>)
    requires Sound(r) && PausesExact(r) && LiveBacked(r, 0)
    ensures NeverLate(r, ops, 0) <==> forall n :: 0 <= n <= |ops| ==> NoneStranded(After(r, ops[..n]))
    decreases |ops|
  {
    hide Sound, PausesExact, LiveBacked, Step, PausesLate, Stranded;
    assert ops[..|ops|] == ops;
    SoundLanes(r);
    if ops == [] {
      LiveBackedStrandsNone(r);
    } else {
      var before, op := ops[..|ops| - 1], ops[|ops| - 1];
      assert forall n :: 0 <= n <= |before| ==> before[..n] == ops[..n];
      StrandsExactlyWhenLate(r, before);
      RunSound(r, before);
      RunExact(r, before);
      if PausesLate(After(r, before), op, 0) {
        LatePauseStrandsSome(After(r, before), op);
        assert After(r, ops) == Step(After(r, before), op);
        assert Stranded(After(r, ops), After(r, before).pending.value);
        assert !NoneStranded(After(r, ops[..|ops|]));
      } else if NeverLate(r, before, 0) {
        NeverLateKeepsLiveBacked(r, ops, 0);
        RunSound(r, ops);
        SoundLanes(After(r, ops));
        LiveBackedStrandsNone(After(r, ops));
      }
    }
  }

  lemma SoundLanes(r: Runner)
    requires Sound(r)
    ensures LanesSound(r) && Sensible(r.cfg)
  {
  }

  /** The run that strands a lane: its only record is popped and checked between the moment the
      poller queues it and the moment the poller pauses the partition. */
  lemma ALateRunStrands(key: Key, record: Record)
    ensures var cfg := Config(1, 1, false);
            var start := Assign(Initial(cfg), {key});
            var ops := [Fetch(key, [record]), Act(0, Pop), Act(0, ResumeIfReady), Pause];
            Stranded(After(start, ops), 0)
  {
    var cfg := Config(1, 1, false);
    var start := Assign(Initial(cfg), {key});
    hide Step, Stranded, Enqueue, After, Advance;
    AfterNothing(start);
    var a, b, c, d := Fetch(key, [record]), Act(0, Pop), Act(0, ResumeIfReady), Pause;
    AfterMore(start, [], a);
    AfterMore(start, [a], b);
    AfterMore(start, [a, b], c);
    AfterMore(start, [a, b, c], d);
    assert [] + [a] == [a] && [a] + [b] == [a, b] && [a, b] + [c] == [a, b, c] && [a, b, c] + [d] == [a, b, c, d];
    SoloFetch(cfg, key, [record]);
    LateCheck(cfg, key, record);
    LatePause(cfg, key, record);
  }

  lemma LatePause(cfg: Config, key: Key, record: Record)
    requires cfg == Config(1, 1, false)
    ensures var l := Enqueue(NewLane(key), [record]);
            Stranded(Step(Solo(cfg, ResumeStep(cfg, PopStep(cfg, l)), Some(0)), Pause), 0)
  {
  }

  lemma LateCheck(cfg: Config, key: Key, record: Record)
    requires cfg == Config(1, 1, false)
    ensures var l := Enqueue(NewLane(key), [record]);
            Step(Step(Solo(cfg, l, Some(0)), Act(0, Pop)), Act(0, ResumeIfReady))
            == Solo(cfg, ResumeStep(cfg, PopStep(cfg, l)), Some(0))
  {
    var l := Enqueue(NewLane(key), [record]);
    SoloStep(cfg, l, Some(0), Pop);
    SoloStep(cfg, PopStep(cfg, l), Some(0), ResumeIfReady);
  }

  lemma AfterNothing(r: Runner)
    ensures After(r, []) == r
  {
  }

  lemma AfterMore(r: Runner, ops: seq<Op>, op: Op)
    ensures After(r, ops + [op]) == Step(After(r, ops), op)
  {
    hide Step;
    assert (ops + [op])[..|ops + [op]| - 1] == ops;
  }
}
