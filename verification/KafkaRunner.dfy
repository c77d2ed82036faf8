/**
 The partition runner's objects and their critical sections
 (internal/pkg/kafka/partition_runner.go), proved against the steps of PartitionLanes.

 A lane's goroutine state and its history are ghost fields: the code keeps them in the local
 variables of its loops, which are not objects.
 */
module KafkaRunner {
  import opened Prelude
  import opened L = PartitionLanes
  import opened PartitionSafety

  function KeySet(keys: seq<Key>): (r: set<Key>) {
    set k | k in keys
  }

  class PartitionLane {
    const id: LaneId
    const key: Key
    var canceled: bool
    var notified: bool
    var queue: seq<Record>
    var backlogPaused: bool
    var retryPaused: bool
    ghost var phase: Phase
    ghost var inflight: seq<Record>
    ghost var enqueued: seq<Record>
    ghost var accepted: seq<Record>
    ghost var committed: seq<Record>

    constructor (id: LaneId, key: Key)
      ensures this.id == id && this.key == key && View() == NewLane(key)
    {
      this.id, this.key := id, key;
      canceled, notified, queue, backlogPaused, retryPaused := false, false, [], false, false;
      phase, inflight, enqueued, accepted, committed := Popping, [], [], [], [];
    }

    ghost function View(): (l: Lane)
      reads this
    {
      Lane(key, canceled, notified, queue, backlogPaused, retryPaused, phase, inflight, enqueued, accepted, committed)
    }

    method Enqueue(records: seq<Record>) returns (queued: nat)
      modifies this
      ensures View() == L.Enqueue(old(View()), records) && queued == |queue|
    {
      queue := queue + records;
      notified := true;
      enqueued := enqueued + records;
      return |queue|;
    }

    method SetReason(reason: Reason, value: bool) returns (wasPaused: bool, isPaused: bool)
      modifies this`backlogPaused, this`retryPaused
      ensures View() == L.SetPaused(old(View()), reason, value)
      ensures wasPaused == Flagged(old(View())) && isPaused == Flagged(View())
    {
      wasPaused := backlogPaused || retryPaused;
      match reason {
        case Backlog => backlogPaused := value;
        case Retry => retryPaused := value;
      }
      isPaused := backlogPaused || retryPaused;
    }

    /** Where the goroutine is, and its history; no other object changes. */
    ghost method Proceed(phase: Phase, inflight: seq<Record>, accepted: seq<Record>, committed: seq<Record>)
      modifies this`phase, this`inflight, this`accepted, this`committed
      ensures View() == old(View()).(phase := phase, inflight := inflight, accepted := accepted, committed := committed)
    {
      this.phase, this.inflight, this.accepted, this.committed := phase, inflight, accepted, committed;
    }

    /** The critical section at the head of pop: take the first record, or find none. */
    method TryPop(ghost cfg: Config) returns (record: Option<Record>)
      requires phase.Popping?
      modifies this
      ensures View() == PopStep(cfg, old(View()))
      ensures record == if old(queue) == [] then None else Some(old(queue)[0])
    {
      if 0 < |queue| {
        record := Some(queue[0]);
        inflight := queue[..1];
        queue := queue[1..];
        phase := if cfg.batchSize <= 1 then Popped else Filling;
        return;
      }
      phase := Waiting;
      return None;
    }

    method Drain(cfg: Config, have: nat) returns (records: seq<Record>)
      requires phase.Filling? && have == |inflight|
      modifies this
      ensures View() == DrainStep(cfg, old(View())) && inflight == old(inflight) + records
    {
      var limit := cfg.batchSize - have;
      records := [];
      if 0 < limit && 0 < |queue| {
        if |queue| < limit {
          limit := |queue|;
        }
        records := queue[..limit];
        queue := queue[limit..];
      }
      ghost var empty := old(queue) == [];
      inflight := inflight + records;
      phase := if !cfg.fillWait || cfg.batchSize <= |inflight| then Popped else if empty then FillWaiting else Filling;
    }
  }

  class PartitionRunner {
    const cfg: Config
    var assignment: set<Key>
    var known: bool
    var lanes: map<Key, PartitionLane>
    var paused: set<Key>                 // the client's paused partitions
    ghost var all: seq<PartitionLane>    // every lane ever created
    ghost var done: bool
    ghost var stopped: bool
    ghost var pending: Option<LaneId>
    var nextId: LaneId

    /** Lanes are numbered by their place among all lanes, so they are distinct objects. */
    ghost predicate Valid()
      reads this
    {
      && nextId == |all|
      && (forall i :: 0 <= i < |all| ==> all[i].id == i)
      && (forall key :: key in lanes ==> lanes[key] in all && lanes[key].key == key)
    }

    ghost function View(): (r: Runner)
      reads this, all
      ensures r.cfg == cfg && |r.lanes| == |all| && r.owners.Keys == lanes.Keys
      ensures r.pending == pending && r.stopped == stopped
      ensures Valid() ==> forall key :: key in r.owners ==> r.owners[key] < |r.lanes|
    {
      Runner(cfg, assignment, known, map key | key in lanes :: lanes[key].id,
             seq(|all|, i requires 0 <= i < |all| reads this, all => all[i].View()),
             paused, done, stopped, pending)
    }

    constructor (channelBuffer: int, batchSize: int, fillWait: bool)
      ensures Valid() && View() == Initial(NewConfig(channelBuffer, batchSize, fillWait)) && fresh(all)
    {
      cfg := NewConfig(channelBuffer, batchSize, fillWait);
      assignment, known, lanes, paused, nextId := {}, false, map[], {}, 0;
      all, done, stopped, pending := [], false, false, None;
    }

    predicate OwnsLane(lane: PartitionLane)
      reads this
    {
      (known ==> lane.key in assignment) && lane.key in lanes && lanes[lane.key] == lane
    }

    /** Two lanes are the same object exactly when they have the same number. */
    lemma OwnsByNumber(lane: PartitionLane)
      requires Valid() && lane in all
      ensures OwnsLane(lane) <==> Owns(View(), lane.id)
      ensures lane.id < |all| && all[lane.id] == lane && View().lanes[lane.id] == lane.View()
    {
    }

    method SetPaused(lane: PartitionLane, reason: Reason, value: bool)
      requires Valid() && lane in all
      modifies this`paused, lane`backlogPaused, lane`retryPaused
      ensures Valid()
      ensures View() == Update(old(View()), lane.id, L.SetPaused(old(lane.View()), reason, value))
      ensures lane.View() == L.SetPaused(old(lane.View()), reason, value)
    {
      OwnsByNumber(lane);
      var wasPaused, isPaused := lane.SetReason(reason, value);
      if wasPaused != isPaused && OwnsLane(lane) {
        paused := if isPaused then paused + {lane.key} else paused - {lane.key};
      }
      assert View().lanes == old(View().lanes)[lane.id := lane.View()];
    }

    method LaneFor(key: Key) returns (lane: Option<PartitionLane>)
      requires Valid() && !stopped
      modifies this`lanes, this`all, this`nextId
      ensures Valid()
      ensures lane.Some? <==> Accepts(old(View()), key)
      ensures lane.None? ==> View() == old(View())
      ensures lane.Some? ==> View() == L.LaneFor(old(View()), key) && lane.value in all
      ensures lane.Some? ==> key in View().owners && View().owners[key] == lane.value.id
      ensures forall l :: l in all ==> l in old(all) || fresh(l)
      ensures forall l :: l in old(all) ==> l in all
    {
      if known && key !in assignment {
        return None;
      }
      if key in lanes {
        return Some(lanes[key]);
      }
      var made := new PartitionLane(nextId, key);
      ghost var before := all;
      all := all + [made];
      nextId := nextId + 1;
      lanes := lanes[key := made];
      assert View().lanes == old(View().lanes) + [NewLane(key)];
      assert View().owners == old(View().owners)[key := |before|];
      return Some(made);
    }

    method EnqueueTo(lane: PartitionLane, records: seq<Record>) returns (queued: nat)
      requires Valid() && lane in all
      modifies lane
      ensures Valid() && lane.id < |all|
      ensures View() == old(View()).(lanes := old(View()).lanes[lane.id := L.Enqueue(old(lane.View()), records)])
      ensures lane.View() == L.Enqueue(old(lane.View()), records) && queued == |lane.View().queue|
    {
      OwnsByNumber(lane);
      queued := lane.Enqueue(records);
      assert View().lanes == old(View().lanes)[lane.id := lane.View()];
    }

    /** One partition of a fetch, delivered and paused in one step. */
    method DispatchPartition(key: Key, records: seq<Record>)
      requires Valid() && !stopped && pending.None? && records != []
      modifies this, all
      ensures Valid() && View() == PauseBacklog(Deliver(old(View()), key, records))
    {
      hide View, Update, L.Enqueue, L.SetPaused, PauseBacklog, Deliver;
      WholeDelivery(View(), key, records);
      var lane := LaneFor(key);
      if lane.None? {
        return;
      }
      OwnsByNumber(lane.value);
      var queued := EnqueueTo(lane.value, records);
      if cfg.channelBuffer <= queued {
        SetPaused(lane.value, Backlog, true);
      }
    }

    // ---- processing and committing

    /** Pauses or resumes for the retry reason, if at all, and lets the goroutine proceed. */
    ghost method Proceed(lane: PartitionLane, phase: Phase, inflight: seq<Record>, accepted: seq<Record>,
                         committed: seq<Record>)
      requires Valid() && lane in all
      modifies lane`phase, lane`inflight, lane`accepted, lane`committed
      ensures Valid() && lane.id < |all|
      ensures lane.View() == old(lane.View()).(phase := phase, inflight := inflight, accepted := accepted,
                                               committed := committed)
      ensures View() == old(View()).(lanes := old(View()).lanes[lane.id := lane.View()])
    {
      OwnsByNumber(lane);
      lane.Proceed(phase, inflight, accepted, committed);
      assert View().lanes == old(View().lanes)[lane.id := lane.View()];
    }

    /** The processor has answered; a first retryable answer pauses the partition. */
    method Judge(lane: PartitionLane, answer: Code, paused: bool) returns (accepted: bool)
      requires Valid() && lane in all && lane.phase.Processing? && lane.phase.retrying == paused
      modifies this`paused, lane
      ensures Valid() && lane.id < |all| && accepted == ShouldCommitOnError(answer)
      ensures lane.View() == ProcessStep(old(lane.View()), answer)
      ensures View() == Update(old(View()), lane.id, lane.View())
    {
      hide View, ShouldCommitOnError, Update;
      ghost var r, l := View(), lane.View();
      OwnsByNumber(lane);
      Unchanged(r, lane.id);
      accepted := ShouldCommitOnError(answer);
      if accepted {
        Proceed(lane, Committing(false, lane.phase.retrying), lane.inflight, lane.accepted + lane.inflight, lane.committed);
        QuietUpdate(r, lane.id, lane.View());
      } else if !paused {
        SetPaused(lane, Retry, true);
        ghost var flagged := lane.View();
        Proceed(lane, Processing(true), lane.inflight, lane.accepted, lane.committed);
        UpdateThenProceed(r, lane.id, flagged, lane.View());
      }
    }

    /** One attempt to commit: only the owner may, and a first failure pauses the partition. */
    method TryCommit(lane: PartitionLane, works: bool, paused: bool) returns (owns: bool)
      requires Valid() && lane in all && lane.phase.Committing? && lane.phase.recommitting == paused
      modifies this`paused, lane
      ensures Valid() && lane.id < |all| && owns == old(OwnsLane(lane))
      ensures lane.View() == CommitStep(old(lane.View()), works, owns)
      ensures View() == Update(old(View()), lane.id, lane.View())
    {
      hide View, Update;
      ghost var r, l := View(), lane.View();
      OwnsByNumber(lane);
      Unchanged(r, lane.id);
      owns := OwnsLane(lane);
      if !owns {
        Proceed(lane, Unwinding(lane.phase.recommitting, lane.phase.retrying, true), lane.inflight, lane.accepted,
                lane.committed);
        QuietUpdate(r, lane.id, lane.View());
      } else if works {
        Proceed(lane, Unwinding(lane.phase.recommitting, lane.phase.retrying, false), [], lane.accepted,
                lane.committed + lane.inflight);
        QuietUpdate(r, lane.id, lane.View());
      } else if !paused {
        SetPaused(lane, Retry, true);
        ghost var flagged := lane.View();
        Proceed(lane, Committing(true, lane.phase.retrying), lane.inflight, lane.accepted, lane.committed);
        UpdateThenProceed(r, lane.id, flagged, lane.View());
      }
    }

    /** The deferred resumes: of the commit loop if it paused, then of the processing loop. */
    method Finish(lane: PartitionLane, recommitting: bool, retrying: bool, stopping: bool)
      requires Valid() && lane in all && lane.phase == Unwinding(recommitting, retrying, stopping)
      requires Agrees(View(), lane.id)
      modifies this`paused, lane
      ensures Valid() && lane.id < |all|
      ensures lane.View() == Unwound(old(lane.View()))
      ensures View() == Update(old(View()), lane.id, lane.View())
    {
      hide View, Update, Agrees;
      ghost var r := View();
      OwnsByNumber(lane);
      Unchanged(r, lane.id);
      if recommitting {
        SetPaused(lane, Retry, false);
      }
      ghost var l := lane.View();
      if retrying {
        SetPaused(lane, Retry, false);
        UpdateTwice(r, lane.id, l, lane.View());
      }
      l := lane.View();
      Proceed(lane, if stopping then Stopped else Popping, lane.inflight, lane.accepted, lane.committed);
      UpdateThenProceed(r, lane.id, l, lane.View());
    }

    /** The processing loop: retries in place until an answer is final. */
    method ProcessUntilFinal(lane: PartitionLane, answers: seq<Code>) returns (accepted: bool, paused: bool)
      requires Valid() && lane in all && lane.phase == Processing(false) && !lane.retryPaused
      requires Agrees(View(), lane.id)
      modifies this`paused, lane
      ensures Valid() && lane.id < |all|
      ensures accepted <==> exists k :: 0 <= k < |answers| && answers[k] !in ASK_AGAIN
      ensures paused <==> answers != [] && answers[0] in ASK_AGAIN
      ensures var l := old(lane.View());
              lane.View() == if accepted then l.(phase := Committing(false, paused), retryPaused := paused,
                                                 accepted := l.accepted + l.inflight)
                             else l.(phase := Processing(paused), retryPaused := paused)
      ensures View() == Update(old(View()), lane.id, lane.View())
    {
      hide View, Update, Agrees, ShouldCommitOnError;
      FinalAnswers();
      ghost var r, l := View(), lane.View();
      OwnsByNumber(lane);
      Unchanged(r, lane.id);
      accepted, paused := false, false;
      var n := 0;
      while !accepted && n < |answers|
        invariant Valid() && lane in all && lane.id < |r.lanes| && n <= |answers|
        invariant View() == Update(r, lane.id, lane.View())
        invariant accepted <==> exists k :: 0 <= k < n && answers[k] !in ASK_AGAIN
        invariant paused <==> 0 < n && answers[0] in ASK_AGAIN
        invariant lane.View() == if accepted then l.(phase := Committing(false, paused), retryPaused := paused,
                                                     accepted := l.accepted + l.inflight)
                                 else l.(phase := Processing(paused), retryPaused := paused)
      {
        ghost var before := lane.View();
        accepted := Judge(lane, answers[n], paused);
        UpdateTwice(r, lane.id, before, lane.View());
        paused := paused || !accepted;
        n := n + 1;
      }
    }

    /** Retries until a commit works, but only while the lane owns its partition. */
    method CommitLoop(lane: PartitionLane, outcomes: seq<bool>) returns (done: bool, paused: bool)
      requires Valid() && lane in all && lane.phase.Committing? && !lane.phase.recommitting
      requires lane.retryPaused == lane.phase.retrying && Agrees(View(), lane.id)
      modifies this`paused, lane
      ensures Valid() && lane.id < |all|
      ensures done <==> old(OwnsLane(lane)) && true in outcomes
      ensures paused <==> old(OwnsLane(lane)) && outcomes != [] && !outcomes[0]
      ensures lane.View() == if done then CommitDone(old(lane.View()), paused) else CommitFailed(old(lane.View()), paused)
      ensures View() == Update(old(View()), lane.id, lane.View())
    {
      hide View, Update, Agrees;
      ghost var r, l := View(), lane.View();
      OwnsByNumber(lane);
      Unchanged(r, lane.id);
      done, paused := false, false;
      var n, owns := 0, OwnsLane(lane);
      while !done && owns && n < |outcomes|
        invariant Valid() && lane in all && lane.id < |r.lanes| && n <= |outcomes| && owns == old(OwnsLane(lane)) == OwnsLane(lane)
        invariant View() == Update(r, lane.id, lane.View())
        invariant done <==> owns && true in outcomes[..n]
        invariant paused <==> owns && 0 < n && !outcomes[0]
        invariant lane.View() == if done then CommitDone(l, paused) else CommitFailed(l, paused)
      {
        ghost var before := lane.View();
        owns := TryCommit(lane, outcomes[n], paused);
        UpdateTwice(r, lane.id, before, lane.View());
        done := outcomes[n];
        paused := paused || !done;
        n := n + 1;
      }
      assert outcomes[..|outcomes|] == outcomes;
    }

    method Commit(lane: PartitionLane, outcomes: seq<bool>) returns (done: bool, paused: bool)
      requires Valid() && lane in all && lane.phase.Committing? && !lane.phase.recommitting
      requires lane.retryPaused == lane.phase.retrying && Agrees(View(), lane.id)
      modifies this`paused, lane
      ensures Valid() && lane.id < |all|
      ensures done <==> old(OwnsLane(lane)) && true in outcomes
      ensures var l := old(lane.View());
              lane.View() == if done then CommitDone(l, paused)
                             else CommitFailed(l, paused).(phase := Unwinding(paused, l.phase.retrying, true))
      ensures View() == Update(old(View()), lane.id, lane.View())
    {
      hide View, Update, Agrees;
      ghost var r := View();
      OwnsByNumber(lane);
      done, paused := CommitLoop(lane, outcomes);
      if !done {
        ghost var before := lane.View();
        GiveUp(lane, paused);
        UpdateTwice(r, lane.id, before, lane.View());
      }
    }

    /** The lane was cancelled, or does not own its partition. */
    ghost method GiveUp(lane: PartitionLane, recommitting: bool)
      requires Valid() && lane in all
      requires lane.phase.Processing? || (lane.phase.Committing? && lane.phase.recommitting == recommitting)
      requires lane.phase.Processing? ==> !recommitting
      modifies lane`phase, lane`inflight, lane`accepted, lane`committed
      ensures Valid() && lane.id < |all|
      ensures lane.View() == old(lane.View()).(phase := Unwinding(recommitting, old(lane.phase).retrying, true))
      ensures View() == Update(old(View()), lane.id, lane.View())
    {
      hide View, Update;
      ghost var r := View();
      OwnsByNumber(lane);
      Unchanged(r, lane.id);
      Proceed(lane, Unwinding(recommitting, lane.phase.retrying, true), lane.inflight, lane.accepted, lane.committed);
      UpdateThenProceed(r, lane.id, r.lanes[lane.id], lane.View());
    }

    /** Processes and commits the lane's batch while nothing else runs. `answers` are the
        processor's and `outcomes` the commits'; when they run out, the wait is cancelled. The lane
        goes on exactly when some answer is final, some commit works and the lane owns its
        partition. Whatever happened, no retry pause is left and the client is as before. */
    method ProcessAndCommit(lane: PartitionLane, answers: seq<Code>, outcomes: seq<bool>) returns (done: bool)
      requires Valid() && lane in all && lane.phase == Processing(false) && !lane.retryPaused
      requires Agrees(View(), lane.id)
      modifies this`paused, lane
      ensures Valid() && lane.id < |all|
      ensures done <==> old(OwnsLane(lane)) && true in outcomes && exists k :: 0 <= k < |answers| && answers[k] !in ASK_AGAIN
      ensures var l := old(lane.View());
              lane.View() == if done then l.(phase := Popping, inflight := [], accepted := l.accepted + l.inflight,
                                             committed := l.committed + l.inflight)
                             else l.(phase := Stopped, accepted := AcceptedBy(l, answers))
      ensures View() == old(View()).(lanes := old(View()).lanes[lane.id := lane.View()])
    {
      hide View, Update, Agrees, ShouldCommitOnError, Unwound;
      ghost var r := View();
      OwnsByNumber(lane);
      var recommitting, paused;
      done, recommitting, paused := ProcessThenCommit(lane, answers, outcomes);
      ghost var before := lane.View();
      UpdateAgrees(r, lane.id, before);
      Finish(lane, recommitting, paused, !done);
      UnwoundIs(before);
      UpdateTwice(r, lane.id, before, lane.View());
      QuietUpdate(r, lane.id, lane.View());
    }

    method ProcessThenCommit(lane: PartitionLane, answers: seq<Code>, outcomes: seq<bool>)
      returns (done: bool, recommitting: bool, paused: bool)
      requires Valid() && lane in all && lane.phase == Processing(false) && !lane.retryPaused
      requires Agrees(View(), lane.id)
      modifies this`paused, lane
      ensures Valid() && lane.id < |all|
      ensures done <==> old(OwnsLane(lane)) && true in outcomes && exists k :: 0 <= k < |answers| && answers[k] !in ASK_AGAIN
      ensures var l := old(lane.View());
              lane.View() == l.(phase := Unwinding(recommitting, paused, !done), retryPaused := recommitting || paused,
                                inflight := if done then [] else l.inflight,
                                accepted := AcceptedBy(l, answers),
                                committed := if done then l.committed + l.inflight else l.committed)
      ensures View() == Update(old(View()), lane.id, lane.View())
    {
      hide View, Update, Agrees, ShouldCommitOnError;
      ghost var r := View();
      OwnsByNumber(lane);
      var accepted;
      accepted, paused := ProcessUntilFinal(lane, answers);
      ghost var before := lane.View();
      UpdateAgrees(r, lane.id, before);
      done, recommitting := false, false;
      if accepted {
        done, recommitting := Commit(lane, outcomes);
      } else {
        GiveUp(lane, false);
      }
      UpdateTwice(r, lane.id, before, lane.View());
    }

    method ResumeFetchPartitions(keys: set<Key>)
      requires Valid()
      modifies this`paused
      ensures Valid() && View() == old(View()).(paused := old(View()).paused - keys)
    {
      paused := paused - keys;
      assert View().lanes == old(View().lanes);
    }

    /** Cancels and forgets the lane of one partition. */
    method Detach(key: Key)
      requires Valid()
      modifies this`lanes, all
      ensures Valid() && View() == DetachKey(old(View()), key) && lanes == old(lanes) - {key}
      ensures all == old(all)
    {
      if key in lanes {
        var lane := lanes[key];
        OwnsByNumber(lane);
        lane.canceled := true;
        lanes := lanes - {key};
        assert View().lanes == Cancel(old(View()), {key});
      } else {
        assert Cancel(old(View()), {key}) == View().lanes;
        assert lanes - {key} == lanes;
      }
      assert View().owners == old(View().owners) - {key};
    }

    method Assign(partitions: seq<Key>)
      requires Valid()
      modifies this`assignment, this`known, this`paused
      ensures Valid() && View() == L.Assign(old(View()), KeySet(partitions))
    {
      var resume: set<Key> := {};
      for i := 0 to |partitions|
        invariant resume == KeySet(partitions[..i]) - lanes.Keys
        invariant known == old(known) && paused == old(paused)
        invariant assignment == old(assignment) + KeySet(partitions[..i])
      {
        var key := partitions[i];
        assert KeySet(partitions[..i + 1]) == KeySet(partitions[..i]) + {key};
        if key !in lanes {
          resume := resume + {key};
        }
        assignment := assignment + {key};
      }
      assert partitions[..|partitions|] == partitions;
      known := true;
      assert View().lanes == old(View().lanes) && View().owners == old(View().owners);
      ResumeFetchPartitions(resume);
    }

    method RevokeOne(key: Key)
      requires Valid()
      modifies this`assignment, this`lanes, all
      ensures Valid() && all == old(all)
      ensures var r := DetachKey(old(View()), key); View() == r.(assignment := r.assignment - {key})
    {
      Detach(key);
      ghost var detached := View();
      assignment := assignment - {key};
      assert View().lanes == detached.lanes;
    }

    method Revoke(partitions: seq<Key>)
      requires Valid()
      modifies this`assignment, this`lanes, this`paused, all
      ensures Valid() && View() == L.Revoke(old(View()), KeySet(partitions))
    {
      hide View, Cancel;
      ghost var before := View();
      var resume: set<Key> := {};
      RevokeNone(before);
      for i := 0 to |partitions|
        invariant Valid() && all == old(all) && resume == KeySet(partitions[..i])
        invariant View() == L.Revoke(before, resume).(paused := before.paused)
      {
        var key := partitions[i];
        RevokeMore(before, resume, key);
        RevokeOne(key);
        resume := resume + {key};
      }
      assert partitions[..|partitions|] == partitions;
      ResumeFetchPartitions(resume);
    }

    ghost method MarkStopped()
      requires Valid()
      modifies this`stopped
      ensures Valid() && View() == old(View()).(stopped := true)
    {
      stopped := true;
      assert View().lanes == old(View().lanes);
    }

    method StopAll()
      requires Valid() && pending.None?
      modifies this`lanes, this`stopped, all
      ensures Valid() && View() == L.StopAll(old(View()))
    {
      hide View, Cancel, DetachKeys;
      ghost var before, gone := View(), {};
      DetachNone(before);
      var keys := lanes.Keys;
      while keys != {}
        invariant Valid() && all == old(all) && keys == before.owners.Keys - gone
        invariant View() == DetachKeys(before, gone)
        decreases keys
      {
        var key :| key in keys;
        DetachMore(before, gone, key);
        Detach(key);
        keys := keys - {key};
        gone := gone + {key};
      }
      StopDetached(before, gone);
      MarkStopped();
    }
  }

  // ---------------------------------------------------------------- one partition at a time

  function DetachKeys(r: Runner, keys: set<Key>): (r': Runner) {
    r.(lanes := Cancel(r, keys), owners := r.owners - keys)
  }

  function DetachKey(r: Runner, key: Key): (r': Runner) {
    DetachKeys(r, {key})
  }

  lemma DetachNone(r: Runner)
    ensures DetachKeys(r, {}) == r
  {
    assert Cancel(r, {}) == r.lanes && r.owners - {} == r.owners;
  }

  lemma DetachMore(r: Runner, keys: set<Key>, key: Key)
    ensures DetachKey(DetachKeys(r, keys), key) == DetachKeys(r, keys + {key})
  {
    assert Cancel(DetachKeys(r, keys), {key}) == Cancel(r, keys + {key});
    assert (r.owners - keys) - {key} == r.owners - (keys + {key});
  }

  lemma Unchanged(r: Runner, i: LaneId)
    requires i < |r.lanes|
    ensures Update(r, i, r.lanes[i]) == r
  {
    assert r.lanes[i := r.lanes[i]] == r.lanes;
  }

  lemma QuietUpdate(r: Runner, i: LaneId, l: Lane)
    requires i < |r.lanes| && l.key == r.lanes[i].key && Flagged(l) == Flagged(r.lanes[i])
    ensures Update(r, i, l) == r.(lanes := r.lanes[i := l])
  {
  }

  lemma UpdateThenProceed(r: Runner, i: LaneId, l: Lane, l': Lane)
    requires i < |r.lanes| && l.key == r.lanes[i].key && l'.key == l.key && Flagged(l') == Flagged(l)
    ensures var r' := Update(r, i, l); r'.(lanes := r'.lanes[i := l']) == Update(r, i, l')
  {
    assert r.lanes[i := l][i := l'] == r.lanes[i := l'];
  }

  /** What the lane has accepted when some answer was final, or none was. */
  function AcceptedBy(l: Lane, answers: seq<Code>): (records: seq<Record>) {
    if exists k :: 0 <= k < |answers| && answers[k] !in ASK_AGAIN then l.accepted + l.inflight else l.accepted
  }

  function CommitDone(l: Lane, paused: bool): (l': Lane)
    requires l.phase.Committing?
  {
    l.(phase := Unwinding(paused, l.phase.retrying, false), retryPaused := paused || l.retryPaused,
       inflight := [], committed := l.committed + l.inflight)
  }

  function CommitFailed(l: Lane, paused: bool): (l': Lane)
    requires l.phase.Committing?
  {
    l.(phase := Committing(paused, l.phase.retrying), retryPaused := paused || l.retryPaused)
  }

  /** After the deferred resumes. */
  function Unwound(l: Lane): (l': Lane) {
    match l.phase
    case Unwinding(recommitting, retrying, stopping) =>
      l.(retryPaused := l.retryPaused && !recommitting && !retrying, phase := if stopping then Stopped else Popping)
    case _ => l
  }

  lemma UnwoundIs(l: Lane)
    requires l.phase.Unwinding?
    ensures Unwound(l) == l.(retryPaused := l.retryPaused && !l.phase.recommitting && !l.phase.retrying,
                             phase := if l.phase.stopping then Stopped else Popping)
  {
  }

  lemma UnwoundStepByStep(l: Lane)
    requires l.phase.Unwinding?
    ensures UnwindStep(UnwindStep(UnwindStep(l))) == Unwound(l)
  {
    var Unwinding(recommitting, retrying, stopping) := l.phase;
    if recommitting {
      assert UnwindStep(l) == l.(retryPaused := false, phase := Unwinding(false, retrying, stopping));
      UnwoundFromTwo(UnwindStep(l));
    } else {
      UnwoundFromTwo(l);
      assert !Unwound(l).phase.Unwinding?;
    }
  }

  lemma UnwoundFromTwo(l: Lane)
    requires l.phase.Unwinding? && !l.phase.recommitting
    ensures UnwindStep(UnwindStep(l)) == Unwound(l)
  {
    if l.phase.retrying {
      assert UnwindStep(l) == l.(retryPaused := false, phase := Unwinding(false, false, l.phase.stopping));
    } else {
      assert UnwindStep(l) == Unwound(l) && !Unwound(l).phase.Unwinding?;
    }
  }

  /** The client has an owned lane's partition paused exactly for the lane's reasons. */
  predicate Agrees(r: Runner, i: LaneId) {
    Owns(r, i) ==> (r.lanes[i].key in r.paused <==> Flagged(r.lanes[i]))
  }

  lemma UpdateTwice(r: Runner, i: LaneId, l: Lane, l': Lane)
    requires i < |r.lanes| && l.key == r.lanes[i].key && l'.key == l.key && Agrees(r, i)
    ensures Update(Update(r, i, l), i, l') == Update(r, i, l')
  {
    var once := Update(r, i, l);
    assert r.lanes[i := l][i := l'] == r.lanes[i := l'];
    assert Owns(once, i) == Owns(r, i);
    assert l.key in r.paused ==> r.paused + {l.key} == r.paused && r.paused - {l.key} + {l.key} == r.paused;
    assert l.key !in r.paused ==> r.paused - {l.key} == r.paused && r.paused + {l.key} - {l.key} == r.paused;
    assert r.paused + {l.key} - {l.key} == r.paused - {l.key} && r.paused - {l.key} + {l.key} == r.paused + {l.key};
  }

  lemma UpdateAgrees(r: Runner, i: LaneId, l: Lane)
    requires i < |r.lanes| && l.key == r.lanes[i].key && Agrees(r, i)
    ensures Agrees(Update(r, i, l), i)
  {
  }

  function Pushed(r: Runner, i: LaneId, records: seq<Record>): (r': Runner)
    requires i < |r.lanes|
  {
    var l := L.Enqueue(r.lanes[i], records);
    var with := r.(lanes := r.lanes[i := l]);
    if r.cfg.channelBuffer <= |l.queue| then Update(with, i, L.SetPaused(l, Backlog, true)) else with
  }

  /** A delivery in one step makes the lane if need be, and pushes. */
  lemma WholeDelivery(r: Runner, key: Key, records: seq<Record>)
    requires !r.stopped && r.pending.None? && records != []
    requires key in r.owners ==> r.owners[key] < |r.lanes|
    ensures PauseBacklog(Deliver(r, key, records)) ==
              if !Accepts(r, key) then r
              else var with := L.LaneFor(r, key); Pushed(with, with.owners[key], records)
  {
  }

  lemma StopDetached(r: Runner, gone: set<Key>)
    requires r.owners.Keys <= gone && r.pending.None?
    ensures DetachKeys(r, gone).(stopped := true) == L.StopAll(r)
  {
    assert Cancel(r, gone) == Cancel(r, r.owners.Keys);
    assert r.owners - gone == map[];
  }

  lemma RevokeNone(r: Runner)
    ensures L.Revoke(r, {}) == r
  {
    DetachNone(r);
    assert r.assignment - {} == r.assignment && r.paused - {} == r.paused;
  }

  lemma RevokeMore(r: Runner, keys: set<Key>, key: Key)
    ensures var r' := DetachKey(L.Revoke(r, keys).(paused := r.paused), key);
            r'.(assignment := r'.assignment - {key}) == L.Revoke(r, keys + {key}).(paused := r.paused)
  {
    DetachMore(r, keys, key);
    assert Cancel(L.Revoke(r, keys).(paused := r.paused), {key}) == Cancel(DetachKeys(r, keys), {key});
    assert (r.assignment - keys) - {key} == r.assignment - (keys + {key});
  }
}
