/**
 No dispatch is lost: a record of the dispatch topic is acknowledged only when its dispatch is
 over (processRecord in internal/repository/executor/executor.go with the commit policy of
 internal/pkg/kafka/commit_policy.go).
 */
module DispatchDelivery {
  import opened Prelude
  import opened JobTables
  import opened JobDatabase
  import opened JobInvariants
  import opened DispatchGrants
  import opened ClaimAnswers
  import opened ExecutorSafety
  import opened ExecutorWorker
  import E = ExecutorSteps
  import K = PartitionLanes
  import S = PartitionSafety

  /** The process reserves only dispatches that it read from the topic: ones that were inserted
      into the outbox, with their job's workflow. */
  ghost predicate ReadsTopic(w: E.World, op: E.Op) {
    op.TryReserve? ==>
      && Dispatched(op.job, op.dispatch) in w.db.t.inserted
      && op.job in w.db.t.jobs && w.db.t.jobs[op.job].workflow == op.workflow
  }

  ghost predicate Delivers(w: E.World, ops: seq<E.Op>)
    decreases |ops|
  {
    ops == [] || (Delivers(w, ops[..|ops| - 1]) && ReadsTopic(E.After(w, ops[..|ops| - 1]), ops[|ops| - 1]))
  }

  ghost predicate EntriesDelivered(w: E.World) {
    forall id :: id in w.entries ==> w.entries[id].request.Claim? && Delivered(w.db.t, w.entries[id].request)
  }

  /** The process has stored answers only about dispatches that are over, and waits for answers only
      about ones that happened. */
  ghost predicate Settling(w: E.World) {
    AnswersSettle(w.db, w.process) && EntriesDelivered(w)
  }

  lemma InsertedIsDelivered(w: E.World, op: E.Op)
    requires WorldSound(w) && op.TryReserve? && ReadsTopic(w, op)
    ensures Delivered(w.db.t, Claim(op.job, op.workflow, w.worker, w.process, op.duration, op.dispatch))
  {
    assert Caused(w.db.t.jobs, Dispatched(op.job, op.dispatch));
  }

  lemma EntriesStayDelivered(w: E.World, w': E.World)
    requires EntriesDelivered(w) && Moves(w.db.t, w'.db.t)
    requires forall id :: id in w'.entries ==> id in w.entries && w'.entries[id].request == w.entries[id].request
    ensures EntriesDelivered(w')
  {
    hide Moves, Delivered;
    forall id | id in w'.entries ensures Delivered(w'.db.t, w'.entries[id].request) {
      DeliveredStays(w.db.t, w'.db.t, w.entries[id].request);
    }
  }

  lemma CallSettles(w: E.World, id: CommandId)
    requires WorldSound(w) && Settling(w) && id in w.entries
    ensures var w' := E.CallClaim(w, id, w.entries[id].request);
            Settling(w') && Moves(w.db.t, w'.db.t)
  {
    hide Sound, RowsTrue, Moves, Execute, Delivered, Closed, AnswersSettle;
    assert EntrySound(w, id);
    var c := w.entries[id].request;
    ExecuteSound(w.db, c, id);
    ExecuteIsStep(w.db, c, id);
    DeliveredHappened(w.db.t, c);
    StepKeepsSettled(w.db, Run(c, id), w.process);
    EntriesStayDelivered(w, E.CallClaim(w, id, c));
  }

  lemma MovesNowhere(t: Tables)
    ensures Moves(t, t)
  {
  }

  /** The database moves by a step of its own that is no claim of this process. */
  lemma ElsewhereSettles(w: E.World, op: Op, w': E.World)
    requires WorldSound(w) && Settling(w) && E.Foreign(w, op)
    requires w'.db == Step(w.db, op) && w'.process == w.process
    requires forall id :: id in w'.entries ==> id in w.entries && w'.entries[id] == w.entries[id]
    ensures Settling(w')
  {
    hide WorldSound, Moves, Delivered, AnswersSettle, Step, Sound, RowsTrue;
    WorldDb(w);
    StepSound(w.db, op);
    StepKeepsSettled(w.db, op, w.process);
    EntriesStayDelivered(w, w');
  }

  lemma ReportSettles(w: E.World, c: Command, id: CommandId, applied: bool, seen: bool)
    requires WorldSound(w) && Settling(w) && Outcome(c)
    ensures Settling(E.ReportStep(w, c, id, applied, seen))
  {
    hide WorldSound, Settling, Execute;
    if applied {
      ExecuteIsStep(w.db, c, id);
      ElsewhereSettles(w, Run(c, id), E.ReportStep(w, c, id, applied, seen));
    }
  }

  /** Nothing in the database changes, and no entry is new. */
  lemma QuietSettles(w: E.World, w': E.World)
    requires Settling(w) && w'.db == w.db && w'.process == w.process
    requires forall id :: id in w'.entries ==> id in w.entries && w'.entries[id].request == w.entries[id].request
    ensures Settling(w')
  {
    hide Delivered, AnswersSettle;
  }

  lemma ReserveSettles(w: E.World, n: nat, request: Command)
    requires Settling(w) && request.Claim? && Delivered(w.db.t, request)
    ensures Settling(E.TryReserveStep(w, n, request))
  {
    hide Delivered, AnswersSettle;
  }

  lemma StepKeepsSettling(w: E.World, op: E.Op)
    requires WorldSound(w) && Settling(w) && ReadsTopic(w, op)
    ensures Settling(E.Step(w, op))
  {
    hide WorldSound, Settling, ReadsTopic, Delivered, E.TryReserveStep, E.ReportStep, E.AskStep, E.ProbeStep,
      E.SettleStep, Step, E.Foreign;
    match op
    case Elsewhere(o) =>
      if E.Foreign(w, o) { ElsewhereSettles(w, o, w.(db := Step(w.db, o))); }
    case Report(c, id, applied, seen) =>
      if Outcome(c) { ReportSettles(w, c, id, applied, seen); }
    case Ask(n, applied, seen) =>
      if n in w.tasks && w.tasks[n].Reserved? && w.tasks[n].id in w.entries { AskSettles(w, n, applied, seen); }
    case Probe(id, applied, seen) =>
      if id in w.entries { ProbeSettles(w, id, applied, seen); }
    case TryReserve(n, job, workflow, duration, dispatch) =>
      InsertedIsDelivered(w, op);
      ReserveSettles(w, n, Claim(job, workflow, w.worker, w.process, duration, dispatch));
    case Settle(n) =>
      if n in w.tasks && w.tasks[n].Replied? { SettleSettles(w, n); }
    case _ => QuietSettles(w, E.Step(w, op));
  }

  lemma SettleSettles(w: E.World, n: nat)
    requires Settling(w) && n in w.tasks && w.tasks[n].Replied?
    ensures Settling(E.SettleStep(w, n, w.tasks[n].id, w.tasks[n].reply))
  {
    hide Settling;
    QuietSettles(w, E.SettleStep(w, n, w.tasks[n].id, w.tasks[n].reply));
  }

  lemma AskSettles(w: E.World, n: nat, applied: bool, seen: bool)
    requires WorldSound(w) && Settling(w) && n in w.tasks && w.tasks[n].Reserved? && w.tasks[n].id in w.entries
    ensures Settling(E.AskStep(w, n, w.tasks[n].id, applied, seen))
  {
    hide WorldSound, Settling, E.CallClaim, Execute;
    var id := w.tasks[n].id;
    CallSettles(w, id);
    CallKeepsRest(w, id);
    QuietSettles(if applied then E.CallClaim(w, id, w.entries[id].request) else w, E.AskStep(w, n, id, applied, seen));
  }

  lemma ProbeSettles(w: E.World, id: CommandId, applied: bool, seen: bool)
    requires WorldSound(w) && Settling(w) && id in w.entries
    ensures Settling(E.ProbeStep(w, id, applied, seen))
  {
    hide WorldSound, Settling, E.CallClaim, Execute;
    CallSettles(w, id);
    CallKeepsRest(w, id);
    QuietSettles(if applied then E.CallClaim(w, id, w.entries[id].request) else w, E.ProbeStep(w, id, applied, seen));
  }

  lemma CallKeepsRest(w: E.World, id: CommandId)
    requires id in w.entries
    ensures var w' := E.CallClaim(w, id, w.entries[id].request); w'.entries == w.entries && w'.process == w.process
  {
    hide Execute;
  }

  lemma WorldDb(w: E.World)
    requires WorldSound(w)
    ensures Sound(w.db) && RowsTrue(w.db)
  {
  }

  lemma {:induction false} RunSettles(w: E.World, ops: seq<E.Op>)
    requires WorldSound(w) && Settling(w) && Delivers(w, ops)
    ensures WorldSound(E.After(w, ops)) && Settling(E.After(w, ops))
    decreases |ops|
  {
    hide WorldSound, Settling, E.Step, ReadsTopic;
    if ops != [] {
      RunSettles(w, ops[..|ops| - 1]);
      WorldStepSound(E.After(w, ops[..|ops| - 1]), ops[|ops| - 1]);
      StepKeepsSettling(E.After(w, ops[..|ops| - 1]), ops[|ops| - 1]);
    }
  }

  // ---------------------------------------------------------------- acknowledgement

  /** A registered command that is no longer being claimed was granted, so its dispatch is over. */
  lemma RegisteredIsOver(w: E.World, id: CommandId)
    requires WorldSound(w) && id in w.entries && !w.entries[id].state.Claiming?
    ensures id.ClaimOf? && Spent(w.db.t, id.job, id.dispatch)
  {
    assert EntrySound(w, id);
  }

  /** Issuing a token for the call fails only with Internal. Then, in every run, the answer to a
      record that was read from the topic acknowledges it only when its dispatch is over; and when
      its claim is made and answered, exactly then. */
  lemma AcknowledgedIsOver(
    w: E.World, job: JobId, workflow: WorkflowId, duration: Time, dispatch: nat, serial: nat, fate: CallFate)
    requires WorldSound(w) && Settling(w) && fate.auth in {OK, Internal}
    requires ReadsTopic(w, E.TryReserve(0, job, workflow, duration, dispatch))
    ensures var id, c := ClaimOf(w.process, job, dispatch), Claim(job, workflow, w.worker, w.process, duration, dispatch);
            var flow := HandOff(w.db, w.entries, w.limit, serial, id, c, fate);
            && (K.ShouldCommitOnError(flow.code) ==> Spent(flow.db.t, job, dispatch))
            && (Answered(fate) && id !in w.entries && |w.entries| < w.limit ==>
                  (K.ShouldCommitOnError(flow.code) <==> Spent(flow.db.t, job, dispatch)))
            && (flow.code in S.ASK_AGAIN <==> !K.ShouldCommitOnError(flow.code))
  {
    hide WorldSound, Settling, Execute, Spent;
    var id, c := ClaimOf(w.process, job, dispatch), Claim(job, workflow, w.worker, w.process, duration, dispatch);
    InsertedIsDelivered(w, E.TryReserve(0, job, workflow, duration, dispatch));
    NotClaimed(w.db, w.entries, w.limit, serial, id, c, fate);
    if fate.auth.OK? && id in w.entries && !w.entries[id].state.Claiming? {
      RegisteredIsOver(w, id);
    } else if fate.auth.OK? && id !in w.entries && |w.entries| < w.limit {
      WorldDb(w);
      SettlingAnswers(w);
      AnswerSettles(w.db, c, id);
      Claimed(w.db, w.entries, w.limit, serial, id, c, fate);
    }
  }

  lemma SettlingAnswers(w: E.World)
    requires Settling(w)
    ensures AnswersSettle(w.db, w.process)
  {
  }

  /** From a process that has just started, over every run. */
  lemma NoDispatchIsLost(
    db: Db, process: ProcessId, worker: WorkerId, capacity: nat, limit: nat, ops: seq<E.Op>, job: JobId,
    workflow: WorkflowId, duration: Time, dispatch: nat, serial: nat, fate: CallFate)
    requires Sound(db) && RowsTrue(db) && E.NewProcess(db, process)
    requires Delivers(E.Start(db, process, worker, capacity, limit), ops) && fate.auth in {OK, Internal}
    requires ReadsTopic(E.After(E.Start(db, process, worker, capacity, limit), ops),
                        E.TryReserve(0, job, workflow, duration, dispatch))
    ensures var w := E.After(E.Start(db, process, worker, capacity, limit), ops);
            var id, c := ClaimOf(w.process, job, dispatch), Claim(job, workflow, w.worker, w.process, duration, dispatch);
            var flow := HandOff(w.db, w.entries, w.limit, serial, id, c, fate);
            flow.code !in S.ASK_AGAIN ==>
              job in flow.db.t.jobs
              && (dispatch < flow.db.t.jobs[job].dispatchAttempts
                  || (dispatch == flow.db.t.jobs[job].dispatchAttempts && !flow.db.t.jobs[job].status.Queued?))
  {
    hide WorldSound, Sound, RowsTrue, HandOff, ReadsTopic;
    var start := E.Start(db, process, worker, capacity, limit);
    StartSound(db, process, worker, capacity, limit);
    RunSettles(start, ops);
    AcknowledgedIsOver(E.After(start, ops), job, workflow, duration, dispatch, serial, fate);
  }
}
