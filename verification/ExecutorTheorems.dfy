/**
 What the executor guarantees in every run of its process, however replies are lost and whatever
 all other processes do in between.
 */
module ExecutorTheorems {
  import opened Prelude
  import opened CommandLedger
  import opened JobTables
  import opened JobDatabase
  import opened JobInvariants
  import opened JobTheorems
  import opened JobReplays
  import opened DispatchGrants
  import opened Handoffs
  import opened E = ExecutorSteps
  import opened ExecutorSafety

  lemma {:induction false} WorldRunSound(w: World, ops: seq<E.Op>)
    requires WorldSound(w)
    ensures WorldSound(E.After(w, ops))
    decreases |ops|
  {
    hide WorldSound, E.Step;
    if ops != [] {
      WorldRunSound(w, ops[..|ops| - 1]);
      WorldStepSound(E.After(w, ops[..|ops| - 1]), ops[|ops| - 1]);
    }
  }

  /** A database that some run leads to, with the process new to it. */
  ghost predicate Begins(w: World) {
    Sound(w.db) && RowsTrue(w.db) && NewProcess(w.db, w.process)
    && w == Start(w.db, w.process, w.worker, w.capacity, w.limit)
  }

  /** Every database that operations lead to from an empty one will do. */
  lemma {:induction false} ReachableRowsTrue(cfg: JobTables.Config, now: Time, ops: seq<JobDatabase.Op>)
    ensures var s := JobDatabase.After(Initial(cfg, now), ops); Sound(s) && RowsTrue(s)
    decreases |ops|
  {
    hide JobDatabase.Step, RowTrue;
    JobInvariants.RunSound(Initial(cfg, now), ops);
    if ops != [] {
      ReachableRowsTrue(cfg, now, ops[..|ops| - 1]);
      StepRowsTrue(JobDatabase.After(Initial(cfg, now), ops[..|ops| - 1]), ops[|ops| - 1]);
    }
  }

  // ---------------------------------------------------------------- one execution

  /** However often a dispatch is redelivered, and whichever replies are lost, this process
      starts it at most once. */
  lemma NeverStartedTwice(w: World, ops: seq<E.Op>, i: nat, k: nat)
    requires Begins(w) && i < k < |E.After(w, ops).started|
    ensures E.After(w, ops).started[i] != E.After(w, ops).started[k]
  {
    hide E.Step;
    StartSound(w.db, w.process, w.worker, w.capacity, w.limit);
    WorldRunSound(w, ops);
  }

  // ---------------------------------------------------------------- slots and permits

  /** Slots are taken exactly by the tasks that hold one, so a task always releases the slot it
      took and never another's; neither slots nor entries exceed their limits. */
  lemma SlotsAndPermits(w: World, ops: seq<E.Op>)
    requires Begins(w)
    ensures var w' := E.After(w, ops);
            && w'.slots == |w'.tasks| && w'.slots <= w'.capacity && |w'.entries| <= w'.limit
            && forall n :: n in w'.tasks ==> 1 <= w'.slots && Done(w', n).slots == w'.slots - 1
  {
    hide E.Step;
    StartSound(w.db, w.process, w.worker, w.capacity, w.limit);
    WorldRunSound(w, ops);
    var w' := E.After(w, ops);
    forall n | n in w'.tasks ensures 1 <= w'.slots {
      Fewer(w'.tasks, n);
    }
  }

  lemma LeaseHasOneEntry(w: World, job: JobId, token: Token, a: CommandId, b: CommandId)
    requires WorldSound(w) && a in Matching(w.entries, job, token) && b in Matching(w.entries, job, token)
    ensures a == b
  {
    hide Sound, RowsTrue, StoredSound, StartedSound, Accounted;
    assert EntrySound(w, a) && EntrySound(w, b);
  }

  /** At most one entry has a given lease, so consuming it removes exactly that one. */
  lemma ConsumeIsExact(w: World, job: JobId, token: Token, after: Entries)
    requires WorldSound(w)
    ensures Consumed(w.entries, job, token, after) <==> after == w.entries - Matching(w.entries, job, token)
  {
    hide WorldSound, Matching;
    var ids := Matching(w.entries, job, token);
    forall a, b | a in ids && b in ids ensures a == b {
      LeaseHasOneEntry(w, job, token, a, b);
    }
    if ids != {} {
      var a :| a in ids;
      assert ids == {a};
    } else {
      assert w.entries - ids == w.entries;
    }
  }

  /** Every placeholder has a task that will resolve it, so no one waits on it in vain. */
  lemma PlaceholdersHaveOwners(w: World, ops: seq<E.Op>, id: CommandId)
    requires Begins(w)
    ensures var w' := E.After(w, ops);
            id in w'.entries && w'.entries[id].state.Claiming? ==> OwnedBy(w', w'.entries[id].serial, id)
  {
    hide E.Step;
    StartSound(w.db, w.process, w.worker, w.capacity, w.limit);
    WorldRunSound(w, ops);
    var w' := E.After(w, ops);
    assert id in w'.entries ==> EntrySound(w', id);
  }

  // ---------------------------------------------------------------- how long a grant is stored

  predicate GrantStored(w: World, id: CommandId) {
    StoresGrant(w.db, w.process, id) && LiveAt(w.db.rows, ClaimKey(w.process, id), w.db.t.now)
  }

  /** The grant is younger than the retention of a claim. */
  predicate Young(w: World, id: CommandId) {
    id in w.grantedAt && w.db.t.now < w.grantedAt[id] + CLIENT_RETENTION
  }

  /** The ledger keeps the grant until its retention ends, and no longer. */
  ghost predicate Dated(w: World, id: CommandId) {
    && id in w.grantedAt
    && (StoresGrant(w.db, w.process, id) ==>
          w.db.rows[ClaimKey(w.process, id)].expiresAt == w.grantedAt[id] + CLIENT_RETENTION)
    && (Young(w, id) ==> StoresGrant(w.db, w.process, id))
  }

  ghost predicate GrantsDated(w: World) {
    forall id :: id in w.granted ==> Dated(w, id)
  }

  /** So a grant is stored, and would be replayed, exactly while it is young. */
  lemma StoredWhileYoung(w: World, id: CommandId)
    requires Dated(w, id)
    ensures GrantStored(w, id) <==> Young(w, id)
  {
  }

  /** Any step of the database, seen from a grant it does not make. */
  lemma DatedStays(w: World, w': World, op: JobDatabase.Op, id: CommandId)
    requires Sound(w.db) && Dated(w, id) && w'.db == JobDatabase.Step(w.db, op) && w'.process == w.process
    requires id in w'.grantedAt && w'.grantedAt[id] == w.grantedAt[id]
    requires StoresGrant(w'.db, w.process, id) ==>
               StoresGrant(w.db, w.process, id)
               && w'.db.rows[ClaimKey(w.process, id)] == w.db.rows[ClaimKey(w.process, id)]
    ensures Dated(w', id)
  {
    hide Sound, Moves, JobDatabase.Step;
    StepSound(w.db, op);
    TimeMoves(w.db.t, w'.db.t);
    if Young(w', id) {
      StepKeepsLiveRow(w.db, op, ClaimKey(w.process, id));
    }
  }

  lemma OnwardDated(w: World, w': World, op: JobDatabase.Op)
    requires DbSound(w) && GrantsDated(w) && Onward(w, w', None) && w'.db == JobDatabase.Step(w.db, op)
    ensures forall id :: id in w.granted ==> Dated(w', id)
  {
    hide Sound, RowsTrue, Moves, JobDatabase.Step, Dated;
    forall id | id in w.granted ensures Dated(w', id) {
      assert Dated(w, id);
      DatedIs(w, id);
      DatedStays(w, w', op, id);
    }
  }

  lemma DatedIs(w: World, id: CommandId)
    requires Dated(w, id)
    ensures id in w.grantedAt
  {
  }

  /** A grant just made is stored for the retention of a claim. */
  lemma NewGrantIsStored(s: Db, c: Command, id: CommandId)
    requires c.Claim? && !LiveAt(s.rows, KeyOf(c, id), s.t.now) && IsGrant(Execute(s, c, id).1)
    ensures var s' := Execute(s, c, id).0;
            StoresGrant(s', c.process, id) && s'.rows[ClaimKey(c.process, id)].expiresAt == s.t.now + CLIENT_RETENTION
  {
    hide ClaimJob;
  }

  lemma CallDated(w: World, id: CommandId, c: Command)
    requires WorldSound(w) && GrantsDated(w) && RequestFor(w, id, c)
    ensures GrantsDated(CallClaim(w, id, c))
  {
    hide Sound, RowsTrue, Moves, Execute, Dated, RegistrySound, StartedSound, Accounted, GrantsSound, StoredSound;
    var w' := CallClaim(w, id, c);
    ExecuteIsStep(w.db, c, id);
    if id in w.granted {
      CallAgain(w, id, c);
      OnwardDated(w, w', Run(c, id));
    } else {
      CallFirst(w, id, c);
      forall x | x in w.granted ensures Dated(w', x) {
        assert Dated(w, x);
        DatedIs(w, x);
        DatedStays(w, w', Run(c, id), x);
      }
      if IsGrant(Execute(w.db, c, id).1) {
        NotLiveFirst(w, id, c);
        NewGrantIsStored(w.db, c, id);
        assert Dated(w', id) by { NewIsDated(w', id); }
      }
    }
  }

  lemma NewIsDated(w: World, id: CommandId)
    requires id in w.grantedAt && StoresGrant(w.db, w.process, id)
    requires w.db.rows[ClaimKey(w.process, id)].expiresAt == w.grantedAt[id] + CLIENT_RETENTION
    ensures Dated(w, id)
  {
  }

  lemma NotLiveFirst(w: World, id: CommandId, c: Command)
    requires DbSound(w) && RequestFor(w, id, c) && id !in w.granted && IsGrant(Execute(w.db, c, id).1)
    ensures !LiveAt(w.db.rows, KeyOf(c, id), w.db.t.now)
  {
    hide Sound, RowsTrue, Execute;
    SettledIs(w.db);
    GrantMeans(w.db, c, id);
  }

  lemma ElsewhereDated(w: World, op: JobDatabase.Op)
    requires WorldSound(w) && GrantsDated(w) && Foreign(w, op)
    ensures GrantsDated(w.(db := JobDatabase.Step(w.db, op)))
  {
    hide Dated, JobDatabase.Step, MovesOn, RegistrySound, StartedSound, Accounted;
    ElsewhereSound(w, op);
    OnwardDated(w, w.(db := JobDatabase.Step(w.db, op)), op);
  }

  lemma ReportDated(w: World, c: Command, id: CommandId, applied: bool, seen: bool)
    requires WorldSound(w) && GrantsDated(w) && Outcome(c)
    ensures GrantsDated(ReportStep(w, c, id, applied, seen))
  {
    hide WorldSound, GrantsDated, JobDatabase.Step, Execute;
    if applied {
      ElsewhereDated(w, Run(c, id));
      ExecuteIsStep(w.db, c, id);
      SameDated(w.(db := Execute(w.db, c, id).0), ReportStep(w, c, id, applied, seen));
    }
  }

  lemma CallStepsDated(w: World, id: CommandId, n: nat, applied: bool, seen: bool)
    requires WorldSound(w) && GrantsDated(w) && id in w.entries
    ensures GrantsDated(AskStep(w, n, id, applied, seen)) && GrantsDated(ProbeStep(w, id, applied, seen))
  {
    hide DbSound, GrantsDated, CallClaim, Execute, StartedSound, Accounted;
    var request := w.entries[id].request;
    assert EntrySound(w, id);
    CallDated(w, id, request);
    var called := if applied then CallClaim(w, id, request) else w;
    SameDated(called, AskStep(w, n, id, applied, seen));
    SameDated(called, ProbeStep(w, id, applied, seen));
  }

  lemma LocalStepsKeepGrants(w: World, op: E.Op)
    requires !op.Elsewhere? && !op.Report? && !op.Ask? && !op.Probe?
    ensures var w' := E.Step(w, op);
            w'.db == w.db && w'.process == w.process && w'.granted == w.granted && w'.grantedAt == w.grantedAt
  {
    hide ResolveRemoved, Activate, MarkAwaiting, RemoveAwaiting, Reserve, CanReserve, Placeholder, Execute;
    match op
    case AcquireSlot =>
    case Abandon(_) =>
    case TryReserve(_, _, _, _, _) =>
    case Settle(_) =>
    case Mark(_) =>
    case Leave(_) =>
    case Evict(_, _) =>
  }

  lemma CallingStepDated(w: World, op: E.Op)
    requires WorldSound(w) && GrantsDated(w) && (op.Ask? || op.Probe?)
    ensures GrantsDated(E.Step(w, op))
  {
    hide WorldSound, GrantsDated, AskStep, ProbeStep;
    match op
    case Ask(n, applied, seen) =>
      if n in w.tasks && w.tasks[n].Reserved? && w.tasks[n].id in w.entries {
        CallStepsDated(w, w.tasks[n].id, n, applied, seen);
      }
    case Probe(id, applied, seen) =>
      if id in w.entries && w.entries[id].state.Awaiting? { CallStepsDated(w, id, 0, applied, seen); }
  }

  lemma StepDated(w: World, op: E.Op)
    requires WorldSound(w) && GrantsDated(w)
    ensures GrantsDated(E.Step(w, op))
  {
    hide WorldSound, GrantsDated, ReportStep, JobDatabase.Step, Foreign;
    if op.Elsewhere? {
      if Foreign(w, op.op) { ElsewhereDated(w, op.op); }
    } else if op.Report? {
      if Outcome(op.c) { ReportDated(w, op.c, op.id, op.applied, op.seen); }
    } else if op.Ask? || op.Probe? {
      CallingStepDated(w, op);
    } else {
      LocalStepsKeepGrants(w, op);
      SameDated(w, E.Step(w, op));
    }
  }

  lemma StartDated(w: World)
    requires w.granted == map[]
    ensures GrantsDated(w)
  {
  }

  lemma {:induction false} RunDated(w: World, ops: seq<E.Op>)
    requires WorldSound(w) && GrantsDated(w)
    ensures GrantsDated(E.After(w, ops))
    decreases |ops|
  {
    hide WorldSound, GrantsDated, E.Step;
    if ops != [] {
      RunDated(w, ops[..|ops| - 1]);
      WorldRunSound(w, ops[..|ops| - 1]);
      StepDated(E.After(w, ops[..|ops| - 1]), ops[|ops| - 1]);
    }
  }

  lemma SameDated(w: World, w': World)
    requires GrantsDated(w) && w'.db == w.db && w'.process == w.process && w'.granted == w.granted
    requires w'.grantedAt == w.grantedAt
    ensures GrantsDated(w')
  {
    forall id | id in w'.granted ensures Dated(w', id) {
      assert Dated(w, id);
    }
  }

  // ---------------------------------------------------------------- what reconciliation is told

  lemma HandedOffIsDated(w: World, id: CommandId)
    requires WorldSound(w) && GrantsDated(w) && HandedOff(w, id)
    ensures id in w.granted && Dated(w, id) && (GrantStored(w, id) <==> Young(w, id))
  {
    hide DbSound, StartedSound, Accounted, Dated, GrantStored, Young;
    assert EntrySound(w, id);
    StoredWhileYoung(w, id);
  }

  lemma AwaitingIsHandedOff(w: World, id: CommandId)
    requires WorldSound(w) && id in w.entries && w.entries[id].state.Awaiting?
    ensures HandedOff(w, id)
  {
    assert EntrySound(w, id);
  }

  /** Within retention, a dismissal of a handed-off command proves that its lease is over. */
  lemma DismissalMeansDead(w: World, id: CommandId)
    requires WorldSound(w) && HandedOff(w, id) && GrantStored(w, id)
    requires Dismisses(Execute(w.db, w.entries[id].request, id).1)
    ensures id in w.granted && Execute(w.db, w.entries[id].request, id).0 == w.db && Dead(w, id, w.granted[id])
  {
    hide Sound, RowsTrue, Execute, LeaseActive, StartedSound, Accounted;
    assert EntrySound(w, id);
    DenialMeans(w.db, w.entries[id].request, id);
  }

  /** A live row of this command was stored for another request. */
  predicate Conflicts(w: World, id: CommandId)
    requires id in w.entries
  {
    var k := ClaimKey(w.process, id);
    LiveAt(w.db.rows, k, w.db.t.now) && w.db.rows[k].hash != RequestOf(w.entries[id].request)
  }

  /** Exactly when reconciliation is told to give up a handoff whose lease is active: when its grant
      is no younger than the retention of claims and its command conflicts with nothing stored. */
  lemma GivesUpActiveLeaseExactly(w: World, id: CommandId)
    requires WorldSound(w) && GrantsDated(w) && HandedOff(w, id)
    requires id in w.granted && !Dead(w, id, w.granted[id])
    ensures Dismisses(Execute(w.db, w.entries[id].request, id).1) <==> !Young(w, id) && !Conflicts(w, id)
  {
    hide Sound, RowsTrue, StartedSound, Accounted, Execute, RequestOf, GrantsDated;
    assert EntrySound(w, id);
    HandedOffIsDated(w, id);
    if !LiveAt(w.db.rows, ClaimKey(w.process, id), w.db.t.now) {
      RunningIsDenied(w.db, w.entries[id].request, id);
    } else if StoresGrant(w.db, w.process, id) {
      if Dismisses(Execute(w.db, w.entries[id].request, id).1) {
        DismissalMeansDead(w, id);
      }
    } else {
      StoredDenial(w.db, w.entries[id].request, id);
    }
  }

  /** A stored denial is replayed to its request, and any other request conflicts with it. */
  lemma StoredDenial(s: Db, c: Command, id: CommandId)
    requires Sound(s) && RowsTrue(s) && c.Claim? && LiveAt(s.rows, KeyOf(c, id), s.t.now)
    requires !StoresGrant(s, c.process, id)
    ensures Dismisses(Execute(s, c, id).1) <==> s.rows[KeyOf(c, id)].hash == RequestOf(c)
  {
    hide LeaseActive, TablesSound;
    var row := s.rows[KeyOf(c, id)];
    assert RowTrue(s.t, KeyOf(c, id), row);
    MeetsAlone(row.hash, RequestOf(c));
  }

  /** A fresh claim of a running job is dismissed. */
  lemma RunningIsDenied(s: Db, c: Command, id: CommandId)
    requires c.Claim? && !LiveAt(s.rows, KeyOf(c, id), s.t.now)
    requires c.job in s.t.jobs && s.t.jobs[c.job].status.Running?
    ensures Dismisses(Execute(s, c, id).1)
  {
  }

  lemma DenialChangesNoTable(s: Db, c: Command, id: CommandId)
    requires c.Claim? && c.job in s.t.jobs && s.t.jobs[c.job].status.Running?
    ensures Execute(s, c, id).0.t == s.t
  {
  }

  // ---------------------------------------------------------------- handoffs and leases

  /** A started command is in the registry, or its lease is over; and an eviction is allowed
      only when the lease is over. */
  ghost predicate HandoffsCover(w: World) {
    && (forall id :: id in w.started ==> HandedOff(w, id) || (id in w.granted && Dead(w, id, w.granted[id])))
    && (forall v :: v in w.verdicts ==> v.0 in w.granted && Dead(w, v.0, w.granted[v.0]))
  }

  /** Reconciliation asks, and is answered, about a handoff whose lease is active, whose grant is no
      younger than the retention of claims, and whose command conflicts with nothing stored. */
  predicate AsksTooLate(w: World, op: E.Op) {
    op.Probe? && op.applied && op.seen && op.id in w.entries && w.entries[op.id].state.Awaiting?
    && op.id in w.granted && !Dead(w, op.id, w.granted[op.id]) && !Young(w, op.id) && !Conflicts(w, op.id)
  }

  ghost predicate Timely(w: World, ops: seq<E.Op>)
    decreases |ops|
  {
    ops == []
    || (Timely(w, ops[..|ops| - 1]) && !AsksTooLate(E.After(w, ops[..|ops| - 1]), ops[|ops| - 1]))
  }

  lemma CoverMovesOn(w: World, w': World, own: Option<CommandId>)
    requires WorldSound(w) && HandoffsCover(w) && Onward(w, w', own)
    ensures HandoffsCover(w')
  {
    hide Dead, MovesOn, RegistrySound, Accounted;
    forall id | id in w.granted && Dead(w, id, w.granted[id]) ensures Dead(w', id, w.granted[id]) {
      DeadStays(w, w', own, id, w.granted[id]);
    }
  }

  /** A claim call, whoever made it, ends no handoff and revives no lease. */
  lemma CallCovers(w: World, id: CommandId, c: Command)
    requires WorldSound(w) && HandoffsCover(w) && RequestFor(w, id, c)
    ensures HandoffsCover(CallClaim(w, id, c))
  {
    hide WorldSound, HandoffsCover, CallClaim, MovesOn;
    WorldParts(w);
    if id in w.granted {
      CallAgain(w, id, c);
      CoverMovesOn(w, CallClaim(w, id, c), None);
    } else {
      CallFirst(w, id, c);
      CoverMovesOn(w, CallClaim(w, id, c), Some(id));
    }
  }

  lemma WorldParts(w: World)
    requires WorldSound(w)
    ensures DbSound(w) && RegistrySound(w) && StartedSound(w)
  {
  }

  /** Without a change of the database, of the started commands or of the verdicts. */
  lemma CoverKeeps(w: World, w': World)
    requires HandoffsCover(w) && SameDb(w, w')
    requires forall id :: id in w'.started ==> id in w.started || HandedOff(w', id)
    requires forall id :: id in w.started && HandedOff(w, id) ==>
               HandedOff(w', id) || (id in w.granted && Dead(w, id, w.granted[id]))
    requires forall v :: v in w'.verdicts ==> v in w.verdicts || (v.0 in w.granted && Dead(w, v.0, w.granted[v.0]))
    ensures HandoffsCover(w')
  {
    hide LeaseActive;
  }

  lemma AskCovers(w: World, n: nat, id: CommandId, applied: bool, seen: bool)
    requires WorldSound(w) && HandoffsCover(w) && n in w.tasks && w.tasks[n] == Reserved(id) && id in w.entries
    ensures HandoffsCover(AskStep(w, n, id, applied, seen))
  {
    hide DbSound, Dead, CallClaim, Execute, HandoffsCover, StartedSound, Accounted;
    assert EntrySound(w, id);
    CallCovers(w, id, w.entries[id].request);
    CallSound(w, id, w.entries[id].request);
    var called := if applied then CallClaim(w, id, w.entries[id].request) else w;
    CoverKeeps(called, AskStep(w, n, id, applied, seen));
  }

  lemma SettleCovers(w: World, n: nat, id: CommandId, reply: Result<Response>)
    requires WorldSound(w) && HandoffsCover(w) && n in w.tasks && w.tasks[n] == Replied(id, reply)
    ensures HandoffsCover(SettleStep(w, n, id, reply))
  {
    hide DbSound, Dead, HandoffsCover, StartedSound, Accounted;
    assert TaskSound(w, n) && EntrySound(w, id);
    CoverKeeps(w, SettleStep(w, n, id, reply));
  }

  lemma ReportCovers(w: World, c: Command, id: CommandId, applied: bool, seen: bool)
    requires WorldSound(w) && HandoffsCover(w) && Outcome(c)
    ensures HandoffsCover(ReportStep(w, c, id, applied, seen))
  {
    hide Sound, RowsTrue, Dead, HandoffsCover, Execute, Over, GrantsSound, StoredSound, MovesOn;
    if applied {
      ElsewhereSound(w, Run(c, id));
      ExecuteIsStep(w.db, c, id);
      var called := w.(db := Execute(w.db, c, id).0);
      CoverMovesOn(w, called, None);
      var w' := ReportStep(w, c, id, applied, seen);
      if seen && Execute(w.db, c, id).1.Success? {
        OutcomeMeansOver(w.db, c, id);
        forall x | x in Matching(w.entries, c.job, c.token) ensures x in called.granted && Dead(called, x, called.granted[x]) {
          assert EntrySound(called, x);
          OutcomeCloses(called, x, c.job, c.token);
        }
        CoverKeeps(called, w');
      }
    }
  }

  lemma ProbeCovers(w: World, id: CommandId, applied: bool, seen: bool)
    requires WorldSound(w) && GrantsDated(w) && HandoffsCover(w) && id in w.entries && w.entries[id].state.Awaiting?
    requires !AsksTooLate(w, Probe(id, applied, seen))
    ensures HandoffsCover(ProbeStep(w, id, applied, seen))
  {
    hide Execute, DbSound, Dead, HandoffsCover, CallClaim, GrantsDated, Young, Conflicts, StartedSound, Accounted;
    assert EntrySound(w, id);
    var request := w.entries[id].request;
    CallCovers(w, id, request);
    CallSound(w, id, request);
    var called := if applied then CallClaim(w, id, request) else w;
    if applied && seen && Dismisses(Execute(w.db, request, id).1) {
      AwaitingIsHandedOff(w, id);
      if !Dead(w, id, w.granted[id]) { GivesUpActiveLeaseExactly(w, id); }
      DeadAfterCall(w, id, request);
    }
    CoverKeeps(called, ProbeStep(w, id, applied, seen));
  }

  lemma DeadAfterCall(w: World, id: CommandId, c: Command)
    requires WorldSound(w) && RequestFor(w, id, c) && id in w.granted && Dead(w, id, w.granted[id])
    ensures var w' := CallClaim(w, id, c); id in w'.granted && Dead(w', id, w'.granted[id])
  {
    hide Dead, CallClaim, MovesOn, RegistrySound, StartedSound, Accounted;
    CallAgain(w, id, c);
    DeadStays(w, CallClaim(w, id, c), None, id, w.granted[id]);
  }

  /** Asking too late leaves a verdict against an active lease. */
  lemma AskingTooLateUncovers(w: World, op: E.Op)
    requires WorldSound(w) && GrantsDated(w) && AsksTooLate(w, op)
    ensures !HandoffsCover(E.Step(w, op))
  {
    hide DbSound, Execute, GrantsDated, Young, Conflicts, StartedSound, Accounted;
    var id := op.id;
    var request := w.entries[id].request;
    assert EntrySound(w, id);
    AwaitingIsHandedOff(w, id);
    GivesUpActiveLeaseExactly(w, id);
    DenialChangesNoTable(w.db, request, id);
    var v := (id, w.entries[id].serial);
    assert v in E.Step(w, op).verdicts;
    assert !Dead(E.Step(w, op), v.0, E.Step(w, op).granted[v.0]);
  }

  lemma StepCovers(w: World, op: E.Op)
    requires WorldSound(w) && GrantsDated(w) && HandoffsCover(w) && !AsksTooLate(w, op)
    ensures HandoffsCover(E.Step(w, op))
  {
    hide WorldSound, GrantsDated, HandoffsCover, MovesOn, JobDatabase.Step, AsksTooLate, Dead, AskStep, ProbeStep, ReportStep, SettleStep;
    match op
    case Elsewhere(o) =>
      if Foreign(w, o) {
        ElsewhereSound(w, o);
        CoverMovesOn(w, E.Step(w, op), None);
      }
    case Ask(n, applied, seen) =>
      if n in w.tasks && w.tasks[n].Reserved? && w.tasks[n].id in w.entries {
        AskCovers(w, n, w.tasks[n].id, applied, seen);
      }
    case Settle(n) =>
      if n in w.tasks && w.tasks[n].Replied? { SettleCovers(w, n, w.tasks[n].id, w.tasks[n].reply); }
    case Report(c, id, applied, seen) => if Outcome(c) { ReportCovers(w, c, id, applied, seen); }
    case Probe(id, applied, seen) =>
      if id in w.entries && w.entries[id].state.Awaiting? {
        ProbeCovers(w, id, applied, seen);
      }
    case Evict(id, serial) => EvictCovers(w, id, serial);
    case _ => CoverKeeps(w, E.Step(w, op));
  }

  lemma EvictCovers(w: World, id: CommandId, serial: nat)
    requires HandoffsCover(w)
    ensures HandoffsCover(E.Step(w, Evict(id, serial)))
  {
    hide LeaseActive;
  }

  lemma {:induction false} RunCovers(w: World, ops: seq<E.Op>)
    requires WorldSound(w) && GrantsDated(w) && HandoffsCover(w) && Timely(w, ops)
    ensures HandoffsCover(E.After(w, ops))
    decreases |ops|
  {
    hide WorldSound, GrantsDated, HandoffsCover, E.Step;
    if ops != [] {
      RunCovers(w, ops[..|ops| - 1]);
      WorldRunSound(w, ops[..|ops| - 1]);
      RunDated(w, ops[..|ops| - 1]);
      StepCovers(E.After(w, ops[..|ops| - 1]), ops[|ops| - 1]);
    }
  }

  /** Throughout a run every started command is registered or has lost its lease, and no verdict
      stands against an active lease, exactly when reconciliation never asks too late. */
  lemma {:induction false} HandoffsCoverExactly(w: World, ops: seq<E.Op>)
    requires WorldSound(w) && GrantsDated(w) && HandoffsCover(w)
    ensures Timely(w, ops) <==> forall n :: 0 <= n <= |ops| ==> HandoffsCover(E.After(w, ops[..n]))
    decreases |ops|
  {
    hide WorldSound, GrantsDated, HandoffsCover, E.Step, AsksTooLate;
    assert ops[..|ops|] == ops;
    if ops != [] {
      var before, op := ops[..|ops| - 1], ops[|ops| - 1];
      assert forall n :: 0 <= n <= |before| ==> before[..n] == ops[..n];
      HandoffsCoverExactly(w, before);
      WorldRunSound(w, before);
      RunDated(w, before);
      assert before[..|before|] == before;
      if AsksTooLate(E.After(w, before), op) {
        AskingTooLateUncovers(E.After(w, before), op);
      } else if HandoffsCover(E.After(w, before)) {
        StepCovers(E.After(w, before), op);
      }
    }
  }

  /** As long as reconciliation does not ask too late, a handoff leaves the registry only when its
      lease is no longer active, even when the reply that ended it was lost: whatever was started
      and still holds its lease is still registered. */
  lemma HandoffsOutliveLeases(w: World, ops: seq<E.Op>, id: CommandId)
    requires Begins(w) && Timely(w, ops)
    requires var w' := E.After(w, ops); id in w'.started && id in w'.granted && !Dead(w', id, w'.granted[id])
    ensures HandedOff(E.After(w, ops), id)
  {
    hide E.Step;
    StartSound(w.db, w.process, w.worker, w.capacity, w.limit);
    RunCovers(w, ops);
  }

  // ---------------------------------------------------------------- reconciliation

  /** Reconciliation gives an awaiting entry up exactly when its claim is answered, and the answer is that
      the job is not found or a denial; a grant, any other error and silence keep it. */
  lemma GivesUpExactly(w: World, id: CommandId, applied: bool, seen: bool)
    requires id in w.entries && w.entries[id].state == Awaiting
    ensures var w', e := E.Step(w, Probe(id, applied, seen)), w.entries[id];
            var reply := Execute(w.db, e.request, id).1;
            var over := match reply
                        case Failure(code) => code == NotFound
                        case Success(response) => !response.Granted?;
            && w'.verdicts == w.verdicts + (if applied && seen && over then {(id, e.serial)} else {})
            && w'.entries == w.entries && w'.started == w.started && w'.tasks == w.tasks && w'.slots == w.slots
            && w'.db == if applied then Execute(w.db, e.request, id).0 else w.db
  {
    hide Execute;
  }

  /** An eviction removes this very entry, and only while it is given up and awaiting. */
  lemma EvictsExactly(w: World, id: CommandId, serial: nat)
    ensures var w' := E.Step(w, Evict(id, serial));
            w' == if (id, serial) in w.verdicts && id in w.entries && w.entries[id].serial == serial
                     && w.entries[id].state == Awaiting
                  then w.(entries := w.entries - {id}) else w
  {
  }

  /** A reported outcome that is applied and seen to succeed removes exactly the entries of its lease; an
      outcome that is lost or refused removes none. */
  lemma ReportsExactly(w: World, c: Command, id: CommandId, applied: bool, seen: bool, x: CommandId)
    requires Outcome(c)
    ensures var w' := E.Step(w, Report(c, id, applied, seen));
            && (x in w'.entries <==>
                  x in w.entries
                  && !(applied && seen && Execute(w.db, c, id).1.Success?
                       && w.entries[x].claim.Some? && w.entries[x].claim.value.job == c.job
                       && w.entries[x].claim.value.token == c.token))
            && (x in w'.entries ==> w'.entries[x] == w.entries[x])
            && w'.db == (if applied then Execute(w.db, c, id).0 else w.db)
            && w'.slots == w.slots && w'.tasks == w.tasks && w'.started == w.started && w'.verdicts == w.verdicts
  {
    hide Execute;
  }

  /** A slot is taken while there is one, and given back when a goroutine ends. */
  lemma SlotsMoveExactly(w: World, n: nat)
    ensures var w' := E.Step(w, AcquireSlot);
            w' == if w.slots < w.capacity
                  then w.(slots := w.slots + 1, tasks := w.tasks[w.next := Holding], next := w.next + 1) else w
    ensures forall op :: op in {Abandon(n), Leave(n)} ==>
              E.Step(w, op) == if n in w.tasks && w.tasks[n] == (if op == Leave(n) then Leaving else Holding)
                               then w.(tasks := w.tasks - {n}, slots := if 1 <= w.slots then w.slots - 1 else 0) else w
    ensures E.Step(w, Mark(n)) ==
              if n in w.tasks && w.tasks[n].Running? then
                var id := w.tasks[n].id;
                w.(tasks := w.tasks[n := Leaving],
                   entries := if id in w.entries && w.entries[id].state == Active
                              then w.entries[id := w.entries[id].(state := Awaiting)] else w.entries)
              else w
  {
  }
}
