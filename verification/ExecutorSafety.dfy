/**
 The joint invariant of the executor's registry and the job database: a dispatch is executed at
 most once by the process that claimed it, and its handoff is dropped only when its lease is
 over, as long as the stored claim has not expired.
 */
module ExecutorSafety {
  import opened Prelude
  import opened CommandLedger
  import opened JobTables
  import opened JobDatabase
  import opened JobInvariants
  import opened JobTheorems
  import opened DispatchGrants
  import opened Handoffs
  import opened E = ExecutorSteps

  // ---------------------------------------------------------------- the database's side

  predicate StoresGrant(s: Db, process: ProcessId, id: CommandId) {
    ClaimKey(process, id) in s.rows && s.rows[ClaimKey(process, id)].Completed?
    && s.rows[ClaimKey(process, id)].response.Granted?
  }

  /** The database moves on; the only claim of this process that it may grant is `own`. */
  ghost predicate MovesOn(a: Db, b: Db, process: ProcessId, own: Option<CommandId>) {
    && Sound(b) && RowsTrue(b) && Moves(a.t, b.t)
    && forall id :: StoresGrant(b, process, id) && own != Some(id) ==>
         StoresGrant(a, process, id) && b.rows[ClaimKey(process, id)] == a.rows[ClaimKey(process, id)]
  }

  lemma StepMovesOn(s: Db, op: JobDatabase.Op, process: ProcessId)
    requires Sound(s) && RowsTrue(s)
    ensures var own := if op.Run? && op.c.Claim? && op.c.process == process then Some(op.id) else None;
            MovesOn(s, JobDatabase.Step(s, op), process, own)
  {
    hide Sound, Moves, RowTrue, JobDatabase.Step, Mutate, RequestOf;
    StepSound(s, op);
    StepRowsTrue(s, op);
    var s', own := JobDatabase.Step(s, op), if op.Run? && op.c.Claim? && op.c.process == process then Some(op.id) else None;
    SettledIs(s);
    forall id | StoresGrant(s', process, id) && own != Some(id)
      ensures StoresGrant(s, process, id) && s'.rows[ClaimKey(process, id)] == s.rows[ClaimKey(process, id)]
    {
      RowsComeFrom(s, op, ClaimKey(process, id));
    }
  }

  lemma SettledIs(s: Db)
    requires Sound(s)
    ensures Settled(s.rows)
  {
  }

  /** The reply to a claim of a command this process knows it was granted. */
  lemma KnownGrant(s: Db, c: Command, id: CommandId)
    requires Sound(s) && RowsTrue(s) && c.Claim? && Spent(s.t, c.job, c.dispatch)
    ensures IsGrant(Execute(s, c, id).1) ==>
              && Execute(s, c, id).0 == s && StoresGrant(s, c.process, id)
              && LiveAt(s.rows, ClaimKey(c.process, id), s.t.now)
              && Execute(s, c, id).1.value.grant.token == s.rows[ClaimKey(c.process, id)].response.grant.token
              && Execute(s, c, id).1.value.grant.job == c.job && Execute(s, c, id).1.value.grant.dispatch == c.dispatch
              && LeaseActive(s.t, c.job, Execute(s, c, id).1.value.grant.token, c.worker, c.process, c.dispatch)
    ensures StoresGrant(Execute(s, c, id).0, c.process, id) ==>
              StoresGrant(s, c.process, id)
              && Execute(s, c, id).0.rows[ClaimKey(c.process, id)] == s.rows[ClaimKey(c.process, id)]
  {
    hide Execute, LeaseActive, Sound;
    if IsGrant(Execute(s, c, id).1) {
      GrantMeans(s, c, id);
    }
    SpentIsRefused(s.t, c, id);
    SettledIs(s);
    if StoresGrant(Execute(s, c, id).0, c.process, id) {
      RowsComeFrom(s, Run(c, id), ClaimKey(c.process, id));
    }
  }

  /** The reply to a claim of a command this process was never granted. */
  lemma FirstGrant(s: Db, c: Command, id: CommandId)
    requires Sound(s) && RowsTrue(s) && c.Claim? && !StoresGrant(s, c.process, id)
    ensures var (s', reply) := Execute(s, c, id);
            if IsGrant(reply) then
              && reply.value.grant.job == c.job && reply.value.grant.dispatch == c.dispatch
              && reply.value.grant.token == s.t.nextToken < s'.t.nextToken && Spent(s'.t, c.job, c.dispatch)
              && (StoresGrant(s', c.process, id) ==>
                    s'.rows[ClaimKey(c.process, id)].response.grant.token == reply.value.grant.token)
            else !StoresGrant(s', c.process, id)
  {
    hide LeaseActive, Sound, Mutate, RequestOf;
    SettledIs(s);
    if IsGrant(Execute(s, c, id).1) {
      GrantMeans(s, c, id);
    }
    if StoresGrant(Execute(s, c, id).0, c.process, id) {
      RowsComeFrom(s, Run(c, id), ClaimKey(c.process, id));
      FreshReply(s, c, id);
    }
  }

  lemma FreshReply(s: Db, c: Command, id: CommandId)
    requires c.Claim? && !LiveAt(s.rows, KeyOf(c, id), s.t.now) && Mutate(s.t, c, id).Success?
    ensures Execute(s, c, id).1 == Success(Mutate(s.t, c, id).value.1)
  {
    hide Mutate;
  }

  // ---------------------------------------------------------------- the joint invariant

  /** The lease of this command's grant is not active. */
  predicate Dead(w: World, id: CommandId, token: Token) {
    id.ClaimOf? && !LeaseActive(w.db.t, id.job, token, w.worker, w.process, id.dispatch)
  }

  ghost predicate GrantsSound(w: World) {
    && (forall id :: id in w.granted ==>
          id.ClaimOf? && id.process == w.process && Spent(w.db.t, id.job, id.dispatch)
          && w.granted[id] < w.db.t.nextToken)
    && (forall a, b :: a in w.granted && b in w.granted && w.granted[a] == w.granted[b] ==> a == b)
  }

  /** Every stored grant of this process is the first one. */
  ghost predicate StoredSound(w: World) {
    forall id :: StoresGrant(w.db, w.process, id) ==>
      id in w.granted && w.db.rows[ClaimKey(w.process, id)].response.grant.token == w.granted[id]
  }

  predicate Known(w: World, id: CommandId, grant: Grant) {
    id in w.granted && grant.token == w.granted[id] && id == ClaimOf(w.process, grant.job, grant.dispatch)
  }

  /** No later call with this command can be granted: its stored grant is gone, or it is dead. */
  ghost predicate Closed(w: World, id: CommandId) {
    id in w.granted && id.ClaimOf?
    && (StoresGrant(w.db, w.process, id) && LiveAt(w.db.rows, ClaimKey(w.process, id), w.db.t.now) ==>
          Dead(w, id, w.granted[id]))
  }

  predicate HandedOff(w: World, id: CommandId) {
    id in w.entries && w.entries[id].claim.Some?
  }

  predicate RequestFor(w: World, id: CommandId, c: Command) {
    c.Claim? && c.process == w.process && c.worker == w.worker && id == ClaimOf(w.process, c.job, c.dispatch)
  }

  predicate OwnedBy(w: World, n: nat, id: CommandId) {
    n in w.tasks && ((w.tasks[n].Reserved? && w.tasks[n].id == id) || (w.tasks[n].Replied? && w.tasks[n].id == id))
  }

  ghost predicate EntrySound(w: World, id: CommandId)
    requires id in w.entries
  {
    var e := w.entries[id];
    && RequestFor(w, id, e.request) && e.serial < w.next
    && (e.state.Claiming? <==> e.claim.None?)
    && (e.claim.Some? ==> Known(w, id, e.claim.value) && id in w.started)
    && (e.claim.None? ==> OwnedBy(w, e.serial, id))
  }

  ghost predicate TaskSound(w: World, n: nat)
    requires n in w.tasks
  {
    n < w.next
    && match w.tasks[n]
       case Reserved(id) => Placeholder(w.entries, id, n)
       case Replied(id, reply) =>
         Placeholder(w.entries, id, n)
         && (IsGrant(reply) ==> Known(w, id, reply.value.grant) && id !in w.started)
       case Running(id, grant) => Known(w, id, grant) && id in w.started
       case _ => true
  }

  ghost predicate StartedSound(w: World) {
    && (forall i, k :: 0 <= i < k < |w.started| ==> w.started[i] != w.started[k])
    && (forall id :: id in w.started ==> HandedOff(w, id) || Closed(w, id))
  }

  ghost predicate Accounted(w: World) {
    w.slots == |w.tasks| <= w.capacity && |w.entries| <= w.limit
  }

  ghost predicate DbSound(w: World) {
    Sound(w.db) && RowsTrue(w.db) && GrantsSound(w) && StoredSound(w)
  }

  ghost predicate RegistrySound(w: World) {
    && (forall id :: id in w.entries ==> EntrySound(w, id))
    && (forall n :: n in w.tasks ==> TaskSound(w, n))
    && (forall v :: v in w.verdicts ==> Closed(w, v.0))
  }

  ghost predicate WorldSound(w: World) {
    DbSound(w) && RegistrySound(w) && StartedSound(w) && Accounted(w)
  }

  lemma StartSound(db: Db, process: ProcessId, worker: WorkerId, capacity: nat, limit: nat)
    requires Sound(db) && RowsTrue(db) && NewProcess(db, process)
    ensures WorldSound(Start(db, process, worker, capacity, limit))
  {
    hide Sound, RowsTrue;
    assert forall id :: ClaimKey(process, id) !in db.rows;
  }

  // ---------------------------------------------------------------- the database moves

  /** The database moved on; this process was granted nothing new, or its command `own`. */
  ghost predicate Onward(w: World, w': World, own: Option<CommandId>) {
    && w' == w.(db := w'.db, granted := w'.granted, grantedAt := w'.grantedAt)
    && MovesOn(w.db, w'.db, w.process, own)
    && (own.Some? ==> own.value !in w.granted)
    && (forall id :: id in w.granted ==> id in w'.granted && w'.granted[id] == w.granted[id])
    && (forall id :: id in w'.granted && id !in w.granted ==> own == Some(id))
    && (forall id :: id in w.grantedAt && own != Some(id) ==> id in w'.grantedAt && w'.grantedAt[id] == w.grantedAt[id])
  }

  lemma DeadStays(w: World, w': World, own: Option<CommandId>, id: CommandId, token: Token)
    requires Onward(w, w', own) && token < w.db.t.nextToken && Dead(w, id, token)
    ensures Dead(w', id, token)
  {
    MovesNeverRevive(w.db.t, w'.db.t, id.job, token, w.worker, w.process, id.dispatch);
  }

  lemma ClosedStays(w: World, w': World, own: Option<CommandId>, id: CommandId)
    requires DbSound(w) && Onward(w, w', own) && Closed(w, id)
    ensures Closed(w', id)
  {
    hide Moves, Dead, Sound, RowsTrue;
    if Dead(w, id, w.granted[id]) {
      DeadStays(w, w', own, id, w.granted[id]);
    } else {
      TimeMoves(w.db.t, w'.db.t);
    }
  }

  lemma TimeMoves(t: Tables, t': Tables)
    requires Moves(t, t')
    ensures t.now <= t'.now && t.nextToken <= t'.nextToken
  {
  }

  lemma OnwardSound(w: World, w': World, own: Option<CommandId>)
    requires WorldSound(w) && Onward(w, w', own) && DbSound(w')
    ensures WorldSound(w')
  {
    hide MovesOn, DbSound, Closed;
    forall id | Closed(w, id) ensures Closed(w', id) {
      ClosedStays(w, w', own, id);
    }
    forall id | id in w'.entries ensures EntrySound(w', id) {
      assert EntrySound(w, id);
    }
    forall n | n in w'.tasks ensures TaskSound(w', n) {
      assert TaskSound(w, n);
    }
  }

  lemma OnwardDb(w: World, w': World)
    requires DbSound(w) && Onward(w, w', None)
    ensures DbSound(w')
  {
    hide Moves, Sound, RowsTrue;
    TimeMoves(w.db.t, w'.db.t);
    forall id | id in w.granted ensures Spent(w'.db.t, id.job, id.dispatch) {
      SpentStays(w.db.t, w'.db.t, id.job, id.dispatch);
    }
  }

  // ---------------------------------------------------------------- claiming

  /** What one claim call tells, for a command that is in the registry. */
  ghost predicate CallTells(w: World, w': World, id: CommandId, request: Command) {
    var reply := Execute(w.db, request, id).1;
    && (IsGrant(reply) ==> Known(w', id, reply.value.grant) && !Closed(w, id))
    && (Dismisses(reply) && id in w.granted ==> Closed(w', id))
  }

  lemma CallAgain(w: World, id: CommandId, c: Command)
    requires DbSound(w) && RequestFor(w, id, c) && id in w.granted
    ensures var w' := CallClaim(w, id, c); Onward(w, w', None) && CallTells(w, w', id, c)
  {
    hide Moves, Sound, RowsTrue, LeaseActive, Execute;
    var w' := CallClaim(w, id, c);
    StepMovesOn(w.db, Run(c, id), w.process);
    KnownGrant(w.db, c, id);
    ExecuteIsStep(w.db, c, id);
    if Dismisses(Execute(w.db, c, id).1) && StoresGrant(w'.db, w.process, id)
       && LiveAt(w'.db.rows, ClaimKey(w.process, id), w'.db.t.now) {
      TimeMoves(w.db.t, w'.db.t);
      DenialMeans(w.db, c, id);
    }
  }

  lemma ExecuteIsStep(s: Db, c: Command, id: CommandId)
    ensures JobDatabase.Step(s, Run(c, id)) == Execute(s, c, id).0
  {
  }

  lemma CallFirst(w: World, id: CommandId, c: Command)
    requires DbSound(w) && RequestFor(w, id, c) && id !in w.granted
    ensures var w' := CallClaim(w, id, c);
            Onward(w, w', Some(id)) && DbSound(w') && CallTells(w, w', id, c)
  {
    hide Sound, RowsTrue, Execute, MovesOn, GrantsSound, StoredSound, Closed;
    StepMovesOn(w.db, Run(c, id), w.process);
    ExecuteIsStep(w.db, c, id);
    CallFirstDb(w, id, c);
    CallFirstTells(w, id, c);
  }

  lemma CallFirstTells(w: World, id: CommandId, c: Command)
    requires DbSound(w) && RequestFor(w, id, c) && id !in w.granted
    ensures CallTells(w, CallClaim(w, id, c), id, c)
  {
    hide Moves, Sound, RowsTrue, LeaseActive, Execute, Spent;
    FirstGrant(w.db, c, id);
  }

  lemma CallFirstDb(w: World, id: CommandId, c: Command)
    requires DbSound(w) && RequestFor(w, id, c) && id !in w.granted
    ensures DbSound(CallClaim(w, id, c))
  {
    hide Moves, Sound, RowsTrue, LeaseActive, Execute, Spent;
    var w' := CallClaim(w, id, c);
    StepMovesOn(w.db, Run(c, id), w.process);
    ExecuteIsStep(w.db, c, id);
    FirstGrant(w.db, c, id);
    TimeMoves(w.db.t, w'.db.t);
    forall x | x in w.granted ensures Spent(w'.db.t, x.job, x.dispatch) {
      SpentStays(w.db.t, w'.db.t, x.job, x.dispatch);
    }
  }

  lemma CallSound(w: World, id: CommandId, c: Command)
    requires WorldSound(w) && RequestFor(w, id, c)
    ensures var w' := CallClaim(w, id, c); WorldSound(w') && CallTells(w, w', id, c)
    ensures var w' := CallClaim(w, id, c); w' == w.(db := w'.db, granted := w'.granted, grantedAt := w'.grantedAt)
  {
    hide DbSound, MovesOn, RegistrySound, StartedSound, Accounted, CallClaim, CallTells;
    var w' := CallClaim(w, id, c);
    if id in w.granted {
      CallAgain(w, id, c);
      OnwardDb(w, w');
      OnwardSound(w, w', None);
    } else {
      CallFirst(w, id, c);
      OnwardSound(w, w', Some(id));
    }
  }

  // ---------------------------------------------------------------- every step

  /** Only the registry, the tasks and the histories change. */
  predicate SameDb(w: World, w': World) {
    w' == w.(slots := w'.slots, entries := w'.entries, tasks := w'.tasks, next := w'.next, started := w'.started,
             verdicts := w'.verdicts)
  }

  lemma SameDbSound(w: World, w': World)
    requires DbSound(w) && SameDb(w, w')
    ensures DbSound(w') && forall id :: Closed(w', id) <==> Closed(w, id)
    ensures forall id, grant :: Known(w', id, grant) <==> Known(w, id, grant)
    ensures forall id, c :: RequestFor(w', id, c) <==> RequestFor(w, id, c)
  {
    hide Sound, RowsTrue, Spent, LeaseActive;
  }

  lemma ElsewhereSound(w: World, op: JobDatabase.Op)
    requires WorldSound(w) && Foreign(w, op)
    ensures WorldSound(E.Step(w, Elsewhere(op)))
    ensures Onward(w, E.Step(w, Elsewhere(op)), None)
  {
    hide Sound, RowsTrue, Moves, JobDatabase.Step, RegistrySound, StartedSound, Accounted;
    var w' := w.(db := JobDatabase.Step(w.db, op));
    StepMovesOn(w.db, op, w.process);
    OnwardDb(w, w');
    OnwardSound(w, w', None);
  }

  lemma Fewer<K, V>(m: map<K, V>, k: K)
    requires k in m
    ensures |m - {k}| == |m| - 1
  {
    assert m == (m - {k})[k := m[k]];
  }

  /** A task that owns nothing in the registry may end. */
  lemma DoneSound(w: World, n: nat)
    requires WorldSound(w) && n in w.tasks && (w.tasks[n].Holding? || w.tasks[n].Leaving?)
    ensures WorldSound(Done(w, n))
  {
    hide DbSound, Closed, Known, RequestFor;
    var w' := Done(w, n);
    SameDbSound(w, w');
    Fewer(w.tasks, n);
    forall id | id in w'.entries ensures EntrySound(w', id) { assert EntrySound(w, id); }
    forall k | k in w'.tasks ensures TaskSound(w', k) { assert TaskSound(w, k); }
  }

  lemma SerialsBelow(w: World)
    requires WorldSound(w)
    ensures forall k :: k in w.tasks ==> k < w.next
  {
    forall k | k in w.tasks ensures k < w.next { assert TaskSound(w, k); }
  }

  lemma AcquireSound(w: World)
    requires WorldSound(w) && w.slots < w.capacity
    ensures WorldSound(w.(slots := w.slots + 1, tasks := w.tasks[w.next := Holding], next := w.next + 1))
  {
    hide DbSound, Closed, Known, RequestFor;
    var w' := w.(slots := w.slots + 1, tasks := w.tasks[w.next := Holding], next := w.next + 1);
    SameDbSound(w, w');
    SerialsBelow(w);
    Fewer(w'.tasks, w.next);
    assert w'.tasks - {w.next} == w.tasks;
    forall id | id in w'.entries ensures EntrySound(w', id) { assert EntrySound(w, id); }
    forall k | k in w'.tasks ensures TaskSound(w', k) { assert k in w.tasks ==> TaskSound(w, k); }
  }

  lemma ReserveSound(w: World, n: nat, request: Command)
    requires WorldSound(w) && n in w.tasks && w.tasks[n].Holding?
    requires request.Claim? && request.process == w.process && request.worker == w.worker
    ensures WorldSound(TryReserveStep(w, n, request))
  {
    hide DbSound, Closed, Known;
    var id := ClaimOf(w.process, request.job, request.dispatch);
    if !CanReserve(w.entries, w.limit, id) {
      DoneSound(w, n);
    } else {
      var w' := TryReserveStep(w, n, request);
      SameDbSound(w, w');
      forall x | x in w'.entries ensures EntrySound(w', x) {
        if x == id { assert TaskSound(w, n); } else { assert EntrySound(w, x); }
      }
      forall k | k in w'.tasks ensures TaskSound(w', k) { assert TaskSound(w, k); }
    }
  }

  lemma Replacing<K, V>(m: map<K, V>, k: K, v: V)
    requires k in m
    ensures |m[k := v]| == |m|
  {
    Fewer(m, k);
    Fewer(m[k := v], k);
    assert m[k := v] - {k} == m - {k};
  }

  /** One task goes on, and at most its own entry changes. */
  predicate OneTask(w: World, w': World, n: nat) {
    && n in w.tasks && n in w'.tasks && w'.tasks == w.tasks[n := w'.tasks[n]]
    && w' == w.(tasks := w'.tasks, entries := w'.entries, started := w'.started)
  }

  lemma OneTaskSound(w: World, w': World, n: nat)
    requires WorldSound(w) && OneTask(w, w', n)
    requires forall id :: id in w'.entries ==> EntrySound(w', id)
    requires forall k :: k in w'.tasks ==> TaskSound(w', k)
    requires StartedSound(w') && |w'.entries| <= |w.entries|
    ensures WorldSound(w')
  {
    hide DbSound, Closed, EntrySound, TaskSound;
    SameDbSound(w, w');
    Replacing(w.tasks, n, w'.tasks[n]);
  }

  lemma AskSound(w: World, n: nat, id: CommandId, applied: bool, seen: bool)
    requires WorldSound(w) && n in w.tasks && w.tasks[n] == Reserved(id) && id in w.entries
    ensures WorldSound(AskStep(w, n, id, applied, seen))
  {
    hide DbSound, Known, RequestFor, CallClaim, Execute;
    var request := w.entries[id].request;
    assert EntrySound(w, id) && TaskSound(w, n);
    CallSound(w, id, request);
    var called := if applied then CallClaim(w, id, request) else w;
    RepliedSound(called, n, id, ClaimReply(w, id, request, applied, seen));
  }

  lemma RepliedSound(w: World, n: nat, id: CommandId, reply: Result<Response>)
    requires WorldSound(w) && n in w.tasks && w.tasks[n] == Reserved(id)
    requires IsGrant(reply) ==> Known(w, id, reply.value.grant) && id !in w.started
    ensures WorldSound(w.(tasks := w.tasks[n := Replied(id, reply)]))
  {
    hide DbSound, Closed, Known, RequestFor, Accounted;
    var w' := w.(tasks := w.tasks[n := Replied(id, reply)]);
    SameDbSound(w, w');
    forall x | x in w'.entries ensures EntrySound(w', x) { assert EntrySound(w, x); }
    forall k | k in w'.tasks ensures TaskSound(w', k) { assert TaskSound(w, k); }
    OneTaskSound(w, w', n);
  }

  lemma SettleSound(w: World, n: nat, id: CommandId, reply: Result<Response>)
    requires WorldSound(w) && n in w.tasks && w.tasks[n] == Replied(id, reply)
    ensures WorldSound(SettleStep(w, n, id, reply))
  {
    hide DbSound, Closed;
    assert TaskSound(w, n);
    if IsGrant(reply) {
      ActivateSound(w, n, id, reply.value.grant);
    } else {
      RefusedSound(w, n, id);
    }
  }

  lemma RefusedSound(w: World, n: nat, id: CommandId)
    requires WorldSound(w) && OwnedBy(w, n, id)
    ensures WorldSound(Done(w.(entries := ResolveRemoved(w.entries, id, n)), n))
  {
    hide DbSound, Closed, Known, RequestFor, Accounted;
    assert TaskSound(w, n) && EntrySound(w, id);
    var w' := w.(entries := w.entries - {id}, tasks := w.tasks[n := Leaving]);
    SameDbSound(w, w');
    Fewer(w.entries, id);
    forall x | x in w'.entries ensures EntrySound(w', x) { assert EntrySound(w, x); }
    forall k | k in w'.tasks ensures TaskSound(w', k) { assert TaskSound(w, k); }
    OneTaskSound(w, w', n);
    DoneSound(w', n);
    assert w'.tasks - {n} == w.tasks - {n};
  }

  lemma ActivateSound(w: World, n: nat, id: CommandId, grant: Grant)
    requires WorldSound(w) && n in w.tasks && w.tasks[n].Replied? && Placeholder(w.entries, id, n)
    requires w.tasks[n].id == id && Known(w, id, grant) && id !in w.started
    ensures WorldSound(w.(entries := Activate(w.entries, id, n, grant), tasks := w.tasks[n := Task.Running(id, grant)],
                          started := w.started + [id]))
  {
    hide DbSound, Closed, Known, RequestFor, Accounted;
    var w' := w.(entries := Activate(w.entries, id, n, grant), tasks := w.tasks[n := Task.Running(id, grant)],
                 started := w.started + [id]);
    SameDbSound(w, w');
    Replacing(w.entries, id, w'.entries[id]);
    assert forall x :: x in w'.started <==> x in w.started || x == id;
    forall x | x in w'.entries ensures EntrySound(w', x) { assert EntrySound(w, x); }
    forall k | k in w'.tasks ensures TaskSound(w', k) { assert TaskSound(w, k); }
    OneTaskSound(w, w', n);
  }

  lemma MarkSound(w: World, n: nat, id: CommandId, grant: Grant)
    requires WorldSound(w) && n in w.tasks && w.tasks[n] == Task.Running(id, grant)
    ensures WorldSound(w.(entries := MarkAwaiting(w.entries, id), tasks := w.tasks[n := Leaving]))
  {
    hide DbSound, Closed, Known, RequestFor, Accounted;
    var w' := w.(entries := MarkAwaiting(w.entries, id), tasks := w.tasks[n := Leaving]);
    SameDbSound(w, w');
    if id in w.entries {
      Replacing(w.entries, id, w'.entries[id]);
    }
    forall x | x in w'.entries ensures EntrySound(w', x) { assert EntrySound(w, x); }
    forall k | k in w'.tasks ensures TaskSound(w', k) { assert TaskSound(w, k); }
    OneTaskSound(w, w', n);
  }

  lemma VerdictSound(w: World, id: CommandId, serial: nat)
    requires WorldSound(w) && Closed(w, id)
    ensures WorldSound(w.(verdicts := w.verdicts + {(id, serial)}))
  {
    hide DbSound, Closed, Known, RequestFor;
    var w' := w.(verdicts := w.verdicts + {(id, serial)});
    SameDbSound(w, w');
    forall x | x in w'.entries ensures EntrySound(w', x) { assert EntrySound(w, x); }
    forall k | k in w'.tasks ensures TaskSound(w', k) { assert TaskSound(w, k); }
  }

  lemma ProbeSound(w: World, id: CommandId, applied: bool, seen: bool)
    requires WorldSound(w) && id in w.entries && w.entries[id].state.Awaiting?
    ensures WorldSound(ProbeStep(w, id, applied, seen))
  {
    hide DbSound, Closed, CallClaim, Execute, StartedSound, Accounted;
    var request := w.entries[id].request;
    assert EntrySound(w, id);
    CallSound(w, id, request);
    var called := if applied then CallClaim(w, id, request) else w;
    if applied && seen && Dismisses(Execute(w.db, request, id).1) {
      VerdictSound(called, id, w.entries[id].serial);
    }
  }

  /** Entries whose command can no longer be granted may leave, whatever their state but
      claiming. */
  lemma RemovalSound(w: World, w': World)
    requires WorldSound(w) && w' == w.(entries := w'.entries) && w'.entries.Keys <= w.entries.Keys
    requires forall id :: id in w'.entries ==> w'.entries[id] == w.entries[id]
    requires forall id :: id in w.entries && id !in w'.entries ==> HandedOff(w, id) && Closed(w, id)
    ensures WorldSound(w')
  {
    hide DbSound, Closed, Known, RequestFor;
    SameDbSound(w, w');
    forall x | x in w'.entries ensures EntrySound(w', x) { assert EntrySound(w, x); }
    forall k | k in w'.tasks ensures TaskSound(w', k) {
      assert TaskSound(w, k);
      assert forall id :: id in w.entries ==> EntrySound(w, id);
    }
    SubsetSize(w'.entries.Keys, w.entries.Keys);
  }

  lemma SubsetSize<T>(a: set<T>, b: set<T>)
    requires a <= b
    ensures |a| <= |b|
  {
    assert b == a + (b - a);
  }

  lemma EvictSound(w: World, id: CommandId, serial: nat)
    requires WorldSound(w) && (id, serial) in w.verdicts
    ensures WorldSound(E.Step(w, Evict(id, serial)))
  {
    hide DbSound, Closed, Known, RequestFor;
    if id in w.entries {
      assert EntrySound(w, id);
    }
    RemovalSound(w, E.Step(w, Evict(id, serial)));
  }

  /** An outcome reported under an entry's lease closes the entry's command. */
  lemma OutcomeCloses(w: World, id: CommandId, job: JobId, token: Token)
    requires id in w.entries && EntrySound(w, id) && id in Matching(w.entries, job, token) && Over(w.db.t, job, token)
    ensures Closed(w, id) && Dead(w, id, w.granted[id])
  {
  }

  lemma ReportSound(w: World, c: Command, id: CommandId, applied: bool, seen: bool)
    requires WorldSound(w) && Outcome(c)
    ensures WorldSound(ReportStep(w, c, id, applied, seen))
  {
    hide Sound, RowsTrue, Closed, Known, Execute, Over, LeaseActive, GrantsSound, StoredSound;
    if applied {
      ElsewhereSound(w, Run(c, id));
      ExecuteIsStep(w.db, c, id);
      var called := w.(db := Execute(w.db, c, id).0);
      var w' := ReportStep(w, c, id, applied, seen);
      if seen && Execute(w.db, c, id).1.Success? {
        OutcomeMeansOver(w.db, c, id);
        forall x | x in Matching(w.entries, c.job, c.token) ensures Closed(called, x) {
          assert EntrySound(called, x);
          OutcomeCloses(called, x, c.job, c.token);
        }
        RemovalSound(called, w');
      }
    }
  }

  lemma WorldStepSound(w: World, op: E.Op)
    requires WorldSound(w)
    ensures WorldSound(E.Step(w, op))
  {
    hide WorldSound, TryReserveStep, AskStep, SettleStep, ReportStep, ProbeStep, JobDatabase.Step, Done, Foreign;
    match op
    case Elsewhere(o) => if Foreign(w, o) { ElsewhereSound(w, o); }
    case AcquireSlot => if w.slots < w.capacity { AcquireSound(w); }
    case Abandon(n) => if n in w.tasks && w.tasks[n].Holding? { DoneSound(w, n); }
    case TryReserve(n, job, workflow, duration, dispatch) =>
      if n in w.tasks && w.tasks[n].Holding? {
        ReserveSound(w, n, Claim(job, workflow, w.worker, w.process, duration, dispatch));
      }
    case Ask(n, applied, seen) =>
      if n in w.tasks && w.tasks[n].Reserved? && w.tasks[n].id in w.entries {
        AskSound(w, n, w.tasks[n].id, applied, seen);
      }
    case Settle(n) =>
      if n in w.tasks && w.tasks[n].Replied? { SettleSound(w, n, w.tasks[n].id, w.tasks[n].reply); }
    case Report(c, id, applied, seen) => if Outcome(c) { ReportSound(w, c, id, applied, seen); }
    case Mark(n) => if n in w.tasks && w.tasks[n].Running? { MarkSound(w, n, w.tasks[n].id, w.tasks[n].grant); }
    case Leave(n) => if n in w.tasks && w.tasks[n].Leaving? { DoneSound(w, n); }
    case Probe(id, applied, seen) =>
      if id in w.entries && w.entries[id].state.Awaiting? { ProbeSound(w, id, applied, seen); }
    case Evict(id, serial) => if (id, serial) in w.verdicts { EvictSound(w, id, serial); }
  }
}
