/**
 What a caller may conclude from the replies of the job protocol, whatever else runs: a dispatch
 is granted at most once, and a successful outcome call means that its lease is over.
 */
module DispatchGrants {
  import opened Prelude
  import opened CommandLedger
  import opened JobTables
  import opened JobDatabase
  import opened JobInvariants

  /** This dispatch of the job can no longer be claimed: the job has left the queue, or has been
      dispatched again since. */
  predicate Spent(t: Tables, j: JobId, dispatch: nat) {
    j in t.jobs
    && (dispatch < t.jobs[j].dispatchAttempts
        || (dispatch == t.jobs[j].dispatchAttempts && !t.jobs[j].status.Queued?))
  }

  lemma SpentStays(t: Tables, t': Tables, j: JobId, dispatch: nat)
    requires Moves(t, t') && Spent(t, j, dispatch)
    ensures Spent(t', j, dispatch)
  {
    assert Move(t, t.jobs[j], t'.jobs[j]);
  }

  /** The job is not running under this token, and the token has been drawn. */
  predicate Over(t: Tables, j: JobId, token: Token) {
    !Holds(t.jobs, j, token) && token < t.nextToken
  }

  lemma OverStays(t: Tables, t': Tables, j: JobId, token: Token)
    requires Moves(t, t') && Over(t, j, token)
    ensures Over(t', j, token)
  {
    assert j in t.jobs ==> Move(t, t.jobs[j], t'.jobs[j]);
  }

  predicate Outcome(c: Command) {
    c.Complete? || c.Fail? || c.CancelClaimed? || c.Release?
  }

  predicate OutcomeOperation(op: Operation) {
    op.OpComplete? || op.OpFail? || op.OpCancelClaimed? || op.OpRelease?
  }

  // ---------------------------------------------------------------- what the ledger records

  /** A row recording a grant is about a dispatch that is spent; a row recording an outcome is
      about a lease that is over. */
  predicate RowTrue(t: Tables, k: LedgerKey, row: Row<Command, Response>) {
    row.Completed? ==>
      && row.aliases == []
      && (k.operation.OpClaim? ==>
            row.hash.Claim? && k.scope == WorkerScope(row.hash.process)
            && (row.response.Granted? ==>
                  && row.response.grant.job == row.hash.job && row.response.grant.dispatch == row.hash.dispatch
                  && row.response.grant.token < t.nextToken && Spent(t, row.hash.job, row.hash.dispatch)))
      && (OutcomeOperation(k.operation) ==> Outcome(row.hash) && Over(t, row.hash.job, row.hash.token))
  }

  ghost predicate RowsTrue(s: Db) {
    forall k :: k in s.rows ==> RowTrue(s.t, k, s.rows[k])
  }

  lemma RowStaysTrue(t: Tables, t': Tables, k: LedgerKey, row: Row<Command, Response>)
    requires Moves(t, t') && RowTrue(t, k, row)
    ensures RowTrue(t', k, row)
  {
    if row.Completed? && k.operation.OpClaim? && row.response.Granted? {
      SpentStays(t, t', row.hash.job, row.hash.dispatch);
    }
    if row.Completed? && OutcomeOperation(k.operation) {
      OverStays(t, t', row.hash.job, row.hash.token);
    }
  }

  lemma ClaimIsRecorded(t: Tables, c: Command)
    requires c.Claim? && ClaimJob(t, c).Success?
    ensures var (t', response) := ClaimJob(t, c).value;
            response.Granted? ==>
              && CanClaim(t, c) && !Spent(t, c.job, c.dispatch) && Spent(t', c.job, c.dispatch)
              && response.grant.job == c.job && response.grant.dispatch == c.dispatch
              && response.grant.token == t.nextToken < t'.nextToken
  {
  }

  lemma OutcomeEndsLease(t: Tables, c: Command, id: CommandId)
    requires RowsSound(t) && Outcome(c) && Mutate(t, c, id).Success?
    ensures Holds(t.jobs, c.job, c.token) && Over(Mutate(t, c, id).value.0, c.job, c.token)
  {
    hide FreeSlot, InsertEvent;
    InsertKeepsJobs(t, c);
  }

  lemma InsertKeepsJobs(t: Tables, c: Command)
    ensures forall u: Tables, e :: InsertEvent(u, e).jobs == u.jobs && InsertEvent(u, e).nextToken == u.nextToken
  {
  }

  lemma NewRowIsTrue(s: Db, c: Command, id: CommandId)
    requires Sound(s) && Mutate(s.t, c, id).Success?
    ensures var (t, response) := Mutate(s.t, c, id).value;
            RowTrue(t, KeyOf(c, id), Row.Completed(RequestOf(c), [], response, s.t.now + Retention(s.t.cfg, c)))
  {
    hide ClaimJob;
    if c.Claim? {
      ClaimIsRecorded(s.t, c);
    } else if Outcome(c) {
      OutcomeEndsLease(s.t, c, id);
    }
  }

  /** Where a row of the new ledger comes from. */
  lemma RowsComeFrom(s: Db, op: Op, k: LedgerKey)
    requires k in Step(s, op).rows && Settled(s.rows)
    ensures (k in s.rows && Step(s, op).rows[k] == s.rows[k])
         || (op.Run? && k == KeyOf(op.c, op.id) && Mutate(s.t, op.c, op.id).Success? && !LiveAt(s.rows, k, s.t.now)
             && Step(s, op).t == Mutate(s.t, op.c, op.id).value.0
             && Step(s, op).rows[k] == Row.Completed(RequestOf(op.c), [], Mutate(s.t, op.c, op.id).value.1,
                                                     s.t.now + Retention(s.t.cfg, op.c)))
  {
    hide Mutate, ReplayStored, DispatchJob, UpsertNode, HeartbeatRow, CancelStaleJobs, RenewLease, KeyOf, RequestOf;
  }

  lemma StepRowsTrue(s: Db, op: Op)
    requires Sound(s) && RowsTrue(s)
    ensures RowsTrue(Step(s, op))
  {
    hide RowTrue, Step, Moves, TablesSound, Mutate, RequestOf, KeyOf, Retention;
    StepSound(s, op);
    var s' := Step(s, op);
    forall k | k in s'.rows ensures RowTrue(s'.t, k, s'.rows[k]) {
      RowsComeFrom(s, op, k);
      if k in s.rows && s'.rows[k] == s.rows[k] {
        RowStaysTrue(s.t, s'.t, k, s.rows[k]);
      } else {
        NewRowIsTrue(s, op.c, op.id);
      }
    }
  }

  // ---------------------------------------------------------------- what replies mean

  lemma MeetsAlone(stored: Command, request: Command)
    ensures HashesMeet(stored, [], request, []) <==> stored == request
  {
    assert stored in [stored] + [];
    assert request in [request] + [];
  }

  /** A reply that grants a claim: either the transaction has just granted it, under a new token,
      and stored that; or the stored grant is replayed while its lease is active. */
  lemma GrantMeans(s: Db, c: Command, id: CommandId)
    requires Sound(s) && RowsTrue(s) && c.Claim?
    requires Execute(s, c, id).1.Success? && Execute(s, c, id).1.value.Granted?
    ensures var grant, k := Execute(s, c, id).1.value.grant, KeyOf(c, id);
            && grant.job == c.job && grant.dispatch == c.dispatch
            && (|| (LiveAt(s.rows, k, s.t.now) && Execute(s, c, id).0 == s && s.rows[k].response.Granted?
                    && s.rows[k].response.grant.token == grant.token
                    && LeaseActive(s.t, c.job, grant.token, c.worker, c.process, c.dispatch))
                || (!LiveAt(s.rows, k, s.t.now) && !Spent(s.t, c.job, c.dispatch)
                    && grant.token == s.t.nextToken < Execute(s, c, id).0.t.nextToken
                    && Spent(Execute(s, c, id).0.t, c.job, c.dispatch)))
  {
    hide ClaimJob, LeaseActive;
    if !LiveAt(s.rows, KeyOf(c, id), s.t.now) {
      ClaimIsRecorded(s.t, c);
    } else {
      assert RowTrue(s.t, KeyOf(c, id), s.rows[KeyOf(c, id)]);
      var row := s.rows[KeyOf(c, id)];
      MeetsAlone(row.hash, RequestOf(c));
    }
  }

  /** A reply that does not grant a claim whose grant is still stored: either the request was not
      the stored one, or the stored lease is not active. */
  lemma DenialMeans(s: Db, c: Command, id: CommandId)
    requires Sound(s) && c.Claim? && LiveAt(s.rows, KeyOf(c, id), s.t.now)
    requires s.rows[KeyOf(c, id)].Completed? && s.rows[KeyOf(c, id)].response.Granted?
    requires !(Execute(s, c, id).1.Success? && Execute(s, c, id).1.value.Granted?)
    ensures Execute(s, c, id).0 == s
    ensures Execute(s, c, id).1 == Failure(AlreadyExists)
         || (Execute(s, c, id).1 == Success(Denied(LeaseInactive))
             && !LeaseActive(s.t, c.job, s.rows[KeyOf(c, id)].response.grant.token, c.worker, c.process, c.dispatch))
  {
    hide LeaseActive;
  }

  /** When an outcome call has succeeded, by itself or by an earlier call with its key, its lease
      is over. */
  lemma OutcomeMeansOver(s: Db, c: Command, id: CommandId)
    requires Sound(s) && RowsTrue(s) && Outcome(c) && Execute(s, c, id).1.Success?
    ensures Over(Execute(s, c, id).0.t, c.job, c.token)
  {
    hide Mutate, Sound;
    if LiveAt(s.rows, KeyOf(c, id), s.t.now) {
      assert RowTrue(s.t, KeyOf(c, id), s.rows[KeyOf(c, id)]);
      MeetsAlone(s.rows[KeyOf(c, id)].hash, RequestOf(c));
    } else {
      SoundRows(s);
      OutcomeEndsLease(s.t, c, id);
    }
  }

  lemma SoundRows(s: Db)
    requires Sound(s)
    ensures RowsSound(s.t)
  {
  }

  /** Whoever asks, and under whatever key, a spent dispatch is never granted anew: at most one
      claim transaction ever grants a dispatch of a job. */
  lemma {:induction false} DispatchGrantedOnce(s: Db, ops: seq<Op>, c: Command, id: CommandId)
    requires Sound(s) && c.Claim? && Spent(s.t, c.job, c.dispatch)
    ensures var later := After(s, ops);
            && Spent(later.t, c.job, c.dispatch)
            && (Mutate(later.t, c, id).Success? ==> !Mutate(later.t, c, id).value.1.Granted?)
    decreases |ops|
  {
    hide Sound, Moves, Mutate, Step;
    if ops != [] {
      var before := After(s, ops[..|ops| - 1]);
      DispatchGrantedOnce(s, ops[..|ops| - 1], c, id);
      RunSound(s, ops[..|ops| - 1]);
      StepSound(before, ops[|ops| - 1]);
      SpentStays(before.t, After(s, ops).t, c.job, c.dispatch);
    }
    SpentIsRefused(After(s, ops).t, c, id);
  }

  lemma SpentIsRefused(t: Tables, c: Command, id: CommandId)
    requires c.Claim? && Spent(t, c.job, c.dispatch)
    ensures !CanClaim(t, c)
    ensures Mutate(t, c, id).Success? ==> !Mutate(t, c, id).value.1.Granted?
  {
  }
}
