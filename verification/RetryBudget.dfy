/**
 Bounded retries: what an executor does with a failed claim, and what a fleet of executors that
 share one retry limit can do to a job's attempts (internal/repository/executor/executor.go,
 internal/repository/executor/recovery.go).
 */
module RetryBudget {
  import opened Prelude
  import opened CommandLedger
  import opened JobTables
  import Utf8
  import opened JobDatabase
  import opened JobInvariants
  import opened JobsRepository
  import S = PartitionSafety

  // ---------------------------------------------------------------- one failed claim

  /** Why a claim failed: an error, which may carry a terminal reason of its own. */
  datatype Cause = Cause(reason: Option<Reason>, code: Code, text: Text, message: Text)

  datatype Decision = Decision(retryable: bool, kind: FailureKind, reason: Reason)

  /** The infrastructure's own failures. */
  const SYSTEM_CODES: set<Code> := {Code.Canceled, DeadlineExceeded, Internal, ResourceExhausted, Unavailable}

  /** A failure is the system's, and retried, for the codes that also keep a Kafka record
      uncommitted, except Aborted, which is how a workload's own failure is reported. */
  function ClassifyExecutionFailure(cause: Option<Cause>): (d: Decision)
    ensures d.retryable <==> cause.Some? && cause.value.reason.None? && cause.value.code in SYSTEM_CODES
    ensures SYSTEM_CODES == S.ASK_AGAIN - {Aborted}
    ensures d.kind == if d.retryable then System else User
    ensures d.reason == if d.retryable then SystemError
                        else if cause.Some? && cause.value.reason.Some? then cause.value.reason.value
                        else ExecutionFailed
  {
    if cause.None? then Decision(false, User, ExecutionFailed)
    else if cause.value.reason.Some? then Decision(false, User, cause.value.reason.value)
    else
      match cause.value.code
      case Canceled => Decision(true, System, SystemError)
      case Internal => Decision(true, System, SystemError)
      case ResourceExhausted => Decision(true, System, SystemError)
      case Unavailable => Decision(true, System, SystemError)
      case DeadlineExceeded => Decision(true, System, SystemError)
      case _ => Decision(false, User, ExecutionFailed)
  }

  /** What an executor knows about a lease it holds, from a claim or from a recovery. */
  datatype Holding = Holding(job: JobId, token: Token, attempts: nat)

  function Release(h: Holding, cause: Cause, retryAt: Time): (c: Command) {
    Command.Release(h.job, h.token, retryAt, cause.text, cause.message)
  }

  function Fail(h: Holding, cause: Cause): (c: Command) {
    var d := ClassifyExecutionFailure(Some(cause));
    Command.Fail(h.job, h.token, FailureInfo(d.kind, cause.text, cause.message), d.reason)
  }

  /** Which call each of the two functions ends in: a release exactly while the budget lasts and,
      for an execution failure, only when the cause is retryable. */
  function FailureCall(limit: int, h: Holding, cause: Cause, retryAt: Time): (c: Command) {
    if ClassifyExecutionFailure(Some(cause)).retryable && h.attempts < limit then Release(h, cause, retryAt)
    else Fail(h, cause)
  }

  function RetryCall(limit: int, h: Holding, cause: Cause, retryAt: Time): (c: Command) {
    if h.attempts < limit then Release(h, cause, retryAt) else Fail(h, cause)
  }

  /** The backoff doubles with every attempt, up to eight times the configured one. */
  function SystemRetryBackoff(base: Time, attempt: int): (backoff: Time)
    requires 0 <= base
    ensures base <= backoff <= 8 * base
    ensures 1 < attempt ==> backoff == if 4 <= attempt then 8 * base else 2 * SystemRetryBackoff(base, attempt - 1)
    decreases attempt
  {
    if attempt <= 1 then base
    else if 8 * base < Doubled(base, attempt - 1) then 8 * base
    else Doubled(base, attempt - 1)
  }

  /** base times two to the n. */
  function Doubled(base: Time, n: nat): (r: Time)
    requires 0 <= base
    ensures base <= r && (n == 1 ==> r == 2 * base) && (n == 2 ==> r == 4 * base) && (3 <= n ==> 8 * base <= r)
  {
    if n == 0 then base else 2 * Doubled(base, n - 1)
  }

  // ---------------------------------------------------------------- what a failed claim comes to

  /** An execution failure is released exactly when it is the infrastructure's, says nothing more
      definite, and the budget lasts. */
  lemma FailureReleasesExactly(limit: int, h: Holding, cause: Cause, retryAt: Time)
    ensures FailureCall(limit, h, cause, retryAt).Release? <==>
              cause.reason.None? && cause.code in SYSTEM_CODES && h.attempts < limit
    ensures RetryCall(limit, h, cause, retryAt).Release? <==> h.attempts < limit
  {
  }

  /** The job after a release: it waits for the instant passed, with its attempts, unless its
      workflow was terminated. */
  predicate Retried(t: Tables, t': Tables, h: Holding, cause: Cause, retryAt: Time) {
    && h.job in t.jobs && h.job in t'.jobs
    && var a, b := t.jobs[h.job], t'.jobs[h.job];
       if a.workflow in t.workflows && t.workflows[a.workflow].terminated then
         b == a.(status := Status.Canceled, completedAt := Some(t.now), lease := None, reason := Some(WorkflowTerminated))
       else
         b == a.(status := Pending, lease := None, node := None, container := None, startedAt := None,
                 completedAt := None, nextAttemptAt := Some(retryAt), reason := None,
                 failure := Some(FailureInfo(System, cause.text, Utf8.Truncate(cause.message))))
  }

  /** The job after a failure, the system's or its own. */
  predicate GivenUp(t: Tables, t': Tables, h: Holding, cause: Cause) {
    && h.job in t.jobs && h.job in t'.jobs
    && var system := cause.reason.None? && cause.code in SYSTEM_CODES;
       t'.jobs[h.job] == t.jobs[h.job].(
         status := Failed, completedAt := Some(t.now), lease := None,
         failure := Some(FailureInfo(if system then System else User, cause.text, Utf8.Truncate(cause.message))),
         reason := Some(if system then SystemError
                        else if cause.reason.Some? then cause.reason.value else ExecutionFailed))
  }

  /** What a first call does to the job while its lease is held, for an execution failure and for
      a failure to get as far as executing. */
  lemma FailureComesTo(s: Db, limit: int, h: Holding, cause: Cause, retryAt: Time, id: CommandId, c: Command)
    requires Holds(s.t.jobs, h.job, h.token) && !LiveAt(s.rows, KeyOf(c, id), s.t.now)
    requires c in {FailureCall(limit, h, cause, retryAt), RetryCall(limit, h, cause, retryAt)}
    ensures var (s', reply) := Execute(s, c, id);
            && reply == Success(Ack)
            && (if h.attempts < limit && (c == RetryCall(limit, h, cause, retryAt)
                                          || (cause.reason.None? && cause.code in SYSTEM_CODES))
                then Retried(s.t, s'.t, h, cause, retryAt) else GivenUp(s.t, s'.t, h, cause))
            && forall j :: j in s.t.jobs && j != h.job ==> j in s'.t.jobs && s'.t.jobs[j] == s.t.jobs[j]
  {
    hide ReleaseJob, FailJob, Retried, GivenUp, Utf8.Truncate, Holds;
    FailureReleasesExactly(limit, h, cause, retryAt);
    ReleaseComesTo(s.t, h, cause, retryAt);
    FailComesTo(s.t, h, cause);
  }

  lemma ReleaseComesTo(t: Tables, h: Holding, cause: Cause, retryAt: Time)
    requires Holds(t.jobs, h.job, h.token)
    ensures var done := ReleaseJob(t, Release(h, cause, retryAt));
            && done.Success? && done.value.1 == Ack && Retried(t, done.value.0, h, cause, retryAt)
            && forall j :: j in t.jobs && j != h.job ==> j in done.value.0.jobs && done.value.0.jobs[j] == t.jobs[j]
  {
    hide FreeSlot;
  }

  lemma FailComesTo(t: Tables, h: Holding, cause: Cause)
    requires Holds(t.jobs, h.job, h.token)
    ensures var done := FailJob(t, Fail(h, cause));
            && done.Success? && done.value.1 == Ack && GivenUp(t, done.value.0, h, cause)
            && forall j :: j in t.jobs && j != h.job ==> j in done.value.0.jobs && done.value.0.jobs[j] == t.jobs[j]
  {
    hide FreeSlot;
  }

  /** A job released for a retry can be dispatched again exactly from that instant on: until then
      the scheduler passes over it. */
  lemma RetriedIsDue(t: Tables, t': Tables, h: Holding, cause: Cause, retryAt: Time, wait: nat)
    requires Retried(t, t', h, cause, retryAt) && t'.jobs[h.job].status.Pending?
    ensures var later := t'.(now := t'.now + wait);
            && (Due(later, h.job) <==> retryAt <= later.now && t.jobs[h.job].scheduledAt <= later.now)
            && (later.now < retryAt ==> DispatchJob(later, h.job) == later)
  {
  }

  class Executor {
    const limit: int
    const backoff: Time
    const repo: Repository

    constructor (limit: int, backoff: Time, repo: Repository)
      requires 0 <= backoff
      ensures this.limit == limit && this.backoff == backoff && this.repo == repo
    {
      this.limit, this.backoff, this.repo := limit, backoff, repo;
    }

    function RetryAt(h: Holding, now: Time): (t: Time)
      requires 0 <= backoff
      ensures t == now + backoff * if h.attempts <= 1 then 1 else if h.attempts == 2 then 2 else if h.attempts == 3 then 4 else 8
    {
      now + SystemRetryBackoff(backoff, h.attempts)
    }

    /** The two call each other, but at most once: each hands over only on its own side of the
        limit. */
    method FailClaimedJob(h: Holding, cause: Cause, now: Time, id: CommandId) returns (reply: Result<Response>)
      requires 0 <= backoff
      modifies repo, repo.ledger
      ensures (repo.Snapshot(), reply)
           == Execute(old(repo.Snapshot()), FailureCall(limit, h, cause, RetryAt(h, now)), id)
      decreases if h.attempts < limit then 1 else 0
    {
      var decision := ClassifyExecutionFailure(Some(cause));
      if decision.retryable && h.attempts < limit {
        reply := ReleaseClaimForSystemRetry(h, cause, now, id);
        return;
      }
      reply := repo.FailJob(h.job, h.token, FailureInfo(decision.kind, cause.text, cause.message), decision.reason, id);
    }

    method ReleaseClaimForSystemRetry(h: Holding, cause: Cause, now: Time, id: CommandId)
      returns (reply: Result<Response>)
      requires 0 <= backoff
      modifies repo, repo.ledger
      ensures (repo.Snapshot(), reply)
           == Execute(old(repo.Snapshot()), RetryCall(limit, h, cause, RetryAt(h, now)), id)
      decreases if h.attempts < limit then 0 else 1
    {
      if limit <= h.attempts {
        reply := FailClaimedJob(h, cause, now, id);
        return;
      }
      reply := repo.ReleaseJobForRetry(h.job, h.token, RetryAt(h, now), cause.text, cause.message, id);
    }

    method ReleaseOrFailRecoveredSystem(h: Holding, cause: Cause, now: Time, id: CommandId)
      returns (reply: Result<Response>)
      requires 0 <= backoff
      modifies repo, repo.ledger
      ensures (repo.Snapshot(), reply)
           == Execute(old(repo.Snapshot()), RetryCall(limit, h, cause, RetryAt(h, now)), id)
    {
      if h.attempts < limit {
        reply := ReleaseClaimForSystemRetry(h, cause, now, id);
        return;
      }
      reply := FailClaimedJob(h, cause, now, id);
    }
  }

  // ---------------------------------------------------------------- a fleet

  /** All executors' holdings, and the database. The holdings are everything any reply ever told
      them, seen or not. */
  datatype Fleet = Fleet(db: Db, limit: int, holdings: set<Holding>)

  function HoldingsOf(response: Response): (r: set<Holding>) {
    match response
    case Granted(grant) => {Holding(grant.job, grant.token, grant.attempts)}
    case Recovered(leases) => set e | e in leases :: Holding(e.job, e.token, e.attempts)
    case _ => {}
  }

  /** A release is only ever issued for a holding whose attempts are below the limit. */
  predicate Allowed(f: Fleet, op: Op) {
    op.Run? && op.c.Release? ==>
      exists h :: h in f.holdings && h.job == op.c.job && h.token == op.c.token && h.attempts < f.limit
  }

  function FleetStep(f: Fleet, op: Op): (r: Fleet) {
    if !Allowed(f, op) then f
    else if op.Run? then
      var (db, reply) := Execute(f.db, op.c, op.id);
      f.(db := db, holdings := f.holdings + if reply.Success? then HoldingsOf(reply.value) else {})
    else f.(db := Step(f.db, op))
  }

  function FleetAfter(f: Fleet, ops: seq<Op>): (r: Fleet)
    decreases |ops|
  {
    if ops == [] then f else FleetStep(FleetAfter(f, ops[..|ops| - 1]), ops[|ops| - 1])
  }

  /** While the lease is held, the job's attempts are the ones its holder was told. */
  predicate Fits(t: Tables, h: Holding) {
    h.token < t.nextToken && (Holds(t.jobs, h.job, h.token) ==> t.jobs[h.job].attempts == h.attempts)
  }

  ghost predicate AllFit(t: Tables, holdings: set<Holding>) {
    forall h :: h in holdings ==> Fits(t, h)
  }

  /** A job that may still be claimed has an attempt left; a running one has used at most all. */
  predicate WithinBudget(job: Job, limit: int) {
    && (job.status.Pending? || job.status.Queued? ==> job.attempts < limit)
    && (job.status.Running? ==> job.attempts <= limit)
  }

  ghost predicate InBudget(t: Tables, limit: int) {
    forall j :: j in t.jobs ==> WithinBudget(t.jobs[j], limit)
  }

  ghost predicate RowsFit(s: Db) {
    forall k :: k in s.rows && s.rows[k].Completed? ==> AllFit(s.t, HoldingsOf(s.rows[k].response))
  }

  ghost predicate FleetSound(f: Fleet) {
    1 <= f.limit && Sound(f.db) && AllFit(f.db.t, f.holdings) && RowsFit(f.db) && InBudget(f.db.t, f.limit)
  }

  lemma FitsStays(t: Tables, t': Tables, h: Holding)
    requires Moves(t, t') && Fits(t, h)
    ensures Fits(t', h)
  {
    assert h.job in t.jobs ==> Move(t, t.jobs[h.job], t'.jobs[h.job]);
  }

  lemma AllFitStays(t: Tables, t': Tables, holdings: set<Holding>)
    requires Moves(t, t') && AllFit(t, holdings)
    ensures AllFit(t', holdings)
  {
    hide Moves, Fits;
    forall h | h in holdings ensures Fits(t', h) { FitsStays(t, t', h); }
  }

  /** A transaction tells its caller the attempts it has written. */
  lemma MutateTellsAttempts(t: Tables, c: Command, id: CommandId)
    requires Mutate(t, c, id).Success?
    ensures AllFit(Mutate(t, c, id).value.0, HoldingsOf(Mutate(t, c, id).value.1))
  {
    match c
    case Claim(_, _, _, _, _, _) =>
    case Recover(_, _, _, _) => RecoverTellsAttempts(t, c);
    case Release(_, _, _, _, _) =>
    case Schedule(_, _, _, _, _, _) => hide Least, KeyHolders, SlotHolders;
    case _ =>
  }

  lemma RecoverTellsAttempts(t: Tables, c: Command)
    requires c.Recover?
    ensures AllFit(RecoverLeases(t, c).value.0, HoldingsOf(RecoverLeases(t, c).value.1))
  {
    hide ToRecover;
    var (t', response) := RecoverLeases(t, c).value;
    forall h | h in HoldingsOf(response) ensures Fits(t', h) {
      var i :| 0 <= i < |response.leases| && h == Holding(response.leases[i].job, response.leases[i].token, response.leases[i].attempts);
    }
  }

  /** A replay tells nothing that the stored response did not. */
  lemma ReplayTellsLess(t: Tables, c: Command, stored: Response)
    ensures HoldingsOf(ReplayStored(t, c, stored).1) <= HoldingsOf(stored)
  {
    if c.Recover? && stored.Recovered? {
      var renewed := RenewedJobs(t, stored.leases, c.worker, c.process);
      EntriesAreStored(stored.leases, renewed);
    }
  }

  lemma {:induction false} EntriesAreStored(stored: seq<ExpiredLease>, renewed: set<JobId>)
    ensures forall e :: e in EntriesFor(stored, renewed) ==> e in stored
    decreases |stored|
  {
    if stored != [] {
      EntriesAreStored(stored[..|stored| - 1], renewed);
    }
  }

  lemma ExecuteTellsAttempts(s: Db, c: Command, id: CommandId)
    requires Sound(s) && RowsFit(s)
    ensures var (s', reply) := Execute(s, c, id);
            RowsFit(s') && (reply.Success? ==> AllFit(s'.t, HoldingsOf(reply.value)))
  {
    hide Sound, Moves, Mutate, ReplayStored, HoldingsOf, AllFit, RequestOf, KeyOf;
    var (s', reply) := Execute(s, c, id);
    ExecuteSound(s, c, id);
    forall k | k in s.rows && s.rows[k].Completed? ensures AllFit(s'.t, HoldingsOf(s.rows[k].response)) {
      AllFitStays(s.t, s'.t, HoldingsOf(s.rows[k].response));
    }
    if reply.Success? {
      if LiveAt(s.rows, KeyOf(c, id), s.t.now) {
        ReplayTellsLess(s.t, c, s.rows[KeyOf(c, id)].response);
        FewerFit(s'.t, HoldingsOf(reply.value), HoldingsOf(s.rows[KeyOf(c, id)].response));
      } else {
        MutateTellsAttempts(s.t, c, id);
      }
    }
  }

  lemma FewerFit(t: Tables, a: set<Holding>, b: set<Holding>)
    requires a <= b && AllFit(t, b)
    ensures AllFit(t, a)
  {
  }

  // ---------------------------------------------------------------- the budget

  predicate NoneReturned(t: Tables, t': Tables) {
    forall j :: j in t.jobs && j in t'.jobs && t.jobs[j].status.Running? ==> !t'.jobs[j].status.Pending?
  }

  lemma BudgetKept(t: Tables, t': Tables, limit: int)
    requires Moves(t, t') && NoneReturned(t, t') && InBudget(t, limit) && 1 <= limit
    ensures InBudget(t', limit)
  {
    forall j | j in t'.jobs ensures WithinBudget(t'.jobs[j], limit) {
      if j in t.jobs {
        assert Move(t, t.jobs[j], t'.jobs[j]) && WithinBudget(t.jobs[j], limit);
      } else {
        assert NewRow(t, j, t'.jobs[j]);
      }
    }
  }

  lemma MutateReturnsNone(t: Tables, c: Command, id: CommandId)
    requires !c.Release? && Mutate(t, c, id).Success? && RowsSound(t)
    ensures NoneReturned(t, Mutate(t, c, id).value.0)
  {
    hide SelectRuntime, Least, KeyHolders, SlotHolders, ToRecover, FreeSlot, TakeSlot, Records;
  }

  lemma OthersReturnNone(s: Db, op: Op)
    requires !op.Run?
    ensures NoneReturned(s.t, Step(s, op).t)
  {
    hide RunningOn;
  }

  lemma ReplayReturnsNone(t: Tables, c: Command, stored: Response)
    ensures NoneReturned(t, ReplayStored(t, c, stored).0)
  {
  }

  /** A release under the budget gives back a job with an attempt left. */
  lemma ReleaseKeepsBudget(t: Tables, c: Command, limit: int, h: Holding)
    requires c.Release? && ReleaseJob(t, c).Success? && InBudget(t, limit)
    requires Fits(t, h) && h.job == c.job && h.token == c.token && h.attempts < limit
    ensures InBudget(ReleaseJob(t, c).value.0, limit)
  {
  }

  lemma RunKeepsBudget(f: Fleet, c: Command, id: CommandId)
    requires FleetSound(f) && Allowed(f, Run(c, id))
    ensures InBudget(Execute(f.db, c, id).0.t, f.limit)
  {
    hide Mutate, ReplayStored, Moves, TablesSound, RowsFit, RequestOf, KeyOf, InBudget, NoneReturned;
    var s := f.db;
    ExecuteSound(s, c, id);
    if LiveAt(s.rows, KeyOf(c, id), s.t.now) {
      ReplayReturnsNone(s.t, c, s.rows[KeyOf(c, id)].response);
      if Execute(s, c, id).0 != s {
        BudgetKept(s.t, Execute(s, c, id).0.t, f.limit);
      }
    } else if Execute(s, c, id).0 != s {
      if c.Release? {
        var h :| h in f.holdings && h.job == c.job && h.token == c.token && h.attempts < f.limit;
        MutateIsRelease(s.t, c, id);
        ReleaseKeepsBudget(s.t, c, f.limit, h);
      } else {
        TablesRows(s.t);
        MutateReturnsNone(s.t, c, id);
        BudgetKept(s.t, Execute(s, c, id).0.t, f.limit);
      }
    }
  }

  lemma MutateIsRelease(t: Tables, c: Command, id: CommandId)
    requires c.Release?
    ensures Mutate(t, c, id) == ReleaseJob(t, c)
  {
  }

  lemma TablesRows(t: Tables)
    requires TablesSound(t)
    ensures RowsSound(t)
  {
  }

  lemma PurgeKeepsFit(s: Db, op: Op)
    requires Sound(s) && RowsFit(s) && !op.Run?
    ensures RowsFit(Step(s, op))
  {
    hide Sound, Moves, HoldingsOf, AllFit, DispatchJob, RenewLease, UpsertNode, HeartbeatRow, CancelStaleJobs;
    StepSound(s, op);
    var s' := Step(s, op);
    forall k | k in s'.rows && s'.rows[k].Completed? ensures AllFit(s'.t, HoldingsOf(s'.rows[k].response)) {
      assert k in s.rows && s'.rows[k] == s.rows[k];
      AllFitStays(s.t, s'.t, HoldingsOf(s.rows[k].response));
    }
  }

  lemma FleetStepSound(f: Fleet, op: Op)
    requires FleetSound(f)
    ensures FleetSound(FleetStep(f, op))
  {
    hide Sound, Moves, AllFit, RowsFit, InBudget, NoneReturned, HoldingsOf, Step, Execute, Allowed;
    if Allowed(f, op) {
      var s' := Step(f.db, op);
      StepSound(f.db, op);
      AllFitStays(f.db.t, s'.t, f.holdings);
      if op.Run? {
        RunIsExecute(f.db, op.c, op.id);
        RunKeepsBudget(f, op.c, op.id);
        ExecuteTellsAttempts(f.db, op.c, op.id);
        if Execute(f.db, op.c, op.id).1.Success? {
          BothFit(s'.t, f.holdings, HoldingsOf(Execute(f.db, op.c, op.id).1.value));
        } else {
          assert FleetStep(f, op).holdings == f.holdings;
        }
      } else {
        OthersReturnNone(f.db, op);
        BudgetKept(f.db.t, s'.t, f.limit);
        PurgeKeepsFit(f.db, op);
      }
    }
  }

  lemma RunIsExecute(s: Db, c: Command, id: CommandId)
    ensures Step(s, Run(c, id)) == Execute(s, c, id).0
  {
  }

  lemma BothFit(t: Tables, a: set<Holding>, b: set<Holding>)
    requires AllFit(t, a) && AllFit(t, b)
    ensures AllFit(t, a + b)
  {
  }

  lemma {:induction false} FleetRunSound(f: Fleet, ops: seq<Op>)
    requires FleetSound(f)
    ensures FleetSound(FleetAfter(f, ops))
    decreases |ops|
  {
    hide FleetSound, FleetStep;
    if ops != [] {
      FleetRunSound(f, ops[..|ops| - 1]);
      FleetStepSound(FleetAfter(f, ops[..|ops| - 1]), ops[|ops| - 1]);
    }
  }

  /** With one limit of at least one, in every run a job that waits has fewer attempts than the
      limit and a running one has at most that many; and what a holder was told about attempts
      is true for as long as it holds the lease. */
  lemma RetriesAreBounded(cfg: Config, now: Time, limit: int, ops: seq<Op>, j: JobId)
    requires 1 <= limit
    ensures var f := FleetAfter(Fleet(Initial(cfg, now), limit, {}), ops);
            && f.limit == limit
            && (j in f.db.t.jobs ==>
                  var job := f.db.t.jobs[j];
                  && (job.status == Pending || job.status == Queued ==> job.attempts < limit)
                  && (job.status == Running ==> job.attempts <= limit))
            && forall h :: h in f.holdings && Holds(f.db.t.jobs, h.job, h.token) ==> f.db.t.jobs[h.job].attempts == h.attempts
  {
    FleetRunSound(Fleet(Initial(cfg, now), limit, {}), ops);
    FleetKeepsLimit(Fleet(Initial(cfg, now), limit, {}), ops);
  }

  lemma {:induction false} FleetKeepsLimit(f: Fleet, ops: seq<Op>)
    ensures FleetAfter(f, ops).limit == f.limit
    decreases |ops|
  {
    hide Allowed, Execute, Step, HoldingsOf;
    if ops != [] {
      FleetKeepsLimit(f, ops[..|ops| - 1]);
    }
  }

  ghost predicate AllAllowed(f: Fleet, ops: seq<Op>)
    decreases |ops|
  {
    ops == [] || (AllAllowed(f, ops[..|ops| - 1]) && Allowed(FleetAfter(f, ops[..|ops| - 1]), ops[|ops| - 1]))
  }

  /** The fleet holds nothing back but releases: a run without a release over the limit is a run of the
      database, and every reply of its last operation is known. */
  lemma {:induction false} FleetIsTheDatabase(f: Fleet, ops: seq<Op>)
    requires AllAllowed(f, ops)
    ensures FleetAfter(f, ops).db == After(f.db, ops)
    ensures ops != [] && ops[|ops| - 1].Run? ==>
              var before, op := After(f.db, ops[..|ops| - 1]), ops[|ops| - 1];
              var reply := Execute(before, op.c, op.id).1;
              reply.Success? ==> HoldingsOf(reply.value) <= FleetAfter(f, ops).holdings
    decreases |ops|
  {
    hide Allowed, Execute, HoldingsOf;
    if ops != [] {
      FleetIsTheDatabase(f, ops[..|ops| - 1]);
    }
  }

  /** The calls an executor makes are allowed: whatever failed, it releases only under the limit. */
  lemma ExecutorIsAllowed(f: Fleet, h: Holding, cause: Cause, retryAt: Time, id: CommandId)
    requires h in f.holdings
    ensures Allowed(f, Run(FailureCall(f.limit, h, cause, retryAt), id))
    ensures Allowed(f, Run(RetryCall(f.limit, h, cause, retryAt), id))
    ensures RetryCall(f.limit, h, cause, retryAt).Release? <==> h.attempts < f.limit
    ensures FailureCall(f.limit, h, cause, retryAt).Release? ==> ClassifyExecutionFailure(Some(cause)).kind.System?
  {
  }
}
