/**
 When two commands are the same command, for how long it is remembered, and what a repeated one
 is answered (reserve and replay in internal/repository/jobs/lease.go and
 internal/repository/jobs/jobs.go).
 */
module JobRequests {
  import opened Prelude
  import opened CommandLedger
  import opened JobTables
  import opened JobDatabase
  import Utf8

  // ---------------------------------------------------------------- identity

  /** Durations count in whole seconds, at least one. */
  predicate SameDuration(a: Time, b: Time) {
    if a < 2 * SECOND then b < 2 * SECOND else a / SECOND == b / SECOND
  }

  /** A batch that is not positive counts as one hundred. */
  predicate SameBatch(a: int, b: int) {
    if a <= 0 then b <= 0 || b == 100 else b == a || (a == 100 && b <= 0)
  }

  /** Two requests are the same when everything the caller asks for is: of a lease its length in
      seconds, of a message what is kept of it, and of an occurrence neither the instant nor whether
      it is keyed, which are part of its key, nor a manual run's generation. */
  lemma SameRequestExactly(a: Command, b: Command)
    ensures RequestOf(a) == RequestOf(b) <==>
              match (a, b)
              case (Claim(j, w, x, p, d, n), Claim(j', w', x', p', d', n')) =>
                j == j' && w == w' && x == x' && p == p' && n == n' && SameDuration(d, d')
              case (Attach(j, t, k, n), Attach(j', t', k', n')) => j == j' && t == t' && k == k' && n == n'
              case (Complete(j, t), Complete(j', t')) => j == j' && t == t'
              case (Fail(j, t, f, r), Fail(j', t', f', r')) =>
                j == j' && t == t' && r == r' && f.kind == f'.kind && f.code == f'.code
                && Utf8.Truncate(f.message) == Utf8.Truncate(f'.message)
              case (CancelClaimed(j, t, r), CancelClaimed(j', t', r')) => j == j' && t == t' && r == r'
              case (Release(j, t, n, c, m), Release(j', t', n', c', m')) =>
                j == j' && t == t' && n == n' && c == c' && Utf8.Truncate(m) == Utf8.Truncate(m')
              case (Recover(n, x, p, d), Recover(n', x', p', d')) =>
                SameBatch(n, n') && x == x' && p == p' && SameDuration(d, d')
              case (CancelJob(j, r), CancelJob(j', r')) => j == j' && r == r'
              case (Schedule(w, u, _, t, _, g), Schedule(w', u', _, t', _, g')) =>
                w == w' && u == u' && t == t' && (t == Automatic ==> g == g')
              case _ => false
  {
    hide Utf8.Truncate;
  }

  /** Two commands have the same key when they are the same operation, in the same scope (the process
      for claims and recoveries, the workflow or else the user for a run, the job otherwise), under
      the same identifier; a run without a key of its own goes by its workflow and instant. */
  lemma SameKeyExactly(a: Command, id: CommandId, b: Command, id': CommandId)
    ensures KeyOf(a, id) == KeyOf(b, id') <==>
              match (a, b)
              case (Claim(_, _, _, p, _, _), Claim(_, _, _, p', _, _)) => p == p' && id == id'
              case (Attach(j, _, _, _), Attach(j', _, _, _)) => j == j' && id == id'
              case (Complete(j, _), Complete(j', _)) => j == j' && id == id'
              case (Fail(j, _, _, _), Fail(j', _, _, _)) => j == j' && id == id'
              case (CancelClaimed(j, _, _), CancelClaimed(j', _, _)) => j == j' && id == id'
              case (Release(j, _, _, _, _), Release(j', _, _, _, _)) => j == j' && id == id'
              case (Recover(_, _, p, _), Recover(_, _, p', _)) => p == p' && id == id'
              case (CancelJob(j, _), CancelJob(j', _)) => j == j' && id == id'
              case (Schedule(w, u, at, t, keyed, _), Schedule(w', u', at', t', keyed', _)) =>
                w == w' && t == t'
                && (if t == Manual then u == u' && id == id'
                    else (if keyed then id else OccurrenceOf(w, at)) == (if keyed' then id' else OccurrenceOf(w', at')))
              case _ => false
  {
  }

  /** Answers are kept for a day, and those of cancellations and automatic runs as long as events. */
  lemma KeptFor(cfg: Config, c: Command)
    ensures Retention(cfg, c) == match c
            case CancelJob(_, _) => cfg.eventRetention
            case Schedule(_, _, _, Automatic, _, _) => cfg.eventRetention
            case _ => 86_400 * SECOND
  {
  }

  /** A key that lives: another request is refused; the same one is told to ask again while the first
      is under way, and otherwise, unless a lease is to be looked at, gets the stored answer. Nothing
      changes. */
  lemma RepeatedAnswers(s: Db, c: Command, id: CommandId)
    requires LiveAt(s.rows, KeyOf(c, id), s.t.now)
    ensures var row := s.rows[KeyOf(c, id)];
            var same := RequestOf(c) == row.hash || RequestOf(c) in row.aliases;
            && (!same ==> Execute(s, c, id) == (s, Failure(AlreadyExists)))
            && (same && row.Processing? ==> Execute(s, c, id) == (s, Failure(Aborted)))
            && (same && row.Completed? && !c.Claim? && !(c.Recover? && row.response.Recovered?) ==>
                  Execute(s, c, id) == (s, Success(row.response)))
  {
    var row := s.rows[KeyOf(c, id)];
    forall h ensures h in [RequestOf(c)] + [] <==> h == RequestOf(c) {}
    assert HashesMeet(row.hash, row.aliases, RequestOf(c), []) <==> RequestOf(c) in [row.hash] + row.aliases;
  }

  /** A command whose answer would be kept for no time is rolled back. */
  lemma KeptForNoTime(s: Db, c: Command, id: CommandId)
    requires !LiveAt(s.rows, KeyOf(c, id), s.t.now) && Retention(s.t.cfg, c) <= 0
    ensures Execute(s, c, id).0 == s && Execute(s, c, id).1.Failure?
    ensures Mutate(s.t, c, id).Success? ==> Execute(s, c, id).1 == Failure(Internal)
  {
    hide Mutate;
  }

  // ---------------------------------------------------------------- repeated claims and recoveries

  /** A repeated claim is answered from its stored answer; a stored grant only while the lease it gave is
      held by the same worker and process for the same dispatch and has not expired, and then with the
      expiry it has now. Nothing changes. */
  lemma RepeatedClaimAnswers(s: Db, c: Command, id: CommandId)
    requires c.Claim? && LiveAt(s.rows, KeyOf(c, id), s.t.now)
    requires s.rows[KeyOf(c, id)].Completed? && s.rows[KeyOf(c, id)].hash == RequestOf(c)
    ensures var (s', reply) := Execute(s, c, id);
            var stored := s.rows[KeyOf(c, id)].response;
            && s' == s && reply.Success?
            && (!stored.Granted? ==> reply.value == stored)
            && (stored.Granted? ==>
                  if c.job in s.t.jobs && s.t.jobs[c.job].status == Running && s.t.jobs[c.job].lease.Some?
                     && s.t.jobs[c.job].lease.value.token == stored.grant.token
                     && s.t.jobs[c.job].lease.value.worker == c.worker
                     && s.t.jobs[c.job].lease.value.process == c.process
                     && s.t.jobs[c.job].dispatchAttempts == c.dispatch
                     && s.t.now < s.t.jobs[c.job].lease.value.expiresAt
                  then reply.value == Granted(stored.grant.(expiresAt := s.t.jobs[c.job].lease.value.expiresAt))
                  else reply.value == Denied(LeaseInactive))
  {
    MeetsItself(RequestOf(c));
  }

  lemma MeetsItself(request: Command)
    ensures HashesMeet(request, [], request, []) && forall aliases :: HashesMeet(request, aliases, request, [])
  {
    assert request in [request] + [];
    forall aliases: seq<Command> ensures HashesMeet(request, aliases, request, []) {
      assert request in [request] + aliases;
    }
  }

  /** The lease that this entry gave is still the caller's and has not expired. */
  predicate Keeps(t: Tables, e: ExpiredLease, c: Command)
    requires c.Recover?
  {
    && e.job in t.jobs && t.jobs[e.job].status == Running
    && match t.jobs[e.job].lease
       case None => false
       case Some(lease) =>
         lease.token == e.token && lease.worker == c.worker && lease.process == c.process && t.now < lease.expiresAt
  }

  /** A repeated recovery prolongs exactly the leases that it gave and that are still held, by the duration
      in whole seconds, and answers with the stored entries of those jobs in their order. */
  lemma RepeatedRecoveryAnswers(s: Db, c: Command, id: CommandId)
    requires c.Recover? && LiveAt(s.rows, KeyOf(c, id), s.t.now)
    requires s.rows[KeyOf(c, id)].Completed? && s.rows[KeyOf(c, id)].hash == RequestOf(c)
    requires s.rows[KeyOf(c, id)].response.Recovered?
    ensures var (s', reply) := Execute(s, c, id);
            var stored := s.rows[KeyOf(c, id)].response.leases;
            && s' == s.(t := s.t.(jobs := s'.t.jobs)) && s'.t.jobs.Keys == s.t.jobs.Keys
            && reply.Success? && reply.value.Recovered?
            && reply.value.leases == Kept(s.t, stored, c, stored)
            && (forall j :: j in s.t.jobs ==>
                  if exists e :: e in stored && e.job == j && Keeps(s.t, e, c) then
                    s.t.jobs[j].lease.Some?
                    && var until := s.t.now + LeaseSeconds(c.duration) * SECOND;
                       s'.t.jobs[j] == s.t.jobs[j].(lease := Some(s.t.jobs[j].lease.value.(expiresAt := until)))
                  else s'.t.jobs[j] == s.t.jobs[j])
  {
    hide Keeps, RenewedJobs, EntriesFor, Kept, RequestOf, KeyOf;
    MeetsItself(RequestOf(c));
    var stored := s.rows[KeyOf(c, id)].response.leases;
    var renewed := RenewedJobs(s.t, stored, c.worker, c.process);
    KeptAreEntries(s.t, stored, c, stored);
    RenewedAre(s.t, stored, c);
    assert Execute(s, c, id).1 == Success(Recovered(EntriesFor(stored, renewed)));
    assert Execute(s, c, id).0.t.jobs == RenewRows(s.t, renewed, s.t.now + LeaseSeconds(c.duration) * SECOND);
  }

  /** The entries of `stored` whose job has an entry of `given` that is kept. */
  ghost function Kept(t: Tables, given: seq<ExpiredLease>, c: Command, stored: seq<ExpiredLease>): (r: seq<ExpiredLease>)
    requires c.Recover?
    decreases |stored|
  {
    if stored == [] then []
    else
      var e := stored[|stored| - 1];
      Kept(t, given, c, stored[..|stored| - 1])
      + if exists k :: k in given && k.job == e.job && Keeps(t, k, c) then [e] else []
  }

  lemma RenewedAre(t: Tables, stored: seq<ExpiredLease>, c: Command)
    requires c.Recover?
    ensures var renewed := RenewedJobs(t, stored, c.worker, c.process);
            && (forall j :: j in renewed <==> exists e :: e in stored && e.job == j && Keeps(t, e, c))
            && (forall j :: j in renewed ==> j in t.jobs && t.jobs[j].lease.Some?)
  {
    assert forall e :: StillRecovering(t, e, c.worker, c.process) <==> Keeps(t, e, c);
  }

  lemma {:induction false} KeptAreEntries(t: Tables, given: seq<ExpiredLease>, c: Command, stored: seq<ExpiredLease>)
    requires c.Recover?
    ensures Kept(t, given, c, stored) == EntriesFor(stored, RenewedJobs(t, given, c.worker, c.process))
    decreases |stored|
  {
    hide Keeps, RenewedJobs;
    RenewedAre(t, given, c);
    if stored != [] {
      KeptAreEntries(t, given, c, stored[..|stored| - 1]);
    }
  }
}
