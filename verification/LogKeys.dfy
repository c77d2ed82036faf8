/**
 Which logs are counted, and by what key a log that carries none is known
 (logAnalyticsEventKey and collectLogAnalyticsEvents in
 internal/repository/joblogs/process_logs_analytics.go, LogEventKey in
 internal/pkg/idempotency/idempotency.go).
 */
module LogKeys {
  import opened Prelude
  import opened LogCounters
  import opened LogCounterTheorems
  import opened LogCounterOrder

  // ---------------------------------------------------------------- derived keys

  lemma {:induction false} DecimalDigits(n: nat)
    ensures Decimal(n) != [] && forall i :: 0 <= i < |Decimal(n)| ==> '0' <= Decimal(n)[i] <= '9'
  {
    if 10 <= n {
      DecimalDigits(n / 10);
    }
  }

  lemma {:induction false} DecimalIsInjective(m: nat, n: nat)
    requires Decimal(m) == Decimal(n)
    ensures m == n
  {
    DecimalDigits(m / 10);
    DecimalDigits(n / 10);
    if 10 <= m && 10 <= n {
      var a, b := Decimal(m), Decimal(n);
      assert a[..|a| - 1] == Decimal(m / 10) && b[..|b| - 1] == Decimal(n / 10);
      assert a[|a| - 1] == b[|b| - 1];
      DecimalIsInjective(m / 10, n / 10);
    }
  }

  /** What stands before the first separator and after it determine a text. */
  lemma {:induction false} SplitsOnce(a: string, b: string, x: string, y: string, separator: char)
    requires a + [separator] + x == b + [separator] + y && separator !in a && separator !in b
    ensures a == b && x == y
  {
    var s, t := a + [separator] + x, b + [separator] + y;
    assert s[|a|] == separator && t[|b|] == separator;
    assert s[..|a|] == a && t[..|b|] == b;
    assert forall i :: 0 <= i < |a| ==> s[i] == a[i];
    assert forall i :: 0 <= i < |b| ==> t[i] == b[i];
    assert |a| == |b|;
    assert s[|a| + 1..] == x && t[|b| + 1..] == y;
  }

  /** Derived keys of jobs and streams without the separator are equal exactly for the same log of the
      same stream of the same job. */
  lemma DerivedExactly(job: string, stream: string, sequence: nat, job': string, stream': string, sequence': nat)
    requires ':' !in job && ':' !in job' && ':' !in stream && ':' !in stream'
    ensures Derived(job, stream, sequence) == Derived(job', stream', sequence') <==>
              job == job' && stream == stream' && sequence == sequence'
  {
    var a, b := Derived(job, stream, sequence), Derived(job', stream', sequence');
    if a == b {
      var x, y := stream + [':'] + Decimal(sequence), stream' + [':'] + Decimal(sequence');
      assert a == "log:" + (job + [':'] + x) && b == "log:" + (job' + [':'] + y);
      assert a[4..] == job + [':'] + x && b[4..] == job' + [':'] + y;
      SplitsOnce(job, job', x, y, ':');
      SplitsOnce(stream, stream', Decimal(sequence), Decimal(sequence'), ':');
      DecimalIsInjective(sequence, sequence');
    }
  }

  /** A log is known by the key it carries, or else by its job, stream and number if it has both names;
      else it has no key. */
  lemma KeyOfLog(log: Log)
    ensures var key := LogAnalyticsEventKey(log);
            && (log.eventKey != "" ==> key == log.eventKey)
            && (log.eventKey == "" && (log.jobId == "" || log.stream == "") ==> key == "")
            && (log.eventKey == "" && log.jobId != "" && log.stream != "" ==>
                  key == Derived(log.jobId, log.stream, log.sequence) && key != "")
  {
  }

  // ---------------------------------------------------------------- what counts

  /** A log by itself is counted, for its user and workflow, exactly when it names both, has a key,
      and the key is new; otherwise nothing changes. */
  lemma OneLogCounts(s: Store, log: Log)
    ensures var r, key := Apply(s, [Some(log)]), LogAnalyticsEventKey(log);
            if log.workflow != "" && log.user != "" && (log.eventKey != "" || (log.jobId != "" && log.stream != ""))
               && key !in s.processed
            then
              var row := (log.user, log.workflow);
              && r.processed == s.processed + {key} && r.credited == s.credited[key := Owner(log.workflow, log.user)]
              && r.counts == s.counts[row := (if row in s.counts then s.counts[row] else 0) + 1]
            else r == s
  {
    KeyOfLog(log);
    var key, owner := LogAnalyticsEventKey(log), Owner(log.workflow, log.user);
    hide LogAnalyticsEventKey, Apply, AddCounts;
    if log.workflow == "" || log.user == "" || key == "" {
      NotCounted(s, log);
    } else if key in s.processed {
      AlreadyCounted(s, log);
    } else {
      OneAlone(s, key, owner, Some(log));
      AddSingle(s.counts, log.workflow, Entry(log.user, 1));
    }
  }

  lemma NotCounted(s: Store, log: Log)
    requires log.workflow == "" || log.user == "" || LogAnalyticsEventKey(log) == ""
    ensures Apply(s, [Some(log)]) == s
  {
    assert [Some(log)][..0] == [] && !Countable(Some(log));
    assert Firsts([Some(log)]) == [];
    NothingToCount(s, [Some(log)]);
  }

  lemma AlreadyCounted(s: Store, log: Log)
    requires log.workflow != "" && log.user != "" && LogAnalyticsEventKey(log) != ""
    requires LogAnalyticsEventKey(log) in s.processed
    ensures Apply(s, [Some(log)]) == s
  {
    assert [Some(log)][..0] == [];
    assert Firsts([Some(log)]) == [(LogAnalyticsEventKey(log), Owner(log.workflow, log.user))];
    RepeatChangesNothing(s, [Some(log)]);
  }
}
