/**
 Replay-safe log counters (internal/repository/joblogs/process_logs_analytics.go).

 A log is counted when its key is first inserted into the table of processed events, in the
 same transaction. The key of a log that carries none is derived from its job, stream and
 sequence number; how such a key is written down does not matter here.
 */
module LogCounters {
  import opened Prelude
  import opened Ordering

  datatype Log = Log(eventKey: string, jobId: string, stream: string, sequence: nat, workflow: string, user: string)

  /** Whose log a key is. */
  datatype Owner = Owner(workflow: string, user: string)

  type Batch = seq<Option<Log>>
  type Row = (string, string)    // (user_id, workflow_id)

  datatype Entry = Entry(user: string, count: nat)

  /** The tables; `credited` records for every processed key the owner it was counted for. */
  datatype Store = Store(processed: set<string>, counts: map<Row, nat>, credited: map<string, Owner>)

  function Derived(jobId: string, stream: string, sequence: nat): (key: string) {
    "log:" + jobId + ":" + stream + ":" + Decimal(sequence)
  }

  function Decimal(n: nat): (r: string) {
    if n < 10 then [('0' as int + n) as char] else Decimal(n / 10) + [('0' as int + n % 10) as char]
  }

  function LogAnalyticsEventKey(log: Log): (key: string) {
    if log.eventKey != "" then log.eventKey
    else if log.jobId == "" || log.stream == "" then ""
    else Derived(log.jobId, log.stream, log.sequence)
  }

  /** A log that can be counted. */
  predicate Countable(item: Option<Log>) {
    item.Some? && LogAnalyticsEventKey(item.value) != "" && item.value.workflow != "" && item.value.user != ""
  }

  function EventOf(item: Option<Log>): (e: (string, Owner))
    requires Countable(item)
  {
    (LogAnalyticsEventKey(item.value), Owner(item.value.workflow, item.value.user))
  }

  predicate HasKey(events: Entries<Owner>, key: string) {
    exists i :: 0 <= i < |events| && events[i].0 == key
  }

  /** The first countable log of each key, in the order of the batch. */
  function Firsts(batch: Batch): (events: Entries<Owner>)
    decreases |batch|
  {
    if batch == [] then []
    else
      var before, item := Firsts(batch[..|batch| - 1]), batch[|batch| - 1];
      if Countable(item) && !HasKey(before, EventOf(item).0) then before + [EventOf(item)] else before
  }

  function Collect(batch: Batch): (events: Entries<Owner>) {
    Sort(Firsts(batch))
  }

  // ---------------------------------------------------------------- counting

  function Count(events: Entries<Owner>, inserted: set<string>): (counts: map<string, Entry>)
    decreases |events|
  {
    if events == [] then map[]
    else
      var before, e := Count(events[..|events| - 1], inserted), events[|events| - 1];
      if e.0 !in inserted then before
      else if e.1.workflow in before then
        before[e.1.workflow := before[e.1.workflow].(count := before[e.1.workflow].count + 1)]
      else before[e.1.workflow := Entry(e.1.user, 1)]
  }

  function CountOf(counts: map<Row, nat>, row: Row): (n: nat) {
    if row in counts then counts[row] else 0
  }

  function Added(added: map<string, Entry>, row: Row): (n: nat) {
    if row.1 in added && added[row.1].user == row.0 then added[row.1].count else 0
  }

  predicate Touches(added: map<string, Entry>, workflow: string) {
    workflow in added && added[workflow].count != 0
  }

  function AddCounts(counts: map<Row, nat>, added: map<string, Entry>): (r: map<Row, nat>) {
    var touched := set workflow | workflow in added && Touches(added, workflow) :: (added[workflow].user, workflow);
    map row | row in counts.Keys + touched :: CountOf(counts, row) + Added(added, row)
  }

  function Inserted(processed: set<string>, events: Entries<Owner>): (inserted: set<string>) {
    set i | 0 <= i < |events| && events[i].0 !in processed :: events[i].0
  }

  function Credit(credited: map<string, Owner>, events: Entries<Owner>, inserted: set<string>): (r: map<string, Owner>)
    decreases |events|
  {
    if events == [] then credited
    else
      var before, e := Credit(credited, events[..|events| - 1], inserted), events[|events| - 1];
      if e.0 in inserted then before[e.0 := e.1] else before
  }

  /** One batch, in one transaction. */
  function Apply(s: Store, batch: Batch): (r: Store) {
    var events := Collect(batch);
    var inserted := Inserted(s.processed, events);
    Store(s.processed + inserted, AddCounts(s.counts, Count(events, inserted)), Credit(s.credited, events, inserted))
  }

  function ApplyAll(s: Store, batches: seq<Batch>): (r: Store)
    decreases |batches|
  {
    if batches == [] then s else Apply(ApplyAll(s, batches[..|batches| - 1]), batches[|batches| - 1])
  }

  const Empty := Store({}, map[], map[])

  // ---------------------------------------------------------------- the transaction

  class Repository {
    var processed: set<string>
    var counts: map<Row, nat>
    ghost var credited: map<string, Owner>

    constructor ()
      ensures View() == Empty
    {
      processed, counts, credited := {}, map[], map[];
    }

    ghost function View(): (s: Store)
      reads this
    {
      Store(processed, counts, credited)
    }

    method CollectLogAnalyticsEvents(batch: Batch) returns (events: Entries<Owner>)
      ensures events == Collect(batch)
    {
      var seen: set<string> := {};
      events := [];
      for i := 0 to |batch|
        invariant events == Firsts(batch[..i])
        invariant forall key :: key in seen <==> HasKey(events, key)
      {
        assert batch[..i + 1][..i] == batch[..i];
        if batch[i].None? {
          continue;
        }
        var log := batch[i].value;
        var key := LogAnalyticsEventKey(log);
        if key == "" || key in seen || log.workflow == "" || log.user == "" {
          continue;
        }
        ghost var before := events;
        events := events + [(key, Owner(log.workflow, log.user))];
        seen := seen + {key};
        forall k ensures k in seen <==> HasKey(events, k) {
          assert events[|before|].0 == key;
          assert forall n :: 0 <= n < |before| ==> events[n] == before[n];
        }
      }
      assert batch[..|batch|] == batch;
      events := Sort(events);
    }

    method InsertProcessedEvents(events: Entries<Owner>) returns (inserted: set<string>)
      modifies this`processed
      ensures inserted == Inserted(old(processed), events) && processed == old(processed) + inserted
    {
      inserted := {};
      for i := 0 to |events|
        invariant inserted == Inserted(old(processed), events[..i]) && processed == old(processed) + inserted
      {
        var key := events[i].0;
        assert Inserted(old(processed), events[..i + 1])
            == Inserted(old(processed), events[..i]) + if key in old(processed) then {} else {key} by {
          assert events[..i + 1][i] == events[i];
        }
        if key !in processed {
          inserted := inserted + {key};
          processed := processed + {key};
        }
      }
      assert events[..|events|] == events;
    }

    method CountLogAnalyticsEvents(events: Entries<Owner>, inserted: set<string>) returns (added: map<string, Entry>)
      ensures added == Count(events, inserted)
    {
      added := map[];
      for i := 0 to |events|
        invariant added == Count(events[..i], inserted)
      {
        assert events[..i + 1][..i] == events[..i];
        var e := events[i];
        if e.0 in inserted {
          var entry := if e.1.workflow in added then added[e.1.workflow] else Entry(e.1.user, 0);
          added := added[e.1.workflow := entry.(count := entry.count + 1)];
        }
      }
      assert events[..|events|] == events;
    }

    method UpdatePartitionLogCounts(added: map<string, Entry>)
      modifies this`counts
      ensures counts == AddCounts(old(counts), added)
    {
      var rest := added.Keys;
      ghost var before := counts;
      assert counts == AddCounts(before, map[]);
      while rest != {}
        invariant rest <= added.Keys && counts == AddCounts(before, added - rest)
        decreases rest
      {
        var workflow :| workflow in rest;
        ghost var done := added - rest;
        rest := rest - {workflow};
        var entry := added[workflow];
        assert added - rest == done[workflow := entry];
        AddOne(before, done, workflow, entry);
        if entry.count == 0 {
          continue;
        }
        var row := (entry.user, workflow);
        counts := counts[row := CountOf(counts, row) + entry.count];
      }
      assert added - rest == added;
    }

    method ProcessLogsAnalytics(batch: Batch)
      modifies this
      ensures View() == Apply(old(View()), batch)
    {
      var events := CollectLogAnalyticsEvents(batch);
      if |events| == 0 {
        NothingToCount(View(), batch);
        return;
      }
      var inserted := InsertProcessedEvents(events);
      var added := CountLogAnalyticsEvents(events, inserted);
      UpdatePartitionLogCounts(added);
      credited := Credit(credited, events, inserted);
    }
  }

  lemma AddOne(counts: map<Row, nat>, done: map<string, Entry>, workflow: string, entry: Entry)
    requires workflow !in done
    ensures var row := (entry.user, workflow);
            AddCounts(counts, done[workflow := entry])
            == if entry.count == 0 then AddCounts(counts, done)
               else AddCounts(counts, done)[row := CountOf(AddCounts(counts, done), row) + entry.count]
  {
    hide AddCounts;
    var row, more := (entry.user, workflow), done[workflow := entry];
    var a, b := AddCounts(counts, done), AddCounts(counts, more);
    forall r: Row
      ensures r in b <==> r in a || (entry.count != 0 && r == row)
      ensures CountOf(b, r) == CountOf(a, r) + if r == row then entry.count else 0
    {
      AddedRow(counts, done, r);
      AddedRow(counts, more, r);
    }
    var c := if entry.count == 0 then a else a[row := CountOf(a, row) + entry.count];
    assert forall r :: r in b ==> b[r] == CountOf(b, r);
    assert b.Keys == c.Keys && forall r :: r in b ==> b[r] == c[r];
  }

  predicate TouchesRow(added: map<string, Entry>, row: Row) {
    Touches(added, row.1) && added[row.1].user == row.0
  }

  lemma AddedRow(counts: map<Row, nat>, added: map<string, Entry>, row: Row)
    ensures row in AddCounts(counts, added) <==> row in counts || TouchesRow(added, row)
    ensures CountOf(AddCounts(counts, added), row) == CountOf(counts, row) + Added(added, row)
  {
  }

  lemma NothingToCount(s: Store, batch: Batch)
    requires Collect(batch) == []
    ensures Apply(s, batch) == s
  {
    assert AddCounts(s.counts, map[]) == s.counts;
  }
}
