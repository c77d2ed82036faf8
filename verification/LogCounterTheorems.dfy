/**
 What the log counters count, over any sequence of batches with repeats, overlaps, splits and
 duplicates.
 */
module LogCounterTheorems {
  import opened Prelude
  import opened Ordering
  import opened LogCounters

  // ---------------------------------------------------------------- totals

  ghost function SumOver(counts: map<Row, nat>, rows: set<Row>): (n: nat) {
    if rows == {} then 0
    else
      var row :| row in rows;
      CountOf(counts, row) + SumOver(counts, rows - {row})
  }

  function RowsOf(counts: map<Row, nat>, workflow: string): (rows: set<Row>) {
    set row | row in counts && row.1 == workflow
  }

  /** All that is counted for a workflow, under whatever user. */
  ghost function Total(counts: map<Row, nat>, workflow: string): (n: nat) {
    SumOver(counts, RowsOf(counts, workflow))
  }

  function CreditedTo(credited: map<string, Owner>, workflow: string): (keys: set<string>) {
    set key | key in credited && credited[key].workflow == workflow
  }

  lemma {:induction false} SumPull(counts: map<Row, nat>, rows: set<Row>, row: Row)
    requires row in rows
    ensures SumOver(counts, rows) == CountOf(counts, row) + SumOver(counts, rows - {row})
    decreases rows
  {
    var first :| first in rows && SumOver(counts, rows) == CountOf(counts, first) + SumOver(counts, rows - {first});
    if first != row {
      SumPull(counts, rows - {first}, row);
      SumPull(counts, rows - {row}, first);
      assert rows - {first} - {row} == rows - {row} - {first};
    }
  }

  lemma {:induction false} SumSame(a: map<Row, nat>, b: map<Row, nat>, rows: set<Row>)
    requires forall row :: row in rows ==> CountOf(a, row) == CountOf(b, row)
    ensures SumOver(a, rows) == SumOver(b, rows)
    decreases rows
  {
    if rows != {} {
      var row :| row in rows;
      SumPull(a, rows, row);
      SumPull(b, rows, row);
      SumSame(a, b, rows - {row});
    }
  }

  /** How many events of this workflow are newly inserted. */
  function Hits(events: Entries<Owner>, inserted: set<string>, workflow: string): (n: nat)
    decreases |events|
  {
    if events == [] then 0
    else
      var e := events[|events| - 1];
      Hits(events[..|events| - 1], inserted, workflow)
      + if e.0 in inserted && e.1.workflow == workflow then 1 else 0
  }

  lemma {:induction false} CountIsHits(events: Entries<Owner>, inserted: set<string>, workflow: string)
    ensures var counts := Count(events, inserted);
            && (workflow in counts <==> 0 < Hits(events, inserted, workflow))
            && (workflow in counts ==> counts[workflow].count == Hits(events, inserted, workflow))
    decreases |events|
  {
    if events != [] {
      CountIsHits(events[..|events| - 1], inserted, workflow);
    }
  }

  /** A batch adds, for each workflow, its newly inserted events to one of the workflow's rows. */
  lemma AddCountsTotal(counts: map<Row, nat>, events: Entries<Owner>, inserted: set<string>, workflow: string)
    ensures Total(AddCounts(counts, Count(events, inserted)), workflow)
         == Total(counts, workflow) + Hits(events, inserted, workflow)
  {
    hide AddCounts;
    var added := Count(events, inserted);
    var after := AddCounts(counts, added);
    CountIsHits(events, inserted, workflow);
    forall row: Row
      ensures row in after <==> row in counts || TouchesRow(added, row)
      ensures CountOf(after, row) == CountOf(counts, row) + Added(added, row)
    {
      AddedRow(counts, added, row);
    }
    if workflow !in added {
      assert RowsOf(after, workflow) == RowsOf(counts, workflow);
      SumSame(counts, after, RowsOf(counts, workflow));
    } else {
      var row := (added[workflow].user, workflow);
      var others := RowsOf(counts, workflow) - {row};
      assert RowsOf(after, workflow) == others + {row};
      assert RowsOf(after, workflow) - {row} == others;
      SumPull(after, RowsOf(after, workflow), row);
      SumSame(counts, after, others);
      if row in counts {
        SumPull(counts, RowsOf(counts, workflow), row);
      } else {
        assert RowsOf(counts, workflow) == others;
      }
    }
  }

  lemma {:induction false} CreditHits(
    credited: map<string, Owner>, events: Entries<Owner>, inserted: set<string>, workflow: string)
    requires DistinctKeys(events) && inserted !! credited.Keys
    ensures var after := Credit(credited, events, inserted);
            && (forall key :: key in after <==> key in credited || (key in inserted && HasKey(events, key)))
            && (forall key :: key in credited ==> after[key] == credited[key])
            && |CreditedTo(after, workflow)| == |CreditedTo(credited, workflow)| + Hits(events, inserted, workflow)
    decreases |events|
  {
    if events != [] {
      var before, e := events[..|events| - 1], events[|events| - 1];
      CreditHits(credited, before, inserted, workflow);
      var mid, after := Credit(credited, before, inserted), Credit(credited, events, inserted);
      forall key ensures HasKey(events, key) <==> HasKey(before, key) || key == e.0 {
        assert forall i :: 0 <= i < |before| ==> before[i] == events[i];
        assert events[|events| - 1].0 == e.0;
      }
      assert !HasKey(before, e.0) by {
        assert forall i :: 0 <= i < |before| ==> before[i].0 != events[|events| - 1].0;
      }
      if e.0 in inserted {
        assert e.0 !in mid;
        if e.1.workflow == workflow {
          assert CreditedTo(after, workflow) == CreditedTo(mid, workflow) + {e.0};
        } else {
          assert CreditedTo(after, workflow) == CreditedTo(mid, workflow);
        }
      }
    }
  }

  lemma {:induction false} FirstsAreDistinct(batch: Batch)
    ensures DistinctKeys(Firsts(batch))
    decreases |batch|
  {
    if batch != [] {
      FirstsAreDistinct(batch[..|batch| - 1]);
    }
  }

  lemma CollectIsDistinct(batch: Batch)
    ensures DistinctKeys(Collect(batch)) && Ascending(Collect(batch)) && SameEntries(Collect(batch), Firsts(batch))
  {
    FirstsAreDistinct(batch);
    SortSorts(Firsts(batch));
    var events := Collect(batch);
    forall i, k | 0 <= i < k < |events| ensures events[i].0 != events[k].0 {
      LessIsTotal(events[i].0, events[k].0);
    }
  }

  // ---------------------------------------------------------------- the counters are exact

  /** Every workflow's total is the number of keys first inserted for it. */
  ghost predicate Exact(s: Store) {
    s.processed == s.credited.Keys
    && forall workflow :: Total(s.counts, workflow) == |CreditedTo(s.credited, workflow)|
  }

  lemma ApplyKeepsExact(s: Store, batch: Batch)
    requires Exact(s)
    ensures Exact(Apply(s, batch))
    ensures forall key :: key in s.credited ==> key in Apply(s, batch).credited
                                                && Apply(s, batch).credited[key] == s.credited[key]
  {
    hide Collect, Credit, AddCounts, Count, Total;
    CollectIsDistinct(batch);
    var events := Collect(batch);
    var inserted := Inserted(s.processed, events);
    var r := Apply(s, batch);
    forall workflow
      ensures Total(r.counts, workflow) == |CreditedTo(r.credited, workflow)|
    {
      AddCountsTotal(s.counts, events, inserted, workflow);
      CreditHits(s.credited, events, inserted, workflow);
    }
    CreditHits(s.credited, events, inserted, "");
    forall key ensures key in r.processed <==> key in r.credited {
      assert key in inserted ==> HasKey(events, key);
    }
  }

  /** After any sequence of batches, each workflow's count is the number of distinct keys that
      were first inserted for it. */
  lemma {:induction false} CountersAreExact(batches: seq<Batch>)
    ensures Exact(ApplyAll(Empty, batches))
    decreases |batches|
  {
    hide Apply;
    if batches != [] {
      CountersAreExact(batches[..|batches| - 1]);
      ApplyKeepsExact(ApplyAll(Empty, batches[..|batches| - 1]), batches[|batches| - 1]);
    } else {
      assert forall workflow :: RowsOf(map[], workflow) == {} && CreditedTo(map[], workflow) == {};
    }
  }

  // ---------------------------------------------------------------- repeats

  ghost predicate AllProcessed(s: Store, batch: Batch) {
    forall e :: e in Firsts(batch) ==> e.0 in s.processed
  }

  lemma {:induction false} NoneInserted(counts: map<Row, nat>, credited: map<string, Owner>, events: Entries<Owner>)
    ensures Count(events, {}) == map[] && Credit(credited, events, {}) == credited
    decreases |events|
  {
    if events != [] {
      NoneInserted(counts, credited, events[..|events| - 1]);
    }
  }

  /** A batch that brings no new key changes nothing. */
  lemma RepeatChangesNothing(s: Store, batch: Batch)
    requires AllProcessed(s, batch)
    ensures Apply(s, batch) == s
  {
    CollectIsDistinct(batch);
    var events := Collect(batch);
    forall i | 0 <= i < |events| ensures events[i].0 in s.processed {
      assert events[i] in events;
    }
    assert Inserted(s.processed, events) == {};
    NoneInserted(s.counts, s.credited, events);
    assert AddCounts(s.counts, map[]) == s.counts;
  }

  lemma ApplyProcesses(s: Store, batch: Batch)
    ensures AllProcessed(Apply(s, batch), batch)
  {
    CollectIsDistinct(batch);
    forall e | e in Firsts(batch) ensures e.0 in Apply(s, batch).processed {
      assert e in Collect(batch);
    }
  }

  /** Each batch is idempotent, in whatever state and however much of it was processed before. */
  lemma BatchIsIdempotent(s: Store, batch: Batch)
    ensures Apply(Apply(s, batch), batch) == Apply(s, batch)
  {
    hide Apply;
    ApplyProcesses(s, batch);
    RepeatChangesNothing(Apply(s, batch), batch);
  }

  // ---------------------------------------------------------------- where credits come from

  ghost predicate Occurs(batches: seq<Batch>, item: Option<Log>) {
    exists i :: 0 <= i < |batches| && item in batches[i]
  }

  lemma {:induction false} FirstsOccur(batch: Batch)
    ensures forall e :: e in Firsts(batch) ==> exists item :: item in batch && Countable(item) && EventOf(item) == e
    ensures forall item :: item in batch && Countable(item) ==> HasKey(Firsts(batch), EventOf(item).0)
    decreases |batch|
  {
    if batch != [] {
      var before, last := batch[..|batch| - 1], batch[|batch| - 1];
      FirstsOccur(before);
      assert batch == before + [last];
      forall item | item in batch && Countable(item) ensures HasKey(Firsts(batch), EventOf(item).0) {
        if item in before || HasKey(Firsts(before), EventOf(item).0) {
          var i :| 0 <= i < |Firsts(before)| && Firsts(before)[i].0 == EventOf(item).0;
          assert Firsts(batch)[i].0 == EventOf(item).0;
        } else {
          assert Firsts(batch)[|Firsts(before)|] == EventOf(item);
        }
      }
    }
  }

  /** What is credited was in some batch, and every countable log's key is credited. */
  ghost predicate CreditsOccur(s: Store, batches: seq<Batch>) {
    && (forall key :: key in s.credited ==>
          exists item :: Occurs(batches, item) && Countable(item) && EventOf(item) == (key, s.credited[key]))
    && (forall item :: Occurs(batches, item) && Countable(item) ==> EventOf(item).0 in s.credited)
  }

  lemma {:induction false} CreditFrom(credited: map<string, Owner>, events: Entries<Owner>, inserted: set<string>, key: string)
    requires key in Credit(credited, events, inserted) && key !in credited
    ensures (key, Credit(credited, events, inserted)[key]) in events
    decreases |events|
  {
    if events != [] {
      var e := events[|events| - 1];
      if !(e.0 in inserted && e.0 == key) {
        CreditFrom(credited, events[..|events| - 1], inserted, key);
      }
    }
  }

  lemma ApplyCredits(s: Store, batch: Batch, key: string)
    requires key in Apply(s, batch).credited && key !in s.credited
    ensures exists item :: item in batch && Countable(item) && EventOf(item) == (key, Apply(s, batch).credited[key])
  {
    CollectIsDistinct(batch);
    FirstsOccur(batch);
    CreditFrom(s.credited, Collect(batch), Inserted(s.processed, Collect(batch)), key);
    assert (key, Apply(s, batch).credited[key]) in Firsts(batch);
  }

  lemma ApplyCreditsAll(s: Store, batch: Batch, item: Option<Log>)
    requires Exact(s) && item in batch && Countable(item)
    ensures EventOf(item).0 in Apply(s, batch).credited
  {
    hide Apply, Firsts;
    ApplyKeepsExact(s, batch);
    ApplyProcesses(s, batch);
    FirstsOccur(batch);
    var i :| 0 <= i < |Firsts(batch)| && Firsts(batch)[i].0 == EventOf(item).0;
    assert Firsts(batch)[i] in Firsts(batch);
  }

  lemma {:induction false} CreditsFollow(batches: seq<Batch>)
    ensures CreditsOccur(ApplyAll(Empty, batches), batches)
    decreases |batches|
  {
    hide Apply, Countable, EventOf;
    if batches != [] {
      var before, last := batches[..|batches| - 1], batches[|batches| - 1];
      var s, r := ApplyAll(Empty, before), ApplyAll(Empty, batches);
      CreditsFollow(before);
      CountersAreExact(before);
      ApplyKeepsExact(s, last);
      forall item ensures Occurs(batches, item) <==> Occurs(before, item) || item in last {
        if item in last { assert item in batches[|batches| - 1]; }
        if Occurs(before, item) {
          var i :| 0 <= i < |before| && item in before[i];
          assert item in batches[i];
        }
      }
      forall key | key in r.credited
        ensures exists item :: Occurs(batches, item) && Countable(item) && EventOf(item) == (key, r.credited[key])
      {
        if key in s.credited {
          var item :| Occurs(before, item) && Countable(item) && EventOf(item) == (key, s.credited[key]);
          assert Occurs(batches, item);
        } else {
          ApplyCredits(s, last, key);
          var item :| item in last && Countable(item) && EventOf(item) == (key, r.credited[key]);
          assert Occurs(batches, item);
        }
      }
      forall item | Occurs(batches, item) && Countable(item) ensures EventOf(item).0 in r.credited {
        if item in last { ApplyCreditsAll(s, last, item); }
      }
    }
  }
}
