/**
 How far the log counters depend on the order of the logs and on how they fall into batches.
 */
module LogCounterOrder {
  import opened Prelude
  import opened Ordering
  import opened LogCounters
  import opened LogCounterTheorems

  /** The same logs, in whatever order, batches and numbers. */
  ghost predicate SameLogs(a: seq<Batch>, b: seq<Batch>) {
    forall item :: Occurs(a, item) <==> Occurs(b, item)
  }

  ghost predicate LogOf(batches: seq<Batch>, item: Option<Log>, workflow: string) {
    Occurs(batches, item) && Countable(item) && EventOf(item).1.workflow == workflow
  }

  // ---------------------------------------------------------------- totals

  /** The keys of the workflow's logs are no other workflow's. */
  ghost predicate OwnKeys(batches: seq<Batch>, workflow: string) {
    forall x, y :: LogOf(batches, x, workflow) && Occurs(batches, y) && Countable(y) && EventOf(x).0 == EventOf(y).0 ==>
                     EventOf(y).1.workflow == workflow
  }

  /** Every history of the same logs leaves the same total. */
  ghost predicate TotalFixed(a: seq<Batch>, workflow: string) {
    forall b :: SameLogs(a, b) ==>
                  Total(ApplyAll(Empty, a).counts, workflow) == Total(ApplyAll(Empty, b).counts, workflow)
  }

  lemma CreditedAreLogged(batches: seq<Batch>, workflow: string)
    requires OwnKeys(batches, workflow)
    ensures forall key :: key in CreditedTo(ApplyAll(Empty, batches).credited, workflow) <==>
                            exists x :: LogOf(batches, x, workflow) && EventOf(x).0 == key
  {
    hide ApplyAll, Countable, EventOf;
    CreditsFollow(batches);
    var s := ApplyAll(Empty, batches);
    forall x | LogOf(batches, x, workflow) ensures EventOf(x).0 in CreditedTo(s.credited, workflow) {
      var key := EventOf(x).0;
      var y :| Occurs(batches, y) && Countable(y) && EventOf(y) == (key, s.credited[key]);
    }
    forall key | key in CreditedTo(s.credited, workflow)
      ensures exists x :: LogOf(batches, x, workflow) && EventOf(x).0 == key
    {
      var y :| Occurs(batches, y) && Countable(y) && EventOf(y) == (key, s.credited[key]);
      assert LogOf(batches, y, workflow);
    }
  }

  lemma SameLogsOf(a: seq<Batch>, b: seq<Batch>, workflow: string)
    requires SameLogs(a, b)
    ensures forall x :: LogOf(a, x, workflow) <==> LogOf(b, x, workflow)
    ensures OwnKeys(a, workflow) ==> OwnKeys(b, workflow)
  {
    hide Occurs, Countable, EventOf;
  }

  /** Whatever the order, splits and repeats: if the workflow's keys are its own, two histories
      with the same logs leave the same total for it. */
  lemma TotalsIgnoreOrder(a: seq<Batch>, b: seq<Batch>, workflow: string)
    requires OwnKeys(a, workflow) && SameLogs(a, b)
    ensures Total(ApplyAll(Empty, a).counts, workflow) == Total(ApplyAll(Empty, b).counts, workflow)
  {
    hide ApplyAll, Countable, EventOf, Total, Occurs, LogOf, OwnKeys, SameLogs;
    SameLogsOf(a, b, workflow);
    CountersAreExact(a);
    CountersAreExact(b);
    CreditedAreLogged(a, workflow);
    CreditedAreLogged(b, workflow);
    assert CreditedTo(ApplyAll(Empty, a).credited, workflow) == CreditedTo(ApplyAll(Empty, b).credited, workflow);
  }

  // ---------------------------------------------------------------- one log ahead of the others

  lemma {:induction false} FirstThen(s: Store, first: Batch, rest: seq<Batch>)
    ensures ApplyAll(s, [first] + rest) == ApplyAll(Apply(s, first), rest)
    decreases |rest|
  {
    hide Apply;
    var all := [first] + rest;
    if rest == [] {
      assert all[..0] == [] && all[0] == first;
    } else {
      FirstThen(s, first, rest[..|rest| - 1]);
      assert all[..|all| - 1] == [first] + rest[..|rest| - 1];
    }
  }

  lemma AheadSameLogs(batches: seq<Batch>, item: Option<Log>)
    requires Occurs(batches, item)
    ensures SameLogs(batches, [[item]] + batches)
  {
    var ahead := [[item]] + batches;
    forall other ensures Occurs(batches, other) <==> Occurs(ahead, other) {
      if Occurs(batches, other) {
        var i :| 0 <= i < |batches| && other in batches[i];
        assert other in ahead[i + 1];
      }
      if Occurs(ahead, other) {
        var i :| 0 <= i < |ahead| && other in ahead[i];
        assert i == 0 ==> other == item;
      }
    }
  }

  lemma OneAlone(s: Store, key: string, owner: Owner, item: Option<Log>)
    requires Countable(item) && EventOf(item) == (key, owner) && key !in s.processed
    ensures Apply(s, [item]).counts == AddCounts(s.counts, map[owner.workflow := Entry(owner.user, 1)])
    ensures Apply(s, [item]).processed == s.processed + {key}
    ensures Apply(s, [item]).credited == s.credited[key := owner]
  {
    assert [item][..0] == [];
    assert Firsts([item]) == [(key, owner)];
    var events := Collect([item]);
    SortOfSorted([(key, owner)]);
    assert events == [(key, owner)] && events[..0] == [];
    assert Inserted(s.processed, events) == {key} by {
      assert events[0].0 == key;
    }
    assert Credit(s.credited, events[..0], {key}) == s.credited;
    assert Count(events[..0], {key}) == map[] && events[0] == (key, owner);
    assert Count(events, {key}) == map[][owner.workflow := Entry(owner.user, 1)];
    assert map[][owner.workflow := Entry(owner.user, 1)] == map[owner.workflow := Entry(owner.user, 1)];
  }

  lemma AddSingle(counts: map<Row, nat>, workflow: string, entry: Entry)
    requires entry.count != 0
    ensures AddCounts(counts, map[workflow := entry])
         == counts[(entry.user, workflow) := CountOf(counts, (entry.user, workflow)) + entry.count]
  {
    assert AddCounts(counts, map[]) == counts;
    AddOne(counts, map[], workflow, entry);
    assert map[][workflow := entry] == map[workflow := entry];
  }

  lemma AloneOnEmpty(item: Option<Log>)
    requires Countable(item)
    ensures var (key, owner) := EventOf(item);
            Apply(Empty, [item]) == Store({key}, map[(owner.user, owner.workflow) := 1], map[key := owner])
  {
    hide Apply, EventOf, Countable, AddCounts;
    var (key, owner) := EventOf(item);
    OneAlone(Empty, key, owner, item);
    AddSingle(map[], owner.workflow, Entry(owner.user, 1));
    assert map[][(owner.user, owner.workflow) := 1] == map[(owner.user, owner.workflow) := 1];
    assert map[][key := owner] == map[key := owner] && {} + {key} == {key};
  }

  /** The stores differ at most in whom this one key was credited to. */
  ghost predicate SameBut(s: Store, r: Store, key: string, owner: Owner, other: Owner) {
    && s.processed == r.processed && key in s.processed
    && key in s.credited && s.credited[key] == owner
    && r.credited == s.credited[key := other]
  }

  lemma {:induction false} CreditElsewhere(
    credited: map<string, Owner>, events: Entries<Owner>, inserted: set<string>, key: string, owner: Owner)
    requires key !in inserted
    ensures Credit(credited[key := owner], events, inserted) == Credit(credited, events, inserted)[key := owner]
    ensures key in credited ==> key in Credit(credited, events, inserted)
                                && Credit(credited, events, inserted)[key] == credited[key]
    decreases |events|
  {
    if events != [] {
      CreditElsewhere(credited, events[..|events| - 1], inserted, key, owner);
    }
  }

  lemma {:induction false} StaysSameBut(
    s: Store, r: Store, batches: seq<Batch>, key: string, owner: Owner, other: Owner)
    requires SameBut(s, r, key, owner, other)
    ensures SameBut(ApplyAll(s, batches), ApplyAll(r, batches), key, owner, other)
    decreases |batches|
  {
    hide Collect, Credit, AddCounts, Count;
    if batches != [] {
      StaysSameBut(s, r, batches[..|batches| - 1], key, owner, other);
      var s', batch := ApplyAll(s, batches[..|batches| - 1]), batches[|batches| - 1];
      CreditElsewhere(s'.credited, Collect(batch), Inserted(s'.processed, Collect(batch)), key, other);
    }
  }

  /** If a key is shared, the workflow whose log of it comes first has one more. */
  lemma SharedKeyMovesTotal(a: seq<Batch>, x: Option<Log>, y: Option<Log>, workflow: string)
    requires LogOf(a, x, workflow) && Occurs(a, y) && Countable(y)
    requires EventOf(x).0 == EventOf(y).0 && EventOf(y).1.workflow != workflow
    ensures Total(ApplyAll(Empty, [[x]] + a).counts, workflow) == Total(ApplyAll(Empty, [[y]] + a).counts, workflow) + 1
  {
    hide ApplyAll, Apply, Countable, EventOf, Total, Occurs;
    var key, owner, other := EventOf(x).0, EventOf(x).1, EventOf(y).1;
    AloneOnEmpty(x);
    AloneOnEmpty(y);
    FirstThen(Empty, [x], a);
    FirstThen(Empty, [y], a);
    assert map[key := owner][key := other] == map[key := other];
    StaysSameBut(Apply(Empty, [x]), Apply(Empty, [y]), a, key, owner, other);
    CountersAreExact([[x]] + a);
    CountersAreExact([[y]] + a);
    var s, r := ApplyAll(Empty, [[x]] + a), ApplyAll(Empty, [[y]] + a);
    assert CreditedTo(s.credited, workflow) == CreditedTo(r.credited, workflow) + {key};
    assert key !in CreditedTo(r.credited, workflow);
  }

  /** Histories of the same logs leave the workflow the same total exactly when its keys are its own. */
  lemma TotalFixedExactly(a: seq<Batch>, workflow: string)
    ensures TotalFixed(a, workflow) <==> OwnKeys(a, workflow)
  {
    hide ApplyAll, Countable, EventOf, Total, Occurs, SameLogs;
    if OwnKeys(a, workflow) {
      forall b | SameLogs(a, b)
        ensures Total(ApplyAll(Empty, a).counts, workflow) == Total(ApplyAll(Empty, b).counts, workflow)
      {
        TotalsIgnoreOrder(a, b, workflow);
      }
    } else {
      var x, y :| LogOf(a, x, workflow) && Occurs(a, y) && Countable(y) && EventOf(x).0 == EventOf(y).0
        && EventOf(y).1.workflow != workflow;
      SharedKeyMovesTotal(a, x, y, workflow);
      AheadSameLogs(a, x);
      AheadSameLogs(a, y);
    }
  }

  // ---------------------------------------------------------------- rows of single users

  /** All the workflow's logs have the same user. */
  ghost predicate OneUser(batches: seq<Batch>, workflow: string) {
    forall x, y :: LogOf(batches, x, workflow) && LogOf(batches, y, workflow) ==> EventOf(x).1.user == EventOf(y).1.user
  }

  ghost predicate SameRows(s: Store, r: Store, workflow: string) {
    forall user: string :: ((user, workflow) in s.counts <==> (user, workflow) in r.counts)
                           && CountOf(s.counts, (user, workflow)) == CountOf(r.counts, (user, workflow))
  }

  /** Every history of the same logs leaves the same rows. */
  ghost predicate RowsFixed(a: seq<Batch>, workflow: string) {
    forall b :: SameLogs(a, b) ==> SameRows(ApplyAll(Empty, a), ApplyAll(Empty, b), workflow)
  }

  /** Every row with a count belongs to the user of some log of its workflow. */
  ghost predicate RowsSeen(s: Store, batches: seq<Batch>) {
    forall row :: row in s.counts ==>
      exists item :: Occurs(batches, item) && Countable(item) && EventOf(item).1 == Owner(row.1, row.0)
  }

  lemma {:induction false} CountUser(events: Entries<Owner>, inserted: set<string>, workflow: string)
    requires workflow in Count(events, inserted)
    ensures exists e :: e in events && e.1 == Owner(workflow, Count(events, inserted)[workflow].user)
    decreases |events|
  {
    var before, e := events[..|events| - 1], events[|events| - 1];
    if workflow in Count(before, inserted) {
      CountUser(before, inserted, workflow);
      var f :| f in before && f.1 == Owner(workflow, Count(before, inserted)[workflow].user);
      assert f in events;
    } else {
      assert e in events;
    }
  }

  lemma {:induction false} RowsFollow(batches: seq<Batch>)
    ensures RowsSeen(ApplyAll(Empty, batches), batches)
    decreases |batches|
  {
    hide Countable, EventOf, AddCounts, Count, Firsts;
    if batches != [] {
      var before, last := batches[..|batches| - 1], batches[|batches| - 1];
      var s, r := ApplyAll(Empty, before), ApplyAll(Empty, batches);
      RowsFollow(before);
      CollectIsDistinct(last);
      FirstsOccur(last);
      var added := Count(Collect(last), Inserted(s.processed, Collect(last)));
      forall row | row in r.counts
        ensures exists item :: Occurs(batches, item) && Countable(item) && EventOf(item).1 == Owner(row.1, row.0)
      {
        AddedRow(s.counts, added, row);
        if row in s.counts {
          var item :| Occurs(before, item) && Countable(item) && EventOf(item).1 == Owner(row.1, row.0);
          var i :| 0 <= i < |before| && item in before[i];
          assert item in batches[i];
        } else {
          CountUser(Collect(last), Inserted(s.processed, Collect(last)), row.1);
          var e :| e in Collect(last) && e.1 == Owner(row.1, row.0);
          var item :| item in last && Countable(item) && EventOf(item) == e;
          assert item in batches[|batches| - 1];
        }
      }
    }
  }

  /** If all logs of a workflow are one user's, that user's row is the workflow's only row and
      holds the number of keys first inserted for it. */
  lemma OneUserOneRow(batches: seq<Batch>, workflow: string, user: string)
    requires forall item :: LogOf(batches, item, workflow) ==> EventOf(item).1.user == user
    ensures var s := ApplyAll(Empty, batches);
            CountOf(s.counts, (user, workflow)) == |CreditedTo(s.credited, workflow)|
            && forall other :: other != user ==> (other, workflow) !in s.counts
  {
    hide ApplyAll, Countable, EventOf;
    CountersAreExact(batches);
    var s := ApplyAll(Empty, batches);
    var row := (user, workflow);
    RowsFollow(batches);
    assert RowsOf(s.counts, workflow) <= {row};
    if row in s.counts {
      assert RowsOf(s.counts, workflow) == {row};
      SumPull(s.counts, {row}, row);
      assert {row} - {row} == {};
    }
  }

  lemma {:induction false} RowsCountSomething(batches: seq<Batch>)
    ensures forall row :: row in ApplyAll(Empty, batches).counts ==> 0 < ApplyAll(Empty, batches).counts[row]
    decreases |batches|
  {
    hide AddCounts, Count, Collect;
    if batches != [] {
      RowsCountSomething(batches[..|batches| - 1]);
      var s, events := ApplyAll(Empty, batches[..|batches| - 1]), Collect(batches[|batches| - 1]);
      forall row | row in ApplyAll(Empty, batches).counts ensures 0 < ApplyAll(Empty, batches).counts[row] {
        AddedRow(s.counts, Count(events, Inserted(s.processed, events)), row);
      }
    }
  }

  lemma {:induction false} RowsStay(s: Store, batches: seq<Batch>, row: Row)
    requires row in s.counts
    ensures row in ApplyAll(s, batches).counts
    decreases |batches|
  {
    hide AddCounts, Count, Collect;
    if batches != [] {
      RowsStay(s, batches[..|batches| - 1], row);
      var r, events := ApplyAll(s, batches[..|batches| - 1]), Collect(batches[|batches| - 1]);
      AddedRow(r.counts, Count(events, Inserted(r.processed, events)), row);
    }
  }

  /** One batch counts a workflow in one row. */
  lemma OneBatchOneRow(batch: Batch, user: string, other: string, workflow: string)
    requires (user, workflow) in Apply(Empty, batch).counts && (other, workflow) in Apply(Empty, batch).counts
    ensures user == other
  {
    hide AddCounts, Count, Collect;
    var added := Count(Collect(batch), Inserted({}, Collect(batch)));
    AddedRow(map[], added, (user, workflow));
    AddedRow(map[], added, (other, workflow));
  }

  ghost function Flat(batches: seq<Batch>): (batch: Batch) {
    if batches == [] then [] else batches[0] + Flat(batches[1..])
  }

  lemma {:induction false} FlatHas(batches: seq<Batch>, item: Option<Log>)
    ensures item in Flat(batches) <==> Occurs(batches, item)
  {
    if batches != [] {
      FlatHas(batches[1..], item);
      if Occurs(batches[1..], item) {
        var i :| 0 <= i < |batches[1..]| && item in batches[1..][i];
        assert item in batches[i + 1];
      }
      if Occurs(batches, item) {
        var i :| 0 <= i < |batches| && item in batches[i];
        assert i > 0 ==> item in batches[1..][i - 1];
      }
    }
  }

  lemma FlatSameLogs(batches: seq<Batch>)
    ensures SameLogs(batches, [Flat(batches)])
  {
    hide Flat;
    forall item ensures Occurs(batches, item) <==> Occurs([Flat(batches)], item) {
      FlatHas(batches, item);
      assert [Flat(batches)][0] == Flat(batches);
    }
  }

  lemma FirstGetsRow(a: seq<Batch>, x: Option<Log>)
    requires Occurs(a, x) && Countable(x)
    ensures (EventOf(x).1.user, EventOf(x).1.workflow) in ApplyAll(Empty, [[x]] + a).counts
    ensures SameLogs(a, [[x]] + a)
  {
    hide ApplyAll, Apply, Countable, EventOf;
    AheadSameLogs(a, x);
    AloneOnEmpty(x);
    FirstThen(Empty, [x], a);
    RowsStay(Apply(Empty, [x]), a, (EventOf(x).1.user, EventOf(x).1.workflow));
  }

  lemma FixedRowsAreOneUsers(a: seq<Batch>, workflow: string)
    requires RowsFixed(a, workflow)
    ensures OneUser(a, workflow)
  {
    hide ApplyAll, Apply, Countable, EventOf, SameLogs, Occurs;
    forall x, y | LogOf(a, x, workflow) && LogOf(a, y, workflow) ensures EventOf(x).1.user == EventOf(y).1.user {
      FirstGetsRow(a, x);
      FirstGetsRow(a, y);
      FlatSameLogs(a);
      AfterOne(Flat(a));
      OneBatchOneRow(Flat(a), EventOf(x).1.user, EventOf(y).1.user, workflow);
    }
  }

  lemma AfterOne(batch: Batch)
    ensures ApplyAll(Empty, [batch]) == Apply(Empty, batch)
  {
    hide Apply;
    assert [batch][..0] == [];
  }

  lemma SameRowsSameTotal(s: Store, r: Store, workflow: string)
    requires SameRows(s, r, workflow)
    ensures Total(s.counts, workflow) == Total(r.counts, workflow)
  {
    forall row: Row | row.1 == workflow
      ensures (row in s.counts <==> row in r.counts) && CountOf(s.counts, row) == CountOf(r.counts, row)
    {
      assert row == (row.0, workflow);
    }
    assert RowsOf(s.counts, workflow) == RowsOf(r.counts, workflow);
    SumSame(s.counts, r.counts, RowsOf(s.counts, workflow));
  }

  lemma OneUsersRows(a: seq<Batch>, b: seq<Batch>, workflow: string)
    requires OneUser(a, workflow) && OwnKeys(a, workflow) && SameLogs(a, b)
    ensures SameRows(ApplyAll(Empty, a), ApplyAll(Empty, b), workflow)
  {
    hide ApplyAll, Countable, EventOf, Total, Occurs, SameLogs, OwnKeys;
    SameLogsOf(a, b, workflow);
    var user := "";
    if x :| LogOf(a, x, workflow) {
      user := EventOf(x).1.user;
    }
    OneUserOneRow(a, workflow, user);
    OneUserOneRow(b, workflow, user);
    TotalsIgnoreOrder(a, b, workflow);
    CountersAreExact(a);
    CountersAreExact(b);
    RowsCountSomething(a);
    RowsCountSomething(b);
  }

  /** Histories of the same logs leave the workflow the same rows exactly when all its logs are
      one user's and their keys are no other workflow's. */
  lemma RowsFixedExactly(a: seq<Batch>, workflow: string)
    ensures RowsFixed(a, workflow) <==> OneUser(a, workflow) && OwnKeys(a, workflow)
  {
    hide ApplyAll, Countable, EventOf, Total, OneUser, OwnKeys, SameLogs, SameRows;
    if OneUser(a, workflow) && OwnKeys(a, workflow) {
      forall b | SameLogs(a, b) ensures SameRows(ApplyAll(Empty, a), ApplyAll(Empty, b), workflow) {
        OneUsersRows(a, b, workflow);
      }
    }
    if RowsFixed(a, workflow) {
      FixedRowsAreOneUsers(a, workflow);
      forall b | SameLogs(a, b)
        ensures Total(ApplyAll(Empty, a).counts, workflow) == Total(ApplyAll(Empty, b).counts, workflow)
      {
        SameRowsSameTotal(ApplyAll(Empty, a), ApplyAll(Empty, b), workflow);
      }
      TotalFixedExactly(a, workflow);
    }
  }

  lemma TwoTogether(key: string, key': string, owner: Owner, owner': Owner, a: Option<Log>, b: Option<Log>)
    requires Countable(a) && EventOf(a) == (key, owner) && Countable(b) && EventOf(b) == (key', owner')
    requires Less(key, key') && key != key' && owner.workflow == owner'.workflow
    ensures Apply(Empty, [a, b]).counts == AddCounts(map[], map[owner.workflow := Entry(owner.user, 2)])
  {
    assert [a, b][..1] == [a] && [a][..0] == [];
    assert Firsts([a]) == [(key, owner)];
    assert !HasKey([(key, owner)], key');
    var events: Entries<Owner> := [(key, owner), (key', owner')];
    assert Firsts([a, b]) == events;
    assert Ascending(events);
    SortOfSorted(events);
    assert Inserted({}, events) == {key, key'} by {
      assert events[0].0 == key && events[1].0 == key';
    }
    assert events[..1] == [(key, owner)] && events[..1][..0] == [];
    var one := Count(events[..1], {key, key'});
    assert Count(events[..1][..0], {key, key'}) == map[] && events[..1][0] == (key, owner);
    assert one == map[][owner.workflow := Entry(owner.user, 1)];
    assert one == map[owner.workflow := Entry(owner.user, 1)];
  }

  /** Two histories whose rows differ: two users' logs of one workflow are
      counted in one row when they share a batch, and in two rows when they do not. */
  lemma RowsDependOnBatches(first: string, second: string, workflow: string, user: string, other: string)
    requires first != "" && second != "" && workflow != "" && user != "" && other != "" && user != other
    requires Less(first, second)
    ensures var a := Some(Log(first, "", "", 0, workflow, user));
            var b := Some(Log(second, "", "", 0, workflow, other));
            && ApplyAll(Empty, [[a, b]]).counts == map[(user, workflow) := 2]
            && ApplyAll(Empty, [[a], [b]]).counts == map[(user, workflow) := 1, (other, workflow) := 1]
  {
    hide Apply, AddCounts, Less;
    var a, b := Some(Log(first, "", "", 0, workflow, user)), Some(Log(second, "", "", 0, workflow, other));
    LessIsTotal(first, second);
    TwoTogether(first, second, Owner(workflow, user), Owner(workflow, other), a, b);
    OneAlone(Empty, first, Owner(workflow, user), a);
    AddSingle(map[], workflow, Entry(user, 2));
    AddSingle(map[], workflow, Entry(user, 1));
    AddSingle(map[][(user, workflow) := 1], workflow, Entry(other, 1));
    assert [[a, b]][..0] == [] && [[a], [b]][..1] == [[a]] && [[a]][..0] == [];
    OneAlone(Apply(Empty, [a]), second, Owner(workflow, other), b);
  }
}
