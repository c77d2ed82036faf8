/**
 The canonical form of a JSON value (internal/pkg/idempotency/json.go): member names unique and
 sorted at every level, arrays in order, numbers as written.
 */
module CanonicalJson {
  import opened Prelude
  import opened Ordering
  import opened JsonValues

  // ---------------------------------------------------------------- sorting members

  function MembersOf(entries: Entries<Json>): (ms: Members) {
    if entries == [] then NoMember else Member(entries[0].0, entries[0].1, MembersOf(entries[1..]))
  }

  function Sorted(j: Json): (r: Json) {
    match j
    case Leaf(_) => j
    case Object(ms) => Object(MembersOf(Sort(SortedEntries(ms))))
    case Array(items) => Array(SortedItems(items))
  }

  /** The members in their order, with sorted values. */
  function SortedEntries(ms: Members): (entries: Entries<Json>) {
    match ms case NoMember => [] case Member(name, value, rest) => [(name, Sorted(value))] + SortedEntries(rest)
  }

  function SortedItems(items: Items): (r: Items) {
    match items case NoItem => NoItem case Item(value, rest) => Item(Sorted(value), SortedItems(rest))
  }

  /** One JSON value and nothing after it, printed with its members sorted. */
  function CanonicalJSON(ts: seq<Token>): (r: Decoded<seq<Token>>) {
    match Decode(ts, 0)
    case Err(e) => Err(e)
    case Ok(value, rest) => if rest != [] then Err(Trailing) else Ok(Print(Sorted(value)), [])
  }

  function CanonicalJSONObject(ts: seq<Token>): (r: Decoded<seq<Token>>) {
    match CanonicalJSON(ts)
    case Err(e) => Err(e)
    case Ok(canonical, _) => if canonical[0] != BeginObject then Err(NotAnObject) else Ok(canonical, [])
  }

  // ---------------------------------------------------------------- members as entries

  function EntriesOf(ms: Members): (entries: Entries<Json>) {
    match ms case NoMember => [] case Member(name, value, rest) => [(name, value)] + EntriesOf(rest)
  }

  lemma {:induction false} MembersOfEntries(entries: Entries<Json>)
    ensures EntriesOf(MembersOf(entries)) == entries
    ensures forall name :: name in Names(MembersOf(entries)) <==> exists i :: 0 <= i < |entries| && entries[i].0 == name
  {
    if entries != [] {
      MembersOfEntries(entries[1..]);
      assert entries == [entries[0]] + entries[1..];
      forall name
        ensures name in Names(MembersOf(entries)) <==> exists i :: 0 <= i < |entries| && entries[i].0 == name
      {
        if i :| 0 <= i < |entries| && entries[i].0 == name {
          assert i != 0 ==> entries[1..][i - 1].0 == name;
        }
        if name in Names(MembersOf(entries[1..])) {
          var i :| 0 <= i < |entries[1..]| && entries[1..][i].0 == name;
          assert entries[i + 1].0 == name;
        }
      }
    }
  }

  function Lookup(ms: Members, name: string): (value: Option<Json>) {
    match ms
    case NoMember => None
    case Member(n, value, rest) => if n == name then Some(value) else Lookup(rest, name)
  }

  lemma {:induction false} LookupIsEntry(ms: Members, name: string, value: Json)
    requires DistinctMembers(ms)
    ensures (name, Sorted(value)) in SortedEntries(ms)
       <==> (Lookup(ms, name).Some? && Sorted(Lookup(ms, name).value) == Sorted(value))
    ensures name in Names(ms) <==> Lookup(ms, name).Some?
    decreases ms
  {
    match ms
    case NoMember =>
    case Member(n, v, rest) =>
      LookupIsEntry(rest, name, value);
      var tail := SortedEntries(rest);
      assert SortedEntries(ms) == [(n, Sorted(v))] + tail;
      assert (name, Sorted(value)) in SortedEntries(ms) <==> (name, Sorted(value)) == (n, Sorted(v)) || (name, Sorted(value)) in tail;
  }

  lemma {:induction false} EntryNames(ms: Members)
    ensures forall e :: e in SortedEntries(ms) ==> e.0 in Names(ms)
    ensures forall name :: name in Names(ms) ==> exists e :: e in SortedEntries(ms) && e.0 == name
    decreases ms
  {
    match ms
    case NoMember =>
    case Member(n, v, rest) =>
      EntryNames(rest);
      var all, tail := SortedEntries(ms), SortedEntries(rest);
      assert all == [(n, Sorted(v))] + tail && all[0] in all;
      assert forall i :: 0 <= i < |tail| ==> tail[i] in tail && all[i + 1] == tail[i];
      forall name | name in Names(ms) ensures exists e :: e in all && e.0 == name {
        if name in Names(rest) {
          var e :| e in tail && e.0 == name;
          assert e in all;
        }
      }
  }

  lemma {:induction false} EntryKeysDiffer(ms: Members)
    requires DistinctMembers(ms)
    ensures DistinctKeys(SortedEntries(ms))
    decreases ms
  {
    match ms
    case NoMember =>
    case Member(n, v, rest) =>
      EntryKeysDiffer(rest);
      EntryNames(rest);
      var all, tail := SortedEntries(ms), SortedEntries(rest);
      assert all == [(n, Sorted(v))] + tail;
      assert forall k :: 0 <= k < |tail| ==> tail[k] in tail && tail[k].0 != n;
      PrependKeepsKeysDistinct((n, Sorted(v)), tail);
  }

  lemma PrependKeepsKeysDistinct(head: (string, Json), tail: Entries<Json>)
    requires DistinctKeys(tail) && forall k :: 0 <= k < |tail| ==> tail[k].0 != head.0
    ensures DistinctKeys([head] + tail)
  {
  }

  // ---------------------------------------------------------------- values up to member order

  /** The same value, members in any order at every level. */
  predicate Same(a: Json, b: Json) {
    match a
    case Leaf(_) => b == a
    case Object(ms) => b.Object? && Names(ms) == Names(b.members) && SameMembers(ms, b.members)
    case Array(items) => b.Array? && SameItems(items, b.items)
  }

  predicate SameMembers(ms: Members, ns: Members) {
    match ms
    case NoMember => true
    case Member(name, value, rest) => Lookup(ns, name).Some? && Same(value, Lookup(ns, name).value) && SameMembers(rest, ns)
  }

  predicate SameItems(items: Items, other: Items) {
    match items
    case NoItem => other.NoItem?
    case Item(value, rest) => other.Item? && Same(value, other.value) && SameItems(rest, other.rest)
  }

  lemma {:induction false} LookupIsDistinct(ms: Members, name: string)
    requires DistinctMembers(ms) && Lookup(ms, name).Some?
    ensures Distinct(Lookup(ms, name).value)
  {
    match ms
    case NoMember =>
    case Member(n, _, rest) => if n != name { LookupIsDistinct(rest, name); }
  }

  /** Two values without repeated names have one canonical form exactly when they are the same up
      to the order of members. */
  lemma {:induction false} CanonicalExactlyWhenSame(a: Json, b: Json)
    requires Distinct(a) && Distinct(b)
    ensures Sorted(a) == Sorted(b) <==> Same(a, b)
    decreases a
  {
    match a
    case Leaf(_) =>
    case Array(items) => if b.Array? { ItemsExactlyWhenSame(items, b.items); }
    case Object(ms) => if b.Object? { ObjectsExactlyWhenSame(ms, b.members); }
  }

  lemma {:induction false} ItemsExactlyWhenSame(items: Items, other: Items)
    requires DistinctItems(items) && DistinctItems(other)
    ensures SortedItems(items) == SortedItems(other) <==> SameItems(items, other)
    decreases items
  {
    if items.Item? && other.Item? {
      CanonicalExactlyWhenSame(items.value, other.value);
      ItemsExactlyWhenSame(items.rest, other.rest);
    }
  }

  /** Every member of ms is, up to its value's canonical form, a member of ns. */
  lemma {:induction false} MembersAreFound(ms: Members, ns: Members)
    requires DistinctMembers(ms) && DistinctMembers(ns)
    ensures SameMembers(ms, ns) <==> forall e :: e in SortedEntries(ms) ==> e in SortedEntries(ns)
    decreases ms, 0
  {
    match ms
    case NoMember =>
    case Member(name, value, rest) =>
      MembersAreFound(rest, ns);
      LookupIsEntry(ns, name, value);
      if Lookup(ns, name).Some? {
        LookupIsDistinct(ns, name);
        CanonicalExactlyWhenSame(value, Lookup(ns, name).value);
      }
      var all, tail := SortedEntries(ms), SortedEntries(rest);
      assert all == [(name, Sorted(value))] + tail;
      assert forall e :: e in all <==> e == (name, Sorted(value)) || e in tail;
  }

  lemma {:induction false} ObjectsExactlyWhenSame(ms: Members, ns: Members)
    requires DistinctMembers(ms) && DistinctMembers(ns)
    ensures Sorted(Object(ms)) == Sorted(Object(ns)) <==> Same(Object(ms), Object(ns))
    decreases ms, 1
  {
    hide Sorted, SortedEntries, SameMembers;
    var x, y := SortedEntries(ms), SortedEntries(ns);
    MembersAreFound(ms, ns);
    EntryKeysDiffer(ms);
    EntryKeysDiffer(ns);
    SortedObject(ms);
    SortedObject(ns);
    MembersOfEntries(Sort(x));
    MembersOfEntries(Sort(y));
    assert Sorted(Object(ms)) == Sorted(Object(ns)) <==> Sort(x) == Sort(y);
    SortSorts(x);
    SortSorts(y);
    if Sort(x) == Sort(y) {
      assert SameEntries(x, y) by {
        forall e ensures e in x <==> e in y { assert e in Sort(x) <==> e in x; }
      }
      SameNames(ms, ns);
    }
    if Same(Object(ms), Object(ns)) {
      SameBackwards(ms, ns);
      SortIgnoresOrder(x, y);
    }
  }

  lemma SameNames(ms: Members, ns: Members)
    requires SameEntries(SortedEntries(ms), SortedEntries(ns))
    ensures Names(ms) == Names(ns)
  {
    hide SortedEntries;
    EntryNames(ms);
    EntryNames(ns);
    forall name ensures name in Names(ms) <==> name in Names(ns) {
      if name in Names(ms) {
        var e :| e in SortedEntries(ms) && e.0 == name;
        assert e in SortedEntries(ns);
      }
      if name in Names(ns) {
        var e :| e in SortedEntries(ns) && e.0 == name;
        assert e in SortedEntries(ms);
      }
    }
  }

  lemma SameBackwards(ms: Members, ns: Members)
    requires DistinctMembers(ns) && Names(ms) == Names(ns)
    requires forall e :: e in SortedEntries(ms) ==> e in SortedEntries(ns)
    ensures SameEntries(SortedEntries(ms), SortedEntries(ns))
  {
    hide SortedEntries;
    EntryNames(ms);
    EntryNames(ns);
    EntryKeysDiffer(ns);
    forall e | e in SortedEntries(ns) ensures e in SortedEntries(ms) {
      var f :| f in SortedEntries(ms) && f.0 == e.0;
      KeysIdentify(SortedEntries(ns), e, f);
    }
  }

  lemma KeysIdentify(entries: Entries<Json>, e: (string, Json), f: (string, Json))
    requires DistinctKeys(entries) && e in entries && f in entries && e.0 == f.0
    ensures e == f
  {
    var i :| 0 <= i < |entries| && entries[i] == e;
    var k :| 0 <= k < |entries| && entries[k] == f;
    assert !(i < k) && !(k < i);
  }

  lemma SortedObject(ms: Members)
    ensures Sorted(Object(ms)) == Object(MembersOf(Sort(SortedEntries(ms))))
  {
  }

  // ---------------------------------------------------------------- the canonical form

  lemma {:induction false} DistinctEntries(entries: Entries<Json>)
    requires DistinctKeys(entries) && forall i :: 0 <= i < |entries| ==> Distinct(entries[i].1)
    ensures DistinctMembers(MembersOf(entries))
  {
    if entries != [] {
      var rest := entries[1..];
      assert forall i :: 0 <= i < |rest| ==> rest[i] == entries[i + 1];
      DistinctEntries(rest);
      MembersOfEntries(rest);
    }
  }

  lemma {:induction false} DepthOfEntries(entries: Entries<Json>, bound: nat)
    ensures DepthOfMembers(MembersOf(entries)) <= bound <==> forall i :: 0 <= i < |entries| ==> Depth(entries[i].1) <= bound
  {
    if entries != [] {
      var rest := entries[1..];
      assert forall i :: 0 <= i < |rest| ==> rest[i] == entries[i + 1];
      DepthOfEntries(rest, bound);
      assert forall i :: 0 < i < |entries| ==> entries[i] == rest[i - 1];
    }
  }

  /** Entries whose values are canonical already are their own sorted entries. */
  lemma {:induction false} ResortEntries(entries: Entries<Json>)
    requires forall i :: 0 <= i < |entries| ==> Sorted(entries[i].1) == entries[i].1
    ensures SortedEntries(MembersOf(entries)) == entries
  {
    if entries != [] {
      var rest := entries[1..];
      assert forall i :: 0 <= i < |rest| ==> rest[i] == entries[i + 1];
      ResortEntries(rest);
      assert entries == [entries[0]] + rest;
    }
  }

  /** Sorting keeps what makes a value acceptable, and sorting again changes nothing. */
  lemma {:induction false} SortedIsCanonical(j: Json)
    requires Distinct(j)
    ensures Distinct(Sorted(j)) && Depth(Sorted(j)) == Depth(j) && Sorted(Sorted(j)) == Sorted(j)
    decreases j, 1
  {
    match j
    case Leaf(_) =>
    case Array(items) => SortedItemsAreCanonical(items);
    case Object(ms) =>
      var x := SortedEntries(ms);
      SortedValuesAreCanonical(ms);
      EntryKeysDiffer(ms);
      SortSorts(x);
      var entries := Sort(x);
      assert forall i :: 0 <= i < |entries| ==> entries[i] in entries && entries[i] in x;
      AscendingIsDistinct(entries);
      DistinctEntries(entries);
      ResortEntries(entries);
      SortOfSorted(entries);
      SameDepth(ms, entries);
  }

  lemma AscendingIsDistinct(entries: Entries<Json>)
    requires Ascending(entries)
    ensures DistinctKeys(entries)
  {
    forall i, k | 0 <= i < k < |entries| ensures entries[i].0 != entries[k].0 {
      LessIsTotal(entries[i].0, entries[k].0);
    }
  }

  lemma {:induction false} SortedItemsAreCanonical(items: Items)
    requires DistinctItems(items)
    ensures DistinctItems(SortedItems(items)) && DepthOfItems(SortedItems(items)) == DepthOfItems(items)
    ensures SortedItems(SortedItems(items)) == SortedItems(items)
    decreases items, 0
  {
    if items.Item? {
      SortedIsCanonical(items.value);
      SortedItemsAreCanonical(items.rest);
    }
  }

  lemma {:induction false} SortedValuesAreCanonical(ms: Members)
    requires DistinctMembers(ms)
    ensures forall e :: e in SortedEntries(ms) ==> Distinct(e.1) && Sorted(e.1) == e.1 && Depth(e.1) <= DepthOfMembers(ms)
    ensures DepthOfMembers(ms) == 0 || exists e :: e in SortedEntries(ms) && Depth(e.1) == DepthOfMembers(ms)
    decreases ms, 0
  {
    match ms
    case NoMember =>
    case Member(name, value, rest) =>
      SortedIsCanonical(value);
      SortedValuesAreCanonical(rest);
      var all, tail := SortedEntries(ms), SortedEntries(rest);
      assert all == [(name, Sorted(value))] + tail;
      assert forall e :: e in all <==> e == (name, Sorted(value)) || e in tail;
  }

  lemma SameDepth(ms: Members, entries: Entries<Json>)
    requires SameEntries(entries, SortedEntries(ms))
    requires forall e :: e in SortedEntries(ms) ==> Depth(e.1) <= DepthOfMembers(ms)
    requires DepthOfMembers(ms) == 0 || exists e :: e in SortedEntries(ms) && Depth(e.1) == DepthOfMembers(ms)
    ensures DepthOfMembers(MembersOf(entries)) == DepthOfMembers(ms)
  {
    hide SortedEntries, Depth, MembersOf;
    assert forall i :: 0 <= i < |entries| ==> entries[i] in entries && entries[i] in SortedEntries(ms);
    DepthOfEntries(entries, DepthOfMembers(ms));
    DepthOfEntries(entries, DepthOfMembers(MembersOf(entries)));
    if DepthOfMembers(ms) != 0 {
      var e :| e in SortedEntries(ms) && Depth(e.1) == DepthOfMembers(ms);
      assert e in entries;
    }
  }

  /** A printed value is given a canonical form exactly when it is not nested too deeply and
      repeats no member name, and nothing may follow it. */
  lemma CanonicalAcceptsExactly(j: Json, after: seq<Token>)
    ensures CanonicalJSON(Print(j) + after).Ok? <==> Fits(j, 0) && after == []
    ensures Fits(j, 0) && after == [] ==> CanonicalJSON(Print(j) + after) == Ok(Print(Sorted(j)), [])
  {
    DecodeInvertsPrint(j, after, 0);
  }

  /** Nothing but the print of one acceptable value is given a canonical form. */
  lemma CanonicalReadsOneValue(ts: seq<Token>)
    requires CanonicalJSON(ts).Ok?
    ensures exists j :: Fits(j, 0) && ts == Print(j) && CanonicalJSON(ts).value == Print(Sorted(j))
  {
    var d := Decode(ts, 0);
    DecodeReadsPrint(ts, 0);
    assert ts == Print(d.value) + [];
    CanonicalAcceptsExactly(d.value, []);
    assert Fits(d.value, 0) && ts == Print(d.value);
  }

  /** The canonical form of a canonical form is itself. */
  lemma CanonicalIsIdempotent(ts: seq<Token>)
    requires CanonicalJSON(ts).Ok?
    ensures CanonicalJSON(CanonicalJSON(ts).value) == CanonicalJSON(ts)
  {
    CanonicalReadsOneValue(ts);
    var j :| Fits(j, 0) && ts == Print(j) && CanonicalJSON(ts).value == Print(Sorted(j));
    SortedIsCanonical(j);
    CanonicalAcceptsExactly(Sorted(j), []);
    assert Print(Sorted(j)) + [] == Print(Sorted(j));
  }

  /** Two acceptable values have the same canonical form exactly when they differ at most in the
      order of members, at any level. */
  lemma CanonicalIgnoresOrderExactly(a: Json, b: Json)
    requires Fits(a, 0) && Fits(b, 0)
    ensures CanonicalJSON(Print(a)) == CanonicalJSON(Print(b)) <==> Same(a, b)
  {
    CanonicalAcceptsExactly(a, []);
    CanonicalAcceptsExactly(b, []);
    assert Print(a) + [] == Print(a) && Print(b) + [] == Print(b);
    CanonicalExactlyWhenSame(a, b);
    SortedIsCanonical(a);
    SortedIsCanonical(b);
    DecodeInvertsPrint(Sorted(a), [], 0);
    DecodeInvertsPrint(Sorted(b), [], 0);
  }

  /** Only objects pass when an object is required. */
  lemma CanonicalObjectExactly(j: Json)
    ensures CanonicalJSONObject(Print(j)).Ok? <==> Fits(j, 0) && j.Object?
  {
    CanonicalAcceptsExactly(j, []);
    assert Print(j) + [] == Print(j);
  }
}
