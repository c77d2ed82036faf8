/**
 Keyset pagination: pages that start at a cursor row (internal/pkg/paginate/paginate.go and the
 queries of GetJobLogs and ListJobs in internal/repository/jobs/jobs.go), over any table and any
 total order of its keys.
 */
module Keyset {
  import opened Prelude

  /** A stored row. Rows with the same id are versions of one row. */
  datatype Row<K, V> = Row(key: K, id: string, version: int, value: V)

  type Order<!K> = (K, K) -> bool

  ghost predicate TotalOrder<K(!new)>(less: Order<K>) {
    && (forall a: K :: !less(a, a))
    && (forall a: K, b: K, c: K :: less(a, b) && less(b, c) ==> less(a, c))
    && (forall a: K, b: K :: less(a, b) || a == b || less(b, a))
  }

  /** Versions of one row have one key, and different rows have different keys. */
  ghost predicate KeysIdentify<K, V>(table: seq<Row<K, V>>) {
    forall r, s :: r in table && s in table ==> (r.id == s.id <==> r.key == s.key)
  }

  // ---------------------------------------------------------------- paginate

  /** Callers fetch limit + 1 rows; the extra one only tells that there are more. */
  function Trim<T>(data: seq<T>, limit: nat): (r: (seq<T>, bool))
    ensures r.0 <= data && |r.0| <= limit && (r.1 <==> r.0 != data) && (r.1 ==> |r.0| == limit)
  {
    if limit < |data| then (data[..limit], true) else (data, false)
  }

  /** The page, and the cursor of the first row cut. */
  function TrimWithCursor<T, C>(data: seq<T>, limit: nat, cursorOf: T -> C, none: C): (r: (seq<T>, C)) {
    var (page, more) := Trim(data, limit);
    (page, if more then cursorOf(data[limit]) else none)
  }

  // ---------------------------------------------------------------- the query

  /** Puts one stored row into a result that is sorted by key and has the newest version of each
      row; of equally new versions the first stored one. */
  function Place<K(==), V>(less: Order<K>, list: seq<Row<K, V>>, row: Row<K, V>): (r: seq<Row<K, V>>) {
    if list == [] then [row]
    else if list[0].id == row.id then [if list[0].version < row.version then row else list[0]] + list[1..]
    else if less(row.key, list[0].key) then [row] + list
    else [list[0]] + Place(less, list[1..], row)
  }

  function Listing<K(==), V>(less: Order<K>, table: seq<Row<K, V>>): (r: seq<Row<K, V>>)
    decreases |table|
  {
    if table == [] then [] else Place(less, Listing(less, table[..|table| - 1]), table[|table| - 1])
  }

  predicate AtOrAfter<K(==)>(less: Order<K>, cursor: K, key: K) {
    less(cursor, key) || key == cursor
  }

  /** The rows that the cursor's condition lets through. */
  function From<K(==), V>(less: Order<K>, rows: seq<Row<K, V>>, cursor: K): (r: seq<Row<K, V>>)
    decreases |rows|
  {
    if rows == [] then []
    else
      var before, last := From(less, rows[..|rows| - 1], cursor), rows[|rows| - 1];
      if AtOrAfter(less, cursor, last.key) then before + [last] else before
  }

  /** One fetch of limit + 1 rows. */
  function Fetch<K(==), V>(less: Order<K>, table: seq<Row<K, V>>, cursor: Option<K>, limit: nat): (r: seq<Row<K, V>>) {
    var rows := if cursor.None? then Listing(less, table) else Listing(less, From(less, table, cursor.value));
    if limit + 1 < |rows| then rows[..limit + 1] else rows
  }

  // ---------------------------------------------------------------- what a listing is

  ghost predicate Ascending<K, V>(less: Order<K>, list: seq<Row<K, V>>) {
    forall i, k :: 0 <= i < k < |list| ==> less(list[i].key, list[k].key)
  }

  /** The list has this row, or a newer version of it. */
  ghost predicate Covers<K(!new), V(!new)>(list: seq<Row<K, V>>, row: Row<K, V>) {
    exists s :: s in list && s.id == row.id && row.version <= s.version
  }

  /** The list has the newest version of every row of the table, and nothing else. */
  ghost predicate Newest<K(!new), V(!new)>(table: seq<Row<K, V>>, list: seq<Row<K, V>>) {
    (forall r :: r in list ==> r in table) && (forall r :: r in table ==> Covers(list, r))
  }

  lemma CoversHead<K(!new), V(!new)>(list: seq<Row<K, V>>, head: Row<K, V>, row: Row<K, V>)
    ensures Covers([head] + list, row) <==> Covers(list, row) || (head.id == row.id && row.version <= head.version)
  {
    var more := [head] + list;
    assert more[0] == head && more[1..] == list;
    if Covers(list, row) {
      var s :| s in list && s.id == row.id && row.version <= s.version;
      assert s in more;
    }
  }

  lemma {:induction false} PlaceCovers<K(!new), V(!new)>(
    less: Order<K>, list: seq<Row<K, V>>, row: Row<K, V>, x: Row<K, V>)
    requires x == row || Covers(list, x)
    ensures Covers(Place(less, list, row), x)
    decreases |list|
  {
    if list == [] {
      CoversHead([], row, x);
      assert [row] + [] == [row];
    } else {
      var head, tail := list[0], list[1..];
      assert list == [head] + tail;
      CoversHead(tail, head, x);
      if head.id == row.id {
        CoversHead(tail, if head.version < row.version then row else head, x);
      } else if less(row.key, head.key) {
        CoversHead(list, row, x);
      } else {
        if x == row || Covers(tail, x) {
          PlaceCovers(less, tail, row, x);
        }
        CoversHead(Place(less, tail, row), head, x);
      }
    }
  }

  lemma {:induction false} PlaceMembers<K(!new), V(!new)>(less: Order<K>, list: seq<Row<K, V>>, row: Row<K, V>)
    ensures forall x :: x in Place(less, list, row) ==> x in list || x == row
    decreases |list|
  {
    if list != [] {
      PlaceMembers(less, list[1..], row);
      assert forall x :: x in list[1..] ==> x in list;
    }
  }

  lemma LessIsTotal<K(!new)>(less: Order<K>, a: K, b: K)
    requires TotalOrder(less)
    ensures less(a, b) || a == b || less(b, a)
    ensures !less(a, a) && !(less(a, b) && less(b, a))
  {
  }

  lemma LessIsTransitive<K(!new)>(less: Order<K>, a: K, b: K, c: K)
    requires TotalOrder(less) && less(a, b) && less(b, c)
    ensures less(a, c)
  {
  }

  /** Every key of the list is after this one. */
  ghost predicate AllAfter<K, V>(less: Order<K>, key: K, list: seq<Row<K, V>>) {
    forall i :: 0 <= i < |list| ==> less(key, list[i].key)
  }

  lemma AscendingHead<K(!new), V(!new)>(less: Order<K>, head: Row<K, V>, list: seq<Row<K, V>>)
    ensures Ascending(less, [head] + list) <==> Ascending(less, list) && AllAfter(less, head.key, list)
  {
    var more := [head] + list;
    assert more[0] == head && forall i :: 0 <= i < |list| ==> more[i + 1] == list[i];
    if Ascending(less, more) {
      forall i, k | 0 <= i < k < |list| ensures less(list[i].key, list[k].key) {
        assert less(more[i + 1].key, more[k + 1].key);
      }
    }
  }

  /** Placing a row keeps the order; ids and keys of the row and of the list identify each other. */
  lemma {:induction false} PlaceAscends<K(!new), V(!new)>(less: Order<K>, list: seq<Row<K, V>>, row: Row<K, V>)
    requires TotalOrder(less) && Ascending(less, list)
    requires forall x :: x in list ==> (x.id == row.id <==> x.key == row.key)
    ensures Ascending(less, Place(less, list, row))
    ensures forall key :: less(key, row.key) && AllAfter(less, key, list) ==> AllAfter(less, key, Place(less, list, row))
    decreases |list|
  {
    hide TotalOrder;
    if list != [] {
      var head, tail := list[0], list[1..];
      assert list == [head] + tail && head in list;
      assert forall x :: x in tail ==> x in list;
      AscendingHead(less, head, tail);
      if head.id == row.id {
        AscendingHead(less, if head.version < row.version then row else head, tail);
      } else if less(row.key, head.key) {
        forall i | 0 <= i < |list| ensures less(row.key, list[i].key) {
          if 0 < i { LessIsTransitive(less, row.key, head.key, list[i].key); }
        }
        AscendingHead(less, row, list);
      } else {
        LessIsTotal(less, head.key, row.key);
        PlaceAscends(less, tail, row);
        AscendingHead(less, head, Place(less, tail, row));
      }
    }
  }

  lemma NothingAscends<K, V>(less: Order<K>)
    ensures Ascending<K, V>(less, [])
  {
  }

  /** The query's result is in order and has exactly the newest version of every row. */
  lemma {:induction false} ListingIs<K(!new), V(!new)>(less: Order<K>, table: seq<Row<K, V>>)
    requires TotalOrder(less) && KeysIdentify(table)
    ensures Ascending(less, Listing(less, table)) && Newest(table, Listing(less, table))
    decreases |table|
  {
    hide TotalOrder, Covers, Ascending;
    if table == [] {
      NothingAscends<K, V>(less);
    } else {
      var before, row := table[..|table| - 1], table[|table| - 1];
      assert table == before + [row];
      ListingIs(less, before);
      var list := Listing(less, before);
      assert forall x :: x in list ==> x in table;
      PlaceAscends(less, list, row);
      PlaceMembers(less, list, row);
      forall x | x in table ensures Covers(Listing(less, table), x) {
        PlaceCovers(less, list, row, x);
      }
    }
  }

  // ---------------------------------------------------------------- a cursor cuts the listing

  lemma {:induction false} FromHead<K, V>(less: Order<K>, head: Row<K, V>, rows: seq<Row<K, V>>, cursor: K)
    ensures From(less, [head] + rows, cursor)
         == (if AtOrAfter(less, cursor, head.key) then [head] else []) + From(less, rows, cursor)
    decreases |rows|
  {
    var more := [head] + rows;
    if rows == [] {
      assert more[..0] == [];
    } else {
      var before := rows[..|rows| - 1];
      FromHead(less, head, before, cursor);
      assert more[..|more| - 1] == [head] + before;
    }
  }

  lemma FromNothing<K, V>(less: Order<K>, cursor: K)
    ensures From<K, V>(less, [], cursor) == []
  {
  }

  lemma {:induction false} PlaceFrom<K(!new), V(!new)>(less: Order<K>, list: seq<Row<K, V>>, row: Row<K, V>, cursor: K)
    requires TotalOrder(less) && Ascending(less, list)
    requires forall x :: x in list ==> (x.id == row.id <==> x.key == row.key)
    ensures From(less, Place(less, list, row), cursor)
         == if AtOrAfter(less, cursor, row.key) then Place(less, From(less, list, cursor), row)
            else From(less, list, cursor)
    decreases |list|
  {
    hide TotalOrder, Ascending, From, AllAfter;
    FromHead(less, row, list, cursor);
    FromNothing<K, V>(less, cursor);
    if list == [] {
      assert [row] + [] == [row];
    } else {
      var head, tail := list[0], list[1..];
      assert list == [head] + tail && head in list;
      assert forall x :: x in tail ==> x in list;
      AscendingHead(less, head, tail);
      FromHead(less, head, tail, cursor);
      if head.id == row.id {
        FromHead(less, if head.version < row.version then row else head, tail, cursor);
      } else if less(row.key, head.key) {
        if less(cursor, row.key) { LessIsTransitive(less, cursor, row.key, head.key); }
      } else {
        LessIsTotal(less, head.key, row.key);
        if less(cursor, head.key) { LessIsTransitive(less, cursor, head.key, row.key); }
        PlaceFrom(less, tail, row, cursor);
        FromHead(less, head, Place(less, tail, row), cursor);
        var rest := From(less, tail, cursor);
        assert ([head] + rest)[0] == head && ([head] + rest)[1..] == rest;
        assert [] + rest == rest && [] + From(less, Place(less, tail, row), cursor) == From(less, Place(less, tail, row), cursor);
      }
    }
  }

  lemma SubtableIdentifies<K(!new), V(!new)>(table: seq<Row<K, V>>, part: seq<Row<K, V>>)
    requires KeysIdentify(table) && forall r :: r in part ==> r in table
    ensures KeysIdentify(part)
  {
  }

  /** Filtering the table by a cursor filters its listing. */
  lemma {:induction false} ListingFrom<K(!new), V(!new)>(less: Order<K>, table: seq<Row<K, V>>, cursor: K)
    requires TotalOrder(less) && KeysIdentify(table)
    ensures Listing(less, From(less, table, cursor)) == From(less, Listing(less, table), cursor)
    decreases |table|
  {
    hide TotalOrder, KeysIdentify, Ascending;
    if table != [] {
      var before, row := table[..|table| - 1], table[|table| - 1];
      assert table == before + [row];
      SubtableIdentifies(table, before);
      ListingFrom(less, before, cursor);
      ListingIs(less, before);
      IdsMatch(table, Listing(less, before), row);
      PlaceFrom(less, Listing(less, before), row, cursor);
      var rest := From(less, before, cursor);
      assert (rest + [row])[..|rest + [row]| - 1] == rest;
    }
  }

  lemma IdsMatch<K(!new), V(!new)>(table: seq<Row<K, V>>, list: seq<Row<K, V>>, row: Row<K, V>)
    requires KeysIdentify(table) && row in table && table != [] && Newest(table[..|table| - 1], list)
    ensures forall x :: x in list ==> (x.id == row.id <==> x.key == row.key)
  {
  }

  lemma {:induction false} FromIsSuffix<K(!new), V(!new)>(less: Order<K>, list: seq<Row<K, V>>, i: nat, n: nat)
    requires TotalOrder(less) && Ascending(less, list) && i < |list| && n <= |list|
    ensures From(less, list[..n], list[i].key) == if n <= i then [] else list[i..n]
    decreases n
  {
    hide TotalOrder;
    if n != 0 {
      FromIsSuffix(less, list, i, n - 1);
      assert list[..n][..n - 1] == list[..n - 1];
      LessIsTotal(less, list[i].key, list[n - 1].key);
      assert i < n - 1 ==> list[i..n - 1] + [list[n - 1]] == list[i..n];
    }
  }

  /** A fetch from the cursor of a listed row is the listing from that row on, cut to size. */
  lemma FetchIsSuffix<K(!new), V(!new)>(less: Order<K>, table: seq<Row<K, V>>, i: nat, limit: nat)
    requires TotalOrder(less) && KeysIdentify(table) && i < |Listing(less, table)|
    ensures var list := Listing(less, table);
            Fetch(less, table, Some(list[i].key), limit) == if limit + 1 < |list| - i then list[i..i + limit + 1] else list[i..]
  {
    hide TotalOrder, KeysIdentify;
    var list := Listing(less, table);
    ListingIs(less, table);
    ListingFrom(less, table, list[i].key);
    FromIsSuffix(less, list, i, |list|);
    assert list[..|list|] == list;
  }

  // ---------------------------------------------------------------- the walk

  /** A client that has asked `requests` times, each time with the cursor it was last given. */
  datatype Progress<K, V> = Progress(rows: seq<Row<K, V>>, next: Option<K>, done: bool)

  function Walk<K(==), V>(less: Order<K>, table: seq<Row<K, V>>, limit: nat, requests: nat): (p: Progress<K, V>) {
    if requests == 0 then Progress([], None, false)
    else
      var p := Walk(less, table, limit, requests - 1);
      if p.done then p
      else
        var fetched := Fetch(less, table, p.next, limit);
        var (page, more) := Trim(fetched, limit);
        Progress(p.rows + page, if more then Some(fetched[limit].key) else None, !more)
  }

  /** Where a walk stands that has asked for `at` rows: it is done exactly when the listing has no
      more, and until then it has its first `at` rows and the key of the next one. */
  ghost predicate Stands<K, V>(list: seq<Row<K, V>>, p: Progress<K, V>, at: nat, requests: nat) {
    && (p.done <==> 1 <= requests && |list| <= at)
    && (p.done ==> p.rows == list)
    && (!p.done ==> at <= |list| && p.rows == list[..at])
    && (!p.done && 1 <= requests ==> at < |list| && p.next == Some(list[at].key))
    && (requests == 0 ==> p.next == None)
  }

  /** Each request adds the next page of the full listing, and the walk ends when the listing is
      exhausted: nothing is skipped or repeated. */
  lemma {:induction false} WalkIsComplete<K(!new), V(!new)>(
    less: Order<K>, table: seq<Row<K, V>>, limit: nat, requests: nat)
    requires TotalOrder(less) && KeysIdentify(table) && 1 <= limit
    ensures Stands(Listing(less, table), Walk(less, table, limit, requests), requests * limit, requests)
    decreases requests
  {
    hide TotalOrder, KeysIdentify, Listing;
    if requests != 0 {
      var list, before := Listing(less, table), Walk(less, table, limit, requests - 1);
      WalkIsComplete(less, table, limit, requests - 1);
      var from := (requests - 1) * limit;
      assert requests * limit == from + limit;
      if !before.done {
        if requests != 1 { FetchIsSuffix(less, table, from, limit); }
        FetchNext(less, table, before.next, limit, from);
      }
    }
  }

  /** One more page, from a place in the listing that the cursor stands for. */
  lemma FetchNext<K(!new), V(!new)>(less: Order<K>, table: seq<Row<K, V>>, next: Option<K>, limit: nat, from: nat)
    requires from <= |Listing(less, table)| && 1 <= limit
    requires var list := Listing(less, table);
             Fetch(less, table, next, limit) == if limit + 1 < |list| - from then list[from..from + limit + 1] else list[from..]
    ensures var list, fetched := Listing(less, table), Fetch(less, table, next, limit);
            && (Trim(fetched, limit).1 <==> from + limit < |list|)
            && (from + limit < |list| ==> fetched[limit] == list[from + limit])
            && list[..from] + Trim(fetched, limit).0 == if from + limit < |list| then list[..from + limit] else list
  {
    hide Listing;
    var list, fetched := Listing(less, table), Fetch(less, table, next, limit);
    if from + limit < |list| {
      assert fetched[..limit] == list[from..from + limit];
      assert list[..from] + list[from..from + limit] == list[..from + limit];
    } else {
      assert fetched == list[from..];
      assert list[..from] + list[from..] == list;
    }
  }
}
