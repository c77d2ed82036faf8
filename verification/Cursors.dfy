/**
 Walks over pages whose cursors are encoded for the client (the cursors of GetJobLogs and ListJobs
 in internal/repository/jobs/jobs.go): when a client that follows them sees everything.
 */
module Cursors {
  import opened Prelude
  import opened Keyset

  /** What the client holds: the empty cursor, or an encoded one. */
  datatype Wire<K> = Empty | Encoded(key: K)

  /** Which keys are encoded as the empty cursor, and which decode to themselves. */
  datatype Codec<!K> = Codec(zero: K -> bool, whole: K -> bool)

  ghost predicate Consistent<K(!new)>(codec: Codec<K>) {
    forall key: K :: codec.whole(key) ==> !codec.zero(key)
  }

  function Encode<K>(codec: Codec<K>, key: K): (w: Wire<K>) {
    if codec.zero(key) then Empty else Encoded(key)
  }

  function Decode<K>(codec: Codec<K>, w: Wire<K>): (r: Result<Option<K>>) {
    match w
    case Empty => Success(None)
    case Encoded(key) => if codec.whole(key) then Success(Some(key)) else Failure(InvalidArgument)
  }

  datatype Page<K, V> = Page(rows: seq<Row<K, V>>, cursor: Wire<K>)

  function PageOf<K, V>(codec: Codec<K>, fetched: seq<Row<K, V>>, limit: nat): (p: Page<K, V>) {
    var (rows, cursor) := TrimWithCursor(fetched, limit, (row: Row<K, V>) => Encode(codec, row.key), Empty);
    Page(rows, cursor)
  }

  /** One request. */
  function Request<K(==), V>(codec: Codec<K>, less: Order<K>, table: seq<Row<K, V>>, limit: nat, cursor: Wire<K>)
    : (r: Result<Page<K, V>>)
  {
    match Decode(codec, cursor)
    case Failure(code) => Failure(code)
    case Success(key) => Success(PageOf(codec, Fetch(less, table, key, limit), limit))
  }

  /** A client that follows cursors: it stops at an empty one, and cannot go on after an error. */
  datatype Trip<K, V> =
    | Going(rows: seq<Row<K, V>>, cursor: Wire<K>)
    | Finished(rows: seq<Row<K, V>>)
    | Rejected(rows: seq<Row<K, V>>)

  function Follow<K(==), V>(codec: Codec<K>, less: Order<K>, table: seq<Row<K, V>>, limit: nat, requests: nat)
    : (t: Trip<K, V>)
  {
    if requests == 0 then Going([], Empty)
    else
      var t := Follow(codec, less, table, limit, requests - 1);
      if !t.Going? then t
      else
        match Request(codec, less, table, limit, t.cursor)
        case Failure(_) => Rejected(t.rows)
        case Success(page) =>
          if page.cursor.Empty? then Finished(t.rows + page.rows) else Going(t.rows + page.rows, page.cursor)
  }

  /** The key of the first row of page k of the full listing, when there is such a page. */
  ghost predicate PageStartReturns<K, V>(codec: Codec<K>, less: Order<K>, table: seq<Row<K, V>>, limit: nat, k: nat) {
    var list := Listing(less, table);
    k * limit < |list| ==> codec.whole(list[k * limit].key)
  }

  /** As long as the pages so far start at keys that return, following wire cursors is the walk. */
  lemma {:induction false} FollowIsWalk<K(!new), V(!new)>(
    codec: Codec<K>, less: Order<K>, table: seq<Row<K, V>>, limit: nat, requests: nat)
    requires TotalOrder(less) && Consistent(codec) && KeysIdentify(table) && 1 <= limit
    requires forall k :: 1 <= k <= requests ==> PageStartReturns(codec, less, table, limit, k)
    ensures var p := Walk(less, table, limit, requests);
            Follow(codec, less, table, limit, requests)
            == if p.done then Finished(p.rows) else Going(p.rows, if p.next.Some? then Encoded(p.next.value) else Empty)
    decreases requests
  {
    hide TotalOrder, KeysIdentify, Listing, Fetch;
    WalkIsComplete(less, table, limit, requests);
    if requests != 0 {
      FollowIsWalk(codec, less, table, limit, requests - 1);
      WalkIsComplete(less, table, limit, requests - 1);
      assert PageStartReturns(codec, less, table, limit, requests);
      if 1 < requests {
        assert PageStartReturns(codec, less, table, limit, requests - 1);
      }
    }
  }

  lemma {:induction false} PagesGrow(n: nat, k: nat, limit: nat)
    requires n < k && 1 <= limit
    ensures n * limit + limit <= k * limit && n * limit + (k - n) <= k * limit
    decreases k - n
  {
    assert (n + 1) * limit == n * limit + limit;
    if n + 1 < k {
      PagesGrow(n + 1, k, limit);
    }
  }

  /** The page before one that starts at a key that does not return is the last one that is
      delivered: the walk stops there, or its next request is refused. */
  lemma {:induction false} BadPageEndsWalk<K(!new), V(!new)>(
    codec: Codec<K>, less: Order<K>, table: seq<Row<K, V>>, limit: nat, k: nat, requests: nat)
    requires TotalOrder(less) && Consistent(codec) && KeysIdentify(table) && 1 <= limit && 1 <= k <= requests
    requires forall i :: 1 <= i < k ==> PageStartReturns(codec, less, table, limit, i)
    requires !PageStartReturns(codec, less, table, limit, k)
    ensures var key := Listing(less, table)[k * limit].key;
            var rows := Listing(less, table)[..k * limit];
            Follow(codec, less, table, limit, requests)
            == if codec.zero(key) then Finished(rows) else if requests == k then Going(rows, Encoded(key)) else Rejected(rows)
    decreases requests
  {
    hide TotalOrder, KeysIdentify, Listing, Fetch;
    if requests == k {
      FollowIsWalk(codec, less, table, limit, k - 1);
      WalkIsComplete(less, table, limit, k - 1);
      WalkIsComplete(less, table, limit, k);
      PagesGrow(k - 1, k, limit);
      assert 1 < k ==> PageStartReturns(codec, less, table, limit, k - 1);
    } else {
      BadPageEndsWalk(codec, less, table, limit, k, requests - 1);
    }
  }

  lemma {:induction false} FirstBadPage<K(!new), V(!new)>(
    codec: Codec<K>, less: Order<K>, table: seq<Row<K, V>>, limit: nat, n: nat) returns (k: nat)
    requires 1 <= n && !PageStartReturns(codec, less, table, limit, n)
    ensures 1 <= k <= n && !PageStartReturns(codec, less, table, limit, k)
    ensures forall i :: 1 <= i < k ==> PageStartReturns(codec, less, table, limit, i)
    decreases n
  {
    if i :| 1 <= i < n && !PageStartReturns(codec, less, table, limit, i) {
      k := FirstBadPage(codec, less, table, limit, i);
    } else {
      k := n;
    }
  }

  /** For every page limit and both directions: following cursors from the empty one ends with
      exactly the full listing, nothing skipped or repeated, if and only if every page after the
      first starts at a key that returns. */
  lemma FollowCompletesExactly<K(!new), V(!new)>(
    codec: Codec<K>, less: Order<K>, table: seq<Row<K, V>>, limit: nat)
    requires TotalOrder(less) && Consistent(codec) && KeysIdentify(table) && 1 <= limit
    ensures (exists n: nat :: Follow(codec, less, table, limit, n) == Finished(Listing(less, table)))
       <==> (forall k :: 1 <= k ==> PageStartReturns(codec, less, table, limit, k))
  {
    hide TotalOrder, KeysIdentify, Listing, Follow;
    var list := Listing(less, table);
    if forall k :: 1 <= k ==> PageStartReturns(codec, less, table, limit, k) {
      var n := |list| + 1;
      FollowIsWalk(codec, less, table, limit, n);
      WalkIsComplete(less, table, limit, n);
      PagesGrow(0, n, limit);
      assert Follow(codec, less, table, limit, n) == Finished(list);
    } else {
      var bad :| 1 <= bad && !PageStartReturns(codec, less, table, limit, bad);
      var k := FirstBadPage(codec, less, table, limit, bad);
      forall n: nat ensures Follow(codec, less, table, limit, n) != Finished(list) {
        NeverFinishes(codec, less, table, limit, k, n);
      }
    }
  }

  lemma NeverFinishes<K(!new), V(!new)>(
    codec: Codec<K>, less: Order<K>, table: seq<Row<K, V>>, limit: nat, k: nat, n: nat)
    requires TotalOrder(less) && Consistent(codec) && KeysIdentify(table) && 1 <= limit && 1 <= k
    requires forall i :: 1 <= i < k ==> PageStartReturns(codec, less, table, limit, i)
    requires !PageStartReturns(codec, less, table, limit, k)
    ensures Follow(codec, less, table, limit, n) != Finished(Listing(less, table))
  {
    hide TotalOrder, KeysIdentify, Listing, Follow;
    var list := Listing(less, table);
    if k <= n {
      BadPageEndsWalk(codec, less, table, limit, k, n);
      assert |list[..k * limit]| < |list|;
    } else {
      FollowIsWalk(codec, less, table, limit, n);
      WalkIsComplete(less, table, limit, n);
      PagesGrow(n, k, limit);
    }
  }
}
