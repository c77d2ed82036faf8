/**
 Pages of a job's logs and of a workflow's jobs (GetJobLogs, collectJobLogPage, ListJobs and
 their cursors in internal/repository/jobs/jobs.go).

 A log table is the rows of one job that pass the stream filter. A version is a row's timestamp.
 */
module JobPages {
  import opened Prelude
  import Ordering
  import opened Keyset
  import opened Cursors

  // ---------------------------------------------------------------- orders

  datatype LogKey = LogKey(sequence: nat, stream: string, eventId: string)

  predicate LogBefore(ascending: bool, a: LogKey, b: LogKey) {
    || (if ascending then a.sequence < b.sequence else b.sequence < a.sequence)
    || (a.sequence == b.sequence && Ordering.Less(a.stream, b.stream))
    || (a.sequence == b.sequence && a.stream == b.stream && Ordering.Less(a.eventId, b.eventId))
  }

  function LogOrder(ascending: bool): (less: Order<LogKey>) {
    (a: LogKey, b: LogKey) => LogBefore(ascending, a, b)
  }

  datatype JobKey = JobKey(createdAt: Time, id: string)

  predicate JobBefore(a: JobKey, b: JobKey) {
    b.createdAt < a.createdAt || (a.createdAt == b.createdAt && Ordering.Less(b.id, a.id))
  }

  function JobOrder(): (less: Order<JobKey>) {
    (a: JobKey, b: JobKey) => JobBefore(a, b)
  }

  lemma LogOrderIsTotal(ascending: bool)
    ensures TotalOrder(LogOrder(ascending))
  {
    forall a: LogKey, b: LogKey
      ensures LogBefore(ascending, a, b) || a == b || LogBefore(ascending, b, a)
      ensures !LogBefore(ascending, a, a)
    {
      Ordering.LessIsTotal(a.stream, b.stream);
      Ordering.LessIsTotal(a.eventId, b.eventId);
      Ordering.LessIsTotal(a.stream, a.stream);
      Ordering.LessIsTotal(a.eventId, a.eventId);
    }
    forall a: LogKey, b: LogKey, c: LogKey | LogBefore(ascending, a, b) && LogBefore(ascending, b, c)
      ensures LogBefore(ascending, a, c)
    {
      if Ordering.Less(a.stream, b.stream) && Ordering.Less(b.stream, c.stream) {
        Ordering.LessIsTransitive(a.stream, b.stream, c.stream);
      }
      if Ordering.Less(a.eventId, b.eventId) && Ordering.Less(b.eventId, c.eventId) {
        Ordering.LessIsTransitive(a.eventId, b.eventId, c.eventId);
      }
    }
  }

  lemma JobOrderIsTotal()
    ensures TotalOrder(JobOrder())
  {
    forall a: JobKey, b: JobKey
      ensures JobBefore(a, b) || a == b || JobBefore(b, a)
      ensures !JobBefore(a, a)
    {
      Ordering.LessIsTotal(a.id, b.id);
      Ordering.LessIsTotal(a.id, a.id);
    }
    forall a: JobKey, b: JobKey, c: JobKey | JobBefore(a, b) && JobBefore(b, c)
      ensures JobBefore(a, c)
    {
      if Ordering.Less(b.id, a.id) && Ordering.Less(c.id, b.id) {
        Ordering.LessIsTransitive(c.id, b.id, a.id);
      }
    }
  }

  // ---------------------------------------------------------------- cursors

  predicate IsZero(key: LogKey) {
    key.sequence == 0 && key.stream == "" && key.eventId == ""
  }

  /** A log cursor that is zero in every field is encoded as no cursor, and one without a stream or
      an event id is refused. */
  function LogCodec(): (codec: Codec<LogKey>) {
    Codec((key: LogKey) => IsZero(key), (key: LogKey) => key.stream != "" && key.eventId != "")
  }

  lemma CursorRoundTrip(key: LogKey)
    ensures Decode(LogCodec(), Encode(LogCodec(), key)) == Success(Some(key)) <==> key.stream != "" && key.eventId != ""
    ensures Decode(LogCodec(), Encode(LogCodec(), key)) == Success(None) <==>
              key.sequence == 0 && key.stream == "" && key.eventId == ""
    ensures Decode(LogCodec(), Encode(LogCodec(), key)).Failure? ==>
              Decode(LogCodec(), Encode(LogCodec(), key)) == Failure(InvalidArgument)
  {
  }

  const DELIMITER: char := '$'

  function Delimiters(text: string): (n: nat) {
    if text == "" then 0 else (if text[0] == DELIMITER then 1 else 0) + Delimiters(text[1..])
  }

  /** The parts of a text with one delimiter. */
  function Split(text: string): (parts: (string, string))
    requires Delimiters(text) == 1
  {
    if text[0] == DELIMITER then ("", text[1..])
    else var (a, b) := Split(text[1..]); ([text[0]] + a, b)
  }

  /** A jobs cursor: the identifier, a delimiter and the creation time as text. */
  function JobCursorText(key: JobKey, format: Time -> string): (text: string) {
    key.id + [DELIMITER] + format(key.createdAt)
  }

  function ParseJobCursor(text: string, parse: string -> Option<Time>): (r: Result<Option<JobKey>>) {
    if text == "" then Success(None)
    else if Delimiters(text) != 1 then Failure(InvalidArgument)
    else
      match parse(Split(text).1)
      case None => Failure(InvalidArgument)
      case Some(at) => Success(Some(JobKey(at, Split(text).0)))
  }

  /** Times survive being written and read, and are written without a delimiter. */
  ghost predicate Reads(format: Time -> string, parse: string -> Option<Time>) {
    forall t :: parse(format(t)) == Some(t) && Delimiters(format(t)) == 0
  }

  lemma {:induction false} SplitsAtDelimiter(id: string, rest: string)
    requires Delimiters(rest) == 0
    ensures Delimiters(id + [DELIMITER] + rest) == Delimiters(id) + 1
    ensures Delimiters(id) == 0 ==> Split(id + [DELIMITER] + rest) == (id, rest)
    decreases |id|
  {
    var text := id + [DELIMITER] + rest;
    if id == "" {
      assert text[1..] == rest;
    } else {
      assert text[1..] == id[1..] + [DELIMITER] + rest;
      SplitsAtDelimiter(id[1..], rest);
      assert [id[0]] + id[1..] == id;
    }
  }

  /** A jobs cursor is never empty, and comes back as itself exactly when the identifier has no
      delimiter in it, as no UUID has; otherwise it is refused. */
  lemma JobCursorRoundTrip(key: JobKey, format: Time -> string, parse: string -> Option<Time>)
    requires Reads(format, parse)
    ensures JobCursorText(key, format) != ""
    ensures ParseJobCursor(JobCursorText(key, format), parse)
         == Decode(JobCodec(), Encode(JobCodec(), key))
  {
    SplitsAtDelimiter(key.id, format(key.createdAt));
  }

  lemma {:induction false} SplitJoins(text: string)
    requires Delimiters(text) == 1
    ensures text == Split(text).0 + [DELIMITER] + Split(text).1
    ensures Delimiters(Split(text).0) == 0 == Delimiters(Split(text).1)
  {
    if text[0] != DELIMITER {
      SplitJoins(text[1..]);
      assert ([text[0]] + Split(text[1..]).0)[1..] == Split(text[1..]).0;
    }
  }

  /** An identifier, one delimiter and a time that can be read. */
  ghost predicate Spells(text: string, key: JobKey, parse: string -> Option<Time>) {
    exists rest :: text == key.id + [DELIMITER] + rest && parse(rest) == Some(key.createdAt)
                   && Delimiters(key.id) == 0 == Delimiters(rest)
  }

  /** A text is read as the key it spells, and only so; the empty text is no cursor; every other text is
      refused. */
  lemma ReadsExactly(text: string, key: JobKey, parse: string -> Option<Time>)
    ensures ParseJobCursor("", parse) == Success(None)
    ensures ParseJobCursor(text, parse) == Success(Some(key)) <==> Spells(text, key, parse)
    ensures ParseJobCursor(text, parse) == Success(None) ==> text == ""
    ensures ParseJobCursor(text, parse).Failure? ==> ParseJobCursor(text, parse) == Failure(InvalidArgument)
  {
    if ParseJobCursor(text, parse) == Success(Some(key)) {
      SplitJoins(text);
      assert text == key.id + [DELIMITER] + Split(text).1;
    }
    if Spells(text, key, parse) {
      var rest :| text == key.id + [DELIMITER] + rest && parse(rest) == Some(key.createdAt)
                  && Delimiters(key.id) == 0 == Delimiters(rest);
      SplitsAtDelimiter(key.id, rest);
      assert text != "";
    }
  }

  function JobCodec(): (codec: Codec<JobKey>) {
    Codec((key: JobKey) => false, (key: JobKey) => Delimiters(key.id) == 0)
  }

  // ---------------------------------------------------------------- pages of logs

  type Log = Row<LogKey, string>

  /** Keeps `limit` of the fetched rows and the key of the first one left out. */
  method CollectJobLogPage(rows: seq<Log>, limit: nat) returns (page: seq<Log>, cursor: LogKey)
    ensures page == Trim(rows, limit).0
    ensures cursor == if Trim(rows, limit).1 then rows[limit].key else LogKey(0, "", "")
  {
    var fetched: seq<Log>, cursors: seq<LogKey> := [], [];
    for i := 0 to |rows|
      invariant fetched == rows[..i] && |cursors| == i
      invariant forall k :: 0 <= k < i ==> cursors[k] == rows[k].key
    {
      fetched := fetched + [rows[i]];
      cursors := cursors + [rows[i].key];
    }
    assert fetched == rows;
    cursor := LogKey(0, "", "");
    var trimmed := Trim(fetched, limit);
    if trimmed.1 {
      cursor := cursors[limit];
    }
    return trimmed.0, cursor;
  }

  method GetJobLogs(table: seq<Log>, ascending: bool, limit: nat, cursor: Wire<LogKey>)
    returns (r: Result<Page<LogKey, string>>)
    ensures r == Request(LogCodec(), LogOrder(ascending), table, limit, cursor)
  {
    var decoded := Decode(LogCodec(), cursor);
    if decoded.Failure? {
      return Failure(decoded.code);
    }
    var page, next := CollectJobLogPage(Fetch(LogOrder(ascending), table, decoded.value, limit), limit);
    return Success(Page(page, Encode(LogCodec(), next)));
  }

  /** The condition on rows that the query spells out is the cursor's place in the order. */
  lemma CursorCondition(ascending: bool, cursor: LogKey, key: LogKey)
    ensures AtOrAfter(LogOrder(ascending), cursor, key)
       <==> (|| (if ascending then cursor.sequence < key.sequence else key.sequence < cursor.sequence)
             || (key.sequence == cursor.sequence && Ordering.Less(cursor.stream, key.stream))
             || (key.sequence == cursor.sequence && key.stream == cursor.stream
                 && !Ordering.Less(key.eventId, cursor.eventId)))
  {
    Ordering.LessIsTotal(cursor.eventId, key.eventId);
  }

  /** Jobs are listed newest first, and of equally old ones the greater identifier first. */
  lemma ListsNewestFirst<V(!new)>(table: seq<Row<JobKey, V>>, i: nat, k: nat)
    requires KeysIdentify(table) && i < k < |Listing(JobOrder(), table)|
    ensures var a, b := Listing(JobOrder(), table)[i].key, Listing(JobOrder(), table)[k].key;
            b.createdAt < a.createdAt || (b.createdAt == a.createdAt && Ordering.Less(b.id, a.id))
  {
    JobOrderIsTotal();
    ListingIs(JobOrder(), table);
    assert JobBefore(Listing(JobOrder(), table)[i].key, Listing(JobOrder(), table)[k].key);
  }

  /** Logs are listed by sequence number in the direction asked for; of equal numbers, streams and
      then event ids ascend in both directions. */
  lemma ListsInSequence(table: seq<Log>, ascending: bool, i: nat, k: nat)
    requires KeysIdentify(table) && i < k < |Listing(LogOrder(ascending), table)|
    ensures var a, b := Listing(LogOrder(ascending), table)[i].key, Listing(LogOrder(ascending), table)[k].key;
            && (if ascending then a.sequence <= b.sequence else b.sequence <= a.sequence)
            && (a.sequence == b.sequence ==>
                  Ordering.Less(a.stream, b.stream) || (a.stream == b.stream && Ordering.Less(a.eventId, b.eventId)))
  {
    LogOrderIsTotal(ascending);
    ListingIs(LogOrder(ascending), table);
    var list := Listing(LogOrder(ascending), table);
    assert LogBefore(ascending, list[i].key, list[k].key);
  }

  // ---------------------------------------------------------------- walks

  /** Page k, if there is one, starts at a log with a stream and an event id. */
  ghost predicate PageStartsWhole(table: seq<Log>, ascending: bool, limit: nat, k: nat) {
    var list := Listing(LogOrder(ascending), table);
    k * limit < |list| ==> list[k * limit].key.stream != "" && list[k * limit].key.eventId != ""
  }

  /** For every page limit and both directions: following log cursors from the empty one ends with
      exactly the full listing, nothing skipped or repeated, if and only if every page after the
      first starts at a log that has a stream and an event id. */
  lemma LogWalkCompletesExactly(table: seq<Log>, ascending: bool, limit: nat)
    requires KeysIdentify(table) && 1 <= limit
    ensures (exists n: nat ::
               Follow(LogCodec(), LogOrder(ascending), table, limit, n) == Finished(Listing(LogOrder(ascending), table)))
       <==> (forall k :: 1 <= k ==> PageStartsWhole(table, ascending, limit, k))
  {
    hide TotalOrder, KeysIdentify, Listing, Follow;
    LogOrderIsTotal(ascending);
    FollowCompletesExactly(LogCodec(), LogOrder(ascending), table, limit);
    forall k ensures PageStartsWhole(table, ascending, limit, k)
                <==> PageStartReturns(LogCodec(), LogOrder(ascending), table, limit, k)
    {
    }
  }

  /** Two logs, the second one without a stream: with pages of one log the walk delivers only the
      first and is then refused, or, when the second has nothing at all, ends as if complete. */
  lemma AWalkEndsEarly(first: Log, second: Log)
    requires first.id != second.id && first.key == LogKey(1, "stdout", first.id) && second.key == LogKey(0, "", second.id)
    ensures Listing(LogOrder(false), [first, second]) == [first, second]
    ensures Follow(LogCodec(), LogOrder(false), [first, second], 1, 2)
         == if second.id == "" then Finished([first]) else Rejected([first])
  {
    hide TotalOrder;
    var table := [first, second];
    assert table[..1] == [first] && [first][..0] == [];
    assert Listing(LogOrder(false), [first]) == [first];
    assert [first][1..] == [] && Place(LogOrder(false), [], second) == [second];
    assert Place(LogOrder(false), [first], second) == [first] + [second];
    assert Listing(LogOrder(false), table) == table;
    LogOrderIsTotal(false);
    assert KeysIdentify(table);
    assert 1 * 1 < |Listing(LogOrder(false), table)| && Listing(LogOrder(false), table)[1 * 1] == second;
    assert !PageStartReturns(LogCodec(), LogOrder(false), table, 1, 1);
    BadPageEndsWalk(LogCodec(), LogOrder(false), table, 1, 1, 2);
    assert table[..1 * 1] == [first];
  }

  /** Following jobs cursors is complete for every page limit exactly when every page after the
      first starts at a job whose identifier has no delimiter; so with UUIDs it always is. */
  lemma JobWalkCompletesExactly<V(!new)>(table: seq<Row<JobKey, V>>, limit: nat)
    requires KeysIdentify(table) && 1 <= limit
    ensures (exists n: nat :: Follow(JobCodec(), JobOrder(), table, limit, n) == Finished(Listing(JobOrder(), table)))
       <==> (forall k :: 1 <= k ==> PageStartReturns(JobCodec(), JobOrder(), table, limit, k))
    ensures (forall r :: r in table ==> Delimiters(r.key.id) == 0) ==>
              forall k :: PageStartReturns(JobCodec(), JobOrder(), table, limit, k)
  {
    hide TotalOrder, KeysIdentify, Listing, Follow, PageStartReturns, Delimiters;
    JobOrderIsTotal();
    FollowCompletesExactly(JobCodec(), JobOrder(), table, limit);
    if forall r :: r in table ==> Delimiters(r.key.id) == 0 {
      forall k ensures PageStartReturns(JobCodec(), JobOrder(), table, limit, k) { WholeIdsReturn(table, limit, k); }
    }
  }

  lemma WholeIdsReturn<V(!new)>(table: seq<Row<JobKey, V>>, limit: nat, k: nat)
    requires KeysIdentify(table) && forall r :: r in table ==> Delimiters(r.key.id) == 0
    ensures PageStartReturns(JobCodec(), JobOrder(), table, limit, k)
  {
    hide TotalOrder, KeysIdentify, Listing, Delimiters;
    JobOrderIsTotal();
    ListingIs(JobOrder(), table);
    var list := Listing(JobOrder(), table);
    assert k * limit < |list| ==> list[k * limit] in table;
  }
}
