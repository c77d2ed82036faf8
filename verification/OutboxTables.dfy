/**
 The transactional outbox and the relays that publish it
 (internal/pkg/outbox/outbox.go, internal/repository/outboxrelay/outboxrelay.go,
 internal/repository/outboxrelay/cleanup.go).

 A relay claims rows in one transaction and then, row by row, produces to Kafka and records the
 outcome. It may do so arbitrarily late, after its claim expired and another relay took the
 row over. A produce that reports an error may have been written all the same.
 */
module OutboxTables {
  import opened Prelude

  type EventId = nat
  type Token = nat

  datatype Status = Pending | Processing | Failed | Dead | Published

  /** The columns an event is inserted with. */
  datatype Origin = Origin(topic: string, kafkaKey: string, eventKey: string, createdAt: Time)

  datatype Row = Row(
    status: Status, nextAttemptAt: Time, lockedAt: Option<Time>, lockedBy: Option<Token>, attempts: nat,
    publishedAt: Option<Time>)

  /** What a relay holds for a row it claimed, and how far it has come with it. */
  datatype Claim = Claim(id: EventId, token: Token, attempts: nat)
  datatype Progress = Held | Sent | Unsent | Closed

  datatype Config = Config(batchSize: int, maxAttempts: int, retryBackoff: Time, processingLease: Time)

  /** `origins` keeps the events whose rows were cleaned up; `log` is the Kafka log. */
  datatype Outbox = Outbox(
    cfg: Config, now: Time, nextToken: Token, origins: map<EventId, Origin>, rows: map<EventId, Row>,
    claims: map<Claim, Progress>, log: seq<EventId>)

  const MILLISECOND := 1000

  /** Intervals are passed to the database in whole milliseconds. */
  function Interval(duration: Time): (r: Time)
    ensures 0 <= r
  {
    if duration <= 0 then MILLISECOND else duration / MILLISECOND * MILLISECOND
  }

  function RetryBackoff(cfg: Config): (r: Time) {
    Interval(if cfg.retryBackoff <= 0 then 5 * SECOND else cfg.retryBackoff)
  }

  function ProcessingLease(cfg: Config): (r: Time) {
    Interval(if cfg.processingLease <= 0 then 30 * SECOND else cfg.processingLease)
  }

  // ---------------------------------------------------------------- order

  predicate SameLane(a: Origin, b: Origin) {
    a.topic == b.topic && a.kafkaKey == b.kafkaKey
  }

  /** (created_at, id), compared lexicographically. */
  predicate Before(a: EventId, x: Origin, b: EventId, y: Origin) {
    x.createdAt < y.createdAt || (x.createdAt == y.createdAt && a < b)
  }

  /** Both events have the same topic and Kafka key, and a comes first. */
  predicate Earlier(origins: map<EventId, Origin>, a: EventId, b: EventId) {
    a in origins && b in origins && SameLane(origins[a], origins[b]) && Before(a, origins[a], b, origins[b])
  }

  predicate FirstOf(origins: map<EventId, Origin>, candidates: set<EventId>, a: EventId) {
    a in candidates && a in origins
    && forall b :: b in candidates && b in origins && b != a ==> Before(a, origins[a], b, origins[b])
  }

  lemma {:induction false} SomeEventIsFirst(origins: map<EventId, Origin>, candidates: set<EventId>)
    requires candidates != {} && candidates <= origins.Keys
    ensures exists a :: FirstOf(origins, candidates, a)
    decreases candidates
  {
    var b :| b in candidates;
    var rest := candidates - {b};
    assert candidates == rest + {b};
    if rest == {} {
      assert FirstOf(origins, candidates, b);
    } else {
      SomeEventIsFirst(origins, rest);
      var a :| FirstOf(origins, rest, a);
      assert FirstOf(origins, candidates, if Before(a, origins[a], b, origins[b]) then a else b);
    }
  }

  /** The first `limit` candidates, in order. */
  function TakeFirst(origins: map<EventId, Origin>, candidates: set<EventId>, limit: nat): (taken: seq<EventId>)
    requires candidates <= origins.Keys
    ensures forall a :: a in taken ==> a in candidates
    ensures forall i, k :: 0 <= i < k < |taken| ==>
              taken[i] != taken[k] && Before(taken[i], origins[taken[i]], taken[k], origins[taken[k]])
    ensures forall a, b :: a in taken && b in candidates && b !in taken ==> Before(a, origins[a], b, origins[b])
    ensures |taken| == if |candidates| < limit then |candidates| else limit
    decreases limit
  {
    if limit == 0 || candidates == {} then []
    else
      SomeEventIsFirst(origins, candidates);
      var a :| FirstOf(origins, candidates, a);
      [a] + TakeFirst(origins, candidates - {a}, limit - 1)
  }

  // ---------------------------------------------------------------- claiming

  predicate Due(s: Outbox, a: EventId)
    requires a in s.rows
  {
    var row := s.rows[a];
    || ((row.status.Pending? || row.status.Failed?) && row.nextAttemptAt <= s.now)
    || (row.status.Processing? && row.lockedAt.Some? && row.lockedAt.value <= s.now - ProcessingLease(s.cfg))
  }

  /** Due, and nothing earlier in its lane is unpublished. */
  predicate Claimable(s: Outbox, topic: string, a: EventId) {
    && a in s.rows && a in s.origins && s.origins[a].topic == topic && Due(s, a)
    && forall b :: b in s.rows && Earlier(s.origins, b, a) ==> s.rows[b].status.Published?
  }

  /** What a relay picks while other transactions hold the rows of `locked`. */
  function Picked(s: Outbox, topic: string, locked: set<EventId>): (picked: seq<EventId>)
    ensures forall a :: a in picked ==> Claimable(s, topic, a) && a !in locked
    ensures forall i, k :: 0 <= i < k < |picked| ==> picked[i] != picked[k]
  {
    TakeFirst(s.origins, set a | a in s.rows && Claimable(s, topic, a) && a !in locked,
              if s.cfg.batchSize <= 0 then 0 else s.cfg.batchSize)
  }

  function ClaimedRow(s: Outbox, row: Row): (r: Row) {
    row.(status := Processing, lockedAt := Some(s.now), lockedBy := Some(s.nextToken), attempts := row.attempts + 1)
  }

  function ClaimOf(s: Outbox, a: EventId): (c: Claim)
    requires a in s.rows
  {
    Claim(a, s.nextToken, s.rows[a].attempts + 1)
  }

  /** Takes over one row for the claim being made. */
  function TakeRow(s: Outbox, a: EventId): (r: Outbox)
    requires a in s.rows
  {
    s.(rows := s.rows[a := ClaimedRow(s, s.rows[a])], claims := s.claims[ClaimOf(s, a) := Held])
  }

  function TakeRows(s: Outbox, picked: seq<EventId>): (r: Outbox)
    requires forall a :: a in picked ==> a in s.rows
    ensures r == s.(rows := r.rows, claims := r.claims) && r.rows.Keys == s.rows.Keys
  {
    if picked == [] then s
    else TakeRow(TakeRows(s, picked[..|picked| - 1]), picked[|picked| - 1])
  }

  /** One transaction under one new token. */
  function ClaimTopic(s: Outbox, topic: string, locked: set<EventId>): (r: Outbox) {
    TakeRows(s, Picked(s, topic, locked)).(nextToken := s.nextToken + 1)
  }

  // ---------------------------------------------------------------- publishing

  predicate HeldBy(s: Outbox, c: Claim) {
    c.id in s.rows && s.rows[c.id].status.Processing? && s.rows[c.id].lockedBy == Some(c.token)
  }

  /** A produce that succeeds was written; one that fails may have been. */
  function Produce(s: Outbox, c: Claim, acked: bool, written: bool): (r: Outbox) {
    if c in s.claims && s.claims[c].Held? then
      s.(claims := s.claims[c := if acked then Sent else Unsent],
         log := if acked || written then s.log + [c.id] else s.log)
    else s
  }

  function MarkPublished(s: Outbox, c: Claim): (r: Outbox) {
    if c in s.claims && s.claims[c].Sent? then
      var closed := s.(claims := s.claims[c := Closed]);
      if !HeldBy(s, c) then closed
      else
        closed.(rows := s.rows[c.id := s.rows[c.id].(status := Published, publishedAt := Some(s.now),
                                                     lockedAt := None, lockedBy := None)])
    else s
  }

  function MarkFailed(s: Outbox, c: Claim): (r: Outbox) {
    if c in s.claims && s.claims[c].Unsent? then
      var closed := s.(claims := s.claims[c := Closed]);
      if !HeldBy(s, c) then closed
      else
        closed.(rows := s.rows[c.id := s.rows[c.id].(status := if s.cfg.maxAttempts <= c.attempts then Dead else Failed,
                                                     nextAttemptAt := s.now + RetryBackoff(s.cfg),
                                                     lockedAt := None, lockedBy := None)])
    else s
  }

  // ---------------------------------------------------------------- inserting and cleaning up

  predicate Taken(s: Outbox, o: Origin) {
    exists a :: a in s.rows && a in s.origins && s.origins[a].topic == o.topic && s.origins[a].eventKey == o.eventKey
  }

  function NewRow(s: Outbox): (r: Row) {
    Row(Pending, s.now, None, None, 0, None)
  }

  /** Identifiers are drawn anew for every row. */
  function Insert(s: Outbox, a: EventId, o: Origin): (r: Outbox) {
    if a in s.origins || Taken(s, o) then s
    else s.(origins := s.origins[a := o], rows := s.rows[a := NewRow(s)])
  }

  predicate Cleanable(s: Outbox, a: EventId, retention: Time) {
    && a in s.rows && s.rows[a].status.Published? && s.rows[a].publishedAt.Some?
    && s.rows[a].publishedAt.value < s.now - retention
  }

  function Cleanup(s: Outbox, retention: Time, chosen: set<EventId>): (r: Outbox) {
    if retention <= 0 then s
    else s.(rows := map a | a in s.rows && !(a in chosen && Cleanable(s, a, retention)) :: s.rows[a])
  }

  // ---------------------------------------------------------------- runs

  datatype Op =
    | InsertEvent(id: EventId, origin: Origin)
    | ClaimEvents(topic: string, locked: set<EventId>)
    | ProduceEvent(claim: Claim, acked: bool, written: bool)
    | Publish(claim: Claim)
    | Fail(claim: Claim)
    | CleanupEvents(retention: Time, chosen: set<EventId>)
    | Tick(elapsed: nat)

  function Step(s: Outbox, op: Op): (r: Outbox) {
    match op
    case InsertEvent(a, o) => Insert(s, a, o)
    case ClaimEvents(topic, locked) => ClaimTopic(s, topic, locked)
    case ProduceEvent(c, acked, written) => Produce(s, c, acked, written)
    case Publish(c) => MarkPublished(s, c)
    case Fail(c) => MarkFailed(s, c)
    case CleanupEvents(retention, chosen) => Cleanup(s, retention, chosen)
    case Tick(elapsed) => s.(now := s.now + elapsed)
  }

  function After(s: Outbox, ops: seq<Op>): (r: Outbox)
    decreases |ops|
  {
    if ops == [] then s else Step(After(s, ops[..|ops| - 1]), ops[|ops| - 1])
  }

  function Initial(cfg: Config, now: Time): (s: Outbox) {
    Outbox(cfg, now, 0, map[], map[], map[], [])
  }
}
