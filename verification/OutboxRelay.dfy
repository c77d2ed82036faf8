/**
 The relay's repository over the outbox table (internal/repository/outboxrelay/outboxrelay.go,
 internal/repository/outboxrelay/cleanup.go), proved against the steps of OutboxTables.
 */
module OutboxRelay {
  import opened Prelude
  import T = OutboxTables
  import opened OutboxTables
  import O = OutboxOrder

  /** What Kafka answers to one produce, and whether the record was written in fact. */
  datatype Outcome = Outcome(acked: bool, written: bool)

  class Relay {
    const cfg: Config
    var now: Time
    var nextToken: Token
    var origins: map<EventId, Origin>
    var rows: map<EventId, Row>
    var claims: map<Claim, Progress>     // what the relays hold in memory
    var log: seq<EventId>                // Kafka

    constructor (cfg: Config, now: Time)
      ensures View() == Initial(cfg, now)
    {
      this.cfg, this.now, nextToken := cfg, now, 0;
      origins, rows, claims, log := map[], map[], map[], [];
    }

    function View(): (s: Outbox)
      reads this
    {
      Outbox(cfg, now, nextToken, origins, rows, claims, log)
    }

    method InsertTx(a: EventId, o: Origin)
      modifies this`origins, this`rows
      ensures View() == Step(old(View()), InsertEvent(a, o))
    {
      if a in origins {
        return;
      }
      if exists b :: b in rows && b in origins && origins[b].topic == o.topic && origins[b].eventKey == o.eventKey {
        return;
      }
      origins := origins[a := o];
      rows := rows[a := Row(Pending, now, None, None, 0, None)];
    }

    method TakeOver(a: EventId) returns (c: Claim)
      requires a in rows
      modifies this`rows, this`claims
      ensures View() == TakeRow(old(View()), a) && c == T.ClaimOf(old(View()), a)
    {
      var row := rows[a];
      c := Claim(a, nextToken, row.attempts + 1);
      rows := rows[a := row.(status := Processing, lockedAt := Some(now), lockedBy := Some(nextToken),
                             attempts := row.attempts + 1)];
      claims := claims[c := Held];
    }

    method TakeAll(picked: seq<EventId>) returns (events: seq<Claim>)
      requires forall a :: a in picked ==> a in rows
      requires forall i, k :: 0 <= i < k < |picked| ==> picked[i] != picked[k]
      modifies this`rows, this`claims
      ensures View() == TakeRows(old(View()), picked) && events == Claims(old(View()), picked)
    {
      hide TakeRow;
      ghost var s := View();
      events := [];
      for i := 0 to |picked|
        invariant View() == TakeRows(s, picked[..i]) && events == Claims(s, picked[..i])
      {
        assert picked[..i + 1][..i] == picked[..i];
        O.TakeRowsRow(s, picked[..i], picked[i]);
        var c := TakeOver(picked[i]);
        events := events + [c];
      }
      assert picked[..|picked|] == picked;
    }

    method ClaimBatch(topic: string, locked: set<EventId>) returns (events: seq<Claim>)
      modifies this`rows, this`claims, this`nextToken
      ensures View() == Step(old(View()), ClaimEvents(topic, locked))
      ensures events == Claims(old(View()), Picked(old(View()), topic, locked))
    {
      hide TakeRows;
      events := TakeAll(Picked(View(), topic, locked));
      nextToken := nextToken + 1;
    }

    method MarkPublished(c: Claim) returns (code: Code)
      requires c in claims && claims[c].Sent?
      modifies this`rows, this`claims
      ensures View() == Step(old(View()), Publish(c))
      ensures code == if HeldBy(old(View()), c) then OK else Aborted
    {
      claims := claims[c := Closed];
      if c.id !in rows || !rows[c.id].status.Processing? || rows[c.id].lockedBy != Some(c.token) {
        return Aborted;
      }
      var row := rows[c.id];
      rows := rows[c.id := row.(status := Published, publishedAt := Some(now), lockedAt := None, lockedBy := None)];
      return OK;
    }

    method MarkFailed(c: Claim) returns (code: Code)
      requires c in claims && claims[c].Unsent?
      modifies this`rows, this`claims
      ensures View() == Step(old(View()), Fail(c))
      ensures code == if HeldBy(old(View()), c) then OK else Aborted
    {
      claims := claims[c := Closed];
      var status := Failed;
      if cfg.maxAttempts <= c.attempts {
        status := Dead;
      }
      if c.id !in rows || !rows[c.id].status.Processing? || rows[c.id].lockedBy != Some(c.token) {
        return Aborted;
      }
      var row := rows[c.id];
      rows := rows[c.id := row.(status := status, nextAttemptAt := now + RetryBackoff(cfg),
                                lockedAt := None, lockedBy := None)];
      return OK;
    }

    /** Produces one claimed event and records the outcome. Nothing here asks whether the claim
        still holds before producing; only the recording does. */
    method PublishEvent(c: Claim, outcome: Outcome) returns (code: Code)
      requires c in claims && claims[c].Held?
      modifies this`rows, this`claims, this`log
      ensures View() == PublishedOne(old(View()), c, outcome)
      ensures code == if HeldBy(old(View()), c) then OK else Aborted
    {
      claims := claims[c := if outcome.acked then Sent else Unsent];
      if outcome.acked || outcome.written {
        log := log + [c.id];
      }
      if outcome.acked {
        code := MarkPublished(c);
      } else {
        code := MarkFailed(c);
      }
    }

    /** Lets other relays and transactions run. */
    method Yield(ops: seq<Op>)
      modifies this
      ensures View() == After(old(View()), ops)
    {
      AfterKeepsConfig(View(), ops);
      var s := After(View(), ops);
      now, nextToken, origins, rows, claims, log := s.now, s.nextToken, s.origins, s.rows, s.claims, s.log;
    }

    /** Claims a batch and publishes it event by event, while others run in between, until one
        event is found to be no longer held. */
    method PublishTopic(topic: string, locked: set<EventId>, outcome: EventId -> Outcome, others: EventId -> seq<Op>)
      returns (count: nat, code: Code)
      requires forall a :: Foreign(others(a), nextToken)
      modifies this
      ensures var s := old(View());
              && count == |Picked(s, topic, locked)|
              && (View(), code) == Publishing(ClaimTopic(s, topic, locked), Claims(s, Picked(s, topic, locked)),
                                              outcome, others)
    {
      hide Picked, PublishedOne;
      ghost var token := nextToken;
      ClaimsAreHeld(View(), topic, locked);
      var events := ClaimBatch(topic, locked);
      ghost var claimed := View();
      count := |events|;
      for i := 0 to |events|
        invariant Publishing(claimed, events, outcome, others) == Publishing(View(), events[i..], outcome, others)
        invariant forall k :: i <= k < |events| ==> IsHeld(View(), events[k], token)
      {
        var e := events[i];
        assert events[i..][0] == e && events[i..][1..] == events[i + 1..];
        forall k | i <= k < |events| ensures IsHeld(After(View(), others(e.id)), events[k], token) {
          ForeignKeepHeld(View(), others(e.id), events[k], token);
        }
        Yield(others(e.id));
        forall k | i < k < |events| ensures IsHeld(PublishedOne(View(), e, outcome(e.id)), events[k], token) {
          OthersStayHeld(View(), e, outcome(e.id), events[k], token);
        }
        code := PublishEvent(e, outcome(e.id));
        if code != OK {
          return;
        }
      }
      code := OK;
    }

    method OldestPublished(candidates: set<EventId>) returns (oldest: EventId)
      requires candidates != {} && forall a :: a in candidates ==> a in rows && rows[a].publishedAt.Some?
      ensures oldest in candidates
      ensures forall a :: a in candidates ==> NoLater(rows, oldest, a)
    {
      oldest :| oldest in candidates;
      var rest := candidates - {oldest};
      while rest != {}
        invariant rest <= candidates && oldest in candidates
        invariant forall a :: a in candidates && a !in rest ==> NoLater(rows, oldest, a)
        decreases rest
      {
        var a :| a in rest;
        rest := rest - {a};
        if rows[a].publishedAt.value < rows[oldest].publishedAt.value {
          oldest := a;
        }
      }
    }

    /** Deletes at most a batch of the rows published longest ago. */
    method CleanupPublishedEvents(retention: Time, batchSize: int) returns (deleted: set<EventId>)
      modifies this`rows
      ensures View() == Step(old(View()), CleanupEvents(retention, deleted))
      ensures forall a :: a in deleted ==> Cleanable(old(View()), a, retention)
      ensures batchSize <= 0 || retention <= 0 ==> deleted == {}
      ensures 0 < batchSize ==> |deleted| <= batchSize
      ensures 0 < retention && |deleted| < batchSize ==> forall a :: Cleanable(old(View()), a, retention) ==> a in deleted
      ensures forall a, b :: a in deleted && b !in deleted && Cleanable(old(View()), b, retention) ==>
                NoLater(old(rows), a, b)
    {
      ghost var s := View();
      deleted := {};
      if retention <= 0 || batchSize <= 0 {
        assert rows == map a | a in rows && a !in deleted :: rows[a];
        return;
      }
      var expired := set a | a in rows && rows[a].status.Published? && rows[a].publishedAt.Some?
                             && rows[a].publishedAt.value < now - retention;
      while expired != {} && |deleted| < batchSize
        invariant rows == s.rows && |deleted| <= batchSize && deleted !! expired
        invariant forall a :: Cleanable(s, a, retention) <==> a in deleted || a in expired
        invariant forall a, b :: a in deleted && b in expired ==> NoLater(s.rows, a, b)
        decreases expired
      {
        var a := OldestPublished(expired);
        expired := expired - {a};
        deleted := deleted + {a};
      }
      rows := map a | a in rows && a !in deleted :: rows[a];
    }
  }

  // ---------------------------------------------------------------- the specification

  function Claims(s: Outbox, picked: seq<EventId>): (claims: seq<Claim>)
    requires forall a :: a in picked ==> a in s.rows
    ensures |claims| == |picked| && forall i :: 0 <= i < |picked| ==> claims[i] == T.ClaimOf(s, picked[i])
  {
    seq(|picked|, i requires 0 <= i < |picked| => T.ClaimOf(s, picked[i]))
  }

  function PublishedOne(s: Outbox, c: Claim, outcome: Outcome): (r: Outbox) {
    var produced := T.Produce(s, c, outcome.acked, outcome.written);
    if outcome.acked then T.MarkPublished(produced, c) else T.MarkFailed(produced, c)
  }

  /** Publishing a claimed batch, others running before each event. */
  function Publishing(s: Outbox, events: seq<Claim>, outcome: EventId -> Outcome, others: EventId -> seq<Op>)
    : (r: (Outbox, Code))
    decreases |events|
  {
    if events == [] then (s, OK)
    else
      var e := events[0];
      var t := After(s, others(e.id));
      var published := PublishedOne(t, e, outcome(e.id));
      if HeldBy(t, e) then Publishing(published, events[1..], outcome, others) else (published, Aborted)
  }

  predicate NoLater(rows: map<EventId, Row>, a: EventId, b: EventId) {
    && a in rows && b in rows && rows[a].publishedAt.Some? && rows[b].publishedAt.Some?
    && rows[a].publishedAt.value <= rows[b].publishedAt.value
  }

  /** A claim under this token that its relay has not produced yet. */
  predicate IsHeld(s: Outbox, c: Claim, token: Token) {
    c in s.claims && s.claims[c].Held? && c.token == token
  }

  /** Steps of others: none acts on a claim under this token. */
  predicate Foreign(ops: seq<Op>, token: Token) {
    forall k :: 0 <= k < |ops| ==>
      match ops[k]
      case ProduceEvent(c, _, _) => c.token != token
      case Publish(c) => c.token != token
      case Fail(c) => c.token != token
      case _ => true
  }

  lemma ClaimsAreHeld(s: Outbox, topic: string, locked: set<EventId>)
    ensures forall c :: c in Claims(s, Picked(s, topic, locked)) ==> IsHeld(ClaimTopic(s, topic, locked), c, s.nextToken)
  {
    hide Picked, TakeRows;
    var picked := Picked(s, topic, locked);
    forall c | c in Claims(s, picked) ensures IsHeld(ClaimTopic(s, topic, locked), c, s.nextToken) {
      O.TakeRowsClaims(s, picked, c);
    }
  }

  lemma OthersStayHeld(s: Outbox, c: Claim, outcome: Outcome, other: Claim, token: Token)
    requires IsHeld(s, other, token) && other != c
    ensures IsHeld(PublishedOne(s, c, outcome), other, token)
  {
  }

  lemma ForeignStepKeepsHeld(s: Outbox, op: Op, c: Claim, token: Token)
    requires IsHeld(s, c, token) && Foreign([op], token)
    ensures IsHeld(Step(s, op), c, token)
  {
    hide Picked, TakeRows;
    assert op == [op][0];
    if op.ClaimEvents? {
      O.TakeRowsClaims(s, Picked(s, op.topic, op.locked), c);
    }
  }

  lemma {:induction false} ForeignKeepHeld(s: Outbox, ops: seq<Op>, c: Claim, token: Token)
    requires IsHeld(s, c, token) && Foreign(ops, token)
    ensures IsHeld(After(s, ops), c, token)
    decreases |ops|
  {
    if ops != [] {
      ForeignKeepHeld(s, ops[..|ops| - 1], c, token);
      ForeignStepKeepsHeld(After(s, ops[..|ops| - 1]), ops[|ops| - 1], c, token);
    }
  }

  lemma {:induction false} AfterKeepsConfig(s: Outbox, ops: seq<Op>)
    ensures After(s, ops).cfg == s.cfg
    decreases |ops|
  {
    hide Picked;
    if ops != [] {
      AfterKeepsConfig(s, ops[..|ops| - 1]);
    }
  }
}
