/**
 Which rows a relay claims, exactly, and that a lane without a dead event can always be drained,
 after failures and abandoned claims alike.
 */
module OutboxProgress {
  import opened Prelude
  import opened OutboxTables
  import opened OutboxOrder

  // ---------------------------------------------------------------- what a claim takes

  /** Every earlier event of the lane is published, or its row has been cleaned up. */
  predicate Heads(s: Outbox, a: EventId) {
    && a in s.rows && a in s.origins
    && (forall b :: b in s.rows && b in s.origins && s.rows[b].status != Published
                    && s.origins[b].topic == s.origins[a].topic && s.origins[b].kafkaKey == s.origins[a].kafkaKey ==>
                      s.origins[a].createdAt < s.origins[b].createdAt
                      || (s.origins[a].createdAt == s.origins[b].createdAt && a <= b))
  }

  /** A row that waits for its next attempt has reached it; a claimed one was abandoned for as long
      as the processing lease lasts, in whole milliseconds, thirty seconds by default. */
  predicate Ready(s: Outbox, a: EventId)
    requires a in s.rows
  {
    match s.rows[a].status
    case Pending => s.rows[a].nextAttemptAt <= s.now
    case Failed => s.rows[a].nextAttemptAt <= s.now
    case Processing => s.rows[a].lockedAt.Some? && s.rows[a].lockedAt.value + Lease(s.cfg) <= s.now
    case Dead => false
    case Published => false
  }

  function Lease(cfg: Config): (r: Time) {
    if cfg.processingLease <= 0 then 30_000 * MILLISECOND else cfg.processingLease - cfg.processingLease % MILLISECOND
  }

  predicate Waiting(s: Outbox, topic: string, locked: set<EventId>, a: EventId) {
    Heads(s, a) && s.origins[a].topic == topic && a !in locked && Ready(s, a)
  }

  /** The rows that a claim comes to before this one. */
  function Ahead(s: Outbox, topic: string, locked: set<EventId>, a: EventId): (r: set<EventId>)
    requires a in s.origins
  {
    set b | b in s.rows && b in s.origins && Waiting(s, topic, locked, b) && Before(b, s.origins[b], a, s.origins[a])
  }

  function Preceding(origins: map<EventId, Origin>, candidates: set<EventId>, a: EventId): (r: set<EventId>)
    requires a in origins && candidates <= origins.Keys
  {
    set b | b in candidates && Before(b, origins[b], a, origins[a])
  }

  predicate Takes(origins: map<EventId, Origin>, candidates: set<EventId>, limit: nat, a: EventId)
    requires candidates <= origins.Keys
  {
    a in TakeFirst(origins, candidates, limit)
  }

  lemma {:induction false} TakesFirstExactly(origins: map<EventId, Origin>, candidates: set<EventId>, limit: nat, a: EventId)
    requires candidates <= origins.Keys && a in origins
    ensures Takes(origins, candidates, limit, a) <==>
              a in candidates && |Preceding(origins, candidates, a)| < limit
    decreases limit
  {
    hide Before, FirstOf, TakeFirst, Preceding, Takes;
    if limit == 0 || candidates == {} {
      TakesNone(origins, candidates, limit, a);
    } else {
      var first := TakesFirst(origins, candidates, limit);
      TakesFirstExactly(origins, candidates - {first}, limit - 1, a);
      FirstPrecedes(origins, candidates, first, a);
    }
  }

  lemma FirstPrecedes(origins: map<EventId, Origin>, candidates: set<EventId>, first: EventId, a: EventId)
    requires candidates <= origins.Keys && a in origins && FirstOf(origins, candidates, first)
    ensures a == first ==> Preceding(origins, candidates, a) == {}
    ensures a in candidates && a != first ==>
              |Preceding(origins, candidates, a)| == |Preceding(origins, candidates - {first}, a)| + 1
  {
    if a in candidates && a != first {
      assert Preceding(origins, candidates, a) == Preceding(origins, candidates - {first}, a) + {first};
    }
  }

  lemma TakesNone(origins: map<EventId, Origin>, candidates: set<EventId>, limit: nat, a: EventId)
    requires candidates <= origins.Keys && (limit == 0 || candidates == {})
    ensures !Takes(origins, candidates, limit, a)
  {
  }

  lemma TakesFirst(origins: map<EventId, Origin>, candidates: set<EventId>, limit: nat) returns (first: EventId)
    requires candidates <= origins.Keys && limit != 0 && candidates != {}
    ensures first in candidates && FirstOf(origins, candidates, first)
    ensures forall a :: Takes(origins, candidates, limit, a) <==>
                          a == first || Takes(origins, candidates - {first}, limit - 1, a)
  {
    hide Before;
    SomeEventIsFirst(origins, candidates);
    first := TakeFirst(origins, candidates, limit)[0];
  }

  /** A claim takes exactly the unlocked rows at the head of their lanes that are ready and have
      fewer than a batch of such rows before them. It takes each over under its one new token, as
      its next attempt, and changes no other row. */
  lemma ClaimsExactly(s: Outbox, topic: string, locked: set<EventId>, a: EventId)
    requires a in s.rows && a in s.origins
    ensures var r := Step(s, ClaimEvents(topic, locked));
            && a in r.rows
            && if Waiting(s, topic, locked, a) && |Ahead(s, topic, locked, a)| < s.cfg.batchSize then
                 r.rows[a] == s.rows[a].(status := Processing, lockedAt := Some(s.now), lockedBy := Some(s.nextToken),
                                         attempts := s.rows[a].attempts + 1)
                 && Claim(a, s.nextToken, s.rows[a].attempts + 1) in r.claims
               else r.rows[a] == s.rows[a]
  {
    hide Claimable, Waiting, TakeRows, Before, ClaimedRow;
    var limit := if s.cfg.batchSize <= 0 then 0 else s.cfg.batchSize;
    var candidates := set b | b in s.rows && Claimable(s, topic, b) && b !in locked;
    forall b | b in s.rows && b in s.origins
      ensures b in candidates <==> Waiting(s, topic, locked, b)
    {
      ClaimableIs(s, topic, b, locked);
    }
    ClaimableHasOrigin(s, topic);
    assert Ahead(s, topic, locked, a) == Preceding(s.origins, candidates, a);
    TakesFirstExactly(s.origins, candidates, limit, a);
    PickedIs(s, topic, locked, candidates, limit);
    Taken(s, topic, locked, a);
  }

  lemma PickedIs(s: Outbox, topic: string, locked: set<EventId>, candidates: set<EventId>, limit: nat)
    requires candidates == set b | b in s.rows && Claimable(s, topic, b) && b !in locked
    requires limit == if s.cfg.batchSize <= 0 then 0 else s.cfg.batchSize
    ensures candidates <= s.origins.Keys && Picked(s, topic, locked) == TakeFirst(s.origins, candidates, limit)
  {
    hide TakeFirst;
  }

  lemma Taken(s: Outbox, topic: string, locked: set<EventId>, a: EventId)
    requires a in s.rows
    ensures var r := Step(s, ClaimEvents(topic, locked));
            && a in r.rows
            && if a in Picked(s, topic, locked) then
                 r.rows[a] == s.rows[a].(status := Processing, lockedAt := Some(s.now), lockedBy := Some(s.nextToken),
                                         attempts := s.rows[a].attempts + 1)
                 && Claim(a, s.nextToken, s.rows[a].attempts + 1) in r.claims
               else r.rows[a] == s.rows[a]
  {
    hide Picked, Claimable, TakeRows;
    ClaimTakes(s, topic, locked);
    var r := ClaimTopic(s, topic, locked);
    assert ClaimOf(s, a) == Claim(a, s.nextToken, s.rows[a].attempts + 1);
    assert a in Picked(s, topic, locked) ==> ClaimOf(s, a) in r.claims;
  }

  lemma ClaimableHasOrigin(s: Outbox, topic: string)
    ensures forall b :: Claimable(s, topic, b) ==> b in s.origins
  {
  }

  lemma ClaimableIs(s: Outbox, topic: string, a: EventId, locked: set<EventId>)
    requires a in s.rows && a in s.origins
    ensures Claimable(s, topic, a) && a !in locked <==> Waiting(s, topic, locked, a)
  {
    LeaseIs(s.cfg);
    hide ProcessingLease, Lease;
  }

  lemma LeaseIs(cfg: Config)
    ensures ProcessingLease(cfg) == Lease(cfg)
  {
  }

  // ---------------------------------------------------------------- a lane goes on

  /** How long until the row is ready. */
  function Until(s: Outbox, a: EventId): (wait: nat)
    requires a in s.rows
  {
    var at := if s.rows[a].status.Processing? && s.rows[a].lockedAt.Some? then s.rows[a].lockedAt.value + Lease(s.cfg)
              else s.rows[a].nextAttemptAt;
    if s.now < at then at - s.now else 0
  }

  predicate Lives(s: Outbox, a: EventId) {
    a in s.rows && !s.rows[a].status.Dead? && !s.rows[a].status.Published?
  }

  /** The head of a lane, unless it is dead, is claimed once it is ready, by exactly the claims that have
      room for it: when it failed, after its backoff, and when its claim was abandoned, after the
      lease. */
  lemma HeadIsClaimed(s: Outbox, a: EventId, wait: nat, locked: set<EventId>)
    requires Sound(s) && Lives(s, a) && Heads(s, a) && a !in locked
    ensures var later, topic := Step(s, Tick(wait)), s.origins[a].topic;
            var r := Step(later, ClaimEvents(topic, locked));
            if Until(s, a) <= wait && |Ahead(later, topic, locked, a)| < s.cfg.batchSize then
              r.rows[a] == s.rows[a].(status := Processing, lockedAt := Some(later.now),
                                      lockedBy := Some(s.nextToken), attempts := s.rows[a].attempts + 1)
              && Claim(a, s.nextToken, s.rows[a].attempts + 1) in r.claims
            else r.rows[a] == s.rows[a]
  {
    hide Step, Lease, Heads;
    assert RowSound(s, a);
    var later := s.(now := s.now + wait);
    TickIs(s, wait);
    LaterHeads(s, wait, a);
    ClaimsExactly(later, s.origins[a].topic, locked, a);
  }

  lemma TickIs(s: Outbox, wait: nat)
    ensures Step(s, Tick(wait)) == s.(now := s.now + wait)
  {
  }

  lemma LaterHeads(s: Outbox, wait: nat, a: EventId)
    ensures Heads(s.(now := s.now + wait), a) <==> Heads(s, a)
  {
  }

  /** Wait, claim, produce and record. */
  function Rounds(s: Outbox, a: EventId): (ops: seq<Op>)
    requires a in s.rows && a in s.origins
  {
    var c := Claim(a, s.nextToken, s.rows[a].attempts + 1);
    [Tick(Until(s, a)), ClaimEvents(s.origins[a].topic, s.rows.Keys - {a}), ProduceEvent(c, true, true), Publish(c)]
  }

  lemma {:induction false} AfterJoins(s: Outbox, ops: seq<Op>, more: seq<Op>)
    ensures After(s, ops + more) == After(After(s, ops), more)
    decreases |more|
  {
    hide Step;
    if more == [] {
      assert ops + more == ops;
    } else {
      AfterJoins(s, ops, more[..|more| - 1]);
      assert (ops + more)[..|ops + more| - 1] == ops + more[..|more| - 1];
    }
  }

  lemma AfterFour(s: Outbox, a: Op, b: Op, c: Op, d: Op)
    ensures After(s, [a, b, c, d]) == Step(Step(Step(Step(s, a), b), c), d)
  {
    hide Step;
    assert [a][..0] == [] && After(s, [a]) == Step(s, a);
    assert [a, b][..1] == [a] && After(s, [a, b]) == Step(Step(s, a), b);
    assert [a, b, c][..2] == [a, b] && After(s, [a, b, c]) == Step(Step(Step(s, a), b), c);
    assert [a, b, c, d][..3] == [a, b, c];
  }

  /** While others hold the rest, the head is published by one round, and nothing else changes. */
  lemma HeadIsPublished(s: Outbox, a: EventId)
    requires Sound(s) && Lives(s, a) && Heads(s, a) && 0 < s.cfg.batchSize
    ensures a in s.origins
    ensures var r := After(s, Rounds(s, a));
            && r.cfg == s.cfg && r.origins == s.origins && r.rows.Keys == s.rows.Keys
            && r.rows[a].status.Published? && (forall b :: b in s.rows && b != a ==> r.rows[b] == s.rows[b])
            && a in r.log
  {
    hide Sound, Heads, Until, Step, After, Ahead, SameLane, Before;
    HeadHasOrigin(s, a);
    var wait, topic, locked := Until(s, a), s.origins[a].topic, s.rows.Keys - {a};
    var c := Claim(a, s.nextToken, s.rows[a].attempts + 1);
    TickIs(s, wait);
    StepSound(s, Tick(wait));
    var later := Step(s, Tick(wait));
    var claimed := Step(later, ClaimEvents(topic, locked));
    NoneAhead(later, topic, a);
    HeadIsClaimed(s, a, wait, locked);
    ClaimsOnly(later, topic, a, c);
    AfterFour(s, Tick(wait), ClaimEvents(topic, locked), ProduceEvent(c, true, true), Publish(c));
    PublishesHeld(claimed, c);
  }

  lemma HeadHasOrigin(s: Outbox, a: EventId)
    requires Heads(s, a)
    ensures a in s.rows && a in s.origins
  {
  }

  lemma NoneAhead(s: Outbox, topic: string, a: EventId)
    requires a in s.origins
    ensures Ahead(s, topic, s.rows.Keys - {a}, a) == {}
  {
    hide Heads, Ready;
  }

  /** A claim that finds all rows but one locked leaves them as they are. */
  lemma ClaimsOnly(s: Outbox, topic: string, a: EventId, c: Claim)
    requires a in s.rows
    ensures var r := Step(s, ClaimEvents(topic, s.rows.Keys - {a}));
            && r == s.(rows := r.rows, claims := r.claims, nextToken := r.nextToken) && r.rows.Keys == s.rows.Keys
            && (forall b :: b in s.rows && b != a ==> r.rows[b] == s.rows[b])
            && (c.token == s.nextToken && c in r.claims && Sound(s) ==> r.claims[c].Held?)
  {
    hide Picked, Claimable, TakeRows;
    ClaimTakes(s, topic, s.rows.Keys - {a});
  }

  lemma PublishesHeld(s: Outbox, c: Claim)
    requires c in s.claims && s.claims[c].Held? && HeldBy(s, c)
    ensures var r := Step(Step(s, ProduceEvent(c, true, true)), Publish(c));
            && r.cfg == s.cfg && r.origins == s.origins && r.rows.Keys == s.rows.Keys
            && r.rows[c.id].status.Published? && (forall b :: b in s.rows && b != c.id ==> r.rows[b] == s.rows[b])
            && c.id in r.log
  {
  }

  /** The unpublished events that come before this one in its lane. */
  function Behind(s: Outbox, a: EventId): (r: set<EventId>) {
    set b | b in s.rows && Earlier(s.origins, b, a) && !s.rows[b].status.Published?
  }

  /** No event of the lane up to this one is dead. */
  predicate Clear(s: Outbox, a: EventId) {
    a in s.rows && a in s.origins && !s.rows[a].status.Dead?
    && forall b :: b in s.rows && Earlier(s.origins, b, a) ==> !s.rows[b].status.Dead?
  }

  lemma FirstBehindHeads(s: Outbox, a: EventId, b: EventId)
    requires Clear(s, a) && FirstOf(s.origins, Behind(s, a), b)
    ensures Heads(s, b) && Lives(s, b)
  {
    forall c | c in s.rows && Earlier(s.origins, c, b) ensures s.rows[c].status.Published? {
      assert Earlier(s.origins, c, a);
      assert c in Behind(s, a) ==> c != b;
    }
  }

  lemma PublishedIsBehindNoMore(s: Outbox, r: Outbox, a: EventId, b: EventId)
    requires Clear(s, a) && b in Behind(s, a) && r.origins == s.origins && r.rows.Keys == s.rows.Keys
    requires r.rows[b].status.Published? && forall c :: c in s.rows && c != b ==> r.rows[c] == s.rows[c]
    ensures Clear(r, a) && Behind(r, a) == Behind(s, a) - {b} && r.rows[a] == s.rows[a]
  {
    assert b != a;
  }

  /** A lane without a dead event can be drained from every reachable state, whatever failed and
      was abandoned before: some run publishes the event, and produces it if it was not. */
  lemma {:induction false} LaneDrains(s: Outbox, a: EventId) returns (ops: seq<Op>)
    requires Sound(s) && Clear(s, a) && 0 < s.cfg.batchSize
    ensures a in After(s, ops).rows && After(s, ops).rows[a].status.Published? && a in After(s, ops).log
    decreases |Behind(s, a)|
  {
    hide Sound, Clear, Behind, Heads, Rounds, Step, Earlier;
    ClearHasOrigin(s, a);
    if s.rows[a].status.Published? {
      ops := [];
      PublishedIsLogged(s, a);
    } else if Behind(s, a) == {} {
      NoneBehindHeads(s, a);
      HeadIsPublished(s, a);
      ops := Rounds(s, a);
    } else {
      SomeEventIsFirst(s.origins, Behind(s, a));
      var b :| FirstOf(s.origins, Behind(s, a), b);
      FirstBehindHeads(s, a, b);
      HeadIsPublished(s, b);
      RunSound(s, Rounds(s, b));
      PublishedIsBehindNoMore(s, After(s, Rounds(s, b)), a, b);
      var rest := LaneDrains(After(s, Rounds(s, b)), a);
      ops := Rounds(s, b) + rest;
      AfterJoins(s, Rounds(s, b), rest);
    }
  }

  lemma ClearHasOrigin(s: Outbox, a: EventId)
    requires Clear(s, a)
    ensures a in s.rows && a in s.origins && Behind(s, a) <= s.origins.Keys
  {
  }

  lemma PublishedIsLogged(s: Outbox, a: EventId)
    requires Sound(s) && Clear(s, a) && s.rows[a].status.Published?
    ensures a in s.log && After(s, []) == s
  {
  }

  lemma NoneBehindHeads(s: Outbox, a: EventId)
    requires Clear(s, a) && Behind(s, a) == {} && !s.rows[a].status.Published?
    ensures Heads(s, a) && Lives(s, a)
  {
    assert forall b :: b in s.rows && Earlier(s.origins, b, a) && !s.rows[b].status.Published? ==> b in Behind(s, a);
  }

  // ---------------------------------------------------------------- outcomes

  /** Five seconds by default, in whole milliseconds. */
  function Backoff(cfg: Config): (r: Time) {
    if cfg.retryBackoff <= 0 then 5_000 * MILLISECOND else cfg.retryBackoff - cfg.retryBackoff % MILLISECOND
  }

  /** The row is still claimed, and by this claim. */
  predicate Keeps(s: Outbox, c: Claim) {
    c.id in s.rows && s.rows[c.id].status == Processing && s.rows[c.id].lockedBy == Some(c.token)
  }

  /** Recording a failure under a claim that still holds its row makes the row wait for its backoff
      before its next attempt, and dead when this was the last; recording a success publishes it now.
      Both release the row. Under a claim that lost its row neither changes any. */
  lemma OutcomesExactly(s: Outbox, c: Claim)
    requires c in s.claims
    ensures s.claims[c].Unsent? ==>
              Step(s, Fail(c)) == s.(claims := s.claims[c := Closed], rows := if !Keeps(s, c) then s.rows
                else s.rows[c.id := s.rows[c.id].(
                  status := if c.attempts < s.cfg.maxAttempts then Failed else Dead,
                  nextAttemptAt := s.now + Backoff(s.cfg), lockedAt := None, lockedBy := None)])
    ensures s.claims[c].Sent? ==>
              Step(s, Publish(c)) == s.(claims := s.claims[c := Closed], rows := if !Keeps(s, c) then s.rows
                else s.rows[c.id := s.rows[c.id].(
                  status := Published, publishedAt := Some(s.now), lockedAt := None, lockedBy := None)])
    ensures s.claims[c] != Unsent ==> Step(s, Fail(c)) == s
    ensures s.claims[c] != Sent ==> Step(s, Publish(c)) == s
  {
    BackoffIs(s.cfg);
    hide RetryBackoff, Backoff;
  }

  /** An event is inserted exactly when its identifier is new and no row has its topic and key; it waits, and
      may be claimed at once. */
  lemma InsertsExactly(s: Outbox, a: EventId, o: Origin)
    requires Sound(s)
    ensures var r := Step(s, InsertEvent(a, o));
            if a !in s.origins
               && forall b :: b in s.rows ==> b in s.origins && (s.origins[b].topic != o.topic || s.origins[b].eventKey != o.eventKey)
            then r == s.(origins := s.origins[a := o], rows := s.rows[a := Row(Pending, s.now, None, None, 0, None)])
            else r == s
  {
    assert forall b :: b in s.rows ==> RowSound(s, b);
    hide RowSound;
    RowsHaveOrigins(s);
    hide Sound;
  }

  lemma RowsHaveOrigins(s: Outbox)
    requires Sound(s)
    ensures forall b :: b in s.rows ==> b in s.origins
  {
  }

  /** Clean-up removes exactly chosen rows that were published longer ago than the retention. */
  lemma CleansExactly(s: Outbox, retention: Time, chosen: set<EventId>)
    ensures var r := Step(s, CleanupEvents(retention, chosen));
            && r == s.(rows := r.rows)
            && forall a ::
                 && (a in r.rows <==>
                       a in s.rows
                       && !(0 < retention && a in chosen && s.rows[a].status == Published && s.rows[a].publishedAt.Some?
                            && s.rows[a].publishedAt.value + retention < s.now))
                 && (a in r.rows ==> r.rows[a] == s.rows[a])
  {
  }

  /** A produce that was acknowledged has written its event, and one that was not may have: the log gets
      it exactly then. */
  lemma ProducesExactly(s: Outbox, c: Claim, acked: bool, written: bool)
    requires c in s.claims
    ensures Step(s, ProduceEvent(c, acked, written))
         == if s.claims[c] != Held then s
            else s.(claims := s.claims[c := if acked then Sent else Unsent],
                    log := s.log + if !acked && !written then [] else [c.id])
  {
    assert s.log + [] == s.log;
  }

  lemma BackoffIs(cfg: Config)
    ensures RetryBackoff(cfg) == Backoff(cfg)
  {
  }

  /** A row that failed, but not for the last time, is claimed again exactly from the end of its
      backoff on, while it heads its lane. */
  lemma FailureIsRetried(s: Outbox, c: Claim, wait: nat, locked: set<EventId>)
    requires Sound(s) && c in s.claims && s.claims[c].Unsent? && c.id in s.rows && c.id !in locked
    requires Keeps(s, c) && c.attempts < s.cfg.maxAttempts && Heads(s, c.id)
    ensures var later := Step(Step(s, Fail(c)), Tick(wait));
            var r, topic := Step(later, ClaimEvents(s.origins[c.id].topic, locked)), s.origins[c.id].topic;
            if Backoff(s.cfg) <= wait && |Ahead(later, topic, locked, c.id)| < s.cfg.batchSize then
              r.rows[c.id].status.Processing? && r.rows[c.id].attempts == s.rows[c.id].attempts + 1
            else r.rows[c.id].status.Failed? && r.rows[c.id].attempts == s.rows[c.id].attempts
  {
    hide Step, Ahead, Backoff, Sound;
    OutcomesExactly(s, c);
    StepSound(s, Fail(c));
    var failed := Step(s, Fail(c));
    HeadStays(s, failed, c.id);
    hide Heads;
    HeadIsClaimed(failed, c.id, wait, locked);
    TickIs(failed, wait);
  }

  lemma HeadStays(s: Outbox, r: Outbox, a: EventId)
    requires Heads(s, a) && r.origins == s.origins && r.rows.Keys == s.rows.Keys
    requires forall b :: b in s.rows && b != a ==> r.rows[b] == s.rows[b]
    ensures Heads(r, a)
  {
  }
}
