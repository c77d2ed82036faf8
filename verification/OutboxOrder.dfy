/**
 What the outbox guarantees: nothing is published unproduced and a dead event is final, in every
 run; the shape of a lane and the order of first publications, exactly when no row comes too
 late.
 */
module OutboxOrder {
  import opened Prelude
  import opened OutboxTables

  // ---------------------------------------------------------------- the invariant

  predicate Untouched(row: Row) {
    row.status.Pending? && row.attempts == 0 && row.lockedBy.None?
  }

  ghost predicate Claimed(s: Outbox, a: EventId) {
    exists c :: c in s.claims && c.id == a
  }

  ghost predicate RowSound(s: Outbox, a: EventId)
    requires a in s.rows
  {
    var row := s.rows[a];
    && a in s.origins
    && (row.status.Processing? <==> row.lockedBy.Some?) && (row.status.Processing? <==> row.lockedAt.Some?)
    && (row.lockedBy.Some? ==> Claim(a, row.lockedBy.value, row.attempts) in s.claims)
    && (row.status.Pending? <==> row.attempts == 0)
    && (0 < row.attempts ==> Claimed(s, a))
    && (row.status.Failed? ==> row.attempts < s.cfg.maxAttempts)
    && (row.status.Dead? ==> s.cfg.maxAttempts <= row.attempts)
  }

  ghost predicate RowsSound(s: Outbox) {
    forall a :: a in s.rows ==> RowSound(s, a)
  }

  /** Tokens are never drawn twice, so a claim's token and row determine its attempt. */
  ghost predicate ClaimsSound(s: Outbox) {
    forall c :: c in s.claims ==>
      && c.token < s.nextToken && c.id in s.origins && 1 <= c.attempts
      && (c.id in s.rows ==> c.attempts <= s.rows[c.id].attempts)
      && (HeldBy(s, c) ==> c.attempts == s.rows[c.id].attempts)
      && (s.claims[c].Sent? ==> c.id in s.log)
  }

  /** What is published was produced, even when its row is gone. */
  ghost predicate PublishedWasProduced(s: Outbox) {
    forall a :: a in s.origins && (a in s.rows ==> s.rows[a].status.Published?) ==> a in s.log
  }

  ghost predicate LogClaimed(s: Outbox) {
    forall a :: a in s.log ==> a in s.origins && Claimed(s, a)
  }

  ghost predicate Sound(s: Outbox) {
    RowsSound(s) && ClaimsSound(s) && PublishedWasProduced(s) && LogClaimed(s)
  }

  // ---------------------------------------------------------------- claiming

  lemma TakeRowsRow(s: Outbox, picked: seq<EventId>, a: EventId)
    requires (forall b :: b in picked ==> b in s.rows) && a in s.rows
    requires forall i, k :: 0 <= i < k < |picked| ==> picked[i] != picked[k]
    ensures TakeRows(s, picked).rows[a] == if a in picked then ClaimedRow(s, s.rows[a]) else s.rows[a]
    decreases |picked|
  {
    if picked != [] {
      TakeRowsRow(s, picked[..|picked| - 1], a);
      TakeRowsRow(s, picked[..|picked| - 1], picked[|picked| - 1]);
    }
  }

  lemma TakeRowsClaims(s: Outbox, picked: seq<EventId>, c: Claim)
    requires forall b :: b in picked ==> b in s.rows
    requires forall i, k :: 0 <= i < k < |picked| ==> picked[i] != picked[k]
    ensures var r := TakeRows(s, picked);
            && (c in r.claims <==> c in s.claims || (c.id in picked && c == ClaimOf(s, c.id)))
            && (c in r.claims ==>
                  r.claims[c] == if c.id in picked && c == ClaimOf(s, c.id) then Held else s.claims[c])
    decreases |picked|
  {
    if picked != [] {
      var last := picked[|picked| - 1];
      TakeRowsClaims(s, picked[..|picked| - 1], c);
      TakeRowsRow(s, picked[..|picked| - 1], last);
    }
  }

  /** The effect of a claim on rows and claims, whatever was picked. */
  ghost predicate Took(s: Outbox, r: Outbox, picked: seq<EventId>) {
    && (forall a :: a in picked ==> a in s.rows && a in s.origins && Claimable(s, s.origins[a].topic, a))
    && r == s.(rows := r.rows, claims := r.claims, nextToken := s.nextToken + 1) && r.rows.Keys == s.rows.Keys
    && (forall a :: a in s.rows ==> r.rows[a] == if a in picked then ClaimedRow(s, s.rows[a]) else s.rows[a])
    && (forall c :: c in r.claims <==> c in s.claims || (c.id in picked && c == ClaimOf(s, c.id)))
    && (forall c :: c in r.claims ==>
          r.claims[c] == if c.id in picked && c == ClaimOf(s, c.id) then Held else s.claims[c])
  }

  lemma ClaimTakes(s: Outbox, topic: string, locked: set<EventId>)
    ensures Took(s, ClaimTopic(s, topic, locked), Picked(s, topic, locked))
  {
    hide TakeRows, Picked, Claimable;
    var picked, r := Picked(s, topic, locked), ClaimTopic(s, topic, locked);
    PickedIsClaimable(s, topic, locked);
    forall a | a in s.rows
      ensures r.rows[a] == if a in picked then ClaimedRow(s, s.rows[a]) else s.rows[a]
    {
      TakeRowsRow(s, picked, a);
    }
    forall c: Claim
      ensures c in r.claims <==> c in s.claims || (c.id in picked && c == ClaimOf(s, c.id))
      ensures c in r.claims ==> r.claims[c] == if c.id in picked && c == ClaimOf(s, c.id) then Held else s.claims[c]
    {
      TakeRowsClaims(s, picked, c);
    }
  }

  lemma PickedIsClaimable(s: Outbox, topic: string, locked: set<EventId>)
    ensures forall a :: a in Picked(s, topic, locked) ==>
              a in s.rows && a in s.origins && s.origins[a].topic == topic && Claimable(s, topic, a)
  {
  }

  lemma TookRows(s: Outbox, r: Outbox, picked: seq<EventId>)
    requires Sound(s) && Took(s, r, picked)
    ensures RowsSound(r) && ClaimsSound(r)
  {
    forall a | a in r.rows ensures RowSound(r, a) {
      assert RowSound(s, a);
      if a in picked {
        assert ClaimOf(s, a) in r.claims;
      } else if 0 < s.rows[a].attempts {
        var c :| c in s.claims && c.id == a;
        assert c in r.claims;
      }
    }
  }

  lemma TookSound(s: Outbox, r: Outbox, picked: seq<EventId>)
    requires Sound(s) && Took(s, r, picked)
    ensures Sound(r)
  {
    hide RowSound;
    TookRows(s, r, picked);
    forall a | a in r.log ensures a in r.origins && Claimed(r, a) {
      var c :| c in s.claims && c.id == a;
      assert c in r.claims;
    }
  }

  // ---------------------------------------------------------------- every other step

  lemma SameClaims(s: Outbox, r: Outbox)
    requires r.claims.Keys == s.claims.Keys
    ensures forall a :: Claimed(s, a) <==> Claimed(r, a)
  {
    forall a ensures Claimed(s, a) <==> Claimed(r, a) {
      if Claimed(s, a) {
        var c :| c in s.claims && c.id == a;
        assert c in r.claims;
      }
      if Claimed(r, a) {
        var c :| c in r.claims && c.id == a;
        assert c in s.claims;
      }
    }
  }

  lemma ProduceSound(s: Outbox, c: Claim, acked: bool, written: bool)
    requires Sound(s)
    ensures Sound(Produce(s, c, acked, written))
  {
    ProduceRows(s, c, acked, written);
    ProduceClaims(s, c, acked, written);
    ProduceLog(s, c, acked, written);
  }

  lemma ProduceRows(s: Outbox, c: Claim, acked: bool, written: bool)
    requires Sound(s)
    ensures RowsSound(Produce(s, c, acked, written))
  {
    hide PublishedWasProduced, LogClaimed;
    SameClaims(s, Produce(s, c, acked, written));
  }

  lemma ProduceClaims(s: Outbox, c: Claim, acked: bool, written: bool)
    requires Sound(s)
    ensures ClaimsSound(Produce(s, c, acked, written))
  {
    hide RowSound, PublishedWasProduced, LogClaimed;
    var r := Produce(s, c, acked, written);
    assert r.rows == s.rows && forall a :: a in s.log ==> a in r.log;
    forall d | d in r.claims && r.claims[d].Sent? ensures d.id in r.log {
      assert d != c ==> s.claims[d].Sent?;
    }
  }

  lemma ProduceLog(s: Outbox, c: Claim, acked: bool, written: bool)
    requires Sound(s)
    ensures var r := Produce(s, c, acked, written); PublishedWasProduced(r) && LogClaimed(r)
  {
    hide RowSound;
    SameClaims(s, Produce(s, c, acked, written));
  }

  /** What recording an outcome does: it closes the claim and, if the claim still holds its
      row, lets the row go as published, failed or dead. */
  ghost predicate Marked(s: Outbox, r: Outbox, c: Claim) {
    && c in s.claims && r == s.(rows := r.rows, claims := s.claims[c := Closed])
    && (r.rows == s.rows
        || (HeldBy(s, c) && c.id in r.rows && r.rows == s.rows[c.id := r.rows[c.id]]
            && Released(s.cfg, s.rows[c.id], r.rows[c.id], c)
            && (r.rows[c.id].status.Published? ==> s.claims[c].Sent?)))
  }

  predicate Released(cfg: Config, a: Row, b: Row, c: Claim) {
    && b.lockedBy.None? && b.lockedAt.None? && b.attempts == a.attempts
    && (b.status.Published? || (b.status.Failed? && c.attempts < cfg.maxAttempts)
        || (b.status.Dead? && cfg.maxAttempts <= c.attempts))
  }

  lemma MarksAre(s: Outbox, c: Claim)
    ensures MarkPublished(s, c) == s || Marked(s, MarkPublished(s, c), c)
    ensures MarkFailed(s, c) == s || Marked(s, MarkFailed(s, c), c)
  {
    if c in s.claims && s.claims[c].Sent? && HeldBy(s, c) {
      var r := MarkPublished(s, c);
      assert r.rows == s.rows[c.id := r.rows[c.id]];
    }
    if c in s.claims && s.claims[c].Unsent? && HeldBy(s, c) {
      var r := MarkFailed(s, c);
      assert r.rows == s.rows[c.id := r.rows[c.id]];
    }
  }

  lemma MarkedRows(s: Outbox, r: Outbox, c: Claim)
    requires Sound(s) && Marked(s, r, c)
    ensures RowsSound(r)
  {
    hide PublishedWasProduced, LogClaimed;
    SameClaims(s, r);
    forall a | a in r.rows ensures RowSound(r, a) {
      assert RowSound(s, a);
    }
  }

  lemma MarkedClaims(s: Outbox, r: Outbox, c: Claim)
    requires Sound(s) && Marked(s, r, c)
    ensures ClaimsSound(r)
  {
    hide RowSound, PublishedWasProduced, LogClaimed;
  }

  lemma MarkedLog(s: Outbox, r: Outbox, c: Claim)
    requires Sound(s) && Marked(s, r, c)
    ensures PublishedWasProduced(r) && LogClaimed(r)
  {
    hide RowSound;
    SameClaims(s, r);
  }

  lemma MarkedSound(s: Outbox, r: Outbox, c: Claim)
    requires Sound(s) && Marked(s, r, c)
    ensures Sound(r)
  {
    MarkedRows(s, r, c);
    MarkedClaims(s, r, c);
    MarkedLog(s, r, c);
  }

  lemma InsertSound(s: Outbox, a: EventId, o: Origin)
    requires Sound(s)
    ensures Sound(Insert(s, a, o))
  {
    InsertRows(s, a, o);
    InsertClaims(s, a, o);
    InsertLog(s, a, o);
  }

  lemma InsertRows(s: Outbox, a: EventId, o: Origin)
    requires Sound(s)
    ensures RowsSound(Insert(s, a, o))
  {
    hide Taken, PublishedWasProduced, LogClaimed;
    SameClaims(s, Insert(s, a, o));
  }

  lemma InsertClaims(s: Outbox, a: EventId, o: Origin)
    requires Sound(s)
    ensures ClaimsSound(Insert(s, a, o))
  {
    hide Taken, RowSound, PublishedWasProduced, LogClaimed;
  }

  lemma InsertLog(s: Outbox, a: EventId, o: Origin)
    requires Sound(s)
    ensures PublishedWasProduced(Insert(s, a, o)) && LogClaimed(Insert(s, a, o))
  {
    hide Taken, RowSound, ClaimsSound;
    SameClaims(s, Insert(s, a, o));
  }

  lemma CleanupSound(s: Outbox, retention: Time, chosen: set<EventId>)
    requires Sound(s)
    ensures Sound(Cleanup(s, retention, chosen))
  {
    SameClaims(s, Cleanup(s, retention, chosen));
  }

  /** Every step keeps it, rows that come late included. */
  lemma StepSound(s: Outbox, op: Op)
    requires Sound(s)
    ensures Sound(Step(s, op))
  {
    hide Insert, ClaimTopic, Produce, MarkPublished, MarkFailed, Cleanup, Took, Marked, Picked;
    match op
    case InsertEvent(a, o) => InsertSound(s, a, o);
    case ClaimEvents(topic, locked) =>
      ClaimTakes(s, topic, locked);
      TookSound(s, ClaimTopic(s, topic, locked), Picked(s, topic, locked));
    case ProduceEvent(c, acked, written) => ProduceSound(s, c, acked, written);
    case Publish(c) =>
      MarksAre(s, c);
      if MarkPublished(s, c) != s { MarkedSound(s, MarkPublished(s, c), c); }
    case Fail(c) =>
      MarksAre(s, c);
      if MarkFailed(s, c) != s { MarkedSound(s, MarkFailed(s, c), c); }
    case CleanupEvents(retention, chosen) => CleanupSound(s, retention, chosen);
    case Tick(_) => SameClaims(s, Step(s, op));
  }

  lemma {:induction false} RunSound(s: Outbox, ops: seq<Op>)
    requires Sound(s)
    ensures Sound(After(s, ops))
    decreases |ops|
  {
    hide Sound, Step;
    if ops != [] {
      RunSound(s, ops[..|ops| - 1]);
      StepSound(After(s, ops[..|ops| - 1]), ops[|ops| - 1]);
    }
  }

  // ---------------------------------------------------------------- in every run

  /** Nothing is marked published, or cleaned up, that is not in the log. */
  lemma NothingPublishedUnproduced(cfg: Config, now: Time, ops: seq<Op>, a: EventId)
    ensures var s := After(Initial(cfg, now), ops);
            a in s.origins && (a !in s.rows || s.rows[a].status.Published?) ==> a in s.log
  {
    RunSound(Initial(cfg, now), ops);
  }

  /** A relay whose claim was taken over, or closed, changes no row. */
  lemma StaleClaimChangesNoRow(s: Outbox, c: Claim, acked: bool, written: bool)
    requires !HeldBy(s, c)
    ensures MarkPublished(s, c).rows == MarkFailed(s, c).rows == Produce(s, c, acked, written).rows == s.rows
  {
  }

  /** Failures are counted: a row is dead only after the last allowed attempt. */
  lemma DeadOnlyAfterLastAttempt(cfg: Config, now: Time, ops: seq<Op>, a: EventId)
    ensures var s := After(Initial(cfg, now), ops);
            a in s.rows ==>
              (s.rows[a].status.Failed? ==> s.rows[a].attempts < s.cfg.maxAttempts)
              && (s.rows[a].status.Dead? ==> s.cfg.maxAttempts <= s.rows[a].attempts)
  {
    RunSound(Initial(cfg, now), ops);
    var s := After(Initial(cfg, now), ops);
    assert a in s.rows ==> RowSound(s, a);
  }

  predicate IsDead(s: Outbox, a: EventId) {
    a in s.rows && s.rows[a].status.Dead? && a in s.origins
  }

  /** Rows come and go, but an event keeps its place. */
  predicate OriginsGrow(s: Outbox, r: Outbox) {
    forall a :: a in s.origins ==> a in r.origins && r.origins[a] == s.origins[a]
  }

  /** No claim of an event later in its lane than a is new. */
  ghost predicate NoNewClaims(s: Outbox, r: Outbox, a: EventId) {
    forall c :: c in r.claims && Earlier(r.origins, a, c.id) ==> c in s.claims
  }

  lemma TookKeepsDead(s: Outbox, r: Outbox, picked: seq<EventId>, a: EventId)
    requires Sound(s) && IsDead(s, a) && Took(s, r, picked)
    ensures IsDead(r, a) && NoNewClaims(s, r, a)
  {
    hide Sound;
  }

  lemma MarkedKeepsDead(s: Outbox, r: Outbox, c: Claim, a: EventId)
    requires Sound(s) && IsDead(s, a) && Marked(s, r, c)
    ensures IsDead(r, a) && NoNewClaims(s, r, a)
  {
    assert RowSound(s, a);
  }

  lemma StepKeepsDead(s: Outbox, op: Op, a: EventId)
    requires Sound(s) && IsDead(s, a)
    ensures var r := Step(s, op); IsDead(r, a) && OriginsGrow(s, r) && NoNewClaims(s, r, a)
  {
    hide ClaimTopic, Sound, Taken, MarkPublished, MarkFailed, Took, Marked, Picked;
    match op
    case ClaimEvents(topic, locked) =>
      ClaimTakes(s, topic, locked);
      TookKeepsDead(s, ClaimTopic(s, topic, locked), Picked(s, topic, locked), a);
      TookKeepsOrigins(s, ClaimTopic(s, topic, locked), Picked(s, topic, locked));
    case Publish(c) => MarkKeepsDead(s, MarkPublished(s, c), c, a);
    case Fail(c) => MarkKeepsDead(s, MarkFailed(s, c), c, a);
    case InsertEvent(b, o) => InsertKeepsDead(s, b, o, a);
    case _ =>
  }

  lemma InsertKeepsDead(s: Outbox, b: EventId, o: Origin, a: EventId)
    requires IsDead(s, a)
    ensures var r := Insert(s, b, o); IsDead(r, a) && OriginsGrow(s, r) && NoNewClaims(s, r, a)
  {
    hide Taken;
  }

  lemma MarkKeepsDead(s: Outbox, r: Outbox, c: Claim, a: EventId)
    requires Sound(s) && IsDead(s, a) && (r == MarkPublished(s, c) || r == MarkFailed(s, c))
    ensures IsDead(r, a) && OriginsGrow(s, r) && NoNewClaims(s, r, a)
  {
    hide Sound, MarkPublished, MarkFailed;
    MarksAre(s, c);
    if r != s {
      MarkedKeepsDead(s, r, c, a);
    }
  }

  lemma TookKeepsOrigins(s: Outbox, r: Outbox, picked: seq<EventId>)
    requires Took(s, r, picked)
    ensures r.origins == s.origins
  {
  }

  /** A dead event is never published and stops its lane: in every later run, whatever is
      inserted, no event after it in its lane is claimed again. */
  lemma {:induction false} DeadStopsItsLane(s: Outbox, ops: seq<Op>, a: EventId)
    requires Sound(s) && IsDead(s, a)
    ensures var r := After(s, ops); IsDead(r, a) && OriginsGrow(s, r) && NoNewClaims(s, r, a)
    decreases |ops|
  {
    hide Sound, Step, IsDead;
    if ops != [] {
      var before := After(s, ops[..|ops| - 1]);
      DeadStopsItsLane(s, ops[..|ops| - 1], a);
      RunSound(s, ops[..|ops| - 1]);
      StepKeepsDead(before, ops[|ops| - 1], a);
      NewClaimsChain(s, before, After(s, ops), a);
    }
  }

  /** So an event after it that was never claimed is never claimed, and never produced. */
  lemma DeadSilencesItsLane(s: Outbox, ops: seq<Op>, a: EventId, b: EventId)
    requires Sound(s) && IsDead(s, a) && !Claimed(s, b)
    ensures Earlier(After(s, ops).origins, a, b) ==> !Claimed(After(s, ops), b) && b !in After(s, ops).log
  {
    hide After, RowSound;
    DeadStopsItsLane(s, ops, a);
    RunSound(s, ops);
  }

  lemma NewClaimsChain(s: Outbox, before: Outbox, r: Outbox, a: EventId)
    requires Sound(before) && IsDead(before, a)
    requires NoNewClaims(s, before, a) && NoNewClaims(before, r, a) && OriginsGrow(before, r)
    ensures NoNewClaims(s, r, a)
  {
  }

  // ---------------------------------------------------------------- the shape of a lane

  /** After an unpublished row of a lane there are only rows that were never claimed. So a lane
      is published rows, then at most one row of any other status, then untouched ones. */
  ghost predicate Shaped(s: Outbox) {
    forall a, b :: a in s.rows && b in s.rows && Earlier(s.origins, a, b) && !s.rows[a].status.Published? ==>
      Untouched(s.rows[b])
  }

  /** A new row would come before this one in their lane. */
  predicate SortsBefore(s: Outbox, a: EventId, o: Origin, b: EventId) {
    b in s.origins && SameLane(o, s.origins[b]) && Before(a, o, b, s.origins[b])
  }

  predicate Inserts(s: Outbox, op: Op) {
    op.InsertEvent? && op.id !in s.origins && !Taken(s, op.origin)
  }

  /** A row that is inserted comes before untouched rows only. */
  ghost predicate BeforeUntouched(s: Outbox, op: Op) {
    Inserts(s, op) ==> forall b :: b in s.rows && SortsBefore(s, op.id, op.origin, b) ==> Untouched(s.rows[b])
  }

  lemma TookShaped(s: Outbox, r: Outbox, picked: seq<EventId>)
    requires RowsSound(s) && Shaped(s) && Took(s, r, picked)
    ensures Shaped(r)
  {
    hide RowSound;
    forall a, b | a in r.rows && b in r.rows && Earlier(r.origins, a, b) && !r.rows[a].status.Published?
      ensures Untouched(r.rows[b])
    {
      assert b !in picked;
    }
  }

  lemma MarkedShaped(s: Outbox, r: Outbox, c: Claim)
    requires Shaped(s) && Marked(s, r, c)
    ensures Shaped(r)
  {
  }

  lemma InsertShaped(s: Outbox, a: EventId, o: Origin)
    requires Sound(s) && Shaped(s) && Inserts(s, InsertEvent(a, o))
    ensures Shaped(Insert(s, a, o)) <==> BeforeUntouched(s, InsertEvent(a, o))
  {
    hide RowSound, Taken, ClaimsSound, PublishedWasProduced, LogClaimed;
    var r := Insert(s, a, o);
    forall b | b in s.rows && SortsBefore(s, a, o, b)
      ensures Earlier(r.origins, a, b) && b in r.rows && r.rows[b] == s.rows[b]
    {
    }
  }

  /** The shape survives a step exactly when the step inserts no row before one that was touched. */
  lemma ShapeSurvivesExactly(s: Outbox, op: Op)
    requires Sound(s) && Shaped(s)
    ensures Shaped(Step(s, op)) <==> BeforeUntouched(s, op)
  {
    hide Sound, Shaped, ClaimTopic, Produce, MarkPublished, MarkFailed, Insert, Cleanup, Took, Marked, Picked, Taken;
    SoundRows(s);
    match op
    case InsertEvent(a, o) =>
      if Inserts(s, op) { InsertShaped(s, a, o); } else { InsertsNothing(s, a, o); }
    case ClaimEvents(topic, locked) =>
      ClaimTakes(s, topic, locked);
      TookShaped(s, ClaimTopic(s, topic, locked), Picked(s, topic, locked));
    case Publish(c) =>
      MarksAre(s, c);
      if MarkPublished(s, c) != s { MarkedShaped(s, MarkPublished(s, c), c); }
    case Fail(c) =>
      MarksAre(s, c);
      if MarkFailed(s, c) != s { MarkedShaped(s, MarkFailed(s, c), c); }
    case _ => QuietShaped(s, op);
  }

  lemma SoundRows(s: Outbox)
    requires Sound(s)
    ensures RowsSound(s)
  {
  }

  lemma InsertsNothing(s: Outbox, a: EventId, o: Origin)
    requires !Inserts(s, InsertEvent(a, o))
    ensures Insert(s, a, o) == s
  {
    hide Taken;
  }

  lemma QuietShaped(s: Outbox, op: Op)
    requires Shaped(s) && (op.ProduceEvent? || op.CleanupEvents? || op.Tick?)
    ensures Shaped(Step(s, op))
  {
  }

  /** Every insertion of the run is of that kind. */
  ghost predicate ShapeKept(s: Outbox, ops: seq<Op>)
    decreases |ops|
  {
    ops == [] || (ShapeKept(s, ops[..|ops| - 1]) && BeforeUntouched(After(s, ops[..|ops| - 1]), ops[|ops| - 1]))
  }

  /** Lanes have their shape throughout a run exactly when the run inserts no row before a row of
      its lane that was touched. */
  lemma {:induction false} LanesKeepTheirShapeExactly(s: Outbox, ops: seq<Op>)
    requires Sound(s) && Shaped(s)
    ensures ShapeKept(s, ops) <==> forall n :: 0 <= n <= |ops| ==> Shaped(After(s, ops[..n]))
    decreases |ops|
  {
    hide Sound, Shaped, Step, BeforeUntouched;
    assert ops[..|ops|] == ops;
    if ops != [] {
      var before := ops[..|ops| - 1];
      assert forall n :: 0 <= n <= |before| ==> before[..n] == ops[..n];
      LanesKeepTheirShapeExactly(s, before);
      RunSound(s, before);
      assert before[..|before|] == before;
      if Shaped(After(s, before)) {
        ShapeSurvivesExactly(After(s, before), ops[|ops| - 1]);
      }
    }
  }

  // ---------------------------------------------------------------- the order of the log

  /** Whatever comes earlier in its lane than an event in the log is in the log before it. */
  ghost predicate LogInOrder(s: Outbox) {
    forall i, a :: 0 <= i < |s.log| && Earlier(s.origins, a, s.log[i]) ==> a in s.log[..i]
  }

  ghost predicate BeingProduced(s: Outbox, b: EventId) {
    exists c :: c in s.claims && c.id == b && s.claims[c].Held?
  }

  /** The event is in the log, or a relay may put it there at any moment. */
  ghost predicate OnItsWay(s: Outbox, b: EventId) {
    b in s.log || BeingProduced(s, b)
  }

  /** Nothing later in its lane is on its way while an event is not in the log. */
  ghost predicate Open(s: Outbox) {
    forall a, b :: Earlier(s.origins, a, b) && a !in s.log ==> !OnItsWay(s, b)
  }

  /** A row that is inserted comes before no event that is on its way. */
  ghost predicate BeforeIdle(s: Outbox, op: Op) {
    Inserts(s, op) ==> forall b :: SortsBefore(s, op.id, op.origin, b) ==> !OnItsWay(s, b)
  }

  lemma TookOrdered(s: Outbox, r: Outbox, picked: seq<EventId>)
    requires Sound(s) && Open(s) && Took(s, r, picked)
    ensures Open(r)
  {
    hide RowSound, ClaimsSound;
    forall b | b !in picked && BeingProduced(r, b) ensures BeingProduced(s, b) {
      var c :| c in r.claims && c.id == b && r.claims[c].Held?;
      assert c in s.claims && s.claims[c].Held?;
    }
    forall a, b | Earlier(r.origins, a, b) && a !in r.log ensures !OnItsWay(r, b) {
      assert !OnItsWay(s, b);
      assert a in s.rows && !s.rows[a].status.Published?;
      assert b !in picked;
    }
  }

  lemma MarkedOrdered(s: Outbox, r: Outbox, c: Claim)
    requires Open(s) && Marked(s, r, c)
    ensures Open(r)
  {
    forall b | BeingProduced(r, b) ensures BeingProduced(s, b) {
      var d :| d in r.claims && d.id == b && r.claims[d].Held?;
      assert d in s.claims && s.claims[d].Held?;
    }
  }

  lemma ProduceOrdered(s: Outbox, c: Claim, acked: bool, written: bool)
    requires Open(s) && LogInOrder(s)
    ensures Open(Produce(s, c, acked, written)) && LogInOrder(Produce(s, c, acked, written))
  {
    var r := Produce(s, c, acked, written);
    if c in s.claims && s.claims[c].Held? {
      assert BeingProduced(s, c.id);
      forall b | BeingProduced(r, b) ensures BeingProduced(s, b) {
        var d :| d in r.claims && d.id == b && r.claims[d].Held?;
        assert d in s.claims && s.claims[d].Held?;
      }
      forall i, a | 0 <= i < |r.log| && Earlier(r.origins, a, r.log[i]) ensures a in r.log[..i] {
        if i < |s.log| {
          assert r.log[..i] == s.log[..i];
        } else {
          assert r.log[..i] == s.log && r.log[i] == c.id;
          assert OnItsWay(s, c.id);
        }
      }
    }
  }

  lemma InsertOrdered(s: Outbox, a: EventId, o: Origin)
    requires Sound(s) && Open(s) && LogInOrder(s)
    requires Inserts(s, InsertEvent(a, o)) && BeforeIdle(s, InsertEvent(a, o))
    ensures Open(Insert(s, a, o)) && LogInOrder(Insert(s, a, o))
  {
    hide RowSound, Taken;
    var r := Insert(s, a, o);
    forall b ensures OnItsWay(r, b) <==> OnItsWay(s, b) {
      assert BeingProduced(r, b) <==> BeingProduced(s, b);
    }
    assert !OnItsWay(s, a);
    forall x, b | Earlier(r.origins, x, b) && x !in r.log ensures !OnItsWay(r, b) {
      if b != a {
        assert x == a ==> SortsBefore(s, a, o, b);
        assert x != a ==> Earlier(s.origins, x, b);
      }
    }
    forall i, x | 0 <= i < |r.log| && Earlier(r.origins, x, r.log[i]) ensures x in r.log[..i] {
      assert s.log[i] in s.log && OnItsWay(s, s.log[i]) && !SortsBefore(s, a, o, s.log[i]);
    }
  }

  /** A step keeps the log in order and open, unless it inserts a row before an event on its way. */
  lemma OrderSurvives(s: Outbox, op: Op)
    requires Sound(s) && Open(s) && LogInOrder(s) && BeforeIdle(s, op)
    ensures Open(Step(s, op)) && LogInOrder(Step(s, op))
  {
    hide Sound, Open, LogInOrder, ClaimTopic, Produce, MarkPublished, MarkFailed, Insert, Cleanup, Took, Marked, Picked,
      Taken;
    match op
    case InsertEvent(a, o) =>
      if Inserts(s, op) { InsertOrdered(s, a, o); } else { InsertsNothing(s, a, o); }
    case ClaimEvents(topic, locked) =>
      ClaimTakes(s, topic, locked);
      TookOrdered(s, ClaimTopic(s, topic, locked), Picked(s, topic, locked));
      TookKeepsLog(s, ClaimTopic(s, topic, locked), Picked(s, topic, locked));
    case ProduceEvent(c, acked, written) => ProduceOrdered(s, c, acked, written);
    case Publish(c) =>
      MarksAre(s, c);
      if MarkPublished(s, c) != s { MarkedOrdered(s, MarkPublished(s, c), c); MarkedKeepsLog(s, MarkPublished(s, c), c); }
    case Fail(c) =>
      MarksAre(s, c);
      if MarkFailed(s, c) != s { MarkedOrdered(s, MarkFailed(s, c), c); MarkedKeepsLog(s, MarkFailed(s, c), c); }
    case _ => QuietOrdered(s, op);
  }

  lemma TookKeepsLog(s: Outbox, r: Outbox, picked: seq<EventId>)
    requires LogInOrder(s) && Took(s, r, picked)
    ensures LogInOrder(r)
  {
  }

  lemma MarkedKeepsLog(s: Outbox, r: Outbox, c: Claim)
    requires LogInOrder(s) && Marked(s, r, c)
    ensures LogInOrder(r)
  {
  }

  lemma QuietOrdered(s: Outbox, op: Op)
    requires Open(s) && LogInOrder(s) && (op.CleanupEvents? || op.Tick?)
    ensures Open(Step(s, op)) && LogInOrder(Step(s, op))
  {
    assert forall b :: BeingProduced(Step(s, op), b) <==> BeingProduced(s, b);
  }

  predicate NoInserts(ops: seq<Op>) {
    forall k :: 0 <= k < |ops| ==> !ops[k].InsertEvent?
  }

  /** A row inserted before an event on its way is, or can at once be, overtaken by it. */
  lemma LateRowIsOvertaken(s: Outbox, op: Op) returns (more: seq<Op>)
    requires Sound(s) && Inserts(s, op) && !BeforeIdle(s, op)
    ensures NoInserts(more) && !LogInOrder(After(Step(s, op), more))
  {
    hide RowSound, Taken, ClaimTopic, Cleanup, MarkPublished, MarkFailed;
    var r := Step(s, op);
    var b :| SortsBefore(s, op.id, op.origin, b) && OnItsWay(s, b);
    assert op.id !in s.log && Earlier(r.origins, op.id, b);
    if b in s.log {
      more := [];
      var i :| 0 <= i < |s.log| && s.log[i] == b;
      assert op.id !in r.log[..i] && Earlier(r.origins, op.id, r.log[i]);
    } else {
      var c :| c in s.claims && c.id == b && s.claims[c].Held?;
      more := [ProduceEvent(c, true, true)];
      assert more[..0] == [];
      var produced := Produce(r, c, true, true);
      assert After(r, more) == produced;
      assert produced.log[..|s.log|] == s.log && produced.log[|s.log|] == b;
      assert Earlier(produced.origins, op.id, produced.log[|s.log|]);
    }
  }

  /** No insertion of the run is before an event that is in the log or being produced. */
  ghost predicate OrderKept(s: Outbox, ops: seq<Op>)
    decreases |ops|
  {
    ops == [] || (OrderKept(s, ops[..|ops| - 1]) && BeforeIdle(After(s, ops[..|ops| - 1]), ops[|ops| - 1]))
  }

  lemma {:induction false} RunOrdered(s: Outbox, ops: seq<Op>)
    requires Sound(s) && Open(s) && LogInOrder(s) && OrderKept(s, ops)
    ensures Open(After(s, ops)) && LogInOrder(After(s, ops))
    decreases |ops|
  {
    hide Sound, Open, LogInOrder, Step, BeforeIdle;
    if ops != [] {
      RunOrdered(s, ops[..|ops| - 1]);
      RunSound(s, ops[..|ops| - 1]);
      OrderSurvives(After(s, ops[..|ops| - 1]), ops[|ops| - 1]);
    }
  }

  lemma {:induction false} NoInsertsKeepOrder(s: Outbox, ops: seq<Op>)
    requires NoInserts(ops)
    ensures OrderKept(s, ops)
    decreases |ops|
  {
    hide Step, After;
    if ops != [] {
      NoInsertsKeepOrder(s, ops[..|ops| - 1]);
    }
  }

  /** Whatever the relays do next, the log stays in order. */
  ghost predicate SafelyInOrder(s: Outbox) {
    forall more :: NoInserts(more) ==> LogInOrder(After(s, more))
  }

  lemma OpenIsSafe(s: Outbox)
    requires Sound(s) && Open(s) && LogInOrder(s)
    ensures SafelyInOrder(s)
  {
    hide Sound, Open, LogInOrder, After;
    forall more | NoInserts(more) ensures LogInOrder(After(s, more)) {
      NoInsertsKeepOrder(s, more);
      RunOrdered(s, more);
    }
  }

  /** The log is in order throughout a run, whatever relays do after any part of it, exactly when
      the run inserts no row before an event of its lane that is in the log or being produced. */
  lemma {:induction false} LogKeepsOrderExactly(s: Outbox, ops: seq<Op>)
    requires Sound(s) && Open(s) && LogInOrder(s)
    ensures OrderKept(s, ops) <==> forall n :: 0 <= n <= |ops| ==> SafelyInOrder(After(s, ops[..n]))
    decreases |ops|
  {
    hide Sound, Open, LogInOrder, Step, BeforeIdle, SafelyInOrder;
    assert ops[..|ops|] == ops;
    if ops == [] {
      OpenIsSafe(s);
    } else {
      var before := ops[..|ops| - 1];
      assert forall n :: 0 <= n <= |before| ==> before[..n] == ops[..n];
      LogKeepsOrderExactly(s, before);
      RunSound(s, before);
      if OrderKept(s, before) {
        RunOrdered(s, before);
        RunSound(s, ops);
        OneMoreOp(After(s, before), ops[|ops| - 1]);
      }
    }
  }

  lemma OneMoreOp(s: Outbox, op: Op)
    requires Sound(s) && Open(s) && LogInOrder(s)
    ensures BeforeIdle(s, op) <==> SafelyInOrder(Step(s, op))
  {
    hide Sound, Open, LogInOrder, Step, Inserts, OnItsWay, SortsBefore, After;
    StepSound(s, op);
    if BeforeIdle(s, op) {
      OrderSurvives(s, op);
      OpenIsSafe(Step(s, op));
    } else {
      var more := LateRowIsOvertaken(s, op);
    }
  }

  /** So however late stale relays produce, before any occurrence of an event in the log there is
      one of each earlier event of its lane. */
  lemma FirstOccurrencesInOrder(cfg: Config, now: Time, ops: seq<Op>, a: EventId, i: nat)
    requires OrderKept(Initial(cfg, now), ops)
    requires var s := After(Initial(cfg, now), ops); i < |s.log| && Earlier(s.origins, a, s.log[i])
    ensures exists k :: 0 <= k < i && After(Initial(cfg, now), ops).log[k] == a
  {
    RunOrdered(Initial(cfg, now), ops);
    var s := After(Initial(cfg, now), ops);
    assert a in s.log[..i];
  }

  // ---------------------------------------------------------------- a row that comes too late

  /** A transaction that began earlier inserts its row after a later row was claimed. */
  function LateRun(topic: string, key: string, now: Time): (ops: seq<Op>) {
    [InsertEvent(1, Origin(topic, key, "b", now)), ClaimEvents(topic, {}),
     InsertEvent(0, Origin(topic, key, "a", now - 1)), ProduceEvent(Claim(1, 0, 1), true, true)]
  }

  /** In this run from the start, the lane loses its shape, and the later event overtakes the
      earlier one in the log. */
  lemma ALateRowIsOvertaken(cfg: Config, topic: string, key: string, now: Time)
    requires 1 <= cfg.batchSize
    ensures var ops, s := LateRun(topic, key, now), Initial(cfg, now);
            !Shaped(After(s, ops[..3])) && !LogInOrder(After(s, ops)) && !ShapeKept(s, ops) && !OrderKept(s, ops)
  {
    hide Step, Shaped, LogInOrder, ShapeKept, OrderKept;
    var ops, s := LateRun(topic, key, now), Initial(cfg, now);
    var b, a := Origin(topic, key, "b", now), Origin(topic, key, "a", now - 1);
    assert ops[..0] == [] && ops[..1][..0] == [];
    assert ops[..2][..1] == ops[..1] && ops[..3][..2] == ops[..2] && ops[..4][..3] == ops[..3] && ops[..4] == ops;
    FirstIsClaimed(cfg, topic, now, b);
    LateRowBreaks(cfg, topic, now, a, b);
    assert Shaped(s) && Open(s) && LogInOrder(s) by { StartIsInOrder(cfg, now); }
    LanesKeepTheirShapeExactly(s, ops);
    LogKeepsOrderExactly(s, ops);
    OrderNow(After(s, ops));
  }

  lemma StartIsInOrder(cfg: Config, now: Time)
    ensures var s := Initial(cfg, now); Sound(s) && Shaped(s) && Open(s) && LogInOrder(s)
  {
  }

  lemma OrderNow(s: Outbox)
    ensures SafelyInOrder(s) ==> LogInOrder(s)
  {
    assert After(s, []) == s;
  }

  /** One row, claimed by the first relay. */
  function OneClaimed(cfg: Config, now: Time, b: Origin): (s: Outbox) {
    Outbox(cfg, now, 1, map[1 := b], map[1 := Row(Processing, now, Some(now), Some(0), 1, None)],
           map[Claim(1, 0, 1) := Held], [])
  }

  lemma FirstIsClaimed(cfg: Config, topic: string, now: Time, b: Origin)
    requires 1 <= cfg.batchSize && b.topic == topic
    ensures Step(Step(Initial(cfg, now), InsertEvent(1, b)), ClaimEvents(topic, {})) == OneClaimed(cfg, now, b)
  {
    hide Picked;
    var s := OnePending(cfg, now, b);
    assert Step(Initial(cfg, now), InsertEvent(1, b)) == s;
    OnlyPick(cfg, topic, now, b);
    assert [1][..0] == [];
    assert TakeRows(s, [1]) == TakeRow(s, 1);
  }

  function OnePending(cfg: Config, now: Time, b: Origin): (s: Outbox) {
    Initial(cfg, now).(origins := map[1 := b], rows := map[1 := NewRow(Initial(cfg, now))])
  }

  lemma OnlyPick(cfg: Config, topic: string, now: Time, b: Origin)
    requires 1 <= cfg.batchSize && b.topic == topic
    ensures Picked(OnePending(cfg, now, b), topic, {}) == [1]
  {
    var s := OnePending(cfg, now, b);
    var candidates := set a | a in s.rows && Claimable(s, topic, a) && a !in {};
    assert Claimable(s, topic, 1);
    assert candidates == {1};
    var picked := TakeFirst(s.origins, candidates, cfg.batchSize);
    assert |picked| == 1 && picked[0] in picked && picked[0] in candidates;
    assert picked == [1];
  }

  lemma LateRowBreaks(cfg: Config, topic: string, now: Time, a: Origin, b: Origin)
    requires SameLane(a, b) && a.eventKey != b.eventKey && a.createdAt < b.createdAt
    ensures var s := Step(OneClaimed(cfg, now, b), InsertEvent(0, a));
            !Shaped(s) && !LogInOrder(Step(s, ProduceEvent(Claim(1, 0, 1), true, true)))
  {
    var s := OneClaimed(cfg, now, b);
    assert !Taken(s, a);
    var late := s.(origins := s.origins[0 := a], rows := s.rows[0 := NewRow(s)]);
    assert Step(s, InsertEvent(0, a)) == late;
    assert Earlier(late.origins, 0, 1) && !late.rows[0].status.Published? && !Untouched(late.rows[1]);
    var r := Step(late, ProduceEvent(Claim(1, 0, 1), true, true));
    assert r.log == [1] && Earlier(r.origins, 0, r.log[0]) && r.log[..0] == [];
  }
}
