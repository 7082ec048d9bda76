/** Per-aggregate order, exclusive ownership and the dead-letter barrier, over all runs. */
module OutboxOrder {
  import opened Wrappers
  import opened Outbox
  import opened OutboxLogs
  import opened OutboxInvariant

  /** The aggregate's events in the order of their sequence. */
  function AggregateLog(s: State, agg: Aggregate): seq<EventId> {
    Select(s.inserted, Members(s.rows, agg))
  }

  /** The aggregate's events in the order in which each was first accepted. */
  function FirstAcceptances(s: State, agg: Aggregate): seq<EventId> {
    FirstSeen(Select(s.accepted, Members(s.rows, agg)))
  }

  // ----------------------------------------------------------------- first acceptance

  /** `line` is all events of the aggregate, each once, in strictly increasing sequence. */
  ghost predicate IsSequenceOf(rows: Table, agg: Aggregate, line: seq<EventId>) {
    && (forall e :: e in line <==> e in Members(rows, agg))
    && (forall i | 0 <= i < |line| :: line[i] in rows)
    && (forall i, j | 0 <= i < j < |line| :: Earlier(rows, line[i], line[j]))
  }

  lemma AggregateLogIsSorted(s: State, agg: Aggregate)
    requires LogMatchesTable(s)
    ensures IsSequenceOf(s.rows, agg, AggregateLog(s, agg))
  {
    SelectElements(s.inserted, Members(s.rows, agg));
    SelectIncreasing(s.rows, s.inserted, Members(s.rows, agg));
    var line := AggregateLog(s, agg);
    forall i | 0 <= i < |line|
      ensures line[i] in Members(s.rows, agg)
    {
      assert line[i] in line;
    }
  }

  /** A newly accepted event is the first of its aggregate not accepted so far. */
  lemma NewAcceptanceIsNext(s: State, token: Token, agg: Aggregate)
    requires LogMatchesTable(s) && ClaimsWellFormed(s) && OnlyHeadsClaimed(s) && AcceptancesRecorded(s)
    requires token in s.claims && s.claims[token].event in Members(s.rows, agg)
    requires s.claims[token].event !in s.accepted
    requires FirstAcceptances(s, agg) <= AggregateLog(s, agg)
    ensures FirstAcceptances(s, agg) + [s.claims[token].event] <= AggregateLog(s, agg)
  {
    var e, line, taken := s.claims[token].event, AggregateLog(s, agg), FirstAcceptances(s, agg);
    AggregateLogIsSorted(s, agg);
    FirstSeenElements(Select(s.accepted, Members(s.rows, agg)));
    SelectElements(s.accepted, Members(s.rows, agg));
    forall i, j | 0 <= i < j < |line| && line[j] == e
      ensures line[i] in taken
    {
      assert line[i] in Members(s.rows, agg);
      EarlierThanClaimed(s, token, line[i]);
    }
    NextInLine(taken, line, e);
  }

  lemma EarlierThanClaimed(s: State, token: Token, x: EventId)
    requires ClaimsWellFormed(s) && OnlyHeadsClaimed(s) && AcceptancesRecorded(s)
    requires token in s.claims && x in s.rows && Earlier(s.rows, x, s.claims[token].event)
    ensures s.rows[x].deliveredAt.Some? && x in s.accepted
  {
    assert IsHead(s.rows, s.claims[token].event);
  }

  lemma InsertKeepsOrder(s: State, e: EventId, row: Row, agg: Aggregate)
    requires LogMatchesTable(s) && ClaimsWellFormed(s) && AcceptancesRecorded(s) && Enabled(s, Insert(e, row))
    requires FirstAcceptances(s, agg) <= AggregateLog(s, agg)
    ensures FirstAcceptances(Next(s, Insert(e, row)), agg) <= AggregateLog(Next(s, Insert(e, row)), agg)
  {
    var old', new' := Members(s.rows, agg), Members(s.rows[e := row], agg);
    SelectAgrees(s.inserted, old', new');
    SelectAgrees(s.accepted, old', new');
    SelectAppends(s.inserted, e, new');
  }

  lemma AcceptanceKeepsOrder(s: State, token: Token, agg: Aggregate)
    requires LogMatchesTable(s) && ClaimsWellFormed(s) && OnlyHeadsClaimed(s) && AcceptancesRecorded(s)
    requires Enabled(s, Deliver(token, true)) && FirstAcceptances(s, agg) <= AggregateLog(s, agg)
    ensures FirstAcceptances(Delivered(s, token, true), agg) <= AggregateLog(Delivered(s, token, true), agg)
  {
    var e, own := s.claims[token].event, Members(s.rows, agg);
    SelectAppends(s.accepted, e, own);
    FirstSeenAppends(Select(s.accepted, own), e);
    SelectElements(s.accepted, own);
    if e in own && e !in s.accepted {
      NewAcceptanceIsNext(s, token, agg);
    }
  }

  lemma StepKeepsOrder(s: State, step: Step, agg: Aggregate)
    requires Inv(s) && Enabled(s, step)
    requires FirstAcceptances(s, agg) <= AggregateLog(s, agg)
    ensures FirstAcceptances(Next(s, step), agg) <= AggregateLog(Next(s, step), agg)
  {
    if step.Insert? {
      InsertKeepsOrder(s, step.event, step.row, agg);
    } else if step.Deliver? && step.ok {
      AcceptanceKeepsOrder(s, step.token, agg);
    } else {
      EnvelopesStand(s, step);
      assert Members(Next(s, step).rows, agg) == Members(s.rows, agg);
    }
  }

  lemma {:induction false} RunKeepsOrder(s: State, steps: seq<Step>, agg: Aggregate)
    requires Inv(s) && Legal(s, steps)
    requires FirstAcceptances(s, agg) <= AggregateLog(s, agg)
    ensures FirstAcceptances(After(s, steps), agg) <= AggregateLog(After(s, steps), agg)
    decreases |steps|
  {
    if steps != [] {
      StepKeepsInv(s, steps[0]);
      StepKeepsOrder(s, steps[0], agg);
      RunKeepsOrder(Next(s, steps[0]), steps[1..], agg);
    }
  }

  /**
   * Whatever the workers, crashes, expired leases and late deliveries: without
   * its repeats, the acceptance log of an aggregate is an initial part of the
   * aggregate's events in sequence order.
   */
  lemma FirstAcceptancesFollowSequence(s: State, agg: Aggregate)
    requires Reachable(s)
    ensures FirstAcceptances(s, agg) <= AggregateLog(s, agg)
    ensures IsSequenceOf(s.rows, agg, AggregateLog(s, agg))
  {
    var now: Time, steps: seq<Step> :| Legal(Empty(now), steps) && s == After(Empty(now), steps);
    EmptyHasInv(now);
    RunKeepsOrder(Empty(now), steps, agg);
    ReachableHasInv(s);
    AggregateLogIsSorted(s, agg);
  }

  // -------------------------------------------------------------- the table's constraints

  lemma Comparable(s: State, x: EventId, y: EventId)
    requires LogMatchesTable(s) && x in s.rows && y in s.rows && x != y
    requires s.rows[x].envelope.aggregate == s.rows[y].envelope.aggregate
    ensures Earlier(s.rows, x, y) || Earlier(s.rows, y, x)
  {
    var i :| 0 <= i < |s.inserted| && s.inserted[i] == x;
    var j :| 0 <= j < |s.inserted| && s.inserted[j] == y;
    assert i < j ==> Before(s.rows, x, y);
    assert j < i ==> Before(s.rows, y, x);
  }

  /** The statements never run into the checks and the unique key of the table: they hold in every reachable state. */
  lemma ConstraintsHold(s: State, e: EventId, f: EventId)
    requires Reachable(s) && e in s.rows && f in s.rows
    ensures s.rows[e].envelope.eventVersion > 0 && s.rows[e].envelope.sequence > 0
    ensures s.rows[e].envelope.payloadSchemaVersion > 0
    ensures s.rows[e].deadLetteredAt.None? <==> s.rows[e].deadLetterReason.None?
    ensures s.rows[e].envelope.aggregate == s.rows[f].envelope.aggregate ==>
              s.rows[e].envelope.sequence == s.rows[f].envelope.sequence ==> e == f
  {
    ReachableHasInv(s);
    assert WellShaped(s.rows[e]);
    if e != f && s.rows[e].envelope.aggregate == s.rows[f].envelope.aggregate {
      Comparable(s, e, f);
    }
  }

  // ------------------------------------------------------------------------- shape

  predicate Untouched(row: Row) {
    row.attemptCount == 0 && row.claimedBy.None? && row.deliveredAt.None? && row.deadLetteredAt.None?
  }

  /** `k` rows delivered, then at most one row ever attempted, then rows nobody has touched. */
  ghost predicate HasShape(rows: Table, line: seq<EventId>, k: nat) {
    && k <= |line|
    && (forall e | e in line :: e in rows)
    && (forall i | 0 <= i < k :: rows[line[i]].deliveredAt.Some?)
    && (forall i | k <= i < |line| :: rows[line[i]].deliveredAt.None?)
    && (forall i | k < i < |line| :: Untouched(rows[line[i]]))
  }

  lemma InvGivesShape(s: State, agg: Aggregate) returns (k: nat)
    requires RowsWellShaped(s) && LogMatchesTable(s) && ClaimsWellFormed(s) && OnlyHeadsClaimed(s)
    ensures HasShape(s.rows, AggregateLog(s, agg), k)
  {
    var line := AggregateLog(s, agg);
    AggregateLogIsSorted(s, agg);
    k := 0;
    while k < |line| && s.rows[line[k]].deliveredAt.Some?
      invariant k <= |line|
      invariant forall i | 0 <= i < k :: s.rows[line[i]].deliveredAt.Some?
    {
      k := k + 1;
    }
    forall i | k < i < |line|
      ensures Untouched(s.rows[line[i]])
    {
      LaterThanUndelivered(s, line[k], line[i]);
    }
  }

  lemma LaterThanUndelivered(s: State, x: EventId, e: EventId)
    requires RowsWellShaped(s) && ClaimsWellFormed(s) && OnlyHeadsClaimed(s)
    requires x in s.rows && e in s.rows && Earlier(s.rows, x, e) && s.rows[x].deliveredAt.None?
    ensures Untouched(s.rows[e]) && ClaimsOf(s, e) == {}
  {
    assert !IsHead(s.rows, e);
    assert WellShaped(s.rows[e]);
  }

  lemma ShapeOfAggregates(s: State, agg: Aggregate)
    requires Reachable(s)
    ensures exists k: nat :: HasShape(s.rows, AggregateLog(s, agg), k)
  {
    ReachableHasInv(s);
    var k := InvGivesShape(s, agg);
  }

  // --------------------------------------------------------------------- ownership

  /** At no instant do two tokens own one event. */
  lemma OwnershipIsExclusive(s: State, t: Token, u: Token, at: Time)
    requires Reachable(s)
    requires t in s.claims && u in s.claims && t != u && s.claims[t].event == s.claims[u].event
    ensures !(s.claims[t].Owns(at) && s.claims[u].Owns(at))
  {
    ReachableHasInv(s);
  }

  /** A settlement updates its row exactly when the clock is inside the token's window. */
  lemma SettlesExactlyInsideWindow(s: State, token: Token, verdict: Verdict)
    requires Reachable(s) && token in s.claims
    ensures Affects(s, token, verdict) <==> s.claims[token].Owns(s.now)
  {
    ReachableHasInv(s);
    assert WellShaped(s.rows[s.claims[token].event]);
  }

  lemma {:induction false} SettlementIsFinal(s: State, steps: seq<Step>, token: Token)
    requires Inv(s) && Legal(s, steps)
    requires token in s.claims && s.claims[token].settled.Some?
    ensures token in After(s, steps).claims
    ensures After(s, steps).claims[token].settled == s.claims[token].settled
    decreases |steps|
  {
    if steps != [] {
      StepKeepsInv(s, steps[0]);
      SettlementStands(s, steps[0], token);
      SettlementIsFinal(Next(s, steps[0]), steps[1..], token);
    }
  }

  lemma SettlementStands(s: State, step: Step, token: Token)
    requires ClaimsWellFormed(s) && OwnershipAgrees(s) && Enabled(s, step)
    requires token in s.claims && s.claims[token].settled.Some?
    ensures token in Next(s, step).claims
    ensures Next(s, step).claims[token].settled == s.claims[token].settled
  {
  }

  /** A settled token never updates a row again, and one event is never acknowledged under two tokens. */
  lemma SettlesAtMostOnce(s: State, steps: seq<Step>, token: Token, verdict: Verdict)
    requires Reachable(s) && Legal(s, steps)
    requires token in s.claims && s.claims[token].settled.Some?
    ensures token in After(s, steps).claims && !Affects(After(s, steps), token, verdict)
    ensures forall u | u in After(s, steps).claims
              && After(s, steps).claims[u].event == s.claims[token].event
              && SettledAs(s.claims[token], true)
              && SettledAs(After(s, steps).claims[u], true) :: u == token
  {
    ReachableHasInv(s);
    RunKeepsInv(s, steps);
    SettlementIsFinal(s, steps, token);
    EventStands(s, steps, token);
    ReachableExtends(s, steps);
    SettlesExactlyInsideWindow(After(s, steps), token, verdict);
  }

  lemma {:induction false} EventStands(s: State, steps: seq<Step>, token: Token)
    requires Legal(s, steps) && token in s.claims
    ensures token in After(s, steps).claims && After(s, steps).claims[token].event == s.claims[token].event
    decreases |steps|
  {
    if steps != [] {
      EventStands(Next(s, steps[0]), steps[1..], token);
    }
  }

  // ----------------------------------------------------------------------- barrier

  /** No row is ever both delivered and dead-lettered. */
  lemma TerminalStatesExclude(s: State, e: EventId)
    requires Reachable(s) && e in s.rows
    ensures !(s.rows[e].deliveredAt.Some? && s.rows[e].deadLetteredAt.Some?)
    ensures s.rows[e].deadLetteredAt.Some? ==> s.rows[e].claimedBy.None?
  {
    ReachableHasInv(s);
    assert WellShaped(s.rows[e]);
  }

  /** A dead letter stays as it is, and nothing after it in its aggregate is ever claimed or delivered. */
  lemma DeadLetterIsPermanentBarrier(s: State, steps: seq<Step>, e: EventId)
    requires Reachable(s) && Legal(s, steps)
    requires e in s.rows && s.rows[e].deadLetteredAt.Some?
    ensures e in After(s, steps).rows && After(s, steps).rows[e] == s.rows[e]
    ensures forall x | x in After(s, steps).rows && Earlier(After(s, steps).rows, e, x) ::
              Untouched(After(s, steps).rows[x]) && ClaimsOf(After(s, steps), x) == {}
  {
    var s' := After(s, steps);
    ReachableHasInv(s);
    assert WellShaped(s.rows[e]);
    RunKeepsInv(s, steps);
    forall x | x in s'.rows && Earlier(s'.rows, e, x)
      ensures Untouched(s'.rows[x]) && ClaimsOf(s', x) == {}
    {
      assert WellShaped(s'.rows[e]);
      LaterThanUndelivered(s', e, x);
    }
  }

  /** Only a release makes the event claimable again, and it does so at once. */
  lemma ReleaseAloneMakesEligible(s: State, token: Token, verdict: Verdict)
    requires Reachable(s) && Enabled(s, Settle(token, verdict)) && Affects(s, token, verdict)
    ensures Eligible(Next(s, Settle(token, verdict)).rows, s.claims[token].event, s.now) <==> verdict.Release?
  {
    ReachableHasInv(s);
    var e, s' := s.claims[token].event, Next(s, Settle(token, verdict));
    SettlesExactlyInsideWindow(s, token, Acknowledge);
    StepExtends(s, Settle(token, verdict));
    HeadsStayHeads(s.rows, s'.rows, e);
    assert WellShaped(s.rows[e]);
  }
}
