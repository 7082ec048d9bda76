/** Delivery is at least once: an outlived lease lets an earlier event be accepted again after a later one. */
module OutboxRepeats {
  import opened Wrappers
  import opened Outbox
  import opened OutboxInvariant

  const ORDERS := Aggregate("order", 1)

  function Posted(sequence: nat): Row {
    Row(Envelope("placed", 1, ORDERS, sequence, 0, 1, Number(0)), 0, 0, None, None, None, None, None)
  }

  lemma StepIsReachable(s: State, step: Step)
    requires Reachable(s) && Enabled(s, step)
    ensures Reachable(Next(s, step))
  {
    assert [step][1..] == [];
    assert Legal(Next(s, step), []) && After(Next(s, step), []) == Next(s, step);
    assert Legal(s, [step]) && After(s, [step]) == Next(s, step);
    ReachableExtends(s, [step]);
  }

  /** Two events; the first is claimed under token 10, its worker stalls, and the lease runs out. */
  lemma StalledRun() returns (s: State)
    ensures Reachable(s) && s.now == SECOND
    ensures s.rows == map[1 := ClaimedRow(Posted(1), 10, SECOND), 2 := Posted(2)]
    ensures s.claims == map[10 := Claim(1, 0, SECOND, Issued, None)]
    ensures s.accepted == []
  {
    s := Empty(0);
    assert Legal(Empty(0), []) && After(Empty(0), []) == Empty(0);
    StepIsReachable(s, Insert(1, Posted(1)));
    s := Next(s, Insert(1, Posted(1)));
    StepIsReachable(s, Insert(2, Posted(2)));
    s := Next(s, Insert(2, Posted(2)));
    assert Earlier(s.rows, 1, 2);
    StepIsReachable(s, ClaimNext(10, 1, {}, Some(1)));
    s := Next(s, ClaimNext(10, 1, {}, Some(1)));
    StepIsReachable(s, Tick(SECOND));
    s := Next(s, Tick(SECOND));
  }

  /** A second worker takes the first event over and delivers it. */
  lemma OvertakenRun() returns (s: State)
    ensures Reachable(s) && s.now == SECOND
    ensures s.rows.Keys == {1, 2} && s.rows[2] == Posted(2)
    ensures s.rows[1].envelope == Posted(1).envelope && s.rows[1].deliveredAt.Some?
    ensures s.claims.Keys == {10, 11} && s.claims[10] == Claim(1, 0, SECOND, Issued, None)
    ensures s.accepted == [1]
  {
    s := StalledRun();
    assert Earlier(s.rows, 1, 2);
    StepIsReachable(s, ClaimNext(11, 1, {}, Some(1)));
    s := Next(s, ClaimNext(11, 1, {}, Some(1)));
    StepIsReachable(s, Deliver(11, true));
    s := Next(s, Deliver(11, true));
    StepIsReachable(s, Settle(11, Acknowledge));
    s := Next(s, Settle(11, Acknowledge));
  }

  /** The second event is accepted, and then the stalled delivery of the first succeeds after all. */
  lemma LateAcceptanceRepeatsEarlierEvent() returns (s: State)
    ensures Reachable(s) && s.accepted == [1, 2, 1]
    ensures 1 in s.rows && 2 in s.rows && Earlier(s.rows, 1, 2)
    ensures s.rows[1].deliveredAt.Some? && 10 in s.claims && !Affects(s, 10, Acknowledge)
  {
    s := OvertakenRun();
    StepIsReachable(s, ClaimNext(12, 1, {}, Some(2)));
    s := Next(s, ClaimNext(12, 1, {}, Some(2)));
    StepIsReachable(s, Deliver(12, true));
    s := Next(s, Deliver(12, true));
    StepIsReachable(s, Deliver(10, true));
    s := Next(s, Deliver(10, true));
  }
}
