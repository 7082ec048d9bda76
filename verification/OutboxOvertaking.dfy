/**
 * When the acceptances themselves, repeats included, are in order: always, if
 * each arrives while its token owns the event; and which late ones can still
 * arrive out of order.
 */
module OutboxOvertaking {
  import opened Wrappers
  import opened Outbox
  import opened OutboxLogs
  import opened OutboxInvariant
  import opened OutboxOrder
  import opened OutboxQueue

  // ----------------------------------------------------------- punctual acceptances

  /** No event is accepted after a later one of its aggregate. */
  ghost predicate InOrder(s: State) {
    forall i, j | 0 <= i < j < |s.accepted| && s.accepted[i] in s.rows && s.accepted[j] in s.rows ::
      !Earlier(s.rows, s.accepted[j], s.accepted[i])
  }

  /** An acceptance arrives while its token owns the event. */
  predicate Punctual(s: State, step: Step)
    requires Enabled(s, step)
  {
    step.Deliver? && step.ok ==> s.claims[step.token].Owns(s.now)
  }

  predicate PunctualRun(s: State, steps: seq<Step>)
    requires Legal(s, steps)
    decreases |steps|
  {
    steps == [] || (Punctual(s, steps[0]) && PunctualRun(Next(s, steps[0]), steps[1..]))
  }

  /** While a token owns its event, nothing later in the aggregate was ever accepted. */
  lemma OwnedMeansNoneLaterAccepted(s: State, token: Token, x: EventId)
    requires RowsWellShaped(s) && ClaimsWellFormed(s) && OwnershipAgrees(s)
    requires AcceptancesRecorded(s) && OnlyHeadsClaimed(s)
    requires token in s.claims && s.claims[token].Owns(s.now) && x in s.accepted
    ensures x in s.rows && !Earlier(s.rows, s.claims[token].event, x)
  {
    var e := s.claims[token].event;
    assert WellShaped(s.rows[e]);
    assert IsHead(s.rows, x);
  }

  lemma OtherStepKeepsOrder(s: State, step: Step)
    requires ClaimsWellFormed(s) && AcceptancesRecorded(s) && Enabled(s, step) && InOrder(s)
    requires Next(s, step).accepted == s.accepted
    ensures InOrder(Next(s, step))
  {
    StepExtends(s, step);
    assert forall i | 0 <= i < |s.accepted| :: s.accepted[i] in s.accepted;
  }

  lemma PunctualAcceptanceKeepsOrder(s: State, token: Token)
    requires RowsWellShaped(s) && ClaimsWellFormed(s) && OwnershipAgrees(s)
    requires AcceptancesRecorded(s) && OnlyHeadsClaimed(s)
    requires Enabled(s, Deliver(token, true)) && s.claims[token].Owns(s.now) && InOrder(s)
    ensures InOrder(Next(s, Deliver(token, true)))
  {
    forall i | 0 <= i < |s.accepted|
      ensures !Earlier(s.rows, s.claims[token].event, s.accepted[i])
    {
      OwnedMeansNoneLaterAccepted(s, token, s.accepted[i]);
    }
  }

  lemma PunctualStepKeepsOrder(s: State, step: Step)
    requires Inv(s) && Enabled(s, step) && Punctual(s, step) && InOrder(s)
    ensures InOrder(Next(s, step))
  {
    if step.Deliver? && step.ok {
      PunctualAcceptanceKeepsOrder(s, step.token);
    } else {
      OtherStepKeepsOrder(s, step);
    }
  }

  lemma {:induction false} PunctualRunKeepsOrder(s: State, steps: seq<Step>)
    requires Inv(s) && Legal(s, steps) && PunctualRun(s, steps) && InOrder(s)
    ensures InOrder(After(s, steps))
    decreases |steps|
  {
    if steps != [] {
      StepKeepsInv(s, steps[0]);
      PunctualStepKeepsOrder(s, steps[0]);
      PunctualRunKeepsOrder(Next(s, steps[0]), steps[1..]);
    }
  }

  /** Every run whose acceptances are punctual has its acceptances in order, repeats included. */
  lemma PunctualRunsStayInOrder(now: Time, steps: seq<Step>)
    requires Legal(Empty(now), steps) && PunctualRun(Empty(now), steps)
    ensures InOrder(After(Empty(now), steps))
  {
    EmptyHasInv(now);
    PunctualRunKeepsOrder(Empty(now), steps);
  }

  // ---------------------------------------------------------------- late acceptances

  /** The delivery under this token has not been answered yet. */
  predicate Outstanding(s: State, token: Token) {
    token in s.claims && s.claims[token].phase.Issued?
  }

  ghost predicate LaterAccepted(s: State, e: EventId)
    requires e in s.rows
  {
    exists x :: x in s.accepted && x in s.rows && Earlier(s.rows, e, x)
  }

  /** Never accepted, dead-lettered, and no delivery of it under way. */
  ghost predicate Closed(s: State, f: EventId) {
    && f in s.rows && s.rows[f].deadLetteredAt.Some? && f !in s.accepted
    && forall t | Outstanding(s, t) :: s.claims[t].event != f
  }

  ghost predicate ClosedLater(s: State, e: EventId)
    requires e in s.rows
  {
    exists f :: f in s.rows && Earlier(s.rows, e, f) && Closed(s, f)
  }

  /** Some continuation lets a later event be accepted while the delivery is still under way. */
  ghost predicate CanBeOvertaken(s: State, token: Token)
    requires token in s.claims
  {
    exists steps: seq<Step> :: Legal(s, steps) && OvertakenAt(After(s, steps), token)
  }

  ghost predicate OvertakenAt(s: State, token: Token) {
    Outstanding(s, token) && s.claims[token].event in s.rows && LaterAccepted(s, s.claims[token].event)
  }

  /** The acceptance of an overtaken delivery is out of order. */
  lemma OvertakenBreaksOrder(s: State, token: Token)
    requires OvertakenAt(s, token)
    ensures Enabled(s, Deliver(token, true)) && !InOrder(Next(s, Deliver(token, true)))
  {
    var e, s' := s.claims[token].event, Next(s, Deliver(token, true));
    var x :| x in s.accepted && x in s.rows && Earlier(s.rows, e, x);
    var i :| 0 <= i < |s.accepted| && s.accepted[i] == x;
    assert s'.accepted[i] == x && s'.accepted[|s.accepted|] == e;
  }

  // ------------------------------------------------------------ what cannot overtake

  lemma ClosedStands(s: State, step: Step, f: EventId)
    requires ClaimsWellFormed(s) && OwnershipAgrees(s) && RowsWellShaped(s)
    requires Enabled(s, step) && Closed(s, f)
    ensures Closed(Next(s, step), f)
  {
    var s' := Next(s, step);
    assert WellShaped(s.rows[f]);
    StepExtends(s, step);
    forall t | Outstanding(s', t)
      ensures s'.claims[t].event != f
    {
      assert t in s.claims ==> Outstanding(s, t);
    }
  }

  lemma {:induction false} ClosedForGood(s: State, steps: seq<Step>, f: EventId)
    requires Inv(s) && Legal(s, steps) && Closed(s, f)
    ensures Closed(After(s, steps), f)
    decreases |steps|
  {
    if steps != [] {
      StepKeepsInv(s, steps[0]);
      ClosedStands(s, steps[0], f);
      ClosedForGood(Next(s, steps[0]), steps[1..], f);
    }
  }

  lemma BarrierAgainstAcceptance(s: State, steps: seq<Step>, d: EventId, x: EventId)
    requires Reachable(s) && Legal(s, steps) && d in s.rows && s.rows[d].deadLetteredAt.Some?
    requires d in After(s, steps).rows && x in After(s, steps).rows && Earlier(After(s, steps).rows, d, x)
    ensures x !in After(s, steps).accepted
  {
    DeadLetterIsPermanentBarrier(s, steps, d);
    ReachableExtends(s, steps);
    ReachableHasInv(After(s, steps));
  }

  /** `f` is the next event after `e`. */
  ghost predicate ComesNext(rows: Table, e: EventId, f: EventId)
    requires e in rows && f in rows
  {
    forall x | x in rows && Earlier(rows, e, x) :: x == f || Earlier(rows, f, x)
  }

  /** A dead letter after `e` comes next if nothing later was accepted: what lies between was delivered, hence accepted. */
  lemma ClosedComesNext(s: State, e: EventId, f: EventId)
    requires Inv(s) && e in s.rows && f in s.rows && Earlier(s.rows, e, f)
    requires s.rows[f].deadLetteredAt.Some? && !LaterAccepted(s, e)
    ensures ComesNext(s.rows, e, f)
  {
    assert WellShaped(s.rows[f]) && IsHead(s.rows, f);
    forall x | x in s.rows && Earlier(s.rows, e, x) && x != f
      ensures Earlier(s.rows, f, x)
    {
      Comparable(s, x, f);
      assert Earlier(s.rows, x, f) ==> x in s.accepted;
    }
  }

  lemma NextStaysNext(a: Table, b: Table, e: EventId, f: EventId)
    requires Extends(a, b) && e in a && f in a && Earlier(a, e, f) && ComesNext(a, e, f)
    ensures e in b && f in b && Earlier(b, e, f) && ComesNext(b, e, f)
  {
    forall x | x in b && Earlier(b, e, x) && x != f
      ensures Earlier(b, f, x)
    {
      if x in a {
        assert Earlier(a, e, x);
      }
    }
  }

  /** Beyond an event that is closed for good nothing new is ever accepted. */
  lemma NothingPassesClosed(s: State, steps: seq<Step>, e: EventId, f: EventId)
    requires Reachable(s) && Inv(s) && Legal(s, steps)
    requires e in s.rows && f in s.rows && Earlier(s.rows, e, f) && Closed(s, f) && ComesNext(s.rows, e, f)
    ensures e in After(s, steps).rows && !LaterAccepted(After(s, steps), e)
  {
    var s' := After(s, steps);
    RunKeepsInv(s, steps);
    ClosedForGood(s, steps, f);
    NextStaysNext(s.rows, s'.rows, e, f);
    forall x | x in s'.rows && Earlier(s'.rows, e, x) && x != f
      ensures x !in s'.accepted
    {
      BarrierAgainstAcceptance(s, steps, f, x);
    }
  }

  // ---------------------------------------------------------------- what can overtake

  lemma FourSteps(s: State, a: Step, b: Step, c: Step, d: Step)
    requires Enabled(s, a) && Enabled(Next(s, a), b) && Enabled(Next(Next(s, a), b), c)
    requires Enabled(Next(Next(Next(s, a), b), c), d)
    ensures Legal(s, [a, b, c, d])
    ensures After(s, [a, b, c, d]) == Next(Next(Next(Next(s, a), b), c), d)
  {
    var s1, s2, s3 := Next(s, a), Next(Next(s, a), b), Next(Next(Next(s, a), b), c);
    assert [d][1..] == [] && [c, d][1..] == [d] && [b, c, d][1..] == [c, d] && [a, b, c, d][1..] == [b, c, d];
    assert Legal(Next(s3, d), []) && After(Next(s3, d), []) == Next(s3, d);
    assert Legal(s3, [d]) && After(s3, [d]) == Next(s3, d);
    assert Legal(s2, [c, d]) && After(s2, [c, d]) == Next(s3, d);
    assert Legal(s1, [b, c, d]) && After(s1, [b, c, d]) == Next(s3, d);
  }

  /** `s'` differs from `s` by the delivery of `f` under a new token. */
  ghost predicate Served(s: State, f: EventId, s': State) {
    && f in s.rows && s'.rows.Keys == s.rows.Keys && s'.inserted == s.inserted
    && s'.rows[f].envelope == s.rows[f].envelope && s'.rows[f].deliveredAt.Some?
    && (forall x | x in s.rows && x != f :: s'.rows[x] == s.rows[x])
    && (forall t | t in s.claims :: t in s'.claims && s'.claims[t] == s.claims[t])
    && s'.accepted == s.accepted + [f]
  }

  function ServingTime(s: State, f: EventId): Time
    requires f in s.rows
  {
    var row := s.rows[f];
    var due := if row.availableAt > s.now then row.availableAt else s.now;
    if row.claimUntil.Some? && row.claimUntil.value > due then row.claimUntil.value else due
  }

  /** Any head that is not dead-lettered can be delivered: wait for its lease, claim it, deliver, acknowledge. */
  lemma ServeHead(s: State, f: EventId) returns (steps: seq<Step>)
    requires RowsWellShaped(s) && f in s.rows && IsHead(s.rows, f)
    requires s.rows[f].deliveredAt.None? && s.rows[f].deadLetteredAt.None?
    ensures Legal(s, steps) && Served(s, f, After(s, steps))
  {
    var token := UnusedName(s.claims.Keys);
    var at := ServingTime(s, f);
    assert WellShaped(s.rows[f]);
    var waited := Next(s, Tick(at));
    var claim := ClaimNext(token, 1, s.rows.Keys - {f}, Some(f));
    assert Eligible(waited.rows, f, at);
    assert Enabled(waited, claim);
    var told := Next(Next(waited, claim), Deliver(token, true));
    assert Affects(told, token, Acknowledge);
    steps := [Tick(at), claim, Deliver(token, true), Settle(token, Acknowledge)];
    FourSteps(s, Tick(at), claim, Deliver(token, true), Settle(token, Acknowledge));
  }

  /** Without a dead letter from `e` on, some later event of the aggregate is an undelivered head, or can be inserted as one. */
  lemma SomeLaterHead(s: State, e: EventId) returns (steps: seq<Step>, f: EventId)
    requires Inv(s) && e in s.rows && s.rows[e].deliveredAt.Some?
    requires forall x | x in s.rows && Earlier(s.rows, e, x) :: s.rows[x].deadLetteredAt.None?
    ensures Legal(s, steps)
    ensures var s' := After(s, steps);
      && f in s'.rows && e in s'.rows && Earlier(s'.rows, e, f) && IsHead(s'.rows, f)
      && s'.rows[f].deliveredAt.None? && s'.rows[f].deadLetteredAt.None? && s'.claims == s.claims
  {
    var agg := s.rows[e].envelope.aggregate;
    if QueueOf(s, agg).pending != [] {
      steps, f := [], QueueOf(s, agg).pending[0];
      FrontIsHead(s, agg);
      Comparable(s, e, f);
      assert WellShaped(s.rows[e]) && IsHead(s.rows, e);
    } else {
      f := UnusedName(s.rows.Keys);
      var row;
      steps, row := InsertLast(s, agg, f);
      EmptyQueueMeansDelivered(s, agg);
    }
  }

  lemma EmptyQueueMeansDelivered(s: State, agg: Aggregate)
    requires LogMatchesTable(s) && QueueOf(s, agg).pending == []
    ensures forall x | x in Members(s.rows, agg) :: s.rows[x].deliveredAt.Some?
  {
    SelectElements(s.inserted, Waiting(s.rows, agg));
    forall x | x in Members(s.rows, agg)
      ensures s.rows[x].deliveredAt.Some?
    {
      assert x !in QueueOf(s, agg).pending;
    }
  }

  /** An aggregate can always be continued. */
  lemma InsertLast(s: State, agg: Aggregate, f: EventId) returns (steps: seq<Step>, row: Row)
    requires f !in s.rows
    ensures Legal(s, steps) && FreshRow(row) && row.envelope.aggregate == agg && Appends(s.rows, row)
    ensures After(s, steps) == s.(rows := s.rows[f := row], inserted := s.inserted + [f])
  {
    var used := set x | x in Members(s.rows, agg) :: Natural(s.rows[x].envelope.sequence);
    var n := UnusedName(used);
    row := Row(Envelope("", 1, agg, n + 1, 0, 1, Number(0)), 0, 0, None, None, None, None, None);
    forall x | x in s.rows && s.rows[x].envelope.aggregate == agg
      ensures s.rows[x].envelope.sequence < n + 1
    {
      assert Natural(s.rows[x].envelope.sequence) in used;
    }
    steps := [Insert(f, row)];
    assert Legal(Next(s, Insert(f, row)), []);
    assert steps[1..] == [];
  }

  function Natural(i: int): nat {
    if i < 0 then 0 else i
  }

  lemma HeadServedAfter(s: State, steps: seq<Step>, f: EventId) returns (all: seq<Step>)
    requires Inv(s) && Legal(s, steps)
    requires f in After(s, steps).rows && IsHead(After(s, steps).rows, f)
    requires After(s, steps).rows[f].deliveredAt.None? && After(s, steps).rows[f].deadLetteredAt.None?
    ensures Legal(s, all) && Served(After(s, steps), f, After(s, all))
  {
    RunKeepsInv(s, steps);
    var more := ServeHead(After(s, steps), f);
    RunsCompose(s, steps, more);
    all := steps + more;
  }

  /** A delivered event is passed by serving the next one. */
  lemma PassDelivered(s: State, token: Token) returns (steps: seq<Step>)
    requires Inv(s) && Outstanding(s, token)
    requires s.rows[s.claims[token].event].deliveredAt.Some?
    requires forall x | x in s.rows && Earlier(s.rows, s.claims[token].event, x) :: s.rows[x].deadLetteredAt.None?
    ensures Legal(s, steps) && OvertakenAt(After(s, steps), token)
  {
    var e := s.claims[token].event;
    var first, f := SomeLaterHead(s, e);
    steps := HeadServedAfter(s, first, f);
    var s' := After(s, steps);
    assert f in s'.accepted && Earlier(s'.rows, e, f);
  }

  lemma NoneLaterDeadLettered(s: State, e: EventId, s': State)
    requires RowsWellShaped(s) && ClaimsWellFormed(s) && OnlyHeadsClaimed(s)
    requires Served(s, e, s') && s.rows[e].deliveredAt.None?
    ensures forall x | x in s'.rows && Earlier(s'.rows, e, x) :: s'.rows[x].deadLetteredAt.None?
  {
    forall x | x in s'.rows && Earlier(s'.rows, e, x)
      ensures s'.rows[x].deadLetteredAt.None?
    {
      LaterThanUndelivered(s, e, x);
    }
  }

  /** An undelivered event is delivered under another token first. */
  lemma PassUndelivered(s: State, token: Token) returns (steps: seq<Step>)
    requires Inv(s) && Outstanding(s, token)
    requires s.rows[s.claims[token].event].deliveredAt.None? && s.rows[s.claims[token].event].deadLetteredAt.None?
    ensures Legal(s, steps) && OvertakenAt(After(s, steps), token)
  {
    var e := s.claims[token].event;
    var first := ServeHead(s, e);
    RunKeepsInv(s, first);
    NoneLaterDeadLettered(s, e, After(s, first));
    var more := PassDelivered(After(s, first), token);
    RunsCompose(s, first, more);
    steps := first + more;
  }

  /** A dead letter further on whose delivery is under way can still be accepted itself. */
  lemma PassByLateDeadLetter(s: State, token: Token, f: EventId) returns (steps: seq<Step>)
    requires ClaimsWellFormed(s) && Outstanding(s, token)
    requires f in s.rows && Earlier(s.rows, s.claims[token].event, f)
    requires s.rows[f].deadLetteredAt.Some? && f !in s.accepted && !Closed(s, f)
    ensures Legal(s, steps) && OvertakenAt(After(s, steps), token)
  {
    var u :| Outstanding(s, u) && s.claims[u].event == f;
    steps := [Deliver(u, true)];
    var s' := Next(s, Deliver(u, true));
    assert steps[1..] == [] && Legal(s', []);
    assert f in s'.accepted && Earlier(s'.rows, s.claims[token].event, f);
  }

  lemma Overtake(s: State, token: Token) returns (steps: seq<Step>)
    requires Inv(s) && Outstanding(s, token)
    requires s.rows[s.claims[token].event].deadLetteredAt.None?
    requires LaterAccepted(s, s.claims[token].event) || !ClosedLater(s, s.claims[token].event)
    ensures Legal(s, steps) && OvertakenAt(After(s, steps), token)
  {
    var e := s.claims[token].event;
    if LaterAccepted(s, e) {
      steps := [];
    } else if f :| f in s.rows && Earlier(s.rows, e, f) && s.rows[f].deadLetteredAt.Some? {
      steps := PassByLateDeadLetter(s, token, f);
    } else if s.rows[e].deliveredAt.Some? {
      steps := PassDelivered(s, token);
    } else {
      steps := PassUndelivered(s, token);
    }
  }

  /**
   * A delivery under way can be overtaken, and its acceptance then be out of
   * order, exactly when its event is not dead-lettered and either a later event
   * has been accepted already or none is a dead letter that can no longer be.
   */
  lemma OvertakingIsPossibleExactly(s: State, token: Token)
    requires Reachable(s) && Outstanding(s, token)
    ensures s.claims[token].event in s.rows
    ensures var e := s.claims[token].event;
      CanBeOvertaken(s, token) <==>
      s.rows[e].deadLetteredAt.None? && (LaterAccepted(s, e) || !ClosedLater(s, e))
  {
    var e := s.claims[token].event;
    ReachableHasInv(s);
    if s.rows[e].deadLetteredAt.None? && (LaterAccepted(s, e) || !ClosedLater(s, e)) {
      var steps := Overtake(s, token);
    } else {
      forall steps | Legal(s, steps)
        ensures !OvertakenAt(After(s, steps), token)
      {
        EventStands(s, steps, token);
        NeverOvertaken(s, steps, e);
      }
    }
  }

  lemma NeverOvertaken(s: State, steps: seq<Step>, e: EventId)
    requires Reachable(s) && Legal(s, steps) && e in s.rows
    requires s.rows[e].deadLetteredAt.Some? || (!LaterAccepted(s, e) && ClosedLater(s, e))
    ensures e in After(s, steps).rows && !LaterAccepted(After(s, steps), e)
  {
    if s.rows[e].deadLetteredAt.Some? {
      DeadLetterIsPermanentBarrier(s, steps, e);
      forall x | x in After(s, steps).rows && Earlier(After(s, steps).rows, e, x)
        ensures x !in After(s, steps).accepted
      {
        BarrierAgainstAcceptance(s, steps, e, x);
      }
    } else {
      var f :| f in s.rows && Earlier(s.rows, e, f) && Closed(s, f);
      ReachableHasInv(s);
      ClosedComesNext(s, e, f);
      NothingPassesClosed(s, steps, e, f);
    }
  }
}
