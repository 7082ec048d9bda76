/**
 * What every statement of the outbox protocol keeps, and therefore what holds
 * in every reachable state.
 */
module OutboxInvariant {
  import opened Wrappers
  import opened Outbox
  import opened OutboxLogs

  // -------------------------------------------------------------- the invariant

  /** The column discipline; in particular no row is both delivered and dead-lettered. */
  predicate WellShaped(row: Row) {
    && row.envelope.eventVersion > 0 && row.envelope.sequence > 0 && row.envelope.payloadSchemaVersion > 0
    && (row.claimedBy.Some? <==> row.claimUntil.Some?)
    && (row.deliveredAt.Some? || row.deadLetteredAt.Some? ==> row.claimedBy.None?)
    && !(row.deliveredAt.Some? && row.deadLetteredAt.Some?)
    && (row.deadLetteredAt.Some? <==> row.deadLetterReason.Some?)
    && (row.claimedBy.Some? || row.deliveredAt.Some? || row.deadLetteredAt.Some? ==> row.attemptCount > 0)
  }

  ghost predicate RowsWellShaped(s: State) {
    forall e | e in s.rows :: WellShaped(s.rows[e])
  }

  /** The visibility log lists every row once, each aggregate in increasing sequence. */
  ghost predicate LogMatchesTable(s: State) {
    && (forall e :: e in s.inserted <==> e in s.rows)
    && Increasing(s.rows, s.inserted)
  }

  ghost predicate ClaimsWellFormed(s: State) {
    forall t | t in s.claims ::
      var c := s.claims[t];
      && c.event in s.rows
      && c.from <= s.now
      && c.from < c.until
      && (c.settled.Some? ==> c.from <= c.settled.value.at < c.until && c.settled.value.at <= s.now)
  }

  /** The row's claim columns name exactly the one unsettled claim whose lease may still run. */
  ghost predicate OwnershipAgrees(s: State)
    requires ClaimsWellFormed(s)
  {
    && (forall e | e in s.rows && s.rows[e].claimedBy.Some? ::
          var t := s.rows[e].claimedBy.value;
          && t in s.claims
          && s.claims[t].event == e
          && s.claims[t].settled.None?
          && s.rows[e].claimUntil == Some(s.claims[t].until))
    && (forall t | t in s.claims ::
          s.claims[t].settled.None? && s.now < s.claims[t].until ==>
            s.rows[s.claims[t].event].claimedBy == Some(t))
  }

  /** No instant belongs to two claims of one event. */
  ghost predicate WindowsDisjoint(s: State) {
    forall t, u | t in s.claims && u in s.claims && t != u && s.claims[t].event == s.claims[u].event ::
      s.claims[t].End() <= s.claims[u].from || s.claims[u].End() <= s.claims[t].from
  }

  predicate SettledAs(c: Claim, acknowledged: bool) {
    c.settled.Some? && (if acknowledged then c.settled.value.verdict.Acknowledge?
                        else c.settled.value.verdict.DeadLetter?)
  }

  ghost predicate AcknowledgedOnce(s: State, e: EventId) {
    exists t :: t in s.claims && s.claims[t].event == e && SettledAs(s.claims[t], true)
  }

  /** A terminal settlement left its mark on the row, and no event was acknowledged twice. */
  ghost predicate VerdictsLasting(s: State)
    requires ClaimsWellFormed(s)
  {
    && (forall t | t in s.claims && SettledAs(s.claims[t], true) ::
          s.claims[t].phase.Accepted? && s.rows[s.claims[t].event].deliveredAt == Some(s.claims[t].settled.value.at))
    && (forall t | t in s.claims && SettledAs(s.claims[t], false) ::
          s.rows[s.claims[t].event].deadLetteredAt == Some(s.claims[t].settled.value.at))
    && (forall t, u | t in s.claims && u in s.claims && s.claims[t].event == s.claims[u].event ::
          SettledAs(s.claims[t], true) && SettledAs(s.claims[u], true) ==> t == u)
  }

  /** Nothing else marks a row delivered. */
  ghost predicate DeliveriesAcknowledged(s: State) {
    forall e | e in s.rows && s.rows[e].deliveredAt.Some? :: AcknowledgedOnce(s, e)
  }

  /** An acceptance is always on record before it can be persisted. */
  ghost predicate AcceptancesRecorded(s: State)
    requires ClaimsWellFormed(s)
  {
    && (forall e | e in s.accepted :: e in s.rows && s.rows[e].attemptCount > 0)
    && (forall t | t in s.claims && s.claims[t].phase.Accepted? :: s.claims[t].event in s.accepted)
    && (forall e | e in s.rows && s.rows[e].deliveredAt.Some? :: e in s.accepted)
  }

  /** Only heads are ever claimed, and a head stays one. */
  ghost predicate OnlyHeadsClaimed(s: State)
    requires ClaimsWellFormed(s)
  {
    && (forall t | t in s.claims :: IsHead(s.rows, s.claims[t].event))
    && (forall e | e in s.rows && s.rows[e].attemptCount > 0 :: IsHead(s.rows, e))
  }

  ghost function ClaimsOf(s: State, e: EventId): set<Token> {
    set t | t in s.claims && s.claims[t].event == e
  }

  ghost predicate AttemptsCounted(s: State) {
    forall e | e in s.rows :: s.rows[e].attemptCount == |ClaimsOf(s, e)|
  }

  ghost predicate Inv(s: State) {
    && RowsWellShaped(s)
    && LogMatchesTable(s)
    && ClaimsWellFormed(s)
    && OwnershipAgrees(s)
    && WindowsDisjoint(s)
    && VerdictsLasting(s)
    && DeliveriesAcknowledged(s)
    && AcceptancesRecorded(s)
    && OnlyHeadsClaimed(s)
    && AttemptsCounted(s)
  }

  /** Some run of the protocol from an empty table ends in this state. */
  ghost predicate Reachable(s: State) {
    exists now: Time, steps: seq<Step> :: Legal(Empty(now), steps) && s == After(Empty(now), steps)
  }

  // --------------------------------------------- what a table keeps from then on

  /** `b` may follow `a`: nothing delivered or dead-lettered is undone, envelopes stand, new rows come later. */
  ghost predicate Extends(a: Table, b: Table) {
    && (forall e | e in a :: e in b && a[e].envelope == b[e].envelope)
    && (forall e | e in a && e in b && a[e].deliveredAt.Some? :: b[e].deliveredAt == a[e].deliveredAt)
    && (forall e | e in a && e in b && WellShaped(a[e]) && a[e].deadLetteredAt.Some? :: b[e] == a[e])
    && (forall x, e | x in b && x !in a && e in a && e in b &&
          b[x].envelope.aggregate == b[e].envelope.aggregate :: Earlier(b, e, x))
  }

  lemma StepExtends(s: State, step: Step)
    requires Enabled(s, step)
    requires ClaimsWellFormed(s)
    ensures Extends(s.rows, Next(s, step).rows)
  {
  }

  lemma ExtendsIsTransitive(a: Table, b: Table, c: Table)
    requires Extends(a, b) && Extends(b, c)
    ensures Extends(a, c)
  {
    forall x, e | x in c && x !in a && e in a && e in c && c[x].envelope.aggregate == c[e].envelope.aggregate
      ensures Earlier(c, e, x)
    {
      assert e in b;
      if x in b {
        assert b[x].envelope.aggregate == b[e].envelope.aggregate;
      }
    }
  }

  /** The test of earlier rows, once passed, never fails again. */
  lemma HeadsStayHeads(a: Table, b: Table, e: EventId)
    requires Extends(a, b)
    requires e in a && IsHead(a, e)
    ensures IsHead(b, e)
  {
    forall x | x in b && Earlier(b, x, e)
      ensures b[x].deliveredAt.Some?
    {
      if x in a {
        assert Earlier(a, x, e);
      }
    }
  }

  // ------------------------------------------------------ each conjunct is kept

  lemma ShapesKept(s: State, step: Step)
    requires RowsWellShaped(s) && Enabled(s, step)
    ensures RowsWellShaped(Next(s, step))
  {
    var s' := Next(s, step);
    forall e | e in s'.rows
      ensures WellShaped(s'.rows[e])
    {
      if e in s.rows {
        assert WellShaped(s.rows[e]);
      }
    }
  }

  lemma LogKept(s: State, step: Step)
    requires LogMatchesTable(s) && ClaimsWellFormed(s) && Enabled(s, step)
    ensures LogMatchesTable(Next(s, step))
  {
    if step.Insert? {
      AppendingKeepsLog(s, step.event, step.row);
    } else {
      EnvelopesStand(s, step);
    }
  }

  lemma EnvelopesStand(s: State, step: Step)
    requires ClaimsWellFormed(s) && Enabled(s, step) && !step.Insert?
    ensures Next(s, step).inserted == s.inserted
    ensures Next(s, step).rows.Keys == s.rows.Keys
    ensures forall e | e in s.rows :: Next(s, step).rows[e].envelope == s.rows[e].envelope
  {
  }

  lemma AppendingKeepsLog(s: State, e: EventId, row: Row)
    requires LogMatchesTable(s) && e !in s.rows && Appends(s.rows, row)
    ensures LogMatchesTable(s.(rows := s.rows[e := row], inserted := s.inserted + [e]))
  {
    var rows, log := s.rows[e := row], s.inserted + [e];
    forall i, j | 0 <= i < j < |log|
      ensures Before(rows, log[i], log[j])
    {
      assert log[i] in s.inserted;
      if j < |s.inserted| {
        assert log[j] == s.inserted[j];
      }
    }
  }

  lemma ClaimsKept(s: State, step: Step)
    requires ClaimsWellFormed(s) && OwnershipAgrees(s) && Enabled(s, step)
    ensures ClaimsWellFormed(Next(s, step))
  {
  }

  lemma OwnershipKept(s: State, step: Step)
    requires ClaimsWellFormed(s) && OwnershipAgrees(s) && Enabled(s, step)
    requires ClaimsWellFormed(Next(s, step))
    ensures OwnershipAgrees(Next(s, step))
  {
    if step.Settle? {
      SettlingKeepsOwnership(s, step);
    } else if step.ClaimNext? {
      ClaimingKeepsOwnership(s, step);
    }
  }

  lemma SettlingKeepsOwnership(s: State, step: Step)
    requires ClaimsWellFormed(s) && OwnershipAgrees(s) && Enabled(s, step)
    requires step.Settle? && ClaimsWellFormed(Next(s, step))
    ensures OwnershipAgrees(Next(s, step))
  {
  }

  lemma ClaimingKeepsOwnership(s: State, step: Step)
    requires ClaimsWellFormed(s) && OwnershipAgrees(s) && Enabled(s, step)
    requires step.ClaimNext? && ClaimsWellFormed(Next(s, step))
    ensures OwnershipAgrees(Next(s, step))
  {
  }

  /** A claimable row has no open window. */
  lemma ClaimableMeansClosed(s: State, e: EventId, t: Token)
    requires ClaimsWellFormed(s) && OwnershipAgrees(s)
    requires Eligible(s.rows, e, s.now)
    requires t in s.claims && s.claims[t].event == e
    ensures s.claims[t].End() <= s.now
  {
    assert OwnRowClaimable(s.rows[e], s.now);
  }

  /** Windows only ever shrink, and a claim starts where every earlier window of its event has closed. */
  lemma WindowsKept(s: State, step: Step)
    requires ClaimsWellFormed(s) && OwnershipAgrees(s) && WindowsDisjoint(s) && Enabled(s, step)
    ensures WindowsDisjoint(Next(s, step))
  {
    var s' := Next(s, step);
    forall t | t in s'.claims && t in s.claims
      ensures && s'.claims[t].event == s.claims[t].event
              && s'.claims[t].from == s.claims[t].from
              && s'.claims[t].End() <= s.claims[t].End()
    {
      WindowShrinks(s, step, t);
    }
    forall t, u | t in s'.claims && u in s'.claims && t != u && s'.claims[t].event == s'.claims[u].event
      ensures s'.claims[t].End() <= s'.claims[u].from || s'.claims[u].End() <= s'.claims[t].from
    {
      if t in s.claims && u in s.claims {
      } else if t in s.claims {
        ClaimableMeansClosed(s, s.claims[t].event, t);
      } else if u in s.claims {
        ClaimableMeansClosed(s, s.claims[u].event, u);
      }
    }
  }

  lemma WindowShrinks(s: State, step: Step, t: Token)
    requires ClaimsWellFormed(s) && OwnershipAgrees(s) && Enabled(s, step) && t in s.claims
    ensures t in Next(s, step).claims
    ensures var c, c' := s.claims[t], Next(s, step).claims[t];
      c'.event == c.event && c'.from == c.from && c'.End() <= c.End()
  {
    if step.Settle? && step.token == t && Affects(s, t, step.verdict) {
      assert s.rows[s.claims[t].event].claimUntil == Some(s.claims[t].until);
    }
  }

  lemma VerdictsKept(s: State, step: Step)
    requires RowsWellShaped(s) && ClaimsWellFormed(s) && OwnershipAgrees(s) && VerdictsLasting(s) && Enabled(s, step)
    requires ClaimsWellFormed(Next(s, step))
    ensures VerdictsLasting(Next(s, step))
  {
    if step.Settle? {
      SettlingKeepsVerdicts(s, step);
    } else if step.ClaimNext? {
      ClaimingKeepsVerdicts(s, step);
    }
  }

  lemma ClaimingKeepsVerdicts(s: State, step: Step)
    requires ClaimsWellFormed(s) && VerdictsLasting(s) && Enabled(s, step)
    requires step.ClaimNext? && ClaimsWellFormed(Next(s, step))
    ensures VerdictsLasting(Next(s, step))
  {
  }

  lemma SettlingKeepsVerdicts(s: State, step: Step)
    requires RowsWellShaped(s) && ClaimsWellFormed(s) && VerdictsLasting(s) && Enabled(s, step)
    requires step.Settle? && ClaimsWellFormed(Next(s, step))
    ensures VerdictsLasting(Next(s, step))
  {
    if Affects(s, step.token, step.verdict) {
      UnsettledUntilNow(s, step.token, step.verdict);
    }
  }

  /** The event being settled has no terminal settlement yet. */
  lemma UnsettledUntilNow(s: State, token: Token, verdict: Verdict)
    requires RowsWellShaped(s) && ClaimsWellFormed(s) && VerdictsLasting(s)
    requires token in s.claims && Affects(s, token, verdict)
    ensures forall t | t in s.claims && s.claims[t].event == s.claims[token].event ::
              !SettledAs(s.claims[t], true) && !SettledAs(s.claims[t], false)
  {
    assert WellShaped(s.rows[s.claims[token].event]);
  }

  lemma DeliveriesKept(s: State, step: Step)
    requires ClaimsWellFormed(s) && DeliveriesAcknowledged(s) && Enabled(s, step)
    requires VerdictsLasting(s)
    ensures DeliveriesAcknowledged(Next(s, step))
  {
    var s' := Next(s, step);
    forall e | e in s'.rows && s'.rows[e].deliveredAt.Some?
      ensures AcknowledgedOnce(s', e)
    {
      if e in s.rows && s.rows[e].deliveredAt.Some? {
        assert AcknowledgedOnce(s, e);
        var t :| t in s.claims && s.claims[t].event == e && SettledAs(s.claims[t], true);
        assert t in s'.claims && s'.claims[t].event == e && SettledAs(s'.claims[t], true);
      } else {
        assert s'.claims[step.token].event == e && SettledAs(s'.claims[step.token], true);
      }
    }
  }

  lemma AcceptancesKept(s: State, step: Step)
    requires ClaimsWellFormed(s) && AttemptsCounted(s) && AcceptancesRecorded(s) && Enabled(s, step)
    requires ClaimsWellFormed(Next(s, step))
    ensures AcceptancesRecorded(Next(s, step))
  {
    var s' := Next(s, step);
    forall e | e in s'.accepted
      ensures e in s'.rows && s'.rows[e].attemptCount > 0
    {
      AcceptedWasAttempted(s, step, e);
    }
    forall t | t in s'.claims && s'.claims[t].phase.Accepted?
      ensures s'.claims[t].event in s'.accepted
    {
      AcceptedClaimIsLogged(s, step, t);
    }
    forall e | e in s'.rows && s'.rows[e].deliveredAt.Some?
      ensures e in s'.accepted
    {
      DeliveredIsLogged(s, step, e);
    }
  }

  lemma AcceptedClaimIsLogged(s: State, step: Step, t: Token)
    requires ClaimsWellFormed(s) && AcceptancesRecorded(s) && Enabled(s, step)
    requires t in Next(s, step).claims && Next(s, step).claims[t].phase.Accepted?
    ensures Next(s, step).claims[t].event in Next(s, step).accepted
  {
  }

  lemma DeliveredIsLogged(s: State, step: Step, e: EventId)
    requires ClaimsWellFormed(s) && AcceptancesRecorded(s) && Enabled(s, step)
    requires e in Next(s, step).rows && Next(s, step).rows[e].deliveredAt.Some?
    ensures e in Next(s, step).accepted
  {
  }

  lemma AcceptedWasAttempted(s: State, step: Step, e: EventId)
    requires ClaimsWellFormed(s) && AttemptsCounted(s) && AcceptancesRecorded(s) && Enabled(s, step)
    requires e in Next(s, step).accepted
    ensures e in Next(s, step).rows && Next(s, step).rows[e].attemptCount > 0
  {
    if e !in s.accepted {
      assert step.token in ClaimsOf(s, e);
    }
  }

  lemma HeadsKept(s: State, step: Step)
    requires ClaimsWellFormed(s) && OnlyHeadsClaimed(s) && Enabled(s, step)
    requires ClaimsWellFormed(Next(s, step))
    ensures OnlyHeadsClaimed(Next(s, step))
  {
    var s' := Next(s, step);
    StepExtends(s, step);
    forall t | t in s'.claims
      ensures IsHead(s'.rows, s'.claims[t].event)
    {
      ClaimedWasHead(s, step, t);
      HeadsStayHeads(s.rows, s'.rows, s'.claims[t].event);
    }
    forall e | e in s'.rows && s'.rows[e].attemptCount > 0
      ensures IsHead(s'.rows, e)
    {
      AttemptedWasHead(s, step, e);
      HeadsStayHeads(s.rows, s'.rows, e);
    }
  }

  lemma ClaimedWasHead(s: State, step: Step, t: Token)
    requires ClaimsWellFormed(s) && OnlyHeadsClaimed(s) && Enabled(s, step)
    requires t in Next(s, step).claims
    ensures var e := Next(s, step).claims[t].event;
      e in s.rows && IsHead(s.rows, e)
  {
  }

  lemma AttemptedWasHead(s: State, step: Step, e: EventId)
    requires ClaimsWellFormed(s) && OnlyHeadsClaimed(s) && Enabled(s, step)
    requires e in Next(s, step).rows && Next(s, step).rows[e].attemptCount > 0
    ensures e in s.rows && IsHead(s.rows, e)
  {
  }

  lemma AttemptsKept(s: State, step: Step)
    requires ClaimsWellFormed(s) && AttemptsCounted(s) && Enabled(s, step)
    ensures AttemptsCounted(Next(s, step))
  {
    forall e | e in Next(s, step).rows
      ensures Next(s, step).rows[e].attemptCount == |ClaimsOf(Next(s, step), e)|
    {
      AttemptCountKept(s, step, e);
    }
  }

  lemma AttemptCountKept(s: State, step: Step, e: EventId)
    requires ClaimsWellFormed(s) && Enabled(s, step)
    requires e in s.rows ==> s.rows[e].attemptCount == |ClaimsOf(s, e)|
    requires e in Next(s, step).rows
    ensures Next(s, step).rows[e].attemptCount == |ClaimsOf(Next(s, step), e)|
  {
    ClaimsAfter(s, step, e);
    if step.ClaimNext? && step.chosen == Some(e) {
      assert step.token !in ClaimsOf(s, e);
    } else if e !in s.rows {
      assert ClaimsOf(s, e) == {};
    }
  }

  lemma ClaimsAfter(s: State, step: Step, e: EventId)
    requires Enabled(s, step)
    ensures ClaimsOf(Next(s, step), e) ==
            if step.ClaimNext? && step.chosen == Some(e) then ClaimsOf(s, e) + {step.token} else ClaimsOf(s, e)
  {
  }

  // ------------------------------------------------------------- every state of a run

  lemma EmptyHasInv(now: Time)
    ensures Inv(Empty(now))
  {
  }

  lemma StepKeepsInv(s: State, step: Step)
    requires Inv(s) && Enabled(s, step)
    ensures Inv(Next(s, step))
  {
    ShapesKept(s, step);
    LogKept(s, step);
    ClaimsKept(s, step);
    OwnershipKept(s, step);
    WindowsKept(s, step);
    VerdictsKept(s, step);
    DeliveriesKept(s, step);
    AcceptancesKept(s, step);
    HeadsKept(s, step);
    AttemptsKept(s, step);
  }

  lemma {:induction false} RunKeepsInv(s: State, steps: seq<Step>)
    requires Inv(s) && Legal(s, steps)
    ensures Inv(After(s, steps))
    ensures Extends(s.rows, After(s, steps).rows)
    decreases |steps|
  {
    if steps != [] {
      StepKeepsInv(s, steps[0]);
      StepExtends(s, steps[0]);
      RunKeepsInv(Next(s, steps[0]), steps[1..]);
      ExtendsIsTransitive(s.rows, Next(s, steps[0]).rows, After(s, steps).rows);
    }
  }

  lemma ReachableHasInv(s: State)
    requires Reachable(s)
    ensures Inv(s)
  {
    var now: Time, steps: seq<Step> :| Legal(Empty(now), steps) && s == After(Empty(now), steps);
    EmptyHasInv(now);
    RunKeepsInv(Empty(now), steps);
  }

  lemma ReachableExtends(s: State, steps: seq<Step>)
    requires Reachable(s) && Legal(s, steps)
    ensures Reachable(After(s, steps))
  {
    var now: Time, before: seq<Step> :| Legal(Empty(now), before) && s == After(Empty(now), before);
    RunsCompose(Empty(now), before, steps);
  }
}
