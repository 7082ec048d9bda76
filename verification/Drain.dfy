/** What one call of the worker program achieves, and how a lone worker empties the outbox. */
module Drain {
  import opened Wrappers
  import opened Outbox
  import opened OutboxLogs
  import opened OutboxInvariant
  import opened OutboxOrder
  import opened OutboxQueue
  import opened Delivery
  import opened Dispatcher

  ghost predicate ReachableSystem(sys: System) {
    exists now: Time, moves: seq<Move> :: LegalMoves(Start(now), moves) && sys == AfterMoves(Start(now), moves)
  }

  lemma {:induction false} MovesKeepInv(sys: System, moves: seq<Move>)
    requires Inv(sys.outbox) && LegalMoves(sys, moves)
    ensures Inv(AfterMoves(sys, moves).outbox)
    decreases |moves|
  {
    if moves != [] {
      MoveKeepsInv(sys, moves[0]);
      MovesKeepInv(MoveNext(sys, moves[0]), moves[1..]);
    }
  }

  lemma MoveKeepsInv(sys: System, move: Move)
    requires Inv(sys.outbox) && MoveEnabled(sys, move)
    ensures Inv(MoveNext(sys, move).outbox)
  {
    match move
    case Perform(step) => StepKeepsInv(sys.outbox, step);
    case DeliverElsewhere(token, ok) => StepKeepsInv(sys.outbox, Deliver(token, ok));
    case RejectNext(_) =>
  }

  lemma ReachableKeepsInv(sys: System)
    requires ReachableSystem(sys)
    ensures Inv(sys.outbox)
  {
    var now: Time, moves: seq<Move> :| LegalMoves(Start(now), moves) && sys == AfterMoves(Start(now), moves);
    EmptyHasInv(now);
    MovesKeepInv(Start(now), moves);
  }

  // --------------------------------------------------------------------- one call

  /** Delivers or settles under this token. */
  ghost predicate ActsFor(move: Move, token: Token) {
    || (move.DeliverElsewhere? && move.token == token)
    || (move.Perform? && (move.step.Deliver? || move.step.Settle?) && move.step.token == token)
  }

  /** Others are free: what they attempt happens in full whenever it is legal and does not act for this call. */
  lemma {:induction false} OthersAreFree(sys: System, mine: Token, moves: seq<Move>)
    requires mine in sys.outbox.claims && LegalMoves(sys, moves)
    requires forall move | move in moves :: !ActsFor(move, mine)
    ensures Performed(sys, mine, moves) == moves
    decreases |moves|
  {
    if moves != [] {
      assert moves[0] in moves && Foreign(mine, moves[0]);
      ClaimSurvives(sys, mine, moves[0]);
      OthersAreFree(MoveNext(sys, moves[0]), mine, moves[1..]);
      assert [moves[0]] + moves[1..] == moves;
    }
  }

  lemma ClaimSurvives(sys: System, mine: Token, move: Move)
    requires mine in sys.outbox.claims && MoveEnabled(sys, move)
    ensures mine in MoveNext(sys, move).outbox.claims
  {
  }

  /** What the delivery port answers to a call. */
  ghost function Answer(sys: System, call: Call): Result<(), string>
    requires Delivers(sys, call)
  {
    match call.port
    case Shared =>
      if AtDelivery(sys, call).inbox.failuresRemaining == 0 then Ok(()) else Err("deliberate in-process rejection")
    case Other(given) => given
  }

  lemma AnswerDecides(sys: System, call: Call)
    requires Delivers(sys, call)
    ensures Accepts(sys, call) <==> Answer(sys, call).Ok?
    ensures Answer(sys, call).Err? ==> call.Refusal() == Answer(sys, call).error
  {
  }

  /**
   * Against any interference a call loses its lease exactly when the clock has
   * reached the deadline; otherwise it persists what its port answered.
   */
  lemma OutcomeIsDecidedByTheClock(sys: System, call: Call)
    requires ReachableSystem(sys) && Delivers(sys, call) && call.fault.None?
    ensures var end := AtSettlement(sys, call);
      var deadline := sys.outbox.now + call.leaseSeconds * SECOND;
      Outcome(sys, call) == Ok(
        if end.outbox.now >= deadline then LeaseLost(call.chosen.value)
        else match Answer(sys, call)
          case Ok(_) => DispatchOutcome.Delivered(call.chosen.value)
          case Err(reason) => DispatchOutcome.Rejected(call.chosen.value, reason))
  {
    SettlementMeetsInv(sys, call);
    LeaseStands(sys, call);
    AnswerDecides(sys, call);
    OpenClaimAffects(AtSettlement(sys, call).outbox, call.token, SettleMove(sys, call).step.verdict);
  }

  /** What an outcome means for the row of `e`, from the state the settlement met to the end of the call. */
  ghost predicate ShowsOnTheRow(outcome: DispatchOutcome, before: State, end: State, e: EventId) {
    && e in before.rows && end.now == before.now && end.accepted == before.accepted
    && match outcome
       case Delivered(d) =>
         && d == e && e in end.accepted
         && end.rows == before.rows[e := before.rows[e].(deliveredAt := Some(end.now), claimedBy := None, claimUntil := None)]
       case Rejected(d, _) =>
         && d == e
         && end.rows == before.rows[e := before.rows[e].(availableAt := end.now, claimedBy := None, claimUntil := None)]
       case LeaseLost(d) => d == e && end.rows == before.rows
       case NoEligibleEvent => false
  }

  lemma SettlementShows(s: State, token: Token, ok: bool, reason: string)
    requires ClaimsWellFormed(s) && AcceptancesRecorded(s) && token in s.claims && (ok ==> s.claims[token].phase.Accepted?)
    ensures var e, verdict := s.claims[token].event, if ok then Acknowledge else Release;
      ShowsOnTheRow(
        if !Affects(s, token, verdict) then LeaseLost(e)
        else if ok then DispatchOutcome.Delivered(e) else DispatchOutcome.Rejected(e, reason),
        s, Next(s, Settle(token, verdict)), e)
  {
  }

  lemma CallEndsIn(sys: System, call: Call)
    requires Delivers(sys, call) && call.fault.None?
    ensures var before, verdict := AtSettlement(sys, call).outbox, if Accepts(sys, call) then Acknowledge else Release;
      && Enabled(before, Settle(call.token, verdict))
      && AfterMoves(sys, Script(sys, call)).outbox == Next(before, Settle(call.token, verdict))
  {
    ScriptEnds(sys, call);
  }

  lemma OutcomeBySettlement(sys: System, call: Call, before: State)
    requires Delivers(sys, call) && call.fault.None? && before == AtSettlement(sys, call).outbox
    requires call.token in before.claims
    ensures var e, ok := call.chosen.value, Accepts(sys, call);
      Outcome(sys, call) == Ok(
        if !Affects(before, call.token, if ok then Acknowledge else Release) then LeaseLost(e)
        else if ok then DispatchOutcome.Delivered(e) else DispatchOutcome.Rejected(e, call.Refusal()))
  {
  }

  /** A call that reports an outcome has left its row as the outcome says, and no other row changed with it. */
  lemma OutcomeOnTheRow(sys: System, call: Call, before: State, end: State)
    requires ReachableSystem(sys) && Delivers(sys, call) && call.fault.None?
    requires before == AtSettlement(sys, call).outbox && end == AfterMoves(sys, Script(sys, call)).outbox
    ensures Outcome(sys, call).Ok? && ShowsOnTheRow(Outcome(sys, call).value, before, end, call.chosen.value)
  {
    SettlementMeetsInv(sys, call);
    CallEndsIn(sys, call);
    ClaimKeepsEvent(sys, call);
    OutcomeBySettlement(sys, call, before);
    SettlementShows(before, call.token, Accepts(sys, call), call.Refusal());
  }

  /** A call without a database error finds no event exactly when no unlocked row is eligible. */
  lemma NoEventExactly(sys: System, call: Call)
    requires CallEnabled(sys, call) && call.fault.None?
    ensures Outcome(sys, call) == Ok(NoEligibleEvent) <==>
            forall x | x in sys.outbox.rows && x !in call.locked :: !Eligible(sys.outbox.rows, x, sys.outbox.now)
    ensures Outcome(sys, call) == Ok(NoEligibleEvent) ==> AfterMoves(sys, Script(sys, call)).outbox == sys.outbox
  {
    if call.chosen.None? {
      OneMove(sys, call.ClaimMove());
    } else {
      assert Eligible(sys.outbox.rows, call.chosen.value, sys.outbox.now);
    }
  }

  /**
   * A database error ends the call where it happened: nothing is undone, nothing
   * further is done, and the failing statement counts exactly when it took effect.
   */
  lemma FaultsLeave(sys: System, call: Call)
    requires CallEnabled(sys, call) && call.fault.Some?
    ensures var end := AfterMoves(sys, Script(sys, call));
      match call.fault.value
      case Claiming(took) =>
        && Outcome(sys, call) == Err(DispatchError(Claiming(took)))
        && end == if took then MoveNext(sys, call.ClaimMove()) else sys
      case Settling(took) =>
        if call.chosen.None? then Outcome(sys, call) == Ok(NoEligibleEvent) && end.outbox == sys.outbox
        else
          && Outcome(sys, call) == Err(DispatchError(Settling(took)))
          && var before := AtSettlement(sys, call);
             end == if took then MoveNext(before, SettleMove(sys, call)) else before
  {
    if Delivers(sys, call) {
      ScriptEnds(sys, call);
    } else {
      OneMove(sys, call.ClaimMove());
    }
  }

  lemma SettlementMeetsInv(sys: System, call: Call)
    requires ReachableSystem(sys) && Delivers(sys, call)
    ensures Inv(AtSettlement(sys, call).outbox)
  {
    ReachableKeepsInv(sys);
    MovesKeepInv(sys, Approach(sys, call));
  }

  lemma ClaimKeepsEvent(sys: System, call: Call)
    requires Delivers(sys, call)
    ensures var s := AtSettlement(sys, call).outbox;
      && call.token in s.claims && s.claims[call.token].event == call.chosen.value
      && (s.claims[call.token].phase.Accepted? <==> Accepts(sys, call))
  {
  }

  lemma LeaseStands(sys: System, call: Call)
    requires Delivers(sys, call)
    ensures var end := AtSettlement(sys, call).outbox;
      && call.token in end.claims
      && end.claims[call.token].settled.None?
      && end.claims[call.token].until == sys.outbox.now + call.leaseSeconds * SECOND
  {
  }

  lemma OpenClaimAffects(s: State, token: Token, verdict: Verdict)
    requires Inv(s) && token in s.claims && s.claims[token].settled.None?
    ensures Affects(s, token, verdict) <==> s.now < s.claims[token].until
  {
    assert WellShaped(s.rows[s.claims[token].event]);
  }

  // ---------------------------------------------------------------- a lone worker

  /** A call nobody interferes with, whose delivery takes until `done`. */
  function Alone(token: Token, leaseSeconds: nat, chosen: Option<EventId>, done: Time): Call {
    Call(token, leaseSeconds, {}, chosen, Shared, [], [Perform(Tick(done))], None)
  }

  function Finished(sys: System, call: Call): System
    requires CallEnabled(sys, call)
  {
    AfterMoves(sys, Script(sys, call))
  }

  function Unresolved(rows: Table): set<EventId> {
    set e | e in rows && rows[e].deliveredAt.None?
  }

  function Remaining(sys: System): nat {
    |Unresolved(sys.outbox.rows)| + sys.inbox.failuresRemaining
  }

  /** Every unresolved row is available, unleased and not quarantined. */
  predicate Startable(s: State) {
    forall e | e in Unresolved(s.rows) ::
      && s.rows[e].deadLetteredAt.None?
      && s.rows[e].availableAt <= s.now
      && (s.rows[e].claimedBy.None? || (s.rows[e].claimUntil.Some? && s.rows[e].claimUntil.value <= s.now))
  }

  /** While anything is unresolved, something can be claimed. */
  lemma UnresolvedMeansEligible(s: State, e: EventId)
    requires Inv(s) && Startable(s) && e in Unresolved(s.rows)
    ensures !IsCandidate(s.rows, s.now, {}, None)
  {
    var agg := s.rows[e].envelope.aggregate;
    SelectElements(s.inserted, Waiting(s.rows, agg));
    assert e in QueueOf(s, agg).pending;
    FrontIsHead(s, agg);
    assert Eligible(s.rows, QueueOf(s, agg).pending[0], s.now);
  }

  /** The states of a call nobody interferes with. */
  lemma AloneUnfolds(sys: System, call: Call, done: Time)
    requires call == Alone(call.token, call.leaseSeconds, call.chosen, done)
    requires CallEnabled(sys, call) && call.chosen.Some? && sys.outbox.now <= done
    ensures var leased := MoveNext(sys, call.ClaimMove());
      && AtDelivery(sys, call) == leased
      && AtSettlement(sys, call) == MoveNext(MoveNext(leased, DeliverMove(sys, call)), Perform(Tick(done)))
      && Finished(sys, call) == MoveNext(AtSettlement(sys, call), SettleMove(sys, call))
  {
    ScriptEnds(sys, call);
    var told := MoveNext(AtDelivery(sys, call), DeliverMove(sys, call));
    assert Performed(MoveNext(told, Perform(Tick(done))), call.token, []) == [];
    assert Performed(told, call.token, [Perform(Tick(done))]) == [Perform(Tick(done))];
    OneMove(told, Perform(Tick(done)));
  }

  /** The table after a lone call that kept its lease. */
  lemma AloneRewritesOneRow(sys: System, call: Call, done: Time)
    requires CallEnabled(sys, call) && call.chosen.Some?
    requires call == Alone(call.token, call.leaseSeconds, call.chosen, done)
    requires sys.outbox.now <= done < sys.outbox.now + call.leaseSeconds * SECOND
    ensures var e, ok := call.chosen.value, sys.inbox.failuresRemaining == 0;
      var until := sys.outbox.now + call.leaseSeconds * SECOND;
      && e in sys.outbox.rows
      && Finished(sys, call).outbox.now == done
      && Finished(sys, call).outbox.rows == sys.outbox.rows[
           e := SettledRow(ClaimedRow(sys.outbox.rows[e], call.token, until), if ok then Acknowledge else Release, done)]
      && Finished(sys, call).inbox.failuresRemaining ==
           (if ok then 0 else sys.inbox.failuresRemaining - 1)
  {
    AloneUnfolds(sys, call, done);
    AloneAtSettlement(sys, call, done);
    var e, end, verdict := call.chosen.value, AtSettlement(sys, call).outbox, SettleMove(sys, call).step.verdict;
    assert Affects(end, call.token, verdict);
    var row := SettledRow(end.rows[e], verdict, done);
    assert end.rows[e := row] == sys.outbox.rows[e := row];
  }

  lemma AloneAtSettlement(sys: System, call: Call, done: Time)
    requires CallEnabled(sys, call) && call.chosen.Some?
    requires call == Alone(call.token, call.leaseSeconds, call.chosen, done)
    requires sys.outbox.now <= done
    ensures var e, end := call.chosen.value, AtSettlement(sys, call);
      && e in sys.outbox.rows
      && end.outbox.now == done
      && end.outbox.rows == sys.outbox.rows[
           e := ClaimedRow(sys.outbox.rows[e], call.token, sys.outbox.now + call.leaseSeconds * SECOND)]
      && call.token in end.outbox.claims && end.outbox.claims[call.token].event == e
      && SettleMove(sys, call) == Perform(Settle(call.token, if sys.inbox.failuresRemaining == 0 then Acknowledge else Release))
      && end.inbox.failuresRemaining ==
           (if sys.inbox.failuresRemaining == 0 then 0 else sys.inbox.failuresRemaining - 1)
  {
    AloneUnfolds(sys, call, done);
  }

  lemma OneRowResolved(s: State, s': State, e: EventId, leased: Row, ok: bool)
    requires Startable(s) && e in Unresolved(s.rows) && s.now <= s'.now
    requires leased.deliveredAt.None? && leased.deadLetteredAt.None?
    requires s'.rows == s.rows[e := SettledRow(leased, if ok then Acknowledge else Release, s'.now)]
    ensures Startable(s')
    ensures |Unresolved(s'.rows)| == |Unresolved(s.rows)| - if ok then 1 else 0
    ensures !ok ==> Unresolved(s'.rows) != {}
  {
    if ok {
      assert Unresolved(s'.rows) == Unresolved(s.rows) - {e};
    } else {
      assert Unresolved(s'.rows) == Unresolved(s.rows);
    }
  }

  lemma IdleCallChangesNothing(sys: System, call: Call, done: Time)
    requires LoneCall(sys, call, done) && call.chosen.None?
    ensures Finished(sys, call) == sys
  {
    OneMove(sys, call.ClaimMove());
  }

  /** A call that finds an event resolves one row or uses up one deliberate failure, never both. */
  lemma BusyCallLowersRemaining(sys: System, call: Call, done: Time)
    requires Startable(sys.outbox) && LoneCall(sys, call, done) && call.chosen.Some?
    ensures Startable(Finished(sys, call).outbox)
    ensures Remaining(Finished(sys, call)) == Remaining(sys) - 1
    ensures Unresolved(Finished(sys, call).outbox.rows) == {} ==> Finished(sys, call).inbox.failuresRemaining == 0
  {
    AloneRewritesOneRow(sys, call, done);
    var until := sys.outbox.now + call.leaseSeconds * SECOND;
    OneRowResolved(sys.outbox, Finished(sys, call).outbox, call.chosen.value,
      ClaimedRow(sys.outbox.rows[call.chosen.value], call.token, until), sys.inbox.failuresRemaining == 0);
  }

  /** One lone call finds nothing exactly when all is delivered, and otherwise does one piece of the work. */
  lemma CallLowersRemaining(sys: System, call: Call, done: Time)
    requires Inv(sys.outbox) && Startable(sys.outbox) && LoneCall(sys, call, done)
    ensures Inv(Finished(sys, call).outbox) && Startable(Finished(sys, call).outbox)
    ensures call.chosen.None? <==> Unresolved(sys.outbox.rows) == {}
    ensures call.chosen.None? ==> Finished(sys, call) == sys
    ensures call.chosen.Some? ==> Remaining(Finished(sys, call)) == Remaining(sys) - 1
    ensures call.chosen.Some? && Unresolved(Finished(sys, call).outbox.rows) == {} ==>
              Finished(sys, call).inbox.failuresRemaining == 0
  {
    MovesKeepInv(sys, Script(sys, call));
    NothingLeftMeansResolved(sys.outbox);
    if call.chosen.Some? {
      BusyCallLowersRemaining(sys, call, done);
    } else {
      IdleCallChangesNothing(sys, call, done);
    }
  }

  lemma NothingLeftMeansResolved(s: State)
    requires Inv(s) && Startable(s)
    ensures IsCandidate(s.rows, s.now, {}, None) <==> Unresolved(s.rows) == {}
  {
    if e :| e in Unresolved(s.rows) {
      UnresolvedMeansEligible(s, e);
    }
  }

  /** A call nobody interferes with, finishing inside its lease. */
  predicate LoneCall(sys: System, call: Call, done: Time) {
    && CallEnabled(sys, call)
    && call == Alone(call.token, call.leaseSeconds, call.chosen, done)
    && sys.outbox.now <= done < sys.outbox.now + call.leaseSeconds * SECOND
  }

  predicate LoneCalls(sys: System, calls: seq<(Call, Time)>)
    decreases |calls|
  {
    calls == [] || (LoneCall(sys, calls[0].0, calls[0].1) && LoneCalls(Finished(sys, calls[0].0), calls[1..]))
  }

  function AfterCalls(sys: System, calls: seq<(Call, Time)>): System
    requires LoneCalls(sys, calls)
    decreases |calls|
  {
    if calls == [] then sys else AfterCalls(Finished(sys, calls[0].0), calls[1..])
  }

  /** `n` pieces of work later: as startable as before, and finished in both respects if in one. */
  ghost predicate Advanced(sys: System, end: System, n: nat) {
    && Inv(end.outbox) && Startable(end.outbox)
    && Remaining(end) == Remaining(sys) - n
    && (n > 0 && Unresolved(end.outbox.rows) == {} ==> end.inbox.failuresRemaining == 0)
  }

  lemma AdvancesAgain(sys: System, mid: System, end: System, n: nat)
    requires Advanced(sys, mid, 1) && Advanced(mid, end, n) && (n == 0 ==> end == mid)
    ensures Advanced(sys, end, n + 1)
  {
  }

  lemma LoneCallAdvances(sys: System, call: Call, done: Time)
    requires Inv(sys.outbox) && Startable(sys.outbox) && LoneCall(sys, call, done) && call.chosen.Some?
    ensures Advanced(sys, Finished(sys, call), 1)
  {
    CallLowersRemaining(sys, call, done);
  }

  /** Every call finds an event. */
  predicate Busy(calls: seq<(Call, Time)>) {
    forall i | 0 <= i < |calls| :: calls[i].0.chosen.Some?
  }

  lemma BusyTail(calls: seq<(Call, Time)>)
    requires Busy(calls) && calls != []
    ensures calls[0].0.chosen.Some? && Busy(calls[1..])
  {
  }

  lemma {:induction false} LoneCallsProgress(sys: System, calls: seq<(Call, Time)>)
    requires Inv(sys.outbox) && Startable(sys.outbox) && LoneCalls(sys, calls) && Busy(calls)
    ensures Advanced(sys, AfterCalls(sys, calls), |calls|)
    decreases |calls|
  {
    if calls != [] {
      var next := Finished(sys, calls[0].0);
      BusyTail(calls);
      LoneCallAdvances(sys, calls[0].0, calls[0].1);
      LoneCallsProgress(next, calls[1..]);
      AdvancesAgain(sys, next, AfterCalls(next, calls[1..]), |calls| - 1);
    }
  }

  /**
   * A lone worker drains the outbox: while calls keep finding an event they are
   * at most as many as the remaining work, and once a call finds none, every row
   * is delivered and the calls made are exactly that work.
   */
  lemma LoneWorkerDrains(sys: System, calls: seq<(Call, Time)>)
    requires Inv(sys.outbox) && Startable(sys.outbox) && LoneCalls(sys, calls) && Busy(calls)
    ensures var end := AfterCalls(sys, calls);
      && Remaining(end) == Remaining(sys) - |calls|
      && (IsCandidate(end.outbox.rows, end.outbox.now, {}, None) <==> Unresolved(end.outbox.rows) == {})
      && (Unresolved(end.outbox.rows) == {} && calls != [] ==> |calls| == Remaining(sys))
  {
    LoneCallsProgress(sys, calls);
    NothingLeftMeansResolved(AfterCalls(sys, calls).outbox);
  }

  /** From every such state some row of lone calls, no longer than the work, delivers everything. */
  lemma {:induction false} LoneWorkerCanDrain(sys: System) returns (calls: seq<(Call, Time)>)
    requires Inv(sys.outbox) && Startable(sys.outbox)
    ensures LoneCalls(sys, calls) && Busy(calls) && |calls| <= Remaining(sys)
    ensures Unresolved(AfterCalls(sys, calls).outbox.rows) == {}
    decreases Remaining(sys)
  {
    calls := [];
    if Unresolved(sys.outbox.rows) != {} {
      var call := NextLoneCall(sys);
      LoneCallAdvances(sys, call, sys.outbox.now);
      calls := LoneWorkerCanDrain(Finished(sys, call));
      LoneCallGoesFirst(sys, call, sys.outbox.now, calls);
      calls := [(call, sys.outbox.now)] + calls;
    }
  }

  lemma LoneCallGoesFirst(sys: System, call: Call, done: Time, rest: seq<(Call, Time)>)
    requires LoneCall(sys, call, done) && LoneCalls(Finished(sys, call), rest)
    requires call.chosen.Some? && Busy(rest)
    ensures var calls := [(call, done)] + rest;
      && |calls| == |rest| + 1 && Busy(calls) && LoneCalls(sys, calls)
      && AfterCalls(sys, calls) == AfterCalls(Finished(sys, call), rest)
  {
    assert ([(call, done)] + rest)[1..] == rest;
  }

  lemma NextLoneCall(sys: System) returns (call: Call)
    requires Inv(sys.outbox) && Startable(sys.outbox) && Unresolved(sys.outbox.rows) != {}
    ensures LoneCall(sys, call, sys.outbox.now) && call.chosen.Some?
  {
    var token := UnusedName(sys.outbox.claims.Keys);
    var chosen := ClaimHasChoice(sys.outbox);
    NothingLeftMeansResolved(sys.outbox);
    call := Alone(token, 1, chosen, sys.outbox.now);
  }
}
