/** The dispatcher: its statements as methods on the table, and the worker program `DispatchOne`. */
module Dispatcher {
  import opened Wrappers
  import opened Outbox
  import opened OutboxLogs
  import opened OutboxInvariant
  import opened OutboxQueue
  import opened Delivery

  /** The installation database: clock and outbox, with the logs of the model. */
  class OutboxDatabase {
    var now: Time
    var rows: Table
    var claims: map<Token, Claim>
    var inserted: seq<EventId>
    var accepted: seq<EventId>

    function View(): State
      reads this
    {
      State(now, rows, claims, inserted, accepted)
    }

    constructor (now: Time)
      ensures View() == Empty(now)
    {
      this.now := now;
      rows, claims, inserted, accepted := map[], map[], [], [];
    }

    /** Installs the outcome of statements issued elsewhere. */
    method Observe(s: State)
      modifies this
      ensures View() == s
    {
      now, rows, claims, inserted, accepted := s.now, s.rows, s.claims, s.inserted, s.accepted;
    }
  }

  datatype DeliveryRequest = DeliveryRequest(eventId: EventId, envelope: Envelope)

  datatype ClaimedEvent = ClaimedEvent(request: DeliveryRequest, claimedBy: Token)

  datatype DispatchOutcome =
    | NoEligibleEvent
    | Delivered(eventId: EventId)
    | Rejected(eventId: EventId, reason: string)
    | LeaseLost(eventId: EventId)

  // --------------------------------------------------- one call, as a list of moves

  ghost function Sys(database: OutboxDatabase, delivery: InProcessEventDelivery): System
    reads database, delivery
  {
    System(database.View(), delivery.View(), delivery.requested, delivery.rejections)
  }

  /** Moves the holder of `mine` leaves to others: everything but its own delivery and settlement. */
  predicate Foreign(mine: Token, move: Move) {
    match move
    case Perform(step) => step.Deliver? || step.Settle? ==> step.token != mine
    case DeliverElsewhere(token, _) => token != mine
    case RejectNext(_) => true
  }

  /** The attempted moves that are foreign and legal when their turn comes. */
  function Performed(sys: System, mine: Token, moves: seq<Move>): (done: seq<Move>)
    requires mine in sys.outbox.claims
    ensures LegalMoves(sys, done)
    ensures mine in AfterMoves(sys, done).outbox.claims
    ensures AfterMoves(sys, done).outbox.claims[mine] == sys.outbox.claims[mine]
    decreases |moves|
  {
    if moves == [] then []
    else if Foreign(mine, moves[0]) && MoveEnabled(sys, moves[0]) then
      var rest := Performed(MoveNext(sys, moves[0]), mine, moves[1..]);
      assert ([moves[0]] + rest)[1..] == rest;
      [moves[0]] + rest
    else Performed(sys, mine, moves[1..])
  }

  /** The delivery port of a call: the shared adapter, or any other, known by what it answers. */
  datatype Port = Shared | Other(answer: Result<(), string>)

  /** A statement whose reply is an error, and which took effect all the same or did not. */
  datatype StatementFault = Claiming(took: bool) | Settling(took: bool)

  datatype DispatchError = DispatchError(fault: StatementFault)

  /** One call of the worker program: its token, what the claim chose, and what the others attempt. */
  datatype Call = Call(
    token: Token,
    leaseSeconds: nat,
    locked: set<EventId>,
    chosen: Option<EventId>,
    port: Port,
    first: seq<Move>,
    second: seq<Move>,
    fault: Option<StatementFault>)
  {
    function ClaimMove(): Move {
      Perform(ClaimNext(token, leaseSeconds, locked, chosen))
    }

    predicate FailsAtClaim() {
      fault.Some? && fault.value.Claiming?
    }

    predicate FailsAtSettlement() {
      fault.Some? && fault.value.Settling?
    }

    function Refusal(): string {
      if port.Other? && port.answer.Err? then port.answer.error else REJECTION
    }
  }

  predicate CallEnabled(sys: System, call: Call) {
    MoveEnabled(sys, call.ClaimMove())
  }

  /** The call gets as far as a delivery. */
  predicate Delivers(sys: System, call: Call) {
    CallEnabled(sys, call) && call.chosen.Some? && !call.FailsAtClaim()
  }

  function AtDelivery(sys: System, call: Call): System
    requires Delivers(sys, call)
  {
    var leased := MoveNext(sys, call.ClaimMove());
    AfterMoves(leased, Performed(leased, call.token, call.first))
  }

  predicate Accepts(sys: System, call: Call)
    requires Delivers(sys, call)
  {
    if call.port.Shared? then AtDelivery(sys, call).inbox.failuresRemaining == 0 else call.port.answer.Ok?
  }

  function DeliverMove(sys: System, call: Call): (move: Move)
    requires Delivers(sys, call)
    ensures MoveEnabled(AtDelivery(sys, call), move)
  {
    var ok := Accepts(sys, call);
    if call.port.Shared? then Perform(Deliver(call.token, ok)) else DeliverElsewhere(call.token, ok)
  }

  function AtSettlement(sys: System, call: Call): System
    requires Delivers(sys, call)
  {
    var told := MoveNext(AtDelivery(sys, call), DeliverMove(sys, call));
    AfterMoves(told, Performed(told, call.token, call.second))
  }

  /** Acknowledge after acceptance, release after rejection. */
  function SettleMove(sys: System, call: Call): (move: Move)
    requires Delivers(sys, call)
    ensures MoveEnabled(AtSettlement(sys, call), move)
  {
    Perform(Settle(call.token, if Accepts(sys, call) then Acknowledge else Release))
  }

  /** The moves up to the settlement, own and others'. */
  function Approach(sys: System, call: Call): (moves: seq<Move>)
    requires Delivers(sys, call)
    ensures LegalMoves(sys, moves) && AfterMoves(sys, moves) == AtSettlement(sys, call)
  {
    var leased := MoveNext(sys, call.ClaimMove());
    var told := MoveNext(AtDelivery(sys, call), DeliverMove(sys, call));
    ApproachEnds(sys, call);
    [call.ClaimMove()] + Performed(leased, call.token, call.first) + [DeliverMove(sys, call)]
      + Performed(told, call.token, call.second)
  }

  /** Everything that happens in one call, own moves and others', in order. */
  function Script(sys: System, call: Call): (moves: seq<Move>)
    requires CallEnabled(sys, call)
    ensures LegalMoves(sys, moves)
  {
    if call.fault == Some(Claiming(false)) then []
    else if !Delivers(sys, call) then
      OneMove(sys, call.ClaimMove());
      [call.ClaimMove()]
    else if call.fault == Some(Settling(false)) then Approach(sys, call)
    else
      ScriptEnds(sys, call);
      Approach(sys, call) + [SettleMove(sys, call)]
  }

  lemma ApproachEnds(sys: System, call: Call)
    requires Delivers(sys, call)
    ensures var leased := MoveNext(sys, call.ClaimMove());
      var told := MoveNext(AtDelivery(sys, call), DeliverMove(sys, call));
      var moves := [call.ClaimMove()] + Performed(leased, call.token, call.first) + [DeliverMove(sys, call)]
        + Performed(told, call.token, call.second);
      LegalMoves(sys, moves) && AfterMoves(sys, moves) == AtSettlement(sys, call)
  {
    var leased := MoveNext(sys, call.ClaimMove());
    var told := MoveNext(AtDelivery(sys, call), DeliverMove(sys, call));
    var a, b := Performed(leased, call.token, call.first), Performed(told, call.token, call.second);
    OneMove(sys, call.ClaimMove());
    MovesCompose(sys, [call.ClaimMove()], a);
    OneMove(AtDelivery(sys, call), DeliverMove(sys, call));
    MovesCompose(sys, [call.ClaimMove()] + a, [DeliverMove(sys, call)]);
    MovesCompose(sys, [call.ClaimMove()] + a + [DeliverMove(sys, call)], b);
  }

  lemma ScriptEnds(sys: System, call: Call)
    requires Delivers(sys, call)
    ensures var moves := Approach(sys, call) + [SettleMove(sys, call)];
      LegalMoves(sys, moves) && AfterMoves(sys, moves) == MoveNext(AtSettlement(sys, call), SettleMove(sys, call))
  {
    OneMove(AtSettlement(sys, call), SettleMove(sys, call));
    MovesCompose(sys, Approach(sys, call), [SettleMove(sys, call)]);
  }

  lemma OneMove(sys: System, move: Move)
    requires MoveEnabled(sys, move)
    ensures LegalMoves(sys, [move]) && AfterMoves(sys, [move]) == MoveNext(sys, move)
  {
    assert LegalMoves(MoveNext(sys, move), []);
  }

  /** What the call reports: the lease decides whether the outcome could be persisted. */
  function Outcome(sys: System, call: Call): Result<DispatchOutcome, DispatchError>
    requires CallEnabled(sys, call)
  {
    if call.FailsAtClaim() then Err(DispatchError(call.fault.value))
    else if call.chosen.None? then Ok(NoEligibleEvent)
    else if call.FailsAtSettlement() then Err(DispatchError(call.fault.value))
    else
      var e := call.chosen.value;
      if !Affects(AtSettlement(sys, call).outbox, call.token, SettleMove(sys, call).step.verdict) then Ok(LeaseLost(e))
      else if Accepts(sys, call) then Ok(DispatchOutcome.Delivered(e))
      else Ok(DispatchOutcome.Rejected(e, call.Refusal()))
  }

  method RunOthers(database: OutboxDatabase, delivery: InProcessEventDelivery, mine: Token, moves: seq<Move>)
    requires mine in database.claims
    modifies database, delivery
    ensures Sys(database, delivery) ==
            old(AfterMoves(Sys(database, delivery), Performed(Sys(database, delivery), mine, moves)))
  {
    ghost var start := Sys(database, delivery);
    for i := 0 to |moves|
      invariant mine in database.claims
      invariant AfterMoves(start, Performed(start, mine, moves)) ==
                AfterMoves(Sys(database, delivery), Performed(Sys(database, delivery), mine, moves[i..]))
    {
      var move := moves[i];
      ghost var before := Sys(database, delivery);
      assert moves[i..][1..] == moves[i + 1..];
      match move
      case RejectNext(count) =>
        delivery.RejectNext(count);
        assert Sys(database, delivery) == MoveNext(before, move);
      case DeliverElsewhere(token, ok) =>
        if token != mine && Enabled(database.View(), Outbox.Step.Deliver(token, ok)) {
          database.Observe(Next(database.View(), Outbox.Step.Deliver(token, ok)));
          assert Sys(database, delivery) == MoveNext(before, move);
        }
      case Perform(step) =>
        if Foreign(mine, move) && Enabled(database.View(), step)
           && (step.Deliver? ==> step.ok == (delivery.failuresRemaining == 0)) {
          if step.Deliver? {
            var _ := delivery.Deliver(database.claims[step.token].event);
          }
          database.Observe(Next(database.View(), step));
          assert Sys(database, delivery) == MoveNext(before, move);
        }
    }
  }

  /** The SELECT of the claim: the least eligible row among those not locked. */
  method SelectCandidate(rows: Table, now: Time, locked: set<EventId>) returns (chosen: Option<EventId>)
    ensures IsCandidate(rows, now, locked, chosen)
    ensures chosen.None? <==> forall x | x in rows && x !in locked :: !Eligible(rows, x, now)
    ensures chosen.Some? ==> chosen.value in rows && chosen.value !in locked && Eligible(rows, chosen.value, now)
    ensures chosen.Some? ==> forall x | x in rows && x !in locked && Eligible(rows, x, now) ::
              || rows[chosen.value].envelope.occurredAt < rows[x].envelope.occurredAt
              || (rows[chosen.value].envelope.occurredAt == rows[x].envelope.occurredAt && chosen.value <= x)
  {
    chosen := None;
    var unseen := rows.Keys - locked;
    while unseen != {}
      invariant unseen <= rows.Keys - locked
      invariant chosen.Some? ==> chosen.value in rows.Keys - locked - unseen && Eligible(rows, chosen.value, now)
      invariant forall x | x in rows.Keys - locked - unseen && Eligible(rows, x, now) ::
                  chosen.Some? && ComesFirst(rows, chosen.value, x)
      decreases |unseen|
    {
      var e :| e in unseen;
      unseen := unseen - {e};
      if Eligible(rows, e, now) && (chosen.None? || ComesFirst(rows, e, chosen.value)) {
        chosen := Some(e);
      }
    }
  }

  /** The event is undelivered and leased to the claim's token for longer than `now`. */
  ghost predicate Held(rows: Table, claim: ClaimedEvent, now: Time) {
    && claim.request.eventId in rows
    && rows[claim.request.eventId].deliveredAt.None?
    && rows[claim.request.eventId].claimedBy == Some(claim.claimedBy)
    && rows[claim.request.eventId].claimUntil.Some?
    && now < rows[claim.request.eventId].claimUntil.value
  }

  class PostgresOutboxDispatcher {
    const database: OutboxDatabase
    const leaseSeconds: nat

    constructor WithPool(database: OutboxDatabase, leaseSeconds: nat)
      requires leaseSeconds > 0
      ensures this.database == database && this.leaseSeconds == leaseSeconds
    {
      this.database := database;
      this.leaseSeconds := leaseSeconds;
    }

    /** One statement: select under SKIP LOCKED, lease with a fresh token, count the attempt. */
    method ClaimNext(token: Token, locked: set<EventId>) returns (claim: Option<ClaimedEvent>, ghost step: Step)
      requires leaseSeconds > 0 && token !in database.claims
      modifies database
      ensures claim.Some? ==>
                && claim.value.claimedBy == token
                && claim.value.request.eventId in old(database.rows)
                && claim.value.request.envelope == old(database.rows)[claim.value.request.eventId].envelope
      ensures step == Outbox.Step.ClaimNext(token, leaseSeconds, locked,
                if claim.None? then None else Some(claim.value.request.eventId))
      ensures Enabled(old(database.View()), step)
      ensures database.View() == Next(old(database.View()), step)
      ensures claim.None? ==> forall x | x in old(database.rows) && x !in locked :: !Eligible(old(database.rows), x, old(database.now))
      ensures claim.Some? ==>
                var rows, e := old(database.rows), claim.value.request.eventId;
                && e !in locked && Eligible(rows, e, old(database.now))
                && (forall x | x in rows && x !in locked && Eligible(rows, x, old(database.now)) ::
                      || rows[e].envelope.occurredAt < rows[x].envelope.occurredAt
                      || (rows[e].envelope.occurredAt == rows[x].envelope.occurredAt && e <= x))
                && database.rows == rows[e := rows[e].(
                     claimedBy := Some(token),
                     claimUntil := Some(old(database.now) + leaseSeconds * 1_000_000),
                     attemptCount := rows[e].attemptCount + 1)]
    {
      var chosen := SelectCandidate(database.rows, database.now, locked);
      step := Outbox.Step.ClaimNext(token, leaseSeconds, locked, chosen);
      match chosen
      case None =>
        claim := None;
      case Some(e) =>
        var until := database.now + leaseSeconds * SECOND;
        database.rows := database.rows[e := ClaimedRow(database.rows[e], token, until)];
        database.claims := database.claims[token := Claim(e, database.now, until, Issued, None)];
        claim := Some(ClaimedEvent(DeliveryRequest(e, database.rows[e].envelope), token));
    }

    /** The three settlements share this frame: one guarded UPDATE, reporting whether it hit its row. */
    method Update(claim: ClaimedEvent, verdict: Verdict) returns (updated: bool)
      requires claim.claimedBy in database.claims
      requires database.claims[claim.claimedBy].event == claim.request.eventId
      modifies database
      ensures updated == old(Affects(database.View(), claim.claimedBy, verdict))
      ensures database.View() ==
              if updated then old(Settled(database.View(), claim.claimedBy, verdict)) else old(database.View())
    {
      var e, token := claim.request.eventId, claim.claimedBy;
      updated := e in database.rows && Matches(database.rows[e], token, verdict, database.now);
      if updated {
        database.rows := database.rows[e := SettledRow(database.rows[e], verdict, database.now)];
        database.claims := database.claims[
          token := database.claims[token].(settled := Some(Settlement(verdict, database.now)))];
      }
    }

    /** Asked for only after the delivery under this claim was accepted. */
    method Acknowledge(claim: ClaimedEvent) returns (updated: bool)
      requires claim.claimedBy in database.claims
      requires database.claims[claim.claimedBy].event == claim.request.eventId
      requires database.claims[claim.claimedBy].phase.Accepted?
      modifies database
      ensures updated == old(Affects(database.View(), claim.claimedBy, Verdict.Acknowledge))
      ensures Enabled(old(database.View()), Settle(claim.claimedBy, Verdict.Acknowledge))
      ensures database.View() == Next(old(database.View()), Settle(claim.claimedBy, Verdict.Acknowledge))
      ensures updated <==> Held(old(database.rows), claim, old(database.now))
      ensures database.rows == if !updated then old(database.rows) else
                old(database.rows)[claim.request.eventId := old(database.rows)[claim.request.eventId].(
                  deliveredAt := Some(old(database.now)),
                  claimedBy := None, claimUntil := None)]
    {
      updated := Update(claim, Verdict.Acknowledge);
    }

    method ReleaseRejected(claim: ClaimedEvent) returns (updated: bool)
      requires claim.claimedBy in database.claims
      requires database.claims[claim.claimedBy].event == claim.request.eventId
      modifies database
      ensures updated == old(Affects(database.View(), claim.claimedBy, Release))
      ensures Enabled(old(database.View()), Settle(claim.claimedBy, Release))
      ensures database.View() == Next(old(database.View()), Settle(claim.claimedBy, Release))
      ensures updated <==> Held(old(database.rows), claim, old(database.now))
      ensures database.rows == if !updated then old(database.rows) else
                old(database.rows)[claim.request.eventId := old(database.rows)[claim.request.eventId].(
                  availableAt := old(database.now),
                  claimedBy := None, claimUntil := None)]
    {
      updated := Update(claim, Release);
    }

    method DeadLetter(claim: ClaimedEvent, reason: string) returns (updated: bool)
      requires claim.claimedBy in database.claims
      requires database.claims[claim.claimedBy].event == claim.request.eventId
      modifies database
      ensures updated == old(Affects(database.View(), claim.claimedBy, Verdict.DeadLetter(reason)))
      ensures Enabled(old(database.View()), Settle(claim.claimedBy, Verdict.DeadLetter(reason)))
      ensures database.View() == Next(old(database.View()), Settle(claim.claimedBy, Verdict.DeadLetter(reason)))
      ensures updated <==> Held(old(database.rows), claim, old(database.now)) && old(database.rows)[claim.request.eventId].deadLetteredAt.None?
      ensures database.rows == if !updated then old(database.rows) else
                old(database.rows)[claim.request.eventId := old(database.rows)[claim.request.eventId].(
                  deadLetteredAt := Some(old(database.now)), deadLetterReason := Some(reason),
                  claimedBy := None, claimUntil := None)]
    {
      updated := Update(claim, Verdict.DeadLetter(reason));
    }

    /** The delivery of a claimed event through the port of the call, noted in the log of acceptances. */
    method DeliverThrough(port: Port, delivery: InProcessEventDelivery, e: EventId, token: Token)
      returns (response: Result<(), string>)
      requires token in database.claims && database.claims[token].event == e && database.claims[token].phase.Issued?
      modifies database, delivery
      ensures response.Ok? <==> if port.Shared? then old(delivery.failuresRemaining) == 0 else port.answer.Ok?
      ensures response.Err? ==> response.error == if port.Shared? then REJECTION else port.answer.error
      ensures Sys(database, delivery) == MoveNext(old(Sys(database, delivery)),
                if port.Shared? then Perform(Outbox.Step.Deliver(token, response.Ok?)) else DeliverElsewhere(token, response.Ok?))
    {
      if port.Shared? {
        response := delivery.Deliver(e);
      } else {
        response := port.answer;
      }
      database.Observe(Outbox.Delivered(database.View(), token, response.Ok?));
    }

    /** Acknowledge after acceptance, release after rejection. */
    method SettleAs(claim: ClaimedEvent, ok: bool) returns (updated: bool)
      requires claim.claimedBy in database.claims
      requires database.claims[claim.claimedBy].event == claim.request.eventId
      requires ok ==> database.claims[claim.claimedBy].phase.Accepted?
      modifies database
      ensures var verdict := if ok then Verdict.Acknowledge else Release;
        && updated == old(Affects(database.View(), claim.claimedBy, verdict))
        && Enabled(old(database.View()), Settle(claim.claimedBy, verdict))
        && database.View() == Next(old(database.View()), Settle(claim.claimedBy, verdict))
    {
      if ok {
        updated := Acknowledge(claim);
      } else {
        updated := ReleaseRejected(claim);
      }
    }

    /** What a call does once it holds a claim. */
    method DeliverAndSettle(claim: ClaimedEvent, port: Port, delivery: InProcessEventDelivery,
                            first: seq<Move>, second: seq<Move>, fault: Option<StatementFault>,
                            ghost start: System, ghost call: Call)
      returns (outcome: Result<DispatchOutcome, DispatchError>)
      requires Delivers(start, call) && call.chosen == Some(claim.request.eventId) && call.token == claim.claimedBy
      requires call.port == port && call.first == first && call.second == second && call.fault == fault
      requires Sys(database, delivery) == MoveNext(start, call.ClaimMove())
      modifies database, delivery
      ensures Sys(database, delivery) == AfterMoves(start, Script(start, call))
      ensures outcome == Outcome(start, call)
    {
      var e, token := claim.request.eventId, claim.claimedBy;
      RunOthers(database, delivery, token, first);
      assert Sys(database, delivery) == AtDelivery(start, call);
      var response := DeliverThrough(port, delivery, e, token);
      assert Sys(database, delivery) == MoveNext(AtDelivery(start, call), DeliverMove(start, call));
      RunOthers(database, delivery, token, second);
      assert Sys(database, delivery) == AtSettlement(start, call);
      if fault == Some(Settling(false)) {
        return Err(DispatchError(fault.value));
      }
      ScriptEnds(start, call);
      var updated := SettleAs(claim, response.Ok?);
      if fault.Some? {
        outcome := Err(DispatchError(fault.value));
      } else if !updated {
        outcome := Ok(LeaseLost(e));
      } else {
        outcome := Ok(if response.Ok? then DispatchOutcome.Delivered(e) else DispatchOutcome.Rejected(e, response.error));
      }
    }

    /**
     * The worker program.  `first` and `second` are what the clock and the other
     * workers attempt while the event is on its way and before its outcome is
     * persisted; `fault` is where the database reports an error, if anywhere.
     */
    method DispatchOne(token: Token, locked: set<EventId>, port: Port, delivery: InProcessEventDelivery,
                       first: seq<Move>, second: seq<Move>, fault: Option<StatementFault>)
      returns (outcome: Result<DispatchOutcome, DispatchError>, ghost call: Call)
      requires leaseSeconds > 0 && token !in database.claims
      modifies database, delivery
      ensures call == Call(token, leaseSeconds, locked, call.chosen, port, first, second, fault)
      ensures CallEnabled(old(Sys(database, delivery)), call)
      ensures Sys(database, delivery) == AfterMoves(old(Sys(database, delivery)), Script(old(Sys(database, delivery)), call))
      ensures outcome == Outcome(old(Sys(database, delivery)), call)
    {
      ghost var start := Sys(database, delivery);
      if fault == Some(Claiming(false)) {
        var chosen := SelectCandidate(database.rows, database.now, locked);
        call := Call(token, leaseSeconds, locked, chosen, port, first, second, fault);
        return Err(DispatchError(fault.value)), call;
      }
      var claim, step := ClaimNext(token, locked);
      call := Call(token, leaseSeconds, locked, step.chosen, port, first, second, fault);
      ghost var leased := Sys(database, delivery);
      assert leased == MoveNext(start, Perform(step));
      OneMove(start, Perform(step));
      if fault.Some? && fault.value.Claiming? {
        return Err(DispatchError(fault.value)), call;
      }
      if claim.None? {
        return Ok(NoEligibleEvent), call;
      }
      outcome := DeliverAndSettle(claim.value, port, delivery, first, second, fault, start, call);
    }
  }
}
