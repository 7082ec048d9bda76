/** The idempotent in-process delivery adapter, and its accounting against the outbox. */
module Delivery {
  import opened Wrappers
  import opened Outbox
  import opened OutboxInvariant

  const REJECTION := "deliberate in-process rejection"

  /** What the adapter's mutex guards. */
  datatype Inbox = Inbox(acceptedIds: set<EventId>, attempts: seq<EventId>, failuresRemaining: nat)

  function Offered(inbox: Inbox, e: EventId): Inbox {
    var tried := inbox.(attempts := inbox.attempts + [e]);
    if inbox.failuresRemaining > 0
    then tried.(failuresRemaining := inbox.failuresRemaining - 1)
    else tried.(acceptedIds := inbox.acceptedIds + {e})
  }

  class InProcessEventDelivery {
    var acceptedIds: set<EventId>
    var attempts: seq<EventId>
    var failuresRemaining: nat

    /** Totals over the adapter's life: rejections asked for, and rejections made. */
    ghost var requested: nat
    ghost var rejections: nat

    function View(): Inbox
      reads this
    {
      Inbox(acceptedIds, attempts, failuresRemaining)
    }

    constructor ()
      ensures View() == Inbox({}, [], 0)
      ensures requested == 0 && rejections == 0
    {
      acceptedIds, attempts, failuresRemaining := {}, [], 0;
      requested, rejections := 0, 0;
    }

    method RejectNext(count: nat)
      modifies this
      ensures View() == old(View()).(failuresRemaining := old(failuresRemaining) + count)
      ensures requested == old(requested) + count && rejections == old(rejections)
    {
      failuresRemaining := failuresRemaining + count;
      requested := requested + count;
    }

    method AcceptedEventIds() returns (ids: set<EventId>)
      ensures ids == View().acceptedIds
    {
      ids := acceptedIds;
    }

    method AttemptsFor(e: EventId) returns (n: nat)
      ensures n == multiset(View().attempts)[e]
    {
      n := 0;
      for i := 0 to |attempts|
        invariant n == multiset(attempts[..i])[e]
      {
        assert attempts[..i + 1] == attempts[..i] + [attempts[i]];
        if attempts[i] == e {
          n := n + 1;
        }
      }
      assert attempts[..|attempts|] == attempts;
    }

    /** One attempt: recorded, then rejected while deliberate failures remain, else accepted. */
    method Deliver(e: EventId) returns (response: Result<(), string>)
      modifies this
      ensures View() == Offered(old(View()), e)
      ensures response.Ok? <==> old(failuresRemaining) == 0
      ensures response.Ok? ==> e in acceptedIds
      ensures response.Err? ==> response.error == "deliberate in-process rejection" && acceptedIds == old(acceptedIds)
      ensures attempts == old(attempts) + [e]
      ensures failuresRemaining == if response.Err? then old(failuresRemaining) - 1 else 0
      ensures requested == old(requested)
      ensures rejections == old(rejections) + if response.Err? then 1 else 0
    {
      attempts := attempts + [e];
      if failuresRemaining > 0 {
        failuresRemaining := failuresRemaining - 1;
        rejections := rejections + 1;
        return Err(REJECTION);
      }
      acceptedIds := acceptedIds + {e};
      return Ok(());
    }
  }

  // ------------------------------------------------- the outbox and one shared adapter

  /** `requested` totals the arguments of RejectNext, `rejections` the rejections made. */
  datatype System = System(outbox: State, inbox: Inbox, requested: nat, rejections: nat)

  /** A step, with deliveries made by the shared adapter; a delivery by any other port; a call of reject_next. */
  datatype Move =
    | Perform(step: Step)
    | DeliverElsewhere(token: Token, ok: bool)
    | RejectNext(count: nat)

  predicate MoveEnabled(sys: System, move: Move) {
    match move
    case Perform(step) =>
      Enabled(sys.outbox, step) && (step.Deliver? ==> step.ok == (sys.inbox.failuresRemaining == 0))
    case DeliverElsewhere(token, ok) => Enabled(sys.outbox, Deliver(token, ok))
    case RejectNext(_) => true
  }

  function MoveNext(sys: System, move: Move): System
    requires MoveEnabled(sys, move)
  {
    match move
    case DeliverElsewhere(token, ok) => sys.(outbox := Next(sys.outbox, Deliver(token, ok)))
    case RejectNext(n) =>
      sys.(inbox := sys.inbox.(failuresRemaining := sys.inbox.failuresRemaining + n), requested := sys.requested + n)
    case Perform(step) =>
      var sys' := sys.(outbox := Next(sys.outbox, step));
      if !step.Deliver? then sys' else
        sys'.(inbox := Offered(sys.inbox, sys.outbox.claims[step.token].event),
              rejections := if step.ok then sys.rejections else sys.rejections + 1)
  }

  predicate LegalMoves(sys: System, moves: seq<Move>)
    decreases |moves|
  {
    moves == [] || (MoveEnabled(sys, moves[0]) && LegalMoves(MoveNext(sys, moves[0]), moves[1..]))
  }

  function AfterMoves(sys: System, moves: seq<Move>): System
    requires LegalMoves(sys, moves)
    decreases |moves|
  {
    if moves == [] then sys else AfterMoves(MoveNext(sys, moves[0]), moves[1..])
  }

  lemma {:induction false} MovesCompose(sys: System, a: seq<Move>, b: seq<Move>)
    requires LegalMoves(sys, a)
    requires LegalMoves(AfterMoves(sys, a), b)
    ensures LegalMoves(sys, a + b)
    ensures AfterMoves(sys, a + b) == AfterMoves(AfterMoves(sys, a), b)
    decreases |a|
  {
    if a == [] {
      assert a + b == b;
    } else {
      MovesCompose(MoveNext(sys, a[0]), a[1..], b);
      assert (a + b)[1..] == a[1..] + b;
    }
  }

  function Start(now: Time): System {
    System(Empty(now), Inbox({}, [], 0), 0, 0)
  }

  // -------------------------------------------------------------------- accounting

  /** The claims of `e` under which a delivery was made. */
  ghost function Spent(s: State, e: EventId): set<Token> {
    set t | t in ClaimsOf(s, e) && !s.claims[t].phase.Issued?
  }

  /** Every delivery is made by the one adapter. */
  predicate OneAdapter(moves: seq<Move>) {
    forall move | move in moves :: !move.DeliverElsewhere?
  }

  ghost predicate Balanced(sys: System) {
    && Inv(sys.outbox)
    && (forall e :: multiset(sys.inbox.attempts)[e] == |Spent(sys.outbox, e)|)
    && (forall e :: e in sys.inbox.acceptedIds <==> e in sys.outbox.accepted)
    && sys.rejections + sys.inbox.failuresRemaining == sys.requested
    && |sys.inbox.attempts| == |sys.outbox.accepted| + sys.rejections
  }

  lemma SpentAfter(s: State, step: Step, e: EventId)
    requires ClaimsWellFormed(s) && Enabled(s, step)
    ensures Spent(Next(s, step), e) ==
            if step.Deliver? && s.claims[step.token].event == e then Spent(s, e) + {step.token} else Spent(s, e)
  {
  }

  lemma AttemptsBalance(sys: System, move: Move, e: EventId)
    requires ClaimsWellFormed(sys.outbox) && MoveEnabled(sys, move) && !move.DeliverElsewhere?
    requires multiset(sys.inbox.attempts)[e] == |Spent(sys.outbox, e)|
    ensures multiset(MoveNext(sys, move).inbox.attempts)[e] == |Spent(MoveNext(sys, move).outbox, e)|
  {
    if move.Perform? {
      SpentAfter(sys.outbox, move.step, e);
    }
  }

  lemma TotalsBalance(sys: System, move: Move)
    requires MoveEnabled(sys, move) && !move.DeliverElsewhere?
    requires sys.rejections + sys.inbox.failuresRemaining == sys.requested
    requires |sys.inbox.attempts| == |sys.outbox.accepted| + sys.rejections
    requires forall e :: e in sys.inbox.acceptedIds <==> e in sys.outbox.accepted
    ensures var after := MoveNext(sys, move);
      && after.rejections + after.inbox.failuresRemaining == after.requested
      && |after.inbox.attempts| == |after.outbox.accepted| + after.rejections
      && forall e :: e in after.inbox.acceptedIds <==> e in after.outbox.accepted
  {
  }

  lemma MoveKeepsBalance(sys: System, move: Move)
    requires Balanced(sys) && MoveEnabled(sys, move) && !move.DeliverElsewhere?
    ensures Balanced(MoveNext(sys, move))
  {
    forall e
      ensures multiset(MoveNext(sys, move).inbox.attempts)[e] == |Spent(MoveNext(sys, move).outbox, e)|
    {
      AttemptsBalance(sys, move, e);
    }
    TotalsBalance(sys, move);
    if move.Perform? {
      StepKeepsInv(sys.outbox, move.step);
    }
  }

  lemma {:induction false} MovesKeepBalance(sys: System, moves: seq<Move>)
    requires Balanced(sys) && LegalMoves(sys, moves) && OneAdapter(moves)
    ensures Balanced(AfterMoves(sys, moves))
    decreases |moves|
  {
    if moves != [] {
      assert moves[0] in moves;
      MoveKeepsBalance(sys, moves[0]);
      MovesKeepBalance(MoveNext(sys, moves[0]), moves[1..]);
    }
  }

  /**
   * The books of every run with one shared adapter: claims are counted on the
   * row and bound the attempts, nothing is delivered that was not accepted, and
   * every requested rejection is either still owed or was made.
   */
  lemma BooksBalance(now: Time, moves: seq<Move>, e: EventId)
    requires LegalMoves(Start(now), moves) && OneAdapter(moves)
    ensures var sys := AfterMoves(Start(now), moves);
      && (e in sys.outbox.rows ==>
            && sys.outbox.rows[e].attemptCount == |ClaimsOf(sys.outbox, e)|
            && multiset(sys.inbox.attempts)[e] <= sys.outbox.rows[e].attemptCount
            && (sys.outbox.rows[e].deliveredAt.Some? ==> e in sys.inbox.acceptedIds))
      && (e !in sys.outbox.rows ==> e !in sys.inbox.attempts)
      && sys.rejections + sys.inbox.failuresRemaining == sys.requested
      && |sys.inbox.attempts| == |sys.outbox.accepted| + sys.rejections
  {
    assert Balanced(Start(now)) by {
      EmptyHasInv(now);
    }
    MovesKeepBalance(Start(now), moves);
    var s := AfterMoves(Start(now), moves).outbox;
    SubsetIsSmaller(Spent(s, e), ClaimsOf(s, e));
    assert e !in s.rows ==> ClaimsOf(s, e) == {};
  }

  lemma {:induction false} SubsetIsSmaller<T>(a: set<T>, b: set<T>)
    requires a <= b
    ensures |a| <= |b|
  {
    assert b == a + (b - a);
  }
}
