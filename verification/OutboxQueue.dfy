/**
 * The outbox refines one FIFO queue per aggregate: an insert appends, a
 * successful acknowledgement pops exactly the front, a successful dead letter
 * freezes the queue, and every other statement leaves it alone.
 */
module OutboxQueue {
  import opened Wrappers
  import opened Outbox
  import opened OutboxLogs
  import opened OutboxInvariant
  import opened OutboxOrder

  // -------------------------------------------------------------- the simple queue

  datatype Queue = Queue(pending: seq<EventId>, frozen: bool)

  datatype QueueOp = Append(e: EventId) | Pop(e: EventId) | Freeze(e: EventId) | Stutter

  predicate Allows(q: Queue, op: QueueOp) {
    match op
    case Append(e) => e !in q.pending
    case Pop(e) => !q.frozen && q.pending != [] && q.pending[0] == e
    case Freeze(e) => !q.frozen && q.pending != [] && q.pending[0] == e
    case Stutter => true
  }

  function Apply(q: Queue, op: QueueOp): Queue
    requires Allows(q, op)
  {
    match op
    case Append(e) => q.(pending := q.pending + [e])
    case Pop(_) => q.(pending := q.pending[1..])
    case Freeze(_) => q.(frozen := true)
    case Stutter => q
  }

  predicate AllowsAll(q: Queue, ops: seq<QueueOp>)
    decreases |ops|
  {
    ops == [] || (Allows(q, ops[0]) && AllowsAll(Apply(q, ops[0]), ops[1..]))
  }

  function ApplyAll(q: Queue, ops: seq<QueueOp>): Queue
    requires AllowsAll(q, ops)
    decreases |ops|
  {
    if ops == [] then q else ApplyAll(Apply(q, ops[0]), ops[1..])
  }

  // ------------------------------------------------------------------ the abstraction

  function Waiting(rows: Table, agg: Aggregate): set<EventId> {
    set e | e in Members(rows, agg) && rows[e].deliveredAt.None?
  }

  function QueueOf(s: State, agg: Aggregate): Queue {
    var pending := Select(s.inserted, Waiting(s.rows, agg));
    Queue(pending, pending != [] && pending[0] in s.rows && s.rows[pending[0]].deadLetteredAt.Some?)
  }

  /** What a protocol step means to the queue of one aggregate. */
  function Effect(s: State, step: Step, agg: Aggregate): QueueOp
    requires Enabled(s, step)
  {
    match step
    case Insert(e, row) => if row.envelope.aggregate == agg then Append(e) else Stutter
    case Settle(token, verdict) =>
      var e := s.claims[token].event;
      if !Affects(s, token, verdict) || e !in Members(s.rows, agg) then Stutter else (
        match verdict
        case Acknowledge => Pop(e)
        case DeadLetter(_) => Freeze(e)
        case Release => Stutter)
    case _ => Stutter
  }

  function Effects(s: State, steps: seq<Step>, agg: Aggregate): seq<QueueOp>
    requires Legal(s, steps)
    decreases |steps|
  {
    if steps == [] then [] else [Effect(s, steps[0], agg)] + Effects(Next(s, steps[0]), steps[1..], agg)
  }

  // --------------------------------------------------------------------- the front

  /** An undelivered event with no undelivered predecessor is the front of its queue. */
  lemma HeadIsFront(s: State, e: EventId, agg: Aggregate)
    requires LogMatchesTable(s)
    requires e in Waiting(s.rows, agg) && IsHead(s.rows, e)
    ensures QueueOf(s, agg).pending != [] && QueueOf(s, agg).pending[0] == e
  {
    var pending := QueueOf(s, agg).pending;
    SelectElements(s.inserted, Waiting(s.rows, agg));
    SelectIncreasing(s.rows, s.inserted, Waiting(s.rows, agg));
    assert pending[0] in Waiting(s.rows, agg);
    var k :| 0 <= k < |pending| && pending[k] == e;
    assert k > 0 ==> Before(s.rows, pending[0], e);
  }

  lemma FrontIsHead(s: State, agg: Aggregate)
    requires LogMatchesTable(s)
    requires QueueOf(s, agg).pending != []
    ensures QueueOf(s, agg).pending[0] in Waiting(s.rows, agg)
    ensures IsHead(s.rows, QueueOf(s, agg).pending[0])
    ensures forall k | 0 < k < |QueueOf(s, agg).pending| ::
              && QueueOf(s, agg).pending[k] in Waiting(s.rows, agg)
              && Earlier(s.rows, QueueOf(s, agg).pending[0], QueueOf(s, agg).pending[k])
  {
    var pending := QueueOf(s, agg).pending;
    SelectElements(s.inserted, Waiting(s.rows, agg));
    SelectIncreasing(s.rows, s.inserted, Waiting(s.rows, agg));
    assert forall k | 0 <= k < |pending| :: pending[k] in pending;
    forall k | 0 < k < |pending|
      ensures Earlier(s.rows, pending[0], pending[k])
    {
      assert Before(s.rows, pending[0], pending[k]);
    }
    forall x | x in s.rows && Earlier(s.rows, x, pending[0])
      ensures s.rows[x].deliveredAt.Some?
    {
      assert x !in pending;
    }
  }

  /** A queue is frozen exactly when some event of the aggregate is dead-lettered. */
  lemma FrozenMeansDeadLettered(s: State, agg: Aggregate)
    requires Reachable(s)
    ensures QueueOf(s, agg).frozen <==>
            exists e :: e in Members(s.rows, agg) && s.rows[e].deadLetteredAt.Some?
  {
    ReachableHasInv(s);
    if e :| e in Members(s.rows, agg) && s.rows[e].deadLetteredAt.Some? {
      assert WellShaped(s.rows[e]) && IsHead(s.rows, e);
      HeadIsFront(s, e, agg);
    }
    if QueueOf(s, agg).frozen {
      FrontIsHead(s, agg);
    }
  }

  // ------------------------------------------------------------------- refinement

  lemma {:induction false} SelectDropsFront(ids: seq<EventId>, keep: set<EventId>, e: EventId)
    requires forall i, j | 0 <= i < j < |ids| :: ids[i] != ids[j]
    requires Select(ids, keep) != [] && Select(ids, keep)[0] == e
    ensures Select(ids, keep - {e}) == Select(ids, keep)[1..]
  {
    var prefix, last := ids[..|ids| - 1], ids[|ids| - 1];
    SelectElements(prefix, keep);
    if Select(prefix, keep) == [] {
      assert last == e;
      SelectAgrees(prefix, keep, keep - {e});
    } else {
      SelectDropsFront(prefix, keep, e);
      assert e in Select(prefix, keep);
      assert last != e;
    }
  }

  lemma SettlingRefines(s: State, token: Token, verdict: Verdict, agg: Aggregate)
    requires RowsWellShaped(s) && LogMatchesTable(s) && ClaimsWellFormed(s) && OnlyHeadsClaimed(s)
    requires Enabled(s, Settle(token, verdict)) && Affects(s, token, verdict)
    requires s.claims[token].event in Members(s.rows, agg)
    ensures Allows(QueueOf(s, agg), Effect(s, Settle(token, verdict), agg))
    ensures QueueOf(Settled(s, token, verdict), agg) ==
            Apply(QueueOf(s, agg), Effect(s, Settle(token, verdict), agg))
  {
    var e, s' := s.claims[token].event, Settled(s, token, verdict);
    assert WellShaped(s.rows[e]);
    HeadIsFront(s, e, agg);
    if verdict.Acknowledge? {
      assert Waiting(s'.rows, agg) == Waiting(s.rows, agg) - {e};
      forall i, j | 0 <= i < j < |s.inserted|
        ensures s.inserted[i] != s.inserted[j]
      {
        assert Before(s.rows, s.inserted[i], s.inserted[j]);
      }
      SelectDropsFront(s.inserted, Waiting(s.rows, agg), e);
      FrontIsHead(s, agg);
      if |QueueOf(s, agg).pending| > 1 {
        LaterThanUndelivered(s, e, QueueOf(s, agg).pending[1]);
      }
    } else {
      assert Waiting(s'.rows, agg) == Waiting(s.rows, agg);
    }
  }

  lemma InsertingRefines(s: State, e: EventId, row: Row, agg: Aggregate)
    requires LogMatchesTable(s) && Enabled(s, Insert(e, row))
    ensures Allows(QueueOf(s, agg), Effect(s, Insert(e, row), agg))
    ensures QueueOf(Next(s, Insert(e, row)), agg) ==
            Apply(QueueOf(s, agg), Effect(s, Insert(e, row), agg))
  {
    var s' := Next(s, Insert(e, row));
    SelectElements(s.inserted, Waiting(s.rows, agg));
    WaitingAfterInsert(s, e, row, agg);
    SelectAgrees(s.inserted, Waiting(s.rows, agg), Waiting(s'.rows, agg));
    SelectAppends(s.inserted, e, Waiting(s'.rows, agg));
    if QueueOf(s, agg).pending != [] {
      assert QueueOf(s, agg).pending[0] in s.inserted;
    }
  }

  lemma WaitingAfterInsert(s: State, e: EventId, row: Row, agg: Aggregate)
    requires LogMatchesTable(s) && Enabled(s, Insert(e, row))
    ensures Waiting(s.rows[e := row], agg) ==
            if row.envelope.aggregate == agg then Waiting(s.rows, agg) + {e} else Waiting(s.rows, agg)
    ensures e !in s.inserted && e !in Waiting(s.rows, agg)
  {
  }

  /** Claims, releases, deliveries and the clock do not show in any queue. */
  lemma OthersStutter(s: State, step: Step, agg: Aggregate)
    requires RowsWellShaped(s) && LogMatchesTable(s) && ClaimsWellFormed(s) && Enabled(s, step)
    requires !step.Insert?
    requires step.Settle? && Affects(s, step.token, step.verdict) ==>
               s.claims[step.token].event !in Members(s.rows, agg)
    ensures Effect(s, step, agg) == Stutter
    ensures QueueOf(Next(s, step), agg) == QueueOf(s, agg)
  {
    WaitingStands(s, step, agg);
    if QueueOf(s, agg).pending != [] {
      FrontIsHead(s, agg);
    }
  }

  lemma WaitingStands(s: State, step: Step, agg: Aggregate)
    requires ClaimsWellFormed(s) && Enabled(s, step)
    requires !step.Insert?
    requires step.Settle? && Affects(s, step.token, step.verdict) ==>
               s.claims[step.token].event !in Members(s.rows, agg)
    ensures Waiting(Next(s, step).rows, agg) == Waiting(s.rows, agg)
    ensures Next(s, step).inserted == s.inserted
    ensures forall e | e in Waiting(s.rows, agg) ::
              Next(s, step).rows[e].deadLetteredAt == s.rows[e].deadLetteredAt
  {
  }

  lemma StepRefinesQueue(s: State, step: Step, agg: Aggregate)
    requires Inv(s) && Enabled(s, step)
    ensures Allows(QueueOf(s, agg), Effect(s, step, agg))
    ensures QueueOf(Next(s, step), agg) == Apply(QueueOf(s, agg), Effect(s, step, agg))
  {
    if step.Insert? {
      InsertingRefines(s, step.event, step.row, agg);
    } else if step.Settle? && Affects(s, step.token, step.verdict) && s.claims[step.token].event in Members(s.rows, agg) {
      SettlingRefines(s, step.token, step.verdict, agg);
    } else {
      OthersStutter(s, step, agg);
    }
  }

  lemma {:induction false} RunRefinesQueueFrom(s: State, steps: seq<Step>, agg: Aggregate)
    requires Inv(s) && Legal(s, steps)
    ensures AllowsAll(QueueOf(s, agg), Effects(s, steps, agg))
    ensures QueueOf(After(s, steps), agg) == ApplyAll(QueueOf(s, agg), Effects(s, steps, agg))
    decreases |steps|
  {
    if steps != [] {
      StepKeepsInv(s, steps[0]);
      StepRefinesQueue(s, steps[0], agg);
      RunRefinesQueueFrom(Next(s, steps[0]), steps[1..], agg);
      assert Effects(s, steps, agg)[1..] == Effects(Next(s, steps[0]), steps[1..], agg);
    }
  }

  /** Every run of the table is, aggregate by aggregate, a run of the simple queue. */
  lemma RunsRefineQueues(now: Time, steps: seq<Step>, agg: Aggregate)
    requires Legal(Empty(now), steps)
    ensures AllowsAll(Queue([], false), Effects(Empty(now), steps, agg))
    ensures QueueOf(After(Empty(now), steps), agg) ==
            ApplyAll(Queue([], false), Effects(Empty(now), steps, agg))
  {
    EmptyHasInv(now);
    RunRefinesQueueFrom(Empty(now), steps, agg);
  }

  // ----------------------------------------------------------- what a claim can find

  /** The front cannot be claimed at `now`: quarantined, leased, or not yet due. */
  predicate Blocked(row: Row, now: Time) {
    || row.deadLetteredAt.Some?
    || (row.claimUntil.Some? && row.claimUntil.value > now)
    || row.availableAt > now
  }

  lemma EligibleIsUnblockedFront(s: State, e: EventId)
    requires RowsWellShaped(s) && LogMatchesTable(s) && e in s.rows
    ensures Eligible(s.rows, e, s.now) <==>
            var pending := QueueOf(s, s.rows[e].envelope.aggregate).pending;
            pending != [] && pending[0] == e && !Blocked(s.rows[e], s.now)
  {
    var agg := s.rows[e].envelope.aggregate;
    assert WellShaped(s.rows[e]);
    if Eligible(s.rows, e, s.now) {
      HeadIsFront(s, e, agg);
    }
    if QueueOf(s, agg).pending != [] {
      FrontIsHead(s, agg);
    }
  }

  ghost predicate AllFrontsBlocked(s: State) {
    forall agg: Aggregate {:trigger QueueOf(s, agg)} ::
      var pending := QueueOf(s, agg).pending;
      pending != [] ==> pending[0] in s.rows && Blocked(s.rows[pending[0]], s.now)
  }

  /**
   * With no row locked, a claim finds nothing exactly when the lowest undelivered
   * row of every aggregate is dead-lettered, leased or not yet available.
   */
  lemma ClaimsNothingExactlyWhenBlocked(s: State)
    requires Reachable(s)
    ensures IsCandidate(s.rows, s.now, {}, None) <==> AllFrontsBlocked(s)
  {
    ReachableHasInv(s);
    if AllFrontsBlocked(s) {
      forall e | e in s.rows
        ensures !Eligible(s.rows, e, s.now)
      {
        EligibleIsUnblockedFront(s, e);
      }
    }
    if IsCandidate(s.rows, s.now, {}, None) {
      forall agg: Aggregate {:trigger QueueOf(s, agg)} | QueueOf(s, agg).pending != []
        ensures QueueOf(s, agg).pending[0] in s.rows
        ensures Blocked(s.rows[QueueOf(s, agg).pending[0]], s.now)
      {
        FrontIsHead(s, agg);
        EligibleIsUnblockedFront(s, QueueOf(s, agg).pending[0]);
      }
    }
  }

  /** Otherwise it finds the unblocked front that is least by (occurred_at, event_id). */
  lemma ClaimsLeastUnblockedFront(s: State, e: EventId)
    requires Reachable(s) && IsCandidate(s.rows, s.now, {}, Some(e))
    ensures QueueOf(s, s.rows[e].envelope.aggregate).pending != []
    ensures QueueOf(s, s.rows[e].envelope.aggregate).pending[0] == e && !Blocked(s.rows[e], s.now)
    ensures forall agg: Aggregate {:trigger QueueOf(s, agg)} ::
              var pending := QueueOf(s, agg).pending;
              pending != [] && pending[0] in s.rows && !Blocked(s.rows[pending[0]], s.now) ==>
                || s.rows[e].envelope.occurredAt < s.rows[pending[0]].envelope.occurredAt
                || (s.rows[e].envelope.occurredAt == s.rows[pending[0]].envelope.occurredAt && e <= pending[0])
  {
    ReachableHasInv(s);
    EligibleIsUnblockedFront(s, e);
    forall agg: Aggregate {:trigger QueueOf(s, agg)} |
      && QueueOf(s, agg).pending != []
      && QueueOf(s, agg).pending[0] in s.rows
      && !Blocked(s.rows[QueueOf(s, agg).pending[0]], s.now)
      ensures ComesFirst(s.rows, e, QueueOf(s, agg).pending[0])
    {
      FrontIsHead(s, agg);
      EligibleIsUnblockedFront(s, QueueOf(s, agg).pending[0]);
    }
  }

  /** Of several rows one comes first. */
  lemma {:induction false} SomeComesFirst(rows: Table, es: set<EventId>) returns (first: EventId)
    requires es != {} && es <= rows.Keys
    ensures first in es && forall x | x in es :: ComesFirst(rows, first, x)
    decreases |es|
  {
    var e :| e in es;
    first := e;
    if es - {e} != {} {
      var other := SomeComesFirst(rows, es - {e});
      first := if ComesFirst(rows, e, other) then e else other;
    }
    assert forall x | x in es :: x == e || x in es - {e};
  }

  /** A claim always has a choice: nothing, or the least eligible row. */
  lemma ClaimHasChoice(s: State) returns (chosen: Option<EventId>)
    ensures IsCandidate(s.rows, s.now, {}, chosen)
  {
    var eligible := set e | e in s.rows && Eligible(s.rows, e, s.now);
    if eligible == {} {
      chosen := None;
      assert forall e | e in s.rows :: Eligible(s.rows, e, s.now) ==> e in eligible;
    } else {
      var e := SomeComesFirst(s.rows, eligible);
      chosen := Some(e);
    }
  }
}
