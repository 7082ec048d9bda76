/**
 * The module-owned outbox table and the guarded statements that move it.
 *
 * A `State` is the table, the database clock, and three logs the table does not
 * keep: the claims ever issued, the order in which rows became visible, and the
 * acceptances reported by the delivery port.  A `Step` is one committed SQL
 * statement, one delivery outcome, one committed insert or a move of the clock.
 * Any number of workers is any interleaving of steps; a crashed worker is a
 * token for which no further step occurs.
 */
module Outbox {
  import opened Wrappers

  /** A uuid, of which only equality and the ORDER BY order matter. */
  type EventId = nat

  /** The value of `claimed_by`: worker name and a random uuid, here one fresh name. */
  type Token = nat

  /** Microseconds, the resolution of a timestamp column. */
  type Time = int

  const SECOND: int := 1_000_000

  datatype Aggregate = Aggregate(kind: string, id: int)

  datatype Json =
    | Number(number: int)
    | Text(text: string)
    | Object(fields: map<string, Json>)

  /** The columns no statement of the dispatcher ever writes. */
  datatype Envelope = Envelope(
    eventType: string,
    eventVersion: int,
    aggregate: Aggregate,
    sequence: int,
    occurredAt: Time,
    payloadSchemaVersion: int,
    payload: Json)

  datatype Row = Row(
    envelope: Envelope,
    availableAt: Time,
    attemptCount: nat,
    claimedBy: Option<Token>,
    claimUntil: Option<Time>,
    deliveredAt: Option<Time>,
    deadLetteredAt: Option<Time>,
    deadLetterReason: Option<string>)

  type Table = map<EventId, Row>

  /** What became of the delivery made under a claim. */
  datatype Phase = Issued | Accepted | Rejected

  datatype Verdict =
    | Acknowledge
    | Release
    | DeadLetter(reason: string)

  datatype Settlement = Settlement(verdict: Verdict, at: Time)

  /** Everything that happened under one token. */
  datatype Claim = Claim(
    event: EventId,
    from: Time,
    until: Time,
    phase: Phase,
    settled: Option<Settlement>)
  {
    /** Where the token's ownership of the event stops: settlement, else the deadline. */
    function End(): Time {
      if settled.Some? then settled.value.at else until
    }

    predicate Owns(t: Time) {
      from <= t < End()
    }
  }

  datatype State = State(
    now: Time,
    rows: Table,
    claims: map<Token, Claim>,
    inserted: seq<EventId>,
    accepted: seq<EventId>)

  datatype Step =
    | Tick(now: Time)
    | Insert(event: EventId, row: Row)
    | ClaimNext(token: Token, leaseSeconds: nat, locked: set<EventId>, chosen: Option<EventId>)
    | Deliver(token: Token, ok: bool)
    | Settle(token: Token, verdict: Verdict)

  // ---------------------------------------------------------------- the claim

  predicate Earlier(rows: Table, x: EventId, e: EventId)
    requires x in rows && e in rows
  {
    && rows[x].envelope.aggregate == rows[e].envelope.aggregate
    && rows[x].envelope.sequence < rows[e].envelope.sequence
  }

  /** The NOT EXISTS subquery: no earlier row of the aggregate is undelivered. */
  predicate IsHead(rows: Table, e: EventId)
    requires e in rows
  {
    forall x | x in rows && Earlier(rows, x, e) :: rows[x].deliveredAt.Some?
  }

  /** The conditions of the claim on the candidate's own row. */
  predicate OwnRowClaimable(row: Row, now: Time) {
    && row.deliveredAt.None?
    && row.deadLetteredAt.None?
    && row.availableAt <= now
    && (row.claimedBy.None? || (row.claimUntil.Some? && row.claimUntil.value <= now))
  }

  predicate Eligible(rows: Table, e: EventId, now: Time) {
    e in rows && OwnRowClaimable(rows[e], now) && IsHead(rows, e)
  }

  /** ORDER BY occurred_at, event_id. */
  predicate ComesFirst(rows: Table, e: EventId, x: EventId)
    requires e in rows && x in rows
  {
    || rows[e].envelope.occurredAt < rows[x].envelope.occurredAt
    || (rows[e].envelope.occurredAt == rows[x].envelope.occurredAt && e <= x)
  }

  /** What SKIP LOCKED LIMIT 1 selects when `locked` rows are held by other statements. */
  predicate IsCandidate(rows: Table, now: Time, locked: set<EventId>, chosen: Option<EventId>) {
    match chosen
    case None => forall x | x in rows && x !in locked :: !Eligible(rows, x, now)
    case Some(e) =>
      && e !in locked
      && Eligible(rows, e, now)
      && forall x | x in rows && x !in locked && Eligible(rows, x, now) :: ComesFirst(rows, e, x)
  }

  function ClaimedRow(row: Row, token: Token, until: Time): Row {
    row.(claimedBy := Some(token), claimUntil := Some(until), attemptCount := row.attemptCount + 1)
  }

  // ----------------------------------------------------------- the settlements

  /** The WHERE clause of the settlement; only the dead letter reads dead_lettered_at. */
  predicate Matches(row: Row, token: Token, verdict: Verdict, now: Time) {
    && row.deliveredAt.None?
    && (verdict.DeadLetter? ==> row.deadLetteredAt.None?)
    && row.claimedBy == Some(token)
    && row.claimUntil.Some?
    && row.claimUntil.value > now
  }

  function SettledRow(row: Row, verdict: Verdict, now: Time): Row {
    var free := row.(claimedBy := None, claimUntil := None);
    match verdict
    case Acknowledge => free.(deliveredAt := Some(now))
    case Release => free.(availableAt := now)
    case DeadLetter(reason) => free.(deadLetteredAt := Some(now), deadLetterReason := Some(reason))
  }

  /** Whether the settlement by an issued token updates a row. */
  predicate Affects(s: State, token: Token, verdict: Verdict)
    requires token in s.claims
  {
    var e := s.claims[token].event;
    e in s.rows && Matches(s.rows[e], token, verdict, s.now)
  }

  // ------------------------------------------------------------------ the steps

  /** A row as INSERT leaves it: the checks hold and every other column has its default. */
  predicate FreshRow(row: Row) {
    && row.envelope.eventVersion > 0
    && row.envelope.sequence > 0
    && row.envelope.payloadSchemaVersion > 0
    && row.attemptCount == 0
    && row.claimedBy.None? && row.claimUntil.None?
    && row.deliveredAt.None?
    && row.deadLetteredAt.None? && row.deadLetterReason.None?
  }

  /** The hypothesis on producers: an aggregate's rows appear in increasing sequence. */
  predicate Appends(rows: Table, row: Row) {
    forall x | x in rows && rows[x].envelope.aggregate == row.envelope.aggregate ::
      rows[x].envelope.sequence < row.envelope.sequence
  }

  predicate Enabled(s: State, step: Step) {
    match step
    case Tick(now) => s.now <= now
    case Insert(e, row) => e !in s.rows && FreshRow(row) && Appends(s.rows, row)
    case ClaimNext(token, lease, locked, chosen) =>
      token !in s.claims && lease > 0 && IsCandidate(s.rows, s.now, locked, chosen)
    case Deliver(token, _) => token in s.claims && s.claims[token].phase.Issued?
    case Settle(token, verdict) =>
      token in s.claims && (verdict.Acknowledge? ==> s.claims[token].phase.Accepted?)
  }

  function Next(s: State, step: Step): State
    requires Enabled(s, step)
  {
    match step
    case Tick(now) => s.(now := now)
    case Insert(e, row) => s.(rows := s.rows[e := row], inserted := s.inserted + [e])
    case ClaimNext(token, lease, _, chosen) =>
      if chosen.None? then s else Claimed(s, chosen.value, token, lease)
    case Deliver(token, ok) => Delivered(s, token, ok)
    case Settle(token, verdict) =>
      if Affects(s, token, verdict) then Settled(s, token, verdict) else s
  }

  function Claimed(s: State, e: EventId, token: Token, lease: nat): State
    requires e in s.rows
  {
    var until := s.now + lease * SECOND;
    s.(rows := s.rows[e := ClaimedRow(s.rows[e], token, until)],
       claims := s.claims[token := Claim(e, s.now, until, Issued, None)])
  }

  function Delivered(s: State, token: Token, ok: bool): State
    requires token in s.claims
  {
    var c := s.claims[token];
    s.(claims := s.claims[token := c.(phase := if ok then Accepted else Rejected)],
       accepted := if ok then s.accepted + [c.event] else s.accepted)
  }

  function Settled(s: State, token: Token, verdict: Verdict): State
    requires token in s.claims && Affects(s, token, verdict)
  {
    var c := s.claims[token];
    s.(rows := s.rows[c.event := SettledRow(s.rows[c.event], verdict, s.now)],
       claims := s.claims[token := c.(settled := Some(Settlement(verdict, s.now)))])
  }

  // ------------------------------------------------------------------- the runs

  function Empty(now: Time): State {
    State(now, map[], map[], [], [])
  }

  predicate Legal(s: State, steps: seq<Step>)
    decreases |steps|
  {
    steps == [] || (Enabled(s, steps[0]) && Legal(Next(s, steps[0]), steps[1..]))
  }

  function After(s: State, steps: seq<Step>): State
    requires Legal(s, steps)
    decreases |steps|
  {
    if steps == [] then s else After(Next(s, steps[0]), steps[1..])
  }

  lemma {:induction false} RunsCompose(s: State, a: seq<Step>, b: seq<Step>)
    requires Legal(s, a)
    requires Legal(After(s, a), b)
    ensures Legal(s, a + b)
    ensures After(s, a + b) == After(After(s, a), b)
    decreases |a|
  {
    if a == [] {
      assert a + b == b;
    } else {
      RunsCompose(Next(s, a[0]), a[1..], b);
      assert (a + b)[1..] == a[1..] + b;
    }
  }
}
