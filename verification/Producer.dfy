/** The transactional producer: a record and its event commit together or not at all. */
module Producer {
  import opened Wrappers
  import opened Outbox
  import opened OutboxInvariant
  import opened Dispatcher

  const EVENT_TYPE := "example.record_created"
  const EVENT_VERSION := 1
  const AGGREGATE_TYPE := "example_record"
  const PAYLOAD_SCHEMA_VERSION := 1

  datatype ExampleRecordCreated = ExampleRecordCreated(recordId: int, labelText: string)

  function PayloadOf(event: ExampleRecordCreated): Json {
    Object(map[
      "schema_version" := Number(PAYLOAD_SCHEMA_VERSION),
      "record" := Object(map["id" := Number(event.recordId), "label" := Text(event.labelText)])])
  }

  /** What a consumer reads out of a payload. */
  ghost function ReadPayload(payload: Json): Option<ExampleRecordCreated> {
    if payload.Object? && "record" in payload.fields then
      var record := payload.fields["record"];
      if record.Object? && "id" in record.fields && "label" in record.fields
         && record.fields["id"].Number? && record.fields["label"].Text?
      then Some(ExampleRecordCreated(record.fields["id"].number, record.fields["label"].text))
      else None
    else None
  }

  /** The row the INSERT produces: given columns, then the defaults of the table. */
  function EventRow(event: ExampleRecordCreated, occurredAt: Time, availableAt: Time): Row {
    Row(Envelope(EVENT_TYPE, EVENT_VERSION, Aggregate(AGGREGATE_TYPE, event.recordId), 1, occurredAt,
                 PAYLOAD_SCHEMA_VERSION, PayloadOf(event)),
        availableAt, 0, None, None, None, None, None)
  }

  // ---------------------------------------------------- transactions and their steps

  type TransactionId = nat

  datatype Transaction =
    | Begun(labelText: string)
    | RecordWritten(created: ExampleRecordCreated)
    | EventWritten(created: ExampleRecordCreated, event: EventId, row: Row)

  /** Committed tables, the identity sequence, and the transactions in progress. */
  datatype Installation = Installation(
    outbox: State,
    records: map<int, string>,
    nextId: int,
    open: map<TransactionId, Transaction>)

  datatype Work =
    | Begin(tx: TransactionId, labelText: string)
    | WriteRecord(tx: TransactionId)
    | WriteEvent(tx: TransactionId, event: EventId, occurredAt: Time, availableAt: Time)
    | Commit(tx: TransactionId)
    | Rollback(tx: TransactionId)
    | Dispatch(step: Step)

  /** The uuid is new: neither committed nor written by an open transaction. */
  predicate Unused(inst: Installation, event: EventId) {
    && event !in inst.outbox.rows
    && forall tx | tx in inst.open && inst.open[tx].EventWritten? :: inst.open[tx].event != event
  }

  predicate WorkEnabled(inst: Installation, work: Work) {
    match work
    case Begin(tx, _) => tx !in inst.open
    case WriteRecord(tx) => tx in inst.open && inst.open[tx].Begun?
    case WriteEvent(tx, event, _, _) => tx in inst.open && inst.open[tx].RecordWritten? && Unused(inst, event)
    case Commit(tx) => tx in inst.open && inst.open[tx].EventWritten?
    case Rollback(tx) => tx in inst.open
    case Dispatch(step) => !step.Insert? && Enabled(inst.outbox, step)
  }

  /** The effect of a commit on the committed tables: both rows at once. */
  function Committed(inst: Installation, tx: TransactionId): Installation
    requires tx in inst.open && inst.open[tx].EventWritten?
  {
    var t := inst.open[tx];
    inst.(
      outbox := inst.outbox.(rows := inst.outbox.rows[t.event := t.row],
                             inserted := inst.outbox.inserted + [t.event]),
      records := inst.records[t.created.recordId := t.created.labelText],
      open := inst.open - {tx})
  }

  function WorkNext(inst: Installation, work: Work): Installation
    requires WorkEnabled(inst, work)
  {
    match work
    case Begin(tx, labelText) => inst.(open := inst.open[tx := Begun(labelText)])
    case WriteRecord(tx) =>
      var created := ExampleRecordCreated(inst.nextId, inst.open[tx].labelText);
      inst.(nextId := inst.nextId + 1, open := inst.open[tx := RecordWritten(created)])
    case WriteEvent(tx, event, occurredAt, availableAt) =>
      var created := inst.open[tx].created;
      inst.(open := inst.open[tx := EventWritten(created, event, EventRow(created, occurredAt, availableAt))])
    case Commit(tx) => Committed(inst, tx)
    case Rollback(tx) => inst.(open := inst.open - {tx})
    case Dispatch(step) => inst.(outbox := Next(inst.outbox, step))
  }

  predicate LegalWork(inst: Installation, works: seq<Work>)
    decreases |works|
  {
    works == [] || (WorkEnabled(inst, works[0]) && LegalWork(WorkNext(inst, works[0]), works[1..]))
  }

  function AfterWork(inst: Installation, works: seq<Work>): Installation
    requires LegalWork(inst, works)
    decreases |works|
  {
    if works == [] then inst else AfterWork(WorkNext(inst, works[0]), works[1..])
  }

  function Fresh(now: Time, firstId: int): Installation {
    Installation(Empty(now), map[], firstId, map[])
  }

  // ------------------------------------------------------------------- the invariant

  ghost predicate IdsDistinct(inst: Installation) {
    && (forall id | id in inst.records :: id < inst.nextId)
    && (forall tx | tx in inst.open && !inst.open[tx].Begun? ::
          inst.open[tx].created.recordId < inst.nextId && inst.open[tx].created.recordId !in inst.records)
    && (forall a, b | a in inst.open && b in inst.open && a != b && !inst.open[a].Begun? && !inst.open[b].Begun? ::
          inst.open[a].created.recordId != inst.open[b].created.recordId)
  }

  ghost predicate EventsPending(inst: Installation) {
    && (forall tx | tx in inst.open && inst.open[tx].EventWritten? ::
          && inst.open[tx].event !in inst.outbox.rows
          && inst.open[tx].row == EventRow(inst.open[tx].created, inst.open[tx].row.envelope.occurredAt,
                                           inst.open[tx].row.availableAt))
    && (forall a, b | a in inst.open && b in inst.open && a != b
          && inst.open[a].EventWritten? && inst.open[b].EventWritten? :: inst.open[a].event != inst.open[b].event)
  }

  /** The envelope is that of the event for record `id` with this label. */
  ghost predicate Announces(envelope: Envelope, id: int, labelText: string) {
    && envelope.eventType == "example.record_created"
    && envelope.eventVersion == 1
    && envelope.aggregate == Aggregate("example_record", id)
    && envelope.sequence == 1
    && envelope.payloadSchemaVersion == 1
    && envelope.payload.Object?
    && envelope.payload.fields.Keys == {"schema_version", "record"}
    && envelope.payload.fields["schema_version"] == Number(1)
    && ReadPayload(envelope.payload) == Some(ExampleRecordCreated(id, labelText))
  }

  /** Every event announces a committed record. */
  ghost predicate EventsAnnounce(inst: Installation) {
    forall e | e in inst.outbox.rows ::
      var id := inst.outbox.rows[e].envelope.aggregate.id;
      id in inst.records && Announces(inst.outbox.rows[e].envelope, id, inst.records[id])
  }

  /** No two events are about one record. */
  ghost predicate EventsDiffer(rows: Table) {
    forall e, f | e in rows && f in rows && e != f :: rows[e].envelope.aggregate.id != rows[f].envelope.aggregate.id
  }

  /** Events and records are in bijection, with matching id and label. */
  ghost predicate Paired(inst: Installation) {
    && EventsAnnounce(inst)
    && (forall id | id in inst.records :: HasEvent(inst.outbox.rows, id))
    && EventsDiffer(inst.outbox.rows)
  }

  ghost predicate HasEvent(rows: Table, id: int) {
    exists e :: e in rows && rows[e].envelope.aggregate.id == id
  }

  ghost predicate InstallationInv(inst: Installation) {
    && IdsDistinct(inst)
    && EventsPending(inst)
    && Paired(inst)
    && Inv(inst.outbox)
  }

  /** The outbox steps a piece of work amounts to. */
  function OutboxSteps(inst: Installation, work: Work): seq<Step>
    requires WorkEnabled(inst, work)
  {
    match work
    case Commit(tx) => [Insert(inst.open[tx].event, inst.open[tx].row)]
    case Dispatch(step) => [step]
    case _ => []
  }

  /** A commit is a legal insert: its event is new and nothing of its aggregate is visible yet. */
  lemma WorkRefinesOutbox(inst: Installation, work: Work)
    requires InstallationInv(inst) && WorkEnabled(inst, work)
    ensures Legal(inst.outbox, OutboxSteps(inst, work))
    ensures After(inst.outbox, OutboxSteps(inst, work)) == WorkNext(inst, work).outbox
  {
    if work.Commit? {
      var t := inst.open[work.tx];
      assert Enabled(inst.outbox, Insert(t.event, t.row)) by {
        forall x | x in inst.outbox.rows
          ensures inst.outbox.rows[x].envelope.aggregate != t.row.envelope.aggregate
        {
          assert inst.outbox.rows[x].envelope.aggregate.id in inst.records;
        }
      }
      assert Legal(Next(inst.outbox, Insert(t.event, t.row)), []);
    } else if work.Dispatch? {
      assert Legal(Next(inst.outbox, work.step), []);
    }
  }

  lemma DispatchKeepsPending(inst: Installation, step: Step)
    requires EventsPending(inst) && ClaimsWellFormed(inst.outbox) && WorkEnabled(inst, Dispatch(step))
    ensures EventsPending(WorkNext(inst, Dispatch(step)))
  {
    EnvelopesStand(inst.outbox, step);
  }

  /** Pairing looks at keys and envelopes only. */
  lemma PairingSeesEnvelopes(inst: Installation, after: Installation)
    requires Paired(inst) && after.records == inst.records && after.outbox.rows.Keys == inst.outbox.rows.Keys
    requires forall e | e in inst.outbox.rows :: after.outbox.rows[e].envelope == inst.outbox.rows[e].envelope
    ensures Paired(after)
  {
    forall id | id in inst.records
      ensures HasEvent(after.outbox.rows, id)
    {
      var e :| e in inst.outbox.rows && inst.outbox.rows[e].envelope.aggregate.id == id;
      assert e in after.outbox.rows && after.outbox.rows[e].envelope.aggregate.id == id;
    }
  }

  lemma DispatchKeepsPairs(inst: Installation, step: Step)
    requires Paired(inst) && EventsPending(inst) && Inv(inst.outbox)
    requires WorkEnabled(inst, Dispatch(step))
    ensures Paired(WorkNext(inst, Dispatch(step)))
    ensures EventsPending(WorkNext(inst, Dispatch(step)))
  {
    EnvelopesStand(inst.outbox, step);
    PairingSeesEnvelopes(inst, WorkNext(inst, Dispatch(step)));
    DispatchKeepsPending(inst, step);
  }

  lemma CommitKeepsPairs(inst: Installation, tx: TransactionId)
    requires IdsDistinct(inst) && EventsPending(inst) && Paired(inst) && WorkEnabled(inst, Commit(tx))
    ensures Paired(Committed(inst, tx))
  {
    CommittedRecordsHaveEvents(inst, tx);
    CommittedEventsAnnounce(inst, tx);
    CommittedEventsDiffer(inst, tx);
  }

  lemma CommittedEventsAnnounce(inst: Installation, tx: TransactionId)
    requires IdsDistinct(inst) && EventsPending(inst) && EventsAnnounce(inst) && WorkEnabled(inst, Commit(tx))
    ensures EventsAnnounce(Committed(inst, tx))
  {
  }

  lemma CommittedEventsDiffer(inst: Installation, tx: TransactionId)
    requires IdsDistinct(inst) && EventsPending(inst) && EventsAnnounce(inst) && WorkEnabled(inst, Commit(tx))
    requires EventsDiffer(inst.outbox.rows)
    ensures EventsDiffer(Committed(inst, tx).outbox.rows)
  {
    var t := inst.open[tx];
    assert t.row.envelope.aggregate.id == t.created.recordId;
    assert forall e | e in inst.outbox.rows :: inst.outbox.rows[e].envelope.aggregate.id in inst.records;
  }

  lemma CommittedRecordsHaveEvents(inst: Installation, tx: TransactionId)
    requires EventsPending(inst) && Paired(inst) && WorkEnabled(inst, Commit(tx))
    ensures forall id | id in Committed(inst, tx).records :: HasEvent(Committed(inst, tx).outbox.rows, id)
  {
    var t, rows' := inst.open[tx], Committed(inst, tx).outbox.rows;
    forall id | id in Committed(inst, tx).records
      ensures HasEvent(rows', id)
    {
      if id in inst.records {
        var e :| e in inst.outbox.rows && inst.outbox.rows[e].envelope.aggregate.id == id;
        assert e in rows' && rows'[e].envelope.aggregate.id == id;
      } else {
        assert t.event in rows' && rows'[t.event].envelope.aggregate.id == id;
      }
    }
  }

  lemma IdsKept(inst: Installation, work: Work)
    requires IdsDistinct(inst) && WorkEnabled(inst, work)
    ensures IdsDistinct(WorkNext(inst, work))
  {
  }

  lemma EventsKept(inst: Installation, work: Work)
    requires EventsPending(inst) && WorkEnabled(inst, work) && !work.Dispatch?
    ensures EventsPending(WorkNext(inst, work))
  {
  }

  lemma PairsKept(inst: Installation, work: Work)
    requires InstallationInv(inst) && WorkEnabled(inst, work)
    ensures Paired(WorkNext(inst, work)) && EventsPending(WorkNext(inst, work))
  {
    if work.Dispatch? {
      DispatchKeepsPairs(inst, work.step);
    } else {
      EventsKept(inst, work);
      if work.Commit? {
        CommitKeepsPairs(inst, work.tx);
      }
    }
  }

  lemma WorkKeepsInv(inst: Installation, work: Work)
    requires InstallationInv(inst) && WorkEnabled(inst, work)
    ensures InstallationInv(WorkNext(inst, work))
  {
    IdsKept(inst, work);
    PairsKept(inst, work);
    WorkRefinesOutbox(inst, work);
    RunKeepsInv(inst.outbox, OutboxSteps(inst, work));
  }

  lemma {:induction false} WorksKeepInv(inst: Installation, works: seq<Work>)
    requires InstallationInv(inst) && LegalWork(inst, works)
    requires Reachable(inst.outbox)
    ensures InstallationInv(AfterWork(inst, works))
    ensures Reachable(AfterWork(inst, works).outbox)
    decreases |works|
  {
    if works != [] {
      WorkKeepsInv(inst, works[0]);
      WorkRefinesOutbox(inst, works[0]);
      ReachableExtends(inst.outbox, OutboxSteps(inst, works[0]));
      WorksKeepInv(WorkNext(inst, works[0]), works[1..]);
    }
  }

  /**
   * End to end: whatever commits, rolls back, crashes or is redelivered, the
   * outbox is a reachable outbox, its events and the committed records are in
   * bijection, every accepted event names a committed record by id and label,
   * and every delivered event was accepted.
   */
  lemma OutboxAndRecordsAgree(now: Time, firstId: int, works: seq<Work>)
    requires LegalWork(Fresh(now, firstId), works)
    ensures var inst := AfterWork(Fresh(now, firstId), works);
      && Reachable(inst.outbox)
      && Paired(inst)
      && (forall e | e in inst.outbox.accepted ::
            && e in inst.outbox.rows
            && inst.outbox.rows[e].envelope.aggregate.id in inst.records
            && Announces(inst.outbox.rows[e].envelope, inst.outbox.rows[e].envelope.aggregate.id,
                         inst.records[inst.outbox.rows[e].envelope.aggregate.id]))
      && (forall e | e in inst.outbox.rows && inst.outbox.rows[e].deliveredAt.Some? :: e in inst.outbox.accepted)
  {
    assert Legal(Empty(now), []) && Empty(now) == After(Empty(now), []);
    EmptyHasInv(now);
    WorksKeepInv(Fresh(now, firstId), works);
  }

  // ------------------------------------------------------------------ the module API

  /**
   * Where a call can fail with a database error: the failing INSERT of the record
   * may have drawn its id, and the reply to a COMMIT that took effect may be lost.
   */
  datatype Fault = AtBegin | AtRecord(drawn: bool) | AtEvent | AtCommit | AtReply

  datatype DatabaseError = DatabaseError(fault: Fault)

  /** The work of one call, in order; an error drops the transaction, which rolls it back. */
  function CallScript(tx: TransactionId, labelText: string, event: EventId, now: Time, fault: Option<Fault>): seq<Work> {
    if fault == Some(AtBegin) then []
    else if fault == Some(AtRecord(false)) then [Begin(tx, labelText), Rollback(tx)]
    else if fault == Some(AtRecord(true)) || fault == Some(AtEvent) then [Begin(tx, labelText), WriteRecord(tx), Rollback(tx)]
    else [Begin(tx, labelText), WriteRecord(tx), WriteEvent(tx, event, now, now)] + [LastWork(tx, fault)]
  }

  predicate TakesEffect(fault: Option<Fault>) {
    fault == None || fault == Some(AtReply)
  }

  function LastWork(tx: TransactionId, fault: Option<Fault>): Work {
    if TakesEffect(fault) then Commit(tx) else Rollback(tx)
  }

  /** Where a call leaves the tables: both rows or neither, and a drawn id is never returned. */
  function CallEnd(inst: Installation, labelText: string, event: EventId, now: Time, fault: Option<Fault>): Installation {
    var created := ExampleRecordCreated(inst.nextId, labelText);
    var drawn := inst.(nextId := inst.nextId + 1);
    if fault == Some(AtBegin) || fault == Some(AtRecord(false)) then inst
    else if !TakesEffect(fault) then drawn
    else drawn.(
      records := inst.records[created.recordId := labelText],
      outbox := inst.outbox.(rows := inst.outbox.rows[event := EventRow(created, now, now)],
                             inserted := inst.outbox.inserted + [event]))
  }

  predicate Ran(inst: Installation, works: seq<Work>, end: Installation) {
    LegalWork(inst, works) && AfterWork(inst, works) == end
  }

  lemma EventRowAnnounces(created: ExampleRecordCreated, occurredAt: Time, availableAt: Time)
    ensures Announces(EventRow(created, occurredAt, availableAt).envelope, created.recordId, created.labelText)
  {
  }

  /** What the outbox holds after a call that took effect, against what it held before. */
  ghost predicate CreatedEvent(before: State, after: State, event: EventId, now: Time, id: int, labelText: string) {
    && after.rows.Keys == before.rows.Keys + {event} && event !in before.rows
    && (forall x | x in before.rows :: after.rows[x] == before.rows[x])
    && Announces(after.rows[event].envelope, id, labelText)
    && after.rows[event].envelope.occurredAt == now
    && after.rows[event].availableAt == now
    && after.rows[event].attemptCount == 0
    && Eligible(after.rows, event, now)
  }

  /**
   * A call that takes effect leaves one new row: it announces the record, bears
   * the instant of the call in both time columns, was never attempted, and can be
   * claimed at that very instant.
   */
  lemma CreatedEventIsClaimableAtOnce(inst: Installation, labelText: string, event: EventId, now: Time, fault: Option<Fault>)
    requires IdsDistinct(inst) && EventsAnnounce(inst) && Unused(inst, event)
    requires fault == None || fault == Some(AtReply)
    ensures CreatedEvent(inst.outbox, CallEnd(inst, labelText, event, now, fault).outbox, event, now, inst.nextId, labelText)
  {
    var created := ExampleRecordCreated(inst.nextId, labelText);
    var row := EventRow(created, now, now);
    EventRowAnnounces(created, now, now);
    forall x | x in inst.outbox.rows
      ensures inst.outbox.rows[x].envelope.aggregate != row.envelope.aggregate
    {
      assert inst.outbox.rows[x].envelope.aggregate.id in inst.records;
    }
    NewAggregateIsHead(inst.outbox.rows, event, row, now);
  }

  lemma NewAggregateIsHead(rows: Table, event: EventId, row: Row, now: Time)
    requires event !in rows && OwnRowClaimable(row, now)
    requires forall x | x in rows :: rows[x].envelope.aggregate != row.envelope.aggregate
    ensures Eligible(rows[event := row], event, now)
  {
  }

  lemma {:induction false} WorkAppends(inst: Installation, works: seq<Work>, work: Work)
    requires LegalWork(inst, works) && WorkEnabled(AfterWork(inst, works), work)
    ensures LegalWork(inst, works + [work])
    ensures AfterWork(inst, works + [work]) == WorkNext(AfterWork(inst, works), work)
    decreases |works|
  {
    if works == [] {
      assert LegalWork(WorkNext(inst, work), []);
    } else {
      WorkAppends(WorkNext(inst, works[0]), works[1..], work);
      assert (works + [work])[1..] == works[1..] + [work];
    }
  }

  lemma RanOneMore(inst: Installation, works: seq<Work>, at: Installation, work: Work)
    requires Ran(inst, works, at) && WorkEnabled(at, work)
    ensures Ran(inst, works + [work], WorkNext(at, work))
  {
    WorkAppends(inst, works, work);
  }

  lemma Closes(inst: Installation, tx: TransactionId, t: Transaction)
    requires tx !in inst.open
    ensures inst.open[tx := t] - {tx} == inst.open
  {
  }

  lemma LastWorkEndsCall(inst: Installation, written: Installation, tx: TransactionId, labelText: string,
                         event: EventId, now: Time, fault: Option<Fault>)
    requires tx !in inst.open && Unused(inst, event)
    requires TakesEffect(fault) || (fault != Some(AtBegin) && fault != Some(AtRecord(false)))
    requires written == inst.(
      nextId := inst.nextId + 1,
      open := inst.open[tx := RecordWritten(ExampleRecordCreated(inst.nextId, labelText))])
    ensures WorkEnabled(written, WriteEvent(tx, event, now, now))
    ensures var staged := WorkNext(written, WriteEvent(tx, event, now, now));
      && WorkEnabled(staged, LastWork(tx, fault))
      && WorkNext(staged, LastWork(tx, fault)) == CallEnd(inst, labelText, event, now, fault)
  {
    var staged := WorkNext(written, WriteEvent(tx, event, now, now));
    Closes(inst, tx, staged.open[tx]);
    assert staged.open == inst.open[tx := staged.open[tx]];
  }

  /**
   * Both rows or neither, and no open transaction: success means both, an error
   * means neither, unless it was the reply to the COMMIT that was lost.
   */
  lemma CallIsAllOrNothing(inst: Installation, tx: TransactionId, labelText: string, event: EventId, now: Time,
                           fault: Option<Fault>)
    requires tx !in inst.open && Unused(inst, event)
    ensures Ran(inst, CallScript(tx, labelText, event, now, fault), CallEnd(inst, labelText, event, now, fault))
    ensures var end := CallEnd(inst, labelText, event, now, fault);
      && end.open == inst.open
      && end.nextId == inst.nextId + (if fault == Some(AtBegin) || fault == Some(AtRecord(false)) then 0 else 1)
      && if fault == None || fault == Some(AtReply) then
           && end.records == inst.records[inst.nextId := labelText]
           && event in end.outbox.rows && event !in inst.outbox.rows
         else
           end.records == inst.records && end.outbox == inst.outbox
  {
    if fault != Some(AtBegin) {
      var a := WorkNext(inst, Begin(tx, labelText));
      var one := [Begin(tx, labelText)];
      RanOneMore(inst, [], inst, one[0]);
      Closes(inst, tx, a.open[tx]);
      if fault == Some(AtRecord(false)) {
        RanOneMore(inst, one, a, Rollback(tx));
      } else {
        RanOneMore(inst, one, a, WriteRecord(tx));
        AllOrNothingAfterRecord(inst, tx, labelText, event, now, fault, WorkNext(a, WriteRecord(tx)));
      }
    }
  }

  lemma AllOrNothingAfterRecord(inst: Installation, tx: TransactionId, labelText: string, event: EventId, now: Time,
                                fault: Option<Fault>, b: Installation)
    requires tx !in inst.open && Unused(inst, event)
    requires fault != Some(AtBegin) && fault != Some(AtRecord(false))
    requires Ran(inst, [Begin(tx, labelText)] + [WriteRecord(tx)], b)
    requires b == inst.(nextId := inst.nextId + 1,
                        open := inst.open[tx := RecordWritten(ExampleRecordCreated(inst.nextId, labelText))])
    ensures Ran(inst, CallScript(tx, labelText, event, now, fault), CallEnd(inst, labelText, event, now, fault))
  {
    var two, script := [Begin(tx, labelText)] + [WriteRecord(tx)], CallScript(tx, labelText, event, now, fault);
    Closes(inst, tx, b.open[tx]);
    if fault == Some(AtRecord(true)) || fault == Some(AtEvent) {
      RanOneMore(inst, two, b, Rollback(tx));
      assert two + [Rollback(tx)] == script;
    } else {
      var d := WorkNext(b, WriteEvent(tx, event, now, now));
      RanOneMore(inst, two, b, WriteEvent(tx, event, now, now));
      LastWorkEndsCall(inst, b, tx, labelText, event, now, fault);
      RanOneMore(inst, two + [WriteEvent(tx, event, now, now)], d, LastWork(tx, fault));
      assert two + [WriteEvent(tx, event, now, now)] + [LastWork(tx, fault)] == script;
    }
  }

  class ExampleDatabase {
    const outbox: OutboxDatabase
    var records: map<int, string>
    var nextId: int
    var open: map<TransactionId, Transaction>

    function View(): Installation
      reads this, outbox
    {
      Installation(outbox.View(), records, nextId, open)
    }

    constructor (outbox: OutboxDatabase, firstId: int)
      ensures this.outbox == outbox
      ensures View() == Installation(outbox.View(), map[], firstId, map[])
    {
      this.outbox := outbox;
      records, nextId, open := map[], firstId, map[];
    }

    /** INSERT INTO example_records ... RETURNING id, label; the id stays drawn even if the insert is undone. */
    method WriteBusinessState(tx: TransactionId) returns (created: ExampleRecordCreated)
      requires tx in open && open[tx].Begun?
      modifies this
      ensures View() == WorkNext(old(View()), WriteRecord(tx))
      ensures open[tx] == RecordWritten(created) && created.labelText == old(open)[tx].labelText
    {
      created := ExampleRecordCreated(nextId, open[tx].labelText);
      nextId := nextId + 1;
      open := open[tx := RecordWritten(created)];
    }

    method WriteOutboxEvent(tx: TransactionId, event: EventId)
      requires tx in open && open[tx].RecordWritten? && Unused(View(), event)
      modifies this
      ensures View() == WorkNext(old(View()), WriteEvent(tx, event, outbox.now, outbox.now))
      ensures open[tx].EventWritten? && open[tx].event == event
      ensures Announces(open[tx].row.envelope, old(open)[tx].created.recordId, old(open)[tx].created.labelText)
      ensures open[tx].row.envelope.occurredAt == outbox.now && open[tx].row.availableAt == outbox.now
      ensures FreshRow(open[tx].row)
    {
      var created := open[tx].created;
      open := open[tx := EventWritten(created, event, EventRow(created, outbox.now, outbox.now))];
    }

    /** Dropping a transaction undoes what it wrote. */
    method Abandon(tx: TransactionId)
      requires tx in open
      modifies this
      ensures View() == WorkNext(old(View()), Rollback(tx))
    {
      open := open - {tx};
    }

    /** The second INSERT and the end of the transaction. */
    method WriteEventAndEnd(tx: TransactionId, event: EventId, fault: Option<Fault>)
      requires tx in open && open[tx].RecordWritten? && Unused(View(), event)
      modifies this, outbox
      ensures outbox.now == old(outbox.now)
      ensures View() == WorkNext(WorkNext(old(View()), WriteEvent(tx, event, outbox.now, outbox.now)), LastWork(tx, fault))
    {
      WriteOutboxEvent(tx, event);
      if TakesEffect(fault) {
        CommitWork(tx);
      } else {
        Abandon(tx);
      }
    }

    /** The record and its event, or neither, whichever statement fails. */
    method CreateRecord(tx: TransactionId, labelText: string, event: EventId, fault: Option<Fault>)
      returns (result: Result<ExampleRecordCreated, DatabaseError>)
      requires tx !in open && Unused(View(), event)
      modifies this, outbox
      ensures View() == CallEnd(old(View()), labelText, event, old(outbox.now), fault)
      ensures if fault == None || fault == Some(AtReply) then
                && records == old(records)[old(nextId) := labelText]
                && event in outbox.rows
                && outbox.rows[event].envelope.occurredAt == old(outbox.now)
                && outbox.rows[event].availableAt == old(outbox.now)
              else
                records == old(records) && outbox.View() == old(outbox.View())
      ensures result == if fault.Some? then Err(DatabaseError(fault.value))
                        else Ok(ExampleRecordCreated(old(nextId), labelText))
    {
      ghost var start, at := View(), outbox.now;
      if fault == Some(AtBegin) {
        return Err(DatabaseError(AtBegin));
      }
      open := open[tx := Begun(labelText)];
      if fault == Some(AtRecord(false)) {
        Closes(start, tx, open[tx]);
        Abandon(tx);
        return Err(DatabaseError(fault.value));
      }
      var created := WriteBusinessState(tx);
      Closes(start, tx, open[tx]);
      if fault == Some(AtRecord(true)) || fault == Some(AtEvent) {
        Abandon(tx);
        return Err(DatabaseError(fault.value));
      }
      LastWorkEndsCall(start, View(), tx, labelText, event, at, fault);
      WriteEventAndEnd(tx, event, fault);
      result := if fault.Some? then Err(DatabaseError(fault.value)) else Ok(created);
    }

    /** COMMIT: the record and its event become visible together. */
    method CommitWork(tx: TransactionId)
      requires tx in open && open[tx].EventWritten?
      modifies this, outbox
      ensures View() == WorkNext(old(View()), Commit(tx))
    {
      var t := open[tx];
      outbox.rows := outbox.rows[t.event := t.row];
      outbox.inserted := outbox.inserted + [t.event];
      records := records[t.created.recordId := t.created.labelText];
      open := open - {tx};
    }
  }
}
