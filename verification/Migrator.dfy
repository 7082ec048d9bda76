/** One schema's migrator: its statements, what a complete run of them leaves, and why a partial run is harmless. */
module Migrator {
  import opened Wrappers
  import opened Catalog

  /** The embedded scripts: one version each, creating relations of their own. */
  predicate WellFormedScripts(ms: seq<Migration>) {
    && (forall i, j | 0 <= i < j < |ms| ::
          && ms[i].version != ms[j].version
          && ms[i].tables !! ms[j].tables && ms[i].sequences !! ms[j].sequences)
    && (forall m | m in ms :: HISTORY !in m.tables)
  }

  function Applies(schema: string, ms: seq<Migration>): seq<Statement> {
    seq(|ms|, i requires 0 <= i < |ms| => ApplyMigration(schema, ms[i]))
  }

  function MigratorPlan(schema: string, ms: seq<Migration>): seq<Statement> {
    [CreateSchema(schema)] + ([EnsureHistory(schema)] + ([CheckHistory(schema, ms)] + Applies(schema, ms)))
  }

  // ------------------------------------------------------------ the result in one go

  function HistoryOf(c: Catalog, schema: string): map<int, Applied> {
    if schema in c.histories then c.histories[schema] else map[]
  }

  function PendingTables(history: map<int, Applied>, ms: seq<Migration>): set<string> {
    set m, t | m in ms && m.version !in history && t in m.tables :: t
  }

  function PendingSequences(history: map<int, Applied>, ms: seq<Migration>): set<string> {
    set m, t | m in ms && m.version !in history && t in m.sequences :: t
  }

  function MigratedHistory(history: map<int, Applied>, ms: seq<Migration>): map<int, Applied>
    decreases |ms|
  {
    if ms == [] then history else
      var m := ms[0];
      MigratedHistory(if m.version in history then history else history[m.version := Applied(m.checksum, true)], ms[1..])
  }

  /** An applied migration has the recorded checksum; a pending one creates relations nobody has. */
  predicate ApplyOk(c: Catalog, schema: string, m: Migration) {
    var h := HistoryOf(c, schema);
    if m.version in h then h[m.version].checksum == m.checksum
    else Named(schema, m.tables) !! c.tables && Named(schema, m.sequences) !! c.sequences
  }

  predicate AppliesOk(c: Catalog, schema: string, ms: seq<Migration>) {
    forall m | m in ms :: ApplyOk(c, schema, m)
  }

  /** New relations and the history that records them, together. */
  function Extended(c: Catalog, schema: string, history: map<int, Applied>, tables: set<string>, sequences: set<string>): Catalog {
    c.(tables := c.tables + Named(schema, tables),
       sequences := c.sequences + Named(schema, sequences),
       tableGrants := c.tableGrants + BornGrants(c.defaultTables, schema, tables),
       sequenceGrants := c.sequenceGrants + BornSequenceGrants(c.defaultSequences, schema, sequences),
       histories := c.histories[schema := history])
  }

  function Applying(c: Catalog, schema: string, ms: seq<Migration>): Catalog {
    var h := HistoryOf(c, schema);
    Extended(c, schema, MigratedHistory(h, ms), PendingTables(h, ms), PendingSequences(h, ms))
  }

  function WithSchema(c: Catalog, schema: string): Catalog {
    c.(schemas := c.schemas + {schema})
  }

  function WithHistory(c: Catalog, schema: string): Catalog {
    if schema in c.histories then c
    else Extended(c, schema, map[], {HISTORY}, {})
  }

  function Migrated(c: Catalog, schema: string, ms: seq<Migration>): Catalog {
    Applying(WithHistory(WithSchema(c, schema), schema), schema, ms)
  }

  predicate MigratorOk(c: Catalog, schema: string, ms: seq<Migration>) {
    && KnownAndClean(HistoryOf(c, schema), ms)
    && AppliesOk(WithHistory(c, schema), schema, ms)
  }

  // ------------------------------------------------------- step by step equals in one go

  lemma BornCombine(defaults: set<DefaultGrant>, schema: string, a: set<string>, b: set<string>)
    ensures BornGrants(defaults, schema, a + b) == BornGrants(defaults, schema, a) + BornGrants(defaults, schema, b)
  {
  }

  lemma BornSequencesCombine(defaults: set<(string, string)>, schema: string, a: set<string>, b: set<string>)
    ensures BornSequenceGrants(defaults, schema, a + b) ==
            BornSequenceGrants(defaults, schema, a) + BornSequenceGrants(defaults, schema, b)
  {
  }

  lemma NamesCombine(schema: string, a: set<string>, b: set<string>)
    ensures Named(schema, a + b) == Named(schema, a) + Named(schema, b)
  {
  }

  lemma NoRelations(c: Catalog, schema: string)
    ensures WithRelations(c, schema, {}, {}) == c
  {
    assert Named(schema, {}) == {};
    assert BornGrants(c.defaultTables, schema, {}) == {};
    assert BornSequenceGrants(c.defaultSequences, schema, {}) == {};
  }

  function HistoryAfter(h: map<int, Applied>, m: Migration): map<int, Applied> {
    if m.version in h then h else h[m.version := Applied(m.checksum, true)]
  }

  function AfterOne(c: Catalog, schema: string, m: Migration): Catalog {
    var h := HistoryOf(c, schema);
    if m.version in h then c else Extended(c, schema, HistoryAfter(h, m), m.tables, m.sequences)
  }

  lemma Tail(ms: seq<Migration>)
    requires WellFormedScripts(ms) && ms != []
    ensures WellFormedScripts(ms[1..])
    ensures forall m | m in ms[1..] ::
              && m in ms && m.version != ms[0].version
              && m.tables !! ms[0].tables && m.sequences !! ms[0].sequences
    ensures forall m :: m in ms <==> m == ms[0] || m in ms[1..]
  {
    assert ms == [ms[0]] + ms[1..];
    forall m | m in ms[1..]
      ensures m.version != ms[0].version && m.tables !! ms[0].tables && m.sequences !! ms[0].sequences
    {
      var i :| 0 <= i < |ms[1..]| && ms[1..][i] == m;
      assert ms[i + 1] == m;
    }
  }

  lemma PendingSplits(h: map<int, Applied>, ms: seq<Migration>)
    requires WellFormedScripts(ms) && ms != []
    ensures var m := ms[0];
      && PendingTables(h, ms) == (if m.version in h then {} else m.tables) + PendingTables(HistoryAfter(h, m), ms[1..])
      && PendingSequences(h, ms) ==
           (if m.version in h then {} else m.sequences) + PendingSequences(HistoryAfter(h, m), ms[1..])
  {
    Tail(ms);
  }

  lemma OkSplits(c: Catalog, schema: string, ms: seq<Migration>)
    requires WellFormedScripts(ms) && ms != [] && ApplyOk(c, schema, ms[0])
    ensures AppliesOk(c, schema, ms) <==> AppliesOk(AfterOne(c, schema, ms[0]), schema, ms[1..])
  {
    Tail(ms);
    var c', m0 := AfterOne(c, schema, ms[0]), ms[0];
    forall m | m in ms[1..]
      ensures ApplyOk(c, schema, m) <==> ApplyOk(c', schema, m)
    {
      OthersUnaffected(c, schema, m0, m);
    }
  }

  lemma OthersUnaffected(c: Catalog, schema: string, m0: Migration, m: Migration)
    requires m.version != m0.version && m.tables !! m0.tables && m.sequences !! m0.sequences
    ensures ApplyOk(c, schema, m) <==> ApplyOk(AfterOne(c, schema, m0), schema, m)
  {
  }

  lemma UnionsNest<T>(x: set<T>, a: set<T>, b: set<T>)
    ensures x + a + b == x + (a + b)
  {
  }

  lemma ExtendedTwice(c: Catalog, schema: string, h: map<int, Applied>, a: set<string>, p: set<string>,
                      h': map<int, Applied>, b: set<string>, q: set<string>)
    ensures Extended(Extended(c, schema, h, a, p), schema, h', b, q) == Extended(c, schema, h', a + b, p + q)
  {
    NamesCombine(schema, a, b);
    NamesCombine(schema, p, q);
    BornCombine(c.defaultTables, schema, a, b);
    BornSequencesCombine(c.defaultSequences, schema, p, q);
    UnionsNest(c.tables, Named(schema, a), Named(schema, b));
    UnionsNest(c.sequences, Named(schema, p), Named(schema, q));
    UnionsNest(c.tableGrants, BornGrants(c.defaultTables, schema, a), BornGrants(c.defaultTables, schema, b));
    UnionsNest(c.sequenceGrants, BornSequenceGrants(c.defaultSequences, schema, p), BornSequenceGrants(c.defaultSequences, schema, q));
    HistoriesOverwrite(c.histories, schema, h, h');
  }

  lemma HistoriesOverwrite(histories: map<string, map<int, Applied>>, schema: string, h: map<int, Applied>, h': map<int, Applied>)
    ensures histories[schema := h][schema := h'] == histories[schema := h']
  {
  }

  lemma ApplyingSplits(c: Catalog, schema: string, ms: seq<Migration>)
    requires schema in c.histories && WellFormedScripts(ms) && ms != []
    ensures Applying(c, schema, ms) == Applying(AfterOne(c, schema, ms[0]), schema, ms[1..])
  {
    var h, m, rest := HistoryOf(c, schema), ms[0], ms[1..];
    var h' := HistoryAfter(h, m);
    PendingSplits(h, ms);
    if m.version in h {
      assert PendingTables(h, ms) == PendingTables(h, rest);
      assert PendingSequences(h, ms) == PendingSequences(h, rest);
    } else {
      ExtendedTwice(c, schema, h', m.tables, m.sequences,
        MigratedHistory(h', rest), PendingTables(h', rest), PendingSequences(h', rest));
    }
  }

  lemma {:induction false} AppliesRun(c: Catalog, schema: string, ms: seq<Migration>)
    requires schema in c.histories && WellFormedScripts(ms)
    ensures RunAll(c, Applies(schema, ms)) ==
            if AppliesOk(c, schema, ms) then Some(Applying(c, schema, ms)) else None
    decreases |ms|
  {
    if ms == [] {
      NoRelations(c, schema);
      assert PendingTables(HistoryOf(c, schema), []) == {} == PendingSequences(HistoryOf(c, schema), []);
      assert c.histories[schema := HistoryOf(c, schema)] == c.histories;
    } else {
      assert Applies(schema, ms)[1..] == Applies(schema, ms[1..]);
      Tail(ms);
      assert Execute(c, ApplyMigration(schema, ms[0])) ==
             if ApplyOk(c, schema, ms[0]) then Some(AfterOne(c, schema, ms[0])) else None;
      if ApplyOk(c, schema, ms[0]) {
        OkSplits(c, schema, ms);
        ApplyingSplits(c, schema, ms);
        AppliesRun(AfterOne(c, schema, ms[0]), schema, ms[1..]);
      }
    }
  }

  lemma PreparationRuns(c: Catalog, schema: string, rest: seq<Statement>)
    ensures RunAll(c, [CreateSchema(schema)] + ([EnsureHistory(schema)] + rest)) ==
            RunAll(WithHistory(WithSchema(c, schema), schema), rest)
  {
    RunAllPrepends(c, CreateSchema(schema), [EnsureHistory(schema)] + rest);
    RunAllPrepends(WithSchema(c, schema), EnsureHistory(schema), rest);
  }

  lemma PreparationKeepsApplyOk(c: Catalog, schema: string, ms: seq<Migration>)
    ensures HistoryOf(WithHistory(WithSchema(c, schema), schema), schema) == HistoryOf(c, schema)
    ensures AppliesOk(WithHistory(WithSchema(c, schema), schema), schema, ms) == AppliesOk(WithHistory(c, schema), schema, ms)
  {
    forall m | m in ms
      ensures ApplyOk(WithHistory(WithSchema(c, schema), schema), schema, m) == ApplyOk(WithHistory(c, schema), schema, m)
    {
    }
  }

  /** The migrator's statements succeed exactly when allowed, and then leave `Migrated`. */
  lemma MigratorRuns(c: Catalog, schema: string, ms: seq<Migration>)
    requires WellFormedScripts(ms)
    ensures RunAll(c, MigratorPlan(schema, ms)) ==
            if MigratorOk(c, schema, ms) then Some(Migrated(c, schema, ms)) else None
  {
    var b := WithHistory(WithSchema(c, schema), schema);
    PreparationRuns(c, schema, [CheckHistory(schema, ms)] + Applies(schema, ms));
    PreparationKeepsApplyOk(c, schema, ms);
    RunAllPrepends(b, CheckHistory(schema, ms), Applies(schema, ms));
    AppliesRun(b, schema, ms);
  }

  // -------------------------------------------------------------- running it again

  lemma {:induction false} HistoryAbsorbs(h: map<int, Applied>, ms: seq<Migration>, m: Migration)
    requires WellFormedScripts(ms) && m in ms
    ensures MigratedHistory(HistoryAfter(h, m), ms) == MigratedHistory(h, ms)
    decreases |ms|
  {
    Tail(ms);
    if m == ms[0] {
      assert HistoryAfter(HistoryAfter(h, m), m) == HistoryAfter(h, m);
    } else {
      assert HistoryAfter(HistoryAfter(h, m), ms[0]) == HistoryAfter(HistoryAfter(h, ms[0]), m);
      HistoryAbsorbs(HistoryAfter(h, ms[0]), ms[1..], m);
    }
  }

  lemma OnePerVersion(ms: seq<Migration>, a: Migration, b: Migration)
    requires WellFormedScripts(ms) && a in ms && b in ms && a != b
    ensures a.version != b.version && a.tables !! b.tables && a.sequences !! b.sequences
  {
    var i :| 0 <= i < |ms| && ms[i] == a;
    var j :| 0 <= j < |ms| && ms[j] == b;
    if i < j {
      assert ms[i].version != ms[j].version;
    } else {
      assert ms[j].version != ms[i].version;
    }
  }

  lemma ApplyAbsorbs(c: Catalog, schema: string, ms: seq<Migration>, m: Migration)
    requires WellFormedScripts(ms) && m in ms && schema in c.histories
    requires AppliesOk(c, schema, ms)
    ensures AppliesOk(AfterOne(c, schema, m), schema, ms)
    ensures Applying(AfterOne(c, schema, m), schema, ms) == Applying(c, schema, ms)
  {
    var h, h' := HistoryOf(c, schema), HistoryAfter(HistoryOf(c, schema), m);
    forall o | o in ms && o != m
      ensures o.version != m.version && (ApplyOk(c, schema, o) <==> ApplyOk(AfterOne(c, schema, m), schema, o))
    {
      OnePerVersion(ms, o, m);
      OthersUnaffected(c, schema, m, o);
    }
    HistoryAbsorbs(h, ms, m);
    if m.version !in h {
      assert PendingTables(h, ms) == m.tables + PendingTables(h', ms);
      assert PendingSequences(h, ms) == m.sequences + PendingSequences(h', ms);
      ExtendedTwice(c, schema, h', m.tables, m.sequences,
        MigratedHistory(h', ms), PendingTables(h', ms), PendingSequences(h', ms));
    }
  }

  predicate MigratorStatement(stmt: Statement, schema: string, ms: seq<Migration>) {
    || stmt == CreateSchema(schema)
    || stmt == EnsureHistory(schema)
    || stmt == CheckHistory(schema, ms)
    || (stmt.ApplyMigration? && stmt.schema == schema && stmt.migration in ms)
  }

  lemma MigrationAbsorbs(c: Catalog, schema: string, ms: seq<Migration>, m: Migration)
    requires WellFormedScripts(ms) && m in ms && MigratorOk(c, schema, ms)
    requires Execute(c, ApplyMigration(schema, m)).Some?
    ensures var d := Execute(c, ApplyMigration(schema, m)).value;
      MigratorOk(d, schema, ms) && Migrated(d, schema, ms) == Migrated(c, schema, ms)
  {
    var d, x := Execute(c, ApplyMigration(schema, m)).value, WithSchema(c, schema);
    assert d == AfterOne(c, schema, m);
    ApplyAbsorbs(c, schema, ms, m);
    ApplyAbsorbs(x, schema, ms, m);
    assert AfterOne(x, schema, m) == WithSchema(d, schema);
  }

  lemma CreationAbsorbs(c: Catalog, schema: string, ms: seq<Migration>)
    requires MigratorOk(c, schema, ms)
    ensures MigratorOk(WithSchema(c, schema), schema, ms)
    ensures Migrated(WithSchema(c, schema), schema, ms) == Migrated(c, schema, ms)
    ensures MigratorOk(WithHistory(c, schema), schema, ms)
    ensures Migrated(WithHistory(c, schema), schema, ms) == Migrated(c, schema, ms)
  {
    var x, y := WithSchema(c, schema), WithHistory(c, schema);
    assert WithSchema(x, schema) == x;
    assert WithHistory(x, schema) == WithSchema(y, schema);
    assert WithHistory(y, schema) == y && WithHistory(WithSchema(y, schema), schema) == WithSchema(y, schema);
    forall m | m in ms
      ensures ApplyOk(WithHistory(x, schema), schema, m) == ApplyOk(y, schema, m)
    {
    }
  }

  /** A statement of the migrator, committed early, changes nothing about what a complete run leaves. */
  lemma MigratorAbsorbs(c: Catalog, schema: string, ms: seq<Migration>, stmt: Statement)
    requires WellFormedScripts(ms) && MigratorStatement(stmt, schema, ms)
    requires MigratorOk(c, schema, ms) && Execute(c, stmt).Some?
    ensures MigratorOk(Execute(c, stmt).value, schema, ms)
    ensures Migrated(Execute(c, stmt).value, schema, ms) == Migrated(c, schema, ms)
  {
    if stmt.ApplyMigration? {
      MigrationAbsorbs(c, schema, ms, stmt.migration);
    } else {
      CreationAbsorbs(c, schema, ms);
      CreationStatements(c, schema, ms, stmt);
    }
  }

  lemma CreationStatements(c: Catalog, schema: string, ms: seq<Migration>, stmt: Statement)
    requires MigratorStatement(stmt, schema, ms) && !stmt.ApplyMigration? && Execute(c, stmt).Some?
    ensures Execute(c, stmt).value in {c, WithSchema(c, schema), WithHistory(c, schema)}
  {
  }

  /** Where a run after `m` may proceed, so may a run before it. */
  lemma MigrationReflects(c: Catalog, schema: string, ms: seq<Migration>, m: Migration)
    requires WellFormedScripts(ms) && m in ms && schema in c.histories && ApplyOk(c, schema, m)
    requires MigratorOk(AfterOne(c, schema, m), schema, ms)
    ensures MigratorOk(c, schema, ms)
  {
    var d := AfterOne(c, schema, m);
    forall o | o in ms && o != m
      ensures ApplyOk(c, schema, o)
    {
      assert ApplyOk(WithHistory(d, schema), schema, o);
      OnePerVersion(ms, o, m);
      OthersUnaffected(c, schema, m, o);
    }
    forall v | v in HistoryOf(c, schema)
      ensures HistoryOf(c, schema)[v].success && exists i | 0 <= i < |ms| :: ms[i].version == v
    {
      assert v in HistoryOf(d, schema) && (v != m.version ==> HistoryOf(d, schema)[v] == HistoryOf(c, schema)[v]);
    }
  }

  /** A migrator that may proceed after one of its own statements might have proceeded before it. */
  lemma MigratorReflects(c: Catalog, schema: string, ms: seq<Migration>, stmt: Statement)
    requires WellFormedScripts(ms) && MigratorStatement(stmt, schema, ms) && Execute(c, stmt).Some?
    requires MigratorOk(Execute(c, stmt).value, schema, ms)
    ensures MigratorOk(c, schema, ms)
  {
    if stmt.ApplyMigration? {
      assert Execute(c, stmt).value == AfterOne(c, schema, stmt.migration);
      MigrationReflects(c, schema, ms, stmt.migration);
    } else {
      CreationReflects(c, schema, ms, stmt);
    }
  }

  lemma CreationReflects(c: Catalog, schema: string, ms: seq<Migration>, stmt: Statement)
    requires MigratorStatement(stmt, schema, ms) && !stmt.ApplyMigration? && Execute(c, stmt).Some?
    requires MigratorOk(Execute(c, stmt).value, schema, ms)
    ensures MigratorOk(c, schema, ms)
  {
    CreationStatements(c, schema, ms, stmt);
    var d := Execute(c, stmt).value;
    assert HistoryOf(d, schema) == HistoryOf(c, schema);
    forall m | m in ms
      ensures ApplyOk(WithHistory(c, schema), schema, m)
    {
      assert ApplyOk(WithHistory(d, schema), schema, m);
    }
  }

  // ---------------------------------------------------------- the same, field by field

  function FreshTables(histories: map<string, map<int, Applied>>, schema: string, ms: seq<Migration>): set<string> {
    if schema in histories then PendingTables(histories[schema], ms) else {HISTORY} + PendingTables(map[], ms)
  }

  function FreshSequences(histories: map<string, map<int, Applied>>, schema: string, ms: seq<Migration>): set<string> {
    PendingSequences(if schema in histories then histories[schema] else map[], ms)
  }

  lemma MigratedFields(c: Catalog, schema: string, ms: seq<Migration>)
    ensures Migrated(c, schema, ms) ==
            Extended(WithSchema(c, schema), schema,
              MigratedHistory(HistoryOf(c, schema), ms),
              FreshTables(c.histories, schema, ms), FreshSequences(c.histories, schema, ms))
    ensures HISTORY in FreshTables(c.histories, schema, ms) || schema in c.histories
  {
    if schema !in c.histories {
      ExtendedTwice(WithSchema(c, schema), schema, map[], {HISTORY}, {},
        MigratedHistory(map[], ms), PendingTables(map[], ms), PendingSequences(map[], ms));
      assert {} + PendingSequences(map[], ms) == PendingSequences(map[], ms);
    }
  }

  lemma MigratedHas(c: Catalog, schema: string, ms: seq<Migration>)
    requires WellFormed(c)
    ensures var m := Migrated(c, schema, ms);
      && WellFormed(m)
      && m.roles == c.roles
      && m.usage == c.usage
      && schema in m.schemas && c.schemas <= m.schemas
      && c.tables <= m.tables
      && Relation(schema, HISTORY) in m.tables
  {
    MigratedFields(c, schema, ms);
    assert schema in c.histories ==> Relation(schema, HISTORY) in c.tables;
    assert schema !in c.histories ==> Relation(schema, HISTORY) in Named(schema, FreshTables(c.histories, schema, ms));
  }

  /** Grants the run hands out through default privileges. */
  function Birth(c: Catalog, schema: string, ms: seq<Migration>): set<Grant> {
    BornGrants(c.defaultTables, schema, FreshTables(c.histories, schema, ms))
  }

  function SequenceBirth(c: Catalog, schema: string, ms: seq<Migration>): set<(string, Relation)> {
    BornSequenceGrants(c.defaultSequences, schema, FreshSequences(c.histories, schema, ms))
  }

  /** What the migrator looks at. */
  predicate SameRelations(c: Catalog, d: Catalog) {
    && c.schemas == d.schemas && c.histories == d.histories
    && c.tables == d.tables && c.sequences == d.sequences
  }

  lemma MigratedFrame(c: Catalog, d: Catalog, schema: string, ms: seq<Migration>)
    requires SameRelations(c, d)
    ensures MigratorOk(d, schema, ms) == MigratorOk(c, schema, ms)
    ensures var m := Migrated(c, schema, ms);
      Migrated(d, schema, ms) == d.(
        schemas := m.schemas, histories := m.histories, tables := m.tables, sequences := m.sequences,
        tableGrants := d.tableGrants + Birth(d, schema, ms),
        sequenceGrants := d.sequenceGrants + SequenceBirth(d, schema, ms))
  {
    MigratedFields(c, schema, ms);
    MigratedFields(d, schema, ms);
    forall m | m in ms
      ensures ApplyOk(WithHistory(c, schema), schema, m) == ApplyOk(WithHistory(d, schema), schema, m)
    {
    }
  }
}
