/** Readiness compares the recorded migrations with the embedded ones, row by row. */
module Readiness {
  import opened Wrappers
  import opened Catalog
  import opened Migrator
  import opened Installation

  /** SELECT version, success, checksum. */
  datatype HistoryRow = HistoryRow(version: int, success: bool, checksum: string)

  /** The rows of a history in ORDER BY version. */
  ghost predicate Lists(rows: seq<HistoryRow>, history: map<int, Applied>) {
    && (forall i, j | 0 <= i < j < |rows| :: rows[i].version < rows[j].version)
    && (forall r | r in rows :: r.version in history && history[r.version] == Applied(r.checksum, r.success))
    && (forall v | v in history :: exists r :: r in rows && r.version == v)
  }

  /** The embedded scripts, all applied and nothing else. */
  ghost predicate ExactlyApplied(history: map<int, Applied>, ms: seq<Migration>) {
    && (forall m | m in ms :: m.version in history && history[m.version] == Applied(m.checksum, true))
    && (forall v | v in history :: exists m :: m in ms && m.version == v)
  }

  predicate Ascending(ms: seq<Migration>) {
    forall i, j | 0 <= i < j < |ms| :: ms[i].version < ms[j].version
  }

  function Expected(ms: seq<Migration>): seq<HistoryRow> {
    seq(|ms|, i requires 0 <= i < |ms| => HistoryRow(ms[i].version, true, ms[i].checksum))
  }

  /** Length, then pairwise version, success and checksum. */
  method MigrationStateIsCurrent(rows: seq<HistoryRow>, ms: seq<Migration>) returns (current: bool)
    ensures current <==> rows == Expected(ms)
  {
    if |rows| != |ms| {
      return false;
    }
    for i := 0 to |rows|
      invariant rows[..i] == Expected(ms)[..i]
    {
      if !(rows[i].version == ms[i].version && rows[i].success && rows[i].checksum == ms[i].checksum) {
        assert rows[i] != Expected(ms)[i];
        return false;
      }
    }
    return true;
  }

  /** Two ascending lists of the same rows are the same list. */
  lemma {:induction false} AscendingListsEqual(a: seq<HistoryRow>, b: seq<HistoryRow>)
    requires forall i, j | 0 <= i < j < |a| :: a[i].version < a[j].version
    requires forall i, j | 0 <= i < j < |b| :: b[i].version < b[j].version
    requires forall r :: r in a <==> r in b
    ensures a == b
    decreases |a|
  {
    if a == [] {
      NonemptyHasElement(b);
    } else {
      assert a[0] in b;
      assert b[0] in a;
      assert a[0] == b[0];
      forall r
        ensures r in a[1..] <==> r in b[1..]
      {
        RestWithoutHead(a, r);
        RestWithoutHead(b, r);
      }
      AscendingListsEqual(a[1..], b[1..]);
      assert a == [a[0]] + a[1..] && b == [b[0]] + b[1..];
    }
  }

  lemma NonemptyHasElement(s: seq<HistoryRow>)
    ensures s != [] ==> exists r :: r in s
  {
    if s != [] {
      assert s[0] in s;
    }
  }

  lemma RestWithoutHead(a: seq<HistoryRow>, r: HistoryRow)
    requires a != [] && forall i, j | 0 <= i < j < |a| :: a[i].version < a[j].version
    ensures r in a[1..] <==> r in a && r != a[0]
  {
    assert a == [a[0]] + a[1..];
    if r in a[1..] {
      var i :| 0 <= i < |a[1..]| && a[1..][i] == r;
      assert a[i + 1] == r;
    }
  }

  lemma ExpectedRows(ms: seq<Migration>, r: HistoryRow)
    ensures r in Expected(ms) <==> exists m :: m in ms && r == HistoryRow(m.version, true, m.checksum)
  {
    if r in Expected(ms) {
      var i :| 0 <= i < |ms| && Expected(ms)[i] == r;
      assert ms[i] in ms;
    }
    if m :| m in ms && r == HistoryRow(m.version, true, m.checksum) {
      var i :| 0 <= i < |ms| && ms[i] == m;
      assert Expected(ms)[i] == r;
    }
  }

  /** The row-by-row comparison succeeds exactly when every embedded script, and no other, is recorded as applied. */
  lemma CurrentMeansExactlyApplied(rows: seq<HistoryRow>, history: map<int, Applied>, ms: seq<Migration>)
    requires Ascending(ms) && Lists(rows, history)
    ensures rows == Expected(ms) <==> ExactlyApplied(history, ms)
  {
    if rows == Expected(ms) {
      forall m | m in ms
        ensures m.version in history && history[m.version] == Applied(m.checksum, true)
      {
        ExpectedRows(ms, HistoryRow(m.version, true, m.checksum));
      }
      forall v | v in history
        ensures exists m :: m in ms && m.version == v
      {
        var r :| r in rows && r.version == v;
        ExpectedRows(ms, r);
      }
    }
    if ExactlyApplied(history, ms) {
      forall r
        ensures r in rows <==> r in Expected(ms)
      {
        ExpectedRows(ms, r);
        ListedExactly(rows, history, r);
      }
      AscendingListsEqual(rows, Expected(ms));
    }
  }

  lemma ListedExactly(rows: seq<HistoryRow>, history: map<int, Applied>, r: HistoryRow)
    requires Lists(rows, history)
    ensures r in rows <==> r.version in history && history[r.version] == Applied(r.checksum, r.success)
  {
    if r.version in history {
      var x :| x in rows && x.version == r.version;
    }
  }

  lemma {:induction false} MigratedHistoryEntries(h: map<int, Applied>, ms: seq<Migration>, v: int)
    requires WellFormedScripts(ms)
    ensures v in h ==> v in MigratedHistory(h, ms) && MigratedHistory(h, ms)[v] == h[v]
    ensures forall m | m in ms && m.version == v && v !in h ::
              v in MigratedHistory(h, ms) && MigratedHistory(h, ms)[v] == Applied(m.checksum, true)
    ensures v in MigratedHistory(h, ms) ==> v in h || exists m :: m in ms && m.version == v
    decreases |ms|
  {
    if ms != [] {
      Tail(ms);
      MigratedHistoryEntries(HistoryAfter(h, ms[0]), ms[1..], v);
    }
  }

  lemma MigratorLeavesExactlyApplied(c: Catalog, schema: string, ms: seq<Migration>)
    requires WellFormedScripts(ms) && MigratorOk(c, schema, ms)
    ensures ExactlyApplied(MigratedHistory(HistoryOf(c, schema), ms), ms)
  {
    var h := HistoryOf(c, schema);
    forall m | m in ms
      ensures m.version in MigratedHistory(h, ms) && MigratedHistory(h, ms)[m.version] == Applied(m.checksum, true)
    {
      MigratedHistoryEntries(h, ms, m.version);
      assert ApplyOk(WithHistory(c, schema), schema, m);
    }
    forall v | v in MigratedHistory(h, ms)
      ensures exists m :: m in ms && m.version == v
    {
      MigratedHistoryEntries(h, ms, v);
      if v in h {
        var i :| 0 <= i < |ms| && ms[i].version == v;
        assert ms[i] in ms;
      }
    }
  }

  /** After a successful migration both readiness checks find their histories current. */
  lemma MigrationMakesReady(c: Catalog, cfg: Config, rows: seq<HistoryRow>, moduleRows: seq<HistoryRow>)
    requires WellFormedConfig(cfg) && WellFormed(c) && MigrateInstallation(c, cfg).Ok?
    requires Ascending(cfg.shared) && Ascending(cfg.example)
    requires Lists(rows, HistoryOf(MigrateInstallation(c, cfg).value, SHARED_SCHEMA))
    requires Lists(moduleRows, HistoryOf(MigrateInstallation(c, cfg).value, EXAMPLE_SCHEMA))
    ensures rows == Expected(cfg.shared)
    ensures cfg.enabled.Some? ==> moduleRows == Expected(cfg.example)
  {
    PlanRuns(c, cfg);
    var s := Migrated(c, SHARED_SCHEMA, cfg.shared);
    MigratedFields(c, SHARED_SCHEMA, cfg.shared);
    MigratedFields(s, EXAMPLE_SCHEMA, cfg.example);
    MigratorLeavesExactlyApplied(c, SHARED_SCHEMA, cfg.shared);
    CurrentMeansExactlyApplied(rows, MigratedHistory(HistoryOf(c, SHARED_SCHEMA), cfg.shared), cfg.shared);
    if cfg.enabled.Some? {
      MigratorLeavesExactlyApplied(s, EXAMPLE_SCHEMA, cfg.example);
      CurrentMeansExactlyApplied(moduleRows, MigratedHistory(HistoryOf(s, EXAMPLE_SCHEMA), cfg.example), cfg.example);
    }
  }
}
