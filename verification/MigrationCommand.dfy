/**
 * The migration command on its single connection: statements committed one by
 * one until the list is done, a statement fails, or the connection is lost.
 */
module MigrationCommand {
  import opened Wrappers
  import opened Catalog
  import opened Migrator
  import opened Installation
  import opened Convergence

  /**
   * With `n` statements left on the connection, `k` statements of the plan took
   * effect and made `c` into `d`; short of the whole plan, the connection was
   * lost or the next statement is an error.
   */
  predicate Progressed(c: Catalog, n: nat, plan: seq<Statement>, k: nat, d: Catalog, ok: bool) {
    && k <= |plan| && k <= n
    && RunAll(c, plan[..k]) == Some(d)
    && (ok <==> k == |plan|)
    && (!ok ==> k == n || Execute(d, plan[k]) == None)
  }

  /** A plan carried out in two parts. */
  lemma Joined(c: Catalog, n: nat, a: seq<Statement>, d: Catalog, b: seq<Statement>, k: nat, e: Catalog, ok: bool)
    requires |a| <= n
    requires Progressed(c, n, a, |a|, d, true) && Progressed(d, n - |a|, b, k, e, ok)
    ensures Progressed(c, n, a + b, |a| + k, e, ok)
  {
    assert a[..|a|] == a;
    RunAllAppends(c, a, b[..k]);
    assert (a + b)[..|a| + k] == a + b[..k];
  }

  /** A plan that stopped in its first part. */
  lemma Stopped(c: Catalog, n: nat, a: seq<Statement>, k: nat, d: Catalog, b: seq<Statement>)
    requires Progressed(c, n, a, k, d, false)
    ensures Progressed(c, n, a + b, k, d, false)
  {
    assert (a + b)[..k] == a[..k];
  }

  lemma NothingDone(c: Catalog, n: nat)
    ensures Progressed(c, n, [], 0, c, true)
  {
  }

  /** Given a connection that lasts, a plan stops early only if it fails. */
  lemma StoppedMeansFailed(c: Catalog, n: nat, plan: seq<Statement>, k: nat, d: Catalog)
    requires Progressed(c, n, plan, k, d, false) && n >= |plan|
    ensures RunAll(c, plan) == None
  {
    RunAllAppends(c, plan[..k], plan[k..]);
    assert plan[..k] + plan[k..] == plan;
    assert plan[k..][0] == plan[k];
  }

  class OperationsConnection {
    var catalog: Catalog

    /** How many more statements this connection will live to see committed. */
    var statementsLeft: nat

    constructor (catalog: Catalog, statementsLeft: nat)
      ensures this.catalog == catalog && this.statementsLeft == statementsLeft
    {
      this.catalog, this.statementsLeft := catalog, statementsLeft;
    }

    method Run(stmt: Statement) returns (ok: bool)
      modifies this
      ensures Progressed(old(catalog), old(statementsLeft), [stmt], if ok then 1 else 0, catalog, ok)
      ensures statementsLeft == old(statementsLeft) - if ok then 1 else 0
    {
      RunAllPrepends(catalog, stmt, []);
      assert [stmt] + [] == [stmt];
      assert [stmt][..1] == [stmt] && [stmt][..0] == [];
      if statementsLeft == 0 {
        return false;
      }
      match Execute(catalog, stmt)
      case None =>
        ok := false;
      case Some(next) =>
        catalog, statementsLeft := next, statementsLeft - 1;
        ok := true;
    }

    /** Statements in order; the first error ends the command. */
    method RunEach(plan: seq<Statement>) returns (ok: bool, ghost k: nat)
      modifies this
      ensures Progressed(old(catalog), old(statementsLeft), plan, k, catalog, ok)
      ensures statementsLeft == old(statementsLeft) - k
    {
      ghost var c, n := catalog, statementsLeft;
      NothingDone(c, n);
      assert plan[..0] == [];
      ok := true;
      k := 0;
      for i := 0 to |plan|
        invariant k == i && n >= k && statementsLeft == n - k
        invariant Progressed(c, n, plan[..i], i, catalog, true)
      {
        ghost var d := catalog;
        ok := Run(plan[i]);
        Joined(c, n, plan[..i], d, [plan[i]], if ok then 1 else 0, catalog, ok);
        assert plan[..i] + [plan[i]] == plan[..i + 1];
        if !ok {
          Stopped(c, n, plan[..i + 1], i, catalog, plan[i + 1..]);
          assert plan[..i + 1] + plan[i + 1..] == plan;
          return;
        }
        k := k + 1;
      }
      assert plan[..|plan|] == plan;
      ok := true;
    }

    /** Refuses a role another database knows, alters an existing one, creates a missing one. */
    method ProvisionRole(role: string, password: string) returns (ok: bool)
      modifies this
      ensures Progressed(old(catalog), old(statementsLeft), [Statement.ProvisionRole(role, password)],
                         if ok then 1 else 0, catalog, ok)
      ensures statementsLeft == old(statementsLeft) - if ok then 1 else 0
    {
      ghost var stmt := Statement.ProvisionRole(role, password);
      RunAllPrepends(catalog, stmt, []);
      assert [stmt] + [] == [stmt];
      assert [stmt][..1] == [stmt] && [stmt][..0] == [];
      if statementsLeft == 0 || (role in catalog.roles && role in catalog.elsewhere) {
        return false;
      }
      var entry := if role in catalog.roles then catalog.roles[role].(password := password)
                   else Role(password, true, false, false);
      catalog := catalog.(roles := catalog.roles[role := entry]);
      statementsLeft := statementsLeft - 1;
      ok := true;
    }

    method ProvisionRoles(cfg: Config) returns (ok: bool, ghost k: nat)
      modifies this
      ensures Progressed(old(catalog), old(statementsLeft), ProvisionPlan(cfg), k, catalog, ok)
      ensures statementsLeft == old(statementsLeft) - k
    {
      ghost var c, n, plan := catalog, statementsLeft, ProvisionPlan(cfg);
      ok := ProvisionRole(cfg.ready.role, cfg.ready.password);
      k := if ok then 1 else 0;
      if cfg.enabled.None? {
        assert plan == [plan[0]];
        return;
      }
      if !ok {
        Stopped(c, n, [plan[0]], 0, catalog, plan[1..]);
        assert [plan[0]] + plan[1..] == plan;
        return;
      }
      ghost var d := catalog;
      ok := ProvisionRole(cfg.enabled.value.runtime.role, cfg.enabled.value.runtime.password);
      Joined(c, n, [plan[0]], d, [plan[1]], if ok then 1 else 0, catalog, ok);
      if !ok {
        Stopped(c, n, [plan[0]] + [plan[1]], 1, catalog, [plan[2]]);
        assert [plan[0]] + [plan[1]] + [plan[2]] == plan;
        return;
      }
      d := catalog;
      ok := ProvisionRole(cfg.enabled.value.dispatcher.role, cfg.enabled.value.dispatcher.password);
      Joined(c, n, [plan[0]] + [plan[1]], d, [plan[2]], if ok then 1 else 0, catalog, ok);
      assert [plan[0]] + [plan[1]] + [plan[2]] == plan;
      k := if ok then 3 else 2;
    }

    /** Everything after the provisioning, in the order of the command. */
    method CarryOut(cfg: Config) returns (ok: bool, ghost k: nat)
      modifies this
      ensures Progressed(old(catalog), old(statementsLeft), Plan(cfg), k, catalog, ok)
    {
      ghost var c, n := catalog, statementsLeft;
      var rest := [RevokePublicConnect, RevokePublicSchema] + ConnectPlan(cfg) + SharedPlan(cfg) + ModulePlan(cfg) + ChecksPlan(cfg);
      assert ProvisionPlan(cfg) + rest == Plan(cfg);
      ok, k := ProvisionRoles(cfg);
      if !ok {
        Stopped(c, n, ProvisionPlan(cfg), k, catalog, rest);
        return;
      }
      ghost var d, first := catalog, k;
      ok, k := RunEach(rest);
      Joined(c, n, ProvisionPlan(cfg), d, rest, k, catalog, ok);
      k := first + k;
    }

    /**
     * The command.  Refusals come before any change; otherwise a prefix of the
     * plan takes effect, all of it on success.  However the command ends, asking
     * again is answered as the first time.
     */
    method MigrateInstallation(cfg: Config) returns (result: Result<(), MigrationError>, ghost k: nat)
      requires WellFormed(catalog) && WellFormedScripts(cfg.shared) && WellFormedScripts(cfg.example)
      modifies this
      ensures result == Err(ModuleRemoval) <==>
                && cfg.enabled.None? && "bc_example" in old(catalog).histories
                && exists v :: v in old(catalog).histories["bc_example"] && old(catalog).histories["bc_example"][v].success
      ensures result == Err(SharedRoles) <==>
                && cfg.enabled.Some?
                && var a, b, r := cfg.enabled.value.runtime.role, cfg.enabled.value.dispatcher.role, cfg.ready.role;
                   a == b || a == r || b == r
      ensures result.Err? && !result.error.StatementFailed? ==>
                && catalog == old(catalog)
                && Installation.MigrateInstallation(old(catalog), cfg) == Err(result.error)
      ensures result.Ok? || result.error.StatementFailed? ==>
                Progressed(old(catalog), old(statementsLeft), Plan(cfg), k, catalog, result.Ok?)
      ensures result.Ok? ==> Installation.MigrateInstallation(old(catalog), cfg) == Ok(catalog)
      ensures result.Err? && old(statementsLeft) >= |Plan(cfg)| ==>
                Installation.MigrateInstallation(old(catalog), cfg) == Err(result.error)
      ensures Installation.MigrateInstallation(catalog, cfg) == Installation.MigrateInstallation(old(catalog), cfg)
    {
      k := 0;
      if !DistinctRoles(cfg) {
        return Err(SharedRoles), 0;
      }
      if cfg.enabled.None? && ModuleInitialized(catalog, EXAMPLE_SCHEMA) {
        return Err(ModuleRemoval), 0;
      }
      ghost var c, n, plan := catalog, statementsLeft, Plan(cfg);
      var ok;
      ok, k := CarryOut(cfg);
      assert plan[..|plan|] == plan;
      InterruptedMigrationConverges(c, cfg, plan[..k]);
      if ok {
        result := Ok(());
      } else {
        if n >= |plan| {
          StoppedMeansFailed(c, n, plan, k, catalog);
        }
        result := Err(StatementFailed);
      }
    }
  }
}
