/** Interrupting a migration anywhere, any number of times, and running it again changes nothing. */
module Convergence {
  import opened Wrappers
  import opened Catalog
  import opened Migrator
  import opened Installation

  // ------------------------------------------------- which differences a run irons out

  /** Privileges whose final value the plan sets, whatever they were. */
  predicate Controlled(tables: set<Relation>, cfg: Config, g: Grant) {
    || g == Grant(cfg.ready.role, SHARED_HISTORY, Select)
    || (cfg.enabled.Some? && g.relation.schema == EXAMPLE_SCHEMA &&
          (|| g.role == cfg.enabled.value.dispatcher.role
           || (g.role == cfg.enabled.value.runtime.role &&
                 (|| (g.relation == EXAMPLE_HISTORY && g.privilege in WRITES)
                  || (g.relation in tables && g.privilege in DATA)))))
  }

  ghost predicate ControlledSequence(sequences: set<Relation>, cfg: Config, g: (string, Relation)) {
    && cfg.enabled.Some? && g.1.schema == EXAMPLE_SCHEMA
    && (g.0 == cfg.enabled.value.dispatcher.role || (g.0 == cfg.enabled.value.runtime.role && g.1 in sequences))
  }

  lemma ControlledGrantsDoNotMatter(a: set<Grant>, b: set<Grant>, tables: set<Relation>, cfg: Config)
    requires DistinctRoles(cfg)
    requires forall g: Grant :: !Controlled(tables, cfg, g) ==> (g in a <==> g in b)
    ensures FinalTableGrants(a, tables, cfg) == FinalTableGrants(b, tables, cfg)
  {
    forall g: Grant
      ensures Holds(a, tables, cfg, g) == Holds(b, tables, cfg, g)
    {
    }
  }

  lemma ControlledSequencesDoNotMatter(a: set<(string, Relation)>, b: set<(string, Relation)>, sequences: set<Relation>, cfg: Config)
    requires DistinctRoles(cfg)
    requires forall g: (string, Relation) :: !ControlledSequence(sequences, cfg, g) ==> (g in a <==> g in b)
    ensures FinalSequenceGrants(a, sequences, cfg) == FinalSequenceGrants(b, sequences, cfg)
  {
  }

  /** `d` differs from `c` only in what the plan sets anyway. */
  ghost predicate Nearly(c: Catalog, d: Catalog, cfg: Config) {
    && SameRelations(c, d)
    && c.elsewhere == d.elsewhere && c.memberships == d.memberships && c.databaseCreate == d.databaseCreate
    && FinalRoles(c.roles, cfg) == FinalRoles(d.roles, cfg)
    && c.connect + RolesOf(cfg) == d.connect + RolesOf(cfg)
    && c.usage + UsageOf(cfg) == d.usage + UsageOf(cfg)
    && c.defaultTables + DefaultsOf(cfg) == d.defaultTables + DefaultsOf(cfg)
    && c.defaultSequences + SequenceDefaultsOf(cfg) == d.defaultSequences + SequenceDefaultsOf(cfg)
    && (forall g: Grant :: !Controlled(c.tables, cfg, g) ==> (g in c.tableGrants <==> g in d.tableGrants))
    && (forall g: (string, Relation) :: !ControlledSequence(c.sequences, cfg, g) ==> (g in c.sequenceGrants <==> g in d.sequenceGrants))
  }

  /** The migrators keep the difference within bounds: new relations are born with controlled grants at most. */
  lemma NearlySurvivesMigrator(c: Catalog, d: Catalog, cfg: Config, schema: string, ms: seq<Migration>)
    requires Nearly(c, d, cfg)
    ensures Nearly(Migrated(c, schema, ms), Migrated(d, schema, ms), cfg)
    ensures MigratorOk(c, schema, ms) == MigratorOk(d, schema, ms)
  {
    MigratedFrame(c, c, schema, ms);
    MigratedFrame(c, d, schema, ms);
    var x, y := Migrated(c, schema, ms), Migrated(d, schema, ms);
    MigratedFields(c, schema, ms);
    assert x.tables == c.tables + Named(schema, FreshTables(c.histories, schema, ms));
    assert x.sequences == c.sequences + Named(schema, FreshSequences(c.histories, schema, ms));
    forall g: Grant | !Controlled(x.tables, cfg, g)
      ensures g in x.tableGrants <==> g in y.tableGrants
    {
      BirthsAgree(c, d, cfg, schema, ms, g);
    }
    forall g: (string, Relation) | !ControlledSequence(x.sequences, cfg, g)
      ensures g in x.sequenceGrants <==> g in y.sequenceGrants
    {
      SequenceBirthsAgree(c, d, cfg, schema, ms, g);
    }
  }

  lemma BirthsAgree(c: Catalog, d: Catalog, cfg: Config, schema: string, ms: seq<Migration>, g: Grant)
    requires c.histories == d.histories
    requires c.defaultTables + DefaultsOf(cfg) == d.defaultTables + DefaultsOf(cfg)
    requires !Controlled(c.tables + Named(schema, FreshTables(c.histories, schema, ms)), cfg, g)
    ensures g in Birth(c, schema, ms) <==> g in Birth(d, schema, ms)
  {
    var names := FreshTables(c.histories, schema, ms);
    var r := DefaultGrant(schema, g.role, g.privilege);
    assert g in Birth(c, schema, ms) <==> r in c.defaultTables && g.relation.schema == schema && g.relation.name in names;
    assert g in Birth(d, schema, ms) <==> r in d.defaultTables && g.relation.schema == schema && g.relation.name in names;
    if g.relation.schema == schema && g.relation.name in names {
      assert g.relation in Named(schema, names);
      assert r !in DefaultsOf(cfg);
      assert r in c.defaultTables <==> r in c.defaultTables + DefaultsOf(cfg);
    }
  }

  lemma SequenceBirthsAgree(c: Catalog, d: Catalog, cfg: Config, schema: string, ms: seq<Migration>, g: (string, Relation))
    requires c.histories == d.histories
    requires c.defaultSequences + SequenceDefaultsOf(cfg) == d.defaultSequences + SequenceDefaultsOf(cfg)
    requires !ControlledSequence(c.sequences + Named(schema, FreshSequences(c.histories, schema, ms)), cfg, g)
    ensures g in SequenceBirth(c, schema, ms) <==> g in SequenceBirth(d, schema, ms)
  {
    var names := FreshSequences(c.histories, schema, ms);
    var r := (schema, g.0);
    assert g in SequenceBirth(c, schema, ms) <==> r in c.defaultSequences && g.1.schema == schema && g.1.name in names;
    assert g in SequenceBirth(d, schema, ms) <==> r in d.defaultSequences && g.1.schema == schema && g.1.name in names;
    if g.1.schema == schema && g.1.name in names {
      assert g.1 in Named(schema, names);
      assert r !in SequenceDefaultsOf(cfg);
      assert r in c.defaultSequences <==> r in c.defaultSequences + SequenceDefaultsOf(cfg);
    }
  }

  lemma NearlyMeansSameResult(c: Catalog, d: Catalog, cfg: Config)
    requires WellFormedConfig(cfg) && Nearly(c, d, cfg) && RunOk(c, cfg) && RolesOk(d, cfg)
    ensures RunOk(d, cfg) && Total(d, cfg) == Total(c, cfg)
  {
    NearlySurvivesMigrator(c, d, cfg, SHARED_SCHEMA, cfg.shared);
    if cfg.enabled.Some? {
      NearlySurvivesMigrator(Migrated(c, SHARED_SCHEMA, cfg.shared), Migrated(d, SHARED_SCHEMA, cfg.shared),
        cfg, EXAMPLE_SCHEMA, cfg.example);
    }
    GrantedAgrees(Merged(c, cfg), Merged(d, cfg), cfg);
  }

  lemma GrantedAgrees(m: Catalog, n: Catalog, cfg: Config)
    requires DistinctRoles(cfg) && Nearly(m, n, cfg)
    ensures Granted(m, cfg) == Granted(n, cfg)
  {
    ControlledGrantsDoNotMatter(m.tableGrants, n.tableGrants, m.tables, cfg);
    ControlledSequencesDoNotMatter(m.sequenceGrants, n.sequenceGrants, m.sequences, cfg);
  }

  // ---------------------------------------------------- one statement committed early

  lemma ProvisionedTwice(roles: map<string, Role>, role: string, password: string)
    ensures Provisioned(Provisioned(roles, role, password), role, password) == Provisioned(roles, role, password)
  {
  }

  lemma ProvisionsSwap(roles: map<string, Role>, a: string, p: string, b: string, q: string)
    requires a != b
    ensures Provisioned(Provisioned(roles, a, p), b, q) == Provisioned(Provisioned(roles, b, q), a, p)
  {
  }

  /** Provisioning a role early with its final password does not show in the end. */
  lemma ProvisionedEarly(roles: map<string, Role>, cfg: Config, role: string, password: string)
    requires DistinctRoles(cfg) && ProvisionRole(role, password) in ProvisionPlan(cfg)
    ensures FinalRoles(Provisioned(roles, role, password), cfg) == FinalRoles(roles, cfg)
    ensures role in RolesOf(cfg)
  {
    var x := cfg.ready;
    if role == x.role {
      ProvisionedTwice(roles, role, password);
    } else {
      var y, z := cfg.enabled.value.runtime, cfg.enabled.value.dispatcher;
      var r := Provisioned(roles, x.role, x.password);
      ProvisionsSwap(roles, role, password, x.role, x.password);
      if role == y.role {
        ProvisionedTwice(r, role, password);
      } else {
        ProvisionsSwap(r, role, password, y.role, y.password);
        ProvisionedTwice(Provisioned(r, y.role, y.password), role, password);
      }
    }
  }

  lemma ProvisioningIsNear(c: Catalog, cfg: Config, role: string, password: string)
    requires WellFormedConfig(cfg) && WellFormed(c) && RolesOk(c, cfg)
    requires ProvisionRole(role, password) in ProvisionPlan(cfg)
    ensures var d := c.(roles := Provisioned(c.roles, role, password));
      Nearly(c, d, cfg) && RolesOk(d, cfg) && WellFormed(d)
  {
    ProvisionedEarly(c.roles, cfg, role, password);
  }

  /** A change of usage, connections or defaults that the plan makes anyway. */
  lemma AdditionIsNear(c: Catalog, d: Catalog, cfg: Config)
    requires d == c.(connect := d.connect, usage := d.usage, defaultTables := d.defaultTables,
                     defaultSequences := d.defaultSequences, publicConnect := d.publicConnect, publicSchema := d.publicSchema)
    requires c.connect + RolesOf(cfg) == d.connect + RolesOf(cfg)
    requires c.usage + UsageOf(cfg) == d.usage + UsageOf(cfg)
    requires c.defaultTables + DefaultsOf(cfg) == d.defaultTables + DefaultsOf(cfg)
    requires c.defaultSequences + SequenceDefaultsOf(cfg) == d.defaultSequences + SequenceDefaultsOf(cfg)
    ensures Nearly(c, d, cfg)
  {
  }

  /** A change of privileges whose final value the plan sets. */
  lemma AclChangeIsNear(c: Catalog, d: Catalog, cfg: Config)
    requires d == c.(tableGrants := d.tableGrants, sequenceGrants := d.sequenceGrants)
    requires forall g: Grant :: !Controlled(c.tables, cfg, g) ==> (g in c.tableGrants <==> g in d.tableGrants)
    requires forall g: (string, Relation) :: !ControlledSequence(c.sequences, cfg, g) ==>
               (g in c.sequenceGrants <==> g in d.sequenceGrants)
    ensures Nearly(c, d, cfg)
  {
  }

  lemma RuntimeAclStatementIsNear(c: Catalog, cfg: Config, stmt: Statement)
    requires cfg.enabled.Some? && stmt in RuntimePlan(cfg.enabled.value.runtime.role) && Execute(c, stmt).Some?
    requires stmt.GrantAllTables? || stmt.GrantAllSequences? || stmt.RevokeTable?
    ensures Nearly(c, Execute(c, stmt).value, cfg)
  {
    AclChangeIsNear(c, Execute(c, stmt).value, cfg);
  }

  lemma RuntimeStatementIsNear(c: Catalog, cfg: Config, stmt: Statement)
    requires cfg.enabled.Some? && stmt in RuntimePlan(cfg.enabled.value.runtime.role) && Execute(c, stmt).Some?
    ensures Nearly(c, Execute(c, stmt).value, cfg)
  {
    if stmt.GrantUsage? || stmt.DefaultTables? || stmt.DefaultSequences? {
      AdditionIsNear(c, Execute(c, stmt).value, cfg);
    } else {
      RuntimeAclStatementIsNear(c, cfg, stmt);
    }
  }

  lemma DispatcherStatementIsNear(c: Catalog, cfg: Config, stmt: Statement)
    requires cfg.enabled.Some? && stmt in DispatcherPlan(cfg.enabled.value.dispatcher.role) && Execute(c, stmt).Some?
    ensures Nearly(c, Execute(c, stmt).value, cfg)
  {
    if stmt.GrantUsage? {
      AdditionIsNear(c, Execute(c, stmt).value, cfg);
    } else {
      AclChangeIsNear(c, Execute(c, stmt).value, cfg);
    }
  }

  lemma AccessStatementIsNear(c: Catalog, cfg: Config, stmt: Statement)
    requires WellFormedConfig(cfg) && WellFormed(c) && RolesOk(c, cfg)
    requires stmt in AccessPlan(cfg) && Execute(c, stmt).Some?
    ensures Nearly(c, Execute(c, stmt).value, cfg) && RolesOk(Execute(c, stmt).value, cfg)
  {
    if stmt in ProvisionPlan(cfg) {
      ProvisioningIsNear(c, cfg, stmt.role, stmt.password);
    } else {
      AdditionIsNear(c, Execute(c, stmt).value, cfg);
    }
  }

  lemma ReadyStatementIsNear(c: Catalog, cfg: Config, stmt: Statement)
    requires stmt in [GrantUsage(cfg.ready.role, SHARED_SCHEMA), GrantTable(cfg.ready.role, SHARED_HISTORY, {Select})]
    requires Execute(c, stmt).Some?
    ensures Nearly(c, Execute(c, stmt).value, cfg)
  {
    if stmt.GrantUsage? {
      AdditionIsNear(c, Execute(c, stmt).value, cfg);
    } else {
      AclChangeIsNear(c, Execute(c, stmt).value, cfg);
    }
  }

  // ------------------------------------------------------ the module's migrator, early

  lemma ExtensionsCommute(c: Catalog, s: string, h: map<int, Applied>, a: set<string>, p: set<string>,
                          t: string, k: map<int, Applied>, b: set<string>, q: set<string>)
    requires s != t
    ensures Extended(Extended(c, s, h, a, p), t, k, b, q) == Extended(Extended(c, t, k, b, q), s, h, a, p)
  {
    UnionsSwap(c.tables, Named(s, a), Named(t, b));
    UnionsSwap(c.sequences, Named(s, p), Named(t, q));
    UnionsSwap(c.tableGrants, BornGrants(c.defaultTables, s, a), BornGrants(c.defaultTables, t, b));
    UnionsSwap(c.sequenceGrants, BornSequenceGrants(c.defaultSequences, s, p), BornSequenceGrants(c.defaultSequences, t, q));
    assert c.histories[s := h][t := k] == c.histories[t := k][s := h];
  }

  lemma UnionsSwap<T>(x: set<T>, a: set<T>, b: set<T>)
    ensures x + a + b == x + b + a
  {
  }

  lemma OtherSchemaOk(c: Catalog, schema: string, ms: seq<Migration>,
                      t: string, k: map<int, Applied>, b: set<string>, q: set<string>)
    requires schema != t
    ensures MigratorOk(Extended(c, t, k, b, q), schema, ms) == MigratorOk(c, schema, ms)
  {
    forall m | m in ms
      ensures ApplyOk(WithHistory(Extended(c, t, k, b, q), schema), schema, m) == ApplyOk(WithHistory(c, schema), schema, m)
    {
      OtherSchemaApply(WithHistory(c, schema), schema, m, t, k, b, q);
      if schema !in c.histories {
        ExtensionsCommute(c, schema, map[], {HISTORY}, {}, t, k, b, q);
      }
    }
  }

  lemma OtherSchemaApply(c: Catalog, schema: string, m: Migration,
                         t: string, k: map<int, Applied>, b: set<string>, q: set<string>)
    requires schema != t
    ensures ApplyOk(Extended(c, t, k, b, q), schema, m) == ApplyOk(c, schema, m)
  {
    var d := Extended(c, t, k, b, q);
    assert forall n: string :: Relation(schema, n) in d.tables <==> Relation(schema, n) in c.tables;
    assert forall n: string :: Relation(schema, n) in d.sequences <==> Relation(schema, n) in c.sequences;
  }

  /** A migrator neither sees nor disturbs what was added to another schema. */
  lemma OtherSchemaExtension(c: Catalog, schema: string, ms: seq<Migration>,
                             t: string, k: map<int, Applied>, b: set<string>, q: set<string>)
    requires schema != t
    ensures var d := Extended(c, t, k, b, q);
      && MigratorOk(d, schema, ms) == MigratorOk(c, schema, ms)
      && Migrated(d, schema, ms) == Extended(Migrated(c, schema, ms), t, k, b, q)
  {
    var d := Extended(c, t, k, b, q);
    OtherSchemaOk(c, schema, ms, t, k, b, q);
    MigratedFields(c, schema, ms);
    MigratedFields(d, schema, ms);
    ExtensionsCommute(WithSchema(c, schema), schema, MigratedHistory(HistoryOf(c, schema), ms),
      FreshTables(c.histories, schema, ms), FreshSequences(c.histories, schema, ms), t, k, b, q);
  }

  lemma OtherSchemaCreated(c: Catalog, schema: string, ms: seq<Migration>, t: string)
    ensures var d := WithSchema(c, t);
      && MigratorOk(d, schema, ms) == MigratorOk(c, schema, ms)
      && Migrated(d, schema, ms) == WithSchema(Migrated(c, schema, ms), t)
  {
    var d := WithSchema(c, t);
    MigratedFields(c, schema, ms);
    MigratedFields(d, schema, ms);
    assert c.schemas + {t} + {schema} == c.schemas + {schema} + {t};
    forall m | m in ms
      ensures ApplyOk(WithHistory(d, schema), schema, m) == ApplyOk(WithHistory(c, schema), schema, m)
    {
    }
  }

  /** `d` is `c` with a statement done that the shared migrator neither sees nor disturbs. */
  predicate Commutes(c: Catalog, d: Catalog, cfg: Config, stmt: Statement) {
    && MigratorOk(d, SHARED_SCHEMA, cfg.shared) == MigratorOk(c, SHARED_SCHEMA, cfg.shared)
    && Execute(Migrated(c, SHARED_SCHEMA, cfg.shared), stmt) == Some(Migrated(d, SHARED_SCHEMA, cfg.shared))
  }

  lemma ModuleHistorySeen(c: Catalog, cfg: Config)
    ensures var m := Migrated(c, SHARED_SCHEMA, cfg.shared);
      && HistoryOf(m, EXAMPLE_SCHEMA) == HistoryOf(c, EXAMPLE_SCHEMA)
      && (EXAMPLE_SCHEMA in m.histories <==> EXAMPLE_SCHEMA in c.histories)
  {
    MigratedFields(c, SHARED_SCHEMA, cfg.shared);
  }

  lemma MigrationCommutes(c: Catalog, d: Catalog, cfg: Config, one: Migration)
    requires Execute(c, ApplyMigration(EXAMPLE_SCHEMA, one)) == Some(d)
    ensures Commutes(c, d, cfg, ApplyMigration(EXAMPLE_SCHEMA, one))
  {
    var h := HistoryOf(c, EXAMPLE_SCHEMA);
    ModuleHistorySeen(c, cfg);
    if one.version !in h {
      OtherSchemaExtension(c, SHARED_SCHEMA, cfg.shared, EXAMPLE_SCHEMA, HistoryAfter(h, one), one.tables, one.sequences);
      SameNames(c, Migrated(c, SHARED_SCHEMA, cfg.shared), cfg, one);
    }
  }

  /** A statement of the module's migrator commutes with the whole shared migrator. */
  lemma ModuleStatementCommutes(c: Catalog, d: Catalog, cfg: Config, stmt: Statement)
    requires MigratorStatement(stmt, EXAMPLE_SCHEMA, cfg.example) && Execute(c, stmt) == Some(d)
    ensures Commutes(c, d, cfg, stmt)
  {
    ModuleHistorySeen(c, cfg);
    match stmt
    case CreateSchema(_) => OtherSchemaCreated(c, SHARED_SCHEMA, cfg.shared, EXAMPLE_SCHEMA);
    case EnsureHistory(_) =>
      if EXAMPLE_SCHEMA !in c.histories {
        OtherSchemaExtension(c, SHARED_SCHEMA, cfg.shared, EXAMPLE_SCHEMA, map[], {HISTORY}, {});
      }
    case CheckHistory(_, _) =>
    case ApplyMigration(_, one) => MigrationCommutes(c, d, cfg, one);
  }

  lemma SameNames(c: Catalog, m: Catalog, cfg: Config, one: Migration)
    requires m == Migrated(c, SHARED_SCHEMA, cfg.shared)
    ensures Named(EXAMPLE_SCHEMA, one.tables) !! m.tables <==> Named(EXAMPLE_SCHEMA, one.tables) !! c.tables
    ensures Named(EXAMPLE_SCHEMA, one.sequences) !! m.sequences <==> Named(EXAMPLE_SCHEMA, one.sequences) !! c.sequences
  {
    MigratedFields(c, SHARED_SCHEMA, cfg.shared);
    assert forall n: string :: Relation(EXAMPLE_SCHEMA, n) in m.tables <==> Relation(EXAMPLE_SCHEMA, n) in c.tables;
    assert forall n: string :: Relation(EXAMPLE_SCHEMA, n) in m.sequences <==> Relation(EXAMPLE_SCHEMA, n) in c.sequences;
  }

  // ---------------------------------------------------------------- any statement, early

  lemma PlanStatements(cfg: Config, stmt: Statement)
    requires stmt in Plan(cfg)
    ensures || stmt in AccessPlan(cfg)
            || MigratorStatement(stmt, SHARED_SCHEMA, cfg.shared)
            || (cfg.enabled.Some? && MigratorStatement(stmt, EXAMPLE_SCHEMA, cfg.example))
            || GrantStatement(cfg, stmt)
            || stmt in ChecksPlan(cfg)
  {
    MigratorPlanStatements(SHARED_SCHEMA, cfg.shared, stmt);
    MigratorPlanStatements(EXAMPLE_SCHEMA, cfg.example, stmt);
  }

  lemma MigratorPlanStatements(schema: string, ms: seq<Migration>, stmt: Statement)
    ensures stmt in MigratorPlan(schema, ms) ==> MigratorStatement(stmt, schema, ms)
  {
    if stmt in Applies(schema, ms) {
      var i :| 0 <= i < |ms| && Applies(schema, ms)[i] == stmt;
      assert ms[i] in ms;
    }
  }

  lemma StatementKeepsForm(c: Catalog, stmt: Statement)
    requires WellFormed(c) && Execute(c, stmt).Some?
    ensures var d := Execute(c, stmt).value;
      WellFormed(d) && d.elsewhere == c.elsewhere && c.roles.Keys <= d.roles.Keys
  {
    if stmt.EnsureHistory? {
      assert Relation(stmt.schema, HISTORY) in Named(stmt.schema, {HISTORY});
    }
  }

  lemma MigratorStatementKeepsRoles(c: Catalog, schema: string, ms: seq<Migration>, stmt: Statement)
    requires MigratorStatement(stmt, schema, ms) && Execute(c, stmt).Some?
    ensures Execute(c, stmt).value.roles == c.roles && Execute(c, stmt).value.elsewhere == c.elsewhere
  {
  }

  /** From `d` the plan succeeds exactly when it does from `c`, and ends where it ends from `c`. */
  predicate Absorbed(c: Catalog, d: Catalog, cfg: Config) {
    WellFormed(d) && (RunOk(d, cfg) <==> RunOk(c, cfg)) && (RunOk(c, cfg) ==> Total(d, cfg) == Total(c, cfg))
  }

  lemma NearlyIsSymmetric(c: Catalog, d: Catalog, cfg: Config)
    requires Nearly(c, d, cfg)
    ensures Nearly(d, c, cfg)
  {
  }

  lemma NearIsAbsorbed(c: Catalog, d: Catalog, cfg: Config)
    requires WellFormedConfig(cfg) && RolesOk(c, cfg)
    requires Nearly(c, d, cfg) && WellFormed(d) && RolesOk(d, cfg)
    ensures Absorbed(c, d, cfg)
  {
    if RunOk(c, cfg) {
      NearlyMeansSameResult(c, d, cfg);
    }
    if RunOk(d, cfg) {
      NearlyIsSymmetric(c, d, cfg);
      NearlyMeansSameResult(d, c, cfg);
    }
  }

  predicate MigratorsOk(c: Catalog, cfg: Config) {
    && MigratorOk(c, SHARED_SCHEMA, cfg.shared)
    && (cfg.enabled.Some? ==> MigratorOk(Migrated(c, SHARED_SCHEMA, cfg.shared), EXAMPLE_SCHEMA, cfg.example))
  }

  /** Both migrators succeed from both or from neither, and leave the same together. */
  predicate MigratorsAgree(c: Catalog, d: Catalog, cfg: Config) {
    && (MigratorsOk(c, cfg) <==> MigratorsOk(d, cfg))
    && (MigratorsOk(c, cfg) ==> Merged(d, cfg) == Merged(c, cfg))
  }

  lemma MergedDecides(c: Catalog, d: Catalog, cfg: Config)
    requires WellFormed(d) && d.roles == c.roles && d.elsewhere == c.elsewhere
    requires MigratorsAgree(c, d, cfg)
    ensures Absorbed(c, d, cfg)
  {
    assert RunOk(c, cfg) ==> MigratorsOk(c, cfg);
    assert RunOk(d, cfg) ==> MigratorsOk(d, cfg);
  }

  /** A migrator's own statement, done before, changes neither whether it proceeds nor what it leaves. */
  lemma MigratorIndifferent(c: Catalog, d: Catalog, schema: string, ms: seq<Migration>, stmt: Statement)
    requires WellFormedScripts(ms) && MigratorStatement(stmt, schema, ms) && Execute(c, stmt) == Some(d)
    ensures MigratorOk(c, schema, ms) <==> MigratorOk(d, schema, ms)
    ensures MigratorOk(c, schema, ms) ==> Migrated(d, schema, ms) == Migrated(c, schema, ms)
  {
    if MigratorOk(d, schema, ms) {
      MigratorReflects(c, schema, ms, stmt);
    }
    if MigratorOk(c, schema, ms) {
      MigratorAbsorbs(c, schema, ms, stmt);
    }
  }

  lemma SharedMigrationAgrees(c: Catalog, d: Catalog, cfg: Config, stmt: Statement)
    requires WellFormedConfig(cfg) && Execute(c, stmt) == Some(d)
    requires MigratorStatement(stmt, SHARED_SCHEMA, cfg.shared)
    ensures MigratorsAgree(c, d, cfg)
  {
    MigratorIndifferent(c, d, SHARED_SCHEMA, cfg.shared, stmt);
  }

  /** What the module's migrator is indifferent to once the shared one has run, both are. */
  lemma IndifferentAfterShared(c: Catalog, d: Catalog, m: Catalog, n: Catalog, cfg: Config)
    requires m == Migrated(c, SHARED_SCHEMA, cfg.shared) && n == Migrated(d, SHARED_SCHEMA, cfg.shared)
    requires MigratorOk(d, SHARED_SCHEMA, cfg.shared) == MigratorOk(c, SHARED_SCHEMA, cfg.shared) && cfg.enabled.Some?
    requires MigratorOk(m, EXAMPLE_SCHEMA, cfg.example) <==> MigratorOk(n, EXAMPLE_SCHEMA, cfg.example)
    requires MigratorOk(m, EXAMPLE_SCHEMA, cfg.example) ==>
               Migrated(n, EXAMPLE_SCHEMA, cfg.example) == Migrated(m, EXAMPLE_SCHEMA, cfg.example)
    ensures MigratorsAgree(c, d, cfg)
  {
  }

  lemma ModuleMigrationAgrees(c: Catalog, d: Catalog, cfg: Config, stmt: Statement)
    requires WellFormedConfig(cfg) && Execute(c, stmt) == Some(d) && cfg.enabled.Some?
    requires MigratorStatement(stmt, EXAMPLE_SCHEMA, cfg.example)
    ensures MigratorsAgree(c, d, cfg)
  {
    var m, n := Migrated(c, SHARED_SCHEMA, cfg.shared), Migrated(d, SHARED_SCHEMA, cfg.shared);
    ModuleStatementCommutes(c, d, cfg, stmt);
    MigratorIndifferent(m, n, EXAMPLE_SCHEMA, cfg.example, stmt);
    IndifferentAfterShared(c, d, m, n, cfg);
  }

  /** A statement between the migrators' and the checks: a grant, a revocation or a default. */
  predicate GrantStatement(cfg: Config, stmt: Statement) {
    || stmt in [GrantUsage(cfg.ready.role, SHARED_SCHEMA), GrantTable(cfg.ready.role, SHARED_HISTORY, {Select})]
    || (cfg.enabled.Some? && stmt in RuntimePlan(cfg.enabled.value.runtime.role))
    || (cfg.enabled.Some? && stmt in DispatcherPlan(cfg.enabled.value.dispatcher.role))
  }

  lemma GrantStatementIsNear(c: Catalog, cfg: Config, stmt: Statement)
    requires GrantStatement(cfg, stmt) && Execute(c, stmt).Some?
    ensures Nearly(c, Execute(c, stmt).value, cfg)
  {
    if cfg.enabled.Some? && stmt in RuntimePlan(cfg.enabled.value.runtime.role) {
      RuntimeStatementIsNear(c, cfg, stmt);
    } else if cfg.enabled.Some? && stmt in DispatcherPlan(cfg.enabled.value.dispatcher.role) {
      DispatcherStatementIsNear(c, cfg, stmt);
    } else {
      ReadyStatementIsNear(c, cfg, stmt);
    }
  }

  lemma GrantStatementKeepsRoles(c: Catalog, cfg: Config, stmt: Statement)
    requires GrantStatement(cfg, stmt) && Execute(c, stmt).Some?
    ensures Execute(c, stmt).value.roles == c.roles && Execute(c, stmt).value.elsewhere == c.elsewhere
  {
    assert !stmt.ProvisionRole?;
  }

  lemma CheckChangesNothing(c: Catalog, cfg: Config, stmt: Statement)
    requires stmt in ChecksPlan(cfg) && Execute(c, stmt).Some?
    ensures Execute(c, stmt).value == c
  {
  }

  lemma RolesReflect(c: Catalog, d: Catalog, cfg: Config)
    requires c.elsewhere == d.elsewhere && c.roles.Keys <= d.roles.Keys && RolesOk(d, cfg)
    ensures RolesOk(c, cfg)
  {
  }

  /** What a statement of the plan does to the catalog, in the terms a rerun cares about. */
  lemma EarlyStatement(c: Catalog, cfg: Config, stmt: Statement)
    requires WellFormedConfig(cfg) && WellFormed(c) && RolesOk(c, cfg)
    requires stmt in Plan(cfg) && Execute(c, stmt).Some?
    ensures var d := Execute(c, stmt).value;
      || d == c
      || (Nearly(c, d, cfg) && RolesOk(d, cfg))
      || (MigratorsAgree(c, d, cfg) && d.roles == c.roles && d.elsewhere == c.elsewhere)
  {
    PlanStatements(cfg, stmt);
    if stmt in AccessPlan(cfg) {
      AccessStatementIsNear(c, cfg, stmt);
    } else if MigratorStatement(stmt, SHARED_SCHEMA, cfg.shared) {
      SharedMigrationAgrees(c, Execute(c, stmt).value, cfg, stmt);
      MigratorStatementKeepsRoles(c, SHARED_SCHEMA, cfg.shared, stmt);
    } else if cfg.enabled.Some? && MigratorStatement(stmt, EXAMPLE_SCHEMA, cfg.example) {
      ModuleMigrationAgrees(c, Execute(c, stmt).value, cfg, stmt);
      MigratorStatementKeepsRoles(c, EXAMPLE_SCHEMA, cfg.example, stmt);
    } else if stmt in ChecksPlan(cfg) {
      CheckChangesNothing(c, cfg, stmt);
    } else {
      GrantStatementIsNear(c, cfg, stmt);
      GrantStatementKeepsRoles(c, cfg, stmt);
    }
  }

  /** Committing any one statement of the plan beforehand changes neither success nor result of the whole plan. */
  lemma PlanAbsorbs(c: Catalog, d: Catalog, cfg: Config, stmt: Statement)
    requires WellFormedConfig(cfg) && WellFormed(c)
    requires stmt in Plan(cfg) && Execute(c, stmt) == Some(d)
    ensures Absorbed(c, d, cfg)
  {
    StatementKeepsForm(c, stmt);
    if RolesOk(c, cfg) {
      EarlyStatement(c, cfg, stmt);
      if Nearly(c, d, cfg) && RolesOk(d, cfg) {
        NearIsAbsorbed(c, d, cfg);
      } else if d != c {
        MergedDecides(c, d, cfg);
      }
    } else if RolesOk(d, cfg) {
      RolesReflect(c, d, cfg);
    }
  }

  lemma {:induction false} PrefixAbsorbed(c: Catalog, cfg: Config, stmts: seq<Statement>)
    requires WellFormedConfig(cfg) && WellFormed(c)
    requires forall x | x in stmts :: x in Plan(cfg)
    requires RunAll(c, stmts).Some?
    ensures Absorbed(c, RunAll(c, stmts).value, cfg)
    decreases |stmts|
  {
    if stmts != [] {
      PlanAbsorbs(c, Execute(c, stmts[0]).value, cfg, stmts[0]);
      PrefixAbsorbed(Execute(c, stmts[0]).value, cfg, stmts[1..]);
    }
  }

  // ------------------------------------------------------------------------- crashes

  /** The catalog after runs that stopped after the given numbers of statements. */
  function AfterCrashes(c: Catalog, cfg: Config, stops: seq<nat>): Option<Catalog>
    requires forall i | 0 <= i < |stops| :: stops[i] <= |Plan(cfg)|
    decreases |stops|
  {
    if stops == [] then Some(c)
    else match RunAll(c, Plan(cfg)[..stops[0]])
      case None => None
      case Some(d) => AfterCrashes(d, cfg, stops[1..])
  }

  lemma PrefixRuns(c: Catalog, plan: seq<Statement>, k: nat)
    requires k <= |plan| && RunAll(c, plan).Some?
    ensures RunAll(c, plan[..k]).Some?
  {
    RunAllAppends(c, plan[..k], plan[k..]);
    assert plan[..k] + plan[k..] == plan;
  }

  /**
   * Stop the migration after any number of its statements, as often as you
   * like: a complete run afterwards succeeds exactly when one uninterrupted run
   * would have, and leaves the very catalog, roles, grants, schemas and
   * histories, that one would have left.
   */
  lemma {:induction false} CrashesConverge(c: Catalog, cfg: Config, stops: seq<nat>)
    requires WellFormedConfig(cfg) && WellFormed(c)
    requires forall i | 0 <= i < |stops| :: stops[i] <= |Plan(cfg)|
    ensures RunAll(c, Plan(cfg)).Some? ==> AfterCrashes(c, cfg, stops).Some?
    ensures AfterCrashes(c, cfg, stops).Some? ==>
              RunAll(AfterCrashes(c, cfg, stops).value, Plan(cfg)) == RunAll(c, Plan(cfg))
    decreases |stops|
  {
    if stops != [] {
      var prefix := Plan(cfg)[..stops[0]];
      if RunAll(c, Plan(cfg)).Some? {
        PrefixRuns(c, Plan(cfg), stops[0]);
      }
      if RunAll(c, prefix).Some? {
        OneCrash(c, cfg, prefix);
        CrashesConverge(RunAll(c, prefix).value, cfg, stops[1..]);
      }
    }
  }

  lemma OneCrash(c: Catalog, cfg: Config, prefix: seq<Statement>)
    requires WellFormedConfig(cfg) && WellFormed(c)
    requires prefix <= Plan(cfg) && RunAll(c, prefix).Some?
    ensures WellFormed(RunAll(c, prefix).value)
    ensures RunAll(RunAll(c, prefix).value, Plan(cfg)) == RunAll(c, Plan(cfg))
  {
    var d := RunAll(c, prefix).value;
    assert prefix == Plan(cfg)[..|prefix|];
    PrefixAbsorbed(c, cfg, prefix);
    PlanRuns(c, cfg);
    PlanRuns(d, cfg);
  }

  lemma SharedMigratorKeepsOthers(c: Catalog, d: Catalog, cfg: Config, stmt: Statement)
    requires MigratorStatement(stmt, SHARED_SCHEMA, cfg.shared) && Execute(c, stmt) == Some(d)
    ensures d.histories.Keys - {SHARED_SCHEMA} == c.histories.Keys - {SHARED_SCHEMA}
    ensures EXAMPLE_SCHEMA in c.histories ==> d.histories[EXAMPLE_SCHEMA] == c.histories[EXAMPLE_SCHEMA]
  {
  }

  predicate TouchesHistories(stmt: Statement) {
    stmt.EnsureHistory? || stmt.ApplyMigration?
  }

  lemma OthersKeepHistories(c: Catalog, stmt: Statement)
    requires !TouchesHistories(stmt) && Execute(c, stmt).Some?
    ensures Execute(c, stmt).value.histories == c.histories
  {
  }

  lemma StatementKeepsModuleHistory(c: Catalog, cfg: Config, stmt: Statement)
    requires cfg.enabled.None? && stmt in Plan(cfg) && Execute(c, stmt).Some?
    ensures EXAMPLE_SCHEMA in Execute(c, stmt).value.histories <==> EXAMPLE_SCHEMA in c.histories
    ensures HistoryOf(Execute(c, stmt).value, EXAMPLE_SCHEMA) == HistoryOf(c, EXAMPLE_SCHEMA)
  {
    var d := Execute(c, stmt).value;
    if TouchesHistories(stmt) {
      PlanStatements(cfg, stmt);
      SharedMigratorKeepsOthers(c, d, cfg, stmt);
      assert EXAMPLE_SCHEMA in d.histories <==> EXAMPLE_SCHEMA in d.histories.Keys - {SHARED_SCHEMA};
      assert EXAMPLE_SCHEMA in c.histories <==> EXAMPLE_SCHEMA in c.histories.Keys - {SHARED_SCHEMA};
    } else {
      OthersKeepHistories(c, stmt);
    }
  }

  /** Without the module the plan never touches its history, so the removal check cannot change its mind. */
  lemma {:induction false} ModuleHistoryUntouched(c: Catalog, cfg: Config, stmts: seq<Statement>)
    requires cfg.enabled.None? && RunAll(c, stmts).Some?
    requires forall x | x in stmts :: x in Plan(cfg)
    ensures EXAMPLE_SCHEMA in RunAll(c, stmts).value.histories <==> EXAMPLE_SCHEMA in c.histories
    ensures HistoryOf(RunAll(c, stmts).value, EXAMPLE_SCHEMA) == HistoryOf(c, EXAMPLE_SCHEMA)
    decreases |stmts|
  {
    if stmts != [] {
      StatementKeepsModuleHistory(c, cfg, stmts[0]);
      ModuleHistoryUntouched(Execute(c, stmts[0]).value, cfg, stmts[1..]);
    }
  }

  /**
   * The same for the command as a whole: after any committed prefix it answers,
   * with a catalog, a refusal or a failure, as it would have answered before.
   */
  lemma InterruptedMigrationConverges(c: Catalog, cfg: Config, prefix: seq<Statement>)
    requires WellFormedConfig(cfg) && WellFormed(c)
    requires prefix <= Plan(cfg) && RunAll(c, prefix).Some?
    ensures MigrateInstallation(RunAll(c, prefix).value, cfg) == MigrateInstallation(c, cfg)
  {
    OneCrash(c, cfg, prefix);
    assert prefix == Plan(cfg)[..|prefix|];
    if cfg.enabled.None? {
      ModuleHistoryUntouched(c, cfg, prefix);
    }
  }

  // ------------------------------------------------------------- a fresh installation

  /** Nothing in the catalog concerns this installation yet. */
  predicate Unclaimed(c: Catalog, cfg: Config) {
    && SHARED_SCHEMA !in c.histories && EXAMPLE_SCHEMA !in c.histories
    && (forall r | r in c.tables :: r.schema != SHARED_SCHEMA && r.schema != EXAMPLE_SCHEMA)
    && (forall r | r in c.sequences :: r.schema != SHARED_SCHEMA && r.schema != EXAMPLE_SCHEMA)
    && RolesOf(cfg) !! c.roles.Keys && RolesOf(cfg) !! c.memberships && RolesOf(cfg) !! c.databaseCreate
    && (forall held | held in c.usage :: held.0 !in RolesOf(cfg))
  }

  lemma FreshMigratorSucceeds(c: Catalog, schema: string, ms: seq<Migration>)
    requires WellFormedScripts(ms) && schema !in c.histories
    requires forall r | r in c.tables :: r.schema != schema
    requires forall r | r in c.sequences :: r.schema != schema
    ensures MigratorOk(c, schema, ms)
  {
    forall m | m in ms
      ensures ApplyOk(WithHistory(c, schema), schema, m)
    {
      assert HISTORY !in m.tables;
    }
  }

  lemma NewRolesAreOrdinary(roles: map<string, Role>, cfg: Config, role: string)
    requires role in RolesOf(cfg) && RolesOf(cfg) !! roles.Keys
    ensures var all := FinalRoles(roles, cfg);
      role in all && all[role].canLogin && !all[role].inherits && !all[role].elevated
  {
  }

  /** `d` has the installation's new roles and their schemas, and otherwise what `c` had. */
  predicate HasNewRoles(c: Catalog, d: Catalog, cfg: Config) {
    && d.roles == FinalRoles(c.roles, cfg) && d.usage == c.usage + UsageOf(cfg) && !d.publicSchema
    && d.memberships == c.memberships && d.databaseCreate == c.databaseCreate
  }

  lemma NewRoleIsScoped(c: Catalog, d: Catalog, cfg: Config, role: string, schema: string)
    requires Unclaimed(c, cfg) && HasNewRoles(c, d, cfg) && role in RolesOf(cfg)
    requires forall held | held in UsageOf(cfg) && held.0 == role :: held.1 == schema
    ensures Scoped(d, role, schema)
  {
    NewRolesAreOrdinary(c.roles, cfg, role);
  }

  lemma NewRolesAreScoped(c: Catalog, d: Catalog, cfg: Config)
    requires DistinctRoles(cfg) && Unclaimed(c, cfg) && HasNewRoles(c, d, cfg)
    ensures ScopesOk(d, cfg)
  {
    NewRoleIsScoped(c, d, cfg, cfg.ready.role, SHARED_SCHEMA);
    if cfg.enabled.Some? {
      NewRoleIsScoped(c, d, cfg, cfg.enabled.value.runtime.role, EXAMPLE_SCHEMA);
      NewRoleIsScoped(c, d, cfg, cfg.enabled.value.dispatcher.role, EXAMPLE_SCHEMA);
    }
  }

  lemma MigratedKeepsRest(c: Catalog, schema: string, ms: seq<Migration>)
    ensures var d := Migrated(c, schema, ms);
      && d.roles == c.roles && d.usage == c.usage
      && d.memberships == c.memberships && d.databaseCreate == c.databaseCreate
  {
    MigratedFields(c, schema, ms);
  }

  lemma GrantedHasNewRoles(c: Catalog, m: Catalog, cfg: Config)
    requires m.roles == c.roles && m.usage == c.usage
    requires m.memberships == c.memberships && m.databaseCreate == c.databaseCreate
    ensures HasNewRoles(c, Granted(m, cfg), cfg)
  {
  }

  lemma FreshScopes(c: Catalog, cfg: Config)
    requires DistinctRoles(cfg) && Unclaimed(c, cfg)
    ensures ScopesOk(Total(c, cfg), cfg)
  {
    MigratedKeepsRest(c, SHARED_SCHEMA, cfg.shared);
    MigratedKeepsRest(Migrated(c, SHARED_SCHEMA, cfg.shared), EXAMPLE_SCHEMA, cfg.example);
    var m := Merged(c, cfg);
    GrantedHasNewRoles(c, m, cfg);
    NewRolesAreScoped(c, Granted(m, cfg), cfg);
  }

  lemma OutboxIsCreated(c: Catalog, cfg: Config, m: Migration)
    requires EXAMPLE_SCHEMA !in c.histories && m in cfg.example && OUTBOX in m.tables && cfg.enabled.Some?
    ensures EXAMPLE_OUTBOX in Merged(c, cfg).tables
  {
    var s := Migrated(c, SHARED_SCHEMA, cfg.shared);
    MigratedFields(c, SHARED_SCHEMA, cfg.shared);
    MigratedFields(s, EXAMPLE_SCHEMA, cfg.example);
    assert OUTBOX in PendingTables(map[], cfg.example);
    assert EXAMPLE_OUTBOX in Named(EXAMPLE_SCHEMA, FreshTables(s.histories, EXAMPLE_SCHEMA, cfg.example));
  }

  /** Where nothing stands in its way, the command succeeds. */
  lemma FreshInstallationSucceeds(c: Catalog, cfg: Config)
    requires WellFormedConfig(cfg) && WellFormed(c) && Unclaimed(c, cfg)
    requires cfg.enabled.Some? ==> exists m :: m in cfg.example && OUTBOX in m.tables
    ensures MigrateInstallation(c, cfg) == Ok(Total(c, cfg))
  {
    var s := Migrated(c, SHARED_SCHEMA, cfg.shared);
    FreshMigratorSucceeds(c, SHARED_SCHEMA, cfg.shared);
    if cfg.enabled.Some? {
      MigratedFields(c, SHARED_SCHEMA, cfg.shared);
      FreshMigratorSucceeds(s, EXAMPLE_SCHEMA, cfg.example);
      var m :| m in cfg.example && OUTBOX in m.tables;
      OutboxIsCreated(c, cfg, m);
    }
    FreshScopes(c, cfg);
    PlanRuns(c, cfg);
  }

  // ---------------------------------------------------------------- final privileges

  /** What a successful command leaves of table and sequence privileges. */
  lemma SuccessGrants(c: Catalog, cfg: Config)
    requires WellFormedConfig(cfg) && WellFormed(c) && MigrateInstallation(c, cfg).Ok?
    ensures var d, m := MigrateInstallation(c, cfg).value, Merged(c, cfg);
      && d.tables == m.tables
      && d.tableGrants == FinalTableGrants(m.tableGrants, m.tables, cfg)
      && d.sequenceGrants == FinalSequenceGrants(m.sequenceGrants, m.sequences, cfg)
  {
    PlanRuns(c, cfg);
  }

  lemma TableGrantsExactly(held: set<Grant>, tables: set<Relation>, cfg: Config, g: Grant)
    requires DistinctRoles(cfg)
    ensures g in FinalTableGrants(held, tables, cfg) <==> Holds(held, tables, cfg, g)
  {
  }

  /** After success the dispatcher can read and update the outbox and nothing else, whatever it held before. */
  lemma DispatcherIsConfined(c: Catalog, cfg: Config, relation: Relation, p: Privilege)
    requires WellFormedConfig(cfg) && WellFormed(c) && cfg.enabled.Some?
    requires MigrateInstallation(c, cfg).Ok? && relation.schema == "bc_example"
    ensures var d, role := MigrateInstallation(c, cfg).value, cfg.enabled.value.dispatcher.role;
      && (Grant(role, relation, p) in d.tableGrants <==>
            relation == Relation("bc_example", "outbox_events") && (p == Select || p == Update))
      && (role, relation) !in d.sequenceGrants
  {
    SuccessGrants(c, cfg);
    var m := Merged(c, cfg);
    TableGrantsExactly(m.tableGrants, m.tables, cfg, Grant(cfg.enabled.value.dispatcher.role, relation, p));
  }

  ghost predicate IsData(p: Privilege) {
    p == Select || p == Insert || p == Update || p == Delete
  }

  /** The module's role may do this to a table of its schema: anything to data, but only read the migration history. */
  ghost predicate RuntimeMay(table: Relation, p: Privilege) {
    IsData(p) && (table == Relation("bc_example", "_sqlx_migrations") ==> p == Select)
  }

  lemma HoldsForRuntime(held: set<Grant>, tables: set<Relation>, cfg: Config, table: Relation, p: Privilege)
    requires DistinctRoles(cfg) && cfg.enabled.Some? && table in tables && table.schema == "bc_example" && IsData(p)
    ensures Holds(held, tables, cfg, Grant(cfg.enabled.value.runtime.role, table, p)) <==> RuntimeMay(table, p)
  {
  }

  /** The module's role works on every table of its schema, but only reads the migration history. */
  lemma RuntimePrivileges(c: Catalog, cfg: Config, table: Relation, p: Privilege)
    requires WellFormedConfig(cfg) && WellFormed(c) && cfg.enabled.Some?
    requires MigrateInstallation(c, cfg).Ok?
    requires table in MigrateInstallation(c, cfg).value.tables && table.schema == "bc_example" && IsData(p)
    ensures Grant(cfg.enabled.value.runtime.role, table, p) in MigrateInstallation(c, cfg).value.tableGrants <==>
            RuntimeMay(table, p)
  {
    SuccessGrants(c, cfg);
    var m := Merged(c, cfg);
    HoldsForRuntime(m.tableGrants, m.tables, cfg, table, p);
    TableGrantsExactly(m.tableGrants, m.tables, cfg, Grant(cfg.enabled.value.runtime.role, table, p));
  }

  /** The grants of an installation that started from none. */
  ghost predicate Rightful(cfg: Config, tables: set<Relation>, g: Grant) {
    || g == Grant(cfg.ready.role, Relation("bc_shared", "_sqlx_migrations"), Select)
    || (cfg.enabled.Some? && g.role == cfg.enabled.value.dispatcher.role
        && g.relation == Relation("bc_example", "outbox_events") && (g.privilege == Select || g.privilege == Update))
    || (cfg.enabled.Some? && g.role == cfg.enabled.value.runtime.role && g.relation.schema == "bc_example"
        && g.relation in tables && RuntimeMay(g.relation, g.privilege))
  }

  lemma HoldsFromNothing(tables: set<Relation>, cfg: Config, g: Grant)
    requires DistinctRoles(cfg)
    ensures Holds({}, tables, cfg, g) <==> Rightful(cfg, tables, g)
  {
  }

  lemma NothingBornIn(c: Catalog, schema: string, ms: seq<Migration>)
    requires c.tableGrants == {} && c.defaultTables == {}
    ensures Migrated(c, schema, ms).tableGrants == {} && Migrated(c, schema, ms).defaultTables == {}
  {
    MigratedFields(c, schema, ms);
  }

  lemma NothingBorn(c: Catalog, cfg: Config)
    requires c.tableGrants == {} && c.defaultTables == {}
    ensures Merged(c, cfg).tableGrants == {}
  {
    NothingBornIn(c, SHARED_SCHEMA, cfg.shared);
    NothingBornIn(Migrated(c, SHARED_SCHEMA, cfg.shared), EXAMPLE_SCHEMA, cfg.example);
  }

  /** On a catalog that granted nothing, these are all the table privileges there are. */
  lemma FreshInstallationPrivileges(c: Catalog, cfg: Config, g: Grant)
    requires WellFormedConfig(cfg) && WellFormed(c)
    requires MigrateInstallation(c, cfg).Ok? && c.tableGrants == {} && c.defaultTables == {}
    ensures g in MigrateInstallation(c, cfg).value.tableGrants <==>
            Rightful(cfg, MigrateInstallation(c, cfg).value.tables, g)
  {
    SuccessGrants(c, cfg);
    NothingBorn(c, cfg);
    TableGrantsExactly({}, Merged(c, cfg).tables, cfg, g);
    HoldsFromNothing(Merged(c, cfg).tables, cfg, g);
  }
}
