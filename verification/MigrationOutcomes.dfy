/** The refusals of the migration command, and what the roles can do after its success, on the catalog itself. */
module MigrationOutcomes {
  import opened Wrappers
  import opened Catalog
  import opened Migrator
  import opened Installation
  import opened Convergence
  import Readiness

  // -------------------------------------------------------------------- the refusals

  /** The module's history, if there is one, records a success. */
  ghost predicate HasSucceeded(c: Catalog) {
    "bc_example" in c.histories && exists v :: v in c.histories["bc_example"] && c.histories["bc_example"][v].success
  }

  /** Disabling the module is refused exactly when one of its migrations has succeeded. */
  lemma RemovalRefusedExactly(c: Catalog, cfg: Config)
    requires cfg.enabled.None?
    ensures MigrateInstallation(c, cfg) == Err(ModuleRemoval) <==> HasSucceeded(c)
  {
  }

  /** Once migrated with the module, the installation cannot be migrated without it. */
  lemma InstalledModuleStays(c: Catalog, cfg: Config, without: Config)
    requires WellFormedConfig(cfg) && WellFormed(c) && MigrateInstallation(c, cfg).Ok?
    requires cfg.enabled.Some? && cfg.example != [] && without.enabled.None?
    ensures MigrateInstallation(MigrateInstallation(c, cfg).value, without) == Err(ModuleRemoval)
  {
    PlanRuns(c, cfg);
    var s, d := Migrated(c, SHARED_SCHEMA, cfg.shared), MigrateInstallation(c, cfg).value;
    MigratedFields(s, EXAMPLE_SCHEMA, cfg.example);
    Readiness.MigratorLeavesExactlyApplied(s, EXAMPLE_SCHEMA, cfg.example);
    assert cfg.example[0] in cfg.example;
    assert cfg.example[0].version in d.histories["bc_example"];
    RemovalRefusedExactly(d, without);
  }

  /** Roles may not be shared; no database statement is needed to see it. */
  lemma SharedRolesRefusedExactly(c: Catalog, cfg: Config)
    ensures MigrateInstallation(c, cfg) == Err(SharedRoles) <==>
            && cfg.enabled.Some?
            && var a, b, r := cfg.enabled.value.runtime.role, cfg.enabled.value.dispatcher.role, cfg.ready.role;
               a == b || a == r || b == r
  {
  }

  // -------------------------------------------------------------- identities and roles

  /** One of the identities of the configuration, and the schema it belongs to. */
  ghost predicate IsIdentity(cfg: Config, i: Identity, schema: string) {
    || (i == cfg.ready && schema == "bc_shared")
    || (cfg.enabled.Some? && schema == "bc_example" && (i == cfg.enabled.value.runtime || i == cfg.enabled.value.dispatcher))
  }

  /** An ordinary login with this password that is in no role and may create nothing. */
  ghost predicate OrdinaryLogin(d: Catalog, i: Identity) {
    && i.role in d.roles
    && d.roles[i.role].password == i.password
    && d.roles[i.role].canLogin && !d.roles[i.role].inherits && !d.roles[i.role].elevated
    && i.role !in d.memberships && i.role !in d.databaseCreate
  }

  /** Of schemas it may use its own and those of the system. */
  ghost predicate ConfinedTo(d: Catalog, role: string, schema: string) {
    forall held | held in d.usage && held.0 == role ::
      || held.1 == schema || held.1 == "information_schema"
      || exists c: char, rest: string :: held.1 == "pg" + [c] + rest
  }

  lemma SystemSchemaExactly(schema: string)
    ensures SystemSchema(schema) <==>
            schema == "information_schema" || exists c: char, rest: string :: schema == "pg" + [c] + rest
  {
    if |schema| >= 3 && schema[..2] == "pg" {
      assert schema == "pg" + [schema[2]] + schema[3..];
    }
  }

  lemma ProvisionedRole(c: Catalog, cfg: Config, i: Identity, schema: string)
    requires DistinctRoles(cfg) && IsIdentity(cfg, i, schema)
    ensures var all := FinalRoles(c.roles, cfg);
      && i.role in all && all[i.role].password == i.password
      && (i.role in c.roles ==> all[i.role] == c.roles[i.role].(password := i.password))
      && (i.role !in c.roles ==> all[i.role] == Role(i.password, true, false, false))
  {
  }

  lemma ScopedMeansConfined(d: Catalog, role: string, schema: string)
    requires Scoped(d, role, schema)
    ensures ConfinedTo(d, role, schema)
  {
    forall held | held in d.usage && held.0 == role
      ensures || held.1 == schema || held.1 == "information_schema"
              || exists x: char, rest: string :: held.1 == "pg" + [x] + rest
    {
      SystemSchemaExactly(held.1);
    }
  }

  lemma SuccessScopes(c: Catalog, cfg: Config, i: Identity, schema: string)
    requires WellFormedConfig(cfg) && WellFormed(c) && MigrateInstallation(c, cfg).Ok? && IsIdentity(cfg, i, schema)
    ensures var d := MigrateInstallation(c, cfg).value;
      && Scoped(d, i.role, schema) && d.roles == FinalRoles(c.roles, cfg)
      && (i.role in c.roles ==> i.role !in c.elsewhere)
  {
    PlanRuns(c, cfg);
    MergedKeepsAccess(c, cfg);
    var m := Merged(c, cfg);
    assert Total(c, cfg) == Granted(m, cfg);
  }

  /**
   * After success every identity is an ordinary login confined to its schema, with
   * the configured password; a role that existed kept all its other attributes,
   * which must have been ordinary before, and belonged to no other database.
   */
  lemma RolesAfterSuccess(c: Catalog, cfg: Config, i: Identity, schema: string)
    requires WellFormedConfig(cfg) && WellFormed(c) && MigrateInstallation(c, cfg).Ok? && IsIdentity(cfg, i, schema)
    ensures var d := MigrateInstallation(c, cfg).value;
      && OrdinaryLogin(d, i) && ConfinedTo(d, i.role, schema)
      && (i.role in c.roles ==> i.role !in c.elsewhere && d.roles[i.role] == c.roles[i.role].(password := i.password))
  {
    SuccessScopes(c, cfg, i, schema);
    ProvisionedRole(c, cfg, i, schema);
    ScopedMeansConfined(MigrateInstallation(c, cfg).value, i.role, schema);
  }

  lemma OtherRolesStay(c: Catalog, cfg: Config, role: string)
    requires WellFormedConfig(cfg) && WellFormed(c) && MigrateInstallation(c, cfg).Ok?
    requires forall i, schema | IsIdentity(cfg, i, schema) :: i.role != role
    ensures var d := MigrateInstallation(c, cfg).value;
      && (role in d.roles <==> role in c.roles) && (role in c.roles ==> d.roles[role] == c.roles[role])
      && (role in d.connect <==> role in c.connect)
      && forall schema :: (role, schema) in d.usage <==> (role, schema) in c.usage
  {
    PlanRuns(c, cfg);
    IdentitiesNamed(cfg, role);
    OthersKeep(c, cfg, role);
  }

  lemma IdentitiesNamed(cfg: Config, role: string)
    requires forall i, schema | IsIdentity(cfg, i, schema) :: i.role != role
    ensures role !in RolesOf(cfg)
  {
    assert IsIdentity(cfg, cfg.ready, "bc_shared");
    if cfg.enabled.Some? {
      assert IsIdentity(cfg, cfg.enabled.value.runtime, "bc_example");
      assert IsIdentity(cfg, cfg.enabled.value.dispatcher, "bc_example");
    }
  }

  lemma OtherRolesKept(roles: map<string, Role>, cfg: Config, role: string)
    requires role !in RolesOf(cfg)
    ensures var all := FinalRoles(roles, cfg);
      (role in all <==> role in roles) && (role in roles ==> all[role] == roles[role])
  {
  }

  lemma GrantedKeepsOthers(m: Catalog, cfg: Config, role: string)
    requires role !in RolesOf(cfg)
    ensures var d := Granted(m, cfg);
      && d.roles == FinalRoles(m.roles, cfg) && (role in d.connect <==> role in m.connect)
      && forall schema :: (role, schema) in d.usage <==> (role, schema) in m.usage
  {
  }

  lemma OthersKeep(c: Catalog, cfg: Config, role: string)
    requires role !in RolesOf(cfg)
    ensures var d := Total(c, cfg);
      && (role in d.roles <==> role in c.roles) && (role in c.roles ==> d.roles[role] == c.roles[role])
      && (role in d.connect <==> role in c.connect)
      && forall schema :: (role, schema) in d.usage <==> (role, schema) in c.usage
  {
    MergedKeepsAccess(c, cfg);
    GrantedKeepsOthers(Merged(c, cfg), cfg, role);
    OtherRolesKept(c.roles, cfg, role);
  }

  lemma MergedKeepsAccess(c: Catalog, cfg: Config)
    ensures var m := Merged(c, cfg);
      m.roles == c.roles && m.connect == c.connect && m.usage == c.usage
  {
    MigratedFields(c, SHARED_SCHEMA, cfg.shared);
    MigratedFields(Migrated(c, SHARED_SCHEMA, cfg.shared), EXAMPLE_SCHEMA, cfg.example);
  }

  // ---------------------------------------------------------------------- the access

  /** After success PUBLIC has no way in, and every identity can connect and use its schema. */
  lemma AccessAfterSuccess(c: Catalog, cfg: Config, i: Identity, schema: string)
    requires WellFormedConfig(cfg) && WellFormed(c) && MigrateInstallation(c, cfg).Ok? && IsIdentity(cfg, i, schema)
    ensures var d := MigrateInstallation(c, cfg).value;
      && !d.publicConnect && !d.publicSchema
      && i.role in d.connect && (i.role, schema) in d.usage && schema in d.schemas
  {
    PlanRuns(c, cfg);
    SchemasCreated(c, cfg);
    IdentityHasAccess(c, cfg, i, schema);
  }

  lemma IdentityHasAccess(c: Catalog, cfg: Config, i: Identity, schema: string)
    requires IsIdentity(cfg, i, schema)
    ensures var d := Total(c, cfg);
      !d.publicConnect && !d.publicSchema && i.role in d.connect && (i.role, schema) in d.usage
      && d.schemas == Merged(c, cfg).schemas
  {
    var m := Merged(c, cfg);
    assert i.role in RolesOf(cfg) && (i.role, schema) in UsageOf(cfg);
    assert Total(c, cfg) == Granted(m, cfg);
  }

  lemma SchemasCreated(c: Catalog, cfg: Config)
    ensures "bc_shared" in Merged(c, cfg).schemas
    ensures cfg.enabled.Some? ==> "bc_example" in Merged(c, cfg).schemas
  {
    MigratedFields(c, SHARED_SCHEMA, cfg.shared);
    MigratedFields(Migrated(c, SHARED_SCHEMA, cfg.shared), EXAMPLE_SCHEMA, cfg.example);
  }

  /** The readiness role reads the shared history; nothing else is granted on it to anyone. */
  lemma ReadinessPrivileges(c: Catalog, cfg: Config, g: Grant)
    requires WellFormedConfig(cfg) && WellFormed(c) && MigrateInstallation(c, cfg).Ok?
    requires "bc_shared" in c.histories && g.relation == Relation("bc_shared", "_sqlx_migrations")
    ensures g in MigrateInstallation(c, cfg).value.tableGrants <==>
            (g.role == cfg.ready.role && g.privilege == Select) || g in c.tableGrants
  {
    PlanRuns(c, cfg);
    var m := Merged(c, cfg);
    TableGrantsExactly(m.tableGrants, m.tables, cfg, g);
    OldGrantsStay(c, cfg, g);
  }

  lemma OldGrantsStay(c: Catalog, cfg: Config, g: Grant)
    requires WellFormedConfig(cfg) && "bc_shared" in c.histories && g.relation == Relation("bc_shared", "_sqlx_migrations")
    requires WellFormed(c)
    ensures g in Merged(c, cfg).tableGrants <==> g in c.tableGrants
  {
    MigratedFields(c, SHARED_SCHEMA, cfg.shared);
    MigratedFields(Migrated(c, SHARED_SCHEMA, cfg.shared), EXAMPLE_SCHEMA, cfg.example);
    assert HISTORY !in PendingTables(c.histories["bc_shared"], cfg.shared);
  }

  /** The module role uses every sequence of its schema, and every relation created there later. */
  lemma RuntimeReachesFutureRelations(c: Catalog, cfg: Config, name: string)
    requires WellFormedConfig(cfg) && WellFormed(c) && MigrateInstallation(c, cfg).Ok? && cfg.enabled.Some?
    ensures var d, role := MigrateInstallation(c, cfg).value, cfg.enabled.value.runtime.role;
      var later := WithRelations(d, "bc_example", {name}, {name});
      && (forall q | q in d.sequences && q.schema == "bc_example" :: (role, q) in d.sequenceGrants)
      && (forall p | p in {Select, Insert, Update, Delete} :: Grant(role, Relation("bc_example", name), p) in later.tableGrants)
      && (role, Relation("bc_example", name)) in later.sequenceGrants
  {
    PlanRuns(c, cfg);
    RuntimeDefaults(Merged(c, cfg), cfg);
    var d, role := MigrateInstallation(c, cfg).value, cfg.enabled.value.runtime.role;
    BornWithGrants(d, role, name);
  }

  lemma RuntimeDefaults(m: Catalog, cfg: Config)
    requires DistinctRoles(cfg) && cfg.enabled.Some?
    ensures var d, role := Granted(m, cfg), cfg.enabled.value.runtime.role;
      && (forall q | q in d.sequences && q.schema == "bc_example" :: (role, q) in d.sequenceGrants)
      && (forall p | p in {Select, Insert, Update, Delete} :: DefaultGrant("bc_example", role, p) in d.defaultTables)
      && ("bc_example", role) in d.defaultSequences
  {
  }

  lemma BornWithGrants(d: Catalog, role: string, name: string)
    requires forall p | p in {Select, Insert, Update, Delete} :: DefaultGrant("bc_example", role, p) in d.defaultTables
    requires ("bc_example", role) in d.defaultSequences
    ensures var later := WithRelations(d, "bc_example", {name}, {name});
      && (forall p | p in {Select, Insert, Update, Delete} :: Grant(role, Relation("bc_example", name), p) in later.tableGrants)
      && (role, Relation("bc_example", name)) in later.sequenceGrants
  {
    forall p | p in {Select, Insert, Update, Delete}
      ensures Grant(role, Relation("bc_example", name), p) in BornGrants(d.defaultTables, "bc_example", {name})
    {
      assert DefaultGrant("bc_example", role, p) in d.defaultTables;
    }
  }

  // --------------------------------------------------------------------- the tables

  ghost predicate Recorded(c: Catalog, schema: string, version: int) {
    schema in c.histories && version in c.histories[schema]
  }

  /** The tables a migrator finds missing: those of scripts not recorded, and the history itself. */
  ghost predicate Missing(c: Catalog, schema: string, ms: seq<Migration>, name: string) {
    || (schema !in c.histories && name == "_sqlx_migrations")
    || exists m :: m in ms && !Recorded(c, schema, m.version) && name in m.tables
  }

  lemma FreshTablesAreMissing(c: Catalog, schema: string, ms: seq<Migration>, name: string)
    ensures name in FreshTables(c.histories, schema, ms) <==> Missing(c, schema, ms, name)
  {
    if schema in c.histories {
      assert name in PendingTables(c.histories[schema], ms) <==>
             exists m :: m in ms && m.version !in c.histories[schema] && name in m.tables;
    } else {
      assert name in PendingTables(map[], ms) <==> exists m :: m in ms && name in m.tables;
    }
  }

  /** A run of a migrator adds to its schema exactly the missing tables, and to no other schema any. */
  lemma MigratedTables(c: Catalog, schema: string, ms: seq<Migration>, r: Relation)
    ensures r in Migrated(c, schema, ms).tables <==>
            r in c.tables || (r.schema == schema && Missing(c, schema, ms, r.name))
    ensures forall other | other != schema ::
              other in Migrated(c, schema, ms).histories <==> other in c.histories
    ensures forall other | other != schema && other in c.histories ::
              Migrated(c, schema, ms).histories[other] == c.histories[other]
  {
    MigratedFields(c, schema, ms);
    FreshTablesAreMissing(c, schema, ms, r.name);
  }

  /** After success the tables are those from before and, in each schema migrated, those that were missing. */
  lemma TablesAfterSuccess(c: Catalog, cfg: Config, r: Relation)
    requires WellFormedConfig(cfg) && WellFormed(c) && MigrateInstallation(c, cfg).Ok?
    ensures r in MigrateInstallation(c, cfg).value.tables <==>
            || r in c.tables
            || (r.schema == "bc_shared" && Missing(c, "bc_shared", cfg.shared, r.name))
            || (cfg.enabled.Some? && r.schema == "bc_example" && Missing(c, "bc_example", cfg.example, r.name))
  {
    SuccessGrants(c, cfg);
    var s := Migrated(c, SHARED_SCHEMA, cfg.shared);
    MigratedTables(c, SHARED_SCHEMA, cfg.shared, r);
    MigratedTables(s, EXAMPLE_SCHEMA, cfg.example, r);
    assert Missing(s, EXAMPLE_SCHEMA, cfg.example, r.name) <==> Missing(c, EXAMPLE_SCHEMA, cfg.example, r.name) by {
      assert forall version :: Recorded(s, EXAMPLE_SCHEMA, version) <==> Recorded(c, EXAMPLE_SCHEMA, version);
    }
  }
}
