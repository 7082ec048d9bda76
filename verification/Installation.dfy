/**
 * Migration of an installation: a fixed list of separately committed
 * statements, what a complete run establishes, and why any number of
 * interrupted runs before it make no difference.
 */
module Installation {
  import opened Wrappers
  import opened Catalog
  import opened Migrator

  datatype Identity = Identity(role: string, password: string)

  datatype ModuleIdentities = ModuleIdentities(runtime: Identity, dispatcher: Identity)

  /** Module identities are present exactly when the example module is enabled. */
  datatype Config = Config(
    ready: Identity,
    enabled: Option<ModuleIdentities>,
    shared: seq<Migration>,
    example: seq<Migration>)

  const SHARED_HISTORY := Relation(SHARED_SCHEMA, HISTORY)
  const EXAMPLE_HISTORY := Relation(EXAMPLE_SCHEMA, HISTORY)
  const EXAMPLE_OUTBOX := Relation(EXAMPLE_SCHEMA, OUTBOX)
  const WRITES: set<Privilege> := {Insert, Update, Delete}

  predicate WellFormedConfig(cfg: Config) {
    && WellFormedScripts(cfg.shared)
    && WellFormedScripts(cfg.example)
    && DistinctRoles(cfg)
  }

  predicate DistinctRoles(cfg: Config) {
    cfg.enabled.Some? ==>
      && cfg.ready.role != cfg.enabled.value.runtime.role
      && cfg.ready.role != cfg.enabled.value.dispatcher.role
      && cfg.enabled.value.runtime.role != cfg.enabled.value.dispatcher.role
  }

  // ---------------------------------------------------------------------- the plan

  /** Roles and database-wide access; each of these is its own statement. */
  function AccessPlan(cfg: Config): seq<Statement> {
    ProvisionPlan(cfg) + [RevokePublicConnect, RevokePublicSchema] + ConnectPlan(cfg)
  }

  function ProvisionPlan(cfg: Config): seq<Statement> {
    if cfg.enabled.None? then [ProvisionRole(cfg.ready.role, cfg.ready.password)]
    else [ProvisionRole(cfg.ready.role, cfg.ready.password),
          ProvisionRole(cfg.enabled.value.runtime.role, cfg.enabled.value.runtime.password),
          ProvisionRole(cfg.enabled.value.dispatcher.role, cfg.enabled.value.dispatcher.password)]
  }

  function ConnectPlan(cfg: Config): seq<Statement> {
    if cfg.enabled.None? then [GrantConnect(cfg.ready.role)]
    else [GrantConnect(cfg.ready.role),
          GrantConnect(cfg.enabled.value.runtime.role),
          GrantConnect(cfg.enabled.value.dispatcher.role)]
  }

  function SharedPlan(cfg: Config): seq<Statement> {
    MigratorPlan(SHARED_SCHEMA, cfg.shared)
    + [GrantUsage(cfg.ready.role, SHARED_SCHEMA), GrantTable(cfg.ready.role, SHARED_HISTORY, {Select})]
  }

  function RuntimePlan(role: string): seq<Statement> {
    [GrantUsage(role, EXAMPLE_SCHEMA),
     GrantAllTables(role, EXAMPLE_SCHEMA, DATA),
     GrantAllSequences(role, EXAMPLE_SCHEMA)]
    + [RevokeTable(role, EXAMPLE_HISTORY, WRITES),
       DefaultTables(role, EXAMPLE_SCHEMA, DATA),
       DefaultSequences(role, EXAMPLE_SCHEMA)]
  }

  function DispatcherPlan(role: string): seq<Statement> {
    [GrantUsage(role, EXAMPLE_SCHEMA),
     RevokeAllTables(role, EXAMPLE_SCHEMA),
     GrantTable(role, EXAMPLE_OUTBOX, {Select, Update})]
    + [RevokeAllSequences(role, EXAMPLE_SCHEMA)]
  }

  function ModulePlan(cfg: Config): seq<Statement> {
    if cfg.enabled.None? then [] else
      MigratorPlan(EXAMPLE_SCHEMA, cfg.example)
      + RuntimePlan(cfg.enabled.value.runtime.role)
      + DispatcherPlan(cfg.enabled.value.dispatcher.role)
  }

  function ChecksPlan(cfg: Config): seq<Statement> {
    if cfg.enabled.None? then [EnsureScoped(cfg.ready.role, SHARED_SCHEMA)]
    else [EnsureScoped(cfg.ready.role, SHARED_SCHEMA),
          EnsureScoped(cfg.enabled.value.runtime.role, EXAMPLE_SCHEMA),
          EnsureScoped(cfg.enabled.value.dispatcher.role, EXAMPLE_SCHEMA)]
  }

  function Plan(cfg: Config): seq<Statement> {
    AccessPlan(cfg) + SharedPlan(cfg) + ModulePlan(cfg) + ChecksPlan(cfg)
  }

  predicate ModuleInitialized(c: Catalog, schema: string) {
    schema in c.histories && exists v | v in c.histories[schema] :: c.histories[schema][v].success
  }

  datatype MigrationError = SharedRoles | ModuleRemoval | StatementFailed

  /** The whole of migrate_installation, on identities already parsed. */
  function MigrateInstallation(c: Catalog, cfg: Config): Result<Catalog, MigrationError> {
    if !DistinctRoles(cfg) then Err(SharedRoles)
    else if cfg.enabled.None? && ModuleInitialized(c, EXAMPLE_SCHEMA) then Err(ModuleRemoval)
    else match RunAll(c, Plan(cfg))
      case Some(done) => Ok(done)
      case None => Err(StatementFailed)
  }

  // ----------------------------------------------------- what a complete run establishes

  function RolesOf(cfg: Config): set<string> {
    {cfg.ready.role}
    + if cfg.enabled.None? then {} else {cfg.enabled.value.runtime.role, cfg.enabled.value.dispatcher.role}
  }

  function UsageOf(cfg: Config): set<(string, string)> {
    {(cfg.ready.role, SHARED_SCHEMA)}
    + if cfg.enabled.None? then {} else
        {(cfg.enabled.value.runtime.role, EXAMPLE_SCHEMA), (cfg.enabled.value.dispatcher.role, EXAMPLE_SCHEMA)}
  }

  function FinalRoles(roles: map<string, Role>, cfg: Config): map<string, Role> {
    var r := Provisioned(roles, cfg.ready.role, cfg.ready.password);
    if cfg.enabled.None? then r else
      var m := cfg.enabled.value;
      Provisioned(Provisioned(r, m.runtime.role, m.runtime.password), m.dispatcher.role, m.dispatcher.password)
  }

  /** Table privileges held afterwards, from those held once all tables exist. */
  predicate Holds(held: set<Grant>, tables: set<Relation>, cfg: Config, g: Grant) {
    if g == Grant(cfg.ready.role, SHARED_HISTORY, Select) then true
    else if cfg.enabled.None? || g.relation.schema != EXAMPLE_SCHEMA then g in held
    else if g.role == cfg.enabled.value.dispatcher.role then
      g.relation == EXAMPLE_OUTBOX && g.privilege in {Select, Update}
    else if g.role == cfg.enabled.value.runtime.role && g.relation == EXAMPLE_HISTORY && g.privilege in WRITES then false
    else if g.role == cfg.enabled.value.runtime.role && g.relation in tables && g.privilege in DATA then true
    else g in held
  }

  function FinalTableGrants(held: set<Grant>, tables: set<Relation>, cfg: Config): set<Grant> {
    var candidates := held
      + {Grant(cfg.ready.role, SHARED_HISTORY, Select)}
      + (if cfg.enabled.None? then {} else
           SchemaGrants(cfg.enabled.value.runtime.role, EXAMPLE_SCHEMA, tables, DATA)
           + TableGrants(cfg.enabled.value.dispatcher.role, EXAMPLE_OUTBOX, {Select, Update}));
    set g | g in candidates && Holds(held, tables, cfg, g)
  }

  function FinalSequenceGrants(held: set<(string, Relation)>, sequences: set<Relation>, cfg: Config)
    : set<(string, Relation)>
  {
    if cfg.enabled.None? then held else
      var runtime, dispatcher := cfg.enabled.value.runtime.role, cfg.enabled.value.dispatcher.role;
      set g | g in held + (set q | q in sequences && q.schema == EXAMPLE_SCHEMA :: (runtime, q))
        && !(g.0 == dispatcher && g.1.schema == EXAMPLE_SCHEMA)
  }

  function DefaultsOf(cfg: Config): set<DefaultGrant> {
    if cfg.enabled.None? then {} else
      set p | p in DATA :: DefaultGrant(EXAMPLE_SCHEMA, cfg.enabled.value.runtime.role, p)
  }

  function SequenceDefaultsOf(cfg: Config): set<(string, string)> {
    if cfg.enabled.None? then {} else {(EXAMPLE_SCHEMA, cfg.enabled.value.runtime.role)}
  }

  /** The catalog once both migrators have run. */
  function Merged(c: Catalog, cfg: Config): Catalog {
    var s := Migrated(c, SHARED_SCHEMA, cfg.shared);
    if cfg.enabled.None? then s else Migrated(s, EXAMPLE_SCHEMA, cfg.example)
  }

  function Granted(m: Catalog, cfg: Config): Catalog {
    m.(roles := FinalRoles(m.roles, cfg),
       publicConnect := false,
       connect := m.connect + RolesOf(cfg),
       publicSchema := false,
       usage := m.usage + UsageOf(cfg),
       tableGrants := FinalTableGrants(m.tableGrants, m.tables, cfg),
       sequenceGrants := FinalSequenceGrants(m.sequenceGrants, m.sequences, cfg),
       defaultTables := m.defaultTables + DefaultsOf(cfg),
       defaultSequences := m.defaultSequences + SequenceDefaultsOf(cfg))
  }

  function Total(c: Catalog, cfg: Config): Catalog {
    Granted(Merged(c, cfg), cfg)
  }

  predicate RolesOk(c: Catalog, cfg: Config) {
    forall r | r in RolesOf(cfg) && r in c.roles :: r !in c.elsewhere
  }

  predicate ScopesOk(c: Catalog, cfg: Config) {
    && Scoped(c, cfg.ready.role, SHARED_SCHEMA)
    && (cfg.enabled.Some? ==>
          && Scoped(c, cfg.enabled.value.runtime.role, EXAMPLE_SCHEMA)
          && Scoped(c, cfg.enabled.value.dispatcher.role, EXAMPLE_SCHEMA))
  }

  predicate RunOk(c: Catalog, cfg: Config) {
    && RolesOk(c, cfg)
    && MigratorOk(c, SHARED_SCHEMA, cfg.shared)
    && (cfg.enabled.Some? ==>
          && MigratorOk(Migrated(c, SHARED_SCHEMA, cfg.shared), EXAMPLE_SCHEMA, cfg.example)
          && EXAMPLE_OUTBOX in Merged(c, cfg).tables)
    && ScopesOk(Total(c, cfg), cfg)
  }

  // ------------------------------------------------- the plan establishes exactly that

  function AfterAccess(c: Catalog, cfg: Config): Catalog {
    c.(roles := FinalRoles(c.roles, cfg),
       publicConnect := false,
       publicSchema := false,
       connect := c.connect + RolesOf(cfg))
  }

  lemma ProvisionRuns(c: Catalog, cfg: Config)
    requires WellFormedConfig(cfg)
    ensures RunAll(c, ProvisionPlan(cfg)) ==
            if RolesOk(c, cfg) then Some(c.(roles := FinalRoles(c.roles, cfg))) else None
  {
    var plan := ProvisionPlan(cfg);
    if cfg.enabled.None? {
      RunAllPrepends(c, plan[0], []);
      assert plan == [plan[0]] + [];
    } else {
      RunThree(c, plan[0], plan[1], plan[2]);
      assert RolesOf(cfg) == {cfg.ready.role, cfg.enabled.value.runtime.role, cfg.enabled.value.dispatcher.role};
    }
  }

  lemma ConnectRuns(c: Catalog, cfg: Config)
    requires RolesOf(cfg) <= c.roles.Keys
    ensures RunAll(c, ConnectPlan(cfg)) == Some(c.(connect := c.connect + RolesOf(cfg)))
  {
    var plan := ConnectPlan(cfg);
    if cfg.enabled.None? {
      RunAllPrepends(c, plan[0], []);
      assert plan == [plan[0]] + [];
      assert RolesOf(cfg) == {cfg.ready.role};
    } else {
      RunThree(c, plan[0], plan[1], plan[2]);
      var ids := cfg.enabled.value;
      assert c.connect + {cfg.ready.role} + {ids.runtime.role} + {ids.dispatcher.role} == c.connect + RolesOf(cfg);
    }
  }

  lemma AccessRuns(c: Catalog, cfg: Config)
    requires WellFormedConfig(cfg)
    ensures RunAll(c, AccessPlan(cfg)) == if RolesOk(c, cfg) then Some(AfterAccess(c, cfg)) else None
  {
    var closed := [RevokePublicConnect, RevokePublicSchema];
    RunAllAppends(c, ProvisionPlan(cfg) + closed, ConnectPlan(cfg));
    RunAllAppends(c, ProvisionPlan(cfg), closed);
    ProvisionRuns(c, cfg);
    if RolesOk(c, cfg) {
      var d := c.(roles := FinalRoles(c.roles, cfg));
      RunTwo(d, RevokePublicConnect, RevokePublicSchema);
      ConnectRuns(d.(publicConnect := false, publicSchema := false), cfg);
    }
  }

  /** The readiness role's grants, and nothing else, on top of the shared migrator. */
  function AfterShared(c: Catalog, cfg: Config): Catalog {
    var m := Migrated(c, SHARED_SCHEMA, cfg.shared);
    m.(usage := m.usage + {(cfg.ready.role, SHARED_SCHEMA)},
       tableGrants := m.tableGrants + {Grant(cfg.ready.role, SHARED_HISTORY, Select)})
  }

  lemma ReadyGrantsRun(m: Catalog, role: string)
    requires role in m.roles && SHARED_SCHEMA in m.schemas && SHARED_HISTORY in m.tables
    ensures RunAll(m, [GrantUsage(role, SHARED_SCHEMA), GrantTable(role, SHARED_HISTORY, {Select})]) ==
            Some(m.(usage := m.usage + {(role, SHARED_SCHEMA)},
                    tableGrants := m.tableGrants + {Grant(role, SHARED_HISTORY, Select)}))
  {
    RunTwo(m, GrantUsage(role, SHARED_SCHEMA), GrantTable(role, SHARED_HISTORY, {Select}));
    assert TableGrants(role, SHARED_HISTORY, {Select}) == {Grant(role, SHARED_HISTORY, Select)};
  }

  lemma SharedRuns(c: Catalog, cfg: Config)
    requires WellFormedConfig(cfg) && WellFormed(c) && cfg.ready.role in c.roles
    ensures RunAll(c, SharedPlan(cfg)) ==
            if MigratorOk(c, SHARED_SCHEMA, cfg.shared) then Some(AfterShared(c, cfg)) else None
  {
    var role := cfg.ready.role;
    RunAllAppends(c, MigratorPlan(SHARED_SCHEMA, cfg.shared),
      [GrantUsage(role, SHARED_SCHEMA), GrantTable(role, SHARED_HISTORY, {Select})]);
    MigratorRuns(c, SHARED_SCHEMA, cfg.shared);
    MigratedHas(c, SHARED_SCHEMA, cfg.shared);
    ReadyGrantsRun(Migrated(c, SHARED_SCHEMA, cfg.shared), role);
  }

  function AfterRuntime(m: Catalog, role: string): Catalog {
    m.(usage := m.usage + {(role, EXAMPLE_SCHEMA)},
       tableGrants := WithoutTable(m.tableGrants + SchemaGrants(role, EXAMPLE_SCHEMA, m.tables, DATA), role, EXAMPLE_HISTORY, WRITES),
       sequenceGrants := m.sequenceGrants + (set q | q in m.sequences && q.schema == EXAMPLE_SCHEMA :: (role, q)),
       defaultTables := m.defaultTables + (set p | p in DATA :: DefaultGrant(EXAMPLE_SCHEMA, role, p)),
       defaultSequences := m.defaultSequences + {(EXAMPLE_SCHEMA, role)})
  }

  function AfterRuntimeGrants(m: Catalog, role: string): Catalog {
    m.(usage := m.usage + {(role, EXAMPLE_SCHEMA)},
       tableGrants := m.tableGrants + SchemaGrants(role, EXAMPLE_SCHEMA, m.tables, DATA),
       sequenceGrants := m.sequenceGrants + (set q | q in m.sequences && q.schema == EXAMPLE_SCHEMA :: (role, q)))
  }

  lemma RuntimeGrantsRun(m: Catalog, role: string)
    requires role in m.roles && EXAMPLE_SCHEMA in m.schemas
    ensures RunAll(m, [GrantUsage(role, EXAMPLE_SCHEMA), GrantAllTables(role, EXAMPLE_SCHEMA, DATA),
                       GrantAllSequences(role, EXAMPLE_SCHEMA)]) == Some(AfterRuntimeGrants(m, role))
  {
    RunThree(m, GrantUsage(role, EXAMPLE_SCHEMA), GrantAllTables(role, EXAMPLE_SCHEMA, DATA),
      GrantAllSequences(role, EXAMPLE_SCHEMA));
  }

  function WithoutHistoryWrites(m: Catalog, role: string): Catalog {
    m.(tableGrants := WithoutTable(m.tableGrants, role, EXAMPLE_HISTORY, WRITES))
  }

  function WithTableDefaults(m: Catalog, role: string): Catalog {
    m.(defaultTables := m.defaultTables + (set p | p in DATA :: DefaultGrant(EXAMPLE_SCHEMA, role, p)))
  }

  function WithSequenceDefaults(m: Catalog, role: string): Catalog {
    m.(defaultSequences := m.defaultSequences + {(EXAMPLE_SCHEMA, role)})
  }

  lemma HistoryRevoked(m: Catalog, role: string)
    requires role in m.roles && EXAMPLE_HISTORY in m.tables
    ensures Execute(m, RevokeTable(role, EXAMPLE_HISTORY, WRITES)) == Some(WithoutHistoryWrites(m, role))
  {
  }

  lemma DefaultsGranted(m: Catalog, role: string)
    requires role in m.roles && EXAMPLE_SCHEMA in m.schemas
    ensures Execute(m, DefaultTables(role, EXAMPLE_SCHEMA, DATA)) == Some(WithTableDefaults(m, role))
    ensures Execute(m, DefaultSequences(role, EXAMPLE_SCHEMA)) == Some(WithSequenceDefaults(m, role))
  {
  }

  lemma RuntimeDefaultsRun(m: Catalog, role: string)
    requires role in m.roles && EXAMPLE_SCHEMA in m.schemas && EXAMPLE_HISTORY in m.tables
    ensures RunAll(m, [RevokeTable(role, EXAMPLE_HISTORY, WRITES), DefaultTables(role, EXAMPLE_SCHEMA, DATA),
                       DefaultSequences(role, EXAMPLE_SCHEMA)]) ==
            Some(WithSequenceDefaults(WithTableDefaults(WithoutHistoryWrites(m, role), role), role))
  {
    var a := WithoutHistoryWrites(m, role);
    var b := WithTableDefaults(a, role);
    HistoryRevoked(m, role);
    DefaultsGranted(a, role);
    DefaultsGranted(b, role);
    ThreeSucceed(m, RevokeTable(role, EXAMPLE_HISTORY, WRITES), a, DefaultTables(role, EXAMPLE_SCHEMA, DATA), b,
      DefaultSequences(role, EXAMPLE_SCHEMA), WithSequenceDefaults(b, role));
  }

  lemma RuntimeRuns(m: Catalog, role: string)
    requires role in m.roles && EXAMPLE_SCHEMA in m.schemas && EXAMPLE_HISTORY in m.tables
    ensures RunAll(m, RuntimePlan(role)) == Some(AfterRuntime(m, role))
  {
    RunAllAppends(m,
      [GrantUsage(role, EXAMPLE_SCHEMA), GrantAllTables(role, EXAMPLE_SCHEMA, DATA), GrantAllSequences(role, EXAMPLE_SCHEMA)],
      [RevokeTable(role, EXAMPLE_HISTORY, WRITES), DefaultTables(role, EXAMPLE_SCHEMA, DATA), DefaultSequences(role, EXAMPLE_SCHEMA)]);
    RuntimeGrantsRun(m, role);
    RuntimeDefaultsRun(AfterRuntimeGrants(m, role), role);
  }

  function AfterDispatcher(m: Catalog, role: string): Catalog {
    m.(usage := m.usage + {(role, EXAMPLE_SCHEMA)},
       tableGrants := WithoutSchema(m.tableGrants, role, EXAMPLE_SCHEMA) + TableGrants(role, EXAMPLE_OUTBOX, {Select, Update}),
       sequenceGrants := set g | g in m.sequenceGrants && !(g.0 == role && g.1.schema == EXAMPLE_SCHEMA))
  }

  lemma DispatcherRuns(m: Catalog, role: string)
    requires role in m.roles && EXAMPLE_SCHEMA in m.schemas
    ensures RunAll(m, DispatcherPlan(role)) ==
            if EXAMPLE_OUTBOX in m.tables then Some(AfterDispatcher(m, role)) else None
  {
    var a := [GrantUsage(role, EXAMPLE_SCHEMA), RevokeAllTables(role, EXAMPLE_SCHEMA), GrantTable(role, EXAMPLE_OUTBOX, {Select, Update})];
    RunOneMore(m, a, RevokeAllSequences(role, EXAMPLE_SCHEMA));
    RunThree(m, a[0], a[1], a[2]);
  }

  function AfterModule(c: Catalog, cfg: Config): Catalog {
    if cfg.enabled.None? then c else
      AfterDispatcher(
        AfterRuntime(Migrated(c, EXAMPLE_SCHEMA, cfg.example), cfg.enabled.value.runtime.role),
        cfg.enabled.value.dispatcher.role)
  }

  predicate ModuleOk(c: Catalog, cfg: Config) {
    cfg.enabled.Some? ==>
      && MigratorOk(c, EXAMPLE_SCHEMA, cfg.example)
      && EXAMPLE_OUTBOX in Migrated(c, EXAMPLE_SCHEMA, cfg.example).tables
  }

  lemma ModuleRuns(c: Catalog, cfg: Config)
    requires WellFormedConfig(cfg) && WellFormed(c) && RolesOf(cfg) <= c.roles.Keys
    ensures RunAll(c, ModulePlan(cfg)) == if ModuleOk(c, cfg) then Some(AfterModule(c, cfg)) else None
  {
    if cfg.enabled.Some? {
      var ids, migrator := cfg.enabled.value, MigratorPlan(EXAMPLE_SCHEMA, cfg.example);
      RunAllAppends(c, migrator + RuntimePlan(ids.runtime.role), DispatcherPlan(ids.dispatcher.role));
      RunAllAppends(c, migrator, RuntimePlan(ids.runtime.role));
      MigratorRuns(c, EXAMPLE_SCHEMA, cfg.example);
      MigratedHas(c, EXAMPLE_SCHEMA, cfg.example);
      var m := Migrated(c, EXAMPLE_SCHEMA, cfg.example);
      RuntimeRuns(m, ids.runtime.role);
      DispatcherRuns(AfterRuntime(m, ids.runtime.role), ids.dispatcher.role);
    }
  }

  lemma ChecksRun(c: Catalog, cfg: Config)
    ensures RunAll(c, ChecksPlan(cfg)) == if ScopesOk(c, cfg) then Some(c) else None
  {
    var plan := ChecksPlan(cfg);
    if cfg.enabled.None? {
      RunAllPrepends(c, plan[0], []);
      assert plan == [plan[0]] + [];
    } else {
      RunThree(c, plan[0], plan[1], plan[2]);
    }
  }

  lemma AccessThenShared(c: Catalog, cfg: Config)
    ensures MigratorOk(AfterAccess(c, cfg), SHARED_SCHEMA, cfg.shared) == MigratorOk(c, SHARED_SCHEMA, cfg.shared)
    ensures var m := Migrated(c, SHARED_SCHEMA, cfg.shared);
      AfterShared(AfterAccess(c, cfg), cfg) == AfterAccess(m, cfg).(
        usage := c.usage + {(cfg.ready.role, SHARED_SCHEMA)},
        tableGrants := m.tableGrants + {Grant(cfg.ready.role, SHARED_HISTORY, Select)})
  {
    MigratedFrame(c, c, SHARED_SCHEMA, cfg.shared);
    MigratedFrame(c, AfterAccess(c, cfg), SHARED_SCHEMA, cfg.shared);
  }

  /** The catalog after the grants that precede the module's migrator, seen from the bare one. */
  predicate SharedGrantsOn(m: Catalog, d: Catalog, cfg: Config) {
    d == AfterAccess(m, cfg).(
      usage := m.usage + {(cfg.ready.role, SHARED_SCHEMA)},
      tableGrants := m.tableGrants + {Grant(cfg.ready.role, SHARED_HISTORY, Select)})
  }

  lemma ModuleAfterShared(m: Catalog, d: Catalog, cfg: Config)
    requires WellFormedConfig(cfg) && SharedGrantsOn(m, d, cfg) && cfg.enabled.Some?
    ensures ModuleOk(d, cfg) == ModuleOk(m, cfg)
    ensures AfterModule(d, cfg) == Granted(Migrated(m, EXAMPLE_SCHEMA, cfg.example), cfg)
  {
    MigratedFrame(m, m, EXAMPLE_SCHEMA, cfg.example);
    MigratedFrame(m, d, EXAMPLE_SCHEMA, cfg.example);
    var x, y := Migrated(m, EXAMPLE_SCHEMA, cfg.example), Migrated(d, EXAMPLE_SCHEMA, cfg.example);
    assert y.tableGrants == x.tableGrants + {Grant(cfg.ready.role, SHARED_HISTORY, Select)};
    GrantsAgree(x.tableGrants, x.tables, cfg);
    SequencesAgree(x.sequenceGrants, x.sequences, cfg);
    UsageAgrees(m.usage, cfg);
  }

  lemma GrantsAgree(held: set<Grant>, tables: set<Relation>, cfg: Config)
    requires DistinctRoles(cfg) && cfg.enabled.Some?
    ensures var ids := cfg.enabled.value;
      var a := held + {Grant(cfg.ready.role, SHARED_HISTORY, Select)};
      var b := WithoutTable(a + SchemaGrants(ids.runtime.role, EXAMPLE_SCHEMA, tables, DATA), ids.runtime.role, EXAMPLE_HISTORY, WRITES);
      var d := WithoutSchema(b, ids.dispatcher.role, EXAMPLE_SCHEMA) + TableGrants(ids.dispatcher.role, EXAMPLE_OUTBOX, {Select, Update});
      d == FinalTableGrants(held, tables, cfg)
  {
  }

  lemma SequencesAgree(held: set<(string, Relation)>, sequences: set<Relation>, cfg: Config)
    requires DistinctRoles(cfg) && cfg.enabled.Some?
    ensures var ids := cfg.enabled.value;
      var a := held + (set q | q in sequences && q.schema == EXAMPLE_SCHEMA :: (ids.runtime.role, q));
      (set g | g in a && !(g.0 == ids.dispatcher.role && g.1.schema == EXAMPLE_SCHEMA)) == FinalSequenceGrants(held, sequences, cfg)
  {
  }

  lemma UsageAgrees(usage: set<(string, string)>, cfg: Config)
    requires cfg.enabled.Some?
    ensures usage + {(cfg.ready.role, SHARED_SCHEMA)} + {(cfg.enabled.value.runtime.role, EXAMPLE_SCHEMA)}
              + {(cfg.enabled.value.dispatcher.role, EXAMPLE_SCHEMA)} == usage + UsageOf(cfg)
  {
  }

  lemma ReadinessAlone(m: Catalog, d: Catalog, cfg: Config)
    requires SharedGrantsOn(m, d, cfg) && cfg.enabled.None?
    ensures d == Granted(m, cfg)
  {
    assert FinalTableGrants(m.tableGrants, m.tables, cfg) == m.tableGrants + {Grant(cfg.ready.role, SHARED_HISTORY, Select)};
    assert m.usage + {(cfg.ready.role, SHARED_SCHEMA)} == m.usage + UsageOf(cfg);
    assert m.defaultTables + DefaultsOf(cfg) == m.defaultTables;
    assert m.defaultSequences + SequenceDefaultsOf(cfg) == m.defaultSequences;
  }

  lemma RolesProvisioned(c: Catalog, cfg: Config)
    requires WellFormed(c)
    ensures WellFormed(AfterAccess(c, cfg)) && RolesOf(cfg) <= AfterAccess(c, cfg).roles.Keys
  {
  }

  /** The plan, statement by statement, succeeds exactly when `RunOk`, and then leaves exactly `Total`. */
  lemma PlanRuns(c: Catalog, cfg: Config)
    requires WellFormedConfig(cfg) && WellFormed(c)
    ensures RunAll(c, Plan(cfg)) == if RunOk(c, cfg) then Some(Total(c, cfg)) else None
  {
    RunAllAppends(c, AccessPlan(cfg) + SharedPlan(cfg) + ModulePlan(cfg), ChecksPlan(cfg));
    RunAllAppends(c, AccessPlan(cfg) + SharedPlan(cfg), ModulePlan(cfg));
    RunAllAppends(c, AccessPlan(cfg), SharedPlan(cfg));
    AccessRuns(c, cfg);
    RolesProvisioned(c, cfg);
    var a, m := AfterAccess(c, cfg), Migrated(c, SHARED_SCHEMA, cfg.shared);
    SharedRuns(a, cfg);
    AccessThenShared(c, cfg);
    var d := AfterShared(a, cfg);
    MigratedHas(c, SHARED_SCHEMA, cfg.shared);
    MigratedHas(a, SHARED_SCHEMA, cfg.shared);
    assert SharedGrantsOn(m, d, cfg);
    ModuleRuns(d, cfg);
    if cfg.enabled.None? {
      ReadinessAlone(m, d, cfg);
    } else {
      ModuleAfterShared(m, d, cfg);
    }
    ChecksRun(AfterModule(d, cfg), cfg);
  }
}
