/**
 * The database catalog as the migration of an installation sees it, and the
 * separately committed statements that change it.
 */
module Catalog {
  import opened Wrappers

  const SHARED_SCHEMA := "bc_shared"
  const EXAMPLE_SCHEMA := "bc_example"
  const HISTORY := "_sqlx_migrations"
  const OUTBOX := "outbox_events"

  datatype Privilege = Select | Insert | Update | Delete | Truncate | References | Trigger

  const DATA: set<Privilege> := {Select, Insert, Update, Delete}

  /** `elevated`: superuser, createdb, createrole, replication or bypassrls. */
  datatype Role = Role(password: string, canLogin: bool, inherits: bool, elevated: bool)

  datatype Relation = Relation(schema: string, name: string)

  datatype Grant = Grant(role: string, relation: Relation, privilege: Privilege)

  datatype DefaultGrant = DefaultGrant(schema: string, role: string, privilege: Privilege)

  datatype Applied = Applied(checksum: string, success: bool)

  datatype Migration = Migration(version: int, checksum: string, tables: set<string>, sequences: set<string>)

  datatype Catalog = Catalog(
    roles: map<string, Role>,
    elsewhere: set<string>,               // roles owning, or allowed to connect to, another database
    memberships: set<string>,             // roles that are members of a role
    databaseCreate: set<string>,          // roles with CREATE on this database
    publicConnect: bool,
    connect: set<string>,
    publicSchema: bool,                   // PUBLIC holds a privilege on schema public
    schemas: set<string>,
    usage: set<(string, string)>,         // role, schema
    histories: map<string, map<int, Applied>>,
    tables: set<Relation>,
    sequences: set<Relation>,
    tableGrants: set<Grant>,
    sequenceGrants: set<(string, Relation)>,
    defaultTables: set<DefaultGrant>,
    defaultSequences: set<(string, string)>)  // schema, role

  /** A role that does not exist can hold nothing, and a recorded history has its table. */
  predicate WellFormed(c: Catalog) {
    && c.elsewhere <= c.roles.Keys
    && forall schema | schema in c.histories :: Relation(schema, HISTORY) in c.tables
  }

  datatype Statement =
    | ProvisionRole(role: string, password: string)
    | RevokePublicConnect
    | RevokePublicSchema
    | GrantConnect(role: string)
    | CreateSchema(schema: string)
    | EnsureHistory(schema: string)
    | CheckHistory(schema: string, known: seq<Migration>)
    | ApplyMigration(schema: string, migration: Migration)
    | GrantUsage(role: string, schema: string)
    | GrantTable(role: string, relation: Relation, privileges: set<Privilege>)
    | RevokeTable(role: string, relation: Relation, privileges: set<Privilege>)
    | GrantAllTables(role: string, schema: string, privileges: set<Privilege>)
    | GrantAllSequences(role: string, schema: string)
    | RevokeAllTables(role: string, schema: string)
    | RevokeAllSequences(role: string, schema: string)
    | DefaultTables(role: string, schema: string, privileges: set<Privilege>)
    | DefaultSequences(role: string, schema: string)
    | EnsureScoped(role: string, schema: string)

  // --------------------------------------------------------------------- the pieces

  function Provisioned(roles: map<string, Role>, role: string, password: string): map<string, Role> {
    roles[role := if role in roles then roles[role].(password := password) else Role(password, true, false, false)]
  }

  /** What default privileges give on relations newly created in the schema. */
  function BornGrants(defaults: set<DefaultGrant>, schema: string, names: set<string>): set<Grant> {
    set d, n | d in defaults && d.schema == schema && n in names :: Grant(d.role, Relation(schema, n), d.privilege)
  }

  function BornSequenceGrants(defaults: set<(string, string)>, schema: string, names: set<string>): set<(string, Relation)> {
    set d, n | d in defaults && d.0 == schema && n in names :: (d.1, Relation(schema, n))
  }

  function Named(schema: string, names: set<string>): set<Relation> {
    set n | n in names :: Relation(schema, n)
  }

  /** Creates tables and sequences in a schema, with the grants default privileges attach to them. */
  function WithRelations(c: Catalog, schema: string, tables: set<string>, sequences: set<string>): Catalog {
    c.(tables := c.tables + Named(schema, tables),
       sequences := c.sequences + Named(schema, sequences),
       tableGrants := c.tableGrants + BornGrants(c.defaultTables, schema, tables),
       sequenceGrants := c.sequenceGrants + BornSequenceGrants(c.defaultSequences, schema, sequences))
  }

  function TableGrants(role: string, relation: Relation, privileges: set<Privilege>): set<Grant> {
    set p | p in privileges :: Grant(role, relation, p)
  }

  function SchemaGrants(role: string, schema: string, tables: set<Relation>, privileges: set<Privilege>): set<Grant> {
    set t, p | t in tables && t.schema == schema && p in privileges :: Grant(role, t, p)
  }

  function WithoutTable(grants: set<Grant>, role: string, relation: Relation, privileges: set<Privilege>): set<Grant> {
    set g | g in grants && !(g.role == role && g.relation == relation && g.privilege in privileges)
  }

  function WithoutSchema(grants: set<Grant>, role: string, schema: string): set<Grant> {
    set g | g in grants && !(g.role == role && g.relation.schema == schema)
  }

  predicate SystemSchema(schema: string) {
    (|schema| >= 3 && schema[..2] == "pg") || schema == "information_schema"
  }

  /** The closing check: an ordinary login that can use no other schema. */
  predicate Scoped(c: Catalog, role: string, schema: string) {
    && role in c.roles
    && c.roles[role].canLogin && !c.roles[role].inherits && !c.roles[role].elevated
    && role !in c.memberships
    && role !in c.databaseCreate
    && !c.publicSchema
    && forall held | held in c.usage && held.0 == role :: held.1 == schema || SystemSchema(held.1)
  }

  predicate KnownAndClean(history: map<int, Applied>, known: seq<Migration>) {
    forall v | v in history :: history[v].success && exists i | 0 <= i < |known| :: known[i].version == v
  }

  /** One statement; None is a database error, which leaves nothing behind. */
  function Execute(c: Catalog, stmt: Statement): Option<Catalog> {
    match stmt
    case ProvisionRole(role, password) =>
      if role in c.roles && role in c.elsewhere then None
      else Some(c.(roles := Provisioned(c.roles, role, password)))
    case RevokePublicConnect => Some(c.(publicConnect := false))
    case RevokePublicSchema => Some(c.(publicSchema := false))
    case GrantConnect(role) =>
      if role !in c.roles then None else Some(c.(connect := c.connect + {role}))
    case CreateSchema(schema) => Some(c.(schemas := c.schemas + {schema}))
    case EnsureHistory(schema) =>
      if schema in c.histories then Some(c)
      else Some(WithRelations(c, schema, {HISTORY}, {}).(histories := c.histories[schema := map[]]))
    case CheckHistory(schema, known) =>
      if schema in c.histories && KnownAndClean(c.histories[schema], known) then Some(c) else None
    case ApplyMigration(schema, m) =>
      if schema !in c.histories then None
      else if m.version in c.histories[schema] then
        if c.histories[schema][m.version].checksum == m.checksum then Some(c) else None
      else if !(Named(schema, m.tables) !! c.tables && Named(schema, m.sequences) !! c.sequences) then None
      else Some(WithRelations(c, schema, m.tables, m.sequences).(
        histories := c.histories[schema := c.histories[schema][m.version := Applied(m.checksum, true)]]))
    case GrantUsage(role, schema) =>
      if role !in c.roles || schema !in c.schemas then None else Some(c.(usage := c.usage + {(role, schema)}))
    case GrantTable(role, relation, privileges) =>
      if role !in c.roles || relation !in c.tables then None
      else Some(c.(tableGrants := c.tableGrants + TableGrants(role, relation, privileges)))
    case RevokeTable(role, relation, privileges) =>
      if role !in c.roles || relation !in c.tables then None
      else Some(c.(tableGrants := WithoutTable(c.tableGrants, role, relation, privileges)))
    case GrantAllTables(role, schema, privileges) =>
      if role !in c.roles || schema !in c.schemas then None
      else Some(c.(tableGrants := c.tableGrants + SchemaGrants(role, schema, c.tables, privileges)))
    case GrantAllSequences(role, schema) =>
      if role !in c.roles || schema !in c.schemas then None
      else Some(c.(sequenceGrants := c.sequenceGrants + (set q | q in c.sequences && q.schema == schema :: (role, q))))
    case RevokeAllTables(role, schema) =>
      if role !in c.roles || schema !in c.schemas then None
      else Some(c.(tableGrants := WithoutSchema(c.tableGrants, role, schema)))
    case RevokeAllSequences(role, schema) =>
      if role !in c.roles || schema !in c.schemas then None
      else Some(c.(sequenceGrants := set g | g in c.sequenceGrants && !(g.0 == role && g.1.schema == schema)))
    case DefaultTables(role, schema, privileges) =>
      if role !in c.roles || schema !in c.schemas then None
      else Some(c.(defaultTables := c.defaultTables + set p | p in privileges :: DefaultGrant(schema, role, p)))
    case DefaultSequences(role, schema) =>
      if role !in c.roles || schema !in c.schemas then None
      else Some(c.(defaultSequences := c.defaultSequences + {(schema, role)}))
    case EnsureScoped(role, schema) =>
      if Scoped(c, role, schema) then Some(c) else None
  }

  /** Statements in order, each committed on its own; None once one of them fails. */
  function RunAll(c: Catalog, stmts: seq<Statement>): Option<Catalog>
    decreases |stmts|
  {
    if stmts == [] then Some(c)
    else match Execute(c, stmts[0])
      case None => None
      case Some(c') => RunAll(c', stmts[1..])
  }

  lemma {:induction false} RunAllAppends(c: Catalog, a: seq<Statement>, b: seq<Statement>)
    ensures RunAll(c, a + b) == if RunAll(c, a).Some? then RunAll(RunAll(c, a).value, b) else None
    decreases |a|
  {
    if a == [] {
      assert a + b == b;
    } else {
      assert (a + b)[1..] == a[1..] + b;
      if Execute(c, a[0]).Some? {
        RunAllAppends(Execute(c, a[0]).value, a[1..], b);
      }
    }
  }

  lemma RunAllPrepends(c: Catalog, stmt: Statement, rest: seq<Statement>)
    ensures RunAll(c, [stmt] + rest) == if Execute(c, stmt).Some? then RunAll(Execute(c, stmt).value, rest) else None
  {
    assert ([stmt] + rest)[1..] == rest;
  }

  function Then(run: Option<Catalog>, stmt: Statement): Option<Catalog> {
    if run.Some? then Execute(run.value, stmt) else None
  }

  lemma RunOneMore(c: Catalog, stmts: seq<Statement>, stmt: Statement)
    ensures RunAll(c, stmts + [stmt]) == Then(RunAll(c, stmts), stmt)
  {
    RunAllAppends(c, stmts, [stmt]);
    if RunAll(c, stmts).Some? {
      RunAllPrepends(RunAll(c, stmts).value, stmt, []);
      assert [stmt] + [] == [stmt];
    }
  }

  lemma RunTwo(c: Catalog, a: Statement, b: Statement)
    ensures RunAll(c, [a, b]) == Then(Execute(c, a), b)
  {
    RunAllPrepends(c, a, []);
    assert [a] + [] == [a];
    RunOneMore(c, [a], b);
    assert [a] + [b] == [a, b];
  }

  lemma RunThree(c: Catalog, a: Statement, b: Statement, d: Statement)
    ensures RunAll(c, [a, b, d]) == Then(Then(Execute(c, a), b), d)
  {
    RunTwo(c, a, b);
    RunOneMore(c, [a, b], d);
    assert [a, b] + [d] == [a, b, d];
  }

  lemma ThreeSucceed(c: Catalog, s: Statement, c1: Catalog, t: Statement, c2: Catalog, u: Statement, c3: Catalog)
    requires Execute(c, s) == Some(c1) && Execute(c1, t) == Some(c2) && Execute(c2, u) == Some(c3)
    ensures RunAll(c, [s, t, u]) == Some(c3)
  {
    RunThree(c, s, t, u);
  }
}
