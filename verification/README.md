# Better Commerce: outbox, manifest, migration and credentials

A Dafny model of the parts of Better Commerce where several pieces of code have to fit together for anything to
hold: the PostgreSQL outbox and its dispatchers, the transactional producer that feeds it, the manifest validator,
the migration of an installation, and the two string cores of the reconciler (credential URLs and redacted
diagnostics).  `dafny verify dfyconfig.toml` checks the whole project.

## The outbox

`Outbox.dfy` holds the table, the clock and the guarded statements.  A `State` also carries three logs the table
does not keep: every claim ever issued (with its window, the outcome of its delivery and its settlement), the order
in which rows became visible, and the acceptances reported by the delivery port.  A run is any interleaving of
committed inserts, claims, delivery outcomes, settlements and clock moves; any number of workers, crashes, expired
leases and late deliveries are interleavings of these steps, so the run theorems quantify over all of them.

The hypotheses are those of the schema and of PostgreSQL, and nothing else:

- the clock never goes backwards, and one statement reads it once;
- a claim's token is new, and its lease is positive;
- a new row satisfies the table's checks and has its default columns;
- the rows of one aggregate become visible in increasing `aggregate_sequence`;
- an acknowledgement is only asked for after the delivery under that claim was accepted;
- no other statement edits or deletes outbox rows.

`OutboxInvariant.dfy` is the invariant, conjunct by conjunct.  `OutboxOrder.dfy`, `OutboxQueue.dfy`,
`OutboxProjection.dfy` and `OutboxStale.dfy` draw the run theorems from it.  `OutboxOvertaking.dfy` is about the
acceptance log with its repeats: it is in order in every run whose acceptances arrive while their token owns the
event, and a delivery still under way can be overtaken, so that its acceptance breaks the order, under an exact
condition.  An outlived lease alone is not enough for that: a dead letter further on that can no longer be accepted
stops everything behind it.  `OutboxRepeats.dfy` is one such run, step by step.
`Delivery.dfy` is the in-process adapter and the books of every run that shares one.  `Dispatcher.dfy` has the
statements and `dispatch_one` as methods over a mutable database, with any delivery port, a database error at either
statement, and everything other workers do in between as an arbitrary list of moves; `Drain.dfy` says what one call
achieves and how a lone worker empties the outbox.  `Producer.dfy` adds transactions, the identity
sequence and rollback, and discharges the visibility hypothesis for the producer the repository has.

Where the design record docs/adr/0003-module-owned-ordered-outbox.md and the code differ, the model follows the code:
the record lets a failed event block its aggregate until an operator acts, while of the settlements exactly the
release leaves the event claimable, and at once (`ReleaseAloneMakesEligible`); only a dead letter blocks for good.

## Manifest, migration, credentials, diagnostics

`Dependencies.dfy` is the depth-first search over two mutable sets, and `Manifest.dfy` the validator around it,
against a declarative specification of the acceptable manifests and of what each error means.

`Catalog.dfy` gives the database catalog and the effect of each separately committed statement.  `Migrator.dfy` and
`Installation.dfy` prove that the statement list of `migrate_installation` succeeds under exactly one condition and
then leaves exactly one catalog; `Convergence.dfy` proves that committing any of its statements early, in any
interrupted run, changes neither, and reads the final privileges off the result.  `MigrationOutcomes.dfy` states, on
the catalog alone, when the command refuses and what every role may do after its success.  `MigrationCommand.dfy` is
the command itself on a connection that may be lost after any statement.  `Readiness.dfy` connects it to the readiness
comparison of the recorded migrations.

`Text.dfy` and `Credentials.dfy` are percent-encoding, URL building and reparsing, and the derived role names.
`Redaction.dfy` is the replacement fold over diagnostics, the trimming and the truncation, and `RedactionReach.dfy`
how far they reach.  The plain claim "no secret is ever shown" is false of the code: a secret that is part of the mark
or of one of the two notes is shown by them (`FixedTextsShow`), and a secret that begins with the end of the mark is
completed by it (`MarkCompletesSecret`).  What holds is stated exactly, over the fold with all the other secrets of
the environment: for secrets without brackets and white space (`PlainSecretsStayHiddenExactly`), and for secrets
without an opening bracket whose companions have characters of their own (`BracketFreeSecretsStayHiddenExactly`).  The
first needs that no piece of the mark is listed twice, as when the secrets are pairwise distinct
(`DistinctAreUnrepeated`), or that there are at most 444 secrets, where the command has eight; without that it fails (`RepeatsCanHide`: "RED" beside 2001 copies of "E" is never shown).

## Model

| member | source | states |
|---|---|---|
| OutboxInvariant.StepExtends | core/src/dispatcher.rs:171-276 | No statement undoes a delivery, rewrites a dead letter or an envelope, or puts a row before an existing row of its aggregate |
| OutboxInvariant.HeadsStayHeads | core/src/dispatcher.rs:177-183 | The test of earlier rows, made only when claiming, can never become false afterwards |
| OutboxInvariant.WindowsKept | core/src/dispatcher.rs:176-190 | Every statement keeps the ownership windows of one event pairwise disjoint |
| OutboxInvariant.OwnershipKept | core/src/dispatcher.rs:187-190 | The claim columns always name exactly the unsettled claim whose lease may still run |
| OutboxInvariant.StepKeepsInv | core/src/dispatcher.rs:169-276 | Every statement, delivery, insert and clock move keeps the whole protocol invariant |
| OutboxOrder.FirstAcceptancesFollowSequence | core/src/dispatcher.rs:169-306 | In every run, an aggregate's acceptance log without repeats is an initial part of its events in strictly increasing sequence, none skipped |
| OutboxOrder.NewAcceptanceIsNext | core/src/dispatcher.rs:177-183 | An event accepted for the first time is the next of its aggregate not yet accepted |
| OutboxOrder.ShapeOfAggregates | core/src/dispatcher.rs:173-190 | Each aggregate is a delivered prefix, then at most one row ever attempted or dead-lettered, then untouched rows |
| OutboxOrder.OwnershipIsExclusive | core/src/dispatcher.rs:176-190 | At no instant do two tokens own one event |
| OutboxOrder.SettlesExactlyInsideWindow | core/src/dispatcher.rs:226-276 | A settlement by an issued token updates its row exactly when the clock is inside that token's window |
| OutboxOrder.SettlesAtMostOnce | core/src/dispatcher.rs:226-276 | A settled token never updates a row again, and no event is acknowledged under two tokens |
| OutboxOrder.TerminalStatesExclude | core/src/dispatcher.rs:226-268 | No reachable row is both delivered and dead-lettered, although two settlements never read `dead_lettered_at` |
| OutboxOrder.ConstraintsHold | modules/example/migrations/202609260002_example_outbox.sql:1-17 | In every reachable state the checks on versions and sequence, the unique key and the pairing of dead-letter time and reason (202609260003_example_outbox_dead_letter.sql:4-5) hold, so no statement can run into them |
| OutboxOrder.DeadLetterIsPermanentBarrier | core/src/dispatcher.rs:255-276 | A dead letter never changes, and nothing after it in its aggregate is claimed or delivered in any continuation |
| OutboxOrder.ReleaseAloneMakesEligible | core/src/dispatcher.rs:226-276 | After a settlement that hits its row, the event is claimable at that very instant exactly when it was a release |
| OutboxRepeats.LateAcceptanceRepeatsEarlierEvent | core/src/dispatcher.rs:278-306 | A reachable state whose acceptance log is event 1, event 2, event 1 again |
| OutboxOvertaking.OwnedMeansNoneLaterAccepted | core/src/dispatcher.rs:171-190 | While a token owns its event, nothing later in the aggregate was ever accepted |
| OutboxOvertaking.PunctualRunsStayInOrder | core/src/dispatcher.rs:169-306 | In every run whose acceptances arrive while their token owns the event, the acceptance log, repeats included, never puts an event after a later one |
| OutboxOvertaking.OvertakenBreaksOrder | core/src/dispatcher.rs:286-292 | The acceptance of a delivery under way after a later event was accepted puts the log out of order |
| OutboxOvertaking.OvertakingIsPossibleExactly | core/src/dispatcher.rs:169-306 | A delivery under way can be overtaken in some continuation exactly when its event is not dead-lettered and either a later event was accepted or no later one is a dead letter that can no longer be |
| OutboxOvertaking.ServeHead | core/src/dispatcher.rs:171-238 | Any undelivered head that is not dead-lettered can be claimed, accepted and acknowledged, whoever holds its lease, changing nothing else |
| OutboxQueue.StepRefinesQueue | core/src/dispatcher.rs:171-276 | An insert appends to its aggregate's queue, an acknowledgement pops exactly the front, a dead letter freezes the queue, everything else leaves every queue alone |
| OutboxQueue.RunsRefineQueues | core/src/dispatcher.rs:171-276 | Every run of the table is, aggregate by aggregate, a run of a simple FIFO queue |
| OutboxQueue.FrozenMeansDeadLettered | core/src/dispatcher.rs:255-276 | A queue is frozen exactly when its aggregate has a dead letter |
| OutboxQueue.ClaimsNothingExactlyWhenBlocked | core/src/dispatcher.rs:171-185 | With no row locked, a claim finds nothing exactly when every aggregate's lowest undelivered row is dead-lettered, leased or not yet available |
| OutboxQueue.ClaimsLeastUnblockedFront | core/src/dispatcher.rs:184-185 | Otherwise it finds the unblocked front with the smallest `occurred_at`, and among equals the smallest `event_id` |
| OutboxProjection.CandidateIsLocal | core/src/dispatcher.rs:173-185 | A globally least eligible row is the least of its own aggregate |
| OutboxProjection.AggregatesAreIndependent | core/src/dispatcher.rs:169-276 | Every run seen from one aggregate is a legal run of a table holding that aggregate alone, ending in the projected state |
| OutboxStale.StaleStepIsOrdinary | core/src/dispatcher.rs:166-205 | A claim that judged earlier rows on an older snapshot is a legal claim of the present state |
| OutboxStale.StaleRunsAreOrdinary | core/src/dispatcher.rs:166-205 | Every state of a run with stale claims is reachable by an ordinary run, so every theorem above holds of it |
| Delivery.InProcessEventDelivery.RejectNext | core/src/dispatcher.rs:61-66 | Adds to the deliberate failures still owed |
| Delivery.InProcessEventDelivery.AcceptedEventIds | core/src/dispatcher.rs:68-74 | Returns exactly the accepted ids |
| Delivery.InProcessEventDelivery.AttemptsFor | core/src/dispatcher.rs:76-84 | Returns the multiplicity of the id among all attempts |
| Delivery.InProcessEventDelivery.Deliver | core/src/dispatcher.rs:89-103 | Records the attempt, then rejects while failures are owed and accepts otherwise; a rejection accepts nothing |
| Delivery.BooksBalance | core/src/dispatcher.rs:61-103 | In every run whose deliveries all go through one adapter: `attempt_count` is the number of claims and bounds the attempts, every delivered id was accepted, rejections made plus owed are those requested |
| Dispatcher.SelectCandidate | core/src/dispatcher.rs:171-185 | The loop finds, among the eligible unlocked rows, the one with the smallest `occurred_at` and among equals the smallest `event_id`, or none exactly when there is none |
| Dispatcher.PostgresOutboxDispatcher.WithPool | core/src/dispatcher.rs:158-164 | A dispatcher has a positive lease |
| Dispatcher.PostgresOutboxDispatcher.ClaimNext | core/src/dispatcher.rs:169-221 | Claims that same row: it alone changes, gaining the fresh token, a deadline the lease away and one more attempt, and its envelope is returned; nothing is claimed exactly when no unlocked row is eligible |
| Dispatcher.PostgresOutboxDispatcher.Acknowledge | core/src/dispatcher.rs:226-238 | Updates exactly when the row is undelivered and leased to this token for longer than now; then it alone is delivered now and freed, otherwise no row changes |
| Dispatcher.PostgresOutboxDispatcher.ReleaseRejected | core/src/dispatcher.rs:241-253 | On the same condition the row becomes available now and free |
| Dispatcher.PostgresOutboxDispatcher.DeadLetter | core/src/dispatcher.rs:257-276 | On the same condition and without an earlier dead letter, the row is dead-lettered now with the given reason and freed |
| Dispatcher.PostgresOutboxDispatcher.DispatchOne | core/src/dispatcher.rs:278-306 | With any delivery port, amid any moves of others and with a database error at either statement, the call is claim, delivery, then acknowledgement or release, and reports that run's outcome |
| Drain.OutcomeIsDecidedByTheClock | core/src/dispatcher.rs:278-306 | Against any interference a call without a database error loses its lease exactly when the clock has reached the deadline; otherwise it reports what its port answered, the reason of a rejection included |
| Drain.OutcomeOnTheRow | core/src/dispatcher.rs:278-306 | A call that reports an outcome has left its row as the outcome says, against the state its settlement met, and no other row changed with it |
| Drain.NoEventExactly | core/src/dispatcher.rs:279-281 | A call without a database error reports that there is no event exactly when no unlocked row is eligible, and then changes nothing |
| Drain.FaultsLeave | core/src/dispatcher.rs:278-306 | A database error ends the call where it happened and is returned: nothing is undone or done after it, and the failing statement counts exactly when it took effect |
| Drain.OthersAreFree | core/src/dispatcher.rs:286-292 | While a delivery is under way, any legal moves that do not deliver or settle under this token happen in full |
| Drain.CallLowersRemaining | core/src/dispatcher.rs:278-306 | With every row startable, an undisturbed call lowers undelivered rows plus owed failures by exactly one, and finds no event exactly when every row is delivered |
| Drain.LoneWorkerDrains | core/src/dispatcher.rs:278-306 | Such calls empty the outbox after exactly as many calls as there was work |
| Drain.LoneWorkerCanDrain | core/src/dispatcher.rs:278-306 | From every such state some row of such calls, no longer than the work, delivers everything |
| Producer.ExampleDatabase.WriteBusinessState | modules/example/src/database.rs:64-74 | Draws the next id and stages the record with the given label |
| Producer.ExampleDatabase.WriteOutboxEvent | modules/example/src/database.rs:76-105 | Stages the event row announcing the staged record, with both time columns at the present and every other column at its default |
| Producer.ExampleDatabase.CommitWork | modules/example/src/database.rs:34 | Record and event become visible together |
| Producer.ExampleDatabase.CreateRecord | modules/example/src/database.rs:30-36 | Without an error, or with the reply to COMMIT lost, record and event are in the tables and both times of the event are those of the call; with any other error the tables are as before; the error or the created record is returned |
| Producer.CreatedEventIsClaimableAtOnce | modules/example/src/database.rs:76-105 | A call that takes effect adds exactly one row: it announces the record by id and label, bears the instant of the call, was never attempted, and can be claimed at that instant |
| Producer.CallIsAllOrNothing | modules/example/src/database.rs:30-36 | That end is the run of the call's statements: both rows or neither and no open transaction; an error means neither, unless the reply to an effective COMMIT was lost; an id once drawn stays drawn |
| Producer.WorkRefinesOutbox | modules/example/src/database.rs:30-36 | A commit is a legal insert: new event id, and nothing of its aggregate visible before |
| Producer.OutboxAndRecordsAgree | modules/example/src/database.rs:64-105 | Over all interleavings of producers and dispatchers, events and committed records are in bijection with matching id and label; accepted events name committed records, delivered ones were accepted |
| Dependencies.TopologicalMeansAcyclic | core/src/manifest.rs:236-238 | A listing with dependencies first excludes every cycle |
| Dependencies.DependencySearch.Visit | core/src/manifest.rs:214-239 | A visit ends with the module visited and the call stack as before, or names a module on a real cycle |
| Dependencies.DependencySearch.VisitRequirements | core/src/manifest.rs:230-234 | The loop visits every enabled requirement of the module or reports a real cycle |
| Dependencies.EnsureAcyclic | core/src/manifest.rs:210-247 | Ok exactly when no cycle exists, with a topological finish order; an error names a module on a cycle; no module is expanded twice |
| Manifest.CheckContracts | core/src/manifest.rs:171-183 | Passes exactly when every required contract exists at a matching version, and otherwise names one that is missing or unmet |
| Manifest.CheckModules | core/src/manifest.rs:159-184 | Passes exactly when every enabled module is known, at the exact version, with all contracts met |
| Manifest.CheckDependencies | core/src/manifest.rs:186-195 | Passes exactly when the enabled set is closed under required dependencies, and no metadata index can miss |
| Manifest.ValidateManifest | core/src/manifest.rs:138-204 | Ok exactly for the acceptable manifests, among them no round trip of enabled modules each requiring the next, passed through unchanged; every error is true and every earlier check passed |
| Manifest.CyclesAgree | core/src/manifest.rs:230-234 | The graph the search walks has a cycle through a module exactly when enabled modules require each other in a round trip from it |
| Migrator.MigratorRuns | core/src/database.rs:89-95 | Creating the schema and running its migrator statement by statement succeeds exactly under one condition and leaves the catalog described in one go |
| Migrator.MigratorAbsorbs | core/src/database.rs:89-95 | A migrator statement committed by an earlier run changes nothing about what a complete run leaves |
| Migrator.MigratorReflects | core/src/database.rs:89-95 | A migrator that may proceed after one of its own statements might have proceeded before it |
| Installation.PlanRuns | core/src/database.rs:70-182 | The statements of a migration succeed exactly when roles, scripts and scopes allow, and then leave exactly the stated roles, grants, schemas and histories |
| Convergence.PlanAbsorbs | core/src/database.rs:70-182 | With any one statement committed beforehand the plan succeeds exactly when it did, with the same result |
| Convergence.CrashesConverge | core/src/database.rs:70-182 | After any number of runs stopped after any number of statements, a complete run succeeds exactly when one uninterrupted run would have, and leaves its catalog |
| Convergence.InterruptedMigrationConverges | core/src/database.rs:11-187 | After any committed prefix the whole command answers, with a catalog, a refusal or a failure, as it would have before |
| Convergence.DispatcherIsConfined | core/src/database.rs:154-174 | In the module schema the dispatcher can read and update the outbox and nothing else, whatever it held before |
| Convergence.RuntimePrivileges | core/src/database.rs:117-151 | On every table of its schema the module role has all four data privileges, save that it only reads the migration history |
| Convergence.FreshInstallationPrivileges | core/src/database.rs:96-174 | On a catalog that granted nothing, these and the readiness role's read of the shared history are all table privileges there are |
| Convergence.FreshInstallationSucceeds | core/src/database.rs:11-187 | On a catalog where nothing concerns the installation yet, the command succeeds |
| MigrationOutcomes.RemovalRefusedExactly | core/src/database.rs:63-68 | Without the module the command is refused exactly when the module's history records a successful script |
| MigrationOutcomes.InstalledModuleStays | core/src/database.rs:189-212 | After a successful migration with the module, one without it is refused |
| MigrationOutcomes.SharedRolesRefusedExactly | core/src/database.rs:43-56 | The command is refused for shared roles exactly when two of its three identities have one role |
| MigrationOutcomes.RolesAfterSuccess | core/src/database.rs:296-387 | After success every identity is an ordinary login with the configured password, in no role and confined to its schema; a role that existed keeps its other attributes and was known to no other database |
| MigrationOutcomes.OtherRolesStay | core/src/database.rs:70-182 | No other role gains or loses an attribute, the right to connect or the use of a schema |
| MigrationOutcomes.AccessAfterSuccess | core/src/database.rs:70-182 | After success PUBLIC can neither connect nor use schema `public`, and every identity can connect and use its schema |
| MigrationOutcomes.ReadinessPrivileges | core/src/database.rs:70-88 | On a shared history that existed before, the command grants reading to the readiness role and nothing else to anyone |
| MigrationOutcomes.RuntimeReachesFutureRelations | core/src/database.rs:110-151 | The module role uses every sequence of its schema, and every table and sequence created there later |
| MigrationOutcomes.TablesAfterSuccess | core/src/database.rs:70-95 | After success the tables are those from before and those of the scripts not yet recorded, with a missing history |
| MigrationCommand.OperationsConnection.ProvisionRole | core/src/database.rs:296-323 | Refuses a role another database knows, changes only the password of an existing one, creates a missing one as a non-inheriting login |
| MigrationCommand.OperationsConnection.MigrateInstallation | core/src/database.rs:11-187 | Refuses for shared roles, or for a removal exactly when the history records a success, before any change; otherwise commits a prefix of the statements, all of them on success; however it ends, asking again is answered as the first time, failures included |
| MigrationCommand.StoppedMeansFailed | core/src/database.rs:70-182 | On a connection that lasts, stopping early means that the plan has a failing statement |
| Readiness.MigrationStateIsCurrent | modules/example/src/database.rs:38-52 | The length-and-zip comparison is equality with the embedded list |
| Readiness.CurrentMeansExactlyApplied | modules/example/src/database.rs:38-52 | It succeeds exactly when every embedded script, and no other, is recorded as applied with its checksum |
| Readiness.MigrationMakesReady | core/src/database.rs:410-433 | After a successful migration both readiness comparisons succeed |
| Text.DecodeEncode | core/src/reconcile.rs:317-323 | Percent-decoding inverts percent-encoding on every byte string |
| Text.EncodingSplits | core/src/reconcile.rs:317-323 | Encoding goes byte by byte |
| Text.EncodedByteExactly | core/src/reconcile.rs:317-323 | A letter or digit stands for itself, any other byte becomes a percent sign and two upper-case hexadecimal digits, the high one first |
| Credentials.UrlRoundTrip | core/src/reconcile.rs:317-323 | A built URL parses back into its user, encoded password, host, port and path, whatever bytes the password holds |
| Credentials.UrlTextExactly | core/src/reconcile.rs:317-323 | The built URL is that text, with port 5432 and only the password encoded |
| Credentials.BuiltUrlsAreJudgedExactly | core/src/database.rs:254-289 | Of two built URLs, exactly those for one host and database, the expected role, a password and a role other than that of the operations URL are accepted, with the original role and password; each refusal has its own condition |
| Credentials.IdentityAcceptedExactly | core/src/database.rs:254-289 | Of any two parsed URLs, exactly those with the same host, port and path, the expected role as decoded user, a decodable password and another operations role are accepted, with the decoded role and password |
| Credentials.DifferentPortsRefused | core/src/database.rs:258-267 | The scheme has no default port: another port, or one given and one not, is another database |
| Credentials.RoleQuotedExactly | core/src/database.rs:238-247 | Exactly the non-empty names of ASCII letters, digits and underscores are accepted, and put in double quotes unchanged |
| Credentials.DatabaseNameRecovered | core/src/database.rs:18-20 | The migration command reads the original database name out of the operations URL |
| Credentials.ScopedNamesExactly | core/src/database.rs:213-236 | The three names of an ASCII database name, letter by letter: prefix, at most twelve lowered letters, and the first sixteen bytes of the digest in hexadecimal |
| Credentials.WideCharacterInSlug | core/src/database.rs:215-226 | A character of several bytes counts as one and becomes one underscore |
| Credentials.ScopedRolesAreUsable | core/src/database.rs:214-247 | For any database name the three roles pass the quoting check, are distinct, differ from the operations role and have at most 57 characters |
| Credentials.SharedRoleMeansCollision | core/src/database.rs:214-236 | Two databases share a role only if the first halves of their digests collide |
| Credentials.DeploymentAcceptedExactly | core/src/reconcile.rs:288-309 | The accepted deployments by lengths, character ranges and port |
| Credentials.ReconcilerAndMigratorAgree | core/src/reconcile.rs:118-143 | For every valid deployment and resolved secrets, the migration command derives the same roles and accepts all three URLs with the configured passwords |
| Redaction.OccurrencesComeFromText | core/src/reconcile.rs:386-388 | A value that is no part of the mark and cannot run over its edges appears after a replacement only if the text already showed it, and the replaced value itself never does |
| Redaction.FoldClears | core/src/reconcile.rs:385-388 | After the whole fold no such value among the secrets is left, whatever the other secrets are |
| Redaction.PresentAddsNothing | core/src/reconcile.rs:389-399 | Trimming, the two notes and the cut show no redactable value the text did not show |
| Redaction.RedactionHides | core/src/reconcile.rs:367-400 | For any output and any secrets, the final text contains no redactable secret |
| Redaction.SortingOrders | core/src/reconcile.rs:384 | The secrets are reordered longest first, none lost or added |
| Redaction.SecretsExactly | core/src/reconcile.rs:377-383 | The secrets are exactly the non-empty values whose keys end in `_PASSWORD` or `_DATABASE_URL` |
| Redaction.ReplacesFromTheLeft | core/src/reconcile.rs:386-388 | The first occurrence becomes the mark, and replacing goes on behind it |
| Redaction.WholeValuesGoFirst | core/src/reconcile.rs:384-388 | A secret is replaced whole if no other secret at least as long occurs in the output |
| Redaction.RedactedDiagnostics | core/src/reconcile.rs:367-400 | Output in which no secret occurs is shown without the blanks around it, whole up to 4000 characters and otherwise its last 4000 behind a note, and blank output is replaced by a note; any text is non-empty, has at most 4032 characters and hides every redactable secret |
| RedactionReach.SecretAloneShowsMark | core/src/reconcile.rs:384-388 | Of an output that is one of the secrets nothing is left but the mark, whatever shorter secrets it contains |
| RedactionReach.LengthOfCharacter | core/src/reconcile.rs:384 | The lengths sorted by are bytes of UTF-8 |
| RedactionReach.PlainSecretsStayHiddenExactly | core/src/reconcile.rs:384-399 | Among any other secrets, a secret without brackets and white space stays hidden for every output exactly when none of the three fixed texts contains it; a piece of the mark is listed once, or there are at most 444 secrets |
| RedactionReach.DiagnosticsHidePlainSecretsExactly | core/src/reconcile.rs:367-400 | The same of the diagnostics over all standard outputs, standard errors and environments |
| RedactionReach.RepeatsCanHide | core/src/reconcile.rs:384-399 | Without that condition it fails: beside more than 2000 copies of "E" the secret "RED" is never shown, although the mark contains it |
| RedactionReach.FixedTextsShow | core/src/reconcile.rs:367-400 | For an environment with such a secret inside the mark or a note, some output makes the diagnostics show it |
| RedactionReach.BracketFreeSecretsStayHiddenExactly | core/src/reconcile.rs:384-399 | Among secrets with characters of their own, a secret without '[' and shorter than the cut stays hidden for every output exactly when no fixed text contains it and it begins with no end of the mark or of the truncation note |
| RedactionReach.DiagnosticsHideBracketFreeSecretsExactly | core/src/reconcile.rs:367-400 | The same of the diagnostics over all standard outputs, standard errors and environments |
| RedactionReach.MarkCompletesSecret | core/src/reconcile.rs:367-400 | For an environment with a secret that begins with an end of the mark, a given output makes the diagnostics show it |
| RedactionReach.MarkStaysNearEnd | core/src/reconcile.rs:386-388 | Replacing one more value moves the last mark at most nine characters away from the end of the text |

## Left out

- Statement clock: `clock_timestamp()` may be read twice within one statement; the model reads it once.
- Integer widths: `attempt_count` (32 bits), lease seconds, ids and the adapter's counters are unbounded.
- Token text: `claimed_by` is one fresh name instead of worker name and uuid.
- PostgreSQL locking and snapshots beyond skipped rows and the stale snapshot of `OutboxStale.dfy`.
- Dispatcher.PostgresOutboxDispatcher.DispatchOne: a port other than the in-process adapter is known only by what it answers; what it does elsewhere is not modelled.
- Delivery.InProcessEventDelivery.Deliver: a poisoned mutex and the overflow of the counter are not modelled.
- Manifest.ValidateManifest: which of several faulty modules is named depends on map order, which is left open; version requirements are arbitrary predicates, and YAML decoding is not part of this model.
- Migrator.MigratorRuns: SQL errors inside a migration script appear only as a name already taken; the advisory lock, `search_path` and the dirty-version bookkeeping of sqlx beyond its recorded rows are not modelled, and embedded scripts have distinct versions and create relations of their own.
- Catalog privileges: of schema privileges only USAGE and the grants to PUBLIC on schema `public` are kept; ownership is not.
- Credentials.UrlRoundTrip: the splitter covers the grammar these URLs need (sections 2.1 and 3.2 of RFC 3986), not host normalisation or the other schemes' rules of the `url` crate.
- Credentials.ScopedRolesAreUsable: SHA-256 is an arbitrary function with 32-byte values.
- Redaction.RedactedDiagnostics: the environment is the list of its entries in key order, and output bytes are already decoded; the library sort is a stable insertion sort on values, not in place.
- RedactionReach.BracketFreeSecretsStayHiddenExactly: for secrets with '[' the guarantee goes one way (`RedactionHides`); whether one that ends with the start of the mark is shown depends on how its copies overlap.  For secrets as long as the cut, or whose companions share all their characters, the same.
- Operator release of a dead letter: described in docs/adr/0003-module-owned-ordered-outbox.md, but no code performs it.
- Compose project names and execution, readiness polling, secret files, HTTP, the binaries, the protobuf transport and the scripts: input and output only, or easy members.
