# Console scheduler startup and job-store bootstrap, in Dafny

This project models the decision logic of a recurring-message scheduler host.
The host binds three schedules (every ten minutes, hourly, daily) to heartbeat
messages. It publishes them through MassTransit, with Quartz as the job engine.
Two parts of the host are modelled and their properties proved:

- **The startup sequence** (`src/Scheduler/Program.cs`). It starts from the four
  connection strings (`Database:ConnectionString`, `Database:AdminConnectionString`,
  `Messaging:ConnectionString`, `Messaging:AdminConnectionString`), the
  development flag and the command-line arguments. From these it decides five
  things: the effective admin strings, which schema bootstraps run and in what
  order, whether startup fails on an incomplete configuration, whether
  `initonly` exits early, and which backend the job store and the transport get.
  It then registers the three recurring publishes and serves.
  `SchedulerStartup.Startup` returns a record of all of this. The record holds a
  trace of the startup steps that have an external effect.
- **The job-store schema bootstrap** (`src/Scheduler/QuartzSchemaInitializer.cs`).
  The bootstrap opens the admin connection and probes the canonical table
  `QRTZ_JOB_DETAILS`. Only PostgreSQL's undefined-table error (SqlState `42P01`)
  from the probe leads on to the embedded DDL script. A failure to connect is
  rethrown whatever its SqlState, because `conn.Open()` is outside the `try`.
  The script runs in one transaction. The bootstrap commits that transaction
  unless the script's text contains `COMMIT;` in any case. The test is on the
  text only. So a script can end the transaction without that text, and then
  the driver refuses the later `Commit`. A script can also hold the text
  without ending the transaction, in a comment for instance. Then nothing
  commits, disposing the transaction rolls the script back, and the call still
  returns normally. Failures of `BeginTransaction` and `Commit` are rethrown.
  The database is the class
  `QuartzSchemaInitializer.JobStoreDatabase`, with its committed tables, the
  initializer's last transaction, and counters of commits and script runs. Its
  method `CreateSchemaIfMissing` is proved equal to the function
  `CreateSchemaIfMissingSpec`, and the properties are proved about that function.

Files:

- `wrappers.dfy`: `Option`, which stands for C#'s null.
- `dotnet_strings.dfy`: the .NET string operations the code calls.
  `string.IsNullOrWhiteSpace` uses `char.IsWhiteSpace`'s exact character set.
  Also here: ordinal case-insensitive `Equals` and `Contains`, ordinal
  `EndsWith`, `Replace(char, char)` and `FirstOrDefault`.
- `quartz_schema_initializer.dfy`: the probe, its classification, the resource
  lookup of `ReadEmbeddedText`, the commit rule and the store class.
- `scheduler_startup.dfy`: the top-level statements of `Program.cs`. They are
  split along the source's own phases: admin strings, bootstraps, configuration
  check and `initonly` (`Prepare`), then backends, registration and serving
  (`ConfigureAndServe`).

These are parameters of the model, not computed by it:

- whether each call into a library returns normally or throws. The Quartz
  bootstrap, the MassTransit migrator and the joined registrations are each
  represented by one flag of `Collaborators`.
- for the schema bootstrap: the faults of `conn.Open()`, of the probe query,
  of `BeginTransaction()` and of `tx.Commit()`; the assembly's resource
  manifest; and how running the DDL script ends. The script either returns,
  with the tables it created and whether it ended the transaction itself, or
  it raises an error.

Notes on the code's behaviour:

- The admin string falls back to the primary one only when
  `IsDevelopment()` holds, not in every non-production environment.
- The schema bootstraps run before the configuration check. So a production
  start with an admin string but no primary string bootstraps first and fails
  afterwards. It does not abort before touching the database (see
  `AdminOnlyProductionStart`).
- Nothing treats an "already exists" error during schema creation as success.
  A failed script is always a fatal error.

## Model

| member | source | states |
|---|---|---|
| `DotNetStrings.WhiteSpaceIsListed` | src/Scheduler/Program.cs:45-61 | the `char.IsWhiteSpace` test behind every connection-string check accepts exactly U+0009–U+000D, U+0020, U+0085, U+00A0, U+1680, U+2000–U+200A, U+2028, U+2029, U+202F, U+205F and U+3000 |
| `DotNetStrings.TrimStart` | src/Scheduler/Program.cs:45-61 | trimming the front drops a prefix made only of white space and leaves a suffix of the string that is empty or starts with a character that is not white space |
| `DotNetStrings.NullOrWhiteSpaceIsEmptyAfterTrim` | src/Scheduler/Program.cs:45-61 | `string.IsNullOrWhiteSpace` on a non-null string holds iff trimming the leading white space leaves nothing; null is always null-or-white-space |
| `DotNetStrings.EqualsIgnoreCaseByFolding` | src/Scheduler/Program.cs:65 | `string.Equals(a, b, OrdinalIgnoreCase)` holds iff the two strings are equal once every character is folded to upper case |
| `DotNetStrings.EndsWithIsSuffix` | src/Scheduler/QuartzSchemaInitializer.cs:62 | ordinal `n.EndsWith(key)` holds iff `n` is some string followed by `key` |
| `DotNetStrings.ContainsIgnoreCase` | src/Scheduler/QuartzSchemaInitializer.cs:53 | `Contains(p, OrdinalIgnoreCase)` is true iff some offset of the text holds `p` up to case; the empty pattern is always found |
| `DotNetStrings.ContainsIgnoresCaseOfText` | src/Scheduler/QuartzSchemaInitializer.cs:53 | case-insensitive containment gives the same answer on the case-folded text, so `commit;` and `COMMIT;` are the same directive |
| `DotNetStrings.OccurrenceIsFound` | src/Scheduler/QuartzSchemaInitializer.cs:53 | a text holding the pattern in any case, anywhere, contains it |
| `DotNetStrings.ReplaceChar` | src/Scheduler/QuartzSchemaInitializer.cs:62 | `Replace('/', '.')` keeps the length, turns every `/` into `.`, keeps every other character, and leaves no `/` |
| `DotNetStrings.FirstOrDefault` | src/Scheduler/Program.cs:65 | `args.FirstOrDefault()` is null exactly for an empty argument list, else the first argument |
| `QuartzSchemaInitializer.Probe` | src/Scheduler/QuartzSchemaInitializer.cs:32-36 | on a reachable database the probe succeeds iff the canonical table exists, and fails with `42P01` otherwise; an independent fault is reported as is |
| `QuartzSchemaInitializer.Classify` | src/Scheduler/QuartzSchemaInitializer.cs:34-43 | success means the schema is present; exactly a `PostgresException` with SqlState `42P01` means it is missing; every other failure is rethrown unchanged |
| `QuartzSchemaInitializer.ResourceKey` | src/Scheduler/QuartzSchemaInitializer.cs:62 | the searched name has the path's length; each `/` of the path becomes `.` and every other character is kept, so no `/` is left |
| `QuartzSchemaInitializer.ResourceKeyOfFlatPath` | src/Scheduler/QuartzSchemaInitializer.cs:62 | a path without `/`, such as `quartz_tables_postgres.sql`, is searched for unchanged, and replacing again changes nothing |
| `QuartzSchemaInitializer.FirstEndingWith` | src/Scheduler/QuartzSchemaInitializer.cs:61-62 | `First(n => n.EndsWith(key, Ordinal))`: the position of a name ending with the key, with no earlier such name; none exactly when no name ends with it |
| `QuartzSchemaInitializer.ReadEmbeddedText` | src/Scheduler/QuartzSchemaInitializer.cs:58-67 | fails exactly when no manifest name ends with the key; otherwise returns the text of the first such resource in manifest order |
| `QuartzSchemaInitializer.CommitDirectiveRecognised` | src/Scheduler/QuartzSchemaInitializer.cs:53 | the commit rule sees `commit;` and `COMMIT;` anywhere in a script's text, and never sees a directive in a script without a semicolon |
| `QuartzSchemaInitializer.CreateSchemaIfMissingSpec` | src/Scheduler/QuartzSchemaInitializer.cs:27-56 | A connection fault is rethrown before the probe, whatever its SqlState. A successful probe changes nothing. A probe error other than `42P01` is rethrown and nothing runs. After `42P01`, the call fails with a missing resource iff no manifest name matches, changing nothing. A failing `BeginTransaction` is rethrown, changing nothing. The script runs once iff the call gets that far, and a call that does not run it changes nothing. Tables grow, by exactly what the script created, iff its work is committed. Once the script has run, the transaction is `Committed` iff the initializer committed, `CommittedByScript` iff the script ended it, and `RolledBack` otherwise. A failed script is rolled back and rethrown. The initializer commits once iff the script returned without ending the transaction, its text lacks `COMMIT;` in any case, and `Commit` succeeds, so it never commits a script's work twice. A script that ends the transaction without that text makes `Commit` fail with its work kept. The text without an actual commit makes the call return normally with the work rolled back. A failing `Commit` is rethrown and keeps nothing |
| `QuartzSchemaInitializer.SecondCallIsNoOp` | src/Scheduler/QuartzSchemaInitializer.cs:27-56 | idempotence: once a call ran a script that created the canonical table and whose work was committed, by the script or by the initializer, a second call on a reachable database reports it present and changes nothing; this includes a call whose `Commit` was refused |
| `QuartzSchemaInitializer.JobStoreDatabase.CreateSchemaIfMissing` | src/Scheduler/QuartzSchemaInitializer.cs:27-56 | the step-by-step method (open, probe, early return, load DDL, begin transaction, execute, conditional commit, dispose) leaves the result and the store state that `CreateSchemaIfMissingSpec` gives |
| `QuartzSchemaInitializer.CreateTwice` | src/Scheduler/QuartzSchemaInitializer.cs:27-56 | two calls in a row on the store object, the second on a reachable database: after a first call whose work was committed, the second reports the schema present and the tables hold exactly what the first created; when the script's `COMMIT;` text did not end the transaction, the first call returned normally yet kept nothing, and the second runs the script again |
| `SchedulerStartup.Catalog` | src/Scheduler/Program.cs:124-128 | exactly three bindings; a binding is in the catalog iff its schedule and message have the same cadence; no schedule twice |
| `SchedulerStartup.InitOnlyRecognised` | src/Scheduler/Program.cs:65 | `initonly` is recognised iff there is a first argument and it folds to `INITONLY`; `initonly`, `INITONLY`, `InitOnly serve` are recognised, and no arguments, `init`, `--initonly` and `serve initonly` are not |
| `SchedulerStartup.RegistersCatalog` | src/Scheduler/Program.cs:124-128 | the three registration calls register each catalog binding once and nothing else |
| `SchedulerStartup.SelectJobStore` | src/Scheduler/Program.cs:74-85 | the job store is in memory iff the primary database string is null or white space, else Postgres on that primary string |
| `SchedulerStartup.SelectTransport` | src/Scheduler/Program.cs:87-105 | the transport is in memory iff the primary messaging string is null or white space, else Postgres on that primary string |
| `SchedulerStartup.RunBootstraps` | src/Scheduler/Program.cs:50-54 | the job-store bootstrap runs iff its admin string is usable, with that string; the messaging migration runs iff its admin string is usable and the job-store bootstrap did not throw; job store first; one throwing ends startup there |
| `SchedulerStartup.ConfiguredTraceInOrder` | src/Scheduler/Program.cs:74-130 | the effects after the configuration check come in stage order: job store, transport, registrations, serving |
| `SchedulerStartup.ConfiguredTraceContents` | src/Scheduler/Program.cs:74-130 | those effects set both backends, register exactly the catalog, and end by serving iff the registrations succeed |
| `SchedulerStartup.ConfigFailure` | src/Scheduler/Program.cs:56-63 | never a failure in development; outside it, a missing database string is fatal first, and a missing messaging string is fatal only once the database string is present |
| `SchedulerStartup.Prepare` | src/Scheduler/Program.cs:38-70 | the admin strings default to the primary ones in development only; the bootstraps run before the configuration check, and the check runs before `initonly`; `initonly` exits only when both pass |
| `SchedulerStartup.ConfigureAndServe` | src/Scheduler/Program.cs:72-130 | configures one job store and one transport from the primary strings, registers exactly the catalog, then serves iff every registration succeeded |
| `SchedulerStartup.Startup` | src/Scheduler/Program.cs:38-130 | the whole sequence. Admin defaulting happens in development only. The job-store bootstrap runs iff its resolved admin string is usable. The messaging migration runs iff its resolved admin string is usable and the job-store bootstrap did not throw. Both run in phase order, each with its resolved admin string. The fatal configuration checks never fail in development. `initonly` exits iff the first argument equals `initonly` ignoring case, after the bootstraps and the configuration check, so it never bypasses them. An empty argument list never exits early. Backends are set and the catalog is registered iff startup gets past `initonly`. Both backends come from the primary strings, never the admin ones. Serving is the last step |
| `SchedulerStartup.AdminOnlyProductionStart` | src/Scheduler/Program.cs:50-70 | a production start with only an admin database string runs the job-store bootstrap and nothing else, then fails for the missing database string, even with `INITONLY` |
| `SchedulerStartup.BareDevelopmentStart` | src/Scheduler/Program.cs:44-130 | a development start without connection strings runs no bootstrap, gets in-memory backends, registers the catalog and serves |

## Left out

- `MessagingSchemaInitializer.RunPostgresMigrationsAsync` is a thin wrapper over MassTransit's `PostgresDatabaseMigrator`. Only whether it is invoked, and with which string, is modelled.
- The Npgsql connection, SQL execution and the contents of `quartz_tables_postgres.sql` are not modelled. A successful script run is modelled as adding the tables it created to the store.
- A self-committing script that fails after its own `COMMIT;` leaves the part before the commit behind. The model treats every failed script as leaving no tables.
- A `Commit` whose acknowledgement is lost may still have committed on the server. The model treats every failing `Commit` as keeping nothing.
- The driver's refusal to `Commit` a transaction the server has already ended is modelled as one error, `TransactionCompleted`. Its exception type and message are not modelled.
- Concurrent bootstraps by several replicas are not modelled. The code does not handle an "already exists" error during creation, so no race tolerance is claimed.
- The Quartz and MassTransit engines are not modelled: firing, persistence, overwrite of an existing registration.
- Schedule cadences, message time-to-live values and the manual emission endpoint are not modelled; their code is not part of this model.
- Not modelled: the HTTP host, the `/health` and `/` routes with a redirect URL, Serilog logging, the security filter and console output. They make no decision about bootstrap or backends.
- Cancellation tokens are not modelled.
- `SchedulerStartup.Startup`: does not fix the order of the three registrations, because the source issues them together under `Task.WhenAll` and only joins them. Their outcome is one flag, because one failure fails the join.
- `DotNetStrings.EqualsIgnoreCase`: folds only ASCII letters. Ordinal ignore-case comparison in .NET also folds other letters. Against the ASCII patterns used here (`initonly`, `COMMIT;`) the two agree, since no non-ASCII character folds to an ASCII one under .NET's ordinal casing.
- Dafny characters are Unicode scalar values, while .NET characters are UTF-16 code units. None of the white-space characters or the patterns are surrogates, so the difference is not visible here.
