/** The job-store schema bootstrap: probe one canonical Quartz table with the
    admin connection and, only when PostgreSQL reports that the table is
    undefined, run the DDL script embedded in the assembly inside one
    transaction, committing it unless the script commits by itself. */
module QuartzSchemaInitializer {
  import opened Wrappers
  import opened DotNetStrings

  /** The probe reads `QRTZ_JOB_DETAILS`. The identifier is unquoted, so
      PostgreSQL looks it up folded to lower case. */
  const ProbedTable: string := "qrtz_job_details"
  /** SqlState of PostgreSQL's "undefined_table" error. */
  const UndefinedTableState: string := "42P01"
  /** The embedded resource that holds the job-store DDL. */
  const DdlResourcePath: string := "quartz_tables_postgres.sql"
  /** A script containing this text, in any case, commits by itself. */
  const CommitDirective: string := "COMMIT;"

  /** A failure reported by the database driver: a `PostgresException` carries
      a SqlState; anything else (a refused connection, a timeout) does not. */
  datatype DbError = PostgresError(sqlState: string) | OtherDbError

  /** The result of `SELECT * FROM QRTZ_JOB_DETAILS LIMIT 1`. */
  datatype ProbeOutcome = ProbeOk | ProbeFailed(error: DbError)

  /** What the initializer concludes from the probe. */
  datatype ProbeDecision = SchemaPresent | SchemaMissing | Propagate(error: DbError)

  /** One manifest resource of the assembly: its name and its text. */
  datatype Resource = Resource(name: string, text: string)

  /** How running the DDL script ends: it returns normally, having created
      `created` and, when `endsTransaction` holds, having committed them with
      a `COMMIT` of its own; or it raises an error. */
  datatype ExecOutcome = ExecSucceeded(created: set<string>, endsTransaction: bool) | ExecFailed(error: DbError)

  /** Failures of the driver calls around the script that arise independently
      of the schema: `conn.Open()`, the probe query, `BeginTransaction()` and
      `tx.Commit()`. */
  datatype Faults = Faults(open: Option<DbError>, probe: Option<DbError>, begin: Option<DbError>, commit: Option<DbError>)

  /** A run in which none of the driver calls around the script fails. */
  const NoFaults: Faults := Faults(None, None, None, None)

  /** The last transaction the initializer opened. `CommittedByScript` is a
      transaction ended by the script's own commit. */
  datatype TxState = NoTransaction | Open | Committed | CommittedByScript | RolledBack

  /** The exception, if any, that `CreateSchemaIfMissing` lets escape.
      `TransactionCompleted` is the driver refusing `Commit` on a transaction
      the server has already ended. */
  datatype InitError =
    | ConnectError(error: DbError)
    | ProbeError(error: DbError)
    | ResourceNotFound
    | BeginError(error: DbError)
    | DdlError(error: DbError)
    | CommitError(error: DbError)
    | TransactionCompleted

  /** `ScriptRan` is a normal return after the script ran, whether or not its
      work was kept. */
  datatype InitResult = AlreadyPresent | ScriptRan | Failed(error: InitError)

  /** The observable state of the job-store database: its committed tables,
      the initializer's last transaction, how many times the initializer
      committed and how many times it ran the DDL script. */
  datatype StoreState = StoreState(tables: set<string>, tx: TxState, commits: nat, ddlRuns: nat)

  /** One call of `CreateSchemaIfMissing`: what it returned (or threw) and the
      state it left behind. */
  datatype Attempt = Attempt(result: InitResult, after: StoreState)

  /** What the probe query returns on a database with these committed tables;
      `fault` is a failure of the connection or of the query itself that
      arises independently of the schema. */
  function Probe(tables: set<string>, fault: Option<DbError>): (p: ProbeOutcome)
    ensures fault.Some? ==> p == ProbeFailed(fault.value)
    ensures fault.None? ==> (p.ProbeOk? <==> ProbedTable in tables)
    ensures fault.None? && p.ProbeFailed? ==> p.error == PostgresError(UndefinedTableState)
  {
    match fault
    case Some(e) => ProbeFailed(e)
    case None => if ProbedTable in tables then ProbeOk else ProbeFailed(PostgresError(UndefinedTableState))
  }

  /** The `try`/`catch ... when (pgex.SqlState == "42P01")` around the probe:
      success means the schema exists, only an undefined-table error means
      it is missing, and every other error is rethrown. */
  function Classify(p: ProbeOutcome): (d: ProbeDecision)
    ensures d == SchemaPresent <==> p.ProbeOk?
    ensures d == SchemaMissing <==> p == ProbeFailed(PostgresError(UndefinedTableState))
    ensures d.Propagate? ==> p.ProbeFailed? && d.error == p.error
  {
    match p
    case ProbeOk => SchemaPresent
    case ProbeFailed(e) =>
      if e.PostgresError? && e.sqlState == UndefinedTableState then SchemaMissing else Propagate(e)
  }

  /** The name the resource lookup searches for: the path with `/` replaced by `.`. */
  function ResourceKey(resourcePath: string): (k: string)
    ensures |k| == |resourcePath| && '/' !in k
    ensures forall i :: 0 <= i < |k| ==> k[i] == (if resourcePath[i] == '/' then '.' else resourcePath[i])
  {
    ReplaceChar(resourcePath, '/', '.')
  }

  /** A path without `/`, such as the DDL script's, is searched for as it is,
      and a key is its own key. */
  lemma ResourceKeyOfFlatPath(resourcePath: string)
    ensures '/' !in resourcePath ==> ResourceKey(resourcePath) == resourcePath
    ensures ResourceKey(ResourceKey(resourcePath)) == ResourceKey(resourcePath)
    ensures ResourceKey(DdlResourcePath) == DdlResourcePath
  {
    var k := ResourceKey(resourcePath);
    if '/' !in resourcePath {
      assert forall i :: 0 <= i < |k| ==> k[i] == resourcePath[i];
    }
    assert forall i :: 0 <= i < |k| ==> ResourceKey(k)[i] == k[i];
    assert '/' !in DdlResourcePath;
    assert forall i :: 0 <= i < |DdlResourcePath| ==> ResourceKey(DdlResourcePath)[i] == DdlResourcePath[i];
  }

  /** `GetManifestResourceNames().First(n => n.EndsWith(key, StringComparison.Ordinal))`:
      the position of the first resource in the list whose name ends with
      `key`, or nothing when `First` would throw. */
  function FirstEndingWith(manifest: seq<Resource>, key: string): (r: Option<nat>)
    ensures r.Some? ==> r.value < |manifest| && EndsWith(manifest[r.value].name, key)
    ensures r.Some? ==> forall j :: 0 <= j < r.value ==> !EndsWith(manifest[j].name, key)
    ensures r.None? ==> forall j :: 0 <= j < |manifest| ==> !EndsWith(manifest[j].name, key)
  {
    if |manifest| == 0 then None
    else if EndsWith(manifest[0].name, key) then Some(0)
    else
      match FirstEndingWith(manifest[1..], key)
      case None => None
      case Some(i) => Some(i + 1)
  }

  /** `ReadEmbeddedText`: the text of the first resource, in manifest order,
      whose name ends with the resource key; none when no name does. */
  function ReadEmbeddedText(manifest: seq<Resource>, resourcePath: string): (r: Option<string>)
    ensures r.None? <==> forall j :: 0 <= j < |manifest| ==> !EndsWith(manifest[j].name, ResourceKey(resourcePath))
    ensures r.Some? ==> exists i :: 0 <= i < |manifest| && manifest[i].text == r.value
                                    && EndsWith(manifest[i].name, ResourceKey(resourcePath))
                                    && forall j :: 0 <= j < i ==> !EndsWith(manifest[j].name, ResourceKey(resourcePath))
  {
    match FirstEndingWith(manifest, ResourceKey(resourcePath))
    case None => None
    case Some(i) => Some(manifest[i].text)
  }

  /** The commit rule: the initializer commits only scripts that do not
      contain the commit directive, in any case. */
  predicate ScriptCommitsItself(sql: string) {
    ContainsIgnoreCase(sql, CommitDirective)
  }

  /** The directive is found in any case and anywhere in the script; a
      script without a semicolon never commits itself. */
  lemma CommitDirectiveRecognised(before: string, after: string, sql: string)
    ensures ScriptCommitsItself(before + "commit;" + after) && ScriptCommitsItself(before + "COMMIT;" + after)
    ensures ';' !in sql ==> !ScriptCommitsItself(sql)
  {
    OccurrenceIsFound(before, "commit;", after, CommitDirective);
    OccurrenceIsFound(before, "COMMIT;", after, CommitDirective);
    if ';' !in sql {
      forall i | 0 <= i && i + |CommitDirective| <= |sql| ensures !MatchesAt(sql, CommitDirective, i) {
        assert sql[i..i + 7][6] == sql[i + 6] != ';';
        assert FoldCase(sql[i + 6]) != FoldCase(CommitDirective[6]);
      }
    }
  }

  /** The DDL script as `ReadEmbeddedText("quartz_tables_postgres.sql")` finds it. */
  function DdlScript(manifest: seq<Resource>): Option<string> {
    ReadEmbeddedText(manifest, DdlResourcePath)
  }

  /** The call gets as far as running the script: the connection opens, the
      probe reports the table undefined, the script is found and the
      transaction begins. */
  predicate ScriptRuns(s: StoreState, faults: Faults, manifest: seq<Resource>) {
    faults.open.None? && Probe(s.tables, faults.probe) == ProbeFailed(PostgresError(UndefinedTableState))
    && DdlScript(manifest).Some? && faults.begin.None?
  }

  /** The work of a script that returned normally is committed, by the
      script's own `COMMIT` or by the initializer's `Commit`. */
  predicate KeepsWork(sql: string, commitFault: Option<DbError>, exec: ExecOutcome) {
    exec.ExecSucceeded? && (exec.endsTransaction || (!ScriptCommitsItself(sql) && commitFault.None?))
  }

  /** The effect of one `CreateSchemaIfMissing` call on the database state. */
  function CreateSchemaIfMissingSpec(s: StoreState, faults: Faults, manifest: seq<Resource>,
                                     exec: ExecOutcome): (a: Attempt)
    // A connection that does not open is rethrown before the probe, whatever its SqlState.
    ensures faults.open.Some? ==> a == Attempt(Failed(ConnectError(faults.open.value)), s)
    // A successful probe returns at once and touches nothing.
    ensures faults.open.None? && Probe(s.tables, faults.probe).ProbeOk? ==> a == Attempt(AlreadyPresent, s)
    // Any probe error but undefined-table is rethrown, and nothing is run.
    ensures faults.open.None? && Classify(Probe(s.tables, faults.probe)).Propagate? ==>
              a == Attempt(Failed(ProbeError(Probe(s.tables, faults.probe).error)), s)
    // After an undefined-table probe, a missing resource is an error raised before any transaction.
    ensures a.result == Failed(ResourceNotFound) <==>
              faults.open.None? && Probe(s.tables, faults.probe) == ProbeFailed(PostgresError(UndefinedTableState))
              && DdlScript(manifest).None?
    ensures a.result == Failed(ResourceNotFound) ==> a.after == s
    // So is a transaction that does not begin.
    ensures faults.open.None? && Probe(s.tables, faults.probe) == ProbeFailed(PostgresError(UndefinedTableState))
            && DdlScript(manifest).Some? && faults.begin.Some? ==>
              a == Attempt(Failed(BeginError(faults.begin.value)), s)
    // The script runs once exactly when the call gets that far; a call that does not run it changes nothing.
    ensures a.after.ddlRuns != s.ddlRuns <==> ScriptRuns(s, faults, manifest)
    ensures a.after.ddlRuns == s.ddlRuns || a.after.ddlRuns == s.ddlRuns + 1
    ensures a.after.ddlRuns == s.ddlRuns ==> a.after == s
    ensures a.after.ddlRuns != s.ddlRuns ==> a.after.tx != Open
    // Tables change only through a script whose work is committed, by exactly what it created.
    ensures ScriptRuns(s, faults, manifest) && KeepsWork(DdlScript(manifest).value, faults.commit, exec) ==>
              a.after.tables == s.tables + exec.created
    ensures !(ScriptRuns(s, faults, manifest) && KeepsWork(DdlScript(manifest).value, faults.commit, exec)) ==>
              a.after.tables == s.tables
    // A failed script is never committed: its transaction is rolled back and the error escapes.
    ensures ScriptRuns(s, faults, manifest) && exec.ExecFailed? ==>
              a.result == Failed(DdlError(exec.error)) && a.after.tx == RolledBack && a.after.commits == s.commits
    // The initializer commits once exactly when the script returned without ending the transaction,
    // its text holds no commit directive and `Commit` succeeds; it never commits a script's work twice.
    ensures a.after.commits == s.commits + 1 <==>
              ScriptRuns(s, faults, manifest) && exec.ExecSucceeded? && !exec.endsTransaction
              && !ScriptCommitsItself(DdlScript(manifest).value) && faults.commit.None?
    ensures a.after.commits == s.commits || a.after.commits == s.commits + 1
    // Once the script has run, the transaction is committed by the initializer, ended by the script, or rolled back.
    ensures a.after.ddlRuns != s.ddlRuns ==>
              a.after.tx == (if a.after.commits == s.commits + 1 then Committed
                             else if exec.ExecSucceeded? && exec.endsTransaction then CommittedByScript
                             else RolledBack)
    ensures ScriptRuns(s, faults, manifest) ==>
              (a.after.tx == CommittedByScript <==> exec.ExecSucceeded? && exec.endsTransaction)
    // A script that ends its transaction without the directive in its text makes `Commit` fail, its work kept.
    ensures ScriptRuns(s, faults, manifest) && exec.ExecSucceeded? && exec.endsTransaction
            && !ScriptCommitsItself(DdlScript(manifest).value) ==>
              a.result == Failed(TransactionCompleted)
    // A directive that does not end the transaction (one in a comment, say) means no commit at all:
    // disposing the transaction rolls the script back, and the call still returns normally.
    ensures ScriptRuns(s, faults, manifest) && exec.ExecSucceeded? && !exec.endsTransaction
            && ScriptCommitsItself(DdlScript(manifest).value) ==>
              a.result == ScriptRan && a.after.tx == RolledBack && a.after.tables == s.tables
    // A failing `Commit` is rethrown and keeps nothing.
    ensures ScriptRuns(s, faults, manifest) && exec.ExecSucceeded? && !exec.endsTransaction
            && !ScriptCommitsItself(DdlScript(manifest).value) && faults.commit.Some? ==>
              a.result == Failed(CommitError(faults.commit.value)) && a.after.tx == RolledBack && a.after.tables == s.tables
    // The call returns normally after running the script exactly when the script returned and
    // the initializer either skipped `Commit` or committed successfully.
    ensures a.result == ScriptRan <==>
              ScriptRuns(s, faults, manifest) && exec.ExecSucceeded?
              && (ScriptCommitsItself(DdlScript(manifest).value) || (!exec.endsTransaction && faults.commit.None?))
  {
    if faults.open.Some? then Attempt(Failed(ConnectError(faults.open.value)), s)
    else
      match Classify(Probe(s.tables, faults.probe))
      case SchemaPresent => Attempt(AlreadyPresent, s)
      case Propagate(e) => Attempt(Failed(ProbeError(e)), s)
      case SchemaMissing =>
        match DdlScript(manifest)
        case None => Attempt(Failed(ResourceNotFound), s)
        case Some(sql) =>
          if faults.begin.Some? then Attempt(Failed(BeginError(faults.begin.value)), s)
          else
            var ran := s.(ddlRuns := s.ddlRuns + 1);
            match exec
            case ExecFailed(e) => Attempt(Failed(DdlError(e)), ran.(tx := RolledBack))
            case ExecSucceeded(created, endsTransaction) =>
              if endsTransaction then
                var done := ran.(tables := s.tables + created, tx := CommittedByScript);
                if ScriptCommitsItself(sql) then Attempt(ScriptRan, done) else Attempt(Failed(TransactionCompleted), done)
              else if ScriptCommitsItself(sql) then Attempt(ScriptRan, ran.(tx := RolledBack))
              else if faults.commit.Some? then Attempt(Failed(CommitError(faults.commit.value)), ran.(tx := RolledBack))
              else Attempt(ScriptRan, ran.(tables := s.tables + created, tx := Committed, commits := s.commits + 1))
  }

  /** Idempotence: once a call has run a script that created the probed table
      and whose work was committed, by either side, a second call on a
      reachable database is a no-op. That holds also after `Commit` was
      refused on a transaction the script had already ended. */
  lemma SecondCallIsNoOp(s: StoreState, faults: Faults, manifest: seq<Resource>, exec: ExecOutcome,
                         faults2: Faults, manifest2: seq<Resource>, exec2: ExecOutcome)
    requires exec.ExecSucceeded? && ProbedTable in exec.created
    requires var a := CreateSchemaIfMissingSpec(s, faults, manifest, exec);
             a.after.ddlRuns != s.ddlRuns && (a.after.tx == Committed || a.after.tx == CommittedByScript)
    requires faults2.open.None? && faults2.probe.None?
    ensures var after := CreateSchemaIfMissingSpec(s, faults, manifest, exec).after;
            CreateSchemaIfMissingSpec(after, faults2, manifest2, exec2) == Attempt(AlreadyPresent, after)
  {
  }

  /** The job-store database seen through the admin connection. */
  class JobStoreDatabase {
    var tables: set<string>
    var tx: TxState
    var commits: nat
    var ddlRuns: nat

    function State(): StoreState
      reads this
    {
      StoreState(tables, tx, commits, ddlRuns)
    }

    constructor (existing: set<string>)
      ensures State() == StoreState(existing, NoTransaction, 0, 0)
    {
      tables, tx, commits, ddlRuns := existing, NoTransaction, 0, 0;
    }

    /** `QuartzSchemaInitializer.CreateSchemaIfMissing`. The driver `faults`,
        the assembly's `manifest` and the outcome `exec` of running the script
        stand for what the database and the assembly do. */
    method CreateSchemaIfMissing(faults: Faults, manifest: seq<Resource>, exec: ExecOutcome)
      returns (r: InitResult)
      modifies this
      ensures Attempt(r, State()) == CreateSchemaIfMissingSpec(old(State()), faults, manifest, exec)
    {
      // `conn.Open()` is outside the probe's `try`.
      if faults.open.Some? {
        return Failed(ConnectError(faults.open.value));
      }
      var probe := Probe(tables, faults.probe);
      match Classify(probe) {
        case SchemaPresent =>
          return AlreadyPresent;
        case Propagate(e) =>
          return Failed(ProbeError(e));
        case SchemaMissing =>
      }
      var sql := ReadEmbeddedText(manifest, DdlResourcePath);
      if sql.None? {
        return Failed(ResourceNotFound);
      }
      if faults.begin.Some? {
        return Failed(BeginError(faults.begin.value));
      }
      tx := Open;
      ddlRuns := ddlRuns + 1;
      match exec {
        case ExecFailed(e) =>
          // The transaction is disposed without a commit.
          tx := RolledBack;
          return Failed(DdlError(e));
        case ExecSucceeded(created, endsTransaction) =>
          if endsTransaction {
            // The script's own commit made its tables durable and ended the transaction.
            tables, tx := tables + created, CommittedByScript;
          }
          if !ScriptCommitsItself(sql.value) {
            if endsTransaction {
              return Failed(TransactionCompleted);
            }
            match faults.commit {
              case Some(e) =>
                tx := RolledBack;
                return Failed(CommitError(e));
              case None =>
                tables, tx, commits := tables + created, Committed, commits + 1;
            }
          } else if !endsTransaction {
            // Disposing the transaction without a commit rolls the script back.
            tx := RolledBack;
          }
          return ScriptRan;
      }
    }
  }

  /** Two calls in a row, the second on a reachable database. When the first
      call's script created the probed table and its work was committed, the
      second reports the schema present and the tables hold what the first
      created. When the directive in the script's text did not end the
      transaction, the first call's work was rolled back and the second runs
      the script all over again. */
  method CreateTwice(db: JobStoreDatabase, faults: Faults, manifest: seq<Resource>, created: set<string>, endsTransaction: bool)
    returns (first: InitResult, second: InitResult)
    requires ProbedTable in created
    modifies db
    ensures (first == ScriptRan || first == Failed(TransactionCompleted)) && DdlScript(manifest).Some?
            && (endsTransaction || !ScriptCommitsItself(DdlScript(manifest).value)) ==>
              second == AlreadyPresent && db.tables == old(db.tables) + created
    ensures first == ScriptRan && ProbedTable !in old(db.tables) && !endsTransaction && DdlScript(manifest).Some? && ScriptCommitsItself(DdlScript(manifest).value) ==>
              second == ScriptRan && db.tables == old(db.tables) && db.ddlRuns == old(db.ddlRuns) + 2
  {
    ghost var s0 := db.State();
    first := db.CreateSchemaIfMissing(faults, manifest, ExecSucceeded(created, endsTransaction));
    ghost var s1 := db.State();
    second := db.CreateSchemaIfMissing(NoFaults, manifest, ExecSucceeded(created, endsTransaction));
    if s1.ddlRuns != s0.ddlRuns && (s1.tx == Committed || s1.tx == CommittedByScript) {
      SecondCallIsNoOp(s0, faults, manifest, ExecSucceeded(created, endsTransaction),
                       NoFaults, manifest, ExecSucceeded(created, endsTransaction));
    }
  }
}
