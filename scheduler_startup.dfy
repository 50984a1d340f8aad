/** The scheduler's top-level startup: resolve the admin connection strings,
    run the schema bootstraps they enable, reject an incomplete production
    configuration, honour `initonly`, choose the job-store and transport
    backends, and register the three recurring publishes before serving. */
module SchedulerStartup {
  import opened Wrappers
  import opened DotNetStrings

  /** The four connection strings read from configuration; `None` is a key
      that is not set. */
  datatype ConnectionConfig = ConnectionConfig(
    database: Option<string>,        // Database:ConnectionString
    adminDatabase: Option<string>,   // Database:AdminConnectionString
    messaging: Option<string>,       // Messaging:ConnectionString
    adminMessaging: Option<string>)  // Messaging:AdminConnectionString

  /** Whether each call into code outside the model returns normally rather than
      throwing: the job-store schema bootstrap, the transport migration and the
      joined registration of the recurring publishes. */
  datatype Collaborators = Collaborators(jobStoreSchemaOk: bool, messagingSchemaOk: bool, registrationsOk: bool)

  datatype JobStoreBackend = InMemoryStore | PostgresStore(connectionString: string)

  datatype TransportBackend = InMemoryTransport | PostgresTransport(connectionString: string)

  datatype Schedule = EveryTenMinutesSchedule | HourlySchedule | DailySchedule

  datatype Message = EveryTenMinutesMessage | HourlyMessage | DailyMessage

  /** One `ScheduleRecurringPublish(schedule, message)` call. */
  datatype Binding = Binding(schedule: Schedule, message: Message)

  /** The startup steps with an effect outside the process, in the order taken. */
  datatype Effect =
    | CreateJobStoreSchema(adminConnection: string)
    | MigrateMessagingSchema(adminConnection: string)
    | UseJobStore(store: JobStoreBackend)
    | UseTransport(transport: TransportBackend)
    | RegisterRecurringPublish(binding: Binding)
    | Serve

  datatype FatalError =
    | JobStoreSchemaFailed
    | MessagingSchemaFailed
    | DatabaseNotConfigured
    | MessagingNotConfigured
    | RegistrationFailed

  datatype Outcome = Fatal(error: FatalError) | InitOnlyExit | Serving

  /** What one start of the process did: the admin strings it settled on, its
      effects, how it ended, and the backends it configured (if it got that far). */
  datatype StartupRecord = StartupRecord(
    adminDatabase: Option<string>,
    adminMessaging: Option<string>,
    effects: seq<Effect>,
    outcome: Outcome,
    jobStore: Option<JobStoreBackend>,
    transport: Option<TransportBackend>)

  /** A schedule and a message of the same cadence. */
  predicate Matches(b: Binding) {
    match b.schedule
    case EveryTenMinutesSchedule => b.message == EveryTenMinutesMessage
    case HourlySchedule => b.message == HourlyMessage
    case DailySchedule => b.message == DailyMessage
  }

  /** The recurring publishes registered before serving. */
  function Catalog(): (c: seq<Binding>)
    ensures |c| == 3
    ensures forall b :: b in c <==> Matches(b)
    ensures forall i, j :: 0 <= i < j < |c| ==> c[i].schedule != c[j].schedule
  {
    [Binding(EveryTenMinutesSchedule, EveryTenMinutesMessage),
     Binding(HourlySchedule, HourlyMessage),
     Binding(DailySchedule, DailyMessage)]
  }

  /** The job store Quartz is configured with. */
  function SelectJobStore(database: Option<string>): (b: JobStoreBackend)
    ensures b.InMemoryStore? <==> IsNullOrWhiteSpace(database)
    ensures b.PostgresStore? ==> database == Some(b.connectionString)
  {
    if IsNullOrWhiteSpace(database) then InMemoryStore else PostgresStore(database.value)
  }

  /** The transport MassTransit is configured with. */
  function SelectTransport(messaging: Option<string>): (b: TransportBackend)
    ensures b.InMemoryTransport? <==> IsNullOrWhiteSpace(messaging)
    ensures b.PostgresTransport? ==> messaging == Some(b.connectionString)
  {
    if IsNullOrWhiteSpace(messaging) then InMemoryTransport else PostgresTransport(messaging.value)
  }

  /** `string.Equals(args.FirstOrDefault(), "initonly", StringComparison.OrdinalIgnoreCase)`. */
  predicate IsInitOnly(args: seq<string>) {
    var first := FirstOrDefault(args);
    first.Some? && EqualsIgnoreCase(first.value, "initonly")
  }

  /** `initonly` is recognised in the first argument only, in any case. */
  lemma InitOnlyRecognised(args: seq<string>)
    ensures IsInitOnly(args) <==> |args| > 0 && FoldAll(args[0]) == "INITONLY"
    ensures IsInitOnly(["initonly"]) && IsInitOnly(["INITONLY"]) && IsInitOnly(["InitOnly", "serve"])
    ensures !IsInitOnly([]) && !IsInitOnly(["init"]) && !IsInitOnly(["--initonly"]) && !IsInitOnly(["serve", "initonly"])
  {
    assert FoldAll("initonly") == "INITONLY";
    if |args| > 0 {
      EqualsIgnoreCaseByFolding(args[0], "initonly");
    }
    assert FoldAll("InitOnly") == "INITONLY";
    assert FoldAll("INITONLY") == "INITONLY";
    assert FoldAll("serve") != "INITONLY";
    assert |"init"| != |"initonly"|;
    assert FoldAll("--initonly")[0] == '-';
    EqualsIgnoreCaseByFolding("initonly", "initonly");
    EqualsIgnoreCaseByFolding("INITONLY", "initonly");
    EqualsIgnoreCaseByFolding("InitOnly", "initonly");
    EqualsIgnoreCaseByFolding("serve", "initonly");
  }

  /** The trace registers exactly `bindings`, each one once. */
  ghost predicate RegistersExactly(effects: seq<Effect>, bindings: seq<Binding>) {
    (forall b :: RegisterRecurringPublish(b) in effects <==> b in bindings)
    && forall i, j :: 0 <= i < j < |effects| && effects[i].RegisterRecurringPublish? ==> effects[i] != effects[j]
  }

  /** The trace registers nothing. */
  predicate RegistersNothing(effects: seq<Effect>) {
    forall i :: 0 <= i < |effects| ==> !effects[i].RegisterRecurringPublish?
  }

  /** One registration effect per catalog entry, in catalog order. */
  function CatalogRegistrations(): (rs: seq<Effect>)
    ensures |rs| == |Catalog()|
    ensures forall i :: 0 <= i < |rs| ==> rs[i] == RegisterRecurringPublish(Catalog()[i])
  {
    var c := Catalog();
    [RegisterRecurringPublish(c[0]), RegisterRecurringPublish(c[1]), RegisterRecurringPublish(c[2])]
  }

  /** Surrounded by effects that register nothing, the catalog's registrations
      register each catalog binding, once, and nothing else. */
  lemma RegistersCatalog(pre: seq<Effect>, post: seq<Effect>)
    requires RegistersNothing(pre) && RegistersNothing(post)
    ensures RegistersExactly(pre + CatalogRegistrations() + post, Catalog())
  {
    var c, rs := Catalog(), CatalogRegistrations();
    var effects := pre + rs + post;
    forall k | 0 <= k < |pre| ensures !effects[k].RegisterRecurringPublish? {
      assert effects[k] == pre[k];
    }
    forall k | |pre| + |rs| <= k < |effects| ensures !effects[k].RegisterRecurringPublish? {
      assert effects[k] == post[k - |pre| - |rs|];
    }
    forall b ensures RegisterRecurringPublish(b) in effects <==> b in c {
      if RegisterRecurringPublish(b) in effects {
        var i :| 0 <= i < |effects| && effects[i] == RegisterRecurringPublish(b);
        assert effects[i] == rs[i - |pre|];
      }
      if b in c {
        var k :| 0 <= k < |c| && c[k] == b;
        assert effects[|pre| + k] == rs[k];
      }
    }
    forall i, j | 0 <= i < j < |effects| && effects[i].RegisterRecurringPublish?
      ensures effects[i] != effects[j]
    {
      assert effects[i] == rs[i - |pre|];
      if j < |pre| + |rs| {
        assert effects[j] == rs[j - |pre|];
      }
    }
  }

  /** Effects that register nothing do not change what a trace registers. */
  lemma RegistersExactlyAfter(a: seq<Effect>, b: seq<Effect>, bindings: seq<Binding>)
    requires RegistersNothing(a) && RegistersExactly(b, bindings)
    ensures RegistersExactly(a + b, bindings)
  {
    var effects := a + b;
    forall k | 0 <= k < |a| ensures !effects[k].RegisterRecurringPublish? {
      assert effects[k] == a[k];
    }
    forall x ensures RegisterRecurringPublish(x) in effects <==> RegisterRecurringPublish(x) in b {
      if RegisterRecurringPublish(x) in effects {
        var i :| 0 <= i < |effects| && effects[i] == RegisterRecurringPublish(x);
        assert effects[i] == b[i - |a|];
      }
    }
    forall i, j | 0 <= i < j < |effects| && effects[i].RegisterRecurringPublish?
      ensures effects[i] != effects[j]
    {
      assert effects[i] == b[i - |a|] && effects[j] == b[j - |a|];
    }
  }

  /** The stage of startup an effect belongs to. */
  function Stage(e: Effect): nat {
    match e
    case CreateJobStoreSchema(_) => 0
    case MigrateMessagingSchema(_) => 1
    case UseJobStore(_) => 2
    case UseTransport(_) => 3
    case RegisterRecurringPublish(_) => 4
    case Serve => 5
  }

  /** Effects occur stage by stage, and every stage but registration at most once. */
  predicate InStageOrder(effects: seq<Effect>) {
    forall i, j :: 0 <= i < j < |effects| ==>
      Stage(effects[i]) < Stage(effects[j]) || (Stage(effects[i]) == Stage(effects[j]) == 4)
  }

  /** No schema bootstrap that was attempted threw. */
  predicate BootstrapsOk(adminDatabase: Option<string>, adminMessaging: Option<string>, env: Collaborators) {
    (IsNullOrWhiteSpace(adminDatabase) || env.jobStoreSchemaOk)
    && (IsNullOrWhiteSpace(adminMessaging) || env.messagingSchemaOk)
  }

  /** Outside development both primary connection strings are required. */
  predicate ConfigComplete(isDevelopment: bool, config: ConnectionConfig) {
    isDevelopment || (!IsNullOrWhiteSpace(config.database) && !IsNullOrWhiteSpace(config.messaging))
  }

  lemma StageOrderConcat(a: seq<Effect>, b: seq<Effect>, k: nat)
    requires InStageOrder(a) && InStageOrder(b)
    requires forall i :: 0 <= i < |a| ==> Stage(a[i]) < k
    requires forall i :: 0 <= i < |b| ==> k <= Stage(b[i])
    ensures InStageOrder(a + b)
  {
    forall i, j | 0 <= i < j < |a + b|
      ensures Stage((a + b)[i]) < Stage((a + b)[j]) || (Stage((a + b)[i]) == Stage((a + b)[j]) == 4)
    {
      if j < |a| {
        assert (a + b)[i] == a[i] && (a + b)[j] == a[j];
      } else if i >= |a| {
        assert (a + b)[i] == b[i - |a|] && (a + b)[j] == b[j - |a|];
      } else {
        assert (a + b)[i] == a[i] && (a + b)[j] == b[j - |a|];
      }
    }
  }

  /** The effects after the configuration check: the two backends, the
      catalog's registrations and, when those succeed, serving. */
  function ConfiguredTrace(jobStore: JobStoreBackend, transport: TransportBackend, registrationsOk: bool): seq<Effect> {
    [UseJobStore(jobStore), UseTransport(transport)] + CatalogRegistrations() + (if registrationsOk then [Serve] else [])
  }

  /** The configured trace is in stage order, after the bootstraps' stages. */
  lemma ConfiguredTraceInOrder(jobStore: JobStoreBackend, transport: TransportBackend, registrationsOk: bool)
    ensures var effects := ConfiguredTrace(jobStore, transport, registrationsOk);
            InStageOrder(effects) && forall i :: 0 <= i < |effects| ==> 2 <= Stage(effects[i])
  {
    var effects := ConfiguredTrace(jobStore, transport, registrationsOk);
    var rs := CatalogRegistrations();
    forall i | 0 <= i < |effects|
      ensures Stage(effects[i]) == (if i == 0 then 2 else if i == 1 then 3 else if i < 5 then 4 else 5)
    {
      if 2 <= i < 5 {
        assert effects[i] == rs[i - 2];
      }
    }
  }

  /** The configured trace sets both backends, registers exactly the catalog,
      and ends by serving exactly when the registrations succeed. */
  lemma ConfiguredTraceContents(jobStore: JobStoreBackend, transport: TransportBackend, registrationsOk: bool)
    ensures var effects := ConfiguredTrace(jobStore, transport, registrationsOk);
            && UseJobStore(jobStore) in effects && UseTransport(transport) in effects
            && RegistersExactly(effects, Catalog())
            && (Serve in effects <==> registrationsOk)
            && (registrationsOk ==> effects != [] && effects[|effects| - 1] == Serve)
  {
    var setup := [UseJobStore(jobStore), UseTransport(transport)];
    var finish := if registrationsOk then [Serve] else [];
    var effects := ConfiguredTrace(jobStore, transport, registrationsOk);
    RegistersCatalog(setup, finish);
    assert effects[0] == UseJobStore(jobStore) && effects[1] == UseTransport(transport);
    if Serve in effects {
      var i :| 0 <= i < |effects| && effects[i] == Serve;
      assert i == 5;
    }
    if registrationsOk {
      assert effects[5] == Serve;
    }
  }

  /** The bootstraps a trace records, each with its admin string, are kept
      when effects of later stages follow. */
  lemma BootstrapsKept(adminDatabase: Option<string>, adminMessaging: Option<string>, env: Collaborators,
                       bootstraps: seq<Effect>, rest: seq<Effect>)
    requires forall i :: 0 <= i < |bootstraps| ==> Stage(bootstraps[i]) <= 1
    requires forall i :: 0 <= i < |rest| ==> 2 <= Stage(rest[i])
    requires !IsNullOrWhiteSpace(adminDatabase) <==> adminDatabase.Some? && CreateJobStoreSchema(adminDatabase.value) in bootstraps
    requires forall i :: 0 <= i < |bootstraps| && bootstraps[i].CreateJobStoreSchema? ==> adminDatabase == Some(bootstraps[i].adminConnection)
    requires (!IsNullOrWhiteSpace(adminMessaging) && (IsNullOrWhiteSpace(adminDatabase) || env.jobStoreSchemaOk))
             <==> adminMessaging.Some? && MigrateMessagingSchema(adminMessaging.value) in bootstraps
    requires forall i :: 0 <= i < |bootstraps| && bootstraps[i].MigrateMessagingSchema? ==> adminMessaging == Some(bootstraps[i].adminConnection)
    ensures var effects := bootstraps + rest;
            (!IsNullOrWhiteSpace(adminDatabase) <==> adminDatabase.Some? && CreateJobStoreSchema(adminDatabase.value) in effects)
            && (forall i :: 0 <= i < |effects| && effects[i].CreateJobStoreSchema? ==> adminDatabase == Some(effects[i].adminConnection))
            && ((!IsNullOrWhiteSpace(adminMessaging) && (IsNullOrWhiteSpace(adminDatabase) || env.jobStoreSchemaOk))
                <==> adminMessaging.Some? && MigrateMessagingSchema(adminMessaging.value) in effects)
            && (forall i :: 0 <= i < |effects| && effects[i].MigrateMessagingSchema? ==> adminMessaging == Some(effects[i].adminConnection))
    ensures Serve in bootstraps + rest <==> Serve in rest
    ensures rest != [] ==> (bootstraps + rest)[|bootstraps + rest| - 1] == rest[|rest| - 1]
  {
    var effects := bootstraps + rest;
    forall i | |bootstraps| <= i < |effects| ensures 2 <= Stage(effects[i]) {
      assert effects[i] == rest[i - |bootstraps|];
    }
    forall i | 0 <= i < |bootstraps| ensures effects[i] == bootstraps[i] {
    }
    if adminDatabase.Some? && CreateJobStoreSchema(adminDatabase.value) in effects {
      var i :| 0 <= i < |effects| && effects[i] == CreateJobStoreSchema(adminDatabase.value);
      assert effects[i] == bootstraps[i];
    }
    if adminMessaging.Some? && MigrateMessagingSchema(adminMessaging.value) in effects {
      var i :| 0 <= i < |effects| && effects[i] == MigrateMessagingSchema(adminMessaging.value);
      assert effects[i] == bootstraps[i];
    }
    assert forall i :: 0 <= i < |bootstraps| ==> bootstraps[i] != Serve;
  }

  /** The bootstrap phase: each schema bootstrap runs when its admin string is usable,
      the job store's first; an exception from either ends startup there. */
  method RunBootstraps(adminDatabase: Option<string>, adminMessaging: Option<string>, env: Collaborators)
    returns (effects: seq<Effect>, failure: Option<FatalError>)
    ensures InStageOrder(effects) && forall i :: 0 <= i < |effects| ==> Stage(effects[i]) <= 1
    ensures !IsNullOrWhiteSpace(adminDatabase) <==> adminDatabase.Some? && CreateJobStoreSchema(adminDatabase.value) in effects
    ensures forall i :: 0 <= i < |effects| && effects[i].CreateJobStoreSchema? ==> adminDatabase == Some(effects[i].adminConnection)
    ensures (!IsNullOrWhiteSpace(adminMessaging) && (IsNullOrWhiteSpace(adminDatabase) || env.jobStoreSchemaOk))
            <==> adminMessaging.Some? && MigrateMessagingSchema(adminMessaging.value) in effects
    ensures forall i :: 0 <= i < |effects| && effects[i].MigrateMessagingSchema? ==> adminMessaging == Some(effects[i].adminConnection)
    ensures failure == Some(JobStoreSchemaFailed) <==> !IsNullOrWhiteSpace(adminDatabase) && !env.jobStoreSchemaOk
    ensures failure == Some(MessagingSchemaFailed) <==>
              (IsNullOrWhiteSpace(adminDatabase) || env.jobStoreSchemaOk)
              && !IsNullOrWhiteSpace(adminMessaging) && !env.messagingSchemaOk
    ensures failure.None? <==> BootstrapsOk(adminDatabase, adminMessaging, env)
  {
    effects, failure := [], None;
    if !IsNullOrWhiteSpace(adminDatabase) {
      effects := effects + [CreateJobStoreSchema(adminDatabase.value)];
      if !env.jobStoreSchemaOk {
        failure := Some(JobStoreSchemaFailed);
        return;
      }
    }
    if !IsNullOrWhiteSpace(adminMessaging) {
      effects := effects + [MigrateMessagingSchema(adminMessaging.value)];
      if !env.messagingSchemaOk {
        failure := Some(MessagingSchemaFailed);
      }
    }
  }

  /** The configuration check: outside development a missing primary database string is
      fatal, and then a missing primary messaging string. */
  function ConfigFailure(isDevelopment: bool, config: ConnectionConfig): (f: Option<FatalError>)
    ensures f.None? <==> ConfigComplete(isDevelopment, config)
    ensures f == Some(DatabaseNotConfigured) <==> !isDevelopment && IsNullOrWhiteSpace(config.database)
    ensures f == Some(MessagingNotConfigured) <==>
              !isDevelopment && !IsNullOrWhiteSpace(config.database) && IsNullOrWhiteSpace(config.messaging)
  {
    if isDevelopment then None
    else if IsNullOrWhiteSpace(config.database) then Some(DatabaseNotConfigured)
    else if IsNullOrWhiteSpace(config.messaging) then Some(MessagingNotConfigured)
    else None
  }

  /** The serving phase: configure Quartz and MassTransit, register the catalog's
      recurring publishes (joined: one failure fails the whole) and serve. */
  method ConfigureAndServe(config: ConnectionConfig, env: Collaborators)
    returns (effects: seq<Effect>, jobStore: JobStoreBackend, transport: TransportBackend, outcome: Outcome)
    ensures InStageOrder(effects) && forall i :: 0 <= i < |effects| ==> 2 <= Stage(effects[i])
    ensures jobStore.InMemoryStore? <==> IsNullOrWhiteSpace(config.database)
    ensures jobStore.PostgresStore? ==> config.database == Some(jobStore.connectionString)
    ensures transport.InMemoryTransport? <==> IsNullOrWhiteSpace(config.messaging)
    ensures transport.PostgresTransport? ==> config.messaging == Some(transport.connectionString)
    ensures UseJobStore(jobStore) in effects && UseTransport(transport) in effects
    ensures RegistersExactly(effects, Catalog())
    ensures outcome == (if env.registrationsOk then Serving else Fatal(RegistrationFailed))
    ensures Serve in effects <==> env.registrationsOk
    ensures env.registrationsOk ==> effects != [] && effects[|effects| - 1] == Serve
  {
    jobStore := SelectJobStore(config.database);
    transport := SelectTransport(config.messaging);
    ConfiguredTraceInOrder(jobStore, transport, env.registrationsOk);
    ConfiguredTraceContents(jobStore, transport, env.registrationsOk);
    effects := ConfiguredTrace(jobStore, transport, env.registrationsOk);
    outcome := if env.registrationsOk then Serving else Fatal(RegistrationFailed);
  }

  /** The preparation phase: settle the admin strings, run the bootstraps, check the
      configuration and honour `initonly`. `stop` is how startup ends here,
      if it does. */
  method Prepare(config: ConnectionConfig, isDevelopment: bool, args: seq<string>, env: Collaborators)
    returns (adminDatabase: Option<string>, adminMessaging: Option<string>, bootstraps: seq<Effect>, stop: Option<Outcome>)
    // Admin strings: the primary one stands in, in development only, for a missing admin one.
    ensures !isDevelopment || !IsNullOrWhiteSpace(config.adminDatabase) ==> adminDatabase == config.adminDatabase
    ensures isDevelopment && IsNullOrWhiteSpace(config.adminDatabase) ==> adminDatabase == config.database
    ensures !isDevelopment || !IsNullOrWhiteSpace(config.adminMessaging) ==> adminMessaging == config.adminMessaging
    ensures isDevelopment && IsNullOrWhiteSpace(config.adminMessaging) ==> adminMessaging == config.messaging
    // Bootstraps, in order, each with its resolved admin string.
    ensures InStageOrder(bootstraps) && forall i :: 0 <= i < |bootstraps| ==> Stage(bootstraps[i]) <= 1
    ensures Serve !in bootstraps
    ensures !IsNullOrWhiteSpace(adminDatabase) <==> adminDatabase.Some? && CreateJobStoreSchema(adminDatabase.value) in bootstraps
    ensures forall i :: 0 <= i < |bootstraps| && bootstraps[i].CreateJobStoreSchema? ==> adminDatabase == Some(bootstraps[i].adminConnection)
    ensures (!IsNullOrWhiteSpace(adminMessaging) && (IsNullOrWhiteSpace(adminDatabase) || env.jobStoreSchemaOk))
            <==> adminMessaging.Some? && MigrateMessagingSchema(adminMessaging.value) in bootstraps
    ensures forall i :: 0 <= i < |bootstraps| && bootstraps[i].MigrateMessagingSchema? ==> adminMessaging == Some(bootstraps[i].adminConnection)
    // Then the configuration check, then `initonly`.
    ensures stop == Some(Fatal(JobStoreSchemaFailed)) <==> !IsNullOrWhiteSpace(adminDatabase) && !env.jobStoreSchemaOk
    ensures stop == Some(Fatal(MessagingSchemaFailed)) <==>
              (IsNullOrWhiteSpace(adminDatabase) || env.jobStoreSchemaOk)
              && !IsNullOrWhiteSpace(adminMessaging) && !env.messagingSchemaOk
    ensures stop == Some(Fatal(DatabaseNotConfigured)) <==>
              BootstrapsOk(adminDatabase, adminMessaging, env) && !isDevelopment && IsNullOrWhiteSpace(config.database)
    ensures stop == Some(Fatal(MessagingNotConfigured)) <==>
              BootstrapsOk(adminDatabase, adminMessaging, env) && !isDevelopment
              && !IsNullOrWhiteSpace(config.database) && IsNullOrWhiteSpace(config.messaging)
    ensures stop == Some(InitOnlyExit) <==>
              BootstrapsOk(adminDatabase, adminMessaging, env) && ConfigComplete(isDevelopment, config) && IsInitOnly(args)
    ensures stop.None? <==>
              BootstrapsOk(adminDatabase, adminMessaging, env) && ConfigComplete(isDevelopment, config) && !IsInitOnly(args)
    ensures stop.Some? ==> stop.value.InitOnlyExit? || stop.value.Fatal?
    ensures stop != Some(Fatal(RegistrationFailed))
  {
    adminDatabase := config.adminDatabase;
    adminMessaging := config.adminMessaging;
    // In development the primary strings are assumed to have admin rights.
    if isDevelopment && IsNullOrWhiteSpace(adminDatabase) {
      adminDatabase := config.database;
    }
    if isDevelopment && IsNullOrWhiteSpace(adminMessaging) {
      adminMessaging := config.messaging;
    }
    var failure;
    bootstraps, failure := RunBootstraps(adminDatabase, adminMessaging, env);
    if failure.Some? {
      return adminDatabase, adminMessaging, bootstraps, Some(Fatal(failure.value));
    }
    var configFailure := ConfigFailure(isDevelopment, config);
    if configFailure.Some? {
      return adminDatabase, adminMessaging, bootstraps, Some(Fatal(configFailure.value));
    }
    if IsInitOnly(args) {
      return adminDatabase, adminMessaging, bootstraps, Some(InitOnlyExit);
    }
    stop := None;
  }

  /** The top-level statements of the scheduler's `Program.cs`, from reading
      the connection strings to `app.Run()`. */
  method Startup(config: ConnectionConfig, isDevelopment: bool, args: seq<string>, env: Collaborators)
    returns (r: StartupRecord)
    // Admin strings: the primary one stands in, in development only, for a missing admin one.
    ensures !isDevelopment || !IsNullOrWhiteSpace(config.adminDatabase) ==> r.adminDatabase == config.adminDatabase
    ensures isDevelopment && IsNullOrWhiteSpace(config.adminDatabase) ==> r.adminDatabase == config.database
    ensures !isDevelopment || !IsNullOrWhiteSpace(config.adminMessaging) ==> r.adminMessaging == config.adminMessaging
    ensures isDevelopment && IsNullOrWhiteSpace(config.adminMessaging) ==> r.adminMessaging == config.messaging
    // Bootstraps: each one exactly when its resolved admin string is usable, with that string,
    // the job store's first; a failing job-store bootstrap stops startup before the other.
    ensures InStageOrder(r.effects)
    ensures !IsNullOrWhiteSpace(r.adminDatabase) <==> r.adminDatabase.Some? && CreateJobStoreSchema(r.adminDatabase.value) in r.effects
    ensures forall i :: 0 <= i < |r.effects| && r.effects[i].CreateJobStoreSchema? ==> r.adminDatabase == Some(r.effects[i].adminConnection)
    ensures (!IsNullOrWhiteSpace(r.adminMessaging) && (IsNullOrWhiteSpace(r.adminDatabase) || env.jobStoreSchemaOk))
            <==> r.adminMessaging.Some? && MigrateMessagingSchema(r.adminMessaging.value) in r.effects
    ensures forall i :: 0 <= i < |r.effects| && r.effects[i].MigrateMessagingSchema? ==> r.adminMessaging == Some(r.effects[i].adminConnection)
    ensures r.outcome == Fatal(JobStoreSchemaFailed) <==> !IsNullOrWhiteSpace(r.adminDatabase) && !env.jobStoreSchemaOk
    ensures r.outcome == Fatal(MessagingSchemaFailed) <==>
              (IsNullOrWhiteSpace(r.adminDatabase) || env.jobStoreSchemaOk)
              && !IsNullOrWhiteSpace(r.adminMessaging) && !env.messagingSchemaOk
    // The configuration check comes after the bootstraps: the database string first, then the messaging one;
    // development never fails it.
    ensures r.outcome == Fatal(DatabaseNotConfigured) <==>
              BootstrapsOk(r.adminDatabase, r.adminMessaging, env) && !isDevelopment && IsNullOrWhiteSpace(config.database)
    ensures r.outcome == Fatal(MessagingNotConfigured) <==>
              BootstrapsOk(r.adminDatabase, r.adminMessaging, env) && !isDevelopment
              && !IsNullOrWhiteSpace(config.database) && IsNullOrWhiteSpace(config.messaging)
    ensures isDevelopment ==> r.outcome != Fatal(DatabaseNotConfigured) && r.outcome != Fatal(MessagingNotConfigured)
    // `initonly` exits after the configuration check, before any backend or schedule is set up.
    ensures r.outcome == InitOnlyExit <==>
              BootstrapsOk(r.adminDatabase, r.adminMessaging, env) && ConfigComplete(isDevelopment, config) && IsInitOnly(args)
    ensures |args| == 0 ==> r.outcome != InitOnlyExit
    // Backends are chosen, and the catalog registered, exactly when startup gets past all of that.
    ensures var configured := BootstrapsOk(r.adminDatabase, r.adminMessaging, env)
                              && ConfigComplete(isDevelopment, config) && !IsInitOnly(args);
            (r.jobStore.Some? <==> configured) && (r.transport.Some? <==> configured)
            && (r.outcome == Serving <==> configured && env.registrationsOk)
            && (r.outcome == Fatal(RegistrationFailed) <==> configured && !env.registrationsOk)
    ensures r.jobStore.Some? ==> RegistersExactly(r.effects, Catalog())
    ensures r.jobStore.None? ==> forall i :: 0 <= i < |r.effects| ==> Stage(r.effects[i]) <= 1
    ensures r.jobStore.Some? ==> UseJobStore(r.jobStore.value) in r.effects
    ensures r.transport.Some? ==> UseTransport(r.transport.value) in r.effects
    // The job store is in memory exactly without a primary database string; otherwise Postgres on that string.
    ensures r.jobStore.Some? ==> (r.jobStore.value.InMemoryStore? <==> IsNullOrWhiteSpace(config.database))
    ensures r.jobStore.Some? && r.jobStore.value.PostgresStore? ==> config.database == Some(r.jobStore.value.connectionString)
    // Likewise the transport, on the primary messaging string.
    ensures r.transport.Some? ==> (r.transport.value.InMemoryTransport? <==> IsNullOrWhiteSpace(config.messaging))
    ensures r.transport.Some? && r.transport.value.PostgresTransport? ==> config.messaging == Some(r.transport.value.connectionString)
    // Serving is the last step, and only a serving start takes it.
    ensures Serve in r.effects <==> r.outcome == Serving
    ensures r.outcome == Serving ==> r.effects[|r.effects| - 1] == Serve
  {
    var adminDatabase, adminMessaging, bootstraps, stop := Prepare(config, isDevelopment, args, env);
    if stop.Some? {
      return StartupRecord(adminDatabase, adminMessaging, bootstraps, stop.value, None, None);
    }
    var rest, jobStore, transport, outcome := ConfigureAndServe(config, env);
    StageOrderConcat(bootstraps, rest, 2);
    BootstrapsKept(adminDatabase, adminMessaging, env, bootstraps, rest);
    RegistersExactlyAfter(bootstraps, rest, Catalog());
    r := StartupRecord(adminDatabase, adminMessaging, bootstraps + rest, outcome, Some(jobStore), Some(transport));
  }

  /** A production start with only an admin database string: the job-store
      schema is bootstrapped, and only then does the missing primary string
      stop startup, even when `initonly` is asked for. */
  method AdminOnlyProductionStart(admin: string) returns (r: StartupRecord)
    requires !IsNullOrWhiteSpace(Some(admin))
    ensures CreateJobStoreSchema(admin) in r.effects
    ensures forall i :: 0 <= i < |r.effects| ==> r.effects[i] == CreateJobStoreSchema(admin)
    ensures r.outcome == Fatal(DatabaseNotConfigured)
  {
    var config := ConnectionConfig(None, Some(admin), None, None);
    r := Startup(config, false, ["INITONLY"], Collaborators(true, true, true));
  }

  /** A development start with no connection strings at all: no bootstrap,
      both backends in memory, and the catalog registered before serving. */
  method BareDevelopmentStart() returns (r: StartupRecord)
    ensures r.outcome == Serving
    ensures r.jobStore == Some(InMemoryStore) && r.transport == Some(InMemoryTransport)
    ensures forall i :: 0 <= i < |r.effects| ==> Stage(r.effects[i]) >= 2
    ensures RegistersExactly(r.effects, Catalog()) && r.effects != [] && r.effects[|r.effects| - 1] == Serve
  {
    r := Startup(ConnectionConfig(None, None, None, None), true, [], Collaborators(true, true, true));
  }
}
