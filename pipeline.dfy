/**
 * `WorkerThread.run` (gui.py): one upload run. It logs in, builds the
 * database connection from the saved configuration, tests it, checks the
 * table, fetches and validates the rows, uploads them and records the
 * outcome in the upload history. Everything the run reads from outside
 * (the configuration file, the server answers, the database) is an input.
 */
module Pipeline {
  import opened PyText
  import opened Dates
  import opened Values
  import opened Validator
  import opened DbUtils
  import opened RetailApi
  import opened History

  /**
   * The `api` and `database` entries of `config.json`, and its
   * `table_mapping` as `get_retail_data` reads it. `dbKeys` are the keys of
   * the `database` entry; the other `db` fields are their values.
   */
  datatype RunConfig = RunConfig(
    url: string, username: string, password: string,
    dbKeys: set<string>, host: string, user: string, dbPassword: string, database: string, port: int,
    mapping: ConfigFile)

  /**
   * What a run meets: the configuration (None when `config.json` cannot be
   * read or lacks an `api` key), the login and upload answers, the result of
   * `test_connection`, and the database server.
   */
  datatype Environment = Environment(
    config: Option<RunConfig>, login: LoginReply, testConnection: bool, server: Server, upload: UploadReply)

  /** The exception that ends a run in the `except` branch. */
  datatype RunError =
    | ConfigUnavailable
    | DbArgumentsRejected
    | Database(exc: DbUtils.Exc)
    | ValidationRaised
    | ResultHasNoGet
    | ContentBroken(fault: ContentFault)

  /** What `finished_signal` reports. */
  datatype RunOutcome =
    | LoginFailed
    | DbConnectFailed
    | TableMissing
    | ValidationFailed(failures: seq<Failure>)
    | NoData
    | Uploaded(count: nat, content: Json)
    | UploadFailed(count: nat, result: Json)
    | Crashed(error: RunError)

  /** The message and error detail of a history entry: a literal, or the `str()` of a value or exception. */
  datatype Detail = NoDetail | Text(s: string) | Shown(json: Json) | ShownError(error: RunError)

  const Succeeded := "成功"
  const FailedStatus := "失败"

  /** `DatabaseConnection(**config['database'])`: the four named parameters must be given, and nothing but them and `port`. */
  predicate DbArgsAccepted(keys: set<string>) {
    {"host", "user", "password", "database"} <= keys <= {"host", "user", "password", "database", "port"}
  }

  /** The run, stage by stage, as a function of what it meets. */
  function RunOutcomeOf(env: Environment): RunOutcome
    requires WellFormedServer(env.server)
  {
    if env.config.None? then Crashed(ConfigUnavailable)
    else
      var c := env.config.value;
      if !LoginAccepted(env.login) then LoginFailed
      else if !DbArgsAccepted(c.dbKeys) then Crashed(DbArgumentsRejected)
      else if !env.testConnection then DbConnectFailed
      else match TableCheckOutcome(false, env.server)
        case ProbeRaised(e) => Crashed(Database(e))
        case Found(present) =>
          if !present then TableMissing
          else match RetailDataOutcome(true, c.mapping, env.server)
            case Raised(e) => Crashed(Database(e))
            case Rows(data) => AfterFetch(data, env.upload)
  }

  /** The stages after the rows are fetched: validation, the emptiness check, the upload and its verdict. */
  function AfterFetch(data: seq<Record>, upload: UploadReply): RunOutcome {
    match BatchOutcome(data)
    case BatchRaised => Crashed(ValidationRaised)
    case Failures(failed) =>
      if failed != [] then ValidationFailed(failed)
      else if data == [] then NoData
      else
        var result := PostedResult(data, upload);
        match UploadVerdict(result)
        case GetRaises => Crashed(ResultHasNoGet)
        case Rejected => UploadFailed(|data|, result)
        case Accepted =>
          match ContentFaultOf(result.fields)
          case Some(f) => Crashed(ContentBroken(f))
          case None => Uploaded(|data|, ContentOf(result.fields))
  }

  /** The history entry a run records: (status, data_count, message, error_detail), or none. */
  datatype EntryData = EntryData(status: string, dataCount: nat, message: Detail, errorDetail: Detail)

  function EntryFor(outcome: RunOutcome): Option<EntryData> {
    match outcome
    case Uploaded(n, content) => Some(EntryData(Succeeded, n, Shown(content), NoDetail))
    case UploadFailed(n, result) => Some(EntryData(FailedStatus, n, Text("上报失败"), Shown(result)))
    case Crashed(e) => Some(EntryData(FailedStatus, 0, Text("执行出错"), ShownError(e)))
    case _ => None
  }

  predicate EarlyExit(outcome: RunOutcome) {
    outcome.LoginFailed? || outcome.DbConnectFailed? || outcome.TableMissing? || outcome.ValidationFailed? || outcome.NoData?
  }

  /** A run records exactly one history entry, except that the five early exits record none. */
  lemma OneEntryUnlessEarlyExit(outcome: RunOutcome)
    ensures EntryFor(outcome).None? <==> EarlyExit(outcome)
    ensures outcome.Crashed? ==> EntryFor(outcome).value.dataCount == 0 && EntryFor(outcome).value.status == FailedStatus
    ensures outcome.UploadFailed? ==> EntryFor(outcome).value.errorDetail == Shown(outcome.result)
  {
  }

  /** Fetched rows of the run that reaches the upload stage. */
  predicate ReachesFetch(env: Environment, data: seq<Record>)
    requires WellFormedServer(env.server)
  {
    && env.config.Some? && LoginAccepted(env.login) && DbArgsAccepted(env.config.value.dbKeys) && env.testConnection
    && TableCheckOutcome(false, env.server) == Found(true)
    && RetailDataOutcome(true, env.config.value.mapping, env.server) == Rows(data)
  }

  /**
   * Validation runs before the emptiness check: a run that reports no data
   * fetched an empty list, and a run that uploads fetched rows that all
   * passed validation, after a successful login and table check.
   */
  lemma {:induction false} StagesRunInOrder(env: Environment)
    requires WellFormedServer(env.server)
    ensures RunOutcomeOf(env).NoData? || RunOutcomeOf(env).Uploaded? || RunOutcomeOf(env).UploadFailed? ==>
              exists data :: ReachesFetch(env, data) && FailuresOf(data) == [] && !SomeRecordRaises(data)
                             && (RunOutcomeOf(env).NoData? <==> data == [])
  {
    var o := RunOutcomeOf(env);
    if o.NoData? || o.Uploaded? || o.UploadFailed? {
      var data := RetailDataOutcome(true, env.config.value.mapping, env.server).rows;
      assert ReachesFetch(env, data);
      assert o == AfterFetch(data, env.upload);
    }
  }

  /** A success is recorded only for an answer that is a dict whose code is 200, with the number of rows fetched. */
  lemma SuccessNeedsCode200(data: seq<Record>, upload: UploadReply)
    requires AfterFetch(data, upload).Uploaded?
    ensures JsonSerialisable(data)
    ensures var r := UploadResult(upload);
            r.JObj? && Is200(Get(r.fields, "code")) && AfterFetch(data, upload).count == |data| > 0
  {
  }

  /**
   * Rows that pass validation but hold a value `json.dumps` cannot write are
   * never posted: the run records an upload failure with None, whatever the
   * server would answer.
   */
  lemma UnserialisableRowsFail(data: seq<Record>, upload: UploadReply)
    requires FailuresOf(data) == [] && !SomeRecordRaises(data) && data != []
    requires !JsonSerialisable(data)
    ensures AfterFetch(data, upload) == UploadFailed(|data|, JNull)
  {
    CleanBatch(data);
    UnserialisableAfterCleanBatch(data, upload);
  }

  /** A batch with no failure and no raising record validates to an empty failure list. */
  lemma CleanBatch(data: seq<Record>)
    requires FailuresOf(data) == [] && !SomeRecordRaises(data)
    ensures BatchOutcome(data) == Failures([])
  {
  }

  /** The upload stage of a validated, non-empty batch that cannot be serialised. */
  lemma UnserialisableAfterCleanBatch(data: seq<Record>, upload: UploadReply)
    requires BatchOutcome(data) == Failures([]) && data != [] && !JsonSerialisable(data)
    ensures AfterFetch(data, upload) == UploadFailed(|data|, JNull)
  {
  }

  /**
   * Of the values the database driver returns, processing turns datetimes
   * into text and Decimals into floats, so the fetched rows can be
   * serialised exactly when no column holds a `datetime.date` or one of the
   * driver's other values (a timedelta, bytes, a set), which pass through.
   */
  lemma FetchedRowsSerialisable(rows: seq<Record>)
    requires forall i :: 0 <= i < |rows| ==> WellFormedRecord(rows[i])
    ensures JsonSerialisable(NormalizeRows(rows)) <==>
              forall i, k :: 0 <= i < |rows| && k in rows[i] ==> !rows[i][k].VDate? && !rows[i][k].VOpaque?
  {
    var n := NormalizeRows(rows);
    forall i, k | 0 <= i < |rows| && k in rows[i]
      ensures JsonWritable(n[i][k]) <==> !rows[i][k].VDate? && !rows[i][k].VOpaque?
    {
      assert n[i] == NormalizeRow(rows[i]);
    }
  }

  /** The save button writes a `type` key into the database entry, so after a login every such run crashes. */
  lemma SavedConfigurationCrashes(env: Environment)
    requires WellFormedServer(env.server)
    requires env.config.Some? && "type" in env.config.value.dbKeys && LoginAccepted(env.login)
    ensures RunOutcomeOf(env) == Crashed(DbArgumentsRejected)
    ensures EntryFor(RunOutcomeOf(env)) == Some(EntryData(FailedStatus, 0, Text("执行出错"), ShownError(DbArgumentsRejected)))
  {
  }

  /** When the mapping has no fields, a run that gets past the table check crashes instead of uploading. */
  lemma EmptyMappingCrashes(env: Environment)
    requires WellFormedServer(env.server)
    requires env.config.Some? && env.config.value.mapping.Loaded? && env.config.value.mapping.fields == []
    requires LoginAccepted(env.login) && DbArgsAccepted(env.config.value.dbKeys) && env.testConnection
    requires TableCheckOutcome(false, env.server) == Found(true)
    ensures RunOutcomeOf(env) == Crashed(Database(UnboundLocalError))
  {
  }

  /** The after-login authorization holds a bearer token, so the upload is never refused for want of one. */
  lemma GrantedTokenIsPresent(reply: LoginReply)
    requires LoginAccepted(reply)
    ensures HasToken(TokenAfterLogin(None, reply))
  {
    assert GrantedToken(reply)[0] == 'B';
  }

  /** `WorkerThread.run` */
  method Run(env: Environment, history: HistoryFile<Detail>, day: Date, seconds: nat) returns (outcome: RunOutcome)
    requires WellFormedServer(env.server) && ValidDate(day) && seconds < 86400
    modifies history
    ensures outcome == RunOutcomeOf(env)
    ensures EntryFor(outcome).None? ==> history.state == old(history.state)
    ensures EntryFor(outcome).Some? ==>
              var e := EntryFor(outcome).value;
              history.state == AfterSave(old(history.state),
                Entry(TimestampText(day, seconds), e.status, e.dataCount, e.message, e.errorDetail, InterfaceSource), history.writable)
  {
    outcome := Stages(env);
    var entry := EntryFor(outcome);
    if entry.Some? {
      var e := entry.value;
      history.Save(e.status, e.dataCount, e.message, e.errorDetail, InterfaceSource, day, seconds);
    }
  }

  /** The body of the `try` in `run`, with each exception it can raise turned into `Crashed`. */
  method Stages(env: Environment) returns (outcome: RunOutcome)
    requires WellFormedServer(env.server)
    ensures outcome == RunOutcomeOf(env)
  {
    if env.config.None? {
      return Crashed(ConfigUnavailable);
    }
    var config := env.config.value;
    var api := new RetailAPI(config.url);
    var loggedIn := api.Login(config.username, config.password, env.login);
    if !loggedIn {
      return LoginFailed;
    }
    if !DbArgsAccepted(config.dbKeys) {
      return Crashed(DbArgumentsRejected);
    }
    var port := if "port" in config.dbKeys then config.port else 3306;
    var db := new DatabaseConnection(config.host, config.user, config.dbPassword, config.database, port);
    if !env.testConnection {
      return DbConnectFailed;
    }
    var tableExists := db.CheckTableExists(env.server);
    if tableExists.ProbeRaised? {
      return Crashed(Database(tableExists.exc));
    }
    if !tableExists.present {
      return TableMissing;
    }
    var fetched := db.GetRetailData(config.mapping, env.server);
    if fetched.Raised? {
      return Crashed(Database(fetched.exc));
    }
    var data := fetched.rows;
    var failedRecords := ValidateBatch(data);
    if failedRecords.BatchRaised? {
      return Crashed(ValidationRaised);
    }
    if failedRecords.items != [] {
      return ValidationFailed(failedRecords.items);
    }
    if data == [] {
      return NoData;
    }
    GrantedTokenIsPresent(env.login);
    var result := api.Upload(data, env.upload);
    var verdict := UploadVerdict(result);
    if verdict == GetRaises {
      return Crashed(ResultHasNoGet);
    }
    if verdict == Accepted {
      var fault := ContentFaultOf(result.fields);
      if fault.Some? {
        return Crashed(ContentBroken(fault.value));
      }
      return Uploaded(|data|, ContentOf(result.fields));
    }
    outcome := UploadFailed(|data|, result);
  }
}
