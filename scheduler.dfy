/**
 * The scheduled job (scheduler.py) and the script it runs (main.py): `main`
 * logs in, posts one sample record and prints the answer; `job` runs it and
 * counts the run as a success when it returns and as a failure when it
 * raises. The clock, the server's answers and the sample record are inputs.
 */
module Scheduler {
  import opened PyText
  import opened Values
  import opened RetailApi
  import Pipeline

  /** Why `main` raises: an answer with no `get`, or a content list it cannot read. */
  datatype MainError = ResultHasNoGet | ContentUnreadable(fault: ContentFault)

  /** How a call of `main` ends. */
  datatype MainOutcome = MainReturned | MainRaised(error: MainError)

  /** What `job` hands to `record_failure`: the failure message around the exception. */
  datatype JobError = JobFailed(cause: MainError)

  /** `main`, stage by stage, as a function of the posted sample and the two answers. */
  function MainOutcomeOf(login: LoginReply, sample: Record, upload: UploadReply): MainOutcome {
    if !LoginAccepted(login) then MainReturned
    else
      var result := PostedResult([sample], upload);
      match UploadVerdict(result)
      case GetRaises => MainRaised(ResultHasNoGet)
      case Rejected => MainReturned
      case Accepted =>
        match ContentFaultOf(result.fields)
        case Some(f) => MainRaised(ContentUnreadable(f))
        case None => MainReturned
  }

  /** A failed login, and an answer without code 200, print a message and return: neither raises. */
  lemma FailuresReturnNormally(login: LoginReply, sample: Record, upload: UploadReply)
    ensures !LoginAccepted(login) ==> MainOutcomeOf(login, sample, upload) == MainReturned
    ensures UploadVerdict(PostedResult([sample], upload)) == Rejected ==> MainOutcomeOf(login, sample, upload) == MainReturned
    ensures upload.UploadTransportError? || (upload.UploadHttp? && upload.status != 200) ==> MainOutcomeOf(login, sample, upload) == MainReturned
    ensures !JsonSerialisable([sample]) ==> MainOutcomeOf(login, sample, upload) == MainReturned
  {
  }

  /**
   * The sample of `get_sample_data` holds only strings, ints and floats, so
   * it is serialised and the server's answer decides.
   */
  lemma PlainSamplePosted(sample: Record, upload: UploadReply)
    requires forall k :: k in sample ==> sample[k].VStr? || sample[k].VInt? || sample[k].VFloat?
    ensures PostedResult([sample], upload) == UploadResult(upload)
  {
    assert JsonSerialisable([sample]) by {
      forall i, k | 0 <= i < 1 && k in [sample][i] ensures JsonWritable([sample][i][k]) {
        assert [sample][i] == sample;
      }
    }
  }

  /** `main` raises only after an accepted login, on a truthy non-dict answer or an accepted answer whose content cannot be read. */
  lemma RaisesOnlyOnUnreadableAnswers(login: LoginReply, sample: Record, upload: UploadReply)
    ensures MainOutcomeOf(login, sample, upload).MainRaised? <==>
              LoginAccepted(login)
              && var result := PostedResult([sample], upload);
                 (JTruthy(result) && !result.JObj?)
                 || (result.JObj? && Is200(Get(result.fields, "code")) && ContentFaultOf(result.fields).Some?)
  {
  }

  /**
   * `main`: the login request, then (after an accepted login) the upload of
   * the sample record with the granted token; the result is judged as
   * `result and result.get("code") == 200`, and the loop over its content
   * reads each item's `soureId`, `code` and `msg`.
   */
  method RunMain(url: string, username: string, password: string, sample: Record, login: LoginReply, upload: UploadReply)
    returns (outcome: MainOutcome, sent: seq<Request>)
    ensures outcome == MainOutcomeOf(login, sample, upload)
    ensures var base := RStripChar(url, '/');
            var loginRequest := Request(base + LoginPath, Form(username, password), None);
            sent == if LoginAccepted(login) && JsonSerialisable([sample])
                    then [loginRequest, Request(base + UploadPath, JsonBody([sample]), Some(GrantedToken(login)))]
                    else [loginRequest]
  {
    var api := new RetailAPI(url);
    var loggedIn := api.Login(username, password, login);
    if !loggedIn {
      return MainReturned, api.sent;
    }
    Pipeline.GrantedTokenIsPresent(login);
    var result := api.Upload([sample], upload);
    sent := api.sent;
    var verdict := UploadVerdict(result);
    if verdict == GetRaises {
      return MainRaised(ResultHasNoGet), sent;
    }
    if verdict == Rejected {
      return MainReturned, sent;
    }
    var fault := ContentFaultOf(result.fields);
    if fault.Some? {
      return MainRaised(ContentUnreadable(fault.value)), sent;
    }
    outcome := MainReturned;
  }

  /** The counters and the last times and error of `TaskStats`, as a value; times are clock readings. */
  datatype Counts<E> = Counts(total: nat, success: nat, fail: nat, lastRun: Option<int>, lastSuccess: Option<int>, lastError: Option<E>)

  /** One recorded run: a success or a failure with its error, at a clock reading. */
  datatype Event<E> = Succeeded(at: int) | Failed(error: E, at: int)

  function FreshCounts<E>(): Counts<E> {
    Counts(0, 0, 0, None, None, None)
  }

  /** `record_success` on the value. */
  function AfterSuccess<E>(c: Counts<E>, now: int): Counts<E> {
    c.(total := c.total + 1, success := c.success + 1, lastRun := Some(now), lastSuccess := Some(now))
  }

  /** `record_failure` on the value. */
  function AfterFailure<E>(c: Counts<E>, error: E, now: int): Counts<E> {
    c.(total := c.total + 1, fail := c.fail + 1, lastRun := Some(now), lastError := Some(error))
  }

  function AfterEvent<E>(c: Counts<E>, e: Event<E>): Counts<E> {
    match e
    case Succeeded(now) => AfterSuccess(c, now)
    case Failed(error, now) => AfterFailure(c, error, now)
  }

  /** The counts after recording each event in turn. */
  function Replay<E>(c: Counts<E>, events: seq<Event<E>>): Counts<E> {
    if events == [] then c else AfterEvent(Replay(c, events[..|events| - 1]), events[|events| - 1])
  }

  /** How many of the events are successes. */
  function Successes<E>(events: seq<Event<E>>): (n: nat)
    ensures n <= |events|
  {
    if events == [] then 0
    else Successes(events[..|events| - 1]) + if events[|events| - 1].Succeeded? then 1 else 0
  }

  /** The invariant of the statistics: every run is a success or a failure, and the last times and error are set once there is one. */
  predicate Consistent<E>(c: Counts<E>) {
    && c.total == c.success + c.fail
    && (c.lastRun.Some? <==> c.total > 0)
    && (c.lastSuccess.Some? <==> c.success > 0)
    && (c.lastError.Some? <==> c.fail > 0)
  }

  /**
   * After any sequence of records the statistics stay consistent, the total
   * is the number of records, the successes are counted exactly, and the last
   * run time is the time of the last record.
   */
  lemma {:induction false} ReplayConsistent<E>(c: Counts<E>, events: seq<Event<E>>)
    requires Consistent(c)
    ensures var r := Replay(c, events);
            && Consistent(r)
            && r.total == c.total + |events|
            && r.success == c.success + Successes(events)
            && r.fail == c.fail + |events| - Successes(events)
            && (events != [] ==> r.lastRun == Some(events[|events| - 1].at))
  {
    if events != [] {
      ReplayConsistent(c, events[..|events| - 1]);
    }
  }

  /** A failure keeps the last success time; a success keeps the last error. */
  lemma RecordsKeepTheOtherSide<E>(c: Counts<E>, error: E, now: int)
    ensures AfterFailure(c, error, now).lastSuccess == c.lastSuccess && AfterFailure(c, error, now).success == c.success
    ensures AfterSuccess(c, now).lastError == c.lastError && AfterSuccess(c, now).fail == c.fail
  {
  }

  /** `TaskStats` */
  class TaskStats<E> {
    var totalRuns: nat
    var successRuns: nat
    var failRuns: nat
    var lastRunTime: Option<int>
    var lastSuccessTime: Option<int>
    var lastError: Option<E>

    function Snapshot(): Counts<E>
      reads this
    {
      Counts(totalRuns, successRuns, failRuns, lastRunTime, lastSuccessTime, lastError)
    }

    /** `__init__`: every counter 0, no times and no error. */
    constructor()
      ensures Snapshot() == FreshCounts() && Consistent(Snapshot())
    {
      totalRuns := 0;
      successRuns := 0;
      failRuns := 0;
      lastRunTime := None;
      lastSuccessTime := None;
      lastError := None;
    }

    /** `record_success`: one more run and one more success, both times set to now. */
    method RecordSuccess(now: int)
      modifies this
      ensures Snapshot() == AfterSuccess(old(Snapshot()), now)
      ensures Consistent(old(Snapshot())) ==> Consistent(Snapshot())
    {
      totalRuns := totalRuns + 1;
      successRuns := successRuns + 1;
      lastRunTime := Some(now);
      lastSuccessTime := lastRunTime;
    }

    /** `record_failure`: one more run and one more failure, the last run time set to now and the error kept. */
    method RecordFailure(error: E, now: int)
      modifies this
      ensures Snapshot() == AfterFailure(old(Snapshot()), error, now)
      ensures Consistent(old(Snapshot())) ==> Consistent(Snapshot())
    {
      totalRuns := totalRuns + 1;
      failRuns := failRuns + 1;
      lastRunTime := Some(now);
      lastError := Some(error);
    }
  }

  /** `job`: runs `main` and records exactly one outcome, a success if it returns and a failure if it raises. */
  method Job(stats: TaskStats<JobError>, url: string, username: string, password: string, sample: Record,
             login: LoginReply, upload: UploadReply, now: int)
    returns (outcome: MainOutcome)
    modifies stats
    ensures outcome == MainOutcomeOf(login, sample, upload)
    ensures outcome.MainReturned? ==> stats.Snapshot() == AfterSuccess(old(stats.Snapshot()), now)
    ensures outcome.MainRaised? ==> stats.Snapshot() == AfterFailure(old(stats.Snapshot()), JobFailed(outcome.error), now)
    ensures stats.Snapshot().total == old(stats.Snapshot()).total + 1
  {
    var sent;
    outcome, sent := RunMain(url, username, password, sample, login, upload);
    if outcome.MainReturned? {
      stats.RecordSuccess(now);
    } else {
      stats.RecordFailure(JobFailed(outcome.error), now);
    }
  }
}
