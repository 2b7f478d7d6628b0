/**
 * The job service controller: validation of a launch request, dispatch of
 * a valid request to the pool by job kind, the status-hook registration
 * that follows, and the empty job ID check in front of every call keyed by
 * a job ID.
 */
module JobController {
  import opened Wrappers
  import opened GoStrings
  import opened JobModels
  import JobPool

  /** The HookStatus values written after hook registration. */
  const HookActivated: string := "activated"
  const HookDeactivated: string := "error"

  /** The metadata of a job request; `jobKind` is the parsed kind string. */
  datatype JobMetadata = JobMetadata(jobKind: JobKind, scheduleDelay: nat, cron: string, isUnique: bool)

  datatype Job = Job(name: string, parameters: map<string, string>, metadata: Option<JobMetadata>, statusHook: string)

  /** A job request; `job` is None when the request has no job. */
  datatype JobRequest = JobRequest(job: Option<Job>)

  /** The reasons validJobReq gives, in the order it checks them. */
  datatype ReqError =
    | NilJob
    | EmptyName
    | MissingMetadata
    | KindNotSupported
    | MissingScheduleDelay
    | MissingCron
    | BadCron

  /** How the error handlers of the API classify an error. */
  datatype ErrorClass = ObjectNotFound | Conflict | OtherError

  /** The errors the controller returns. */
  datatype CtlError =
    | EmptyJobIDError
    | InvalidRequest(reason: ReqError)
    | UnknownJob(name: string)
    | InvalidParameters
    | BackendError(cls: ErrorClass)

  function ClassOf(e: CtlError): (c: ErrorClass)
    ensures c != OtherError ==> e.BackendError?
  {
    if e.BackendError? then e.cls else OtherError
  }

  predicate KindSupported(k: JobKind) {
    k == KindGeneric || k == KindPeriodic || k == KindScheduled
  }

  /** What a launchable request looks like: every check of validJobReq passes. */
  predicate ValidRequest(req: JobRequest, cronParses: string -> bool) {
    req.job.Some? && !IsBlank(req.job.value.name) && req.job.value.metadata.Some?
    && KindSupported(req.job.value.metadata.value.jobKind)
    && (req.job.value.metadata.value.jobKind == KindScheduled ==> req.job.value.metadata.value.scheduleDelay != 0)
    && (req.job.value.metadata.value.jobKind == KindPeriodic ==>
          !IsBlank(req.job.value.metadata.value.cron) && cronParses(req.job.value.metadata.value.cron))
  }

  /** validJobReq; `cronParses` stands for cron.Parse succeeding. */
  function ValidJobReq(req: JobRequest, cronParses: string -> bool): (r: Option<ReqError>)
    ensures r.None? <==> ValidRequest(req, cronParses)
    ensures r == Some(NilJob) <==> req.job.None?
    ensures r == Some(EmptyName) <==> req.job.Some? && IsBlank(req.job.value.name)
    ensures r == Some(MissingMetadata) <==>
      req.job.Some? && !IsBlank(req.job.value.name) && req.job.value.metadata.None?
    ensures r == Some(KindNotSupported) ==> req.job.value.metadata.value.jobKind.KindOther?
    ensures r == Some(MissingScheduleDelay) ==> req.job.value.metadata.value.jobKind == KindScheduled
    ensures r == Some(MissingCron) || r == Some(BadCron) ==> req.job.value.metadata.value.jobKind == KindPeriodic
  {
    match req.job
      case None => Some(NilJob)
      case Some(job) =>
        if IsBlank(job.name) then Some(EmptyName)
        else match job.metadata
          case None => Some(MissingMetadata)
          case Some(md) =>
            if md.jobKind != KindGeneric && md.jobKind != KindPeriodic && md.jobKind != KindScheduled then
              Some(KindNotSupported)
            else if md.jobKind == KindScheduled && md.scheduleDelay == 0 then Some(MissingScheduleDelay)
            else if md.jobKind == KindPeriodic then
              if IsBlank(md.cron) then Some(MissingCron)
              else if !cronParses(md.cron) then Some(BadCron)
              else None
            else None
  }

  /** A call LaunchJob makes to the pool. */
  datatype LaunchCall =
    | Schedule(name: string, parameters: map<string, string>, delay: nat, isUnique: bool)
    | PeriodicallyEnqueue(name: string, parameters: map<string, string>, cron: string)
    | Enqueue(name: string, parameters: map<string, string>, isUnique: bool)
    | RegisterHook(jobID: string, hookURL: string)

  /** The pool method a job of the given kind is handed to. */
  function DispatchCall(job: Job, md: JobMetadata): LaunchCall {
    match md.jobKind
      case KindScheduled => Schedule(job.name, job.parameters, md.scheduleDelay, md.isUnique)
      case KindPeriodic => PeriodicallyEnqueue(job.name, job.parameters, md.cron)
      case _ => Enqueue(job.name, job.parameters, md.isUnique)
  }

  /**
   * The pool's answers to LaunchJob: whether the parameters validate, the
   * stats of the enqueued job or the class of the enqueue error, and
   * whether the hook is registered.
   */
  datatype LaunchAnswers = LaunchAnswers(
    paramsValid: bool,
    enqueued: Result<JobStatData, ErrorClass>,
    hookRegistered: bool)

  /** The HookStatus a launched job ends up with. */
  function HookStatusAfter(st: JobStatData, hook: string, registered: bool): (s: string) {
    if IsBlank(hook) then st.hookStatus
    else if registered then HookActivated else HookDeactivated
  }

  class Controller {
    const backendPool: JobPool.WorkerPool

    constructor (pool: JobPool.WorkerPool)
      ensures backendPool == pool
    {
      backendPool := pool;
    }

    /** LaunchJob: validate, check the job name and parameters, enqueue by kind, then register the hook. */
    method LaunchJob(req: JobRequest, cronParses: string -> bool, answers: LaunchAnswers)
      returns (res: Result<JobStats, CtlError>, calls: seq<LaunchCall>)
      ensures ValidJobReq(req, cronParses).Some? ==>
        res == Err(InvalidRequest(ValidJobReq(req, cronParses).value)) && calls == []
      ensures ValidRequest(req, cronParses) && req.job.value.name !in backendPool.knownJobs ==>
        res == Err(UnknownJob(req.job.value.name)) && calls == []
      ensures ValidRequest(req, cronParses) && req.job.value.name in backendPool.knownJobs
              && !answers.paramsValid ==>
        res == Err(InvalidParameters) && calls == []
      ensures calls != [] <==>
        ValidRequest(req, cronParses) && req.job.value.name in backendPool.knownJobs && answers.paramsValid
      ensures calls != [] ==> calls[0] == DispatchCall(req.job.value, req.job.value.metadata.value)
      ensures res.Ok? <==> calls != [] && answers.enqueued.Ok?
      ensures calls != [] && answers.enqueued.Err? ==>
        res == Err(BackendError(answers.enqueued.error)) && |calls| == 1
      ensures res.Ok? ==>
        res.value.stats == Some(answers.enqueued.value.(hookStatus :=
          HookStatusAfter(answers.enqueued.value, req.job.value.statusHook, answers.hookRegistered)))
      ensures res.Ok? ==>
        if IsBlank(req.job.value.statusHook) then |calls| == 1
        else |calls| == 2 && calls[1] == RegisterHook(answers.enqueued.value.jobID, req.job.value.statusHook)
    {
      calls := [];
      var invalid := ValidJobReq(req, cronParses);
      if invalid.Some? {
        return Err(InvalidRequest(invalid.value)), calls;
      }
      var job := req.job.value;
      var md := job.metadata.value;
      assert req.job == Some(job) && job.metadata == Some(md);
      var jobType := backendPool.IsKnownJob(job.name);
      if jobType.None? {
        return Err(UnknownJob(job.name)), calls;
      }
      if !answers.paramsValid {
        return Err(InvalidParameters), calls;
      }
      match md.jobKind {
        case KindScheduled =>
          calls := calls + [Schedule(job.name, job.parameters, md.scheduleDelay, md.isUnique)];
        case KindPeriodic =>
          calls := calls + [PeriodicallyEnqueue(job.name, job.parameters, md.cron)];
        case _ =>
          calls := calls + [Enqueue(job.name, job.parameters, md.isUnique)];
      }
      assert calls == [DispatchCall(job, md)];
      if answers.enqueued.Err? {
        return Err(BackendError(answers.enqueued.error)), calls;
      }
      var stats := answers.enqueued.value;
      if !IsBlank(job.statusHook) {
        calls := calls + [RegisterHook(stats.jobID, job.statusHook)];
        if !answers.hookRegistered {
          stats := stats.(hookStatus := HookDeactivated);
        } else {
          stats := stats.(hookStatus := HookActivated);
        }
      }
      res := Ok(JobStats(Some(stats)));
    }
  }

  /** Whether a controller call keyed by a job ID reached the pool, and what it returned. */
  datatype Guarded<T> = Guarded(consulted: bool, result: Result<T, CtlError>)

  /** The empty job ID check shared by GetJob, StopJob, CancelJob, RetryJob and GetJobLogData. */
  function CheckJobID<T>(jobID: string, poolAnswer: Result<T, ErrorClass>): (r: Guarded<T>)
    ensures r.consulted <==> !IsBlank(jobID)
    ensures !r.consulted ==> r.result == Err(EmptyJobIDError)
    ensures r.consulted ==> (r.result.Ok? <==> poolAnswer.Ok?)
    ensures r.consulted && r.result.Ok? ==> r.result.value == poolAnswer.value
    ensures r.consulted && r.result.Err? ==> r.result == Err(BackendError(poolAnswer.error))
  {
    if IsBlank(jobID) then Guarded(false, Err(EmptyJobIDError))
    else Guarded(true, if poolAnswer.Ok? then Ok(poolAnswer.value) else Err(BackendError(poolAnswer.error)))
  }

  /** GetJob; `stats` is the stats manager's answer. */
  function GetJob(jobID: string, stats: Result<JobStats, ErrorClass>): (r: Guarded<JobStats>)
    ensures r.consulted <==> !IsBlank(jobID)
    ensures r.result.Ok? <==> !IsBlank(jobID) && stats.Ok?
  {
    CheckJobID(jobID, stats)
  }

  /**
   * The class of a pool error: a failed Retrieve is a missing object when
   * the stats manager says so, and every other pool error is general.
   */
  function PoolAnswer(o: JobPool.Outcome, retrieveNotFound: bool): (r: Result<(), ErrorClass>)
    ensures r.Ok? <==> o.err.None?
    ensures r == Err(ObjectNotFound) <==> o.err == Some(JobPool.RetrieveFailed) && retrieveNotFound
  {
    match o.err
      case None => Ok(())
      case Some(e) => Err(if e == JobPool.RetrieveFailed && retrieveNotFound then ObjectNotFound else OtherError)
  }

  /** StopJob: the ID check, then the pool's stop rules. */
  function StopJob(jobID: string, b: JobPool.Backend, retrieveNotFound: bool): (r: Guarded<()>)
    ensures r.consulted <==> !IsBlank(jobID)
    ensures r.result.Ok? <==> JobPool.StopJob(jobID, b).err.None?
  {
    CheckJobID(jobID, PoolAnswer(JobPool.StopJob(jobID, b), retrieveNotFound))
  }

  /** CancelJob: the ID check, then the pool's cancel rule. */
  function CancelJob(jobID: string, b: JobPool.Backend, retrieveNotFound: bool): (r: Guarded<()>)
    ensures r.consulted <==> !IsBlank(jobID)
    ensures r.result.Ok? <==> JobPool.CancelJob(jobID, b).err.None?
  {
    CheckJobID(jobID, PoolAnswer(JobPool.CancelJob(jobID, b), retrieveNotFound))
  }

  /** RetryJob: the ID check, then the pool's retry rule. */
  function RetryJob(jobID: string, b: JobPool.Backend, retrieveNotFound: bool): (r: Guarded<()>)
    ensures r.consulted <==> !IsBlank(jobID)
    ensures r.result.Ok? <==> JobPool.RetryJob(jobID, b).err.None?
  {
    CheckJobID(jobID, PoolAnswer(JobPool.RetryJob(jobID, b), retrieveNotFound))
  }

  /** GetJobLogData; `logData` is the log backend's answer. */
  function GetJobLogData(jobID: string, logData: Result<seq<bv8>, ErrorClass>): (r: Guarded<seq<bv8>>)
    ensures r.consulted <==> !IsBlank(jobID)
    ensures r.result.Ok? ==> logData.Ok? && r.result.value == logData.value
    ensures r.result.Ok? <==> !IsBlank(jobID) && logData.Ok?
  {
    CheckJobID(jobID, logData)
  }

  /** The pool's own empty ID checks agree with the controller's: a blank ID is refused either way. */
  lemma BlankIDRefusedTwice(jobID: string, b: JobPool.Backend, retrieveNotFound: bool)
    requires IsBlank(jobID)
    ensures !StopJob(jobID, b, retrieveNotFound).consulted && JobPool.StopJob(jobID, b).err == Some(JobPool.EmptyJobID)
    ensures !CancelJob(jobID, b, retrieveNotFound).consulted && JobPool.CancelJob(jobID, b).err == Some(JobPool.EmptyJobID)
    ensures !RetryJob(jobID, b, retrieveNotFound).consulted && JobPool.RetryJob(jobID, b).err == Some(JobPool.EmptyJobID)
  {
  }
}
