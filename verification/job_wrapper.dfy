/**
 * The wrapper that runs one job taken from the Redis work queue: the rule
 * that turns off the backend's retries, the mapping from the job body's
 * outcome to the job status and to the value handed back to the queue,
 * and the guard on jobs launching sub-jobs.
 */
module JobWrapper {
  import opened Wrappers
  import opened JobModels

  /** The backend pool's own default when a job declares MaxFails 0. */
  const DefaultMaxFails: nat := 4

  /** Fails is set this high so that the backend never retries the job again. */
  const NoMoreRetries: int := 10000000000

  function EffectiveMaxFails(maxFails: nat): (m: nat)
    ensures m > 0
    ensures maxFails > 0 ==> m == maxFails
  {
    if maxFails == 0 then DefaultMaxFails else maxFails
  }

  /**
   * shouldDisableRetry: `fails` is the count already recorded by the
   * backend; the failure being handled is counted on top of it.
   */
  function ShouldDisableRetry(maxFails: nat, fails: int, shouldRetry: bool, cancelled: bool): (r: bool)
    ensures r ==> fails + 1 < EffectiveMaxFails(maxFails)
    ensures fails + 1 < EffectiveMaxFails(maxFails) && (cancelled || !shouldRetry) ==> r
    ensures r && !cancelled ==> !shouldRetry
  {
    var limit := if maxFails == 0 then 4 else maxFails;
    var failsNow := fails + 1;
    if cancelled && failsNow < limit then true
    else if !cancelled && failsNow < limit && !shouldRetry then true
    else false
  }

  /** Once retry is turned off after some number of failures, it is also turned off after fewer. */
  lemma DisableRetryMonotone(maxFails: nat, fails: int, fewer: int, shouldRetry: bool, cancelled: bool)
    requires fewer <= fails
    requires ShouldDisableRetry(maxFails, fails, shouldRetry, cancelled)
    ensures ShouldDisableRetry(maxFails, fewer, shouldRetry, cancelled)
  {
  }

  /** What the job body did when it ran. */
  datatype BodyOutcome = BodySucceeded | BodyStopped | BodyCancelled | BodyFailed | BodyPanicked

  /** The error values Run can return to the work queue. */
  datatype RunError = BuildContextFailed | JobStoppedError | JobCancelledError | JobError | RuntimeError

  /**
   * The effects of one Run: the statuses written, in order, the value
   * returned to the queue (None for nil), whether Fails was raised and
   * DieAt scheduled so that the job is not retried, and whether the
   * de-duplicator was asked to delete the job's unique signature.
   */
  datatype RunResult = RunResult(statuses: seq<JobStatus>, returned: Option<RunError>, retryDisabled: bool,
                                 uniqueSignDeleted: bool)

  /** The final status written for each outcome of the body. */
  function FinalStatus(body: BodyOutcome): JobStatus {
    match body
      case BodySucceeded => Success
      case BodyStopped => Stopped
      case BodyCancelled => Cancelled
      case BodyFailed => Error
      case BodyPanicked => Error
  }

  /**
   * RedisJob.Run as written. Its result is unnamed, so when the deferred
   * recover turns a panic into an error, the function still returns nil.
   * `unique` is the job's Unique flag.
   */
  method RunAsWritten(buildOk: bool, unique: bool, body: BodyOutcome, maxFails: nat, shouldRetry: bool, fails: int)
    returns (res: RunResult)
    ensures !buildOk ==> res == RunResult([Error], Some(BuildContextFailed), true, false)
    ensures res.uniqueSignDeleted <==> buildOk && unique
    ensures buildOk ==> res.statuses == [Running, FinalStatus(body)]
    ensures buildOk ==> res.returned == match body
      case BodySucceeded => None
      case BodyStopped => None
      case BodyCancelled => Some(JobCancelledError)
      case BodyFailed => Some(JobError)
      case BodyPanicked => None
    ensures buildOk ==> (res.retryDisabled <==>
      body != BodySucceeded && ShouldDisableRetry(maxFails, fails, shouldRetry, body == BodyCancelled))
  {
    var cancelled := false;
    var buildContextFailed := false;
    // `err` is the local error the deferred functions read; `returned` is
    // the function's result.
    var err: Option<RunError> := None;
    var returned: Option<RunError> := None;
    var statuses: seq<JobStatus> := [];
    var signDeleted := false;
    if !buildOk {
      err := Some(BuildContextFailed);
      buildContextFailed := true;
      statuses := statuses + [Error];
      returned := err;
    } else {
      // the deferred DelUniqueSign, registered once the context is built,
      // runs on every way out, a panic included
      signDeleted := unique;
      statuses := statuses + [Running];
      match body {
        case BodySucceeded =>
          statuses := statuses + [Success];
          returned := None;
        case BodyStopped =>
          err := Some(JobStoppedError);
          statuses := statuses + [Stopped];
          returned := None;
        case BodyCancelled =>
          err := Some(JobCancelledError);
          statuses := statuses + [Cancelled];
          cancelled := true;
          returned := err;
        case BodyFailed =>
          err := Some(JobError);
          statuses := statuses + [Error];
          returned := err;
        case BodyPanicked =>
          // the deferred recover: the local error is set, the status
          // becomes Error, and the unnamed result keeps its zero value
          err := Some(RuntimeError);
          statuses := statuses + [Error];
          returned := None;
      }
    }
    // the first deferred function runs last
    var disabled := false;
    if err.Some? {
      if buildContextFailed || ShouldDisableRetry(maxFails, fails, shouldRetry, cancelled) {
        disabled := true;
      }
    }
    res := RunResult(statuses, returned, disabled, signDeleted);
  }

  /** A panic in the body reaches the queue as success, although the job is recorded as failed. */
  method RunAsWrittenHidesPanic(unique: bool, maxFails: nat, shouldRetry: bool, fails: int) returns (res: RunResult)
    ensures res.statuses == [Running, Error] && res.returned.None?
  {
    res := RunAsWritten(true, unique, BodyPanicked, maxFails, shouldRetry, fails);
  }

  /** RedisJob.Run returning the recovered runtime error, as the recover block intends. */
  method Run(buildOk: bool, unique: bool, body: BodyOutcome, maxFails: nat, shouldRetry: bool, fails: int)
    returns (res: RunResult)
    ensures !buildOk ==> res == RunResult([Error], Some(BuildContextFailed), true, false)
    ensures res.uniqueSignDeleted <==> buildOk && unique
    ensures buildOk ==> |res.statuses| == 2 && res.statuses[0] == Running
    ensures res.statuses[|res.statuses| - 1] == FinalStatus(body) || !buildOk
    ensures res.returned.None? <==> buildOk && (body == BodySucceeded || body == BodyStopped)
    ensures res.statuses[|res.statuses| - 1] == Error <==> res.returned.Some? && res.returned != Some(JobCancelledError)
    ensures buildOk && body == BodyPanicked ==> res.returned == Some(RuntimeError)
    ensures buildOk ==> (res.retryDisabled <==>
      body != BodySucceeded && ShouldDisableRetry(maxFails, fails, shouldRetry, body == BodyCancelled))
  {
    res := RunAsWritten(buildOk, unique, body, maxFails, shouldRetry, fails);
    if buildOk && body == BodyPanicked {
      res := res.(returned := Some(RuntimeError));
    }
  }

  // ---- launching sub-jobs from inside a running job ----

  datatype LaunchError = NoLaunchFunc | InfiniteLoop | LaunchFailed

  /** Bookkeeping the stats manager records for a launched sub-job. */
  datatype SubJobCall =
    | MarkMultipleExecutions(jobID: string)
    | SetUpstreamJob(subJobID: string, upstreamID: string)
    | AttachExecution(jobID: string, subJobID: string)

  /**
   * The launch function given to a running job. `requested` is the name of
   * the requested job (None for a request with no job), `launch` the
   * controller's answer.
   */
  function LaunchSubJob(runningID: string, runningName: string, funcProvided: bool,
                        requested: Option<string>, launch: Option<JobStatData>)
    : (r: (Result<JobStatData, LaunchError>, seq<SubJobCall>))
    ensures r.0.Ok? ==> funcProvided && launch.Some? && r.0.value == launch.value
    ensures r.0.Ok? ==> (if requested.Some? then requested.value else "") != runningName
    ensures funcProvided && requested == Some(runningName) ==> r.0 == Err(InfiniteLoop)
    ensures r.1 != [] <==> r.0.Ok?
    ensures r.0.Ok? ==> r.1 == [MarkMultipleExecutions(runningID),
                                SetUpstreamJob(launch.value.jobID, runningID),
                                AttachExecution(runningID, launch.value.jobID)]
  {
    if !funcProvided then (Err(NoLaunchFunc), [])
    else
      var jobName := if requested.Some? then requested.value else "";
      if runningName == jobName then (Err(InfiniteLoop), [])
      else match launch
        case None => (Err(LaunchFailed), [])
        case Some(st) =>
          (Ok(st), [MarkMultipleExecutions(runningID), SetUpstreamJob(st.jobID, runningID), AttachExecution(runningID, st.jobID)])
  }
}
