/**
 * The job service's HTTP handlers (DefaultHandler): which status code and
 * which body each request gets, given the request's payload and the
 * controller's answer, and which controller call each handler makes.
 */
module JobApi {
  import opened Wrappers
  import opened GoStrings
  import opened JobController
  import opened Http

  /** The action names of a job action request (opm.CtlCommandStop, ...Cancel, ...Retry). */
  const ActionStop: string := "stop"
  const ActionCancel: string := "cancel"
  const ActionRetry: string := "retry"

  /** os.PathSeparator on the Linux hosts the service runs on. */
  const PathSeparator: char := '/'

  /** The wrappers of the errs package the handlers put around an error. */
  datatype ErrorKind =
    | MissingBackendHandler
    | ReadRequestBody
    | HandleJSONData
    | LaunchJobFailed
    | GetJobStatsFailed
    | StopJobFailed
    | CancelJobFailed
    | RetryJobFailed
    | CheckStatsFailed
    | GetJobLogFailed
    | UnknownActionName(jobID: string)

  datatype ApiError =
    | Wrapped(kind: ErrorKind, cause: Option<CtlError>)
    | Unwrapped(original: CtlError)
    | InvalidJobID(jobID: string)

  /** A response body: an error text, marshalled JSON, raw log bytes or nothing. */
  datatype Body = ErrorText(err: ApiError) | Json(json: string) | Bytes(bytes: seq<bv8>) | NoBody

  datatype Response = Response(code: int, body: Body)

  /** The controller method a handler called, if any. */
  datatype ControllerCall =
    | CallLaunch
    | CallGet(jobID: string)
    | CallStop(jobID: string)
    | CallCancel(jobID: string)
    | CallRetry(jobID: string)
    | CallCheckStatus
    | CallLogData(jobID: string)

  datatype Served = Served(resp: Response, called: Option<ControllerCall>)

  /** What reading and decoding a request body gave. */
  datatype Payload<T> = Unreadable | NotJson | Decoded(value: T)

  /** preCheck: a handler without a controller answers 500 and goes no further. */
  function PreCheckFailure(): (r: Served)
    ensures r.resp.code == StatusInternalServerError && r.called.None?
  {
    Served(Response(StatusInternalServerError, ErrorText(Wrapped(MissingBackendHandler, None))), None)
  }

  /** handleJSONData; `marshalled` is None when json.Marshal fails. */
  function JsonResponse(code: int, marshalled: Option<string>): (r: Response)
    ensures marshalled.Some? ==> r == Response(code, Json(marshalled.value))
    ensures marshalled.None? ==> r.code == StatusInternalServerError && r.body.ErrorText?
  {
    match marshalled
      case None => Response(StatusInternalServerError, ErrorText(Wrapped(HandleJSONData, None)))
      case Some(data) => Response(code, Json(data))
  }

  /** The failure answer shared by get, the actions and log: 404 with the error itself when the object is missing, else 500 wrapped. */
  function FailureResponse(kind: ErrorKind, e: CtlError): (r: Response)
    ensures r.code == StatusNotFound <==> ClassOf(e) == ObjectNotFound
    ensures r.code == StatusNotFound ==> r.body == ErrorText(Unwrapped(e))
    ensures r.code != StatusNotFound ==> r == Response(StatusInternalServerError, ErrorText(Wrapped(kind, Some(e))))
  {
    if ClassOf(e) == ObjectNotFound then Response(StatusNotFound, ErrorText(Unwrapped(e)))
    else Response(StatusInternalServerError, ErrorText(Wrapped(kind, Some(e))))
  }

  /** The answer to a body that could not be read or decoded. */
  function PayloadFailure<T>(p: Payload<T>): (r: Response)
    requires !p.Decoded?
    ensures r.code == StatusInternalServerError
  {
    if p.Unreadable? then Response(StatusInternalServerError, ErrorText(Wrapped(ReadRequestBody, None)))
    else Response(StatusInternalServerError, ErrorText(Wrapped(HandleJSONData, None)))
  }

  /** HandleLaunchJobReq. */
  function HandleLaunchJobReq(hasController: bool, payload: Payload<JobRequest>,
                              answer: Result<JobModels.JobStats, CtlError>, marshalled: Option<string>): (r: Served)
    ensures r.called.Some? <==> hasController && payload.Decoded?
    ensures r.called.Some? ==> r.called == Some(CallLaunch)
    ensures r.called.Some? && answer.Err? ==>
      (r.resp.code == StatusConflict <==> ClassOf(answer.error) == Conflict)
    ensures r.called.Some? && answer.Err? && ClassOf(answer.error) != Conflict ==>
      r.resp == Response(StatusInternalServerError, ErrorText(Wrapped(LaunchJobFailed, Some(answer.error))))
    ensures r.called.Some? && answer.Ok? && marshalled.Some? ==> r.resp == Response(StatusAccepted, Json(marshalled.value))
    ensures r.resp.code == StatusAccepted ==> r.called.Some? && answer.Ok?
  {
    if !hasController then PreCheckFailure()
    else if !payload.Decoded? then Served(PayloadFailure(payload), None)
    else
      var resp :=
        match answer
          case Err(e) =>
            if ClassOf(e) == Conflict then Response(StatusConflict, ErrorText(Unwrapped(e)))
            else Response(StatusInternalServerError, ErrorText(Wrapped(LaunchJobFailed, Some(e))))
          case Ok(_) => JsonResponse(StatusAccepted, marshalled);
      Served(resp, Some(CallLaunch))
  }

  /** HandleGetJobReq. */
  function HandleGetJobReq(hasController: bool, jobID: string, answer: Result<JobModels.JobStats, CtlError>,
                           marshalled: Option<string>): (r: Served)
    ensures r.called.Some? <==> hasController
    ensures hasController ==> r.called == Some(CallGet(jobID))
    ensures hasController && answer.Err? ==> r.resp == FailureResponse(GetJobStatsFailed, answer.error)
    ensures hasController && answer.Ok? ==> r.resp == JsonResponse(StatusOK, marshalled)
  {
    if !hasController then PreCheckFailure()
    else match answer
      case Err(e) => Served(FailureResponse(GetJobStatsFailed, e), Some(CallGet(jobID)))
      case Ok(_) => Served(JsonResponse(StatusOK, marshalled), Some(CallGet(jobID)))
  }

  /** The controller call an action name selects, if it is one of the three known actions. */
  function ActionCall(action: string, jobID: string): (c: Option<ControllerCall>)
    ensures c.Some? <==> action == ActionStop || action == ActionCancel || action == ActionRetry
    ensures action == ActionStop ==> c == Some(CallStop(jobID))
    ensures action == ActionCancel ==> c == Some(CallCancel(jobID))
    ensures action == ActionRetry ==> c == Some(CallRetry(jobID))
  {
    if action == ActionStop then Some(CallStop(jobID))
    else if action == ActionCancel then Some(CallCancel(jobID))
    else if action == ActionRetry then Some(CallRetry(jobID))
    else None
  }

  /** The wrapper each action's failure is reported under. */
  function ActionErrorKind(c: ControllerCall): ErrorKind {
    match c
      case CallStop(_) => StopJobFailed
      case CallCancel(_) => CancelJobFailed
      case _ => RetryJobFailed
  }

  /** HandleJobActionReq; `answer` is the reply of the controller method the action selects. */
  function HandleJobActionReq(hasController: bool, jobID: string, payload: Payload<string>,
                              answer: Result<(), CtlError>): (r: Served)
    ensures r.called.Some? <==> hasController && payload.Decoded? && ActionCall(payload.value, jobID).Some?
    ensures r.called.Some? ==> r.called == ActionCall(payload.value, jobID)
    ensures hasController && payload.Decoded? && ActionCall(payload.value, jobID).None? ==>
      r.resp == Response(StatusNotImplemented, ErrorText(Wrapped(UnknownActionName(jobID), None)))
    ensures r.called.Some? && answer.Ok? ==> r.resp == Response(StatusNoContent, NoBody)
    ensures r.called.Some? && answer.Err? ==> r.resp == FailureResponse(ActionErrorKind(r.called.value), answer.error)
    ensures r.resp.code == StatusNoContent <==> r.called.Some? && answer.Ok?
  {
    if !hasController then PreCheckFailure()
    else if !payload.Decoded? then Served(PayloadFailure(payload), None)
    else match ActionCall(payload.value, jobID)
      case None => Served(Response(StatusNotImplemented, ErrorText(Wrapped(UnknownActionName(jobID), None))), None)
      case Some(call) =>
        match answer
          case Err(e) => Served(FailureResponse(ActionErrorKind(call), e), Some(call))
          case Ok(_) => Served(Response(StatusNoContent, NoBody), Some(call))
  }

  /** HandleCheckStatusReq. */
  function HandleCheckStatusReq(hasController: bool, answer: Result<(), CtlError>, marshalled: Option<string>): (r: Served)
    ensures r.called.Some? <==> hasController
    ensures hasController && answer.Err? ==>
      r.resp == Response(StatusInternalServerError, ErrorText(Wrapped(CheckStatsFailed, Some(answer.error))))
    ensures hasController && answer.Ok? ==> r.resp == JsonResponse(StatusOK, marshalled)
  {
    if !hasController then PreCheckFailure()
    else match answer
      case Err(e) => Served(Response(StatusInternalServerError, ErrorText(Wrapped(CheckStatsFailed, Some(e)))), Some(CallCheckStatus))
      case Ok(_) => Served(JsonResponse(StatusOK, marshalled), Some(CallCheckStatus))
  }

  /** A job ID that could escape the log directory. */
  predicate UnsafeJobID(jobID: string) {
    Contains(jobID, "..") || PathSeparator in jobID
  }

  /** HandleJobLogReq. */
  function HandleJobLogReq(hasController: bool, jobID: string, answer: Result<seq<bv8>, CtlError>): (r: Served)
    ensures r.called.Some? <==> hasController && !UnsafeJobID(jobID)
    ensures r.called.Some? ==> r.called == Some(CallLogData(jobID))
    ensures hasController && UnsafeJobID(jobID) ==> r.resp == Response(StatusBadRequest, ErrorText(InvalidJobID(jobID)))
    ensures r.called.Some? && answer.Ok? ==> r.resp == Response(StatusOK, Bytes(answer.value))
    ensures r.called.Some? && answer.Err? ==> r.resp == FailureResponse(GetJobLogFailed, answer.error)
  {
    if !hasController then PreCheckFailure()
    else if UnsafeJobID(jobID) then Served(Response(StatusBadRequest, ErrorText(InvalidJobID(jobID))), None)
    else match answer
      case Err(e) => Served(FailureResponse(GetJobLogFailed, e), Some(CallLogData(jobID)))
      case Ok(data) => Served(Response(StatusOK, Bytes(data)), Some(CallLogData(jobID)))
  }

  /** Without a controller every handler answers 500 and calls nothing. */
  lemma NoControllerFailsClosed(jobID: string, launch: Payload<JobRequest>, action: Payload<string>,
                                stats: Result<JobModels.JobStats, CtlError>, done: Result<(), CtlError>,
                                log: Result<seq<bv8>, CtlError>, marshalled: Option<string>)
    ensures var served := [HandleLaunchJobReq(false, launch, stats, marshalled),
                           HandleGetJobReq(false, jobID, stats, marshalled),
                           HandleJobActionReq(false, jobID, action, done),
                           HandleCheckStatusReq(false, done, marshalled),
                           HandleJobLogReq(false, jobID, log)];
      forall k :: 0 <= k < |served| ==> served[k] == PreCheckFailure()
  {
  }

  /**
   * A blank job ID reaches the controller, which refuses it with a general
   * error: the API answers 500, not 400 or 404.
   */
  lemma BlankJobIDIsServerError(jobID: string, stats: Result<JobModels.JobStats, ErrorClass>,
                                logData: Result<seq<bv8>, ErrorClass>, marshalled: Option<string>)
    requires IsBlank(jobID)
    ensures HandleGetJobReq(true, jobID, JobController.GetJob(jobID, stats).result, marshalled).resp.code
            == StatusInternalServerError
    ensures HandleJobLogReq(true, jobID, JobController.GetJobLogData(jobID, logData).result).resp.code
            == StatusInternalServerError
  {
    assert forall k :: 0 <= k < |jobID| ==> jobID[k] != PathSeparator && jobID[k] != '.';
    forall i | 0 <= i <= |jobID| - 2
      ensures !OccursAt(jobID, "..", i)
    {
      assert i + 2 <= |jobID| ==> jobID[i..i + 2][0] == jobID[i];
    }
  }
}
