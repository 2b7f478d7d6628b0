/**
 * The core's webhook for the job service: a job's status change arrives
 * with the job service's status name, which is translated to the status
 * the core keeps in its database and written to the scan or replication
 * job table.
 */
module JobHooks {
  import opened Wrappers
  import opened Http
  import opened JobModels

  /** The status names the job service reports (job.JobServiceStatus*). */
  function ServiceStatusName(s: JobStatus): string {
    match s
      case Pending => "Pending"
      case Running => "Running"
      case Stopped => "Stopped"
      case Cancelled => "Cancelled"
      case Error => "Error"
      case Success => "Success"
      case Scheduled => "Scheduled"
  }

  /** The status names the core's job tables hold (models.Job*). */
  function DbStatusName(s: JobStatus): string {
    match s
      case Pending => "pending"
      case Running => "running"
      case Stopped => "stopped"
      case Cancelled => "canceled"
      case Error => "error"
      case Success => "finished"
      case Scheduled => "scheduled"
  }

  /** statusMap: job-service status name to database status name. */
  const StatusMap: map<string, string> := map[
    "Pending" := "pending",
    "Running" := "running",
    "Stopped" := "stopped",
    "Cancelled" := "canceled",
    "Error" := "error",
    "Success" := "finished",
    "Scheduled" := "scheduled"]

  /** statusMap translates every job-service status to its database status and knows no other name. */
  lemma StatusMapTranslates(name: string)
    ensures name in StatusMap <==> exists s: JobStatus :: ServiceStatusName(s) == name
    ensures forall s: JobStatus :: ServiceStatusName(s) == name ==> StatusMap[name] == DbStatusName(s)
  {
    if name in StatusMap {
      var s: JobStatus :=
        if name == "Pending" then Pending else if name == "Running" then Running
        else if name == "Stopped" then Stopped else if name == "Cancelled" then Cancelled
        else if name == "Error" then Error else if name == "Success" then Success else Scheduled;
      assert ServiceStatusName(s) == name;
    }
  }

  /** No two job-service statuses land on the same database status. */
  lemma DbStatusInjective(a: JobStatus, b: JobStatus)
    ensures DbStatusName(a) == DbStatusName(b) ==> a == b
  {
  }

  datatype JobTable = ScanJobs | ReplicationJobs

  /** The one database write a status change makes. */
  datatype StatusWrite = StatusWrite(table: JobTable, id: int, status: string)

  /** The webhook handler's state: the job ID from the path and the translated status. */
  class Handler {
    var id: int
    var status: string

    constructor()
      ensures id == 0 && status == ""
    {
      id := 0;
      status := "";
    }

    /**
     * Prepare. `pathID` is the :id path parameter parsed as int64 (None:
     * it did not parse); `reported` is the status of the decoded body
     * (None: the body did not decode). Every refusal answers 200 so the
     * job service does not resend; None means the handler goes on.
     */
    method Prepare(pathID: Option<int>, reported: Option<string>) returns (aborted: Option<int>)
      modifies this
      ensures aborted.Some? ==> aborted == Some(StatusOK)
      ensures aborted.None? <==> pathID.Some? && reported.Some? && reported.value in StatusMap
      ensures pathID.None? ==> id == old(id)
      ensures pathID.Some? ==> id == pathID.value
      ensures aborted.None? ==> status == StatusMap[reported.value]
      ensures aborted.Some? ==> status == old(status)
    {
      if pathID.None? {
        return Some(StatusOK);
      }
      id := pathID.value;
      if reported.None? {
        return Some(StatusOK);
      }
      if reported.value !in StatusMap {
        return Some(StatusOK);
      }
      status := StatusMap[reported.value];
      return None;
    }

    /**
     * HandleScan: write the status to the scan job. `dbOk` says whether
     * the write succeeded; a failure answers 500.
     */
    method HandleScan(dbOk: bool) returns (write: StatusWrite, code: int)
      ensures write == StatusWrite(ScanJobs, id, status)
      ensures code == (if dbOk then StatusOK else StatusInternalServerError)
    {
      write := StatusWrite(ScanJobs, id, status);
      if !dbOk {
        return write, StatusInternalServerError;
      }
      return write, StatusOK;
    }

    /** HandleReplication: the same for the replication job. */
    method HandleReplication(dbOk: bool) returns (write: StatusWrite, code: int)
      ensures write == StatusWrite(ReplicationJobs, id, status)
      ensures code == (if dbOk then StatusOK else StatusInternalServerError)
    {
      write := StatusWrite(ReplicationJobs, id, status);
      if !dbOk {
        return write, StatusInternalServerError;
      }
      return write, StatusOK;
    }
  }
}
