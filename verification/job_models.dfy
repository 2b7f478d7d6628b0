/**
 * The job service's shared vocabulary: job kinds, job statuses and the
 * stats record that the pool returns for a job.
 */
module JobModels {
  import opened Wrappers

  datatype JobKind = KindGeneric | KindScheduled | KindPeriodic | KindOther(name: string)

  datatype JobStatus = Pending | Running | Stopped | Cancelled | Error | Success | Scheduled

  /** The stats of one job as kept by the stats manager. */
  datatype JobStatData = JobStatData(
    jobID: string,
    jobName: string,
    jobKind: JobKind,
    isUnique: bool,
    status: JobStatus,
    enqueueTime: int,
    updateTime: int,
    runAt: int,
    dieAt: int,
    refLink: string,
    hookStatus: string)

  /** The job stats envelope; `stats` is None for the zero value. */
  datatype JobStats = JobStats(stats: Option<JobStatData>)

  /** The control commands sent to a running job. */
  datatype CtlCommand = CtlStop | CtlCancel
}
