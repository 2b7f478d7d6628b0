/**
 * The job service's worker pool: the table of registered job types, the
 * stop / cancel / retry rules applied to a job's stored stats, the worker
 * pool liveness report, and the stats returned for a freshly enqueued job.
 * Redis, the scheduler and the stats manager are collaborators: their
 * answers are parameters and the calls made to them are results.
 */
module JobPool {
  import opened Wrappers
  import opened GoStrings
  import opened JobModels

  /** A job implementation handed to RegisterJob, seen through reflection. */
  datatype JobImpl = JobImpl(typeName: string, implementsJob: bool, maxFails: nat, shouldRetry: bool)

  datatype RegisterError = EmptyNameOrNil | NotAJob | NameTaken | TypeTaken

  /** Some registered name is bound to a job of the given type. */
  predicate TypeRegistered(known: map<string, JobImpl>, typeName: string) {
    exists n :: n in known && known[n].typeName == typeName
  }

  /** No two names are bound to jobs of one type. */
  predicate OneNamePerType(known: map<string, JobImpl>) {
    forall n, m :: n in known && m in known && n != m ==> known[n].typeName != known[m].typeName
  }

  /** The checks of RegisterJob, in the order the source makes them. */
  function RegisterCheck(known: map<string, JobImpl>, name: string, j: Option<JobImpl>): (r: Option<RegisterError>)
    ensures r.None? <==> !IsBlank(name) && j.Some? && j.value.implementsJob
                         && name !in known && !TypeRegistered(known, j.value.typeName)
    ensures r == Some(EmptyNameOrNil) <==> IsBlank(name) || j.None?
    ensures r == Some(NameTaken) ==> name in known
  {
    if IsBlank(name) || j.None? then Some(EmptyNameOrNil)
    else if !j.value.implementsJob then Some(NotAJob)
    else if name in known then Some(NameTaken)
    else if TypeRegistered(known, j.value.typeName) then Some(TypeTaken)
    else None
  }

  /** A registration that passes the checks keeps the table one-name-per-type. */
  lemma RegisterKeepsOneNamePerType(known: map<string, JobImpl>, name: string, j: JobImpl)
    requires OneNamePerType(known)
    requires RegisterCheck(known, name, Some(j)).None?
    ensures OneNamePerType(known[name := j])
  {
    var k := known[name := j];
    forall n, m | n in k && m in k && n != m
      ensures k[n].typeName != k[m].typeName
    {
      if n == name {
        assert m in known && known[m].typeName == k[m].typeName;
      } else if m == name {
        assert n in known && known[n].typeName == k[n].typeName;
      }
    }
  }

  class WorkerPool {
    /** Registered job names and their implementations (knownJobs). */
    var knownJobs: map<string, JobImpl>
    /** The MaxFails option each name was registered with in the work pool. */
    var jobOptions: map<string, nat>

    ghost predicate Valid()
      reads this
    {
      OneNamePerType(knownJobs)
      && knownJobs.Keys == jobOptions.Keys
      && (forall n :: n in knownJobs ==> !IsBlank(n) && knownJobs[n].implementsJob
                                         && jobOptions[n] == knownJobs[n].maxFails)
    }

    constructor ()
      ensures Valid() && knownJobs == map[] && jobOptions == map[]
    {
      knownJobs := map[];
      jobOptions := map[];
    }

    /** IsKnownJob: the implementation registered under the name, if any. */
    function IsKnownJob(name: string): (r: Option<JobImpl>)
      reads this
      ensures r.Some? <==> name in knownJobs
      ensures r.Some? ==> knownJobs[name] == r.value
    {
      if name in knownJobs then Some(knownJobs[name]) else None
    }

    /** Scans the table for a name bound to a job of the given type. */
    method FindType(typeName: string) returns (found: bool)
      ensures found <==> TypeRegistered(knownJobs, typeName)
    {
      var rest := knownJobs.Keys;
      found := false;
      while rest != {}
        invariant rest <= knownJobs.Keys
        invariant !found
        invariant forall n :: n in knownJobs && n !in rest ==> knownJobs[n].typeName != typeName
        decreases rest
      {
        NonEmptyHasElement(rest);
        var n :| n in rest;
        if knownJobs[n].typeName == typeName {
          return true;
        }
        rest := rest - {n};
      }
    }

    method RegisterJob(name: string, j: Option<JobImpl>) returns (err: Option<RegisterError>)
      requires Valid()
      modifies this
      ensures Valid()
      ensures err == RegisterCheck(old(knownJobs), name, j)
      ensures err.None? ==> j.Some? && name !in old(knownJobs)
      ensures err.None? ==> knownJobs == old(knownJobs)[name := j.value]
                            && jobOptions == old(jobOptions)[name := j.value.maxFails]
      ensures err.Some? ==> knownJobs == old(knownJobs) && jobOptions == old(jobOptions)
    {
      if IsBlank(name) || j.None? {
        return Some(EmptyNameOrNil);
      }
      if !j.value.implementsJob {
        return Some(NotAJob);
      }
      if name in knownJobs {
        return Some(NameTaken);
      }
      var taken := FindType(j.value.typeName);
      if taken {
        return Some(TypeTaken);
      }
      RegisterKeepsOneNamePerType(knownJobs, name, j.value);
      jobOptions := jobOptions[name := j.value.maxFails];
      knownJobs := knownJobs[name := j.value];
      err := None;
    }

    /**
     * RegisterJobs: registers every entry of the map, in the map's
     * (unspecified) iteration order, and stops at the first failure.
     */
    method RegisterJobs(jobs: map<string, Option<JobImpl>>) returns (err: Option<RegisterError>)
      requires Valid()
      modifies this
      ensures Valid()
      ensures jobs == map[] ==> err.None? && knownJobs == old(knownJobs)
      ensures forall n :: n in old(knownJobs) ==> n in knownJobs && knownJobs[n] == old(knownJobs)[n]
      ensures forall n :: n in knownJobs ==> n in old(knownJobs) || (n in jobs && jobs[n] == Some(knownJobs[n]))
      ensures err.None? ==> forall n :: n in jobs ==> n in knownJobs && jobs[n] == Some(knownJobs[n])
    {
      if jobs == map[] {
        return None;
      }
      var rest := jobs.Keys;
      while rest != {}
        invariant Valid()
        invariant rest <= jobs.Keys
        invariant forall n :: n in old(knownJobs) ==> n in knownJobs && knownJobs[n] == old(knownJobs)[n]
        invariant forall n :: n in knownJobs ==> n in old(knownJobs) || (n in jobs && jobs[n] == Some(knownJobs[n]))
        invariant forall n :: n in jobs && n !in rest ==> n in knownJobs && jobs[n] == Some(knownJobs[n])
        decreases rest
      {
        NonEmptyHasElement(rest);
        var n :| n in rest;
        ghost var before := knownJobs;
        err := RegisterJob(n, jobs[n]);
        if err.Some? {
          return;
        }
        assert n !in before && knownJobs == before[n := jobs[n].value];
        forall m | m in old(knownJobs)
          ensures m in knownJobs && knownJobs[m] == old(knownJobs)[m]
        {
          assert m in before && m != n;
        }
        rest := rest - {n};
      }
      err := None;
    }
  }

  // ---- stop, cancel and retry ----

  datatype PoolError =
    | EmptyJobID
    | RetrieveFailed
    | NotRunning
    | KindNotSupported
    | NotRetryable
    | BackendFailed

  /** A call the pool makes to change a job in Redis or the scheduler. */
  datatype PoolCall =
    | DeleteScheduledJob(runAt: int, jobID: string)
    | SetJobStatus(jobID: string, status: JobStatus)
    | UnSchedule(policyID: string)
    | DeletePeriodicExecutions(policyID: string)
    | ExpirePeriodicJobStats(policyID: string)
    | SendCommand(jobID: string, command: CtlCommand)
    | RetryDeadJob(dieAt: int, jobID: string)

  /** The calls made, in order, and the error returned (None for nil). */
  datatype Outcome = Outcome(calls: seq<PoolCall>, err: Option<PoolError>)

  /**
   * The collaborators' answers: the stored stats (None when Retrieve
   * fails) and whether each mutating call succeeds.
   */
  datatype Backend = Backend(
    retrieved: Option<JobStatData>,
    deleteScheduledOk: bool,
    unscheduleOk: bool,
    sendCommandOk: bool,
    retryDeadOk: bool)

  /** Sends a command and reports its failure. */
  function Send(jobID: string, cmd: CtlCommand, ok: bool): (r: Outcome)
    ensures r.calls == [SendCommand(jobID, cmd)]
    ensures r.err.None? <==> ok
  {
    Outcome([SendCommand(jobID, cmd)], if ok then None else Some(BackendFailed))
  }

  /** StopJob: the stop rules for each job kind and status. */
  function StopJob(jobID: string, b: Backend): (r: Outcome)
    ensures IsBlank(jobID) ==> r == Outcome([], Some(EmptyJobID))
    ensures !IsBlank(jobID) && b.retrieved.None? ==> r == Outcome([], Some(RetrieveFailed))
    ensures r.err.None? ==> !IsBlank(jobID) && b.retrieved.Some?
    ensures !IsBlank(jobID) && b.retrieved.Some? && b.retrieved.value.jobKind.KindOther? ==>
      r == Outcome([], Some(KindNotSupported))
  {
    if IsBlank(jobID) then Outcome([], Some(EmptyJobID))
    else match b.retrieved
      case None => Outcome([], Some(RetrieveFailed))
      case Some(st) =>
        match st.jobKind
          case KindGeneric =>
            if st.status != Running then Outcome([], Some(NotRunning))
            else Send(jobID, CtlStop, b.sendCommandOk)
          case KindScheduled =>
            if st.status == Pending then
              if !b.deleteScheduledOk then Outcome([DeleteScheduledJob(st.runAt, jobID)], Some(BackendFailed))
              else Outcome([DeleteScheduledJob(st.runAt, jobID), SetJobStatus(jobID, Stopped)], None)
            else if st.status == Running then Send(jobID, CtlStop, b.sendCommandOk)
            else Outcome([], None)
          case KindPeriodic =>
            // deleting the policy's executions and expiring its stats are
            // best-effort: their failures are only logged
            if !b.unscheduleOk then Outcome([UnSchedule(jobID)], Some(BackendFailed))
            else Outcome([UnSchedule(jobID), DeletePeriodicExecutions(st.jobID), ExpirePeriodicJobStats(st.jobID)], None)
          case KindOther(_) => Outcome([], Some(KindNotSupported))
  }

  /** A generic job is stopped only when it is running, by sending it 'stop'. */
  lemma StopGenericNeedsRunning(jobID: string, b: Backend)
    requires !IsBlank(jobID) && b.retrieved.Some? && b.retrieved.value.jobKind == KindGeneric
    ensures var r := StopJob(jobID, b);
      (r.err.None? <==> b.retrieved.value.status == Running && b.sendCommandOk)
      && (b.retrieved.value.status != Running ==> r == Outcome([], Some(NotRunning)))
      && (b.retrieved.value.status == Running ==> r.calls == [SendCommand(jobID, CtlStop)])
  {
  }

  /** A pending scheduled job is deleted from the schedule and then marked Stopped. */
  lemma StopPendingScheduled(jobID: string, b: Backend)
    requires !IsBlank(jobID) && b.retrieved.Some?
    requires b.retrieved.value.jobKind == KindScheduled && b.retrieved.value.status == Pending
    ensures var r := StopJob(jobID, b);
      (r.err.None? <==> b.deleteScheduledOk)
      && r.calls[0] == DeleteScheduledJob(b.retrieved.value.runAt, jobID)
      && (r.err.None? ==> r.calls == [DeleteScheduledJob(b.retrieved.value.runAt, jobID), SetJobStatus(jobID, Stopped)])
  {
  }

  /** A periodic job's policy is unscheduled; later clean-up failures do not fail the stop. */
  lemma StopPeriodic(jobID: string, b: Backend)
    requires !IsBlank(jobID) && b.retrieved.Some? && b.retrieved.value.jobKind == KindPeriodic
    ensures var r := StopJob(jobID, b);
      r.calls[0] == UnSchedule(jobID) && (r.err.None? <==> b.unscheduleOk)
  {
  }

  /** StopJob sends 'stop' exactly to running generic and scheduled jobs. */
  lemma StopSendsOnlyToRunning(jobID: string, b: Backend)
    requires !IsBlank(jobID) && b.retrieved.Some?
    ensures var st := b.retrieved.value;
      SendCommand(jobID, CtlStop) in StopJob(jobID, b).calls <==>
        st.status == Running && (st.jobKind == KindGeneric || st.jobKind == KindScheduled)
  {
  }

  /** CancelJob: only a running generic job can be cancelled. */
  function CancelJob(jobID: string, b: Backend): (r: Outcome)
    ensures IsBlank(jobID) ==> r == Outcome([], Some(EmptyJobID))
    ensures r.err.None? <==> !IsBlank(jobID) && b.retrieved.Some?
                             && b.retrieved.value.jobKind == KindGeneric
                             && b.retrieved.value.status == Running && b.sendCommandOk
    ensures r.calls != [] ==> r.calls == [SendCommand(jobID, CtlCancel)]
                              && b.retrieved.Some? && b.retrieved.value.status == Running
  {
    if IsBlank(jobID) then Outcome([], Some(EmptyJobID))
    else match b.retrieved
      case None => Outcome([], Some(RetrieveFailed))
      case Some(st) =>
        if st.jobKind == KindGeneric then
          if st.status != Running then Outcome([], Some(NotRunning))
          else Send(jobID, CtlCancel, b.sendCommandOk)
        else Outcome([], Some(KindNotSupported))
  }

  /** RetryJob: only a dead job (DieAt set) can be retried. */
  function RetryJob(jobID: string, b: Backend): (r: Outcome)
    ensures IsBlank(jobID) ==> r == Outcome([], Some(EmptyJobID))
    ensures r.err.None? <==> !IsBlank(jobID) && b.retrieved.Some? && b.retrieved.value.dieAt != 0 && b.retryDeadOk
    ensures b.retrieved.Some? && b.retrieved.value.dieAt == 0 ==> r.calls == [] && r.err.Some?
    ensures r.calls != [] ==> b.retrieved.Some? && r.calls == [RetryDeadJob(b.retrieved.value.dieAt, jobID)]
  {
    if IsBlank(jobID) then Outcome([], Some(EmptyJobID))
    else match b.retrieved
      case None => Outcome([], Some(RetrieveFailed))
      case Some(st) =>
        if st.dieAt == 0 then Outcome([], Some(NotRetryable))
        else Outcome([RetryDeadJob(st.dieAt, jobID)], if b.retryDeadOk then None else Some(BackendFailed))
  }

  // ---- best-effort clean-up of a periodic policy's executions ----

  /** periodicEnqueuerHorizon in seconds (4 minutes). */
  const PeriodicEnqueuerHorizon: int := 4 * 60

  /** What the clean-up does with one execution of the policy. */
  function PurgeOne(id: string, sub: Option<JobStatData>, sendOk: bool, deleteOk: bool): (r: Outcome)
    ensures r.err.Some? <==> sub.None? || (r.calls != [] && !(if r.calls[0].SendCommand? then sendOk else deleteOk))
    ensures sub.Some? && sub.value.status == Running ==> r.calls == [SendCommand(sub.value.jobID, CtlStop)]
    ensures sub.Some? && sub.value.status != Running ==>
      (r.calls != [] <==> sub.value.jobKind == KindScheduled && sub.value.status == Pending)
    ensures r.calls != [] && r.calls[0].DeleteScheduledJob? ==>
      sub.Some? && r.calls == [DeleteScheduledJob(sub.value.runAt, sub.value.jobID)]
  {
    match sub
      case None => Outcome([], Some(RetrieveFailed))
      case Some(st) =>
        if st.status == Running then Send(st.jobID, CtlStop, sendOk)
        else if st.jobKind == KindScheduled && st.status == Pending then
          Outcome([DeleteScheduledJob(st.runAt, st.jobID)], if deleteOk then None else Some(BackendFailed))
        else Outcome([], None)
  }

  /** The calls made for the executions, in order. */
  function PurgeCalls(ids: seq<string>, retrieve: string -> Option<JobStatData>, sendOk: string -> bool, deleteOk: string -> bool): seq<PoolCall>
  {
    if ids == [] then []
    else
      var last := ids[|ids| - 1];
      PurgeCalls(ids[..|ids| - 1], retrieve, sendOk, deleteOk)
        + PurgeOne(last, retrieve(last), sendOk(last), deleteOk(last)).calls
  }

  /** The number of executions whose clean-up failed. */
  function PurgeFailures(ids: seq<string>, retrieve: string -> Option<JobStatData>, sendOk: string -> bool, deleteOk: string -> bool): nat
  {
    if ids == [] then 0
    else
      var last := ids[|ids| - 1];
      PurgeFailures(ids[..|ids| - 1], retrieve, sendOk, deleteOk)
        + (if PurgeOne(last, retrieve(last), sendOk(last), deleteOk(last)).err.Some? then 1 else 0)
  }

  /**
   * deleteScheduledJobsOfPeriodicPolicy: lists the policy's executions from
   * `now - 4 minutes` on, stops the running ones and deletes the pending
   * scheduled ones, carrying on past failures and reporting them together.
   */
  method DeleteScheduledJobsOfPeriodicPolicy(
    policyID: string, now: int,
    getExecutions: (string, int) -> Option<seq<string>>,
    retrieve: string -> Option<JobStatData>, sendOk: string -> bool, deleteOk: string -> bool)
    returns (calls: seq<PoolCall>, failures: nat, listFailed: bool)
    ensures listFailed <==> getExecutions(policyID, now - PeriodicEnqueuerHorizon).None?
    ensures listFailed ==> calls == [] && failures == 0
    ensures !listFailed ==> var ids := getExecutions(policyID, now - PeriodicEnqueuerHorizon).value;
      calls == PurgeCalls(ids, retrieve, sendOk, deleteOk)
      && failures == PurgeFailures(ids, retrieve, sendOk, deleteOk)
  {
    calls, failures := [], 0;
    var start := now - PeriodicEnqueuerHorizon;
    var found := getExecutions(policyID, start);
    if found.None? {
      return calls, failures, true;
    }
    listFailed := false;
    var ids := found.value;
    var i := 0;
    while i < |ids|
      invariant 0 <= i <= |ids|
      invariant calls == PurgeCalls(ids[..i], retrieve, sendOk, deleteOk)
      invariant failures == PurgeFailures(ids[..i], retrieve, sendOk, deleteOk)
    {
      var id := ids[i];
      var sub := retrieve(id);
      assert ids[..i + 1][..i] == ids[..i];
      match sub {
        case None =>
          failures := failures + 1;
        case Some(st) =>
          if st.status == Running {
            calls := calls + [SendCommand(st.jobID, CtlStop)];
            if !sendOk(id) {
              failures := failures + 1;
            }
          } else if st.jobKind == KindScheduled && st.status == Pending {
            calls := calls + [DeleteScheduledJob(st.runAt, st.jobID)];
            if !deleteOk(id) {
              failures := failures + 1;
            }
          }
      }
      i := i + 1;
    }
    assert ids[..|ids|] == ids;
  }

  /** Every stop command of the clean-up goes to an execution that was running. */
  lemma {:induction false} PurgeStopsOnlyRunning(ids: seq<string>, retrieve: string -> Option<JobStatData>, sendOk: string -> bool, deleteOk: string -> bool, k: nat)
    requires k < |PurgeCalls(ids, retrieve, sendOk, deleteOk)|
    ensures var c := PurgeCalls(ids, retrieve, sendOk, deleteOk)[k];
      c.SendCommand? ==> exists i :: 0 <= i < |ids| && retrieve(ids[i]).Some?
                                     && retrieve(ids[i]).value.status == Running
                                     && c.jobID == retrieve(ids[i]).value.jobID
  {
    var init := ids[..|ids| - 1];
    var last := ids[|ids| - 1];
    var prefix := PurgeCalls(init, retrieve, sendOk, deleteOk);
    var c := PurgeCalls(ids, retrieve, sendOk, deleteOk)[k];
    if k < |prefix| {
      PurgeStopsOnlyRunning(init, retrieve, sendOk, deleteOk, k);
      if c.SendCommand? {
        var i :| 0 <= i < |init| && retrieve(init[i]).Some?
                 && retrieve(init[i]).value.status == Running && c.jobID == retrieve(init[i]).value.jobID;
        assert ids[i] == init[i];
      }
    } else {
      if c.SendCommand? {
        assert retrieve(ids[|ids| - 1]).Some?;
      }
    }
  }

  // ---- worker pool liveness ----

  /** workerPoolDeadTime, in seconds. */
  const WorkerPoolDeadTime: int := 10
  const NanosPerSecond: int := 1_000_000_000

  datatype Heartbeat = Heartbeat(workerPoolID: string, startedAt: int, heartbeatAt: int, jobNames: seq<string>, concurrency: nat)

  datatype PoolStatus = Healthy | Dead

  datatype PoolStatsData = PoolStatsData(
    workerPoolID: string, startedAt: int, heartbeatAt: int,
    jobNames: seq<string>, concurrency: nat, status: PoolStatus)

  datatype StatsError = HeartbeatsUnavailable | NoValidHeartbeat

  /** A pool is dead when its last heartbeat plus ten seconds is before now (now in nanoseconds). */
  predicate IsDead(hb: Heartbeat, nowNanos: int) {
    (hb.heartbeatAt + WorkerPoolDeadTime) * NanosPerSecond < nowNanos
  }

  function StatOf(hb: Heartbeat, nowNanos: int): (s: PoolStatsData)
    ensures s.workerPoolID == hb.workerPoolID && s.heartbeatAt == hb.heartbeatAt
    ensures s.status == Dead <==> IsDead(hb, nowNanos)
  {
    PoolStatsData(hb.workerPoolID, hb.startedAt, hb.heartbeatAt, hb.jobNames, hb.concurrency,
                  if IsDead(hb, nowNanos) then Dead else Healthy)
  }

  /** A pool is alive for ten seconds after its heartbeat, and once dead it stays dead. */
  lemma DeadStaysDead(hb: Heartbeat, nowNanos: int, later: int)
    ensures nowNanos <= hb.heartbeatAt * NanosPerSecond + 10 * NanosPerSecond ==> !IsDead(hb, nowNanos)
    ensures nowNanos > hb.heartbeatAt * NanosPerSecond + 10 * NanosPerSecond ==> IsDead(hb, nowNanos)
    ensures IsDead(hb, nowNanos) && nowNanos <= later ==> IsDead(hb, later)
  {
  }

  /** The number of valid heartbeats (HeartbeatAt != 0). */
  function ValidCount(hbs: seq<Heartbeat>): (n: nat)
    ensures n <= |hbs|
  {
    if hbs == [] then 0
    else ValidCount(hbs[..|hbs| - 1]) + (if hbs[|hbs| - 1].heartbeatAt == 0 then 0 else 1)
  }

  /** The report for the valid heartbeats (HeartbeatAt != 0), in order. */
  function PoolReport(hbs: seq<Heartbeat>, nowNanos: int): (r: seq<PoolStatsData>)
    ensures |r| == ValidCount(hbs)
    ensures forall k :: 0 <= k < |r| ==> r[k].heartbeatAt != 0
  {
    if hbs == [] then []
    else
      var last := hbs[|hbs| - 1];
      PoolReport(hbs[..|hbs| - 1], nowNanos) + (if last.heartbeatAt == 0 then [] else [StatOf(last, nowNanos)])
  }

  /** The report is empty exactly when every heartbeat is invalid. */
  lemma {:induction false} PoolReportEmpty(hbs: seq<Heartbeat>, nowNanos: int)
    ensures PoolReport(hbs, nowNanos) == [] <==> forall k :: 0 <= k < |hbs| ==> hbs[k].heartbeatAt == 0
  {
    if hbs != [] {
      var init := hbs[..|hbs| - 1];
      PoolReportEmpty(init, nowNanos);
      assert forall k :: 0 <= k < |init| ==> init[k] == hbs[k];
    }
  }

  /** Every reported pool comes from a valid heartbeat and is Dead iff that heartbeat is stale. */
  lemma {:induction false} PoolReportSound(hbs: seq<Heartbeat>, nowNanos: int, k: nat)
    requires k < |PoolReport(hbs, nowNanos)|
    ensures exists i :: 0 <= i < |hbs| && hbs[i].heartbeatAt != 0
                        && PoolReport(hbs, nowNanos)[k] == StatOf(hbs[i], nowNanos)
  {
    var init := hbs[..|hbs| - 1];
    var r := PoolReport(hbs, nowNanos);
    if k < |PoolReport(init, nowNanos)| {
      PoolReportSound(init, nowNanos, k);
      var i :| 0 <= i < |init| && init[i].heartbeatAt != 0 && PoolReport(init, nowNanos)[k] == StatOf(init[i], nowNanos);
      assert hbs[i] == init[i];
    } else {
      assert r[k] == StatOf(hbs[|hbs| - 1], nowNanos);
    }
  }

  /**
   * Every valid heartbeat is reported, in order: the i-th heartbeat, when
   * valid, gives the entry after those of the valid heartbeats before it.
   */
  lemma {:induction false} PoolReportComplete(hbs: seq<Heartbeat>, nowNanos: int, i: nat)
    requires i < |hbs| && hbs[i].heartbeatAt != 0
    ensures ValidCount(hbs[..i]) < |PoolReport(hbs, nowNanos)|
    ensures PoolReport(hbs, nowNanos)[ValidCount(hbs[..i])] == StatOf(hbs[i], nowNanos)
  {
    var init := hbs[..|hbs| - 1];
    if i < |init| {
      PoolReportComplete(init, nowNanos, i);
      assert init[..i] == hbs[..i];
      assert init[i] == hbs[i];
    } else {
      assert hbs[..i] == init;
    }
  }

  /** Stats: reports every worker pool with a valid heartbeat, or an error when none remains. */
  method Stats(heartbeats: Option<seq<Heartbeat>>, nowNanos: int) returns (r: Result<seq<PoolStatsData>, StatsError>)
    ensures heartbeats.None? ==> r == Err(HeartbeatsUnavailable)
    ensures heartbeats.Some? ==>
      (r.Err? <==> forall k :: 0 <= k < |heartbeats.value| ==> heartbeats.value[k].heartbeatAt == 0)
    ensures r.Ok? ==> heartbeats.Some? && r.value == PoolReport(heartbeats.value, nowNanos) && r.value != []
  {
    if heartbeats.None? {
      return Err(HeartbeatsUnavailable);
    }
    var hbs := heartbeats.value;
    var stats: seq<PoolStatsData> := [];
    var i := 0;
    while i < |hbs|
      invariant 0 <= i <= |hbs|
      invariant stats == PoolReport(hbs[..i], nowNanos)
    {
      var hb := hbs[i];
      assert hbs[..i + 1][..i] == hbs[..i];
      if hb.heartbeatAt != 0 {
        var status := Healthy;
        if (hb.heartbeatAt + WorkerPoolDeadTime) * NanosPerSecond < nowNanos {
          status := Dead;
        }
        stats := stats + [PoolStatsData(hb.workerPoolID, hb.startedAt, hb.heartbeatAt, hb.jobNames, hb.concurrency, status)];
      }
      i := i + 1;
    }
    assert hbs[..|hbs|] == hbs;
    PoolReportEmpty(hbs, nowNanos);
    if |stats| == 0 {
      return Err(NoValidHeartbeat);
    }
    return Ok(stats);
  }

  // ---- the stats of a newly enqueued job ----

  /** The work-queue job handed back by the enqueuer. */
  datatype WorkJob = WorkJob(id: string, name: string, enqueuedAt: int)

  const RefLinkPrefix: string := "/api/v1/jobs/"

  /** generateResult: a Pending stats record linking to the job, or the zero stats for nil. */
  function GenerateResult(j: Option<WorkJob>, kind: JobKind, isUnique: bool, now: int): (r: JobStats)
    ensures r.stats.Some? <==> j.Some?
    ensures j.Some? ==> var s := r.stats.value;
      s.jobID == j.value.id && s.jobName == j.value.name && s.jobKind == kind
      && s.isUnique == isUnique && s.status == Pending
      && s.enqueueTime == j.value.enqueuedAt && s.updateTime == now
      && HasPrefix(s.refLink, RefLinkPrefix)
  {
    match j
      case None => JobStats(None)
      case Some(w) =>
        JobStats(Some(JobStatData(w.id, w.name, kind, isUnique, Pending, w.enqueuedAt, now, 0, 0,
                                  RefLinkPrefix + w.id, "")))
  }

  /** The job ID a reference link points at. */
  function JobIDOfRefLink(link: string): Option<string> {
    if HasPrefix(link, RefLinkPrefix) then Some(link[|RefLinkPrefix|..]) else None
  }

  /** The reference link of a generated result leads back to the job's ID. */
  lemma RefLinkNamesJob(w: WorkJob, kind: JobKind, isUnique: bool, now: int)
    ensures JobIDOfRefLink(GenerateResult(Some(w), kind, isUnique, now).stats.value.refLink) == Some(w.id)
  {
    var link := RefLinkPrefix + w.id;
    assert link[|RefLinkPrefix|..] == w.id;
  }

  // ---- the operation command published between job-service nodes ----

  /** An element of the decoded command array. */
  datatype Value = Str(s: string) | NonString

  datatype CommandData = NilData | Items(items: seq<Value>) | NotAList

  datatype CommandError = NilCommand | MalformedCommands | MalformedCommandInfo

  /**
   * handleOPCommandFiring as written: the second type assertion overwrites
   * `ok`, so only the command's type is checked and a non-string job ID
   * becomes the empty string.
   */
  function OpCommandAsWritten(data: CommandData): (r: Result<(string, string), CommandError>)
    ensures r.Ok? ==> data.Items? && |data.items| == 2 && data.items[1] == Str(r.value.1)
  {
    match data
      case NilData => Err(NilCommand)
      case NotAList => Err(MalformedCommands)
      case Items(items) =>
        if |items| != 2 then Err(MalformedCommands)
        else
          var jobID := if items[0].Str? then items[0].s else "";
          if !items[1].Str? then Err(MalformedCommandInfo)
          else Ok((jobID, items[1].s))
  }

  /** A non-string job ID slips through and the command is sent for job "". */
  lemma OpCommandAsWrittenAcceptsNonStringID()
    ensures OpCommandAsWritten(Items([NonString, Str("stop")])) == Ok(("", "stop"))
  {
  }

  /** handleOPCommandFiring with both type assertions checked. */
  function OpCommand(data: CommandData): (r: Result<(string, string), CommandError>)
    ensures r.Ok? <==> data.Items? && |data.items| == 2 && data.items[0].Str? && data.items[1].Str?
    ensures r.Ok? ==> data.items == [Str(r.value.0), Str(r.value.1)]
  {
    match data
      case NilData => Err(NilCommand)
      case NotAList => Err(MalformedCommands)
      case Items(items) =>
        if |items| != 2 then Err(MalformedCommands)
        else if !items[0].Str? || !items[1].Str? then Err(MalformedCommandInfo)
        else Ok((items[0].s, items[1].s))
  }

  /** The corrected check rejects what the written one lets through, and agrees otherwise. */
  lemma OpCommandRefinesAsWritten(data: CommandData)
    ensures OpCommand(data).Ok? ==> OpCommandAsWritten(data) == OpCommand(data)
    ensures OpCommand(Items([NonString, Str("stop")])).Err?
  {
  }
}
