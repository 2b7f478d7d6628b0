# Harbor core, modelled in Dafny

This project models the core of Harbor, a container image registry. It covers
the Go back end and the Angular portal:

- **Job service.**
  - The Redis worker pool: job registration, stop, cancel and retry, pool statistics, the operation command published between nodes, and clean-up of a periodic policy's executions.
  - The job wrapper that runs a job and decides about retries.
  - The controller that validates and launches job requests.
  - The HTTP API handlers and the secret authenticator in front of them.
- **Scanning.**
  - The Clair scan job: it builds a layer chain from a manifest.
  - The Clair severity utilities.
  - The core's scan-overview and vulnerability-list helpers.
  - The repository diff used to sync the catalogue.
- **Core services.**
  - The project member API.
  - The registry token creator (scope parsing, filters, permissions).
  - The proxy interceptors: manifest URL matching, read-only gate, Notary content trust, vulnerability gate.
  - The notification watcher.
  - The registry event handler.
  - The job status webhooks.
  - The registry controller's authentication gate.
  - The password reset and sign-in controllers.
- **Portal.**
  - Route guards: authenticated user, sign-in and project member.
  - The project route resolver.
  - The sign-in page.
  - The add-member dialog.
  - The project policy panel.
  - The global search result panel.

**How the code is modelled**
- Pure decisions are Dafny functions with contracts stating what they decide. Lemmas relate them to one another.
- State the source updates in place is a `class`:
  - the worker pool's job table, the notification watcher, the webhook handler;
  - the portal components and the session cache.
- Each method of such a class is proved against a specification function.
- Redis, the database, the registry, Notary, Clair, HTTP clients, the clock and the browser's cookie jar are parameters, not models:
  - answers are given as `Result`/`Option` values or as function-valued oracles;
  - calls made to them come back as ordered lists of effects.

The modules follow the source files one to one. Shared helpers:

| file | holds |
|---|---|
| `wrappers.dfy` | `Option` and `Result` |
| `go_strings.dfy` | Go's `strings` functions with Go's white-space set; JavaScript's `trim`; ASCII lower-casing; byte-wise string order |
| `http.dfy` | HTTP status codes |
| `job_models.dfy` | the job service's shared records |

## Model

| member | source | states |
|---|---|---|
| JobPool.RegisterCheck | src/jobservice/pool/redis_pool.go:234-259 | registration passes exactly when the name is not blank, the job is given and implements the job interface, the name is unknown, and no registered name is bound to a job of the same type; each error names the first check that fails |
| JobPool.RegisterKeepsOneNamePerType | src/jobservice/pool/redis_pool.go:244-259 | a registration that passes the checks keeps "one name per job type" true of the table |
| JobPool.WorkerPool.IsKnownJob | src/jobservice/pool/redis_pool.go:586-589 | answers the registered implementation exactly when the name is in the table |
| JobPool.WorkerPool.FindType | src/jobservice/pool/redis_pool.go:251-259 | the scan over the table finds a match exactly when some registered name is bound to a job of that type |
| JobPool.WorkerPool.RegisterJob | src/jobservice/pool/redis_pool.go:234-281 | the error is the one the checks give; on success exactly the new name is added, with its MaxFails option; on failure nothing changes; the table stays one-name-per-type |
| JobPool.WorkerPool.RegisterJobs | src/jobservice/pool/redis_pool.go:283-296 | an empty map registers nothing; existing names keep their jobs; every added name comes from the map; on success every name of the map is registered with its job |
| JobPool.Send | src/jobservice/pool/redis_pool.go:527-533 | exactly one command is sent to the job, and the result is an error exactly when sending failed |
| JobPool.StopJob | src/jobservice/pool/redis_pool.go:461-536 | a blank ID, a failed lookup and an unsupported kind are refused before any call; a stop succeeds only after a successful lookup |
| JobPool.StopGenericNeedsRunning | src/jobservice/pool/redis_pool.go:475-479 | a generic job stops exactly when it is running and the stop command is sent; a job that is not running is refused with no call |
| JobPool.StopPendingScheduled | src/jobservice/pool/redis_pool.go:480-495 | a pending scheduled job is first deleted from the schedule at its run time, then marked Stopped; the stop succeeds exactly when the delete does |
| JobPool.StopPeriodic | src/jobservice/pool/redis_pool.go:502-522 | a periodic job is unscheduled first, and the stop succeeds exactly when unscheduling does |
| JobPool.StopSendsOnlyToRunning | src/jobservice/pool/redis_pool.go:461-536 | the stop command is sent exactly to running generic and scheduled jobs |
| JobPool.CancelJob | src/jobservice/pool/redis_pool.go:539-565 | a cancel succeeds exactly for a running generic job whose cancel command is sent; it sends nothing else |
| JobPool.RetryJob | src/jobservice/pool/redis_pool.go:568-583 | a retry succeeds exactly for a dead job (DieAt set) whose retry call succeeds; a live job is refused with no call |
| JobPool.PurgeOne | src/jobservice/pool/redis_pool.go:641-667 | one execution of the policy: a running one gets a stop command, a pending scheduled one is deleted from the schedule, any other is left alone; a failed lookup or call counts as a failure |
| JobPool.DeleteScheduledJobsOfPeriodicPolicy | src/jobservice/pool/redis_pool.go:618-675 | executions are listed from four minutes before now; a failed listing does nothing; otherwise the calls and failure count are those of the executions in order |
| JobPool.PurgeStopsOnlyRunning | src/jobservice/pool/redis_pool.go:647-655 | every stop command of the clean-up goes to an execution that was running |
| JobPool.StatOf | src/jobservice/pool/redis_pool.go:430-449 | a pool is reported Dead exactly when its last heartbeat is more than ten seconds old |
| JobPool.PoolReport | src/jobservice/pool/redis_pool.go:430-449 | as many entries as there are set heartbeats, every one of them for a set heartbeat |
| JobPool.PoolReportEmpty | src/jobservice/pool/redis_pool.go:451-453 | the report is empty exactly when every heartbeat is unset |
| JobPool.PoolReportSound | src/jobservice/pool/redis_pool.go:430-449 | every reported pool comes from a set heartbeat and carries that heartbeat's status |
| JobPool.PoolReportComplete | src/jobservice/pool/redis_pool.go:431-449 | every set heartbeat is reported, in order: its entry follows those of the set heartbeats before it |
| JobPool.DeadStaysDead | src/jobservice/pool/redis_pool.go:436-439 | a pool is healthy up to ten seconds after its heartbeat and dead after that, and once dead stays dead |
| JobPool.Stats | src/jobservice/pool/redis_pool.go:421-458 | an unreadable heartbeat list is an error; otherwise the result is an error exactly when no heartbeat is set, and is the non-empty report of the set heartbeats otherwise |
| JobPool.GenerateResult | src/jobservice/pool/redis_pool.go:766-784 | nil gives empty stats; a job gives Pending stats with its ID, name, kind, uniqueness, enqueue time, the update time, and a link under /api/v1/jobs/ |
| JobPool.RefLinkNamesJob | src/jobservice/pool/redis_pool.go:781 | the reference link of a generated result leads back to the job's ID |
| JobPool.OpCommandAsWritten | src/jobservice/pool/redis_pool.go:722-739 | as written, success only guarantees a two-item list whose second item is a string |
| JobPool.OpCommandAsWrittenAcceptsNonStringID | src/jobservice/pool/redis_pool.go:731-735 | as written, a non-string job ID is accepted and the command goes to job "" |
| JobPool.OpCommand | src/jobservice/pool/redis_pool.go:722-739 | a command is accepted exactly when it is a list of two strings, and it yields those two strings |
| JobPool.OpCommandRefinesAsWritten | src/jobservice/pool/redis_pool.go:731-735 | the corrected check agrees with the written one wherever it accepts, and rejects the non-string ID the written one accepts |
| JobWrapper.EffectiveMaxFails | src/jobservice/pool/redis_job_wrapper.go:264-267 | the retry bound is always positive; a job's own non-zero MaxFails is kept, and zero falls back to the pool default |
| JobWrapper.ShouldDisableRetry | src/jobservice/pool/redis_job_wrapper.go:263-280 | retries are turned off only when this failure still leaves room under the bound; they are always turned off then for a cancelled job or one that does not want retries; a job that was not cancelled has them turned off only when it does not want retries |
| JobWrapper.DisableRetryMonotone | src/jobservice/pool/redis_job_wrapper.go:263-280 | if retries are turned off after some number of failures, they are also turned off after fewer |
| JobWrapper.RunAsWritten | src/jobservice/pool/redis_job_wrapper.go:54-157 | as written: a context that cannot be built records Error and disables retries; otherwise Running is recorded, then the outcome's status; a panic returns nil; a unique job's signature is deleted exactly when its context was built, whatever the outcome |
| JobWrapper.RunAsWrittenHidesPanic | src/jobservice/pool/redis_job_wrapper.go:87-100 | as written, a job that panics is recorded as Error but reported to the work queue as success |
| JobWrapper.Run | src/jobservice/pool/redis_job_wrapper.go:54-157 | Running and then the outcome's status are recorded; the queue sees success exactly for a succeeded or stopped job; the final status is Error exactly when an error other than cancellation is returned; a panic returns the runtime error; retries are disabled as the retry rule says; a unique job's signature is deleted exactly when its context was built |
| JobWrapper.LaunchSubJob | src/jobservice/pool/redis_job_wrapper.go:211-248 | a sub-job is launched only when a launch function is provided and the sub-job is not the running job itself (an infinite loop otherwise); bookkeeping (multiple executions, upstream link, attached execution) happens exactly on success |
| JobController.ClassOf | src/jobservice/core/controller.go:52-105 | the controller's own refusals (empty ID, invalid request, unknown job, invalid parameters) are never classed as not-found or conflict; only back-end errors can be |
| JobController.ValidJobReq | src/jobservice/core/controller.go:167-207 | a request is accepted exactly when it is valid; each error is the first failing check (nil job, blank name, missing metadata, unsupported kind, scheduled without delay, periodic without or with a bad cron) |
| JobController.Controller.constructor | src/jobservice/core/controller.go:45-49 | the controller wraps the given pool |
| JobController.Controller.LaunchJob | src/jobservice/core/controller.go:52-105 | an invalid request, an unknown job name or invalid parameters are refused with no call to the pool; otherwise the job is dispatched by kind; the result succeeds exactly when enqueuing does; a status hook is registered after enqueuing, and the hook status records whether that worked |
| JobController.CheckJobID | src/jobservice/core/controller.go:108-156 | the pool is consulted exactly when the job ID is not blank; a blank ID is the empty-ID error; otherwise the pool's answer is passed on |
| JobController.GetJob | src/jobservice/core/controller.go:108-115 | the stats are returned exactly when the ID is not blank and the stats manager has them |
| JobController.PoolAnswer | src/jobservice/core/controller.go:118-142 | a pool call succeeds exactly when the pool reports no error; it is not-found exactly when the lookup found no job |
| JobController.StopJob | src/jobservice/core/controller.go:118-124 | the pool is consulted exactly for a non-blank ID, and the stop succeeds exactly when the pool's stop rules succeed |
| JobController.CancelJob | src/jobservice/core/controller.go:127-133 | the pool is consulted exactly for a non-blank ID, and the cancel succeeds exactly when the pool's cancel rule succeeds |
| JobController.RetryJob | src/jobservice/core/controller.go:136-142 | the pool is consulted exactly for a non-blank ID, and the retry succeeds exactly when the pool's retry rule succeeds |
| JobController.GetJobLogData | src/jobservice/core/controller.go:145-156 | the log bytes are returned exactly when the ID is not blank and the log back end has them, and they are its bytes |
| JobController.BlankIDRefusedTwice | src/jobservice/core/controller.go:118-142 | a blank ID is refused by the controller before the pool, and the pool's own checks would refuse it too |
| JobApi.PreCheckFailure | src/jobservice/api/handler.go:275-282 | without a controller the answer is 500 and no controller call is made |
| JobApi.JsonResponse | src/jobservice/api/handler.go:252-265 | marshalled data is sent with the given code; a marshalling failure is a 500 error |
| JobApi.FailureResponse | src/jobservice/api/handler.go:120-128 | a missing object is 404 with the bare error; any other failure is 500 with the wrapped error |
| JobApi.PayloadFailure | src/jobservice/api/handler.go:78-89 | a body that cannot be read or decoded is a 500 |
| JobApi.HandleLaunchJobReq | src/jobservice/api/handler.go:72-106 | the controller is called exactly when it exists and the body decodes; a conflict is 409, other failures 500; a launched job is 202 with its stats, and 202 only then |
| JobApi.HandleGetJobReq | src/jobservice/api/handler.go:109-133 | the controller is asked for the path's job ID; failures map through the 404/500 rule; stats are sent with 200 |
| JobApi.ActionCall | src/jobservice/api/handler.go:159-196 | exactly "stop", "cancel" and "retry" select a controller call, each its own |
| JobApi.HandleJobActionReq | src/jobservice/api/handler.go:137-202 | a known action calls the matching controller method; an unknown action is 501; success is 204 and 204 only then; failures map through the 404/500 rule under the action's own wrapper |
| JobApi.HandleCheckStatusReq | src/jobservice/api/handler.go:206-218 | the controller is asked for the pool statistics; a failure is 500; the statistics are sent with 200 |
| JobApi.HandleJobLogReq | src/jobservice/api/handler.go:221-250 | an ID holding ".." or a path separator is 400 with no call; otherwise the log is sent with 200, or the failure maps through the 404/500 rule |
| JobApi.NoControllerFailsClosed | src/jobservice/api/handler.go:275-282 | without a controller, every handler answers 500 and calls nothing |
| JobApi.BlankJobIDIsServerError | src/jobservice/api/handler.go:109-133 | a blank job ID reaches the client as 500, not 404, for both stats and log |
| JobAuth.DoAuth | src/jobservice/api/authenticator.go:48-77 | a request passes exactly when its trimmed header starts with "Harbor-Secret" and the trimmed secret after it is not empty and equals the configured one; each error names the first failing check |
| JobAuth.TrimLeadingSpace | src/jobservice/api/authenticator.go:63-64 | trimming a space in front of a trimmed string gives the string back |
| JobAuth.HeaderRoundTrip | src/jobservice/api/authenticator.go:48-77 | the header "Harbor-Secret <s>" for a trimmed, non-empty s passes exactly when s is the configured secret |
| JobAuth.EmptyExpectedRejectsAll | src/jobservice/api/authenticator.go:63-74 | with no secret configured, no request passes |
| JobHooks.StatusMapTranslates | src/core/service/notifications/jobs/handler.go:28-36 | the status map knows exactly the job service's status names, and sends each to the database name of the same status |
| JobHooks.DbStatusInjective | src/core/service/notifications/jobs/handler.go:28-36 | no two statuses share a database name |
| JobHooks.Handler.Prepare | src/core/service/notifications/jobs/handler.go:47-73 | the handler goes on exactly when the path ID parses and the reported status is known, and then holds the translated status; otherwise it answers 200 and stops |
| JobHooks.Handler.HandleScan | src/core/service/notifications/jobs/handler.go:77-85 | writes the status to the scan job with the handler's ID; a database failure is 500 |
| JobHooks.Handler.HandleReplication | src/core/service/notifications/jobs/handler.go:89-96 | writes the status to the replication job with the handler's ID; a database failure is 500 |
| RegistryctlAuth.ServeHTTP | src/registryctl/handlers/handler.go:59-88 | no authenticator is 500; a request is served exactly when a handler exists and it is authenticated or its path is marked insecure; an unauthenticated request to any other path is 401 |
| RegistryctlAuth.OnlyHealthIsInsecure | src/registryctl/handlers/handler.go:28-42 | with the configured table, only the exact path /api/health is served without a valid secret |
| RegistryctlAuth.NoAuthenticatorNothingServed | src/registryctl/handlers/handler.go:59-66 | without an authenticator nothing is served, not even the health check |
| ClairJob.Validate | src/jobservice/job/impl/scan/clair_job.go:54-56 | the scan job accepts every parameter map |
| ClairJob.Registration | src/jobservice/job/impl/scan/clair_job.go:44-51 | the scan job registers as a job with MaxFails 1 and no retries |
| ClairJob.ScanJobNeverNeedsRetryDisabled | src/jobservice/job/impl/scan/clair_job.go:44-51 | with MaxFails 1 and no retries, the wrapper never has to turn retries off for a scan job, cancelled or not |
| ClairJob.FirstMissing | src/jobservice/job/impl/scan/clair_job.go:125-149 | init succeeds exactly when the registry URL, the JOBSERVICE_SECRET variable, the token service URL and the Clair URL are all present and non-empty; a reported property is the first one missing, all earlier ones being present |
| ClairJob.ScanJob.Init | src/jobservice/job/impl/scan/clair_job.go:125-149 | returns the first missing property; each field is filled exactly when init reaches its property and finds it, and keeps its value otherwise |
| ClairJob.BuildBlobURL | src/jobservice/job/impl/utils/utils.go:89-91 | a layer's path starts with the registry endpoint, /v2/ and the repository, and ends with /blobs/ and the digest |
| ClairJob.LayerDigests | src/jobservice/job/impl/scan/clair_job.go:170-173 | the layers are the manifest's references minus the image configuration, so there are never more layers than references |
| ClairJob.LayerAt | src/jobservice/job/impl/scan/clair_job.go:166-184 | layer k is named by the hash of the digest chain up to it; its parent is named by the chain before it (none for the first); its path is its blob URL; its headers are exactly "Connection: close" and the bearer token; its format is "Docker" |
| ClairJob.DigestsStep | src/jobservice/job/impl/scan/clair_job.go:170-173 | one more reference adds its digest unless it is the image configuration |
| ClairJob.ChainStep | src/jobservice/job/impl/scan/clair_job.go:174-185 | appending the layer built for one more digest keeps the list a layer chain |
| ClairJob.PrepareLayers | src/jobservice/job/impl/scan/clair_job.go:161-187 | a manifest that does not unmarshal fails with no layers; otherwise the layers are exactly the chain of the manifest's layer digests |
| ClairJob.PrepareStep | src/jobservice/job/impl/scan/clair_job.go:169-185 | one pass of the loop: a configuration reference leaves the digest chain and the layers as they were, any other reference extends the chain and adds its layer |
| ClairJob.ParentLinks | src/jobservice/job/impl/scan/clair_job.go:181-183 | each layer after the first names its predecessor as parent, and the first has none |
| ClairJob.SharedBaseSharesNames | src/jobservice/job/impl/scan/clair_job.go:174-177 | two images with the same base layers give those layers the same names, so Clair analyses a shared base once |
| ClairJob.ConfigOnlyManifestHasNoLayers | src/jobservice/job/impl/scan/clair_job.go:170-173 | a manifest whose only reference is the image configuration yields no layers |
| ClairJob.RunAfterPrepareAsWritten | src/jobservice/job/impl/scan/clair_job.go:103-122 | as written, a scan with no layers indexes past the end and panics |
| ClairJob.ConfigOnlyScanIsReportedAsSuccess | src/jobservice/job/impl/scan/clair_job.go:112 | as written, scanning a configuration-only manifest panics; it is recorded as Error, but the wrapper hands the work queue a nil error |
| ClairJob.RunAfterPrepare | src/jobservice/job/impl/scan/clair_job.go:103-122 | with the missing check added, the scan never panics; it succeeds exactly when there are layers, every layer scan, the result fetch and the update succeed; with layers it behaves as written |
| ClairUtils.Level | src/common/utils/clair/utils.go:28-42 | every severity has a level from 1 to 5 |
| ClairUtils.SevOfLevel | src/common/utils/clair/utils.go:105 | the inverse of Level on 1..5, as the summary's integer entries are read back |
| ClairUtils.LevelInjective | src/common/utils/clair/utils.go:105 | two severities share a level exactly when they are equal |
| ClairUtils.MaxSev | src/common/utils/clair/utils.go:86-90 | the larger of two severities is one of them and at least both |
| ClairUtils.ParseClairSev | src/common/utils/clair/utils.go:28-42 | by its name lower-cased as Go does: negligible, low and medium give their severities; high and critical both give High; every other name is Unknown |
| ClairUtils.ParseIgnoresCase | src/common/utils/clair/utils.go:28-42 | a name and its lower-cased form parse alike |
| ClairUtils.ParseDottedCapitalI | src/common/utils/clair/utils.go:28-42 | "HİGH" and "CRİTİCAL", with a capital I with dot above, parse as High, as Go lower-cases that letter to i |
| ClairUtils.SevOfVulns | src/common/utils/clair/utils.go:84-91 | a component's severity is at least each of its vulnerabilities' and is one of them, or None when it has none |
| ClairUtils.CountOf | src/common/utils/clair/utils.go:83-93 | no more components have a severity than there are components |
| ClairUtils.CountOfStep | src/common/utils/clair/utils.go:93 | one more component adds one to its own severity's count and nothing to the others |
| ClairUtils.OwnSevCounted | src/common/utils/clair/utils.go:83-93 | every component's severity has a positive count |
| ClairUtils.CountInSplit | src/common/utils/clair/utils.go:83-93 | a count over a set of severities splits into the count of one member and the count of the rest |
| ClairUtils.CountInAll | src/common/utils/clair/utils.go:80-93 | a set holding every component's severity counts every component |
| ClairUtils.CountInEmpty | src/common/utils/clair/utils.go:83-93 | no component has a severity in the empty set |
| ClairUtils.ComponentSev | src/common/utils/clair/utils.go:84-91 | the inner loop computes the component's severity |
| ClairUtils.CountSeverities | src/common/utils/clair/utils.go:83-94 | vulnMap holds exactly the severities that occur, each with the number of components that have it |
| ClairUtils.CountsStep | src/common/utils/clair/utils.go:85-95 | counting one more component raises its own severity's entry by one, creating it at 1, and vulnMap stays exact |
| ClairUtils.Summarize | src/common/utils/clair/utils.go:95-106 | one summary entry per occurring severity, none twice, each with its true positive count and the counts summing to the number of components; the overall severity is at least every key and is a key, or None |
| ClairUtils.SummaryDone | src/common/utils/clair/utils.go:95-106 | once every key is visited, the loop state gives the summary's promises |
| ClairUtils.SummaryStep | src/common/utils/clair/utils.go:95-106 | visiting one more key keeps the summary loop's invariant |
| ClairUtils.VisitedStep | src/common/utils/clair/utils.go:98-107 | visiting one more key moves it from the keys left to the keys visited, and no key is visited twice |
| ClairUtils.TalliedStep | src/common/utils/clair/utils.go:102-106 | appending the visited key's entry keeps the summary's counts plus those of the keys left equal to the number of components |
| ClairUtils.SumCountsAppend | src/common/utils/clair/utils.go:103-105 | appending an entry adds its count to the total |
| ClairUtils.AllKeysCountAll | src/common/utils/clair/utils.go:80-94 | the keys of vulnMap between them count every component |
| ClairUtils.EntriesOf | src/common/utils/clair/utils.go:101-105 | one entry per visited key, holding its level and count, in visiting order |
| ClairUtils.EntriesOfFacts | src/common/utils/clair/utils.go:95-106 | visiting each key once gives a summary with distinct, correct, complete entries |
| ClairUtils.TransformVuln | src/common/utils/clair/utils.go:67-117 | the total is the number of components and the summary's counts add up to it; entries are distinct, correct and cover every occurring severity; the overall severity is the largest component severity (None for no components) |
| ClairUtils.OverallIsSomeSev | src/common/utils/clair/utils.go:95-100 | a severity with a positive count belongs to some component |
| ClairUtils.UpdateScanOverview | src/common/utils/clair/utils.go:45-64 | more than one logger or a failed result fetch is an error with no write; otherwise the overview of the layer's components is written for the digest and layer, with an overall severity at least every component's; the call succeeds exactly when the write does |
| RepoSync.Insert | src/core/api/utils.go:138-139 | putting a name into a sorted list keeps it sorted and adds exactly that name |
| RepoSync.SortStrings | src/core/api/utils.go:138-139 | sorting gives an ascending permutation of the list |
| RepoSync.RepeatCountsTwice | src/core/api/utils.go:138-139 | a name at two places of a list occurs at least twice in it |
| RepoSync.SortedDistinctIsStrict | src/core/api/utils.go:141-201 | a sorted list without duplicates is strictly ascending, as the merge walk needs |
| RepoSync.RepositoryExist | src/core/api/utils.go:284-294 | a repository exists exactly when it lists a tag; "not found" and an empty list mean it does not; any other listing failure is an error |
| RepoSync.TailAddsMembers | src/core/api/utils.go:203-233 | after the database list runs out, exactly the remaining registry names whose project exists, whose client builds and which have tags are added; failures only skip a name |
| RepoSync.DiffRepos | src/core/api/utils.go:133-241 | the outcome is the merge walk over the sorted lists; added names come from the registry, deleted ones from the database, both sorted; on success with duplicate-free lists, a name is added exactly when it is only in the registry and addable, and deleted exactly when it is in the database and, if also in the registry, has no tags there; an error names a registry repository whose client or tag listing failed |
| RepoSync.MergeRepos | src/core/api/utils.go:141-240 | the merge loop computes the merge walk over the two sorted lists |
| RepoSync.MergeStep | src/core/api/utils.go:144-200 | one round of the first loop compares the two heads and either advances the walk by one decision, keeping what is left to decide, or stops with the partial lists and the error the walk yields |
| RepoSync.MergeDiffRest | src/core/api/utils.go:203-238 | once one list is used up, the walk adds the remaining addable registry names and deletes every remaining DB name, without error |
| RepoSync.AddRemaining | src/core/api/utils.go:203-233 | the second loop appends exactly the remaining registry names that are addable, in order; a failed lookup only skips a name |
| RepoSync.DelRemaining | src/core/api/utils.go:235-238 | the third loop appends every remaining DB name, in order |
| RepoSync.ThenAdd | src/core/api/utils.go:178 | appending an added name and then the rest equals the rest with the name in front |
| RepoSync.ThenDel | src/core/api/utils.go:180 | appending a deleted name and then the rest equals the rest with the name in front |
| RepoSync.TailAddsStep | src/core/api/utils.go:203-233 | one step of the tail loop decides about one name and leaves the rest to the following steps |
| RepoSync.MergeDiffShape | src/core/api/utils.go:141-240 | the walk adds only registry names and deletes only database names; sorted inputs give sorted outputs |
| RepoSync.ConsSorted | src/core/api/utils.go:143-201 | the head of a sorted list in front of a sorted selection from its tail is sorted |
| RepoSync.BelowHeadNotIn | src/core/api/utils.go:147-181 | a name below the head of a strictly sorted list is not in the list, so a name the walk passes is missing from the other list |
| RepoSync.MergeDiffMembers | src/core/api/utils.go:141-240 | on strictly sorted lists without error, a name is added exactly when it is only in the registry and addable, and deleted exactly when it is in the database and, if also in the registry, has no tags |
| RepoSync.MergeDiffError | src/core/api/utils.go:162-191 | an error names a registry repository whose client could not be built or whose tag listing failed; when every client builds and every listing answers, there is no error |
| RepoSync.MergeDiffErrorNames | src/core/api/utils.go:162-191 | an error names a registry repository whose client could not be built or whose tag listing failed |
| RepoSync.MergeDiffNoError | src/core/api/utils.go:162-191 | when every registry name's client builds and every tag listing answers, the walk ends without error |
| RepoSync.DiffReposShape | src/core/api/utils.go:133-241 | the shape facts hold for the lists diffRepos is given, before sorting |
| RepoSync.DiffReposMembers | src/core/api/utils.go:133-241 | the membership and error facts hold for the lists diffRepos is given, before sorting |
| RepoSync.TailAddsSorted | src/core/api/utils.go:203-233 | the tail loop adds names in sorted order |
| RepoSync.TransformVulnerabilities | src/core/api/utils.go:297-326 | a missing layer gives no items; otherwise one item per (component, vulnerability) pair, component by component, in order |
| RepoSync.ItemsOfAppend | src/core/api/utils.go:306-324 | the items of two runs of components are the items of each, in order |
| RepoSync.ItemsComplete | src/core/api/utils.go:306-324 | every (component, vulnerability) pair yields its item |
| RepoSync.ItemsSound | src/core/api/utils.go:306-324 | every item comes from some (component, vulnerability) pair, with the parsed severity |
| ProjectMember.ResolveEntity | src/core/api/projectmember.go:200-224 | a positive user ID wins, then a positive group ID; then a user name is onboarded, then an LDAP group DN; an onboarding failure is passed on; a request naming nothing resolves to entity 0 with no type |
| ProjectMember.AddProjectMember | src/core/api/projectmember.go:197-246 | a member is inserted exactly when the entity resolves to a positive ID, the member lookup answers, the entity is not yet a member of the project, and the role is 1 to 3; the inserted member carries the project, entity, type and role; a non-positive entity is refused, and an existing member is a duplicate whatever the role |
| ProjectMember.DuplicateBeforeRole | src/core/api/projectmember.go:236-243 | an existing member is reported as a duplicate whatever role the request asks for |
| ProjectMember.AddedMemberIsNew | src/core/api/projectmember.go:229-245 | after a successful addition, the member was not in the table before, is in it after, and has a positive ID and a valid role |
| ProjectMember.PostRequest | src/core/api/projectmember.go:140-144 | Post trims the LDAP group DN and changes nothing else of the request |
| ProjectMember.PostStatus | src/core/api/projectmember.go:146-166 | success is 201 and only success; a missing user or group is 404; a duplicate LDAP group or member is 409; an invalid role or DN is 400; anything else is 500 |
| ProjectMember.InvalidRoleIsBadRequest | src/core/api/projectmember.go:140-166 | a new member with a role outside 1..3 is answered 400 and nothing is stored |
| ProjectMember.Put | src/core/api/projectmember.go:170-184 | a role outside 1..3 is 400 with no update; otherwise the member's role is updated, and the answer is 200 exactly when the update succeeds |
| ProjectMember.ProjectMemberApi.Prepare | src/core/api/projectmember.go:53-100 | unauthenticated is 401; a project ID that does not parse or is not positive is 400; a failed lookup answers its own code and a missing project 404; a found project is kept; without read access for a GET or full access it is 403; PUT and DELETE need a positive member ID; the request goes on exactly when every check passes, and then holds the member ID, or 0 when it does not parse |
| TokenCreator.ParseImg | src/core/service/token/creator.go:123-138 | a name without '/' is refused; otherwise the namespace holds no '/', the repository no ':', and the name is namespace/repository[:tag] |
| TokenCreator.SplitTwice | src/core/service/token/creator.go:123-138 | splitting at the first '/' and then at the first ':' puts the pieces back together |
| TokenCreator.ParseFormatImg | src/core/service/token/creator.go:123-138 | parsing a written image gives it back when its namespace has no '/' and its repository no ':' |
| TokenCreator.Parse | src/core/service/token/creator.go:100-119 | the basic parser is parseImg; the endpoint parser refuses a name without '/' |
| TokenCreator.EndpointParse | src/core/service/token/creator.go:108-119 | the endpoint parser strips its own endpoint and parses the rest; any other first segment is refused |
| TokenCreator.Permission | src/core/service/token/creator.go:191-197 | the permission is a prefix of "RWM": all three for full access, RW for write, R for read, empty otherwise |
| TokenCreator.PermissionMonotone | src/core/service/token/creator.go:191-197 | stronger access never gives a shorter permission |
| TokenCreator.RegistryFilter | src/core/service/token/creator.go:149-161 | any resource but the catalog is refused and left alone; the catalog keeps its actions for a system administrator and loses them for anyone else |
| TokenCreator.RepositoryFilter | src/core/service/token/creator.go:169-202 | a name that does not parse or a failed project lookup is an error that leaves the actions alone; a missing project gets no actions; otherwise the actions are those of the user's permission on the project |
| TokenCreator.ParseScopes | src/core/service/token/creator.go:249-256 | the scopes are every scope query value split on spaces, in query order |
| TokenCreator.ScopesOfFacts | src/core/service/token/creator.go:249-256 | no parsed scope contains a space, and every query value yields at least one scope |
| TokenCreator.OneValueRoundTrip | src/core/service/token/creator.go:253 | joining the scopes of one value with spaces gives the value back |
| TokenCreator.CreateGate | src/core/service/token/creator.go:215-237 | a missing security context or project manager is an error; an anonymous request with no scope is unauthorized; everything else goes on to the filters |
| TokenCreator.AnonymousPullPassesGate | src/core/service/token/creator.go:232-237 | an anonymous request that names a scope (an anonymous pull) is let through to the filters |
| ProxyInterceptors.DigestShape | src/core/proxy/interceptors.go:336-338 | a reference is a digest exactly when it is "sha256:" followed by 64 characters |
| ProxyInterceptors.ShortRefIsTag | src/core/proxy/interceptors.go:336-338 | a reference shorter than 71 characters is never taken for a digest |
| ProxyInterceptors.IsDigest | src/core/proxy/interceptors.go:335-338 | a digest reference starts with "sha256:" and has 64 characters after it |
| ProxyInterceptors.MatchPullManifest | src/core/proxy/interceptors.go:41-53 | a request matches exactly when it is a GET whose path matches the manifest pattern; a match yields the pattern's reference and its repository without a trailing '/'; no match yields empty strings |
| ProxyInterceptors.CatalogListing | src/core/proxy/interceptors.go:56-66 | any path containing /v2/_catalog lists repositories for a GET and for no other method |
| ProxyInterceptors.ReadonlyGate | src/core/proxy/interceptors.go:165-174 | in read-only mode, DELETE, POST, PATCH and PUT are refused with 403, and nothing else is refused |
| ProxyInterceptors.ReadsAlwaysPass | src/core/proxy/interceptors.go:165-174 | reads, and everything outside read-only mode, pass the gate |
| ProxyInterceptors.UrlHandler | src/core/proxy/interceptors.go:120-159 | a request that is not a manifest pull is forwarded unchanged; a repository without '/' is 400; a client or manifest lookup failure is 500; otherwise the pull is forwarded with the repository, reference, digest, and the project named by the repository's first segment |
| ProxyInterceptors.ContentTrustEnabled | src/core/proxy/interceptors.go:80-87 | content trust counts as enabled when the project says so or its lookup fails |
| ProxyInterceptors.VulnerablePolicy | src/core/proxy/interceptors.go:88-95 | a failed project lookup means prevention on at Unknown severity; otherwise the project's flag and parsed severity |
| ProxyInterceptors.MatchNotaryDigest | src/core/proxy/interceptors.go:301-333 | a failed Notary call is an error; otherwise the loop answers what the front-to-back walk over the consulted targets answers |
| ProxyInterceptors.NotaryMatchMeaning | src/core/proxy/interceptors.go:309-332 | a match means some consulted target carries the image's digest; an error means some consulted target's digest could not be read; no match means every consulted target was read and differs |
| ProxyInterceptors.OtherTagsIgnored | src/core/proxy/interceptors.go:318-329 | for a tag reference, targets under other tags never change the answer |
| ProxyInterceptors.ContentTrustGate | src/core/proxy/interceptors.go:232-258 | a pull passes exactly when there is nothing to check, Notary is off, the digest is empty, trust is off, or Notary has a matching signed digest; a Notary failure is 500; an unsigned image is 412 |
| ProxyInterceptors.UnsignedRefusedOnLookupFailure | src/core/proxy/interceptors.go:80-87 | when the project lookup fails, an image Notary does not vouch for is refused with 412 (fail closed) |
| ProxyInterceptors.VulnerableGate | src/core/proxy/interceptors.go:264-299 | every refusal is 412; a pull passes exactly when there is nothing to check, Clair is off, the digest is empty, prevention is off, or the image has a scan result with a severity below the threshold |
| ProxyInterceptors.LookupFailureAdmitsOnlyClean | src/core/proxy/interceptors.go:88-95 | when the project lookup fails, only images whose scan shows no vulnerability pass |
| ProxyInterceptors.ThresholdMonotone | src/core/proxy/interceptors.go:275-297 | a stricter (lower) threshold never lets through an image a laxer one refuses |
| Notifier.BoundCountChange | src/core/notifier/notifier.go:30-36 | changing one topic's handlers changes each type's bound count by that topic's contribution only |
| Notifier.NoChannelNoCount | src/core/notifier/notifier.go:42-56 | under the watcher's invariant, a type without a channel is bound statefully by no topic |
| Notifier.AddKeepsConsistent | src/core/notifier/notifier.go:71-108 | registering a new handler type and binding its channel keeps the invariant: no empty topic, handlers filed under their type, and one channel per statefully bound type whose count is the number of topics binding it |
| Notifier.AddKeepsCounts | src/core/notifier/notifier.go:97-105 | after binding, every channel's count is the number of topics that bind its type statefully, and is positive |
| Notifier.RemoveKeepsConsistent | src/core/notifier/notifier.go:121-145 | revoking a handler and unbinding its channel keeps the invariant |
| Notifier.RemoveKeepsCounts | src/core/notifier/notifier.go:121-139 | after revoking and unbinding, every remaining channel's count is the number of topics still binding its type statefully, and is positive |
| Notifier.RemoveKeepsCover | src/core/notifier/notifier.go:121-139 | a type still bound statefully somewhere keeps its channel after a revoke |
| Notifier.ChannelsDetermined | src/core/notifier/notifier.go:42-56 | the channel table is determined by the handler table |
| Notifier.AddRemoveRoundTrip | src/core/notifier/notifier.go:71-164 | registering a new handler type on a topic and revoking it again restores the handler table |
| Notifier.HandleUnHandleRestores | src/core/notifier/notifier.go:71-164 | registering then revoking the same type restores both the handler table and the channel counts |
| Notifier.NotificationWatcher.constructor | src/core/notifier/notifier.go:62-68 | a new watcher has no topics and no channels |
| Notifier.NotificationWatcher.Handle | src/core/notifier/notifier.go:71-108 | a blank topic, a nil handler and a type already on the topic are refused and change nothing; otherwise the handler is added under its type and a stateful type's channel count goes up by one; the invariant is kept |
| Notifier.NotificationWatcher.Revoke | src/core/notifier/notifier.go:121-145 | a type on the topic is removed (the topic with its last handler) and a stateful type's count goes down, its channel removed at zero; any other call changes nothing; the invariant is kept |
| Notifier.NotificationWatcher.UnHandle | src/core/notifier/notifier.go:113-164 | a blank topic is refused; an unknown topic or type fails and changes nothing; a blank handler name revokes the whole topic; a known type is revoked alone; the invariant is kept |
| Notifier.NotificationWatcher.Notify | src/core/notifier/notifier.go:167-221 | a blank topic or a topic without handlers is an error; otherwise every handler of the topic is dispatched once, and each stateful one has its channel |
| Notifier.KeepOneLess | src/core/notifier/notifier.go:149-153 | revoking one kept type is the same as keeping one type fewer, which is how revoking every type of a topic empties it |
| RegistryEvents.CheckEvent | src/core/service/notifications/registry/handler.go:190-202 | an event is recorded exactly when it is a push, or a pull not made by the registry client that replication uses (recognised after Go's TrimSpace and ToLower) |
| RegistryEvents.FromInternalClient | src/core/service/notifications/registry/handler.go:193-198 | the client is recognised only when its trimmed user agent has the length of "harbor-registry-client" |
| RegistryEvents.DottedCapitalIIsInternal | src/core/service/notifications/registry/handler.go:193-198 | Go lower-cases a capital I with dot above to i, so a user agent that writes one in place of an i of the client's name is the client |
| RegistryEvents.InternalPullIgnored | src/core/service/notifications/registry/handler.go:190-202 | pulls by the replication client, and actions other than pull and push, are never recorded; their pushes are |
| RegistryEvents.Kept | src/core/service/notifications/registry/handler.go:162-188 | the kept events are manifest events that pass checkEvent, taken from the notification |
| RegistryEvents.KeptStep | src/core/service/notifications/registry/handler.go:165-185 | one more event is kept exactly when it is a manifest event that passes checkEvent |
| RegistryEvents.KeptCount | src/core/service/notifications/registry/handler.go:162-188 | filterEvents keeps no more events than the notification has |
| RegistryEvents.KeptCountStep | src/core/service/notifications/registry/handler.go:165-185 | one more event adds one to the count exactly when it is kept |
| RegistryEvents.KeptCountIsLength | src/core/service/notifications/registry/handler.go:162-188 | counting the kept events gives the length of the kept list |
| RegistryEvents.KeptComplete | src/core/service/notifications/registry/handler.go:165-185 | every manifest event that passes checkEvent is kept |
| RegistryEvents.KeptAppend | src/core/service/notifications/registry/handler.go:165-185 | filtering distributes over concatenation, so kept events stay in their order |
| RegistryEvents.FilterEvents | src/core/service/notifications/registry/handler.go:162-188 | the loop returns exactly the kept events, in order |
| RegistryEvents.EventVar.constructor | src/core/service/notifications/registry/handler.go:165 | the loop variable holds the event it is given |
| RegistryEvents.AliasedView | src/core/service/notifications/registry/handler.go:181 | as written, every returned pointer reads the last event of the notification, as many times as events were kept |
| RegistryEvents.FilterEventsAsWritten | src/core/service/notifications/registry/handler.go:162-188 | as written, every appended pointer is the address of the one loop variable, so all of them read the notification's last event |
| RegistryEvents.AliasingReturnsDroppedEvent | src/core/service/notifications/registry/handler.go:181 | for a push followed by a "mount" event, the push is kept but the written code hands Post the mount, which checkEvent had dropped |
| RegistryEvents.AutoScanEnabled | src/core/service/notifications/registry/handler.go:204-211 | auto scan is on exactly when Harbor runs with Clair and the project asks for it |
| RegistryEvents.UserOf | src/core/service/notifications/registry/handler.go:71-74 | the access log names the actor, or "anonymous" when there is none; never the empty name |
| RegistryEvents.Post | src/core/service/notifications/registry/handler.go:46-159 | a body that does not decode starts nothing; otherwise Post, over the events the corrected filterEvents keeps, starts what each event's step starts, until a step stops the loop |
| RegistryEvents.PostAsWritten | src/core/service/notifications/registry/handler.go:46-159 | as written: Post runs its loop over the aliased pointers, so every event it handles is the notification's last one, as many times as events were kept |
| RegistryEvents.AliasingLosesPushEffects | src/core/service/notifications/registry/handler.go:57-158 | for a manifest push followed by a mount, the corrected Post adds the repository, publishes the push and, with scanning on, scans it; as written it only logs a mount |
| RegistryEvents.HandleEvent | src/core/service/notifications/registry/handler.go:63-158 | the loop body starts the access log; a push also adds the repository if missing, stops when the manifest is not ready, publishes the push, and triggers a scan when auto scan is on and Clair's data is ready; a pull increases the pull count; a failed project lookup stops the loop, and an unknown project skips the event |
| RegistryEvents.AppendAssoc | src/core/service/notifications/registry/handler.go:63-158 | concatenation of effect lists is associative |
| RegistryEvents.PostEffectsUnfold | src/core/service/notifications/registry/handler.go:63-158 | from the k-th event on, Post starts that event's effects and then, unless it stops, the rest |
| RegistryEvents.PostEffectsAppend | src/core/service/notifications/registry/handler.go:63-158 | when no event stops the loop, Post over a + b starts what it starts over a, then over b |
| RegistryEvents.LookupErrorStopsPost | src/core/service/notifications/registry/handler.go:77-81 | a failed project lookup ends Post: no later event has any effect |
| RegistryEvents.UnknownProjectSkipped | src/core/service/notifications/registry/handler.go:82-85 | an event for an unknown project is skipped as if it were not there |
| RegistryEvents.PostEffectsFacts | src/core/service/notifications/registry/handler.go:71-148 | every access log names a user, and a scan is triggered only with Clair deployed and its data ready |
| CommonControllers.IsUserResetable | src/core/controllers/base.go:231-244 | a user may reset the password exactly when the user exists, the auth mode is known, and it is database auth or the user is the administrator (ID 1) |
| CommonControllers.OnlyAdminOutsideDbAuth | src/core/controllers/base.go:231-244 | outside database auth only the administrator can reset a password |
| CommonControllers.Login | src/core/controllers/base.go:56-74 | the session holds a user exactly when login returns one; a failure or no user is 401 |
| CommonControllers.UserExists | src/core/controllers/base.go:82-104 | the value goes in the query field the target names, username or email, and any other target queries nothing; the answer is the database's for that query; a database failure is 500 |
| CommonControllers.SendResetEmail | src/core/controllers/base.go:107-190 | an invalid address is 400; a failed lookup 500; an unknown address 404; a user who may not reset 403; a reset UUID is stored exactly for a resettable user; the mail is sent exactly when the handler finishes, which needs the store and the mail to succeed |
| CommonControllers.ResetPassword | src/core/controllers/base.go:193-229 | an empty UUID is 400; a failed lookup 500; an unknown UUID 400; a user who may not reset 403; the new password is written exactly for a resettable user with a non-empty password, and the handler finishes exactly when the write succeeds |
| CommonControllers.NonResettableUntouched | src/core/controllers/base.go:212-215 | a user who may not reset gets 403 and no password is written |
| CommonControllers.MailOnlyAfterStoredUuid | src/core/controllers/base.go:107-190 | a reset mail is sent only after the reset UUID was stored for that address |
| PortalGuards.ProjectPageIsGuest | src/portal/src/app/shared/route/auth-user-activate.service.ts:38-46 | a project page URL matches the guest pattern |
| PortalGuards.ProjectListIsNotGuest | src/portal/src/app/shared/route/auth-user-activate.service.ts:38-46 | the project list with no project ID after it does not match the guest pattern |
| PortalGuards.IsGuest | src/portal/src/app/shared/route/auth-user-activate.service.ts:38-46 | a guest URL holds a prefix, at least one digit, a slash and one more character, so it is at least 16 characters long |
| PortalGuards.GuestIgnoresCase | src/portal/src/app/shared/route/auth-user-activate.service.ts:39-41 | the `/i` flag: a URL is a guest URL exactly when its lower-cased form is |
| PortalGuards.GuestAnywhere | src/portal/src/app/shared/route/auth-user-activate.service.ts:39-41 | the patterns are unanchored: text before or after a guest URL keeps it a guest URL |
| PortalGuards.AuthCheck | src/portal/src/app/shared/route/auth-user-activate.service.ts:48-85 | messages are cleared, the read-only notice is shown exactly in read-only mode, and search is closed before anything else; the user is fetched exactly when none is cached; the route is allowed exactly when a user is cached or fetched, or the URL is a guest URL, the root or the sign-in page; it is refused exactly when the router navigates, and then only to sign-in with the URL as redirect target |
| PortalGuards.SignInGuard | src/portal/src/app/shared/route/sign-in-guard-activate.service.ts:28-62 | with `signout` the user is signed off, and the route is allowed and the session cleared exactly when sign-off succeeds, with no lookup and no navigation; without it, the user is fetched exactly when none is cached, and the sign-in page is allowed exactly when no user is cached and none can be fetched, otherwise the router goes to the project list |
| PortalGuards.SignInAndAuthComplement | src/portal/src/app/shared/route/sign-in-guard-activate.service.ts:44-60 | for a URL that needs a user, exactly one of the authentication guard and the sign-in guard lets it through |
| PortalGuards.MemberCheck | src/portal/src/app/shared/route/member-guard-activate.service.ts:35-79 | the route is allowed exactly when a user is cached or fetched and the user is a member or the project is public (public == 1); the router goes to the project list exactly when it is refused; the stored member list is the membership answer for a member and empty otherwise |
| PortalGuards.PublicProjectOpen | src/portal/src/app/shared/route/member-guard-activate.service.ts:66-69 | a public project admits every signed-in user and leaves a non-member's member list empty |
| PortalGuards.MemberGuard | src/portal/src/app/shared/route/member-guard-activate.service.ts:35-79 | the session's member list, the verdict and the navigation are MemberCheck's; the session holds a user afterwards exactly when it had one or the fetch succeeded |
| ProjectResolver.ProjectIdOf | src/portal/src/app/project/project-routing-resolver.service.ts:40-43 | the `id` route parameter when given, else the `project_id` query parameter; an ID is given exactly when one of the two is |
| ProjectResolver.Annotate | src/portal/src/app/project/project-routing-resolver.service.ts:50-59 | a system administrator is administrator and member of every project under the system-administrator role name; anyone else is administrator exactly for role 1, member exactly for a positive role, and has a role name exactly when the role is known |
| ProjectResolver.SysAdminDominates | src/portal/src/app/project/project-routing-resolver.service.ts:50-59 | the system administrator's flags are at least those of any project role, and they always carry a role name |
| ProjectResolver.Resolve | src/portal/src/app/project/project-routing-resolver.service.ts:37-71 | a fetched project is resolved with no navigation, and with a signed-in user its role fields are Annotate's and its role ID is kept; without a user it is untouched; a missing project or a failed fetch resolves to nothing and goes to the project list |
| SignIn.AfterSignIn | src/portal/src/app/account/sign-in/sign-in.component.ts:230-268 | an invalid form is an error and sends nothing; a request is sent exactly when the form is valid and none is in flight, and then the status is on-going |
| SignIn.AfterAnswer | src/portal/src/app/account/sign-in/sign-in.component.ts:180-186 | success keeps the status; failure makes it an error |
| SignIn.AfterUpdate | src/portal/src/app/account/sign-in/sign-in.component.ts:223-227 | the status is never an error afterwards, and a status that is not an error is kept |
| SignIn.NoDoubleRequest | src/portal/src/app/account/sign-in/sign-in.component.ts:230-268 | two clicks in a row send at most one request |
| SignIn.FailureIsRecoverable | src/portal/src/app/account/sign-in/sign-in.component.ts:180-186 | after a failure and a form change, a valid form sends again |
| SignIn.RememberedIn | src/portal/src/app/account/sign-in/sign-in.component.ts:110-116 | the read-back name is empty exactly when the cookie is absent or blank, and otherwise occurs in the cookie's value |
| SignIn.RememberedCookies | src/portal/src/app/account/sign-in/sign-in.component.ts:164-177 | when remember-me is on and the principal is not the remembered name, the cookie holds the principal, for the site root, expiring ten days (864000000 ms) later; every other cookie is unchanged, and otherwise the jar is unchanged |
| SignIn.RememberRoundTrip | src/portal/src/app/account/sign-in/sign-in.component.ts:110-116 | a principal written by remeberMe is read back on the next visit, when it has no white space at its ends |
| SignIn.SignUpImpliesForgetPwd | src/portal/src/app/account/sign-in/sign-in.component.ts:143-151 | self sign-up is offered only where password recovery is, and neither for LDAP |
| SignIn.SelfSignUp | src/portal/src/app/account/sign-in/sign-in.component.ts:142-146 | the sign-up link needs self-registration, and shows only under database authentication |
| SignIn.ShowForgetPwd | src/portal/src/app/account/sign-in/sign-in.component.ts:148-151 | the forgotten-password link shows under database authentication and never under LDAP or UAA |
| SignIn.SignInComponent.constructor | src/portal/src/app/account/sign-in/sign-in.component.ts:46-69 | status normal, remember-me on, no remembered name, principal or redirect |
| SignIn.SignInComponent.OnInit | src/portal/src/app/account/sign-in/sign-in.component.ts:79-117 | the redirect target is the `redirect_url` query value when set; a remembered name fills the principal and turns remember-me on |
| SignIn.SignInComponent.ClickRememberMe | src/portal/src/app/account/sign-in/sign-in.component.ts:153-162 | unchecking forgets the remembered name and deletes exactly the remember-me cookie; checking changes nothing else |
| SignIn.SignInComponent.RemeberMe | src/portal/src/app/account/sign-in/sign-in.component.ts:164-177 | the cookie jar becomes RememberedCookies of the old jar; nothing else changes |
| SignIn.SignInComponent.SignIn | src/portal/src/app/account/sign-in/sign-in.component.ts:230-244 | the new status and whether a request is sent are AfterSignIn's |
| SignIn.SignInComponent.SignInSucceeded | src/portal/src/app/account/sign-in/sign-in.component.ts:245-262 | the user is remembered as RememberedCookies says, and the router goes to the redirect target or, without one, the project list |
| SignIn.SignInComponent.SignInFailed | src/portal/src/app/account/sign-in/sign-in.component.ts:180-186 | the status is AfterAnswer's for a failure; nothing else changes |
| SignIn.SignInComponent.UpdateState | src/portal/src/app/account/sign-in/sign-in.component.ts:223-227 | the status is AfterUpdate's; nothing else changes |
| AddMember.Candidates | src/portal/src/app/project/member/add-member/add-member.component.ts:131-139 | exactly the listed users that start with the typed text and are not yet members |
| AddMember.Suggestions | src/portal/src/app/project/member/add-member/add-member.component.ts:131-139 | at most ten names, a prefix of the candidates; a list shorter than ten holds every candidate |
| AddMember.SuggestionsStep | src/portal/src/app/project/member/add-member/add-member.component.ts:133-137 | one more user is appended exactly when it is a candidate and the list holds fewer than ten |
| AddMember.BuildSuggestions | src/portal/src/app/project/member/add-member/add-member.component.ts:131-139 | the forEach loop yields Suggestions of the users |
| AddMember.SuggestedNameNotTaken | src/portal/src/app/project/member/add-member/add-member.component.ts:116-139 | a name the autocomplete offers is never refused as taken by a lookup of the same members, every member's own name is, and a failed lookup refuses nothing |
| AddMember.ErrorMessageKey | src/portal/src/app/project/member/add-member/add-member.component.ts:184-194 | 404 is "user does not exist", 409 "already a member", anything else "unknown error", each exactly for its statuses |
| AddMember.SubmitFeedback | src/portal/src/app/project/member/add-member/add-member.component.ts:164-198 | success exactly when the add succeeded; the application-level handler exactly for an HTTP error it handles; otherwise ErrorMessageKey's message for an HTTP error, and nothing for any other failure |
| AddMember.AddMemberComponent.constructor | src/portal/src/app/project/member/add-member/add-member.component.ts:55-82 | no member yet, no role, the dialog closed and unchanged, the name counts as valid, the tooltip is "required", no check in flight and no suggestions |
| AddMember.AddMemberComponent.IsValid | src/portal/src/app/project/member/add-member/add-member.component.ts:251-256 | the form is never valid while a name check is in flight or after the name was refused, and is valid when the form controls are, the name passed and no check is running |
| AddMember.AddMemberComponent.OnInit | src/portal/src/app/project/member/add-member/add-member.component.ts:91-151 | the user list is loaded and the name checker subscribed exactly for a project on which the user is administrator; nothing else changes |
| AddMember.AddMemberComponent.Autocomplete | src/portal/src/app/project/member/add-member/add-member.component.ts:131-139 | the suggestion list becomes Suggestions of the users for the typed text; nothing else changes |
| AddMember.AddMemberComponent.NameChanged | src/portal/src/app/project/member/add-member/add-member.component.ts:105-149 | the lookup starts exactly when the checker is subscribed and the name passes its validators, and then a check is in flight and the form is not valid; an invalid name gets the "required" tooltip; the entity name, role, dialog flags, user list and subscription are unchanged |
| AddMember.AddMemberComponent.NameLookupAnswered | src/portal/src/app/project/member/add-member/add-member.component.ts:116-129 | the check is over; a taken name makes the name and the form invalid with the "already a member" tooltip, and a free name changes neither; nothing else changes |
| AddMember.AddMemberComponent.OnSubmit | src/portal/src/app/project/member/add-member/add-member.component.ts:158-161 | the add is sent exactly when the name is set and not empty |
| AddMember.AddMemberComponent.SubmitAnswered | src/portal/src/app/project/member/add-member/add-member.component.ts:162-198 | the dialog closes and the feedback is SubmitFeedback's; nothing else changes |
| AddMember.AddMemberComponent.SelectedName | src/portal/src/app/project/member/add-member/add-member.component.ts:203-206 | the picked name becomes the entity name and the suggestions close; nothing else changes |
| AddMember.AddMemberComponent.LeaveInput | src/portal/src/app/project/member/add-member/add-member.component.ts:213-215 | the suggestions close; nothing else changes |
| AddMember.AddMemberComponent.OpenAddMemberModal | src/portal/src/app/project/member/add-member/add-member.component.ts:232-242 | the dialog opens unchanged, with role 1, an empty name that counts as valid, the "required" tooltip and no suggestions |
| ProjectPolicyConfig.InitByProject | src/portal/lib/src/project-policy-config/project-policy-config.component.ts:34-40 | each flag is on exactly when its metadata value is "true"; the severity is the metadata's when set and otherwise kept |
| ProjectPolicyConfig.InitIdempotent | src/portal/lib/src/project-policy-config/project-policy-config.component.ts:34-40 | reading the same metadata twice is reading it once |
| ProjectPolicyConfig.InitAgrees | src/portal/lib/src/project-policy-config/project-policy-config.component.ts:34-40 | two policies read from the same metadata are equal exactly when the metadata sets a severity or they had the same one |
| ProjectPolicyConfig.InitValid | src/portal/lib/src/project-policy-config/project-policy-config.component.ts:125-131 | the default policy is valid, and reading metadata with an offered or unset severity keeps a policy with an offered severity valid |
| ProjectPolicyConfig.IsValid | src/portal/lib/src/project-policy-config/project-policy-config.component.ts:125-131 | a policy that does not prevent vulnerable images is always valid; a preventing one is valid exactly when its threshold is high, medium, low or negligible |
| ProjectPolicyConfig.UnknownSeverityInvalid | src/portal/lib/src/project-policy-config/project-policy-config.component.ts:125-131 | a preventing policy with any severity that is not offered, "critical" among them, is invalid |
| ProjectPolicyConfig.ProjectPolicyConfigComponent.constructor | src/portal/lib/src/project-policy-config/project-policy-config.component.ts:49-64 | both policies are the default, every flag off and severity "low", and no save is in flight |
| ProjectPolicyConfig.ProjectPolicyConfigComponent.HasChanges | src/portal/lib/src/project-policy-config/project-policy-config.component.ts:133-135 | there are changes exactly when some field of the edited policy differs from the one read (compareValue compares field by field) |
| ProjectPolicyConfig.ProjectPolicyConfigComponent.Retrieve | src/portal/lib/src/project-policy-config/project-policy-config.component.ts:106-115 | both policies are re-read with InitByProject from a fetched project; a failed fetch changes nothing |
| ProjectPolicyConfig.ProjectPolicyConfigComponent.Save | src/portal/lib/src/project-policy-config/project-policy-config.component.ts:137-157 | the update is sent exactly when the edited policy differs from the one read, and a save is then in flight |
| ProjectPolicyConfig.ProjectPolicyConfigComponent.SaveAnswered | src/portal/lib/src/project-policy-config/project-policy-config.component.ts:143-156 | the save is over; after a successful update the policies are re-read, otherwise they are kept |
| ProjectPolicyConfig.ProjectPolicyConfigComponent.Reset | src/portal/lib/src/project-policy-config/project-policy-config.component.ts:170-172 | the edited policy becomes the one read, so nothing is left to save |
| ProjectPolicyConfig.ProjectPolicyConfigComponent.ConfirmCancel | src/portal/lib/src/project-policy-config/project-policy-config.component.ts:174-179 | only a confirmed answer to the configuration dialog resets the edited policy |
| SearchResult.ShownStable | src/portal/src/app/base/global-search/search-result.component.ts:76-89 | showing shown results again changes nothing, and without Helm charts no chart is shown |
| SearchResult.PushAll | src/portal/src/app/base/global-search/search-result.component.ts:80-86 | each forEach/push loop appends every source record, in order |
| SearchResult.Clone | src/portal/src/app/base/global-search/search-result.component.ts:76-89 | the copy holds all projects and repositories and, exactly with Helm charts, all charts; no answer gives an empty result |
| SearchResult.SearchableNotEmpty | src/portal/src/app/base/global-search/search-result.component.ts:115-126 | a term that passes the blank check is never empty, so the empty-term branch cannot run |
| SearchResult.SearchResultComponent.constructor | src/portal/src/app/base/global-search/search-result.component.ts:34-42 | empty results, no copy, no term, panel closed and no search in flight |
| SearchResult.SearchResultComponent.DoSearch | src/portal/src/app/base/global-search/search-result.component.ts:115-154 | a search is sent exactly for a non-blank term while none is in flight, and then the panel is open and the term recorded; otherwise nothing changes |
| SearchResult.SearchResultComponent.SearchAnswered | src/portal/src/app/base/global-search/search-result.component.ts:144-153 | the search is over; an answer is kept as the original and shown as Clone says; a failure keeps both |
| SearchResult.SearchResultComponent.Show | src/portal/src/app/base/global-search/search-result.component.ts:104-106 | the panel opens; nothing else changes |
| SearchResult.SearchResultComponent.Close | src/portal/src/app/base/global-search/search-result.component.ts:109-112 | the panel closes; the results and the in-flight flag are kept |

## Left out

- Concurrency and scheduling are not modelled: the worker pool's goroutines, back-off and heartbeat, the delayed kill in `RedisJob.Run`, the pub/sub message server, and the goroutine dispatch in `Notify`. `Notifier.NotificationWatcher.Notify` returns the handlers it would trigger instead of starting them.
- Redis, the database, the registry, Notary, Clair, the mail server and every HTTP client are answers passed in, not models. The stats manager, the enqueuer, `dao.*`, the project manager, `ManifestExist`, the Notary target lookup and the registry catalogue are all of this kind.
- The foreign primitives are parameters: `sha256` in `prepareLayers`, `cron.Parse`, the manifest URL and media-type patterns, the e-mail pattern, `permToActions`, the token creator's `projectOf`, and `time.Now`.
- Go's map iteration order is arbitrary. `RegisterJobs` and the Clair summary take their keys in an order the model leaves open, and their contracts state only facts that hold for every order.
- Constants defined in files that are not part of this model are written out here:
  - the Clair `Severity` values 1 to 5 and the names `negligible` to `high`;
  - the job and database status strings;
  - the portal's `CommonRoutes`, `Roles.PROJECT_ADMIN` (1) and `RoleInfo`, which is a parameter map;
  - the confirmation dialog targets and states, and a new `SearchResults` (three empty lists).
- Go's `strings.ToLower` is modelled by `GoStrings.GoToLower`, which lower-cases A to Z, U+0130 and U+212A (the only characters whose lower case is ASCII) and keeps every other character. Go also lower-cases other non-ASCII letters, but always to non-ASCII ones, so the comparisons with the ASCII names in `ParseClairSev` and `checkEvent` come out the same.
- JavaScript strings are UTF-16 code units, while a Dafny `char` is a Unicode scalar value. The portal models agree with the source on every string made of characters from the Basic Multilingual Plane.
- The `/i` flag of the guest pattern is modelled for ASCII letters only.
- A nil Go slice or map and an empty one are the same value here.
- The uint32 `boundCount` of `notifier.go` is an unbounded count. The model does not wrap at 2^32, because the count is the number of subscribed topics.
- Logging is not modelled: the job logger, `log.*`, and the sign-in page's `console.error` in `handleError`.
- Only the format of `BuildBlobURL` is used, through `ClairJob`. The rest of `src/jobservice/job/impl/utils/utils.go` is not part of this model.
- The project member API's `Get` and `Delete` are not modelled, because they hold no decision beyond the permission check in `Prepare`.
- In `creator.go`, `GetResourceActions`, `filterAccess` and `MakeToken` live in files that are not part of this model. `TokenCreator.CreateGate` therefore models `Create` only up to its authentication rule, and `Handler.Get` in `src/core/service/token/token.go` is not modelled.
- The proxy caches the Notary endpoint in a package variable. That endpoint is only passed on to the Notary lookup, which is an answer here, so the model has no such variable.
- The manifest URL pattern is a regular expression. The model takes its match, the repository and the reference, as a function parameter. The catalogue pattern contains no special characters, so it is modelled as a substring test.
- `listReposHandler` re-encodes the catalogue against the database and is not modelled.
- CommonControllers.SendResetEmail: the mail template, the external endpoint and the e-mail configuration collapse into one outcome of the mail step.
- `LogOut` in `base.go` holds no decision and is not modelled.
- `doSearch` has a branch for `term === ""` that clears the results. It can never run, because a blank term has already returned (`SearchResult.SearchableNotEmpty`), so the model has no such branch.
- `searchTrigger.clear` in `close` is not modelled; it only notifies another component.
- RxJS timing is not modelled: the name checker's `debounceTime`/`distinctUntilChanged`, and the change-detection timers started after the autocomplete and after a submit. `AddMember.AddMemberComponent.NameChanged` is the handler for a name that got through them.
- Dialog wiring, skin and configuration loading are not modelled: the sign-up and forgotten-password dialogs, `appTitle`, the custom skin, `ngAfterViewChecked` and the `hasChanged` subscription, `withNotary`/`withClair`, and `ngOnInit`'s project-ID check and system-information fetch in the project policy panel.
- `canActivateChild` of each guard is `canActivate`, so it is the same function here.
- `ProjectPolicy` is an object the panel updates in place. It is a value here, because the panel's two policies are never the same object (`reset` stores a clone), and `compareValue`/`clone` are structural.
- `onCancel` of the add-member dialog (close and form reset) is not modelled, because the form is not modelled.
- The job service's `JobWithOptions` handler table, the body of `buildContext` (apart from whether it succeeds) and the work-pool internals are not modelled. `WaitForManifestReady` timing is an answer.

## Findings

| source | as written | input that shows it | evidently intended | confidence | as-written member | corrected member |
|---|---|---|---|---|---|---|
| src/jobservice/pool/redis_pool.go:731-735 | the second type assertion overwrites `ok`, so only the command's type is checked | the command list `[42, "stop"]`: the job ID assertion fails, the command is sent anyway, and it goes to job `""` | reject the message unless both items are strings | high, not executed | JobPool.OpCommandAsWritten, JobPool.OpCommandAsWrittenAcceptsNonStringID | JobPool.OpCommand, JobPool.OpCommandRefinesAsWritten |
| src/jobservice/pool/redis_job_wrapper.go:87-100 | the recover block assigns `err`, but `Run`'s result is unnamed, so the assignment is lost and `Run` returns nil | a job body that panics: the status becomes Error, but the work queue is told the job succeeded and never retries it | return the runtime error to the work queue | medium, not executed | JobWrapper.RunAsWritten, JobWrapper.RunAsWrittenHidesPanic | JobWrapper.Run |
| src/jobservice/job/impl/scan/clair_job.go:112 | `layers[len(layers)-1]` is read without checking that a layer exists | a manifest whose only reference is its config: no layer is built, the index panics, and by the row above the scan is reported as successful | fail the scan when the manifest has no layers | medium, not executed | ClairJob.RunAfterPrepareAsWritten, ClairJob.ConfigOnlyScanIsReportedAsSuccess | ClairJob.RunAfterPrepare |
| src/core/service/notifications/registry/handler.go:181 | `append(events, &event)` stores the address of the single range variable | the events `[push, mount]` of one manifest: the push is kept, but before Go 1.22 the pointer returned for it reads as the mount, which the filter dropped, so Post never adds the repository, publishes the push or scans it | append a pointer to the kept event itself | high, not executed | RegistryEvents.FilterEventsAsWritten, RegistryEvents.AliasingReturnsDroppedEvent, RegistryEvents.PostAsWritten, RegistryEvents.AliasingLosesPushEffects | RegistryEvents.FilterEvents, RegistryEvents.Post |
