# fynnie orchestrator core, modelled in Dafny

fynnie runs workflows ("FYNs"). A workflow definition is a `*.fyn.js` module in a watched directory. It declares a configuration (an id, an optional cron schedule, an optional validity window, parameters) and an ordered list of tasks: JavaScript, shell or HTTP, optionally depending on one another. The definition is either a plain object or a class written with the `@FYN`, `@Task` and `@DependsOn` decorators.

This project models the decision logic of the core, module by module:

- **FynTypes.** The records of `src/types/fyn.ts` as datatypes.
- **Cron.** The loader's fixed cron regular expression, as a field-by-field recogniser, with lemmas saying what it accepts by value.
- **FynLoader.** `validateFYN`, `loadFYN` and the registry (`getFYN`, `getAllFYNs`, `removeFYN`), and the `.fyn.js` filter of `loadAllFYNs`.
- **Decorators.** The metadata store behind the decorators, with classes and prototypes as distinct targets, plus `extractFYNMetadata` and `createFYNInstance`.
- **Scheduling.** The timer table of the scheduler, the validity-window check and `triggerFYN`.
- **Jobs.** The execution records, the status machine of `processFYNJob`, `processTaskJob`, and the dependency and status coordination of `executeTasks`.
- **Executor.** The type dispatch, the required-field checks, the defaults and the parameter-merge rules of the task executor. It also covers how a process exit or HTTP outcome becomes a task result.
- **Watcher.** The hot-reload handler `handleFileChange`.
- **Helpers.** `Base`, `Strings` and `JsMaps` hold the shared vocabulary:
  - the JavaScript string and path functions the code calls;
  - JavaScript's insertion-ordered `Map`, a sequence of distinct-key pairs whose `Contents` is the Dafny map it denotes.

All I/O is replaced by parameters:

- **Loader.**
  - A directory listing is a `Result<seq<string>>`.
  - What `require` returns for a file is a `FileSource`.
  - The `npm install` exit is an `NpmRun`.
- **Scheduler.**
  - node-cron's acceptance of an expression is an `accepts` predicate.
  - A timer is a handle drawn from a counter.
- **Jobs.**
  - Adding a job to a BullMQ queue is an `Outcome` (`enqueue`).
  - `uuidv4()` is a counter printed in decimal.
  - `new Date()` is an integer `now`.
- **Executor.**
  - Child processes, the decorated method call and the axios request are the functions of a `World`.
  - Each answers a fully built request.

`executeTasks` starts every task's async function in array order and then awaits them all. The model runs the tasks one after another in array order:

- a task sees the promises of the tasks before it;
- it waits for each listed dependency that already has a promise;
- it fails with the first such dependency that rejected;
- otherwise it is marked `running` and its job is offered to the task queue.

A task is `success` once its job is enqueued. Worker results never flow back into the task statuses or the execution records.

Two behaviours follow the code where the natural reading differs:

- **A dependent of a failed task stays `pending`.** It is never marked `skipped`: no path writes `skipped` or `cancelled`.
- **Validation does not reject dependency cycles or duplicate task ids.** A task may depend on itself (`FynLoader.SelfDependencyAccepted`).

The watcher derives a deleted file's id from its name. It takes the base name without `.js` and removes the first `.fyn` in it. For a conventionally named file this gives the declared id (`Watcher.ConventionalPathGivesId`). For an id that itself contains `.fyn` it does not (`Watcher.EmbeddedSuffixMisderived`: `my.fynance.fyn.js` stands for `myance.fyn`). The source calls this derivation simplified, so it is documented here rather than listed as a finding.

## Model

| member | source | states |
|---|---|---|
| FynTypes.ParseTaskType | src/types/fyn.ts:20 | a runtime type string names a declared task type exactly when it is `javascript`, `shell` or `http` |
| FynTypes.ParseHttpMethod | src/types/fyn.ts:24 | a method string names a declared method exactly when it is GET, POST, PUT or DELETE |
| FynTypes.TaskTypeNameRoundTrip | src/types/fyn.ts:20 | a task type and its name determine each other |
| FynTypes.HttpMethodNameRoundTrip | src/types/fyn.ts:24 | an HTTP method and its name determine each other |
| FynTypes.ExecutionStatusName | src/types/fyn.ts:42 | an execution status is printed as one of pending, running, success, failed, cancelled |
| FynTypes.TaskStatusName | src/types/fyn.ts:52 | a task status is printed as one of pending, running, success, failed, skipped |
| FynTypes.StatusNamesDistinct | src/types/fyn.ts:39-57 | distinct statuses have distinct names, so a record holds exactly one of the five |
| Cron.NumberMatchesMeaning | src/core/fyn-loader.ts:125 | each field's numeric alternatives accept exactly the in-range decimal numbers (minute 0-59 with an optional leading zero; hour 0-23, day 0-31, month 1-12 and weekday 0-6 without one) |
| Cron.FieldMatchesMeaning | src/core/fyn-loader.ts:125 | a field is accepted exactly when it is `*`, an in-range number, or `*/` and an in-range number |
| Cron.ValidCronOfFields | src/core/fyn-loader.ts:125 | five space-free fields joined by single spaces are accepted exactly when every field matches its own alternatives |
| Cron.ValidCronMeaning | src/core/fyn-loader.ts:124-127 | every accepted expression is five fields joined by single spaces, each `*`, an in-range number, or a step of one |
| Cron.IsValidCron | src/core/fyn-loader.ts:124-127 | the regex test; its meaning is stated by Cron.ValidCronOfFields (both directions) and Cron.ValidCronMeaning |
| Cron.FiveFields | src/core/fyn-loader.ts:125 | the five-field acceptance condition, for fields given one by one |
| Cron.PrintedNumberAccepted | src/core/fyn-loader.ts:125 | a number printed as `String(n)` is accepted in a field exactly when it lies within the field's bounds |
| Cron.LeadingZeroOnlyInMinute | src/core/fyn-loader.ts:125 | `0d` is accepted in the minute field and in no other |
| Cron.OnlyDigitsStarsAndSlashes | src/core/fyn-loader.ts:125 | a field holding any character other than a digit, `*` or `/` is rejected: no ranges, lists or names |
| Cron.CronNeedsFiveNonEmptyFields | src/core/fyn-loader.ts:125 | an expression with other than five fields, or with an empty field, is rejected |
| Cron.EveryFiveMinutes | src/core/fyn-loader.ts:125 | `*/5 * * * *` is accepted |
| Cron.MinuteNinetyNineRejected | src/core/fyn-loader.ts:125 | `99 * * * *` is rejected |
| Cron.MonthZeroRejected | src/core/fyn-loader.ts:125 | `* * * 0 *` is rejected |
| Cron.WeekdaySevenRejected | src/core/fyn-loader.ts:125 | `* * * * 7` is rejected |
| Cron.RangeRejected | src/core/fyn-loader.ts:125 | `1-5 * * * *` is rejected |
| Cron.LeadingZeroExamples | src/core/fyn-loader.ts:125 | `05 * * * *` is accepted and `* 05 * * *` is rejected |
| FynLoader.TaskIds | src/core/fyn-loader.ts:112 | the id set holds exactly the ids of the tasks |
| FynLoader.FirstMissingIn | src/core/fyn-loader.ts:115-119 | finds the first dependency outside the id set, and finds none exactly when all resolve |
| FynLoader.FirstMissingFrom | src/core/fyn-loader.ts:113-121 | finds the first task in loop order with an unresolvable dependency and, within it, its first missing dependency (as `FirstMissingIn` gives it); none exactly when all resolve |
| FynLoader.ValidateFyn | src/core/fyn-loader.ts:98-122 | passes exactly for an id, an accepted schedule when one is given, at least one task and resolvable dependencies; each failure carries the message of the first check that fails; a dependency failure names the first offending task and its first missing dependency |
| FynLoader.SelfDependencyAccepted | src/core/fyn-loader.ts:111-121 | a task depending on itself passes validation: no cycle check |
| FynLoader.InstallDependencies | src/core/fyn-loader.ts:78-96 | resolves exactly on exit code 0; any other code rejects with the code in the message, and a spawn error rejects with its own message |
| FynLoader.Candidate | src/core/fyn-loader.ts:52-59 | a plain object is taken as it is; a class yields the configuration and tasks of `createFYNInstance`, or its error |
| FynLoader.Accept | src/core/fyn-loader.ts:34-76 | a definition is accepted exactly when install passes (or there is no `package.json`), `require` succeeds, the export gives a configuration with a non-empty id, and `validateFYN` passes; the accepted workflow is that configuration and those tasks, and it is valid; an install failure gives its message |
| FynLoader.LoadFyn | src/core/fyn-loader.ts:34-76 | returns what `Accept` decides; a failed load leaves the registry unchanged; a successful one is stored under its id, replacing any earlier entry in its place, while a new id goes last after the others in their order; a `require` failure and a missing id give their messages |
| FynLoader.LoadFynIdempotent | src/core/fyn-loader.ts:61-71 | loading the same source twice leaves registry and result as loading it once |
| FynLoader.LoadFynKeepsWf | src/core/fyn-loader.ts:68 | a load keeps every registered workflow valid and stored under its own id |
| FynLoader.GetFyn | src/core/fyn-loader.ts:129-131 | finds a workflow exactly when its id is registered, and returns the registered one |
| FynLoader.GetAllFyns | src/core/fyn-loader.ts:133-135 | position i holds the workflow of the i-th registered id, in insertion order, and exactly the registered workflows appear |
| FynLoader.RemoveFyn | src/core/fyn-loader.ts:137-139 | reports true exactly when the id was present; an absent id leaves the registry as it was; otherwise exactly that entry is cut out and the others keep their order |
| FynLoader.RemoveFynTwice | src/core/fyn-loader.ts:137-139 | a repeated removal reports false and changes nothing |
| FynLoader.RemoveFynKeepsWf | src/core/fyn-loader.ts:137-139 | removal keeps the registry invariant |
| FynLoader.DefinitionFiles | src/core/fyn-loader.ts:20-24 | keeps exactly the listed entries whose name ends in `.fyn.js` |
| FynLoader.LoadAllFyns | src/core/fyn-loader.ts:16-32 | a listing failure is rethrown; otherwise exactly the definition files are loaded, in listing order |
| FynLoader.ScanEntries | src/core/fyn-loader.ts:20-24 | the loop over all entries loads the same files, in the same order, as loading the filtered list |
| FynLoader.LoadEachKeepsWf | src/core/fyn-loader.ts:16-32 | loading a directory keeps the registry invariant and never removes an id |
| Decorators.ApplyFyn | src/decorators/fyn-decorator.ts:41-46 | `@FYN` stores its configuration on the class; every other target keeps exactly the configuration it had, or none |
| Decorators.TaskMetaOf | src/decorators/fyn-decorator.ts:51-66 | the task id is the option when given and non-empty, else the method name; the type is the option when given and non-empty, else `javascript`; timeout, retries, params, url, method, headers, body and command are the options' own |
| Decorators.ApplyTask | src/decorators/fyn-decorator.ts:49-74 | `@Task` appends exactly one record to its target's list, keeps earlier records in order, and touches no other target |
| Decorators.ApplyDependsOn | src/decorators/fyn-decorator.ts:77-84 | `@DependsOn` writes the method's entry on `target.constructor`, replacing an earlier entry, and touches no other target |
| Decorators.ConstructorOf | src/decorators/fyn-decorator.ts:79 | a prototype's constructor is its own class |
| Decorators.ApplyAllTasks | src/decorators/fyn-decorator.ts:69-72 | the method decorators append the declared task records to the prototype in application order |
| Decorators.ApplyAllLeavesPrototypeDeps | src/decorators/fyn-decorator.ts:79-82 | no method decorator writes a dependency table on the prototype |
| Decorators.ApplyAllClassDeps | src/decorators/fyn-decorator.ts:79-82 | the class's table maps each method to the ids of its last `@DependsOn`, or leaves it alone when it has none |
| Decorators.ApplyLastDeps | src/decorators/fyn-decorator.ts:80 | one more application overwrites only the entry of the method it decorates |
| Decorators.WithDeps | src/decorators/fyn-decorator.ts:97-100 | each record gets the table's list for its method name, or `[]`, and the order and count are kept |
| Decorators.ExtractFynMetadataAsWritten | src/decorators/fyn-decorator.ts:87-106 | fails exactly for a class without `@FYN`, with its message; reads the dependency table from the prototype |
| Decorators.ExtractFynMetadata | src/decorators/fyn-decorator.ts:87-106 | the same, reading the dependency table from the class, where `@DependsOn` writes it |
| Decorators.DeclaredDependenciesLostAsWritten | src/decorators/fyn-decorator.ts:90 | as written, every extracted task of a decorated class has an empty dependency list, whatever `@DependsOn` said |
| Decorators.DeclaredDepsFor | src/decorators/fyn-decorator.ts:79-100 | the corrected extraction gives a method the ids of its last `@DependsOn`, or none |
| Decorators.DeclaredDependenciesDelivered | src/decorators/fyn-decorator.ts:87-106 | corrected, the declared tasks come back in order, each with the ids of the last `@DependsOn` on its method |
| Decorators.UndecoratedClassRejected | src/decorators/fyn-decorator.ts:92-94 | a class without `@FYN` is rejected with `Class <name> is not decorated with @FYN` in both readings |
| Decorators.PipelineDependencyExample | src/decorators/fyn-decorator.ts:77-100 | for a two-method pipeline, the code as written drops `@DependsOn('extract')` and the corrected reading keeps it |
| Decorators.ToTaskConfig | src/decorators/fyn-decorator.ts:114-149 | copies the id, type, dependencies, timeout, retries, params, url, method, headers, body and command; attaches `execute` exactly for a `javascript` task with a method name |
| Decorators.CreateFynInstance | src/decorators/fyn-decorator.ts:108-154 | corrected reading: succeeds exactly when the class has `@FYN` and its constructor does not throw; keeps the configuration and the task count and order, each task taking its dependencies from the class's table |
| Decorators.CreateFynInstanceAsWritten | src/decorators/fyn-decorator.ts:108-154 | as written: the same success condition, configuration and tasks, each task taking its dependencies from the prototype's table |
| Decorators.Instantiate | src/decorators/fyn-decorator.ts:110-149 | `new C()` may throw with its own message; otherwise one task object per extracted record, in order |
| Decorators.InstanceDependenciesLostAsWritten | src/decorators/fyn-decorator.ts:79-90 | as written, an instance of any declared class carries every declared task with `dependsOn: []`, whatever `@DependsOn` said |
| Scheduling.GetScheduledJobs | src/core/scheduler.ts:124-126 | lists exactly the scheduled ids, each once, in the table's insertion order |
| Scheduling.UnscheduleFyn | src/core/scheduler.ts:66-73 | an absent id is a no-op; a present one loses its timer, which is stopped, and the remaining timers keep their order |
| Scheduling.StoppedTimerGone | src/core/scheduler.ts:69-70 | removing an id removes exactly its handle from the live timers |
| Scheduling.UnscheduleKeepsWf | src/core/scheduler.ts:66-73 | unscheduling keeps the live timers equal to those in the table |
| Scheduling.ScheduleFyn | src/core/scheduler.ts:37-64 | without a schedule nothing changes; otherwise the old timer is stopped and a new one is stored last, after the remaining timers in their order; if creation throws the id is left with no timer |
| Scheduling.FreshHandleWf | src/core/scheduler.ts:59 | storing a fresh handle keeps the table sound |
| Scheduling.ScheduleKeepsWf | src/core/scheduler.ts:37-64 | scheduling keeps one live timer per table entry |
| Scheduling.Stop | src/core/scheduler.ts:112-122 | after stopping no id is scheduled and every timer that was live is stopped |
| Scheduling.ScheduleAllFyns | src/core/scheduler.ts:29-35 | scheduling a list keeps the table sound |
| Scheduling.LastSchedule | src/core/scheduler.ts:29-35 | finds the schedule of the last listed workflow with the id and a schedule, or reports there is none |
| Scheduling.ScheduleAllOutcome | src/core/scheduler.ts:29-64 | after scheduling a list, an id holds a timer exactly when its last scheduled workflow's timer could be created, or, with none, when it held one before |
| Scheduling.Start | src/core/scheduler.ts:17-27 | a listing failure is rethrown before anything is scheduled; otherwise every loaded workflow is scheduled |
| Scheduling.StartSchedulesLoaded | src/core/scheduler.ts:17-64 | after start, a loaded workflow holds a timer exactly when it has a schedule whose timer could be created |
| Scheduling.WindowInclusive | src/core/scheduler.ts:93-110 | both ends of the validity window admit a run and one step outside does not |
| Scheduling.ShouldRunFyn | src/core/scheduler.ts:93-110 | a run is allowed exactly when `now` lies in the window, each bound inclusive and each absent bound open (edges in Scheduling.WindowInclusive) |
| Scheduling.TriggerFyn | src/core/scheduler.ts:75-91 | an unknown id or a time outside the window throws without creating a record; otherwise a new `pending` record is added under the next counter id, which is returned when enqueueing succeeds and whose enqueue error is rethrown otherwise |
| Scheduling.OnTick | src/core/scheduler.ts:48-53 | a tick swallows any error and never removes a record; an unknown or out-of-window workflow changes nothing, and an in-window one gets a new `pending` record |
| Jobs.FreshId | src/core/job-queue.ts:39 | the next execution id is not yet taken |
| Jobs.AddFynExecution | src/core/job-queue.ts:38-52 | stores a `pending` record with a fresh id, start time and empty logs, appended last; the record stays even when enqueueing throws |
| Jobs.GetExecution | src/core/job-queue.ts:54-56 | finds a record exactly when its id is known, and returns it |
| Jobs.GetAllExecutions | src/core/job-queue.ts:58-60 | lists every record, in the order the ids were issued |
| Jobs.AddedExecutionIsPending | src/core/job-queue.ts:38-52 | the id a successful add returns names the new `pending` record |
| Jobs.FirstRejected | src/core/job-queue.ts:149-154 | finds the first listed dependency whose promise rejected, and none exactly when every awaited dependency resolved |
| Jobs.RunOne | src/core/job-queue.ts:148-174 | a blocked task rejects and is left alone; a started one is enqueued and ends `success`, or `failed` with the rejection when adding threw |
| Jobs.FirstRejection | src/core/job-queue.ts:180 | finds a rejection exactly when some promise rejected |
| Jobs.ExecuteTasks | src/core/job-queue.ts:142-181 | every task is in the status map, none ends `running` or `skipped`, and the run fails exactly when some promise rejected |
| Jobs.InMapOrder | src/core/job-queue.ts:180 | lists each task's promise by its id |
| Jobs.SomeRejectedInOrder | src/core/job-queue.ts:180 | listing promises in map order finds a rejection exactly when the map holds one |
| Jobs.PromiseKeys | src/core/job-queue.ts:176-178 | after k steps the promise map holds exactly the ids of the first k tasks |
| Jobs.StatusRange | src/core/job-queue.ts:146-173 | the status map keeps every task id, and only `pending`, `success` and `failed` survive a step |
| Jobs.SimulateStable | src/core/job-queue.ts:176-178 | later steps never rewrite what an earlier step recorded |
| Jobs.StepOutcome | src/core/job-queue.ts:159-173 | a started task resolves when enqueued and rejects with the error otherwise; a blocked one rejects |
| Jobs.StatusSoFar | src/core/job-queue.ts:146-173 | with distinct ids, tasks that ran show their own step's outcome and the rest are `pending` |
| Jobs.PromisesSoFar | src/core/job-queue.ts:176-178 | with distinct ids, each task's id maps to the promise its own step settled |
| Jobs.StartedIff | src/core/job-queue.ts:149-156 | with distinct ids, a task becomes `running` exactly when every earlier dependency resolved; a later one is not waited for |
| Jobs.RejectionTraces | src/core/job-queue.ts:170-173 | every rejected promise goes back to a started task whose job could not be enqueued |
| Jobs.FinalStatus | src/core/job-queue.ts:146-173 | with distinct ids a task ends `success` exactly when started and enqueued, `failed` when started and adding threw, and `pending` otherwise |
| Jobs.BlockedTaskStaysPending | src/core/job-queue.ts:150-156 | a task whose earlier dependency rejected never runs and stays `pending` |
| Jobs.EnqueuedJobs | src/core/job-queue.ts:159-165 | every enqueued job belongs to a started task whose job the queue accepted |
| Jobs.BlockedTaskNotEnqueued | src/core/job-queue.ts:150-165 | no job is enqueued for a task whose earlier dependency rejected |
| Jobs.UnstartedTaskNotEnqueued | src/core/job-queue.ts:156-165 | a task that never started has no enqueued job |
| Jobs.RunFailsIffSomeTaskFails | src/core/job-queue.ts:170-180 | with distinct ids, the run fails exactly when some task ended `failed` |
| Jobs.FailedRunHasFailedTask | src/core/job-queue.ts:170-180 | a failed run has a `failed` task |
| Jobs.FailedTaskFailsRun | src/core/job-queue.ts:170-180 | a `failed` task fails the run |
| Jobs.FinalPromise | src/core/job-queue.ts:177 | the promise under a task's id is the one its own step settled |
| Jobs.IndependentTaskStarts | src/core/job-queue.ts:149 | a task without dependencies always starts |
| Jobs.Finished | src/core/job-queue.ts:105-116 | a final record keeps id, workflow, start time and logs, stamps the end time, and is `success`, or `failed` with the message |
| Jobs.ProcessFynJob | src/core/job-queue.ts:89-122 | an unknown execution throws and touches nothing; otherwise the record goes `running` and then `success` or `failed` (unknown workflow or rejected task), in place |
| Jobs.Conclude | src/core/job-queue.ts:96-117 | the two writes leave one record, in its place, with the final status |
| Jobs.ProcessFynJobEndsFinal | src/core/job-queue.ts:96-117 | no record is added or removed, and the processed one ends `success` or `failed` with an end time |
| Jobs.ProcessFynJobSucceedsIff | src/core/job-queue.ts:99-107 | with distinct task ids, a job succeeds exactly when its workflow is loaded and no task ended `failed` |
| Jobs.FindTask | src/core/job-queue.ts:129 | finds the first task with the id, and none exactly when no task has it |
| Jobs.FindFrom | src/core/job-queue.ts:129 | finds the first index at or after a start position with the id |
| Jobs.ProcessTaskJob | src/core/job-queue.ts:124-140 | a missing workflow or task throws a TypeError; otherwise the result is that of executing the first registry task with the job's id, with the job's parameters |
| Jobs.TaskJobCopyIgnored | src/core/job-queue.ts:127-133 | the task copy carried in the job never affects the result |
| Executor.TimeoutOr | src/core/task-executor.ts:48 | an absent or zero timeout takes the default |
| Executor.PlanJavaScript | src/core/task-executor.ts:37-60 | an `execute` function is called with the run's parameters overridden by the task's; otherwise a script is required and runs with the 300000 ms default |
| Executor.PlanShell | src/core/task-executor.ts:96-108 | a command is required; the environment is the process env overridden by the parameters, overridden by the task's |
| Executor.PlanHttp | src/core/task-executor.ts:133-149 | a URL is required; the timeout defaults to 30000 ms and the method to GET; headers, body and query merge with the stated precedence |
| Executor.PlanTask | src/core/task-executor.ts:15-27 | dispatches on the type string; any other type is `Unsupported task type` |
| Executor.ProcessResultOf | src/core/task-executor.ts:78-92 | exit code 0 resolves with the output; any other code rejects with a message holding the code and stderr; a spawn error rejects with its own message |
| Executor.HttpResultOf | src/core/task-executor.ts:141-162 | a response resolves; a library error is rethrown with `HTTP request failed:`; any other error unchanged |
| Executor.ExecuteTask | src/core/task-executor.ts:9-35 | a planning error is thrown before any effect; a process plan ends as the process outcome dictates, an HTTP plan as the request outcome dictates, and a call of `execute` succeeds exactly when the call returns, with its value |
| Executor.ExitMessageDeterminesCode | src/core/task-executor.ts:85 | the exit message determines the exit code and stderr |
| Executor.ExitMessage | src/core/task-executor.ts:85 | starts with `<kind> exited with code ` and ends with the captured stderr; Executor.ExitMessageDeterminesCode shows it determines both |
| Executor.CodeTextInjective | src/core/task-executor.ts:85 | distinct exit codes print differently |
| Executor.UnsupportedTypeFails | src/core/task-executor.ts:25-26 | a type outside the union fails, whatever the task's other fields |
| Executor.MissingFieldsFail | src/core/task-executor.ts:43-136 | a missing script, command or URL fails with its own message |
| Watcher.HandleFileChange | src/core/file-watcher.ts:37-69 | other paths and events change nothing; add/change leaves the registry exactly as `LoadFyn` does (order included) and reschedules on success; unlink unschedules (stopping the timer) and removes the derived id; errors never escape |
| Watcher.ConventionalPathGivesId | src/core/file-watcher.ts:58-59 | `<dir>/<id>.fyn.js` gives `<id>` when the id has no separator and no `.fyn` |
| Watcher.DeriveFynId | src/core/file-watcher.ts:58-59 | the base name without `.js`, unchanged when it has no `.fyn` and otherwise four characters shorter; Watcher.ConventionalPathGivesId and Watcher.EmbeddedSuffixMisderived give its value |
| Watcher.ReportPathExample | src/core/file-watcher.ts:58-59 | `/defs/report.fyn.js` gives `report` |
| Watcher.AddThenUnlinkForgets | src/core/file-watcher.ts:47-64 | adding and then deleting a conventionally named file removes its workflow and timer |
| Watcher.UnlinkKeepsMisnamedDefinition | src/core/file-watcher.ts:56-64 | a workflow whose declared id differs from its file name survives its file's deletion |
| Watcher.EmbeddedSuffixMisderived | src/core/file-watcher.ts:58-59 | an id containing `.fyn` is derived wrongly: the first occurrence is removed |
| Strings.IndexOf | src/core/file-watcher.ts:59 | finds the first occurrence, and none exactly when the pattern does not occur |
| Strings.ReplaceFirstOfSoleSuffix | src/core/file-watcher.ts:59 | removing the first `.fyn` from `<name>.fyn` gives `<name>` when the name has no `.fyn` |
| Strings.ReplaceFirst | src/core/file-watcher.ts:59 | an absent pattern leaves the string alone; otherwise its first occurrence, and only that, is replaced |
| Strings.LastSegment | src/core/file-watcher.ts:58 | the last segment is a separator-free suffix preceded by a separator |
| Strings.BasenameAfterSeparator | src/core/file-watcher.ts:58 | the base name of `<pre><stem><ext>` with `ext` removed is `<stem>` |
| Strings.Basename | src/core/file-watcher.ts:58 | the result holds no separator; Strings.BasenameAfterSeparator gives its value on `<pre><stem><ext>` |
| Strings.NatToString | src/core/job-queue.ts:39 | prints a canonical decimal numeral with the number's value |
| Strings.CanonicalDecimalRoundTrip | src/core/fyn-loader.ts:125 | every canonical numeral is the printed form of its value |
| Strings.NatToStringInjective | src/core/job-queue.ts:39 | distinct counter values give distinct ids |
| Strings.ParseNatOfNatToString | src/core/job-queue.ts:39 | an issued id parses back to its counter value |
| Strings.Split | src/core/fyn-loader.ts:125 | the pieces hold no separator and join back to the string |
| Strings.SplitOfJoin | src/core/fyn-loader.ts:125 | splitting a join of separator-free pieces gives the pieces back |
| JsMaps.Set | src/core/fyn-loader.ts:68 | `set` updates the contents; an existing key keeps its place and a new one goes last |
| JsMaps.Get | src/core/fyn-loader.ts:130 | `get` finds exactly the present keys and their values |
| JsMaps.Has | src/core/scheduler.ts:43 | `has` holds exactly for present keys |
| JsMaps.Delete | src/core/fyn-loader.ts:138 | `delete` cuts out exactly the key's entry, keeping the order of the others; an absent key changes nothing |
| JsMaps.Keys | src/core/scheduler.ts:125 | `keys()` lists the keys in insertion order |
| JsMaps.Values | src/core/fyn-loader.ts:134 | `values()` lists the values in insertion order |
| JsMaps.SetTwice | src/core/job-queue.ts:96-107 | a second `set` of a key overwrites the first, in place |
| JsMaps.SetSameValue | src/core/fyn-loader.ts:68 | setting a key to its current value changes nothing, order included |
| JsMaps.KeysAreContentsKeys | src/core/scheduler.ts:125 | the listed keys are distinct and are exactly the present keys |
| JsMaps.ContentsSize | src/core/fyn-loader.ts:134 | a map has one entry per present key |

## Left out

- The BullMQ queues, workers and their concurrency settings, Redis, `close` and the worker event handlers are not modelled. Adding a job is an outcome parameter, and jobs are processed by calling `ProcessFynJob` / `ProcessTaskJob` directly.
- The 100 ms sleep in each task is left out: timing is not modelled.
- The true interleaving of `executeTasks`'s async functions is replaced by sequential processing in array order.
- Jobs.ExecuteTasks: a task finds only the promises of earlier tasks. After the first `await`, the code looks later dependencies up in the full promise map, which may then hold later tasks (including the task itself, which would hang). That lookup is not modelled.
- Jobs.ExecuteTasks: when two tasks share an id, the code keeps only the later task's promise in the map, at the id's first position, and the earlier promise is never awaited. The model lists the id's final promise once per task position. The run therefore fails exactly when the code's does, but the reason reported is the first rejection in array order rather than the first in time. The properties about individual statuses assume distinct ids, which the loader does not enforce.
- Executor.PlanHttp: spreading a string or array (`{...params.headers}` when it is not an object) contributes nothing here. JavaScript would spread its indices.
- Decorators.CreateFynInstance: the loader (FynLoader.Candidate, FynLoader.Accept, FynLoader.LoadFyn) builds class exports with the corrected extraction of the finding below, so a decorated class's tasks keep their `@DependsOn` ids there. As written, every such task loads with `dependsOn: []` (Decorators.CreateFynInstanceAsWritten, Decorators.InstanceDependenciesLostAsWritten). A declared dependency on a missing task is then not rejected, and `executeTasks` never waits on a declared dependency.
- FynLoader.Candidate: built on the corrected Decorators.CreateFynInstance, for the reason in the line above.
- Executor.PlanHttp: the method is one of the four declared names (`HttpMethod`). A plain-object definition carrying another method string, such as `PATCH`, cannot be represented.
- The `reflect-metadata` prototype-chain lookup, class inheritance and static-method decorators are left out. Every decorated method is an instance method of the class being declared.
- Property names inherited from `Object.prototype` (e.g. `dependencies['constructor']`) are not modelled: tables are plain maps.
- node-cron's own parsing, its firing times and the UTC timezone are left out. Whether creating a timer throws is the `accepts` parameter, and a tick is the `OnTick` step.
- `require`, module-cache busting, `fs.ensureDir`/`readdir`, temporary script files, child processes, stream capture and the axios call are parameters or `World` functions.
- Strings.JoinPath: `path.join`'s normalisation is not modelled (a `./` prefix, `..` segments and repeated separators are kept as given). The joined path only names the definition file in the loader's messages and is the key of the `files` parameter, so no property depends on its normal form.
- The chokidar watcher setup and `stop` are not modelled. Neither is any logging.
- Watcher.HandleFileChange: the event name is a datatype (`Add`, `Change`, `Unlink` or another name) rather than a string.
- The API routes, the git sync service, the vault service, the entry point and the logger lie outside the orchestrator core and are not part of this model.
- The `execute` function of `FYN`, which only logs, is not modelled.
- `maxActiveRuns`, `catchup`, `retries` and `retryDelay` are carried in the records but never read by the code, so no property speaks of them.

## Findings

| source | as written | input that shows it | evidently intended | confidence | as-written member | corrected member |
|---|---|---|---|---|---|---|
| src/decorators/fyn-decorator.ts:79-90 | `@DependsOn` stores the dependency table on `target.constructor` (the class), but `extractFYNMetadata` reads it from `fynClass.prototype` | a class with `@Task() extract()` and `@Task() @DependsOn('extract') load()`: the extracted `load` task has `dependsOn == []` | extraction reads the table where `@DependsOn` writes it, so `load` depends on `extract` | not executed | Decorators.DeclaredDependenciesLostAsWritten | Decorators.DeclaredDependenciesDelivered |
