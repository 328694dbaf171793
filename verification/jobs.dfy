/** `JobQueue` (src/core/job-queue.ts): the table of execution records and
    the coordination of one workflow run.

    The BullMQ queues are outside the model. Adding a job is an outcome
    supplied by the caller (`Pass`: enqueued; `Fail`: `queue.add` threw);
    the jobs that were added are kept in order so that properties can speak
    of them. Worker results never flow back into the records. `uuidv4()` is a
    counter printed in decimal; `new Date()` is the integer `now`.

    `executeTasks` starts every task's async function in array order and
    then awaits them all. Here the tasks run one after another in array
    order: a task sees the promises of the tasks before it, waits for each
    dependency that has one, fails with the first such dependency that
    rejected, and otherwise is marked running and enqueues its job. */
module Jobs {
  import opened Base
  import opened Strings
  import opened JsMaps
  import opened FynTypes
  import opened FynLoader
  import opened Executor

  datatype FynJob = FynJob(executionId: string, fynId: string, params: Params)

  datatype TaskJob = TaskJob(fynId: string, taskId: string, executionId: string, task: TaskConfig, params: Params)

  datatype JobQueue = JobQueue(
    executions: JsMap<string, FynExecution>,
    nextId: nat,
    fynJobs: seq<FynJob>,
    taskJobs: seq<TaskJob>)

  const EmptyQueue := JobQueue([], 0, [], [])

  /** Every record is stored under its own id, and every id is a counter
      value already handed out. */
  ghost predicate QueueWf(q: JobQueue) {
    forall id :: id in Contents(q.executions) ==>
      && Contents(q.executions)[id].executionId == id
      && ParseNat(id).Some? && ParseNat(id).value < q.nextId && NatToString(ParseNat(id).value) == id
  }

  lemma EmptyQueueWf()
    ensures QueueWf(EmptyQueue)
  {
  }

  /** The next id is not taken. */
  lemma FreshId(q: JobQueue)
    requires QueueWf(q)
    ensures NatToString(q.nextId) !in Contents(q.executions)
  {
    ParseNatOfNatToString(q.nextId);
  }

  // ---------------------------------------------------------------------------
  // The execution table

  datatype Added = Added(queue: JobQueue, result: Result<string>)

  /** `addFYNExecution(fynId, params = {})`: stores a `pending` record with a
      fresh id, a start time and no logs, then enqueues the run. The record
      stays even when enqueueing throws. */
  function AddFynExecution(q: JobQueue, fynId: string, params: Option<Params>, now: int, enqueued: Outcome): (r: Added)
    requires QueueWf(q)
    ensures QueueWf(r.queue)
    ensures var id := NatToString(q.nextId);
            && id !in Contents(q.executions)
            && Contents(r.queue.executions)
               == Contents(q.executions)[id := FynExecution(id, fynId, Pending, Some(now), None, None, Some([]))]
            && Keys(r.queue.executions) == Keys(q.executions) + [id]
            && (enqueued.Pass? ==> r.result == Ok(id) && r.queue.fynJobs == q.fynJobs + [FynJob(id, fynId, params.GetOr(map[]))])
            && (enqueued.Fail? ==> r.result == Err(enqueued.message) && r.queue.fynJobs == q.fynJobs)
    ensures r.queue.taskJobs == q.taskJobs
  {
    var id := NatToString(q.nextId);
    FreshId(q);
    var record := FynExecution(id, fynId, Pending, Some(now), None, None, Some([]));
    var q1 := q.(executions := Set(q.executions, id, record), nextId := q.nextId + 1);
    assert QueueWf(q1) by {
      ParseNatOfNatToString(q.nextId);
    }
    match enqueued
    case Pass => Added(q1.(fynJobs := q.fynJobs + [FynJob(id, fynId, params.GetOr(map[]))]), Ok(id))
    case Fail(msg) => Added(q1, Err(msg))
  }

  /** `getExecution(executionId)`. */
  function GetExecution(q: JobQueue, executionId: string): (r: Option<FynExecution>)
    ensures r.Some? <==> executionId in Contents(q.executions)
    ensures r.Some? ==> r.value == Contents(q.executions)[executionId]
    ensures QueueWf(q) && r.Some? ==> r.value.executionId == executionId
  {
    Get(q.executions, executionId)
  }

  /** `getAllExecutions()`: every record, in the order the ids were issued. */
  function GetAllExecutions(q: JobQueue): (r: seq<FynExecution>)
    ensures |r| == |q.executions|
    ensures forall i :: 0 <= i < |r| ==> r[i] == Contents(q.executions)[q.executions[i].0]
  {
    Values(q.executions)
  }

  /** The id returned by a successful add names the new pending record. */
  lemma AddedExecutionIsPending(q: JobQueue, fynId: string, params: Option<Params>, now: int)
    requires QueueWf(q)
    ensures var r := AddFynExecution(q, fynId, params, now, Pass);
            && r.result.Ok?
            && GetExecution(r.queue, r.result.value) == Some(FynExecution(r.result.value, fynId, Pending, Some(now), None, None, Some([])))
  {
  }

  // ---------------------------------------------------------------------------
  // executeTasks

  /** How a task's promise settled. */
  datatype Settled = Resolved | Rejected(reason: string)

  /** The values `executeTasks` captures from its caller. */
  datatype RunContext = RunContext(fynId: string, executionId: string, params: Params)

  /** The state of a run after a prefix of the tasks: the `taskStatus` and
      `taskPromises` maps, and, per task position, whether the task got past
      its dependencies, how its promise settled, and the jobs enqueued so far.
      `taskStatus` is never read back and `taskPromises` is only searched by
      key and handed to `Promise.all`, so both are plain maps here. */
  datatype Progress = Progress(
    status: map<string, TaskStatus>,
    promises: map<string, Settled>,
    started: seq<bool>,
    settled: seq<Settled>,
    enqueued: seq<TaskJob>)

  /** The dependency that stops a task: the first one, in listed order,
      whose promise is already in the map and rejected. A dependency without
      a promise is not waited for. */
  function FirstRejected(promises: map<string, Settled>, deps: seq<string>): (r: Option<string>)
    ensures r.None? <==> forall d :: d in deps && d in promises ==> promises[d].Resolved?
    ensures r.Some? ==>
              exists j :: && 0 <= j < |deps| && deps[j] in promises && promises[deps[j]] == Rejected(r.value)
                          && forall i :: 0 <= i < j && deps[i] in promises ==> promises[deps[i]].Resolved?
  {
    if |deps| == 0 then None
    else if deps[0] in promises && promises[deps[0]].Rejected? then
      Some(promises[deps[0]].reason)
    else
      var rest := FirstRejected(promises, deps[1..]);
      assert forall d :: d in deps <==> d == deps[0] || d in deps[1..];
      assert forall i :: 1 <= i < |deps| ==> deps[i] == deps[1..][i - 1];
      rest
  }

  /** The status a task's own step leaves behind: blocked tasks are not
      touched, started ones end `success` or `failed`. */
  function StatusAfter(started: bool, enqueued: Outcome): TaskStatus {
    if !started then TaskPending else if enqueued.Pass? then TaskSuccess else TaskFailed
  }

  /** The job `executeTasks` adds for a task. */
  function JobOf(ctx: RunContext, task: TaskConfig): TaskJob {
    TaskJob(ctx.fynId, task.taskId, ctx.executionId, task, ctx.params)
  }

  /** One task's async function, run to completion. Blocked by a rejected
      dependency, its promise rejects with that reason and its status is
      left alone; otherwise it is marked `running` and its job is offered to
      the task queue, after which it is `success` if the job was enqueued
      and `failed` if adding it threw. */
  function RunOne(p: Progress, task: TaskConfig, ctx: RunContext, enqueue: Outcome): (r: Progress)
    ensures r.started == p.started + [FirstRejected(p.promises, DependsOn(task)).None?]
    ensures |r.settled| == |p.settled| + 1 && r.settled[..|p.settled|] == p.settled
    ensures r.promises == p.promises[task.taskId := r.settled[|p.settled|]]
    ensures !r.started[|p.started|] ==>
              && r.status == p.status && r.enqueued == p.enqueued
              && r.settled[|p.settled|] == Rejected(FirstRejected(p.promises, DependsOn(task)).value)
    ensures r.started[|p.started|] ==>
              r.status == p.status[task.taskId := StatusAfter(true, enqueue)]
    ensures r.started[|p.started|] && enqueue.Pass? ==>
              && r.settled[|p.settled|] == Resolved
              && r.enqueued == p.enqueued + [JobOf(ctx, task)]
    ensures r.started[|p.started|] && enqueue.Fail? ==>
              r.settled[|p.settled|] == Rejected(enqueue.message) && r.enqueued == p.enqueued
  {
    match FirstRejected(p.promises, DependsOn(task))
    case Some(reason) =>
      Progress(p.status, p.promises[task.taskId := Rejected(reason)], p.started + [false],
               p.settled + [Rejected(reason)], p.enqueued)
    case None =>
      var running := p.status[task.taskId := TaskRunning];
      match enqueue
      case Pass =>
        var job := JobOf(ctx, task);
        Progress(running[task.taskId := TaskSuccess], p.promises[task.taskId := Resolved],
                 p.started + [true], p.settled + [Resolved], p.enqueued + [job])
      case Fail(message) =>
        Progress(running[task.taskId := TaskFailed], p.promises[task.taskId := Rejected(message)],
                 p.started + [true], p.settled + [Rejected(message)], p.enqueued)
  }

  /** The run after its first `k` tasks, every task first set to `pending`.
      `enqueue(i)` is the task queue's answer to the job of task `i`. */
  function Simulate(tasks: seq<TaskConfig>, ctx: RunContext, enqueue: nat -> Outcome, k: nat): (p: Progress)
    requires k <= |tasks|
    ensures |p.started| == k && |p.settled| == k
    decreases k
  {
    if k == 0 then Progress(map id | id in TaskIds(tasks) :: TaskPending, map[], [], [], [])
    else RunOne(Simulate(tasks, ctx, enqueue, k - 1), tasks[k - 1], ctx, enqueue(k - 1))
  }

  /** The first rejection in a sequence of settled promises. */
  function FirstRejection(vs: seq<Settled>): (r: Option<string>)
    ensures r.None? <==> forall i :: 0 <= i < |vs| ==> vs[i].Resolved?
    ensures r.Some? ==> Rejected(r.value) in vs
  {
    if |vs| == 0 then None
    else if vs[0].Rejected? then Some(vs[0].reason)
    else
      var r := FirstRejection(vs[1..]);
      assert forall i :: 1 <= i < |vs| ==> vs[i] == vs[1..][i - 1];
      r
  }

  datatype TaskRun = TaskRun(status: map<string, TaskStatus>, promises: map<string, Settled>,
                             enqueued: seq<TaskJob>, outcome: Outcome, started: seq<bool>, settled: seq<Settled>)

  /** `executeTasks`: run every task, then `Promise.all` over the promise
      map's values in the map's order (an id's position is that of its first
      task, its promise that of its last), which rejects when any of them
      rejected. Every task is in the status map, and no task is left
      `running` or `skipped`. */
  function ExecuteTasks(tasks: seq<TaskConfig>, ctx: RunContext, enqueue: nat -> Outcome): (r: TaskRun)
    ensures |r.started| == |tasks| && |r.settled| == |tasks|
    ensures r.status.Keys == TaskIds(tasks) && r.promises.Keys == TaskIds(tasks)
    ensures forall id :: id in r.status ==> r.status[id] in {TaskPending, TaskSuccess, TaskFailed}
    ensures r.outcome.Fail? <==> exists id :: id in r.promises && r.promises[id].Rejected?
  {
    var p := Simulate(tasks, ctx, enqueue, |tasks|);
    StatusRange(tasks, ctx, enqueue, |tasks|);
    AllPromiseKeys(tasks, ctx, enqueue);
    var outcome := match FirstRejection(InMapOrder(tasks, p.promises)) case Some(reason) => Fail(reason) case None => Pass;
    SomeRejectedInOrder(tasks, p.promises);
    TaskRun(p.status, p.promises, p.enqueued, outcome, p.started, p.settled)
  }

  /** `taskPromises.values()`: the promise of each id, listed by the first
      task carrying it. Repeating an id does not change which rejection is
      first, so each task's position is listed. */
  function InMapOrder(tasks: seq<TaskConfig>, promises: map<string, Settled>): (vs: seq<Settled>)
    requires forall i :: 0 <= i < |tasks| ==> tasks[i].taskId in promises
    ensures |vs| == |tasks|
    ensures forall j :: 0 <= j < |tasks| ==> vs[j] == promises[tasks[j].taskId]
  {
    seq(|tasks|, j requires 0 <= j < |tasks| => promises[tasks[j].taskId])
  }

  lemma SomeRejectedInOrder(tasks: seq<TaskConfig>, promises: map<string, Settled>)
    requires promises.Keys == TaskIds(tasks)
    ensures FirstRejection(InMapOrder(tasks, promises)).Some? <==> exists id :: id in promises && promises[id].Rejected?
  {
    var vs := InMapOrder(tasks, promises);
    if exists id :: id in promises && promises[id].Rejected? {
      var id :| id in promises && promises[id].Rejected?;
      var j :| 0 <= j < |tasks| && tasks[j].taskId == id;
      assert vs[j].Rejected?;
    }
  }

  // ---------------------------------------------------------------------------
  // Properties of a run

  /** No two tasks share an id (the loader does not demand it). */
  predicate DistinctTaskIds(tasks: seq<TaskConfig>) {
    forall i, j :: 0 <= i < j < |tasks| ==> tasks[i].taskId != tasks[j].taskId
  }

  /** After `k` steps the promise map holds the ids of the first `k` tasks. */
  lemma {:induction false} PromiseKeys(tasks: seq<TaskConfig>, ctx: RunContext, enqueue: nat -> Outcome, k: nat)
    requires k <= |tasks|
    ensures forall id :: id in Simulate(tasks, ctx, enqueue, k).promises <==> exists i :: 0 <= i < k && tasks[i].taskId == id
    decreases k
  {
    if k > 0 {
      PromiseKeys(tasks, ctx, enqueue, k - 1);
    }
  }

  lemma AllPromiseKeys(tasks: seq<TaskConfig>, ctx: RunContext, enqueue: nat -> Outcome)
    ensures Simulate(tasks, ctx, enqueue, |tasks|).promises.Keys == TaskIds(tasks)
  {
    PromiseKeys(tasks, ctx, enqueue, |tasks|);
  }

  /** Every task stays in the status map, and no status other than
      `pending`, `success` or `failed` survives a step: `running` is always
      overwritten before the step ends and `skipped` is never written. */
  lemma {:induction false} StatusRange(tasks: seq<TaskConfig>, ctx: RunContext, enqueue: nat -> Outcome, k: nat)
    requires k <= |tasks|
    ensures var st := Simulate(tasks, ctx, enqueue, k).status;
            && st.Keys == TaskIds(tasks)
            && (forall id :: id in st ==> st[id] in {TaskPending, TaskSuccess, TaskFailed})
    decreases k
  {
    if k > 0 {
      StatusRange(tasks, ctx, enqueue, k - 1);
      assert tasks[k - 1].taskId in TaskIds(tasks);
    }
  }

  /** Later steps never rewrite what earlier steps recorded. */
  lemma {:induction false} SimulateStable(tasks: seq<TaskConfig>, ctx: RunContext, enqueue: nat -> Outcome, k: nat, i: nat)
    requires i < k <= |tasks|
    ensures Simulate(tasks, ctx, enqueue, k).started[i] == Simulate(tasks, ctx, enqueue, i + 1).started[i]
    ensures Simulate(tasks, ctx, enqueue, k).settled[i] == Simulate(tasks, ctx, enqueue, i + 1).settled[i]
    decreases k
  {
    if i + 1 < k {
      SimulateStable(tasks, ctx, enqueue, k - 1, i);
      StepKeeps(tasks, ctx, enqueue, k, i);
    }
  }

  /** One more step keeps every entry already recorded. */
  lemma StepKeeps(tasks: seq<TaskConfig>, ctx: RunContext, enqueue: nat -> Outcome, k: nat, i: nat)
    requires i + 1 < k <= |tasks|
    ensures Simulate(tasks, ctx, enqueue, k).started[i] == Simulate(tasks, ctx, enqueue, k - 1).started[i]
    ensures Simulate(tasks, ctx, enqueue, k).settled[i] == Simulate(tasks, ctx, enqueue, k - 1).settled[i]
  {
    var p := Simulate(tasks, ctx, enqueue, k - 1);
    var q := Simulate(tasks, ctx, enqueue, k);
    assert q.started == p.started + [FirstRejected(p.promises, DependsOn(tasks[k - 1])).None?];
    assert q.settled[..k - 1] == p.settled;
    assert q.settled[i] == q.settled[..k - 1][i];
  }




  /** What the final run records at position `j` is what step `j` recorded. */
  lemma FinalAt(tasks: seq<TaskConfig>, ctx: RunContext, enqueue: nat -> Outcome, j: nat)
    requires j < |tasks|
    ensures var p := Simulate(tasks, ctx, enqueue, |tasks|);
            var q := Simulate(tasks, ctx, enqueue, j + 1);
            p.started[j] == q.started[j] && p.settled[j] == q.settled[j]
  {
    SimulateStable(tasks, ctx, enqueue, |tasks|, j);
  }

  /** How task `j`'s own step settles its promise. */
  lemma StepOutcome(tasks: seq<TaskConfig>, ctx: RunContext, enqueue: nat -> Outcome, j: nat)
    requires j < |tasks|
    ensures var p := Simulate(tasks, ctx, enqueue, |tasks|);
            && (p.started[j] && enqueue(j).Pass? ==> p.settled[j] == Resolved)
            && (p.started[j] && enqueue(j).Fail? ==> p.settled[j] == Rejected(enqueue(j).message))
            && (!p.started[j] ==> p.settled[j].Rejected?)
  {
    FinalAt(tasks, ctx, enqueue, j);
  }

  /** With distinct ids, the status map after `k` steps: tasks that ran show
      the outcome of their own step, the rest are still `pending`. */
  lemma {:induction false} StatusSoFar(tasks: seq<TaskConfig>, ctx: RunContext, enqueue: nat -> Outcome, k: nat)
    requires k <= |tasks| && DistinctTaskIds(tasks)
    ensures forall i :: 0 <= i < |tasks| ==>
              && tasks[i].taskId in Simulate(tasks, ctx, enqueue, k).status
              && Simulate(tasks, ctx, enqueue, k).status[tasks[i].taskId]
                 == (if i < k then StatusAfter(Simulate(tasks, ctx, enqueue, k).started[i], enqueue(i)) else TaskPending)
    decreases k
  {
    var p := Simulate(tasks, ctx, enqueue, k);
    if k == 0 {
      forall i | 0 <= i < |tasks|
        ensures tasks[i].taskId in p.status && p.status[tasks[i].taskId] == TaskPending
      {
        assert tasks[i].taskId in TaskIds(tasks);
      }
    } else {
      StatusSoFar(tasks, ctx, enqueue, k - 1);
      var before := Simulate(tasks, ctx, enqueue, k - 1);
      forall i | 0 <= i < |tasks|
        ensures && tasks[i].taskId in p.status
                && p.status[tasks[i].taskId] == (if i < k then StatusAfter(p.started[i], enqueue(i)) else TaskPending)
      {
        if i != k - 1 {
          assert tasks[i].taskId != tasks[k - 1].taskId;
          if i < k - 1 {
            assert p.started[i] == p.started[..k - 1][i] == before.started[i];
          }
        }
      }
    }
  }

  /** With distinct ids, after `k` steps each of the first `k` tasks' ids
      maps to the promise its own step settled. */
  lemma {:induction false} PromisesSoFar(tasks: seq<TaskConfig>, ctx: RunContext, enqueue: nat -> Outcome, k: nat)
    requires k <= |tasks| && DistinctTaskIds(tasks)
    ensures forall i :: 0 <= i < k ==>
              && tasks[i].taskId in Simulate(tasks, ctx, enqueue, k).promises
              && Simulate(tasks, ctx, enqueue, k).promises[tasks[i].taskId] == Simulate(tasks, ctx, enqueue, k).settled[i]
  {
    forall i | 0 <= i < k
      ensures && tasks[i].taskId in Simulate(tasks, ctx, enqueue, k).promises
              && Simulate(tasks, ctx, enqueue, k).promises[tasks[i].taskId] == Simulate(tasks, ctx, enqueue, k).settled[i]
    {
      PromiseOf(tasks, ctx, enqueue, k, i);
    }
  }

  /** One task's entry of the promise map after `k` steps, by induction on `k`. */
  lemma {:induction false} PromiseOf(tasks: seq<TaskConfig>, ctx: RunContext, enqueue: nat -> Outcome, k: nat, i: nat)
    requires i < k <= |tasks| && DistinctTaskIds(tasks)
    ensures tasks[i].taskId in Simulate(tasks, ctx, enqueue, k).promises
    ensures Simulate(tasks, ctx, enqueue, k).promises[tasks[i].taskId] == Simulate(tasks, ctx, enqueue, k).settled[i]
    decreases k
  {
    SimulateStep(tasks, ctx, enqueue, k);
    if i < k - 1 {
      PromiseOf(tasks, ctx, enqueue, k - 1, i);
      var before := Simulate(tasks, ctx, enqueue, k - 1);
      var p := Simulate(tasks, ctx, enqueue, k);
      assert tasks[i].taskId != tasks[k - 1].taskId;
      PromiseKept(before.promises, before.settled, p.promises, p.settled, tasks[k - 1].taskId, tasks[i].taskId, i);
    }
  }

  /** Step `k` writes the promise of task `k - 1` and appends its settlement. */
  lemma SimulateStep(tasks: seq<TaskConfig>, ctx: RunContext, enqueue: nat -> Outcome, k: nat)
    requires 0 < k <= |tasks|
    ensures Simulate(tasks, ctx, enqueue, k).promises
            == Simulate(tasks, ctx, enqueue, k - 1).promises[tasks[k - 1].taskId := Simulate(tasks, ctx, enqueue, k).settled[k - 1]]
    ensures Simulate(tasks, ctx, enqueue, k).settled[..k - 1] == Simulate(tasks, ctx, enqueue, k - 1).settled
  {
  }

  /** Writing one id's promise and appending its settlement keeps what an
      earlier position with another id recorded. */
  lemma PromiseKept(pb: map<string, Settled>, sb: seq<Settled>, pa: map<string, Settled>, sa: seq<Settled>,
                    written: string, id: string, i: nat)
    requires i < |sb| < |sa| && sa[..|sb|] == sb && id != written
    requires pa == pb[written := sa[|sb|]]
    requires id in pb && pb[id] == sb[i]
    ensures id in pa && pa[id] == sa[i]
  {
    assert sa[i] == sa[..|sb|][i];
  }

  /** With distinct ids, a task gets past its dependencies (and so ever
      becomes `running`) exactly when every dependency that is an earlier
      task resolved; a dependency on a later task is not waited for. */
  lemma StartedIff(tasks: seq<TaskConfig>, ctx: RunContext, enqueue: nat -> Outcome, j: nat)
    requires j < |tasks| && DistinctTaskIds(tasks)
    ensures Simulate(tasks, ctx, enqueue, |tasks|).started[j] <==>
              forall i :: 0 <= i < j && tasks[i].taskId in DependsOn(tasks[j]) ==>
                Simulate(tasks, ctx, enqueue, |tasks|).settled[i].Resolved?
  {
    var p := Simulate(tasks, ctx, enqueue, |tasks|);
    var before := Simulate(tasks, ctx, enqueue, j);
    FinalAt(tasks, ctx, enqueue, j);
    PromisesSoFar(tasks, ctx, enqueue, j);
    PromiseKeys(tasks, ctx, enqueue, j);
    forall i | 0 <= i < j ensures p.settled[i] == before.settled[i] {
      SimulateStable(tasks, ctx, enqueue, |tasks|, i);
      SimulateStable(tasks, ctx, enqueue, j, i);
    }
  }

  /** Every rejected promise goes back to a task whose job could not be
      enqueued. */
  lemma {:induction false} RejectionTraces(tasks: seq<TaskConfig>, ctx: RunContext, enqueue: nat -> Outcome, j: nat)
    requires j < |tasks| && DistinctTaskIds(tasks)
    requires Simulate(tasks, ctx, enqueue, |tasks|).settled[j].Rejected?
    ensures exists i :: 0 <= i <= j && Simulate(tasks, ctx, enqueue, |tasks|).started[i] && enqueue(i).Fail?
    decreases j
  {
    var p := Simulate(tasks, ctx, enqueue, |tasks|);
    StepOutcome(tasks, ctx, enqueue, j);
    if !p.started[j] {
      StartedIff(tasks, ctx, enqueue, j);
      var i :| 0 <= i < j && tasks[i].taskId in DependsOn(tasks[j]) && !p.settled[i].Resolved?;
      RejectionTraces(tasks, ctx, enqueue, i);
    }
  }

  /** With distinct ids, every task ends `success` exactly when it got past
      its dependencies and its job was enqueued, `failed` when it got past
      them and enqueueing threw, and `pending` otherwise. */
  lemma FinalStatus(tasks: seq<TaskConfig>, ctx: RunContext, enqueue: nat -> Outcome, j: nat)
    requires j < |tasks| && DistinctTaskIds(tasks)
    ensures var r := ExecuteTasks(tasks, ctx, enqueue);
            && tasks[j].taskId in r.status
            && (r.status[tasks[j].taskId] == TaskSuccess <==> r.started[j] && enqueue(j).Pass?)
            && (r.status[tasks[j].taskId] == TaskFailed <==> r.started[j] && enqueue(j).Fail?)
            && (r.status[tasks[j].taskId] == TaskPending <==> !r.started[j])
  {
    StatusSoFar(tasks, ctx, enqueue, |tasks|);
  }

  /** A task blocked by a rejected earlier dependency never runs: it stays
      `pending`. */
  lemma BlockedTaskStaysPending(tasks: seq<TaskConfig>, ctx: RunContext, enqueue: nat -> Outcome, i: nat, j: nat)
    requires i < j < |tasks| && DistinctTaskIds(tasks)
    requires tasks[i].taskId in DependsOn(tasks[j])
    requires ExecuteTasks(tasks, ctx, enqueue).settled[i].Rejected?
    ensures var r := ExecuteTasks(tasks, ctx, enqueue);
            !r.started[j] && tasks[j].taskId in r.status && r.status[tasks[j].taskId] == TaskPending
  {
    assert !ExecuteTasks(tasks, ctx, enqueue).started[j] by {
      RunIsFinalProgress(tasks, ctx, enqueue);
      StartedIff(tasks, ctx, enqueue, j);
    }
    FinalStatus(tasks, ctx, enqueue, j);
  }

  /** Some task that got past its dependencies and whose job the queue
      accepted has `job` as its job. */
  ghost predicate AcceptedJob(tasks: seq<TaskConfig>, ctx: RunContext, enqueue: nat -> Outcome, started: seq<bool>, job: TaskJob) {
    exists i :: 0 <= i < |started| && i < |tasks| && started[i] && enqueue(i).Pass? && job == JobOf(ctx, tasks[i])
  }

  /** Every job enqueued belongs to a task that got past its dependencies
      and whose job the queue accepted. */
  lemma {:induction false} EnqueuedJobs(tasks: seq<TaskConfig>, ctx: RunContext, enqueue: nat -> Outcome, k: nat)
    requires k <= |tasks|
    ensures forall n :: 0 <= n < |Simulate(tasks, ctx, enqueue, k).enqueued| ==>
              AcceptedJob(tasks, ctx, enqueue, Simulate(tasks, ctx, enqueue, k).started, Simulate(tasks, ctx, enqueue, k).enqueued[n])
    decreases k
  {
    if k > 0 {
      EnqueuedJobs(tasks, ctx, enqueue, k - 1);
      var before := Simulate(tasks, ctx, enqueue, k - 1);
      var p := Simulate(tasks, ctx, enqueue, k);
      forall n | 0 <= n < |p.enqueued|
        ensures AcceptedJob(tasks, ctx, enqueue, p.started, p.enqueued[n])
      {
        if n < |before.enqueued| {
          var i :| 0 <= i < |before.started| && i < |tasks| && before.started[i] && enqueue(i).Pass?
                   && before.enqueued[n] == JobOf(ctx, tasks[i]);
          assert p.started[i] == p.started[..k - 1][i];
          assert p.enqueued[n] == before.enqueued[n];
        } else {
          assert p.started[k - 1] && enqueue(k - 1).Pass? && p.enqueued[n] == JobOf(ctx, tasks[k - 1]);
        }
      }
    }
  }

  // The records `executeTasks` returns are those of the last step.
  lemma RunIsFinalProgress(tasks: seq<TaskConfig>, ctx: RunContext, enqueue: nat -> Outcome)
    ensures var r := ExecuteTasks(tasks, ctx, enqueue);
            var p := Simulate(tasks, ctx, enqueue, |tasks|);
            && r.status == p.status && r.promises == p.promises && r.enqueued == p.enqueued
            && r.started == p.started && r.settled == p.settled
  {
  }

  /** No job is ever enqueued for a task blocked by a rejected earlier
      dependency. */
  lemma BlockedTaskNotEnqueued(tasks: seq<TaskConfig>, ctx: RunContext, enqueue: nat -> Outcome, i: nat, j: nat)
    requires i < j < |tasks| && DistinctTaskIds(tasks)
    requires tasks[i].taskId in DependsOn(tasks[j])
    requires ExecuteTasks(tasks, ctx, enqueue).settled[i].Rejected?
    ensures var r := ExecuteTasks(tasks, ctx, enqueue);
            forall n :: 0 <= n < |r.enqueued| ==> r.enqueued[n].taskId != tasks[j].taskId
  {
    assert !ExecuteTasks(tasks, ctx, enqueue).started[j] by {
      RunIsFinalProgress(tasks, ctx, enqueue);
      StartedIff(tasks, ctx, enqueue, j);
    }
    UnstartedTaskNotEnqueued(tasks, ctx, enqueue, j);
  }


  /** A task that never started has no job among those enqueued. */
  lemma UnstartedTaskNotEnqueued(tasks: seq<TaskConfig>, ctx: RunContext, enqueue: nat -> Outcome, j: nat)
    requires j < |tasks| && DistinctTaskIds(tasks)
    requires !ExecuteTasks(tasks, ctx, enqueue).started[j]
    ensures forall n :: 0 <= n < |ExecuteTasks(tasks, ctx, enqueue).enqueued| ==>
              ExecuteTasks(tasks, ctx, enqueue).enqueued[n].taskId != tasks[j].taskId
  {
    var p := Simulate(tasks, ctx, enqueue, |tasks|);
    RunIsFinalProgress(tasks, ctx, enqueue);
    EnqueuedJobs(tasks, ctx, enqueue, |tasks|);
    forall n | 0 <= n < |p.enqueued|
      ensures p.enqueued[n].taskId != tasks[j].taskId
    {
      assert AcceptedJob(tasks, ctx, enqueue, p.started, p.enqueued[n]);
      var m :| 0 <= m < |p.started| && m < |tasks| && p.started[m] && enqueue(m).Pass? && p.enqueued[n] == JobOf(ctx, tasks[m]);
      assert m != j;
    }
  }



  /** With distinct ids, `Promise.all` rejects exactly when some task ended
      `failed`. */
  lemma RunFailsIffSomeTaskFails(tasks: seq<TaskConfig>, ctx: RunContext, enqueue: nat -> Outcome)
    requires DistinctTaskIds(tasks)
    ensures var r := ExecuteTasks(tasks, ctx, enqueue);
            r.outcome.Fail? <==> exists id :: id in r.status && r.status[id] == TaskFailed
  {
    var r := ExecuteTasks(tasks, ctx, enqueue);
    if r.outcome.Fail? {
      FailedRunHasFailedTask(tasks, ctx, enqueue);
    }
    if exists id :: id in r.status && r.status[id] == TaskFailed {
      var id :| id in r.status && r.status[id] == TaskFailed;
      FailedTaskFailsRun(tasks, ctx, enqueue, id);
    }
  }

  lemma FailedRunHasFailedTask(tasks: seq<TaskConfig>, ctx: RunContext, enqueue: nat -> Outcome)
    requires DistinctTaskIds(tasks) && ExecuteTasks(tasks, ctx, enqueue).outcome.Fail?
    ensures exists i :: 0 <= i < |tasks| && ExecuteTasks(tasks, ctx, enqueue).status[tasks[i].taskId] == TaskFailed
  {
    var r := ExecuteTasks(tasks, ctx, enqueue);
    var p := Simulate(tasks, ctx, enqueue, |tasks|);
    RunIsFinalProgress(tasks, ctx, enqueue);
    var id :| id in p.promises && p.promises[id].Rejected?;
    assert id in TaskIds(tasks);
    var j :| 0 <= j < |tasks| && tasks[j].taskId == id;
    PromisesSoFar(tasks, ctx, enqueue, |tasks|);
    assert p.settled[j].Rejected?;
    RejectionTraces(tasks, ctx, enqueue, j);
    var i :| 0 <= i <= j && p.started[i] && enqueue(i).Fail?;
    StatusSoFar(tasks, ctx, enqueue, |tasks|);
    assert p.status[tasks[i].taskId] == StatusAfter(p.started[i], enqueue(i)) == TaskFailed;
  }

  lemma FailedTaskFailsRun(tasks: seq<TaskConfig>, ctx: RunContext, enqueue: nat -> Outcome, id: string)
    requires DistinctTaskIds(tasks)
    requires id in ExecuteTasks(tasks, ctx, enqueue).status && ExecuteTasks(tasks, ctx, enqueue).status[id] == TaskFailed
    ensures ExecuteTasks(tasks, ctx, enqueue).outcome.Fail?
  {
    var r := ExecuteTasks(tasks, ctx, enqueue);
    assert id in TaskIds(tasks);
    var j :| 0 <= j < |tasks| && tasks[j].taskId == id;
    FinalStatus(tasks, ctx, enqueue, j);
    FinalPromise(tasks, ctx, enqueue, j);
    assert r.settled[j].Rejected? by {
      RunIsFinalProgress(tasks, ctx, enqueue);
      StepOutcome(tasks, ctx, enqueue, j);
    }
    assert r.promises[id].Rejected?;
  }

  /** The promise recorded under a task's id is the one its own step settled. */
  lemma FinalPromise(tasks: seq<TaskConfig>, ctx: RunContext, enqueue: nat -> Outcome, j: nat)
    requires j < |tasks| && DistinctTaskIds(tasks)
    ensures tasks[j].taskId in ExecuteTasks(tasks, ctx, enqueue).promises
    ensures ExecuteTasks(tasks, ctx, enqueue).promises[tasks[j].taskId] == ExecuteTasks(tasks, ctx, enqueue).settled[j]
  {
    RunIsFinalProgress(tasks, ctx, enqueue);
    PromisesSoFar(tasks, ctx, enqueue, |tasks|);
  }


  /** A task without dependencies always gets past them. */
  lemma IndependentTaskStarts(tasks: seq<TaskConfig>, ctx: RunContext, enqueue: nat -> Outcome, j: nat)
    requires j < |tasks| && DependsOn(tasks[j]) == []
    ensures ExecuteTasks(tasks, ctx, enqueue).started[j]
  {
    FinalAt(tasks, ctx, enqueue, j);
  }

  // ---------------------------------------------------------------------------
  // The workers

  /** What processing a workflow job did: the new queue, the statuses the
      record went through, the task run if there was one, and whether the
      job succeeded (`Fail` carries the message it throws). */
  datatype Processed = Processed(queue: JobQueue, trace: seq<ExecutionStatus>, run: Option<TaskRun>, result: Outcome)

  /** A record moved to a final status at time `now`. */
  function Finished(e: FynExecution, outcome: Outcome, now: int): (f: FynExecution)
    ensures f.executionId == e.executionId && f.fynId == e.fynId
    ensures f.startTime == e.startTime && f.logs == e.logs && f.endTime == Some(now)
    ensures outcome.Pass? ==> f.status == Success && f.error == e.error
    ensures outcome.Fail? ==> f.status == Failed && f.error == Some(outcome.message)
  {
    match outcome
    case Pass => e.(status := Success, endTime := Some(now))
    case Fail(message) => e.(status := Failed, endTime := Some(now), error := Some(message))
  }

  /** `processFYNJob`: an unknown execution id throws before any record is
      touched. Otherwise the record becomes `running`; then an unknown
      workflow fails it with `FYN <id> not found`, and a known one runs its
      tasks and ends `success`, or `failed` with the rejection's message.
      Both endings stamp `now` as the end time. The jobs the run enqueued are
      appended to the task queue. */
  function ProcessFynJob(q: JobQueue, reg: Registry, job: FynJob, now: int, enqueue: nat -> Outcome): (r: Processed)
    ensures job.executionId !in Contents(q.executions) ==>
              r.queue == q && r.trace == [] && r.result == Fail("Execution " + job.executionId + " not found")
    ensures job.executionId in Contents(q.executions) ==>
              var e := Contents(q.executions)[job.executionId];
              var f := Finished(e, r.result, now);
              && Keys(r.queue.executions) == Keys(q.executions)
              && Contents(r.queue.executions) == Contents(q.executions)[job.executionId := f]
              && r.trace == [Running, f.status]
    ensures GetFyn(reg, job.fynId).None? && job.executionId in Contents(q.executions) ==>
              r.result == Fail("FYN " + job.fynId + " not found") && r.run.None? && r.queue.taskJobs == q.taskJobs
    ensures GetFyn(reg, job.fynId).Some? && job.executionId in Contents(q.executions) ==>
              && r.run.Some? && r.result == r.run.value.outcome
              && r.queue.taskJobs == q.taskJobs + r.run.value.enqueued
    ensures r.queue.fynJobs == q.fynJobs && r.queue.nextId == q.nextId
    ensures QueueWf(q) ==> QueueWf(r.queue)
  {
    match Get(q.executions, job.executionId)
    case None => Processed(q, [], None, Fail("Execution " + job.executionId + " not found"))
    case Some(e) =>
      var running := e.(status := Running);
      var run: Option<TaskRun> :=
        match GetFyn(reg, job.fynId)
        case None => None
        case Some(fyn) => Some(ExecuteTasks(fyn.tasks, RunContext(job.fynId, job.executionId, job.params), enqueue));
      var outcome := if run.Some? then run.value.outcome else Fail("FYN " + job.fynId + " not found");
      var taskJobs := if run.Some? then q.taskJobs + run.value.enqueued else q.taskJobs;
      var fin := Finished(running, outcome, now);
      assert e == Contents(q.executions)[job.executionId];
      assert fin == Finished(e, outcome, now);
      var concluded := Conclude(q, job.executionId, running, outcome, now, taskJobs);
      assert Contents(concluded.executions) == Contents(q.executions)[job.executionId := fin];
      assert QueueWf(q) ==> QueueWf(concluded);
      Processed(concluded, [Running, fin.status], run, outcome)
  }

  // The two writes of a processed record: `running` first, then the final
  // status over it. The record stays in its place.
  function Conclude(q: JobQueue, id: string, running: FynExecution, outcome: Outcome, now: int,
                    taskJobs: seq<TaskJob>): (r: JobQueue)
    requires id in Contents(q.executions)
    ensures Keys(r.executions) == Keys(q.executions)
    ensures Contents(r.executions) == Contents(q.executions)[id := Finished(running, outcome, now)]
    ensures r.fynJobs == q.fynJobs && r.nextId == q.nextId && r.taskJobs == taskJobs
    ensures QueueWf(q) && running.executionId == Contents(q.executions)[id].executionId ==> QueueWf(r)
  {
    var executions := Set(Set(q.executions, id, running), id, Finished(running, outcome, now));
    SetTwice(q.executions, id, running, Finished(running, outcome, now));
    var r := q.(executions := executions, taskJobs := taskJobs);
    assert QueueWf(q) && running.executionId == Contents(q.executions)[id].executionId ==> QueueWf(r) by {
      if QueueWf(q) && running.executionId == Contents(q.executions)[id].executionId {
        ReplaceRecordWf(q, r, id, Finished(running, outcome, now));
      }
    }
    r
  }

  /** Overwriting a record with one that carries the same id keeps the queue
      well formed. */
  lemma ReplaceRecordWf(q: JobQueue, r: JobQueue, id: string, e: FynExecution)
    requires QueueWf(q) && id in Contents(q.executions) && e.executionId == id
    requires Contents(r.executions) == Contents(q.executions)[id := e] && r.nextId == q.nextId
    ensures QueueWf(r)
  {
    forall other | other in Contents(r.executions)
      ensures && Contents(r.executions)[other].executionId == other
              && ParseNat(other).Some? && ParseNat(other).value < r.nextId
              && NatToString(ParseNat(other).value) == other
    {
      assert other in Contents(q.executions);
    }
  }

  /** No workflow job adds, removes or re-keys a record, and none ends
      `pending`, `running` or `cancelled`. */
  lemma ProcessFynJobEndsFinal(q: JobQueue, reg: Registry, job: FynJob, now: int, enqueue: nat -> Outcome)
    requires job.executionId in Contents(q.executions)
    ensures var r := ProcessFynJob(q, reg, job, now, enqueue);
            && Contents(r.queue.executions).Keys == Contents(q.executions).Keys
            && Contents(r.queue.executions)[job.executionId].status in {Success, Failed}
            && Contents(r.queue.executions)[job.executionId].endTime == Some(now)
  {
  }

  /** With distinct task ids, a workflow job succeeds exactly when its
      workflow is loaded and no task ended `failed`. */
  lemma ProcessFynJobSucceedsIff(q: JobQueue, reg: Registry, job: FynJob, now: int, enqueue: nat -> Outcome)
    requires job.executionId in Contents(q.executions)
    requires GetFyn(reg, job.fynId).Some? ==> DistinctTaskIds(GetFyn(reg, job.fynId).value.tasks)
    ensures var r := ProcessFynJob(q, reg, job, now, enqueue);
            Contents(r.queue.executions)[job.executionId].status == Success <==>
              && GetFyn(reg, job.fynId).Some?
              && var t := ExecuteTasks(GetFyn(reg, job.fynId).value.tasks, RunContext(job.fynId, job.executionId, job.params), enqueue);
                 forall id :: id in t.status ==> t.status[id] != TaskFailed
  {
    match GetFyn(reg, job.fynId)
    case None =>
    case Some(fyn) =>
      RunFailsIffSomeTaskFails(fyn.tasks, RunContext(job.fynId, job.executionId, job.params), enqueue);
  }

  /** `fyn.tasks.find(t => t.taskId === taskId)`: the first task with that id. */
  function FindTask(tasks: seq<TaskConfig>, taskId: string): (r: Option<TaskConfig>)
    ensures r.None? <==> taskId !in TaskIds(tasks)
    ensures r.Some? ==> exists i :: && 0 <= i < |tasks| && tasks[i] == r.value && r.value.taskId == taskId
                                    && forall j :: 0 <= j < i ==> tasks[j].taskId != taskId
  {
    match FindFrom(tasks, taskId, 0)
    case Some(i) => Some(tasks[i])
    case None => None
  }

  /** Index of the first task at or after `from` with the given id. */
  function FindFrom(tasks: seq<TaskConfig>, taskId: string, from: nat): (r: Option<nat>)
    ensures r.Some? ==> from <= r.value < |tasks| && tasks[r.value].taskId == taskId
    ensures r.Some? ==> forall j :: from <= j < r.value ==> tasks[j].taskId != taskId
    ensures r.None? ==> forall j :: from <= j < |tasks| ==> tasks[j].taskId != taskId
    decreases |tasks| - from
  {
    if from >= |tasks| then None
    else if tasks[from].taskId == taskId then Some(from)
    else FindFrom(tasks, taskId, from + 1)
  }


  /** `processTaskJob`: look the workflow up again and run the first task
      with the job's task id. A missing workflow or task makes the property
      read throw a `TypeError`. The job's own copy of the task is not used,
      and nothing here touches the execution records or the task statuses. */
  function ProcessTaskJob(reg: Registry, job: TaskJob, world: World): (r: Result<TaskResult>)
    ensures GetFyn(reg, job.fynId).None? ==> r == Err("Cannot read properties of undefined (reading 'tasks')")
    ensures GetFyn(reg, job.fynId).Some? && job.taskId !in TaskIds(GetFyn(reg, job.fynId).value.tasks) ==>
              r == Err("Cannot read properties of undefined (reading 'taskId')")
    ensures GetFyn(reg, job.fynId).Some? && FindTask(GetFyn(reg, job.fynId).value.tasks, job.taskId).Some? ==>
              r == ExecuteTask(FindTask(GetFyn(reg, job.fynId).value.tasks, job.taskId).value, job.params, world)
    ensures r.Ok? ==> && GetFyn(reg, job.fynId).Some?
                      && exists t :: t in GetFyn(reg, job.fynId).value.tasks && t.taskId == job.taskId
                                     && r == ExecuteTask(t, job.params, world)
  {
    match GetFyn(reg, job.fynId)
    case None => Err("Cannot read properties of undefined (reading 'tasks')")
    case Some(fyn) =>
      match FindTask(fyn.tasks, job.taskId)
      case None => Err("Cannot read properties of undefined (reading 'taskId')")
      case Some(task) =>
        assert task in fyn.tasks && task.taskId == job.taskId;
        ExecuteTask(task, job.params, world)
  }

  /** The worker runs the registry's current definition of the task, never
      the copy carried in the job. */
  lemma TaskJobCopyIgnored(reg: Registry, job: TaskJob, other: TaskConfig, world: World)
    ensures ProcessTaskJob(reg, job.(task := other), world) == ProcessTaskJob(reg, job, world)
  {
  }
}
