/** `TaskExecutor` (src/core/task-executor.ts): dispatch on the task type,
    the required-field checks, the timeout and method defaults, how the
    parameter bags are merged into the call, and how the outcome of the child
    process or HTTP request becomes the task's result.

    The side effects themselves (spawning `node` or `sh`, writing the
    temporary script, calling a decorated method, the axios request) are not
    modelled: each is a function in `World` that answers a fully built
    request. `PlanTask` is the decision logic that builds that request. */
module Executor {
  import opened Base
  import opened Strings
  import opened FynTypes

  const ScriptTimeoutDefault := 300000
  const HttpTimeoutDefault := 30000

  /** `task.timeout || fallback`: an absent or zero timeout takes the default. */
  function TimeoutOr(t: Option<int>, fallback: int): (r: int)
    ensures t.Some? && t.value != 0 ==> r == t.value
    ensures t.None? || t.value == 0 ==> r == fallback
  {
    if t.Some? && t.value != 0 then t.value else fallback
  }

  /** `{...v}` for a value read off a parameter bag: an object contributes
      its properties, anything else nothing. */
  function SpreadJson(v: Option<Json>): Params {
    match v
    case Some(JObject(fields)) => fields
    case _ => map[]
  }

  /** A lookup in a parameter bag, `undefined` as `None`. */
  function Lookup(bag: Params, key: string): Option<Json> {
    if key in bag then Some(bag[key]) else None
  }

  // ---------------------------------------------------------------------------
  // What a task asks of the outside world

  /** A child process: `node` on the temporary script file, or `sh -c`. */
  datatype ProcessRequest =
    | NodeScript(taskId: string, script: string, params: Params, taskParams: Params, timeout: int)
    | ShellCommand(command: string, env: Params, timeout: int)

  /** The axios request configuration. */
  datatype HttpRequest = HttpRequest(
    httpMethod: HttpMethod,
    url: string,
    headers: Params,
    data: Option<Json>,
    timeout: int,
    query: Params)

  /** What `executeTask` does for a task once its checks pass. */
  datatype Plan =
    | CallExecute(callee: string, args: Params)
    | Spawn(kind: string, request: ProcessRequest)
    | Send(http: HttpRequest)

  datatype ProcessOutcome = Closed(code: Option<int>, stdout: string, stderr: string) | SpawnFailed(message: string)

  /** An axios response, an error axios flags as its own (`isAxiosError`), or
      any other thrown error. */
  datatype HttpOutcome =
    | Responded(status: int, statusText: string, headers: Params, data: Json)
    | LibraryError(message: string)
    | OtherError(message: string)

  datatype TaskResult =
    | ProcessResult(stdout: string, stderr: string, exitCode: int)
    | HttpResult(status: int, statusText: string, headers: Params, data: Json)
    | ReturnValue(value: Json)

  /** The side effects, as answers to requests. */
  datatype World = World(
    invoke: (string, Params) -> Result<Json>,
    runProcess: ProcessRequest -> ProcessOutcome,
    request: HttpRequest -> HttpOutcome,
    processEnv: Params)

  // ---------------------------------------------------------------------------
  // Planning

  /** `executeJavaScript` up to the spawn: a task carrying an `execute`
      function calls it with the run's parameters overridden by the task's;
      otherwise it needs a script, run with the default timeout when none is
      set. */
  function PlanJavaScript(task: TaskConfig, params: Params): (r: Result<Plan>)
    ensures task.execute.Some? ==> r.Ok? && r.value.CallExecute? && r.value.callee == task.execute.value
    ensures task.execute.Some? ==>
              forall k :: k in r.value.args <==> k in params || k in Spread(task.params)
    ensures task.execute.Some? ==>
              forall k :: k in r.value.args ==>
                r.value.args[k] == if k in Spread(task.params) then Spread(task.params)[k] else params[k]
    ensures task.execute.None? ==> (r.Err? <==> !Given(task.script))
    ensures r.Err? ==> r.message == "JavaScript task must have a script"
    ensures task.execute.None? && r.Ok? ==>
              r.value.Spawn? && r.value.kind == "Script" && r.value.request.NodeScript?
              && r.value.request.script == task.script.value
              && r.value.request.timeout == TimeoutOr(task.timeout, ScriptTimeoutDefault)
  {
    if task.execute.Some? then Ok(CallExecute(task.execute.value, params + Spread(task.params)))
    else if !Given(task.script) then Err("JavaScript task must have a script")
    else Ok(Spawn("Script", NodeScript(task.taskId, task.script.value, params, Spread(task.params),
                                       TimeoutOr(task.timeout, ScriptTimeoutDefault))))
  }

  /** `executeShell` up to the spawn: the command is required; the child's
      environment is the process environment overridden by the run's
      parameters, overridden in turn by the task's. */
  function PlanShell(task: TaskConfig, params: Params, processEnv: Params): (r: Result<Plan>)
    ensures r.Err? <==> !Given(task.command)
    ensures r.Err? ==> r.message == "Shell task must have a command"
    ensures r.Ok? ==> r.value.Spawn? && r.value.kind == "Command" && r.value.request.ShellCommand?
                      && r.value.request.command == task.command.value
                      && r.value.request.timeout == TimeoutOr(task.timeout, ScriptTimeoutDefault)
    ensures r.Ok? ==> forall k :: k in r.value.request.env <==>
                        k in processEnv || k in params || k in Spread(task.params)
    ensures r.Ok? ==> forall k :: k in r.value.request.env ==>
                        r.value.request.env[k] ==
                          if k in Spread(task.params) then Spread(task.params)[k]
                          else if k in params then params[k]
                          else processEnv[k]
  {
    if !Given(task.command) then Err("Shell task must have a command")
    else Ok(Spawn("Command", ShellCommand(task.command.value, processEnv + params + Spread(task.params),
                                          TimeoutOr(task.timeout, ScriptTimeoutDefault))))
  }

  /** `executeHttp` up to the request: the URL is required; the timeout
      defaults to 30 s and the method to GET; headers are the task's
      overridden by the run's `headers` object; the body is the task's when
      truthy, else the run's `body`; the query is the task's parameters
      overridden by the run's. */
  function PlanHttp(task: TaskConfig, params: Params): (r: Result<Plan>)
    ensures r.Err? <==> !Given(task.url)
    ensures r.Err? ==> r.message == "HTTP task must have a URL"
    ensures r.Ok? ==> r.value.Send? && r.value.http.url == task.url.value
    ensures r.Ok? ==> r.value.http.timeout == TimeoutOr(task.timeout, HttpTimeoutDefault)
    ensures r.Ok? ==> r.value.http.httpMethod == task.httpMethod.GetOr(GET)
    ensures r.Ok? ==> forall k :: k in r.value.http.headers <==>
                        k in Spread(task.headers) || k in SpreadJson(Lookup(params, "headers"))
    ensures r.Ok? ==> forall k :: k in r.value.http.headers ==>
                        r.value.http.headers[k] ==
                          if k in SpreadJson(Lookup(params, "headers")) then SpreadJson(Lookup(params, "headers"))[k]
                          else Spread(task.headers)[k]
    ensures r.Ok? ==> r.value.http.data == if Truthy(task.body) then task.body else Lookup(params, "body")
    ensures r.Ok? ==> forall k :: k in r.value.http.query <==> k in Spread(task.params) || k in params
    ensures r.Ok? ==> forall k :: k in r.value.http.query ==>
                        r.value.http.query[k] == if k in params then params[k] else Spread(task.params)[k]
  {
    if !Given(task.url) then Err("HTTP task must have a URL")
    else
      Ok(Send(HttpRequest(
        task.httpMethod.GetOr(GET),
        task.url.value,
        Spread(task.headers) + SpreadJson(Lookup(params, "headers")),
        if Truthy(task.body) then task.body else Lookup(params, "body"),
        TimeoutOr(task.timeout, HttpTimeoutDefault),
        Spread(task.params) + params)))
  }

  /** The `switch (task.type)` of `executeTask`. */
  function PlanTask(task: TaskConfig, params: Params, processEnv: Params): (r: Result<Plan>)
    ensures ParseTaskType(task.taskType).None? ==> r == Err("Unsupported task type: " + task.taskType)
    ensures task.taskType == "javascript" ==> r == PlanJavaScript(task, params)
    ensures task.taskType == "shell" ==> r == PlanShell(task, params, processEnv)
    ensures task.taskType == "http" ==> r == PlanHttp(task, params)
  {
    match ParseTaskType(task.taskType)
    case Some(JavaScript) => PlanJavaScript(task, params)
    case Some(Shell) => PlanShell(task, params, processEnv)
    case Some(Http) => PlanHttp(task, params)
    case None => Err("Unsupported task type: " + task.taskType)
  }

  // ---------------------------------------------------------------------------
  // Outcomes

  /** The rejection message of a child that closed with a non-zero (or null)
      code. */
  function ExitMessage(kind: string, code: Option<int>, stderr: string): (m: string)
    ensures StartsWith(m, kind + " exited with code ") && EndsWith(m, stderr)
  {
    kind + " exited with code " + NullableIntToString(code) + ": " + stderr
  }

  /** The `close`/`error` handlers: exit code 0 resolves with the captured
      output; any other code rejects with the exit message; a spawn error
      rejects with its own message. */
  function ProcessResultOf(kind: string, outcome: ProcessOutcome): (r: Result<TaskResult>)
    ensures outcome.Closed? ==> (r.Ok? <==> outcome.code == Some(0))
    ensures r.Ok? ==> outcome.Closed? && r.value == ProcessResult(outcome.stdout, outcome.stderr, 0)
    ensures outcome.Closed? && r.Err? ==>
              StartsWith(r.message, kind + " exited with code ") && EndsWith(r.message, outcome.stderr)
    ensures outcome.Closed? && r.Err? ==> r.message == ExitMessage(kind, outcome.code, outcome.stderr)
    ensures outcome.SpawnFailed? ==> r == Err(outcome.message)
  {
    match outcome
    case Closed(code, stdout, stderr) =>
      if code == Some(0) then Ok(ProcessResult(stdout, stderr, 0))
      else
        var m := ExitMessage(kind, code, stderr);
        assert m == (kind + " exited with code ") + (NullableIntToString(code) + ": " + stderr);
        assert m == (kind + " exited with code " + NullableIntToString(code) + ": ") + stderr;
        Err(m)
    case SpawnFailed(msg) => Err(msg)
  }

  /** The `try/catch` around the axios call. */
  function HttpResultOf(outcome: HttpOutcome): (r: Result<TaskResult>)
    ensures outcome.Responded? <==> r.Ok?
    ensures outcome.Responded? ==>
              r.value == HttpResult(outcome.status, outcome.statusText, outcome.headers, outcome.data)
    ensures outcome.LibraryError? ==> r == Err("HTTP request failed: " + outcome.message)
    ensures outcome.OtherError? ==> r == Err(outcome.message)
  {
    match outcome
    case Responded(status, statusText, headers, data) => Ok(HttpResult(status, statusText, headers, data))
    case LibraryError(msg) => Err("HTTP request failed: " + msg)
    case OtherError(msg) => Err(msg)
  }

  /** `executeTask(task, params)`: the plan, carried out against the world. */
  function ExecuteTask(task: TaskConfig, params: Params, world: World): (r: Result<TaskResult>)
    ensures PlanTask(task, params, world.processEnv).Err? ==> r == Err(PlanTask(task, params, world.processEnv).message)
    ensures r.Ok? ==> PlanTask(task, params, world.processEnv).Ok?
    ensures PlanTask(task, params, world.processEnv).Ok? && PlanTask(task, params, world.processEnv).value.Spawn? ==>
              var plan := PlanTask(task, params, world.processEnv).value;
              r == ProcessResultOf(plan.kind, world.runProcess(plan.request))
    ensures PlanTask(task, params, world.processEnv).Ok? && PlanTask(task, params, world.processEnv).value.Send? ==>
              r == HttpResultOf(world.request(PlanTask(task, params, world.processEnv).value.http))
    ensures PlanTask(task, params, world.processEnv).Ok? && PlanTask(task, params, world.processEnv).value.CallExecute? ==>
              var plan := PlanTask(task, params, world.processEnv).value;
              && (r.Ok? <==> world.invoke(plan.callee, plan.args).Ok?)
              && (r.Ok? ==> r.value == ReturnValue(world.invoke(plan.callee, plan.args).value))
              && (r.Err? ==> r.message == world.invoke(plan.callee, plan.args).message)
  {
    match PlanTask(task, params, world.processEnv)
    case Err(msg) => Err(msg)
    case Ok(CallExecute(f, args)) =>
      (match world.invoke(f, args)
       case Ok(v) => Ok(ReturnValue(v))
       case Err(msg) => Err(msg))
    case Ok(Spawn(kind, req)) => ProcessResultOf(kind, world.runProcess(req))
    case Ok(Send(req)) => HttpResultOf(world.request(req))
  }

  // ---------------------------------------------------------------------------
  // Properties

  /** The printed exit code holds no `:`, so the exit message determines
      the code and the captured stderr. */
  lemma ExitMessageDeterminesCode(kind: string, c1: Option<int>, e1: string, c2: Option<int>, e2: string)
    requires ExitMessage(kind, c1, e1) == ExitMessage(kind, c2, e2)
    ensures c1 == c2 && e1 == e2
  {
    ExitMessageTail(kind, c1, e1);
    ExitMessageTail(kind, c2, e2);
    CodeTextHasNoColon(c1);
    CodeTextHasNoColon(c2);
    TailDeterminesParts(NullableIntToString(c1), e1, NullableIntToString(c2), e2);
    CodeTextInjective(c1, c2);
  }

  /** `<code>: <stderr>` with a colon-free code splits back into its parts. */
  lemma TailDeterminesParts(t1: string, e1: string, t2: string, e2: string)
    requires ':' !in t1 && ':' !in t2
    requires t1 + ":" + (" " + e1) == t2 + ":" + (" " + e2)
    ensures t1 == t2 && e1 == e2
  {
    var s := t1 + ":" + (" " + e1);
    PrefixBeforeColon(t1, " " + e1);
    PrefixBeforeColon(t2, " " + e2);
    assert t1 == s[..|t1|] == t2;
    assert e1 == s[|t1| + 2..] == e2;
  }

  /** What follows the fixed prefix of an exit message. */
  lemma ExitMessageTail(kind: string, code: Option<int>, stderr: string)
    ensures var p := kind + " exited with code ";
            ExitMessage(kind, code, stderr)[|p|..] == NullableIntToString(code) + ":" + (" " + stderr)
  {
  }

  /** In `a + ":" + rest` with no colon in `a`, the first colon ends `a`. */
  lemma PrefixBeforeColon(a: string, rest: string)
    requires ':' !in a
    ensures ':' in a + ":" + rest && IndexOfChar(a + ":" + rest, ':') == |a|
  {
    var s := a + ":" + rest;
    assert s[|a|] == ':';
  }

  lemma CodeTextHasNoColon(c: Option<int>)
    ensures ':' !in NullableIntToString(c)
  {
    if c.Some? {
      var d := NatToString(if c.value < 0 then -c.value else c.value);
      assert forall i :: 0 <= i < |d| ==> IsDigit(d[i]);
    }
  }

  /** The sign of a printed integer shows in its first character, and no
      integer prints as `null`. */
  lemma IntToStringShape(i: int)
    ensures |IntToString(i)| > 0
    ensures IntToString(i)[0] == '-' <==> i < 0
    ensures IntToString(i) != "null"
  {
    var d := NatToString(if i < 0 then -i else i);
    assert IsDigit(d[0]);
    if i < 0 {
      assert IntToString(i)[0] == '-';
      assert IntToString(i)[1] == d[0];
    } else {
      assert IntToString(i)[0] == d[0];
    }
  }

  lemma CodeTextInjective(c1: Option<int>, c2: Option<int>)
    requires NullableIntToString(c1) == NullableIntToString(c2)
    ensures c1 == c2
  {
    if c1.Some? {
      IntToStringShape(c1.value);
    }
    if c2.Some? {
      IntToStringShape(c2.value);
    }
    if c1.Some? && c2.Some? && c1.value < 0 && c2.value < 0 {
      assert NatToString(-c1.value) == NullableIntToString(c1)[1..];
      assert NatToString(-c2.value) == NullableIntToString(c2)[1..];
      NatToStringInjective(-c1.value, -c2.value);
    } else if c1.Some? && c2.Some? && c1.value >= 0 && c2.value >= 0 {
      NatToStringInjective(c1.value, c2.value);
    }
  }

  /** A task of a type outside the declared union fails before any effect,
      whatever its other fields say. */
  lemma UnsupportedTypeFails(task: TaskConfig, params: Params, world: World)
    requires task.taskType !in {"javascript", "shell", "http"}
    ensures ExecuteTask(task, params, world) == Err("Unsupported task type: " + task.taskType)
  {
  }

  /** The three required-field failures, as `executeTask` reports them. */
  lemma MissingFieldsFail(task: TaskConfig, params: Params, world: World)
    ensures task.taskType == "javascript" && task.execute.None? && !Given(task.script) ==>
              ExecuteTask(task, params, world) == Err("JavaScript task must have a script")
    ensures task.taskType == "shell" && !Given(task.command) ==>
              ExecuteTask(task, params, world) == Err("Shell task must have a command")
    ensures task.taskType == "http" && !Given(task.url) ==>
              ExecuteTask(task, params, world) == Err("HTTP task must have a URL")
  {
  }
}
