/** The records of src/types/fyn.ts. Optional properties (`x?: T`) are
    `Option<T>`; `Date` values are integers (milliseconds); `any` payloads and
    `Record<string, any>` parameter bags are JSON-like `Json` values. */
module FynTypes {
  import opened Base

  /** The values that flow through parameter bags, headers and bodies. */
  datatype Json =
    | JNull
    | JBool(b: bool)
    | JNumber(n: int)
    | JString(s: string)
    | JArray(items: seq<Json>)
    | JObject(fields: map<string, Json>)

  type Params = map<string, Json>

  /** JavaScript truthiness of a possibly `undefined` value. */
  predicate Truthy(v: Option<Json>) {
    match v
    case None => false
    case Some(JNull) => false
    case Some(JBool(b)) => b
    case Some(JNumber(n)) => n != 0
    case Some(JString(s)) => s != ""
    case Some(JArray(_)) => true
    case Some(JObject(_)) => true
  }

  /** Truthiness of an optional string property: present and non-empty. */
  predicate Given(s: Option<string>) {
    s.Some? && s.value != ""
  }

  /** `{...bag}` where `bag` may be `undefined`. */
  function Spread(bag: Option<Params>): Params {
    bag.GetOr(map[])
  }

  // ---------------------------------------------------------------------------
  // Enumerations

  /** `TaskConfig.type`: 'javascript' | 'shell' | 'http'. */
  datatype TaskType = JavaScript | Shell | Http

  function TaskTypeName(t: TaskType): string {
    match t
    case JavaScript => "javascript"
    case Shell => "shell"
    case Http => "http"
  }

  /** Which declared task type a runtime `type` string names, if any. */
  function ParseTaskType(s: string): (r: Option<TaskType>)
    ensures r.Some? <==> s in {"javascript", "shell", "http"}
  {
    if s == "javascript" then Some(JavaScript)
    else if s == "shell" then Some(Shell)
    else if s == "http" then Some(Http)
    else None
  }

  /** `TaskConfig.method`: 'GET' | 'POST' | 'PUT' | 'DELETE'. */
  datatype HttpMethod = GET | POST | PUT | DELETE

  function HttpMethodName(m: HttpMethod): string {
    match m
    case GET => "GET"
    case POST => "POST"
    case PUT => "PUT"
    case DELETE => "DELETE"
  }

  function ParseHttpMethod(s: string): (r: Option<HttpMethod>)
    ensures r.Some? <==> s in {"GET", "POST", "PUT", "DELETE"}
  {
    if s == "GET" then Some(GET)
    else if s == "POST" then Some(POST)
    else if s == "PUT" then Some(PUT)
    else if s == "DELETE" then Some(DELETE)
    else None
  }

  /** A declared task type and its name determine each other. */
  lemma TaskTypeNameRoundTrip(t: TaskType, s: string)
    ensures ParseTaskType(TaskTypeName(t)) == Some(t)
    ensures ParseTaskType(s) == Some(t) ==> TaskTypeName(t) == s
  {
  }

  /** A declared HTTP method and its name determine each other. */
  lemma HttpMethodNameRoundTrip(m: HttpMethod, s: string)
    ensures ParseHttpMethod(HttpMethodName(m)) == Some(m)
    ensures ParseHttpMethod(s) == Some(m) ==> HttpMethodName(m) == s
  {
  }

  /** `FYNExecution.status`. */
  datatype ExecutionStatus = Pending | Running | Success | Failed | Cancelled

  function ExecutionStatusName(st: ExecutionStatus): (s: string)
    ensures s in {"pending", "running", "success", "failed", "cancelled"}
  {
    match st
    case Pending => "pending"
    case Running => "running"
    case Success => "success"
    case Failed => "failed"
    case Cancelled => "cancelled"
  }

  /** `TaskExecution.status` (and the coordinator's per-task status map). */
  datatype TaskStatus = TaskPending | TaskRunning | TaskSuccess | TaskFailed | TaskSkipped

  function TaskStatusName(st: TaskStatus): (s: string)
    ensures s in {"pending", "running", "success", "failed", "skipped"}
  {
    match st
    case TaskPending => "pending"
    case TaskRunning => "running"
    case TaskSuccess => "success"
    case TaskFailed => "failed"
    case TaskSkipped => "skipped"
  }

  /** Each status has its own name, so a record's status is exactly one of
      the five listed in the declaration. */
  lemma StatusNamesDistinct(a: ExecutionStatus, b: ExecutionStatus, x: TaskStatus, y: TaskStatus)
    ensures ExecutionStatusName(a) == ExecutionStatusName(b) ==> a == b
    ensures TaskStatusName(x) == TaskStatusName(y) ==> x == y
  {
  }

  // ---------------------------------------------------------------------------
  // Records

  /** `FYNConfig`: only `fynId` is mandatory. */
  datatype FynConfig = FynConfig(
    fynId: string,
    description: Option<string>,
    schedule: Option<string>,
    startDate: Option<int>,
    endDate: Option<int>,
    catchup: Option<bool>,
    maxActiveRuns: Option<int>,
    timeout: Option<int>,
    retries: Option<int>,
    retryDelay: Option<int>,
    tags: Option<seq<string>>,
    owner: Option<string>,
    dependencies: Option<seq<string>>,
    params: Option<Params>)

  /** A configuration carrying only an id (every optional property absent). */
  function BareConfig(fynId: string): (c: FynConfig)
    ensures c.fynId == fynId && c.schedule.None? && c.startDate.None? && c.endDate.None?
  {
    FynConfig(fynId, None, None, None, None, None, None, None, None, None, None, None, None, None)
  }

  /** `TaskConfig`. `taskType` holds the runtime `type` string (a loaded module
      is plain JavaScript, so it may name no declared type). `execute` is the
      name of the instance method a decorated task is bound to: the model of
      the `execute` function property `createFYNInstance` attaches. */
  datatype TaskConfig = TaskConfig(
    taskId: string,
    taskType: string,
    script: Option<string>,
    command: Option<string>,
    url: Option<string>,
    httpMethod: Option<HttpMethod>,
    headers: Option<Params>,
    body: Option<Json>,
    timeout: Option<int>,
    retries: Option<int>,
    dependsOn: Option<seq<string>>,
    params: Option<Params>,
    execute: Option<string>)

  /** The dependency list of a task, `[]` when the property is absent. */
  function DependsOn(t: TaskConfig): seq<string> {
    t.dependsOn.GetOr([])
  }

  /** `FYN`: a configuration and its ordered task list. (The `execute`
      function of the interface only logs and is not modelled.) */
  datatype Fyn = Fyn(config: FynConfig, tasks: seq<TaskConfig>)

  /** `FYNExecution`. */
  datatype FynExecution = FynExecution(
    executionId: string,
    fynId: string,
    status: ExecutionStatus,
    startTime: Option<int>,
    endTime: Option<int>,
    error: Option<string>,
    logs: Option<seq<string>>)

  /** `TaskExecution` (declared by the types file; the coordinator keeps only
      a status per task id and never builds these records). */
  datatype TaskExecution = TaskExecution(
    taskId: string,
    executionId: string,
    status: TaskStatus,
    startTime: Option<int>,
    endTime: Option<int>,
    error: Option<string>,
    output: Option<Json>)
}
