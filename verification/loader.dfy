/** `FYNLoader` (src/core/fyn-loader.ts): the registry of loaded workflow
    definitions, keyed by `fynId` and kept in insertion order.

    The file system, `require` and `npm install` are outside the model: a
    directory listing, the outcome of `npm install` and what `require`
    returns for a file are parameters. A failed load returns `null` in the
    source after logging the error; here it is `Err` carrying the message
    that would be logged. */
module FynLoader {
  import opened Base
  import opened Strings
  import opened JsMaps
  import opened FynTypes
  import opened Cron
  import opened Decorators

  type Registry = JsMap<string, Fyn>

  // ---------------------------------------------------------------------------
  // Validation

  /** The ids of a task list (`new Set(fyn.tasks.map(t => t.taskId))`). */
  function TaskIds(tasks: seq<TaskConfig>): (ids: set<string>)
    ensures forall i :: 0 <= i < |tasks| ==> tasks[i].taskId in ids
    ensures forall id :: id in ids ==> exists i :: 0 <= i < |tasks| && tasks[i].taskId == id
  {
    set i | 0 <= i < |tasks| :: tasks[i].taskId
  }

  /** Every dependency names a task of the same workflow. */
  predicate DependenciesResolve(tasks: seq<TaskConfig>) {
    forall i, d :: 0 <= i < |tasks| && d in DependsOn(tasks[i]) ==> d in TaskIds(tasks)
  }

  /** What `validateFYN` accepts: an id, a schedule (when one is given) that
      the cron expression admits, at least one task, and resolvable
      dependencies. Cycles are not rejected. */
  predicate IsValidFyn(config: FynConfig, tasks: Option<seq<TaskConfig>>) {
    && config.fynId != ""
    && (Given(config.schedule) ==> IsValidCron(config.schedule.value))
    && tasks.Some? && |tasks.value| > 0
    && DependenciesResolve(tasks.value)
  }

  /** The first unresolvable dependency of `tasks[from..]` in the loop's
      order (task by task, then dependency by dependency), as
      `(taskId, dependency)`. */
  function FirstMissingFrom(tasks: seq<TaskConfig>, ids: set<string>, from: nat): (r: Option<(string, string)>)
    requires from <= |tasks|
    ensures r.None? <==> forall i, d :: from <= i < |tasks| && d in DependsOn(tasks[i]) ==> d in ids
    ensures r.Some? ==> r.value.1 !in ids
                        && exists i :: from <= i < |tasks| && tasks[i].taskId == r.value.0 && r.value.1 in DependsOn(tasks[i])
                                       && (forall k :: from <= k < i ==> forall d :: d in DependsOn(tasks[k]) ==> d in ids)
                                       && FirstMissingIn(DependsOn(tasks[i]), ids) == Some(r.value.1)
    decreases |tasks| - from
  {
    if from == |tasks| then None
    else
      match FirstMissingIn(DependsOn(tasks[from]), ids)
      case Some(d) => Some((tasks[from].taskId, d))
      case None =>
        var r := FirstMissingFrom(tasks, ids, from + 1);
        if r.Some? then
          var i :| from + 1 <= i < |tasks| && tasks[i].taskId == r.value.0 && r.value.1 in DependsOn(tasks[i])
                   && (forall k :: from + 1 <= k < i ==> forall d :: d in DependsOn(tasks[k]) ==> d in ids)
                   && FirstMissingIn(DependsOn(tasks[i]), ids) == Some(r.value.1);
          assert forall k :: from <= k < i ==> forall d :: d in DependsOn(tasks[k]) ==> d in ids;
          r
        else r
  }

  /** The first element of `deps` outside `ids`. */
  function FirstMissingIn(deps: seq<string>, ids: set<string>): (r: Option<string>)
    ensures r.None? <==> forall d :: d in deps ==> d in ids
    ensures r.Some? ==> r.value in deps && r.value !in ids
    ensures r.Some? ==> exists j :: 0 <= j < |deps| && deps[j] == r.value && forall k :: 0 <= k < j ==> deps[k] in ids
  {
    if |deps| == 0 then None
    else if deps[0] !in ids then Some(deps[0])
    else
      var r := FirstMissingIn(deps[1..], ids);
      assert forall d :: d in deps ==> d == deps[0] || d in deps[1..];
      if r.Some? then
        var j :| 0 <= j < |deps[1..]| && deps[1..][j] == r.value && forall k :: 0 <= k < j ==> deps[1..][k] in ids;
        assert deps[j + 1] == r.value;
        r
      else r
  }

  /** `validateFYN`: the checks in the order `validateFYN` makes them, each
      with its own message. */
  function ValidateFyn(config: FynConfig, tasks: Option<seq<TaskConfig>>): (r: Outcome)
    ensures r.Pass? <==> IsValidFyn(config, tasks)
    ensures config.fynId == "" ==> r == Fail("FYN must have a fynId")
    ensures config.fynId != "" && Given(config.schedule) && !IsValidCron(config.schedule.value) ==>
              r == Fail("Invalid cron expression: " + config.schedule.value)
    ensures config.fynId != "" && (Given(config.schedule) ==> IsValidCron(config.schedule.value))
            && (tasks.None? || |tasks.value| == 0) ==>
              r == Fail("FYN must have at least one task")
    ensures r.Fail? && tasks.Some? && |tasks.value| > 0 && config.fynId != ""
            && (Given(config.schedule) ==> IsValidCron(config.schedule.value)) ==>
              exists t, d :: r.message == "Task " + t + " depends on non-existent task: " + d
                             && d !in TaskIds(tasks.value)
    ensures r.Fail? && tasks.Some? && |tasks.value| > 0 && config.fynId != ""
            && (Given(config.schedule) ==> IsValidCron(config.schedule.value)) ==>
              var first := FirstMissingFrom(tasks.value, TaskIds(tasks.value), 0);
              first.Some? && r.message == "Task " + first.value.0 + " depends on non-existent task: " + first.value.1
  {
    if config.fynId == "" then Fail("FYN must have a fynId")
    else if Given(config.schedule) && !IsValidCron(config.schedule.value) then
      Fail("Invalid cron expression: " + config.schedule.value)
    else if tasks.None? || |tasks.value| == 0 then Fail("FYN must have at least one task")
    else
      var ts := tasks.value;
      match FirstMissingFrom(ts, TaskIds(ts), 0)
      case Some((t, d)) => Fail("Task " + t + " depends on non-existent task: " + d)
      case None => Pass
  }

  /** A task may depend on itself (and, generally, tasks may form a cycle):
      validation only checks that dependencies name existing tasks. */
  lemma SelfDependencyAccepted(config: FynConfig, t: TaskConfig)
    requires config.fynId != "" && config.schedule.None?
    requires t.dependsOn == Some([t.taskId])
    ensures ValidateFyn(config, Some([t])) == Pass
  {
    assert TaskIds([t]) == {t.taskId};
  }

  // ---------------------------------------------------------------------------
  // Loading one file

  /** How the `npm install` child process for a definition's directory ended. */
  datatype NpmRun = NpmExited(code: Option<int>) | NpmSpawnError(message: string)

  /** `installDependencies`: resolves on exit code 0, rejects otherwise. */
  function InstallDependencies(run: NpmRun): (r: Outcome)
    ensures r.Pass? <==> run == NpmExited(Some(0))
    ensures run.NpmExited? && r.Fail? ==> r.message == "npm install failed with code " + NullableIntToString(run.code)
    ensures run.NpmSpawnError? ==> r == Fail(run.message)
  {
    match run
    case NpmExited(code) =>
      if code == Some(0) then Pass else Fail("npm install failed with code " + NullableIntToString(code))
    case NpmSpawnError(msg) => Fail(msg)
  }

  /** What `fynModule.default || fynModule` turns out to be: a decorated class
      (its metadata, and whether its constructor throws) or a plain object
      whose `config` and `tasks` properties may be missing. */
  datatype Export =
    | ClassExport(className: string, metadata: MetaStore, construction: Outcome)
    | ObjectExport(config: Option<FynConfig>, tasks: Option<seq<TaskConfig>>)

  /** What `require` does with the file: evaluates it, or throws. */
  datatype ModuleLoad = Required(exported: Export) | RequireFailed(message: string)

  /** Everything the loader learns about one file from the outside world:
      whether a `package.json` sits beside it (and if so how `npm install`
      ended), and what `require` gives. */
  datatype FileSource = FileSource(packageJson: Option<NpmRun>, moduleLoad: ModuleLoad)

  /** The workflow object a loaded module denotes: `config` and `tasks`,
      either read off a plain object or built by `createFYNInstance`. */
  function Candidate(e: Export): (r: Result<(Option<FynConfig>, Option<seq<TaskConfig>>)>)
    ensures e.ObjectExport? ==> r == Ok((e.config, e.tasks))
    ensures e.ClassExport? ==> (r.Ok? <==> CreateFynInstance(e.metadata, e.className, e.construction).Ok?)
    ensures e.ClassExport? && r.Ok? ==>
              var fyn := CreateFynInstance(e.metadata, e.className, e.construction).value;
              r.value == (Some(fyn.config), Some(fyn.tasks))
    ensures e.ClassExport? && r.Err? ==> r == Err(CreateFynInstance(e.metadata, e.className, e.construction).message)
  {
    match e
    case ObjectExport(config, tasks) => Ok((config, tasks))
    case ClassExport(name, store, construction) =>
      match CreateFynInstance(store, name, construction)
      case Err(msg) => Err(msg)
      case Ok(fyn) => Ok((Some(fyn.config), Some(fyn.tasks)))
  }

  /** The workflow `loadFYN` accepts from a file source, or the message of
      the error it logs. */
  function Accept(path: string, src: FileSource): (r: Result<Fyn>)
    ensures r.Ok? ==> IsValidFyn(r.value.config, Some(r.value.tasks))
    ensures r.Ok? <==>
              && (src.packageJson.None? || InstallDependencies(src.packageJson.value).Pass?)
              && src.moduleLoad.Required?
              && Candidate(src.moduleLoad.exported).Ok?
              && var (config, tasks) := Candidate(src.moduleLoad.exported).value;
                 && config.Some? && config.value.fynId != ""
                 && ValidateFyn(config.value, tasks).Pass?
    ensures r.Ok? ==> Candidate(src.moduleLoad.exported).value.0 == Some(r.value.config)
                      && Candidate(src.moduleLoad.exported).value.1 == Some(r.value.tasks)
    ensures src.packageJson.Some? && InstallDependencies(src.packageJson.value).Fail? ==>
              r == Err(InstallDependencies(src.packageJson.value).message)
  {
    if src.packageJson.Some? && InstallDependencies(src.packageJson.value).Fail? then
      Err(InstallDependencies(src.packageJson.value).message)
    else
      match src.moduleLoad
      case RequireFailed(msg) => Err(msg)
      case Required(e) =>
        match Candidate(e)
        case Err(msg) => Err(msg)
        case Ok((config, tasks)) =>
          if config.None? || config.value.fynId == "" then Err("Invalid FYN configuration in " + path)
          else
            match ValidateFyn(config.value, tasks)
            case Fail(msg) => Err(msg)
            case Pass => Ok(Fyn(config.value, tasks.value))
  }

  /** The registry after a load, and what the load returned. */
  datatype Loaded = Loaded(registry: Registry, result: Result<Fyn>)

  /** `loadFYN(filePath)`: on success the workflow is registered under its
      id (replacing an earlier one with the same id, which keeps its place in
      the order); on any failure the registry is unchanged. */
  function LoadFyn(reg: Registry, path: string, src: FileSource): (r: Loaded)
    ensures r.result == Accept(path, src)
    ensures r.result.Err? ==> r.registry == reg
    ensures r.result.Ok? ==>
              && IsValidFyn(r.result.value.config, Some(r.result.value.tasks))
              && Contents(r.registry) == Contents(reg)[r.result.value.config.fynId := r.result.value]
    ensures r.result.Ok? && r.result.value.config.fynId in Contents(reg) ==> Keys(r.registry) == Keys(reg)
    ensures r.result.Ok? && r.result.value.config.fynId !in Contents(reg) ==>
              Keys(r.registry) == Keys(reg) + [r.result.value.config.fynId]
    ensures src.moduleLoad.RequireFailed? && (src.packageJson.None? || src.packageJson == Some(NpmExited(Some(0)))) ==>
              r.result == Err(src.moduleLoad.message)
    ensures src.moduleLoad.Required? && src.moduleLoad.exported.ObjectExport? && src.packageJson.None? ==>
              (src.moduleLoad.exported.config.None? || src.moduleLoad.exported.config.value.fynId == "" ==>
                 r.result == Err("Invalid FYN configuration in " + path))
  {
    match Accept(path, src)
    case Ok(fyn) => Loaded(Set(reg, fyn.config.fynId, fyn), Ok(fyn))
    case Err(msg) => Loaded(reg, Err(msg))
  }

  /** Loading the same source twice leaves the registry as loading it once. */
  lemma LoadFynIdempotent(reg: Registry, path: string, src: FileSource)
    ensures var once := LoadFyn(reg, path, src);
            LoadFyn(once.registry, path, src) == once
  {
    var once := LoadFyn(reg, path, src);
    if once.result.Ok? {
      var fyn := once.result.value;
      assert Contents(once.registry)[fyn.config.fynId] == fyn;
      SetSameValue(once.registry, fyn.config.fynId);
    }
  }

  // ---------------------------------------------------------------------------
  // The registry invariant

  /** Every registered workflow is valid and registered under its own id. */
  ghost predicate RegistryWf(reg: Registry) {
    forall id :: id in Contents(reg) ==>
      Contents(reg)[id].config.fynId == id && IsValidFyn(Contents(reg)[id].config, Some(Contents(reg)[id].tasks))
  }

  lemma LoadFynKeepsWf(reg: Registry, path: string, src: FileSource)
    requires RegistryWf(reg)
    ensures RegistryWf(LoadFyn(reg, path, src).registry)
  {
    var r := LoadFyn(reg, path, src);
    if r.result.Ok? {
      StoreKeepsWf(reg, r.result.value, r.registry);
    }
  }

  /** Storing a valid workflow under its own id keeps the registry sound. */
  lemma StoreKeepsWf(reg: Registry, fyn: Fyn, after: Registry)
    requires RegistryWf(reg) && IsValidFyn(fyn.config, Some(fyn.tasks))
    requires Contents(after) == Contents(reg)[fyn.config.fynId := fyn]
    ensures RegistryWf(after)
  {
    var c := Contents(after);
    forall id | id in c
      ensures c[id].config.fynId == id && IsValidFyn(c[id].config, Some(c[id].tasks))
    {
      if id != fyn.config.fynId {
        assert c[id] == Contents(reg)[id];
      }
    }
  }

  /** `getFYN(fynId)`. */
  function GetFyn(reg: Registry, fynId: string): (r: Option<Fyn>)
    ensures r.Some? <==> fynId in Contents(reg)
    ensures r.Some? ==> r.value == Contents(reg)[fynId]
    ensures RegistryWf(reg) && r.Some? ==> r.value.config.fynId == fynId
  {
    Get(reg, fynId)
  }

  /** `getAllFYNs()`: the registered workflows in insertion order. */
  function GetAllFyns(reg: Registry): (r: seq<Fyn>)
    ensures |r| == |Contents(reg)| && |r| == |reg|
    ensures forall i :: 0 <= i < |r| ==> r[i] == Contents(reg)[reg[i].0]
    ensures forall f :: f in r <==> exists id :: id in Contents(reg) && Contents(reg)[id] == f
  {
    ContentsSize(reg);
    ValuesAreContents(reg);
    Values(reg)
  }

  /** `removeFYN(fynId)`: the registry without `fynId`, and whether it was
      there. */
  function RemoveFyn(reg: Registry, fynId: string): (r: (Registry, bool))
    ensures r.1 <==> fynId in Contents(reg)
    ensures fynId !in Contents(reg) ==> r.0 == reg
    ensures fynId in Contents(reg) ==> exists i :: 0 <= i < |reg| && reg[i].0 == fynId && r.0 == reg[..i] + reg[i + 1..]
    ensures Contents(r.0) == Contents(reg) - {fynId}
    ensures GetFyn(r.0, fynId).None?
  {
    (Delete(reg, fynId), Has(reg, fynId))
  }

  /** Removing twice: the second removal reports `false` and changes nothing. */
  lemma RemoveFynTwice(reg: Registry, fynId: string)
    ensures var (once, _) := RemoveFyn(reg, fynId);
            RemoveFyn(once, fynId) == (once, false)
  {
  }

  lemma RemoveFynKeepsWf(reg: Registry, fynId: string)
    requires RegistryWf(reg)
    ensures RegistryWf(RemoveFyn(reg, fynId).0)
  {
  }

  // ---------------------------------------------------------------------------
  // Loading a directory

  /** `file.endsWith('.fyn.js')`. */
  predicate IsDefinitionFile(name: string) {
    EndsWith(name, ".fyn.js")
  }

  /** The entries `loadAllFYNs` loads, in listing order. */
  function DefinitionFiles(names: seq<string>): (r: seq<string>)
    ensures forall n :: n in r <==> n in names && IsDefinitionFile(n)
    ensures |r| <= |names|
  {
    if |names| == 0 then []
    else
      var rest := DefinitionFiles(names[1..]);
      assert forall n :: n in names <==> n == names[0] || n in names[1..];
      if IsDefinitionFile(names[0]) then [names[0]] + rest else rest
  }

  /** Loads the files in order; each failure is logged and skipped. */
  function LoadEach(reg: Registry, dir: string, names: seq<string>, files: string -> FileSource): Registry
    decreases |names|
  {
    if |names| == 0 then reg
    else LoadEach(LoadFyn(reg, JoinPath(dir, names[0]), files(JoinPath(dir, names[0]))).registry, dir, names[1..], files)
  }

  /** `loadAllFYNs()`: a listing failure (creating or reading the directory)
      is rethrown; otherwise every definition file is loaded in listing
      order, and every other entry is ignored. */
  function LoadAllFyns(reg: Registry, dir: string, listing: Result<seq<string>>, files: string -> FileSource): (r: Result<Registry>)
    ensures listing.Err? ==> r == Err(listing.message)
    ensures listing.Ok? ==> r == Ok(LoadEach(reg, dir, DefinitionFiles(listing.value), files))
  {
    match listing
    case Err(msg) => Err(msg)
    case Ok(names) => Ok(ScanEntries(reg, dir, names, files))
  }

  /** The loop of `loadAllFYNs`, entry by entry. */
  function ScanEntries(reg: Registry, dir: string, names: seq<string>, files: string -> FileSource): (r: Registry)
    ensures r == LoadEach(reg, dir, DefinitionFiles(names), files)
    decreases |names|
  {
    if |names| == 0 then reg
    else if IsDefinitionFile(names[0]) then
      ScanEntries(LoadFyn(reg, JoinPath(dir, names[0]), files(JoinPath(dir, names[0]))).registry, dir, names[1..], files)
    else ScanEntries(reg, dir, names[1..], files)
  }

  /** Loading a directory keeps the registry invariant, and the registry only
      gains ids (a load never removes one). */
  lemma {:induction false} LoadEachKeepsWf(reg: Registry, dir: string, names: seq<string>, files: string -> FileSource)
    requires RegistryWf(reg)
    ensures RegistryWf(LoadEach(reg, dir, names, files))
    ensures Contents(reg).Keys <= Contents(LoadEach(reg, dir, names, files)).Keys
    decreases |names|
  {
    if |names| > 0 {
      var next := LoadFyn(reg, JoinPath(dir, names[0]), files(JoinPath(dir, names[0]))).registry;
      LoadFynKeepsWf(reg, JoinPath(dir, names[0]), files(JoinPath(dir, names[0])));
      LoadEachKeepsWf(next, dir, names[1..], files);
    }
  }
}
