/** The decorator front end of src/decorators/fyn-decorator.ts.

    `reflect-metadata` keeps, per JavaScript object, a table of metadata
    values. A class `C` and its prototype `C.prototype` are two different
    objects: `@FYN` (a class decorator) writes to `C`; `@Task` and `@DependsOn`
    (method decorators on instance methods) receive `C.prototype` as their
    target. `@DependsOn` then writes to `target.constructor`, i.e. to `C`,
    while `extractFYNMetadata` reads the dependencies from `C.prototype`; so
    the dependencies declared by decorators never reach the extracted tasks.
    `ExtractFynMetadataAsWritten` models that code; `ExtractFynMetadata` reads
    where `@DependsOn` writes and is the one the loader uses. */
module Decorators {
  import opened Base
  import opened FynTypes

  /** The object a metadata value is attached to. */
  datatype Target = ClassOf(className: string) | PrototypeOf(protoOf: string)

  /** `target.constructor`: a prototype's constructor is its class; a class is
      itself constructed by `Function`. */
  function ConstructorOf(t: Target): (c: Target)
    ensures c.ClassOf?
    ensures t.PrototypeOf? ==> c.className == t.protoOf
  {
    match t
    case PrototypeOf(name) => ClassOf(name)
    case ClassOf(_) => ClassOf("Function")
  }

  /** `TaskOptions`: every property optional. `taskType` is the runtime `type`
      string. */
  datatype TaskOptions = TaskOptions(
    taskId: Option<string>,
    taskType: Option<string>,
    timeout: Option<int>,
    retries: Option<int>,
    params: Option<Params>,
    url: Option<string>,
    httpMethod: Option<HttpMethod>,
    headers: Option<Params>,
    body: Option<Json>,
    command: Option<string>)

  /** The record `@Task` stores for one method. */
  datatype TaskMeta = TaskMeta(
    taskId: string,
    taskType: string,
    methodName: string,
    timeout: Option<int>,
    retries: Option<int>,
    params: Option<Params>,
    url: Option<string>,
    httpMethod: Option<HttpMethod>,
    headers: Option<Params>,
    body: Option<Json>,
    command: Option<string>)

  /** The three metadata keys, each a table from target object to value. */
  datatype MetaStore = MetaStore(
    configs: map<Target, FynConfig>,
    tasks: map<Target, seq<TaskMeta>>,
    deps: map<Target, map<string, seq<string>>>)

  const EmptyStore := MetaStore(map[], map[], map[])

  /** `Reflect.getMetadata(TASK_METADATA_KEY, t) || []`. */
  function TasksAt(st: MetaStore, t: Target): seq<TaskMeta> {
    if t in st.tasks then st.tasks[t] else []
  }

  /** `Reflect.getMetadata(TASK_DEPENDENCIES_KEY, t) || {}`. */
  function DepsAt(st: MetaStore, t: Target): map<string, seq<string>> {
    if t in st.deps then st.deps[t] else map[]
  }

  // ---------------------------------------------------------------------------
  // The decorators

  /** `@FYN(config)` applied to a class. */
  function ApplyFyn(st: MetaStore, target: Target, config: FynConfig): (r: MetaStore)
    ensures target in r.configs && r.configs[target] == config
    ensures forall t :: t != target ==> (t in r.configs <==> t in st.configs)
    ensures forall t :: t != target && t in st.configs ==> r.configs[t] == st.configs[t]
    ensures r.tasks == st.tasks && r.deps == st.deps
  {
    st.(configs := st.configs[target := config])
  }

  /** The record `@Task(options)` builds for method `propertyKey`: the task id
      defaults to the method name and the type to `javascript`, each when the
      option is absent or empty. */
  function TaskMetaOf(options: TaskOptions, propertyKey: string): (m: TaskMeta)
    ensures m.methodName == propertyKey
    ensures Given(options.taskId) ==> m.taskId == options.taskId.value
    ensures !Given(options.taskId) ==> m.taskId == propertyKey
    ensures Given(options.taskType) ==> m.taskType == options.taskType.value
    ensures !Given(options.taskType) ==> m.taskType == "javascript"
    ensures m.taskType != ""
    ensures && m.timeout == options.timeout && m.retries == options.retries && m.params == options.params
            && m.url == options.url && m.httpMethod == options.httpMethod && m.headers == options.headers
            && m.body == options.body && m.command == options.command
  {
    TaskMeta(
      if Given(options.taskId) then options.taskId.value else propertyKey,
      if Given(options.taskType) then options.taskType.value else "javascript",
      propertyKey,
      options.timeout, options.retries, options.params, options.url,
      options.httpMethod, options.headers, options.body, options.command)
  }

  /** `@Task(options)` on method `propertyKey` of `target`: appends one record
      to the target's task list; nothing else changes. */
  function ApplyTask(st: MetaStore, target: Target, propertyKey: string, options: TaskOptions): (r: MetaStore)
    ensures TasksAt(r, target) == TasksAt(st, target) + [TaskMetaOf(options, propertyKey)]
    ensures forall t :: t != target ==> TasksAt(r, t) == TasksAt(st, t)
    ensures r.configs == st.configs && r.deps == st.deps
  {
    st.(tasks := st.tasks[target := TasksAt(st, target) + [TaskMetaOf(options, propertyKey)]])
  }

  /** `@DependsOn(...taskIds)` on method `propertyKey` of `target`: records
      the ids under the method's name in the table of `target.constructor`,
      replacing an earlier entry for the same method. */
  function ApplyDependsOn(st: MetaStore, target: Target, propertyKey: string, taskIds: seq<string>): (r: MetaStore)
    ensures DepsAt(r, ConstructorOf(target)) == DepsAt(st, ConstructorOf(target))[propertyKey := taskIds]
    ensures forall t :: t != ConstructorOf(target) ==> DepsAt(r, t) == DepsAt(st, t)
    ensures r.configs == st.configs && r.tasks == st.tasks
  {
    var owner := ConstructorOf(target);
    st.(deps := st.deps[owner := DepsAt(st, owner)[propertyKey := taskIds]])
  }

  // ---------------------------------------------------------------------------
  // Declaring a class

  datatype MethodDecorator = TaskDecorator(options: TaskOptions) | DependsOnDecorator(taskIds: seq<string>)

  /** One decorator application on an instance method. */
  datatype Application = Application(member: string, decorator: MethodDecorator)

  /** A decorated instance method, its decorators listed as written in the
      source (top to bottom). */
  datatype MethodDecl = MethodDecl(name: string, decorators: seq<MethodDecorator>)

  function Reverse<T>(s: seq<T>): (r: seq<T>)
    ensures |r| == |s|
    ensures forall i :: 0 <= i < |s| ==> r[i] == s[|s| - 1 - i]
  {
    if |s| == 0 then [] else Reverse(s[1..]) + [s[0]]
  }

  /** The order TypeScript applies member decorators in: member by member in
      declaration order, and for each member from the decorator written last
      to the one written first. */
  function Applications(methods: seq<MethodDecl>): seq<Application> {
    if |methods| == 0 then []
    else
      var m := methods[0];
      var rest := Applications(methods[1..]);
      var own := seq(|m.decorators|, i requires 0 <= i < |m.decorators| => Application(m.name, Reverse(m.decorators)[i]));
      own + rest
  }

  /** Applies method decorators, in order, to the prototype `target`. */
  function ApplyAll(st: MetaStore, target: Target, apps: seq<Application>): MetaStore
    decreases |apps|
  {
    if |apps| == 0 then st
    else
      var before := ApplyAll(st, target, apps[..|apps| - 1]);
      var a := apps[|apps| - 1];
      match a.decorator
      case TaskDecorator(options) => ApplyTask(before, target, a.member, options)
      case DependsOnDecorator(ids) => ApplyDependsOn(before, target, a.member, ids)
  }

  /** The metadata after class `name` is defined: its member decorators run
      first (on the prototype), then its class decorator, if any. */
  function DeclareClass(st: MetaStore, name: string, methods: seq<MethodDecl>, fyn: Option<FynConfig>): MetaStore {
    var afterMembers := ApplyAll(st, PrototypeOf(name), Applications(methods));
    match fyn
    case Some(config) => ApplyFyn(afterMembers, ClassOf(name), config)
    case None => afterMembers
  }

  /** The task records the `@Task` applications declare, in application order. */
  function DeclaredTasks(apps: seq<Application>): seq<TaskMeta> {
    if |apps| == 0 then []
    else
      var init := DeclaredTasks(apps[..|apps| - 1]);
      var a := apps[|apps| - 1];
      match a.decorator
      case TaskDecorator(options) => init + [TaskMetaOf(options, a.member)]
      case DependsOnDecorator(_) => init
  }

  predicate DeclaresDepsOf(a: Application, m: string) {
    a.member == m && a.decorator.DependsOnDecorator?
  }

  /** Method `m` carries no `@DependsOn`. */
  predicate NoDependsOn(apps: seq<Application>, m: string) {
    forall i :: 0 <= i < |apps| ==> !DeclaresDepsOf(apps[i], m)
  }

  /** Application `j` is the last `@DependsOn` applied to method `m`. */
  predicate LastDependsOn(apps: seq<Application>, m: string, j: int) {
    && 0 <= j < |apps| && DeclaresDepsOf(apps[j], m)
    && forall k :: j < k < |apps| ==> !DeclaresDepsOf(apps[k], m)
  }

  /** Applying method decorators to a prototype appends the declared task
      records to the prototype's task list, in application order, and leaves
      the class configurations alone. */
  lemma {:induction false} ApplyAllTasks(st: MetaStore, name: string, apps: seq<Application>)
    ensures TasksAt(ApplyAll(st, PrototypeOf(name), apps), PrototypeOf(name))
            == TasksAt(st, PrototypeOf(name)) + DeclaredTasks(apps)
    ensures ApplyAll(st, PrototypeOf(name), apps).configs == st.configs
    decreases |apps|
  {
    if |apps| > 0 {
      ApplyAllTasks(st, name, apps[..|apps| - 1]);
    }
  }

  /** Method decorators write nothing to the prototype's own dependency
      table: `@DependsOn` writes to the class. */
  lemma {:induction false} ApplyAllLeavesPrototypeDeps(st: MetaStore, name: string, apps: seq<Application>)
    ensures DepsAt(ApplyAll(st, PrototypeOf(name), apps), PrototypeOf(name)) == DepsAt(st, PrototypeOf(name))
    decreases |apps|
  {
    if |apps| > 0 {
      ApplyAllLeavesPrototypeDeps(st, name, apps[..|apps| - 1]);
    }
  }

  /** The class's dependency table after method decorators: a method that
      carries no `@DependsOn` keeps whatever entry it had, and one that does
      maps to the ids of its LAST `@DependsOn` application. */
  lemma {:induction false} ApplyAllClassDeps(st: MetaStore, name: string, apps: seq<Application>, m: string)
    ensures var d := DepsAt(ApplyAll(st, PrototypeOf(name), apps), ClassOf(name));
            var d0 := DepsAt(st, ClassOf(name));
            NoDependsOn(apps, m) ==> (m in d <==> m in d0) && (m in d ==> d[m] == d0[m])
    ensures forall j :: LastDependsOn(apps, m, j) ==>
              var d := DepsAt(ApplyAll(st, PrototypeOf(name), apps), ClassOf(name));
              m in d && d[m] == apps[j].decorator.taskIds
    decreases |apps|
  {
    if |apps| > 0 {
      var init := apps[..|apps| - 1];
      var last := apps[|apps| - 1];
      ApplyAllClassDeps(st, name, init, m);
      ApplyLastDeps(st, name, apps, m);
      var after := DepsAt(ApplyAll(st, PrototypeOf(name), apps), ClassOf(name));
      forall j | LastDependsOn(apps, m, j)
        ensures m in after && after[m] == apps[j].decorator.taskIds
      {
        if j < |apps| - 1 {
          assert LastDependsOn(init, m, j) by {
            assert forall k :: 0 <= k < |init| ==> init[k] == apps[k];
          }
        }
      }
      if NoDependsOn(apps, m) {
        assert NoDependsOn(init, m) by {
          assert forall k :: 0 <= k < |init| ==> init[k] == apps[k];
        }
      }
    }
  }

  /** What the last application does to the class's entry for one member. */
  lemma ApplyLastDeps(st: MetaStore, name: string, apps: seq<Application>, m: string)
    requires |apps| > 0
    ensures var before := DepsAt(ApplyAll(st, PrototypeOf(name), apps[..|apps| - 1]), ClassOf(name));
            var after := DepsAt(ApplyAll(st, PrototypeOf(name), apps), ClassOf(name));
            && (DeclaresDepsOf(apps[|apps| - 1], m) ==> m in after && after[m] == apps[|apps| - 1].decorator.taskIds)
            && (!DeclaresDepsOf(apps[|apps| - 1], m) ==> (m in after <==> m in before) && (m in after ==> after[m] == before[m]))
  {
    var last := apps[|apps| - 1];
    var prior := ApplyAll(st, PrototypeOf(name), apps[..|apps| - 1]);
    assert ConstructorOf(PrototypeOf(name)) == ClassOf(name);
    match last.decorator
    case TaskDecorator(options) =>
      assert ApplyAll(st, PrototypeOf(name), apps) == ApplyTask(prior, PrototypeOf(name), last.member, options);
    case DependsOnDecorator(ids) =>
      assert ApplyAll(st, PrototypeOf(name), apps) == ApplyDependsOn(prior, PrototypeOf(name), last.member, ids);
  }



  // ---------------------------------------------------------------------------
  // Reading the metadata back

  /** A task record with the dependency list extraction adds to it. */
  datatype ExtractedTask = ExtractedTask(meta: TaskMeta, dependsOn: seq<string>)

  datatype Metadata = Metadata(config: FynConfig, tasks: seq<ExtractedTask>)

  /** `dependencies[task.methodName] || []`. */
  function DepsFor(table: map<string, seq<string>>, methodName: string): seq<string> {
    if methodName in table then table[methodName] else []
  }

  /** `tasks.map(task => ({...task, dependsOn: dependencies[task.methodName] || []}))`. */
  function WithDeps(tasks: seq<TaskMeta>, table: map<string, seq<string>>): (r: seq<ExtractedTask>)
    ensures |r| == |tasks|
    ensures forall i :: 0 <= i < |tasks| ==>
              r[i].meta == tasks[i] && r[i].dependsOn == DepsFor(table, tasks[i].methodName)
  {
    seq(|tasks|, i requires 0 <= i < |tasks| => ExtractedTask(tasks[i], DepsFor(table, tasks[i].methodName)))
  }

  /** `extractFYNMetadata` as written: the dependency table is read from the
      prototype, where no decorator writes one. */
  function ExtractFynMetadataAsWritten(st: MetaStore, name: string): (r: Result<Metadata>)
    ensures r.Err? <==> ClassOf(name) !in st.configs
    ensures r.Err? ==> r.message == "Class " + name + " is not decorated with @FYN"
    ensures r.Ok? ==> r.value.config == st.configs[ClassOf(name)]
                      && r.value.tasks == WithDeps(TasksAt(st, PrototypeOf(name)), DepsAt(st, PrototypeOf(name)))
  {
    var tasks := TasksAt(st, PrototypeOf(name));
    var dependencies := DepsAt(st, PrototypeOf(name));
    if ClassOf(name) !in st.configs then Err("Class " + name + " is not decorated with @FYN")
    else Ok(Metadata(st.configs[ClassOf(name)], WithDeps(tasks, dependencies)))
  }

  /** `extractFYNMetadata` reading the dependency table from the class, where
      `@DependsOn` puts it. */
  function ExtractFynMetadata(st: MetaStore, name: string): (r: Result<Metadata>)
    ensures r.Err? <==> ClassOf(name) !in st.configs
    ensures r.Err? ==> r.message == "Class " + name + " is not decorated with @FYN"
    ensures r.Ok? ==> r.value.config == st.configs[ClassOf(name)]
                      && r.value.tasks == WithDeps(TasksAt(st, PrototypeOf(name)), DepsAt(st, ClassOf(name)))
  {
    var tasks := TasksAt(st, PrototypeOf(name));
    var dependencies := DepsAt(st, ClassOf(name));
    if ClassOf(name) !in st.configs then Err("Class " + name + " is not decorated with @FYN")
    else Ok(Metadata(st.configs[ClassOf(name)], WithDeps(tasks, dependencies)))
  }

  /** For a class declared with `@FYN` and decorated methods, the code as
      written extracts the declared tasks in application order but gives
      every one of them an empty dependency list, whatever `@DependsOn` said. */
  lemma DeclaredDependenciesLostAsWritten(name: string, methods: seq<MethodDecl>, config: FynConfig)
    ensures var r := ExtractFynMetadataAsWritten(DeclareClass(EmptyStore, name, methods, Some(config)), name);
            && r.Ok?
            && |r.value.tasks| == |DeclaredTasks(Applications(methods))|
            && forall i :: 0 <= i < |r.value.tasks| ==>
                 r.value.tasks[i].meta == DeclaredTasks(Applications(methods))[i] && r.value.tasks[i].dependsOn == []
  {
    var apps := Applications(methods);
    var members := ApplyAll(EmptyStore, PrototypeOf(name), apps);
    var st := DeclareClass(EmptyStore, name, methods, Some(config));
    assert st == ApplyFyn(members, ClassOf(name), config);
    ApplyAllTasks(EmptyStore, name, apps);
    ApplyAllLeavesPrototypeDeps(EmptyStore, name, apps);
    assert TasksAt(st, PrototypeOf(name)) == DeclaredTasks(apps);
    assert DepsAt(st, PrototypeOf(name)) == map[];
    var r := ExtractFynMetadataAsWritten(st, name);
    assert r.Ok? && r.value.tasks == WithDeps(DeclaredTasks(apps), map[]);
  }

  /** The dependency list the corrected extraction gives method `m` of a
      declared class: the ids of its last `@DependsOn`, or none. */
  lemma {:induction false} DeclaredDepsFor(name: string, methods: seq<MethodDecl>, config: FynConfig, m: string)
    ensures NoDependsOn(Applications(methods), m) ==>
              DepsFor(DepsAt(DeclareClass(EmptyStore, name, methods, Some(config)), ClassOf(name)), m) == []
    ensures forall j :: LastDependsOn(Applications(methods), m, j) ==>
              DepsFor(DepsAt(DeclareClass(EmptyStore, name, methods, Some(config)), ClassOf(name)), m)
              == Applications(methods)[j].decorator.taskIds
  {
    ApplyAllClassDeps(EmptyStore, name, Applications(methods), m);
  }

  /** With the dependency table read from the class, the declared tasks come
      back in application order, and every one carries the ids of the last
      `@DependsOn` applied to its method, or none when its method has none. */
  lemma DeclaredDependenciesDelivered(name: string, methods: seq<MethodDecl>, config: FynConfig)
    ensures var apps := Applications(methods);
            var r := ExtractFynMetadata(DeclareClass(EmptyStore, name, methods, Some(config)), name);
            && r.Ok?
            && r.value.config == config
            && |r.value.tasks| == |DeclaredTasks(apps)|
            && forall i :: 0 <= i < |r.value.tasks| ==>
                 var mn := DeclaredTasks(apps)[i].methodName;
                 && r.value.tasks[i].meta == DeclaredTasks(apps)[i]
                 && (NoDependsOn(apps, mn) ==> r.value.tasks[i].dependsOn == [])
                 && (forall j :: LastDependsOn(apps, mn, j) ==> r.value.tasks[i].dependsOn == apps[j].decorator.taskIds)
  {
    var apps := Applications(methods);
    var st := DeclareClass(EmptyStore, name, methods, Some(config));
    var d := DepsAt(st, ClassOf(name));
    ApplyAllTasks(EmptyStore, name, apps);
    assert TasksAt(st, PrototypeOf(name)) == DeclaredTasks(apps);
    var r := ExtractFynMetadata(st, name);
    assert r.Ok? && r.value.tasks == WithDeps(DeclaredTasks(apps), d);
    forall i | 0 <= i < |r.value.tasks|
      ensures var mn := DeclaredTasks(apps)[i].methodName;
              && r.value.tasks[i].meta == DeclaredTasks(apps)[i]
              && (NoDependsOn(apps, mn) ==> r.value.tasks[i].dependsOn == [])
              && (forall j :: LastDependsOn(apps, mn, j) ==> r.value.tasks[i].dependsOn == apps[j].decorator.taskIds)
    {
      var mn := DeclaredTasks(apps)[i].methodName;
      assert r.value.tasks[i].dependsOn == DepsFor(d, mn);
      DeclaredDepsFor(name, methods, config, mn);
    }
  }


  /** The undecorated-class error, in both readings. */
  lemma UndecoratedClassRejected(name: string, methods: seq<MethodDecl>)
    ensures ExtractFynMetadata(DeclareClass(EmptyStore, name, methods, None), name)
            == Err("Class " + name + " is not decorated with @FYN")
    ensures ExtractFynMetadataAsWritten(DeclareClass(EmptyStore, name, methods, None), name)
            == Err("Class " + name + " is not decorated with @FYN")
  {
    ApplyAllTasks(EmptyStore, name, Applications(methods));
  }

  const NoOptions := TaskOptions(None, None, None, None, None, None, None, None, None, None)

  /** A two-task pipeline whose second method declares `@DependsOn('extract')`:
      the code as written loses the dependency, the corrected reading keeps it. */
  lemma PipelineDependencyExample(config: FynConfig)
    ensures var methods := [MethodDecl("extract", [TaskDecorator(NoOptions)]),
                            MethodDecl("load", [TaskDecorator(NoOptions), DependsOnDecorator(["extract"])])];
            var st := DeclareClass(EmptyStore, "Pipeline", methods, Some(config));
            var asWritten := ExtractFynMetadataAsWritten(st, "Pipeline");
            var corrected := ExtractFynMetadata(st, "Pipeline");
            && asWritten.Ok? && |asWritten.value.tasks| == 2 && asWritten.value.tasks[1].dependsOn == []
            && corrected.Ok? && |corrected.value.tasks| == 2 && corrected.value.tasks[1].dependsOn == ["extract"]
  {
    var extract := MethodDecl("extract", [TaskDecorator(NoOptions)]);
    var load := MethodDecl("load", [TaskDecorator(NoOptions), DependsOnDecorator(["extract"])]);
    var methods := [extract, load];
    assert Reverse(extract.decorators) == [TaskDecorator(NoOptions)];
    assert Reverse(load.decorators) == [DependsOnDecorator(["extract"]), TaskDecorator(NoOptions)];
    assert Applications(methods[1..][1..]) == [];
    assert Applications(methods[1..]) == [Application("load", DependsOnDecorator(["extract"])), Application("load", TaskDecorator(NoOptions))];
    var apps := Applications(methods);
    assert apps == [Application("extract", TaskDecorator(NoOptions)),
                    Application("load", DependsOnDecorator(["extract"])),
                    Application("load", TaskDecorator(NoOptions))];
    assert DeclaredTasks(apps[..1]) == [TaskMetaOf(NoOptions, "extract")] by {
      assert apps[..1][..0] == [];
    }
    assert DeclaredTasks(apps[..2]) == [TaskMetaOf(NoOptions, "extract")] by {
      assert apps[..2][..1] == apps[..1];
    }
    assert DeclaredTasks(apps) == [TaskMetaOf(NoOptions, "extract"), TaskMetaOf(NoOptions, "load")] by {
      assert apps[..2] == apps[..|apps| - 1];
    }
    DeclaredDependenciesLostAsWritten("Pipeline", methods, config);
    DeclaredDependenciesDelivered("Pipeline", methods, config);
    assert LastDependsOn(apps, "load", 1);
  }

  // ---------------------------------------------------------------------------
  // createFYNInstance

  /** The task object `createFYNInstance` builds from one extracted record:
      the record's properties (no `script`), and an `execute` bound to the
      method for a `javascript` task with a method name. */
  function ToTaskConfig(e: ExtractedTask): (t: TaskConfig)
    ensures t.taskId == e.meta.taskId && t.taskType == e.meta.taskType
    ensures t.script.None? && t.dependsOn == Some(e.dependsOn)
    ensures t.execute.Some? <==> e.meta.taskType == "javascript" && e.meta.methodName != ""
    ensures t.execute.Some? ==> t.execute.value == e.meta.methodName
    ensures && t.timeout == e.meta.timeout && t.retries == e.meta.retries && t.params == e.meta.params
            && t.url == e.meta.url && t.httpMethod == e.meta.httpMethod && t.headers == e.meta.headers
            && t.body == e.meta.body && t.command == e.meta.command
  {
    var m := e.meta;
    TaskConfig(
      m.taskId, m.taskType, None, m.command, m.url, m.httpMethod, m.headers, m.body,
      m.timeout, m.retries, Some(e.dependsOn), m.params,
      if m.taskType == "javascript" && m.methodName != "" then Some(m.methodName) else None)
  }

  /** `createFYNInstance(C)`: extraction (which may throw), then `new C()`
      (whose constructor may throw, modelled by `construction`), then one
      task object per extracted record, in order. This is the corrected
      reading, with the dependency table taken from the class, on which the
      loader is built. */
  function CreateFynInstance(st: MetaStore, name: string, construction: Outcome): (r: Result<Fyn>)
    ensures r.Ok? <==> ClassOf(name) in st.configs && construction.Pass?
    ensures ClassOf(name) !in st.configs ==> r == Err("Class " + name + " is not decorated with @FYN")
    ensures r.Ok? ==> r.value.config == st.configs[ClassOf(name)]
                      && |r.value.tasks| == |TasksAt(st, PrototypeOf(name))|
                      && forall i :: 0 <= i < |r.value.tasks| ==>
                           r.value.tasks[i] == ToTaskConfig(ExtractedTask(TasksAt(st, PrototypeOf(name))[i],
                                                                          DepsFor(DepsAt(st, ClassOf(name)), TasksAt(st, PrototypeOf(name))[i].methodName)))
  {
    match ExtractFynMetadata(st, name)
    case Err(e) => Err(e)
    case Ok(md) => Instantiate(md, construction)
  }

  /** `createFYNInstance(C)` as written: the same steps over the extraction
      that reads the dependency table from the prototype. */
  function CreateFynInstanceAsWritten(st: MetaStore, name: string, construction: Outcome): (r: Result<Fyn>)
    ensures r.Ok? <==> ClassOf(name) in st.configs && construction.Pass?
    ensures ClassOf(name) !in st.configs ==> r == Err("Class " + name + " is not decorated with @FYN")
    ensures r.Ok? ==> r.value.config == st.configs[ClassOf(name)]
                      && |r.value.tasks| == |TasksAt(st, PrototypeOf(name))|
                      && forall i :: 0 <= i < |r.value.tasks| ==>
                           r.value.tasks[i] == ToTaskConfig(ExtractedTask(TasksAt(st, PrototypeOf(name))[i],
                                                                          DepsFor(DepsAt(st, PrototypeOf(name)), TasksAt(st, PrototypeOf(name))[i].methodName)))
  {
    match ExtractFynMetadataAsWritten(st, name)
    case Err(e) => Err(e)
    case Ok(md) => Instantiate(md, construction)
  }

  /** `new C()` and the task objects built from extracted metadata. */
  function Instantiate(md: Metadata, construction: Outcome): (r: Result<Fyn>)
    ensures r.Ok? <==> construction.Pass?
    ensures r.Ok? ==> r.value.config == md.config && |r.value.tasks| == |md.tasks|
                      && forall i :: 0 <= i < |md.tasks| ==> r.value.tasks[i] == ToTaskConfig(md.tasks[i])
    ensures construction.Fail? ==> r == Err(construction.message)
  {
    match construction
    case Fail(e) => Err(e)
    case Pass => Ok(Fyn(md.config, seq(|md.tasks|, i requires 0 <= i < |md.tasks| => ToTaskConfig(md.tasks[i]))))
  }

  /** As written, an instance of a declared class carries every declared task
      with an empty dependency list, whatever `@DependsOn` said. */
  lemma InstanceDependenciesLostAsWritten(name: string, methods: seq<MethodDecl>, config: FynConfig)
    ensures var r := CreateFynInstanceAsWritten(DeclareClass(EmptyStore, name, methods, Some(config)), name, Pass);
            && r.Ok?
            && |r.value.tasks| == |DeclaredTasks(Applications(methods))|
            && forall i :: 0 <= i < |r.value.tasks| ==>
                 && r.value.tasks[i].taskId == DeclaredTasks(Applications(methods))[i].taskId
                 && r.value.tasks[i].dependsOn == Some([])
  {
    var st := DeclareClass(EmptyStore, name, methods, Some(config));
    DeclaredDependenciesLostAsWritten(name, methods, config);
    var md := ExtractFynMetadataAsWritten(st, name);
    assert md.Ok?;
    var r := CreateFynInstanceAsWritten(st, name, Pass);
    assert r == Instantiate(md.value, Pass);
    forall i | 0 <= i < |r.value.tasks|
      ensures && r.value.tasks[i].taskId == DeclaredTasks(Applications(methods))[i].taskId
              && r.value.tasks[i].dependsOn == Some([])
    {
      assert r.value.tasks[i] == ToTaskConfig(md.value.tasks[i]);
    }
  }
}
