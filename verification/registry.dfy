/** The task registry: `add` records a namespaced task and indexes its sources, `live`
    appends the live-reload step, `run` starts the task list. */
module Registry {
  import opened Outcomes
  import opened JsText
  import opened TaskerState
  import opened Globs

  /** The second argument of `add`: a glob string, an array, or anything else (a function,
      nothing). Any array counts, including an engine dependency list. */
  datatype SourcesArg = SrcString(glob: string) | SrcArray(globs: seq<string>) | SrcOther

  /** The third argument of `add`: an object (a stage, a stage factory, a list of them),
      or not an object (nothing, a primitive). */
  datatype StagesArg = StagesObject | StagesOther

  /** `add` builds a simple pipe task only for a string or array source and an object stage argument. */
  predicate IsSimple(sources: SourcesArg, stages: StagesArg) {
    (sources.SrcString? || sources.SrcArray?) && stages.StagesObject?
  }

  /** The globs of a string or array source argument. */
  function GlobArgOf(sources: SourcesArg): GlobArg
    requires sources.SrcString? || sources.SrcArray?
  {
    if sources.SrcString? then OneGlob(sources.glob) else GlobList(sources.globs)
  }

  /** `n` copies of `x`. */
  function Repeat<T>(x: T, n: nat): (r: seq<T>)
    ensures |r| == n
    ensures forall i | 0 <= i < n :: r[i] == x
  {
    if n == 0 then [] else [x] + Repeat(x, n - 1)
  }

  /** `if(!srcs[src]) srcs[src] = []; srcs[src].push(name)`. */
  function AddDependent(srcs: map<string, seq<string>>, g: string, name: string): (r: map<string, seq<string>>)
    ensures r.Keys == srcs.Keys + {g}
    ensures Dependents(r, g) == Dependents(srcs, g) + [name]
    ensures forall h | h != g :: Dependents(r, h) == Dependents(srcs, h)
  {
    srcs[g := Dependents(srcs, g) + [name]]
  }

  /** The source-index update of `add`: `name` is appended to the list of each glob in
      `globs`, in order. */
  function IndexGlobs(srcs: map<string, seq<string>>, globs: seq<string>, name: string): (r: map<string, seq<string>>)
    ensures srcs.Keys <= r.Keys
    decreases |globs|
  {
    if |globs| == 0 then srcs
    else IndexGlobs(AddDependent(srcs, globs[0], name), globs[1..], name)
  }

  /** After indexing, the globs indexed are the old ones and those of `globs`, and each
      glob's list is its old list followed by `name` once per occurrence of the glob in
      `globs`: a missing glob starts a new list, and no other list changes. */
  lemma {:induction false} IndexGlobsContents(srcs: map<string, seq<string>>, globs: seq<string>, name: string)
    ensures forall g :: g in IndexGlobs(srcs, globs, name) <==> g in srcs || g in globs
    ensures forall g :: Dependents(IndexGlobs(srcs, globs, name), g)
                        == Dependents(srcs, g) + Repeat(name, multiset(globs)[g])
    decreases |globs|
  {
    if |globs| > 0 {
      var a := AddDependent(srcs, globs[0], name);
      var rest := globs[1..];
      IndexGlobsContents(a, rest, name);
      assert globs == [globs[0]] + rest;
      forall g ensures Dependents(IndexGlobs(srcs, globs, name), g)
                       == Dependents(srcs, g) + Repeat(name, multiset(globs)[g]) {
        var c := multiset(rest)[g];
        assert Dependents(IndexGlobs(srcs, globs, name), g) == Dependents(a, g) + Repeat(name, c);
        if g == globs[0] {
          assert multiset(globs)[g] == c + 1;
          assert Repeat(name, c + 1) == [name] + Repeat(name, c);
          assert Dependents(srcs, g) + [name] + Repeat(name, c) == Dependents(srcs, g) + ([name] + Repeat(name, c));
        } else {
          assert multiset(globs)[g] == c;
        }
      }
    }
  }

  /** What `add` returns: `undefined` after the warning it logs, or the instance for chaining. */
  datatype AddResult = Warned | Chained(tasker: Tasker)

  /** What `add` registers in the engine: a simple task reading the absolute globs, or the
      caller's own task. */
  function Registered(app: App, sources: SourcesArg, stages: StagesArg): Registration {
    if IsSimple(sources, stages) then SimpleTask(AbsoluteSrc(app.base, GlobArgOf(sources))) else VerbatimTask
  }

  /** The accepted simple branch of `add`: the name appended, its globs indexed, and the
      name registered as a simple task reading them. */
  function AddSimpleTask(t: Tasker, name: string, globs: seq<string>): (r: Tasker)
    ensures r.tasks == t.tasks + [TaskName(name)]
    ensures forall g :: g in r.srcs <==> g in t.srcs || g in globs
    ensures forall g :: Dependents(r.srcs, g) == Dependents(t.srcs, g) + Repeat(name, multiset(globs)[g])
    ensures r.engine == t.engine[name := SimpleTask(globs)]
    ensures r == t.(tasks := r.tasks, srcs := r.srcs, engine := r.engine)
  {
    IndexGlobsContents(t.srcs, globs, name);
    t.(tasks := t.tasks + [TaskName(name)], srcs := IndexGlobs(t.srcs, globs, name), engine := t.engine[name := SimpleTask(globs)])
  }

  /** `add(local, sources, stages)`. */
  function Add(t: Tasker, local: string, sources: SourcesArg, stages: StagesArg): (r: AddResult)
    ensures r.Warned? <==> LastIsLiveStep(t.tasks)
    ensures r.Chained? ==> r.tasker.tasks == t.tasks + [TaskName(QualifiedName(t.app, local))]
    ensures r.Chained? && !IsSimple(sources, stages) ==> r.tasker.srcs == t.srcs
    ensures r.Chained? && IsSimple(sources, stages) ==>
      var globs := AbsoluteSrc(t.app.base, GlobArgOf(sources));
      && (forall g :: g in r.tasker.srcs <==> g in t.srcs || g in globs)
      && (forall g :: Dependents(r.tasker.srcs, g)
                      == Dependents(t.srcs, g) + Repeat(QualifiedName(t.app, local), multiset(globs)[g]))
    ensures r.Chained? ==>
      r.tasker.engine == t.engine[QualifiedName(t.app, local) := Registered(t.app, sources, stages)]
    ensures r.Chained? ==>
      r.tasker == t.(tasks := r.tasker.tasks, srcs := r.tasker.srcs, engine := r.tasker.engine)
  {
    if LastIsLiveStep(t.tasks) then Warned
    else
      var name := QualifiedName(t.app, local);
      if IsSimple(sources, stages) then
        Chained(AddSimpleTask(t, name, AbsoluteSrc(t.app.base, GlobArgOf(sources))))
      else
        Chained(t.(tasks := t.tasks + [TaskName(name)], engine := t.engine[name := VerbatimTask]))
  }

  /** `add` keeps the Tasker invariant. */
  lemma AddPreservesValid(t: Tasker, local: string, sources: SourcesArg, stages: StagesArg)
    requires Valid(t)
    requires Add(t, local, sources, stages).Chained?
    ensures Valid(Add(t, local, sources, stages).tasker)
  {
    var t' := Add(t, local, sources, stages).tasker;
    var name := QualifiedName(t.app, local);
    AppendedNameKeepsOrder(t.app.name + "-", t.tasks, local);
    assert t'.tasks == t.tasks + [TaskName(name)];
    if IsSimple(sources, stages) {
      var globs := AbsoluteSrc(t.app.base, GlobArgOf(sources));
      IndexedSound(t.srcs, t'.srcs, t.tasks, globs, name);
    } else {
      UnchangedIndexSound(t.srcs, t.tasks, TaskName(name));
    }
    assert IndexSound(t'.srcs, t'.tasks);
    assert EngineMatches(t'.engine, t'.tasks);
    assert t'.watched <= t'.srcs.Keys;
  }

  /** Appending a prefixed name to a list that does not end with a live step keeps the
      names prefixed and the live steps trailing. */
  lemma AppendedNameKeepsOrder(prefix: string, tasks: seq<Entry>, local: string)
    requires Namespaced(prefix, tasks) && LiveStepsTrail(tasks) && !LastIsLiveStep(tasks)
    ensures Namespaced(prefix, tasks + [TaskName(prefix + local)])
    ensures LiveStepsTrail(tasks + [TaskName(prefix + local)])
  {
    var tasks' := tasks + [TaskName(prefix + local)];
    forall i | 0 <= i < |tasks'| && tasks'[i].TaskName? ensures prefix <= tasks'[i].name {
      if i < |tasks| { assert tasks'[i] == tasks[i]; }
    }
    assert forall i | 0 <= i < |tasks| :: tasks[i].TaskName?;
  }

  /** An unchanged index stays sound when the task list grows. */
  lemma UnchangedIndexSound(srcs: map<string, seq<string>>, tasks: seq<Entry>, e: Entry)
    requires IndexSound(srcs, tasks)
    ensures IndexSound(srcs, tasks + [e])
  {
    forall g, n | g in srcs && n in srcs[g] ensures TaskName(n) in tasks + [e] {
      assert TaskName(n) in tasks;
    }
  }

  /** Indexing a new task's globs keeps the index sound once the task is in the list. */
  lemma IndexedSound(srcs: map<string, seq<string>>, srcs': map<string, seq<string>>,
                     tasks: seq<Entry>, globs: seq<string>, name: string)
    requires IndexSound(srcs, tasks)
    requires forall g :: g in srcs' <==> g in srcs || g in globs
    requires forall g :: Dependents(srcs', g) == Dependents(srcs, g) + Repeat(name, multiset(globs)[g])
    ensures IndexSound(srcs', tasks + [TaskName(name)])
  {
    var tasks' := tasks + [TaskName(name)];
    forall g, n | g in srcs' && n in srcs'[g] ensures TaskName(n) in tasks' {
      assert n in Dependents(srcs', g);
      if n in Dependents(srcs, g) {
        assert TaskName(n) in tasks;
      } else {
        assert n == name;
      }
    }
    forall g | g in srcs' ensures |srcs'[g]| > 0 {
      assert Dependents(srcs', g) == srcs'[g];
      if g !in srcs {
        assert g in globs;
        assert multiset(globs)[g] > 0;
      }
    }
  }

  /** Once the task list ends with a live step, every `add` is refused and changes nothing. */
  lemma AddAfterLiveRefused(t: Tasker, port: Option<int>, local: string, sources: SourcesArg, stages: StagesArg)
    ensures Add(Live(t, port), local, sources, stages) == Warned
  {
  }

  /** The port `live(port)` listens on: any falsy argument (none, 0) means 9999. */
  function LivePort(port: Option<int>): (p: int)
    ensures p != 0
    ensures port.Some? && port.value != 0 ==> p == port.value
    ensures port.None? || port.value == 0 ==> p == 9999
  {
    if port.None? || port.value == 0 then 9999 else port.value
  }

  /** `live(port)`: appends one live step and nothing else. */
  function Live(t: Tasker, port: Option<int>): (r: Tasker)
    ensures r.tasks == t.tasks + [LiveStep(LivePort(port))]
    ensures LastIsLiveStep(r.tasks)
    ensures r == t.(tasks := r.tasks)
  {
    t.(tasks := t.tasks + [LiveStep(LivePort(port))])
  }

  /** `live` keeps the Tasker invariant. */
  lemma LivePreservesValid(t: Tasker, port: Option<int>)
    requires Valid(t)
    ensures Valid(Live(t, port))
  {
    var t' := Live(t, port);
    UnchangedIndexSound(t.srcs, t.tasks, LiveStep(LivePort(port)));
    assert EngineMatches(t'.engine, t'.tasks) by {
      forall n | TaskName(n) in t'.tasks ensures n in t'.engine {
        var i :| 0 <= i < |t'.tasks| && t'.tasks[i] == TaskName(n);
        assert i < |t.tasks|;
        assert TaskName(n) in t.tasks;
      }
    }
  }

  /** The `taskGroup` argument of `run`: none, a string (the documented type), or a list of names. */
  datatype GroupArg = NoGroup | GroupName(name: string) | GroupList(names: seq<string>)

  /** What `run` does: the list it logs, the list it hands to the build engine (or the
      error starting it throws), whether it warns about a second run, and the state afterwards. */
  datatype RunPlan = RunPlan(logged: seq<Entry>, started: Result<seq<Entry>>, warned: bool, after: Tasker)

  const ApplyError := "TypeError: CreateListFromArrayLike called on non-object"

  /** The list a run logs: the task list without one trailing live step. */
  function LoggedTasks(tasks: seq<Entry>): seq<Entry> {
    if LastIsLiveStep(tasks) then tasks[..|tasks| - 1] else tasks
  }

  /** `run(taskGroup)`, as written. The logged list drops one trailing live step; the engine
      gets a list group, or for a falsy group the whole unfiltered task list (the engine takes
      a trailing function as its completion callback). A non-empty string group is spread by
      `apply`, which accepts only array-likes, so starting throws after the flag is set. */
  function Run(t: Tasker, group: GroupArg): (r: RunPlan)
    ensures LastIsLiveStep(t.tasks) ==> r.logged + [t.tasks[|t.tasks| - 1]] == t.tasks
    ensures !LastIsLiveStep(t.tasks) ==> r.logged == t.tasks
    ensures r.started.Err? <==> group.GroupName? && Truthy(group.name)
    ensures group.NoGroup? || (group.GroupName? && !Truthy(group.name)) ==> r.started == Ok(t.tasks)
    ensures group.GroupList? ==>
      && r.started.Ok?
      && |r.started.value| == |group.names|
      && forall i | 0 <= i < |group.names| :: r.started.value[i] == TaskName(group.names[i])
    ensures r.warned <==> t.running
    ensures r.after == t.(running := true)
  {
    var started := match group
      case NoGroup => Ok(t.tasks)
      case GroupName(n) => if Truthy(n) then Err(ApplyError) else Ok(t.tasks)
      case GroupList(ns) => Ok(seq(|ns|, i requires 0 <= i < |ns| => TaskName(ns[i])));
    RunPlan(LoggedTasks(t.tasks), started, t.running, t.(running := true))
  }

  /** `run(taskGroup)` as documented: a group name starts that one task. Every other group
      runs as written. */
  function RunCorrected(t: Tasker, group: GroupArg): (r: RunPlan)
    ensures r.started.Ok?
    ensures group.GroupName? && Truthy(group.name) ==>
      r.started == Ok([TaskName(group.name)]) && r.logged == Run(t, group).logged && r.after == Run(t, group).after
    ensures !(group.GroupName? && Truthy(group.name)) ==> r == Run(t, group)
  {
    if group.GroupName? && Truthy(group.name) then Run(t, group).(started := Ok([TaskName(group.name)]))
    else Run(t, group)
  }

  /** A run given one task's name throws instead of starting it; the corrected run starts
      exactly that task. Either way the instance counts as running. */
  lemma NamedGroupThrows(t: Tasker, name: string)
    requires name != ""
    ensures Run(t, GroupName(name)).started == Err(ApplyError)
    ensures Run(t, GroupName(name)).after.running
    ensures RunCorrected(t, GroupName(name)).started == Ok([TaskName(name)])
  {
    assert Truthy(name);
  }

  /** Running right after `live` logs exactly the tasks registered before it. */
  lemma RunAfterLiveLogsTasks(t: Tasker, port: Option<int>, group: GroupArg)
    ensures Run(Live(t, port), group).logged == t.tasks
  {
  }

  /** Only one live step is dropped from the log: after two `live` calls the first still shows. */
  lemma RunAfterTwoLivesLogsOne(t: Tasker, p1: Option<int>, p2: Option<int>, group: GroupArg)
    ensures Run(Live(Live(t, p1), p2), group).logged == t.tasks + [LiveStep(LivePort(p1))]
  {
  }

  /** For a valid instance, the logged list holds task names only exactly when the entry
      before the last one is a task name, that is, when at most one live step trails. */
  lemma RunLogsOnlyNames(t: Tasker, group: GroupArg)
    requires Valid(t)
    ensures (forall e | e in Run(t, group).logged :: e.TaskName?)
        <==> (|t.tasks| < 2 || t.tasks[|t.tasks| - 2].TaskName?)
  {
    var n := |t.tasks|;
    var logged := Run(t, group).logged;
    if n >= 2 && t.tasks[n - 2].LiveStep? {
      assert t.tasks[n - 1].LiveStep?;
      assert logged == t.tasks[..n - 1];
      assert logged[n - 2] in logged;
    }
    if n < 2 || t.tasks[n - 2].TaskName? {
      forall e | e in logged ensures e.TaskName? {
        var i :| 0 <= i < |logged| && logged[i] == e;
        assert logged[i] == t.tasks[i];
      }
    }
  }
}
