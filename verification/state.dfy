/** The state one Tasker instance keeps, and the invariant every operation preserves. */
module TaskerState {

  /** Process-wide configuration: the root path and whether tests are running. */
  datatype Config = Config(path: string, isTesting: bool)

  /** The `mullet.vhost` field of the application's package: absent, one host, or a list. */
  datatype VHost = NoVHost | Host(host: string) | Hosts(hosts: seq<string>)

  /** The application the instance builds for. */
  datatype App = App(name: string, base: string, vhost: VHost)

  /** An entry of the task list: a namespaced task name, or the step `live(port)` pushed. */
  datatype Entry = TaskName(name: string) | LiveStep(port: int)

  /** What a name is registered as in the build engine's task table. */
  datatype Registration =
    | SimpleTask(globs: seq<string>)   // reads `globs`, runs the stages, writes to the destinations
    | VerbatimTask                     // the caller's own engine task, passed through unmodified

  /** The live-reload server. */
  datatype Reload = NotListening | Listening(port: int)

  /** One Tasker instance. `srcs` maps an absolute glob to the tasks that read it,
      `engine` holds this instance's registrations in the build engine's process-wide task
      table, `watched` the globs under watch. */
  datatype Tasker = Tasker(
    config: Config,
    app: App,
    destpaths: seq<string>,
    sharepath: string,
    tasks: seq<Entry>,
    srcs: map<string, seq<string>>,
    engine: map<string, Registration>,
    watching: bool,
    watched: set<string>,
    running: bool,
    reload: Reload)

  /** The namespaced name `add(local)` registers. */
  function QualifiedName(app: App, local: string): string {
    app.name + "-" + local
  }

  /** The task list ends with a live step, so no further task may be added. */
  predicate LastIsLiveStep(tasks: seq<Entry>) {
    |tasks| > 0 && tasks[|tasks| - 1].LiveStep?
  }

  /** The tasks that depend on glob `g`; none for a glob nobody registered. */
  function Dependents(srcs: map<string, seq<string>>, g: string): seq<string> {
    if g in srcs then srcs[g] else []
  }

  /** Every task name carries the application's prefix. */
  ghost predicate Namespaced(prefix: string, tasks: seq<Entry>) {
    forall i | 0 <= i < |tasks| && tasks[i].TaskName? :: prefix <= tasks[i].name
  }

  /** Live steps only ever trail the task names. */
  ghost predicate LiveStepsTrail(tasks: seq<Entry>) {
    forall i, j | 0 <= i < j < |tasks| && tasks[i].LiveStep? :: tasks[j].LiveStep?
  }

  /** The source index holds no empty list and names only tasks in the task list. */
  ghost predicate IndexSound(srcs: map<string, seq<string>>, tasks: seq<Entry>) {
    && (forall g | g in srcs :: |srcs[g]| > 0)
    && (forall g, n | g in srcs && n in srcs[g] :: TaskName(n) in tasks)
  }

  /** This instance's registrations are exactly the names in its task list. */
  ghost predicate EngineMatches(engine: map<string, Registration>, tasks: seq<Entry>) {
    forall n :: n in engine <==> TaskName(n) in tasks
  }

  /** The invariant of a Tasker instance. */
  ghost predicate Valid(t: Tasker) {
    && Namespaced(t.app.name + "-", t.tasks)
    && LiveStepsTrail(t.tasks)
    && IndexSound(t.srcs, t.tasks)
    && EngineMatches(t.engine, t.tasks)
    && t.watched <= t.srcs.Keys
  }
}
