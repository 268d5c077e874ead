/** The Tasker constructor: destination paths from the virtual hosts, the shared-assets
    path, and the factory it hands back when the application declares no host. */
module Construction {
  import opened JsText
  import opened TaskerState

  /** What `new Tasker(app)` evaluates to. An application without a vhost gets a
      factory (a function that constructs a Tasker for another application) instead. */
  datatype Construction = Factory | Instance(tasker: Tasker)

  /** The vhost field counts as present (JavaScript truthiness): a non-empty string, or any
      list, even an empty one. */
  predicate HasVHost(v: VHost) {
    match v
    case NoVHost => false
    case Host(h) => Truthy(h)
    case Hosts(_) => true
  }

  /** A single host is treated as a one-element list. */
  function HostList(v: VHost): seq<string> {
    match v
    case NoVHost => []
    case Host(h) => [h]
    case Hosts(hs) => hs
  }

  /** `[root, 'public/sites', host].join('/')`. */
  function SitePath(root: string, host: string): (r: string)
    ensures r == root + "/public/sites/" + host
  {
    JoinThree(root, "public/sites", host, "/");
    Join([root, "public/sites", host], "/")
  }

  /** `[root, 'public/assets', name].join('/')`. */
  function SharePath(root: string, name: string): (r: string)
    ensures r == root + "/public/assets/" + name
  {
    JoinThree(root, "public/assets", name, "/");
    Join([root, "public/assets", name], "/")
  }

  /** One site directory per host, in host order (the loop that pushes onto `destpaths`). */
  function SitePaths(root: string, hosts: seq<string>): (r: seq<string>)
    ensures |r| == |hosts|
    ensures forall i | 0 <= i < |hosts| :: r[i] == root + "/public/sites/" + hosts[i]
    decreases |hosts|
  {
    if |hosts| == 0 then []
    else [SitePath(root, hosts[0])] + SitePaths(root, hosts[1..])
  }

  /** `new Tasker(app)` under configuration `config`. */
  function Construct(config: Config, app: App): (r: Construction)
    ensures r.Factory? <==> !HasVHost(app.vhost)
    ensures r.Instance? ==>
      && |r.tasker.destpaths| == |HostList(app.vhost)|
      && (forall i | 0 <= i < |r.tasker.destpaths| ::
            r.tasker.destpaths[i] == config.path + "/public/sites/" + HostList(app.vhost)[i])
    ensures r.Instance? ==> r.tasker.sharepath == config.path + "/public/assets/" + app.name
    ensures r.Instance? ==>
      && r.tasker.app == app && r.tasker.config == config
      && r.tasker.tasks == [] && r.tasker.srcs == map[] && r.tasker.engine == map[]
      && !r.tasker.watching && r.tasker.watched == {} && !r.tasker.running
      && r.tasker.reload == NotListening
    ensures r.Instance? ==> Valid(r.tasker)
  {
    if !HasVHost(app.vhost) then Factory
    else
      Instance(Tasker(
        config := config,
        app := app,
        destpaths := SitePaths(config.path, HostList(app.vhost)),
        sharepath := SharePath(config.path, app.name),
        tasks := [],
        srcs := map[],
        engine := map[],
        watching := false,
        watched := {},
        running := false,
        reload := NotListening))
  }

  /** The forms of the vhost field: no field or an empty host string gives the factory, one
      host gives one site directory, and an empty host list (truthy, like every array) gives
      an instance with no destination at all. */
  lemma VHostForms(config: Config, app: App)
    ensures app.vhost == NoVHost || app.vhost == Host("") ==> Construct(config, app) == Factory
    ensures app.vhost.Host? && app.vhost.host != "" ==>
      && Construct(config, app).Instance?
      && Construct(config, app).tasker.destpaths == [config.path + "/public/sites/" + app.vhost.host]
    ensures app.vhost == Hosts([]) ==>
      Construct(config, app).Instance? && Construct(config, app).tasker.destpaths == []
  {
    if app.vhost.Host? && app.vhost.host != "" {
      var d := Construct(config, app).tasker.destpaths;
      assert |d| == 1 && d[0] == config.path + "/public/sites/" + app.vhost.host;
    }
  }
}
