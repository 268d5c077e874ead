/** Destination choice and the multi-destination file operations: `pipeTo`, `writeFile`,
    `appendFile` and `copyFile`. The file system is not modelled; each destination's
    directory creation and write or copy is an outcome supplied by the caller, and the
    operation's result is the `Promise.all` of the per-destination promises. */
module FileOps {
  import opened Outcomes
  import opened JsText
  import opened PathLib
  import opened Promises
  import opened TaskerState

  /** The override argument of `pipeTo`: none, one path, or a list of paths. */
  datatype Override = NoOverride | OnePath(path: string) | PathList(paths: seq<string>)

  /** The override counts as given (JavaScript truthiness): a non-empty path, or any list. */
  predicate OverrideGiven(o: Override) {
    match o
    case NoOverride => false
    case OnePath(p) => Truthy(p)
    case PathList(_) => true
  }

  const NoDestinationError := "no vhost specified or no destination override"

  /** `pipeTo(override)`: the directories the pipeline writes to, one writer each. A given
      override replaces the vhost destinations; without one, an instance with no destination
      reports an error and builds no writer. */
  function PipeTo(t: Tasker, o: Override): (r: Result<seq<string>>)
    ensures r.Err? <==> !OverrideGiven(o) && |t.destpaths| == 0
    ensures r.Ok? && !OverrideGiven(o) ==> r.value == t.destpaths
    ensures r.Ok? && o.OnePath? && OverrideGiven(o) ==> r.value == [o.path]
    ensures r.Ok? && o.PathList? ==> r.value == o.paths
  {
    if !OverrideGiven(o) && |t.destpaths| == 0 then Err(NoDestinationError)
    else
      match o
      case OnePath(p) => if Truthy(p) then Ok([p]) else Ok(t.destpaths)
      case PathList(ps) => Ok(ps)
      case NoOverride => Ok(t.destpaths)
  }

  /** The outcome of one asynchronous file-system step: its output, or an error. */
  datatype Io = Done(output: string) | Failed(error: string)

  /** The outcomes of one destination's two steps: creating the directory, then the write or copy. */
  datatype StepIo = StepIo(mkdir: Io, op: Io)

  /** `fs.writeFile` or `fs.appendFile`. */
  datatype WriteMode = Overwrite | Append

  /** One destination of a write: create `dir`, then write or append `data` at `path`. */
  datatype WriteStep = WriteStep(dir: string, path: string, data: string, mode: WriteMode)

  /** The per-destination plan of `writeFile(name, data, destination, op)`. A single
      explicit destination replaces the vhost destinations; without one, an instance with
      no destination reports an error before any write. */
  function WritePlan(t: Tasker, name: string, data: string, destination: Option<string>, mode: WriteMode)
    : (r: Result<seq<WriteStep>>)
    ensures r.Err? <==> (destination.None? || !Truthy(destination.value)) && |t.destpaths| == 0
    ensures r.Ok? ==>
      var dests := if destination.Some? && Truthy(destination.value) then [destination.value] else t.destpaths;
      && |r.value| == |dests|
      && forall i | 0 <= i < |dests| ::
           && r.value[i].path == dests[i] + "/" + name
           && r.value[i].dir == Dirname(dests[i] + "/" + name)
           && r.value[i].data == data && r.value[i].mode == mode
  {
    var o := if destination.Some? then OnePath(destination.value) else NoOverride;
    match PipeTo(t, o)
    case Err(e) => Err(e)
    case Ok(dests) =>
      Ok(seq(|dests|, i requires 0 <= i < |dests| =>
        WriteStep(Dirname(dests[i] + "/" + name), dests[i] + "/" + name, data, mode)))
  }

  /** One destination's promise in `writeFile`: it rejects when the directory cannot be
      created or the write fails, and otherwise fulfils with the written path. */
  function WriteSettle(step: WriteStep, io: StepIo): (r: Settle<string>)
    ensures !r.Pending?
    ensures r.Fulfilled? <==> Succeeded(io)
    ensures r.Fulfilled? ==> r.value == step.path
    ensures r.Rejected? ==> r == CopySettleCorrected(io)
  {
    if io.mkdir.Failed? then Rejected(io.mkdir.error)
    else if io.op.Failed? then Rejected(io.op.error)
    else Fulfilled(step.path)
  }

  /** Every step of one destination succeeded. */
  predicate Succeeded(io: StepIo) {
    io.mkdir.Done? && io.op.Done?
  }

  /** `writeFile(name, data, destination, op)`, given one outcome per planned destination:
      an error when there is no destination; otherwise a promise that fulfils with the
      written paths in destination order exactly when every destination succeeds, rejects
      when any fails, and always settles. */
  function WriteFile(t: Tasker, name: string, data: string, destination: Option<string>, mode: WriteMode,
                     io: seq<StepIo>): (r: Result<Settle<seq<string>>>)
    requires WritePlan(t, name, data, destination, mode).Ok? ==> |io| == |WritePlan(t, name, data, destination, mode).value|
    ensures r.Err? <==> (destination.None? || !Truthy(destination.value)) && |t.destpaths| == 0
    ensures r.Ok? ==> !r.value.Pending?
    ensures r.Ok? ==> (r.value.Fulfilled? <==> forall i | 0 <= i < |io| :: Succeeded(io[i]))
    ensures r.Ok? && r.value.Fulfilled? ==>
      var dests := if destination.Some? && Truthy(destination.value) then [destination.value] else t.destpaths;
      && |r.value.value| == |dests|
      && forall i | 0 <= i < |dests| :: r.value.value[i] == dests[i] + "/" + name
  {
    match WritePlan(t, name, data, destination, mode)
    case Err(e) => Err(e)
    case Ok(plan) =>
      var ps := seq(|plan|, i requires 0 <= i < |plan| => WriteSettle(plan[i], io[i]));
      assert forall i | 0 <= i < |plan| :: ps[i].Fulfilled? <==> Succeeded(io[i]);
      Ok(All(ps))
  }

  /** `appendFile(name, data, destination)`: `writeFile` with `fs.appendFile`, so it chooses
      and settles exactly as a write does, and each planned step appends. */
  function AppendFile(t: Tasker, name: string, data: string, destination: Option<string>,
                      io: seq<StepIo>): (r: Result<Settle<seq<string>>>)
    requires WritePlan(t, name, data, destination, Append).Ok? ==> |io| == |WritePlan(t, name, data, destination, Append).value|
    ensures r.Err? <==> (destination.None? || !Truthy(destination.value)) && |t.destpaths| == 0
    ensures r.Ok? ==> !r.value.Pending?
    ensures r.Ok? ==> (r.value.Fulfilled? <==> forall i | 0 <= i < |io| :: Succeeded(io[i]))
    ensures r.Ok? && r.value.Fulfilled? ==>
      var dests := if destination.Some? && Truthy(destination.value) then [destination.value] else t.destpaths;
      && |r.value.value| == |dests|
      && forall i | 0 <= i < |dests| :: r.value.value[i] == dests[i] + "/" + name
    ensures WritePlan(t, name, data, destination, Append).Ok? ==>
      forall s | s in WritePlan(t, name, data, destination, Append).value :: s.mode == Append
  {
    WriteFile(t, name, data, destination, Append, io)
  }

  /** The `to` argument of `copyFile`: one path, or a list of paths. */
  datatype ToSpec = ToPath(path: string) | ToPaths(paths: seq<string>)

  /** `to` ends with the wildcard: a path whose last character is `*`, or a list whose last
      element is the string `*` (for which `to.substr` throws once a destination is mapped). */
  predicate EndsWithStar(to: ToSpec) {
    match to
    case ToPath(p) => EndsWith(p, '*')
    case ToPaths(ps) => |ps| > 0 && ps[|ps| - 1] == "*"
  }

  /** `sub.replace(/^\.?\//, '')`: a leading `./` or `/` removed. */
  function StripDotSlash(sub: string): (r: string)
    ensures exists k: nat :: k <= |sub| && sub == sub[..k] + r && (k == 0 || LongestPrefixIn(sub, k, DotSlash))
    ensures SomePrefixIn(sub, DotSlash) <==> |r| < |sub|
  {
    var k := DotSlashLen(sub);
    assert sub == sub[..k] + sub[k..];
    sub[k..]
  }

  /** The directory `mkdirp` creates for a copy target: the target itself when it ends with
      `/`, otherwise its dirname. */
  function MkdirTarget(p: string): (r: string)
    ensures EndsWith(p, '/') ==> r == p
    ensures !EndsWith(p, '/') ==> r == Dirname(p)
  {
    if EndsWith(p, '/') then p else Dirname(p)
  }

  /** The copy targets of `copyFile(from, to)`. A wildcard path fans out over the vhost
      destinations: the `*` is dropped, then a leading `./` or `/`, and the rest is put
      under each destination. A list ending in `*` fans out too, but its first destination
      calls `substr` on the list and throws; with no destination nothing is called. Otherwise
      the path or list of paths is used as is. */
  function CopyTargets(t: Tasker, to: ToSpec): (r: Result<seq<string>>)
    ensures r.Err? <==> to.ToPaths? && EndsWithStar(to) && |t.destpaths| > 0
    ensures r.Ok? && to.ToPaths? && EndsWithStar(to) ==> r.value == []
    ensures r.Ok? && to.ToPath? && EndsWithStar(to) ==>
      && |r.value| == |t.destpaths|
      && forall i | 0 <= i < |t.destpaths| ::
           r.value[i] == t.destpaths[i] + "/" + StripDotSlash(to.path[..|to.path| - 1])
    ensures r.Ok? && !EndsWithStar(to) ==> r.value == (if to.ToPath? then [to.path] else to.paths)
  {
    match to
    case ToPaths(ps) =>
      if !EndsWithStar(to) then Ok(ps)
      else if |t.destpaths| == 0 then Ok([])
      else Err("TypeError: to.substr is not a function")
    case ToPath(p) =>
      if EndsWith(p, '*') then
        var sub := StripDotSlash(p[..|p| - 1]);
        Ok(seq(|t.destpaths|, i requires 0 <= i < |t.destpaths| => t.destpaths[i] + "/" + sub))
      else Ok([p])
  }

  /** One destination of a copy: create `dir`, then run `command` (`cp from target`). */
  datatype CopyStep = CopyStep(dir: string, command: string, target: string)

  /** The shell command a copy runs. */
  function CopyCommand(from: string, target: string): string {
    "cp " + from + " " + target
  }

  /** The per-destination plan of `copyFile(from, to)`. */
  function CopyPlan(t: Tasker, from: string, to: ToSpec): (r: Result<seq<CopyStep>>)
    ensures r.Err? <==> CopyTargets(t, to).Err?
    ensures r.Ok? ==>
      var targets := CopyTargets(t, to).value;
      && |r.value| == |targets|
      && forall i | 0 <= i < |targets| ::
           r.value[i] == CopyStep(MkdirTarget(targets[i]), CopyCommand(from, targets[i]), targets[i])
  {
    match CopyTargets(t, to)
    case Err(e) => Err(e)
    case Ok(targets) =>
      Ok(seq(|targets|, i requires 0 <= i < |targets| =>
        CopyStep(MkdirTarget(targets[i]), CopyCommand(from, targets[i]), targets[i])))
  }

  /** The directory created for a copy target below a directory `dir`: `dir` itself for a
      plain file name, and the target itself when it names a sub-directory (ends in `/`). */
  lemma MkdirTargetOfChild(dir: string, name: string)
    requires |dir| > 0 && dir != "/" && |name| > 0 && NoSlash(name)
    ensures MkdirTarget(dir + "/" + name) == dir
    ensures MkdirTarget(dir + "/" + name + "/") == dir + "/" + name + "/"
  {
    DirnameOfChild(dir, name);
    assert EndsWith(dir + "/" + name + "/", '/');
    assert !EndsWith(dir + "/" + name, '/') by {
      assert (dir + "/" + name)[|dir + "/" + name| - 1] == name[|name| - 1];
    }
  }

  /** Copying to one file path below a directory plans exactly one copy, to that path,
      creating the directory first. */
  lemma CopyToFile(t: Tasker, from: string, dir: string, name: string)
    requires |dir| > 0 && dir != "/" && |name| > 0 && NoSlash(name) && !EndsWith(name, '*')
    ensures CopyPlan(t, from, ToPath(dir + "/" + name))
         == Ok([CopyStep(dir, "cp " + from + " " + dir + "/" + name, dir + "/" + name)])
  {
    var p := dir + "/" + name;
    MkdirTargetOfChild(dir, name);
    assert p[|p| - 1] == name[|name| - 1];
    assert CopyTargets(t, ToPath(p)) == Ok([p]);
    var plan := CopyPlan(t, from, ToPath(p)).value;
    assert |plan| == 1 && plan[0] == CopyStep(dir, "cp " + from + " " + p, p);
    assert plan == [CopyStep(dir, "cp " + from + " " + p, p)];
    assert "cp " + from + " " + p == "cp " + from + " " + dir + "/" + name;
  }

  /** A `to` list ending in `*` throws on the first destination, and without any
      destination fulfils at once with no copy. */
  lemma StarListNeedsDestinations(t: Tasker, from: string, dir: string)
    ensures |t.destpaths| > 0 ==> CopyFile(t, from, ToPaths([dir, "*"]), []).Err?
    ensures |t.destpaths| == 0 ==> CopyFile(t, from, ToPaths([dir, "*"]), []) == Ok(Fulfilled([]))
  {
    assert EndsWithStar(ToPaths([dir, "*"]));
  }

  /** One destination's promise in `copyFile`, as written: a failed `mkdirp` is ignored and the
      promise never settles; a failed copy rejects; otherwise it fulfils with the command's output. */
  function CopySettle(io: StepIo): (r: Settle<string>)
    ensures r.Pending? <==> io.mkdir.Failed?
    ensures !io.mkdir.Failed? ==> r == CopySettleCorrected(io)
    ensures r.Fulfilled? <==> Succeeded(io)
  {
    if io.mkdir.Failed? then Pending
    else if io.op.Failed? then Rejected(io.op.error)
    else Fulfilled(io.op.output)
  }

  /** `copyFile(from, to)`, given one outcome per planned destination. */
  function CopyFile(t: Tasker, from: string, to: ToSpec, io: seq<StepIo>): (r: Result<Settle<seq<string>>>)
    requires CopyPlan(t, from, to).Ok? ==> |io| == |CopyPlan(t, from, to).value|
    ensures r.Err? <==> to.ToPaths? && EndsWithStar(to) && |t.destpaths| > 0
    ensures r.Ok? ==> (r.value.Fulfilled? <==> forall i | 0 <= i < |io| :: Succeeded(io[i]))
    ensures r.Ok? && r.value.Fulfilled? ==>
      |r.value.value| == |io| && forall i | 0 <= i < |io| :: r.value.value[i] == io[i].op.output
    ensures r.Ok? ==> (r.value.Rejected? <==> exists i | 0 <= i < |io| :: io[i].mkdir.Done? && io[i].op.Failed?)
    ensures r.Ok? ==> (r.value.Pending? <==>
      (forall i | 0 <= i < |io| :: !(io[i].mkdir.Done? && io[i].op.Failed?))
      && exists i | 0 <= i < |io| :: io[i].mkdir.Failed?)
  {
    match CopyPlan(t, from, to)
    case Err(e) => Err(e)
    case Ok(plan) =>
      var ps := seq(|io|, i requires 0 <= i < |io| => CopySettle(io[i]));
      assert forall i | 0 <= i < |io| :: ps[i].Fulfilled? <==> Succeeded(io[i]);
      assert forall i | 0 <= i < |io| :: ps[i].Rejected? <==> io[i].mkdir.Done? && io[i].op.Failed?;
      assert forall i | 0 <= i < |io| :: ps[i].Pending? <==> io[i].mkdir.Failed?;
      Ok(All(ps))
  }

  /** The wildcard targets: for a `to` of `js/` followed by the wildcard, with or without a
      leading `./`, one target per vhost destination `d`, namely `d + "/js/"`. */
  lemma WildcardTargets(t: Tasker)
    ensures CopyTargets(t, ToPath("js/*")) == CopyTargets(t, ToPath("./js/*"))
    ensures CopyTargets(t, ToPath("js/*")).Ok?
    ensures var targets := CopyTargets(t, ToPath("js/*")).value;
      |targets| == |t.destpaths| && forall i | 0 <= i < |targets| :: targets[i] == t.destpaths[i] + "/js/"
  {
    assert "js/*"[..3] == "js/";
    assert "./js/*"[..5] == "./js/";
    assert StripDotSlash("js/") == "js/";
    assert StripDotSlash("./js/") == "js/";
  }

  /** The documented wildcard copy plans one copy per vhost destination `d`, into
      `d + "/js/"`, creating that directory itself. */
  lemma CopyIntoEveryDestination(t: Tasker, from: string)
    ensures CopyPlan(t, from, ToPath("js/*")).Ok?
    ensures var plan := CopyPlan(t, from, ToPath("js/*")).value;
      && |plan| == |t.destpaths|
      && forall i | 0 <= i < |plan| ::
           plan[i].target == t.destpaths[i] + "/js/" && plan[i].dir == t.destpaths[i] + "/js/"
           && plan[i].command == "cp " + from + " " + t.destpaths[i] + "/js/"
  {
    WildcardTargets(t);
    var plan := CopyPlan(t, from, ToPath("js/*")).value;
    forall i | 0 <= i < |plan| ensures plan[i].dir == t.destpaths[i] + "/js/" {
      assert EndsWith(t.destpaths[i] + "/js/", '/');
    }
  }

  /** Writing to one explicit directory plans exactly one write, of `dir + "/" + name`,
      creating `dir` (a plain file name, a directory other than the root). */
  lemma WriteToExplicitDirectory(t: Tasker, name: string, data: string, dir: string, mode: WriteMode)
    requires |dir| > 0 && dir != "/" && |name| > 0 && NoSlash(name)
    ensures WritePlan(t, name, data, Some(dir), mode) == Ok([WriteStep(dir, dir + "/" + name, data, mode)])
  {
    DirnameOfChild(dir, name);
    assert PipeTo(t, OnePath(dir)) == Ok([dir]);
    var plan := WritePlan(t, name, data, Some(dir), mode).value;
    assert |plan| == 1 && plan[0] == WriteStep(dir, dir + "/" + name, data, mode);
    assert plan == [WriteStep(dir, dir + "/" + name, data, mode)];
  }

  /** `pipeTo` and `writeFile` choose their destinations by the same rule: with no explicit
      destination both use the vhost destinations, and both fail on the same instances. */
  lemma WriteUsesPipeDestinations(t: Tasker, name: string, data: string, destination: Option<string>, mode: WriteMode)
    ensures var o := if destination.Some? then OnePath(destination.value) else NoOverride;
      && (WritePlan(t, name, data, destination, mode).Err? <==> PipeTo(t, o).Err?)
      && (PipeTo(t, o).Ok? ==>
            && |WritePlan(t, name, data, destination, mode).value| == |PipeTo(t, o).value|
            && forall i | 0 <= i < |PipeTo(t, o).value| ::
                 WritePlan(t, name, data, destination, mode).value[i].path == PipeTo(t, o).value[i] + "/" + name)
  {
  }

  /** One destination's promise in `copyFile` as evidently intended: a failed `mkdirp`
      rejects with its error instead of leaving the promise unsettled. */
  function CopySettleCorrected(io: StepIo): Settle<string> {
    if io.mkdir.Failed? then Rejected(io.mkdir.error)
    else if io.op.Failed? then Rejected(io.op.error)
    else Fulfilled(io.op.output)
  }

  /** `copyFile` with the corrected per-destination promise: like `writeFile`, it always
      settles, fulfilling exactly when every destination succeeds and rejecting otherwise. */
  function CopyFileCorrected(t: Tasker, from: string, to: ToSpec, io: seq<StepIo>): (r: Result<Settle<seq<string>>>)
    requires CopyPlan(t, from, to).Ok? ==> |io| == |CopyPlan(t, from, to).value|
    ensures r.Err? <==> to.ToPaths? && EndsWithStar(to) && |t.destpaths| > 0
    ensures r.Ok? ==> !r.value.Pending?
    ensures r.Ok? ==> (r.value.Fulfilled? <==> forall i | 0 <= i < |io| :: Succeeded(io[i]))
    ensures r.Ok? ==> (r.value.Rejected? <==> exists i | 0 <= i < |io| :: !Succeeded(io[i]))
    ensures r.Ok? && r.value.Fulfilled? ==>
      |r.value.value| == |io| && forall i | 0 <= i < |io| :: r.value.value[i] == io[i].op.output
  {
    match CopyPlan(t, from, to)
    case Err(e) => Err(e)
    case Ok(plan) =>
      var ps := seq(|io|, i requires 0 <= i < |io| => CopySettleCorrected(io[i]));
      assert forall i | 0 <= i < |io| :: ps[i].Fulfilled? <==> Succeeded(io[i]);
      assert forall i | 0 <= i < |io| :: ps[i].Rejected? <==> !Succeeded(io[i]);
      Ok(All(ps))
  }

  /** With one destination whose directory cannot be created, the copy as written never
      settles, so a caller waiting on it waits forever; the corrected copy rejects. */
  lemma MkdirFailureLeavesCopyPending(t: Tasker, from: string)
    requires |t.destpaths| == 1
    ensures CopyFile(t, from, ToPath("js/*"), [StepIo(Failed("EACCES"), Done(""))]) == Ok(Pending)
    ensures CopyFileCorrected(t, from, ToPath("js/*"), [StepIo(Failed("EACCES"), Done(""))]) == Ok(Rejected("EACCES"))
  {
    WildcardTargets(t);
    var io := [StepIo(Failed("EACCES"), Done(""))];
    assert CopySettle(io[0]) == Pending;
    assert seq(|io|, i requires 0 <= i < |io| => CopySettle(io[i])) == [Pending];
    assert seq(|io|, i requires 0 <= i < |io| => CopySettleCorrected(io[i])) == [Rejected("EACCES")];
  }
}
