/** Watching the indexed sources, the rebuild and notification a change triggers, and the
    live step that starts the reload server and then the watch. */
module Watcher {
  import opened Outcomes
  import opened TaskerState
  import opened Globs
  import opened Registry

  /** What `watch()` does: whether it warns about a second call, the globs it subscribes
      to, and the state afterwards. */
  datatype WatchResult = WatchResult(warned: bool, subscribed: set<string>, after: Tasker)

  /** `watch()`: once watching, it only warns; otherwise it subscribes to every indexed
      glob. The flag is set by the first subscription's callback, so an empty index leaves
      it unset. */
  function Watch(t: Tasker): (r: WatchResult)
    ensures r.warned <==> t.watching
    ensures t.watching ==> r.subscribed == {} && r.after == t
    ensures !t.watching ==>
      && r.subscribed == t.srcs.Keys
      && r.after.watched == t.watched + t.srcs.Keys
      && (r.after.watching <==> |t.srcs| > 0)
      && r.after == t.(watching := r.after.watching, watched := r.after.watched)
  {
    if t.watching then WatchResult(true, {}, t)
    else WatchResult(false, t.srcs.Keys, t.(watching := |t.srcs| > 0, watched := t.watched + t.srcs.Keys))
  }

  /** A second `watch()` changes nothing more: no glob gets a second watcher. */
  lemma WatchIdempotent(t: Tasker)
    ensures Watch(Watch(t).after).after == Watch(t).after
    ensures Watch(Watch(t).after).subscribed <= Watch(t).subscribed
  {
  }

  /** `watch` keeps the Tasker invariant. */
  lemma WatchPreservesValid(t: Tasker)
    requires Valid(t)
    ensures Valid(Watch(t).after)
  {
  }

  /** The live-reload message: `{body: {files: [...]}}`. */
  datatype Notification = Notification(files: seq<string>)

  /** What one change event does: the task names it starts, whether it logs the start's
      error, and the notification it sends afterwards. */
  datatype ChangeResult = ChangeResult(started: seq<string>, errorLogged: bool, notification: Notification)

  /** A change of `filepath` reported by the watcher of `glob`: it starts the tasks indexed
      under the glob (the list as it stands now; the watcher shares it with the index), then
      notifies the changed file, whether or not the start reported an error. */
  function OnChange(t: Tasker, glob: string, filepath: string, startError: bool): (r: ChangeResult)
    requires Valid(t) && glob in t.watched
    ensures r.started == Dependents(t.srcs, glob) && |r.started| > 0
    ensures r.errorLogged == startError
    ensures r.notification.files == [filepath]
  {
    ChangeResult(t.srcs[glob], startError, Notification([filepath]))
  }

  /** A change only ever starts registered tasks of this application. */
  lemma ChangeStartsRegisteredTasks(t: Tasker, glob: string, filepath: string, startError: bool)
    requires Valid(t) && glob in t.watched
    ensures forall n | n in OnChange(t, glob, filepath, startError).started ::
      TaskName(n) in t.tasks && n in t.engine && t.app.name + "-" <= n
  {
    forall n | n in OnChange(t, glob, filepath, startError).started
      ensures TaskName(n) in t.tasks && n in t.engine && t.app.name + "-" <= n
    {
      assert TaskName(n) in t.tasks;
      var i :| 0 <= i < |t.tasks| && t.tasks[i] == TaskName(n);
      assert t.tasks[i].TaskName?;
    }
  }

  /** A simple task added while its glob is already watched is the last task a change on
      that glob starts. */
  lemma AddedTaskRunsOnChange(t: Tasker, local: string, glob: string, stages: StagesArg,
                              filepath: string, startError: bool)
    requires Valid(t) && !LastIsLiveStep(t.tasks) && stages.StagesObject?
    requires AbsoluteGlob(t.app.base, glob) in t.watched
    ensures var t' := Add(t, local, SrcString(glob), stages).tasker;
      && Valid(t')
      && AbsoluteGlob(t.app.base, glob) in t'.watched
      && var started := OnChange(t', AbsoluteGlob(t.app.base, glob), filepath, startError).started;
         started == t.srcs[AbsoluteGlob(t.app.base, glob)] + [QualifiedName(t.app, local)]
  {
    var g := AbsoluteGlob(t.app.base, glob);
    var t' := Add(t, local, SrcString(glob), stages).tasker;
    AddPreservesValid(t, local, SrcString(glob), stages);
    var globs := AbsoluteSrc(t.app.base, OneGlob(glob));
    assert globs == [g];
    assert multiset(globs)[g] == 1;
    assert Dependents(t'.srcs, g) == Dependents(t.srcs, g) + Repeat(QualifiedName(t.app, local), 1);
  }

  /** The live step, run as the engine's completion callback with its error `runError`:
      unless the run failed or tests are running, it starts the reload server on `port`;
      once that listens (`listenError` false) it calls `watch`, which only warns when a
      watch already runs, so globs indexed since then stay unwatched. */
  function FireLiveStep(t: Tasker, port: int, runError: bool, listenError: bool): (r: Tasker)
    ensures !runError && !t.config.isTesting && !listenError ==> r.reload == Listening(port)
    ensures runError || t.config.isTesting || listenError ==> r == t
    ensures !runError && !t.config.isTesting && !listenError && !t.watching ==>
      r.watched == t.watched + t.srcs.Keys && (r.watching <==> |t.srcs| > 0)
    ensures t.watching ==> r.watching && r.watched == t.watched
    ensures r == t.(reload := r.reload, watching := r.watching, watched := r.watched)
  {
    if runError || t.config.isTesting || listenError then t
    else Watch(t.(reload := Listening(port))).after
  }

  /** Under test configuration the live step never listens and never watches. */
  lemma TestingNeverListens(t: Tasker, port: int, runError: bool, listenError: bool)
    requires t.config.isTesting
    ensures FireLiveStep(t, port, runError, listenError) == t
  {
  }

  /** The live step keeps the Tasker invariant. */
  lemma FireLiveStepPreservesValid(t: Tasker, port: int, runError: bool, listenError: bool)
    requires Valid(t)
    ensures Valid(FireLiveStep(t, port, runError, listenError))
  {
    if !(runError || t.config.isTesting || listenError) {
      WatchPreservesValid(t.(reload := Listening(port)));
    }
  }
}
