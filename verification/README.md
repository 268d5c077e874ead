# Tasker: a Dafny model of the mullet-tasker orchestrator

This project models the `Tasker` build-task orchestrator of `main.js` without its I/O.
A Tasker instance belongs to one application. It derives the application's destination
directories from its virtual hosts (`destpaths`) and its shared-assets path (`sharepath`).
It registers namespaced build tasks (`add`) and indexes each simple task under the absolute
source globs it reads (`srcs`). It appends a live-reload step (`live`) and starts the task
list (`run`). On a change of a watched glob it restarts the dependent tasks and sends a
live-reload notification (`watch`). It also writes and copies files into every destination
at once (`pipeTo`, `writeFile`, `appendFile`, `copyFile`).

The instance is an immutable record (`TaskerState.Tasker`) and every operation is a pure
function from one record to the next. The outcomes of the outside world are parameters:
directory creation, file writes, `cp` runs, the engine's run error and the reload server's
bind error. File operations return the `Promise.all` of their per-destination promises,
written as a `Promises.Settle` value.

Modules:

- `Outcomes`: optional arguments and error results.
- `JsText`: JavaScript truthiness and `Array.prototype.join`. It also holds the prefixes
  that `/^\.?\/?/` and `/^\.?\//` match, and the `$`-pattern expansion that
  `String.prototype.replace` applies to its replacement string.
- `PathLib`: Node's POSIX `path.dirname`, in the backward-scan form of current Node releases.
- `Promises`: settled promise states and `Promise.all`.
- `TaskerState`: the instance record and its invariant `Valid`. Under `Valid`, task names
  carry the application prefix and live steps only trail. The index names only registered
  tasks, this instance's engine registrations match its task list, and only indexed globs
  are watched.
- `Construction`: the constructor.
- `Globs`: `absoluteSrc`.
- `Registry`: `add`, `live`, `run`.
- `FileOps`: destination choice and the file operations.
- `Watcher`: `watch`, the change event, and the live step's callback.
- `Scenarios`: the values the repository's tests expect.

Behaviour of the code worth knowing:

- `run` hands the unfiltered task list, including a trailing live step, to the build
  engine (main.js:401). The engine takes a trailing function as its completion callback.
  Only the logged list drops the live step.
- `run` is documented to take a string task group (main.js:390), but it spreads the group
  with `apply`, which throws on a string (see Findings).
- `absoluteSrc` (documented at main.js:214-217) strips an optional `.` and then an optional
  `/`, so `.x` becomes `base/x` and `../a` becomes `base/./a`. A `$&`, `$'` or `$$` in the
  base is expanded as `String.prototype.replace` does.
- `add` builds a simple task whenever its second argument is a string or any array and its
  third is an object. A dependency-name array followed by a function is therefore indexed
  as if it were globs.
- A failed directory creation in `copyFile` leaves that destination's promise unsettled
  rather than failing it (see Findings).
- `to` is documented as a string whose trailing `*` fans out over the destinations
  (main.js:411), but a list whose last element is `*` takes the same branch (main.js:416). With at least one destination `copyFile` throws, because arrays have no
  `substr`; with none it fulfils at once with no copy.
- An empty vhost list is truthy, so it yields an instance with no destination, not the factory.
- `watch` sets its flag only from a watcher callback, so with an empty index a second
  `watch` is not refused. Once watching, a later `watch` (also the one the live step makes)
  only warns, so globs indexed after the first watch stay unwatched.
- The change notification is sent whether or not the reload server listens.

## Model

| member | source | states |
|---|---|---|
| JsText.JoinThree | main.js:59 | joining three parts with `/` puts one separator between each neighbouring pair |
| JsText.OptionalDotSlashLen | main.js:223 | the prefix `/^\.?\/?/` strips is the longest prefix of the glob among "", ".", "/", "./" |
| JsText.DotSlashLen | main.js:416 | `/^\.?\//` strips the longest prefix among "/" and "./" when one exists, and nothing otherwise |
| JsText.Substitute | main.js:223 | a replacement string without `$` is inserted literally, whatever was matched and whatever follows the match |
| PathLib.Dirname | main.js:421 | the empty path gives "."; a path whose last segment has no separator before it (other than a leading one) gives "/" when rooted and "." otherwise; else the path is cut at the unique separator before its last segment, giving "//" when that leaves a doubled root |
| PathLib.DirnameOfChild | main.js:455-456 | the directory created for `dir + "/" + name` is `dir` itself, for a plain name and a non-root dir |
| Promises.All | main.js:431 | the joined promise fulfils with every value in order iff all fulfil; it rejects iff any rejects, with one of their reasons; otherwise it stays pending |
| Construction.SitePath | main.js:59 | a site directory is `root + "/public/sites/" + host` |
| Construction.SharePath | main.js:67 | the share path is `root + "/public/assets/" + app name` |
| Construction.SitePaths | main.js:57-61 | one site directory per host, in host order |
| Construction.Construct | main.js:50-72 | no truthy vhost gives the factory; otherwise destpaths has one entry per host, the share path is set, the task list, index and this instance's engine registrations are empty, and the invariant holds |
| Construction.VHostForms | main.js:57-64 | no vhost or an empty host string gives the factory; one host gives exactly one site directory; an empty host list gives an instance without destinations |
| Globs.RelativePart | main.js:223 | the glob is the longest optional-dot-then-optional-slash prefix followed by the relative part |
| Globs.AbsoluteGlob | main.js:223 | whatever the base, `replace` rewrites only the matched prefix: the glob's relative part ends the result |
| Globs.AbsoluteGlobPlain | main.js:222-224 | for a base without `$`, the absolute glob is `base + "/"` followed by the relative part |
| Globs.AbsoluteSrc | main.js:219-225 | one output per input glob; with a `$`-free base each is `base + "/"` plus the relative part |
| Globs.AbsoluteSrcOne | main.js:219-225 | for a `$`-free base, one glob becomes the one-element list of base + "/" + its relative part |
| Globs.RelativePartOfPrefixed | main.js:223 | the stripped prefix is at most one `.` then at most one `/`: `r`, `.r` (r not starting `/`), `./r` and `/r` all leave `r` |
| Globs.AbsoluteSrcPrefixes | main.js:219-225 | for a `$`-free base: a glob starting with neither `.` nor `/` goes under base + "/" unchanged; `./r` and `/r` become base/r; `.r` becomes base/r, so `../a` becomes base/./a |
| Registry.AddDependent | main.js:254-255 | the glob becomes indexed; its list, empty when missing, gains the name at its end; every other glob's list is unchanged |
| Registry.IndexGlobs | main.js:253-256 | indexing never drops a glob; the full effect on the lists is IndexGlobsContents |
| Registry.IndexGlobsContents | main.js:253-256 | after indexing, the indexed globs are the old ones plus the new ones; each glob's list is its old list plus the task name once per occurrence; a missing glob starts a new list and other lists are unchanged |
| Registry.Add | main.js:234-283 | refused iff the last entry is a live step; otherwise exactly one namespaced name is appended; the engine table is the old one with that name registered as a simple task reading the absolute globs, or as the caller's own task, and every other registration kept; the index changes only for a simple task, and then as IndexGlobsContents states; nothing else changes |
| Registry.AddPreservesValid | main.js:236-256 | add keeps the invariant: prefixed names, trailing live steps, a sound index and registrations matching the task list |
| Registry.AddAfterLiveRefused | main.js:236-238 | after `live`, every `add` is refused |
| Registry.LivePort | main.js:365 | the port is never 0: the argument when truthy, else 9999 |
| Registry.Live | main.js:363-383 | exactly one live step is appended and nothing else changes |
| Registry.LivePreservesValid | main.js:367 | live keeps the invariant |
| Registry.Run | main.js:392-402 | the logged list is the task list minus one trailing live step; the engine gets a list group as names, or the unfiltered list for a missing or empty-string group (an empty list is started as the empty list); a non-empty string group throws; the run warns iff already running, and is running afterwards |
| Registry.RunCorrected | main.js:390-402 | with a string group started as that one task, starting never throws; every other group runs exactly as written |
| Registry.NamedGroupThrows | main.js:390-402 | `run('name')` throws after setting the running flag; the corrected run starts exactly that task |
| Registry.RunAfterLiveLogsTasks | main.js:397 | a run right after `live` logs exactly the tasks registered before it |
| Registry.RunAfterTwoLivesLogsOne | main.js:397 | only one live step is dropped: after two `live` calls the log ends with the first one |
| Registry.RunLogsOnlyNames | main.js:397-398 | for a valid instance, the log holds task names only iff the entry before the last is a task name, i.e. at most one live step trails |
| FileOps.PipeTo | main.js:293-307 | an error iff there is no truthy override and no destination; a path override is wrapped, a list override is used, else destpaths |
| FileOps.WritePlan | main.js:445-456 | an error iff there is no truthy destination and no destpaths; otherwise one step per chosen destination, writing `dest + "/" + name` after creating its dirname |
| FileOps.WriteSettle | main.js:454-462 | one destination's write never stays pending; it fulfils with its path iff both steps succeed, and fails exactly as the corrected copy does |
| FileOps.WriteFile | main.js:445-467 | an error iff there is no destination; otherwise the result always settles; it fulfils with the written paths in destination order iff every destination succeeds |
| FileOps.AppendFile | main.js:474-476 | chooses and settles as a write does, fulfils with `dest + "/" + name` in destination order, and every planned step appends |
| FileOps.WriteUsesPipeDestinations | main.js:447-450 | writeFile and pipeTo fail on the same instances and write under the same destinations |
| FileOps.WriteToExplicitDirectory | main.js:450-456 | one explicit directory gives exactly one step, writing `dir + "/" + name` and creating `dir` |
| FileOps.StripDotSlash | main.js:416 | the result is the sub-path minus a `/` or `./` prefix, and it is shorter iff such a prefix exists |
| FileOps.MkdirTargetOfChild | main.js:421 | for a target below a directory `dir`, a plain file name makes `dir` the created directory, and a name ending in `/` creates the target itself |
| FileOps.CopyTargets | main.js:416 | a wildcard path gives one target per destination, `d + "/"` plus the stripped sub-path; a list ending in `*` throws iff there is a destination and gives no target otherwise; any other path or list is used as is |
| FileOps.CopyToFile | main.js:416-423 | copying to `dir + "/" + name` plans exactly one copy, `cp from dir/name`, after creating `dir` |
| FileOps.StarListNeedsDestinations | main.js:416 | a `to` list ending in `*` throws with at least one destination and fulfils with no copy without one |
| FileOps.CopySettle | main.js:419-428 | one destination's copy stays pending iff its directory creation fails; otherwise it settles as the corrected copy does, fulfilling iff both steps succeed |
| FileOps.CopyFile | main.js:414-432 | an error iff `to` is a list ending in `*` and there is a destination; otherwise it fulfils with the outputs iff every destination succeeds, rejects iff some copy fails after its directory exists, and is pending iff no copy fails and some directory creation fails |
| FileOps.WildcardTargets | main.js:411-416 | `js/*` and `./js/*` both target `d + "/js/"` for each destination `d` |
| FileOps.CopyIntoEveryDestination | main.js:416-421 | `js/*` plans exactly one copy per destination, into `d + "/js/"`, creating that directory |
| FileOps.MkdirFailureLeavesCopyPending | main.js:421-427 | one destination whose directory creation fails leaves the copy pending; the corrected copy rejects |
| FileOps.CopyFileCorrected | main.js:419-428 | with a failed directory creation treated as a failure, and the same error condition as the copy as written, the copy always settles; it fulfils iff every destination succeeds and rejects otherwise |
| Watcher.Watch | main.js:326-353 | a second watch only warns; a first one subscribes to every indexed glob and sets the flag iff the index is non-empty |
| Watcher.WatchIdempotent | main.js:330-331 | watching twice leaves the state as watching once, and subscribes nothing new |
| Watcher.WatchPreservesValid | main.js:334-336 | watch keeps the invariant |
| Watcher.OnChange | main.js:337-348 | a change on a watched glob starts exactly its indexed tasks, a non-empty list; it logs the start's error and notifies `[filepath]` in every case |
| Watcher.ChangeStartsRegisteredTasks | main.js:341 | every task a change starts is a registered, prefixed task of this application |
| Watcher.AddedTaskRunsOnChange | main.js:334-348 | a simple task added while its glob is watched becomes the last task a change on that glob starts |
| Watcher.FireLiveStep | main.js:367-379 | without a run error, test mode or a bind error, the server listens on the port and a first watch subscribes to the index, while an instance already watching keeps its watched globs; otherwise nothing changes; only the server and the watch fields ever change |
| Watcher.TestingNeverListens | main.js:370 | in test mode the live step changes nothing |
| Watcher.FireLiveStepPreservesValid | main.js:367-379 | the live step keeps the invariant |
| Scenarios.SetupPaths | spec/tasker.spec.js:26-31 | for `localhost` under `/path/to/app`, there is one site directory and the share path of `myapp` |
| Scenarios.CssGlobAbsolute | spec/tasker.spec.js:50-51 | the test's `client/**/*.css` glob lands under the application base unchanged |
| Scenarios.ScriptGlobAbsolute | spec/tasker.spec.js:53-54 | the test's `./*.js` glob lands under the application base without its `./` |
| Scenarios.AddClientTask | spec/tasker.spec.js:58-69 | adding `clientTask` gives one task `myapp-clientTask`, one index entry for the absolute glob, and one engine task |
| Scenarios.WriteTestFile | spec/tasker.spec.js:33-46 | writing `testfile` into any non-empty directory fulfils with `dir + "/testfile"` |

## Left out

- `compileLocal` and `compile` (main.js:86-209): they configure and run webpack and `require` a config file, all foreign calls.
- Building a simple task's gulp stream (main.js:258-277): `gulp.src`, the stage factories, `Combine` and the error handler. The engine table only records that a name is a simple task and which globs it reads.
- `dest` (main.js:317-319) is a bare `gulp.dest` proxy. The writers `pipeTo` builds are modelled by their directories.
- The file system, `mkdirp`, `exec('cp …')`, gaze and tiny-lr. Their outcomes are parameters, and a change event is a call of `Watcher.OnChange`.
- How the build engine runs a task list, and when it calls the trailing live step. `Watcher.FireLiveStep` is what happens once it does.
- Delivery of a notification to browser clients. The model produces the message only.
- The asynchronous setting of the `watching` flag inside the watcher callback. `Watcher.Watch` sets it at once, which also leaves out interleaved `watch` calls.
- TaskerState.Valid: `engine` holds only the registrations this instance made. The build engine's task table is one process-wide object (main.js:17, main.js:76), shared by every instance, including those the factory builds, and by direct `gulp.task` calls. So the real table can hold other applications' names and is not empty when an instance is built. The `app.name + "-"` prefix (main.js:241) keeps instances apart unless two applications share a name.
- Registry.Add: the build engine's own checks on a registration are not modelled. For example, gulp 3 throws when a dependency argument is not an array, so `add('x', 'a.js')` without a stage object throws inside `gulp.task.apply` (main.js:280), after the name was pushed (main.js:243).
- PathLib.Dirname: older Node releases computed `dirname` with a `splitPath` regular expression and return `/` for `//a`, where the modelled algorithm returns `//`.
- Console logging. Warnings are booleans or `Err` results.
- Promises.All: when several destinations reject, the real reason is the one that rejects first in time. The model keeps the first in destination order, and its contract only promises one of the rejecting destinations' reasons.
- WriteFile: a list as `destination` is not modelled; the destination is one string. The code wraps a list into a one-element list (main.js:450), so `['a', 'b']` writes under the directory `a,b`. AppendFile inherits this.
- Argument values other than strings and lists (numbers, `null`, objects) for vhost, globs, destinations and `to` are not modelled.
- Keys inherited by a plain JavaScript object (`constructor`, `__proto__`) are not modelled. The index is a plain map.
- Construction.Construct: applying the returned factory is not modelled separately. It is `Construct` on the other application.
- Watcher.OnChange: it requires the glob to be watched, because only a subscribed watcher reports changes.

## Findings

| source | as written | input that shows it | evidently intended | confidence | as-written member | corrected member |
|---|---|---|---|---|---|---|
| main.js:421-427 | `if(!err) exec(...)` has no `else`, so a failed `mkdirp` neither resolves nor rejects that destination's promise, and the copy never settles | one destination whose directory creation fails with `EACCES`, copying to `js/*` | reject with the `mkdirp` error, as `writeFile` does at main.js:457 | high; not executed | FileOps.MkdirFailureLeavesCopyPending | FileOps.CopyFileCorrected |
| main.js:390-402 | `taskGroup` is documented as a String, but `gulp.start.apply(gulp, taskGroup \|\| this.tasks)` spreads it with `apply`, which throws a `TypeError` on a string | `run('build')` | start the named task, as `gulp.start('build')` would | high; not executed | Registry.NamedGroupThrows | Registry.RunCorrected |
