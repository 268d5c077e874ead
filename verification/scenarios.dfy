/** The concrete values the repository's own tests expect, for the application `myapp`
    with root `/path/to/app` and the single vhost `localhost`. */
module Scenarios {
  import opened Outcomes
  import opened JsText
  import opened TaskerState
  import opened Construction
  import opened Globs
  import opened Registry
  import opened FileOps
  import opened Promises

  const Root := "/path/to/app"
  const AppBase := "/path/to/app/apps/myapp"
  const MyApp := App("myapp", AppBase, Host("localhost"))
  const TestConfig := Config(Root, false)

  /** The test application has no `$` in its base. */
  lemma AppBaseIsLiteral()
    ensures NoDollar(AppBase)
  {
    assert AppBase == ['/', 'p', 'a', 't', 'h', '/', 't', 'o', '/', 'a', 'p', 'p', '/', 'a', 'p', 'p', 's', '/', 'm', 'y', 'a', 'p', 'p'];
  }

  /** Destination and share paths of the test application. */
  lemma SetupPaths()
    ensures Construct(TestConfig, MyApp).Instance?
    ensures Construct(TestConfig, MyApp).tasker.destpaths == [Root + "/public/sites/localhost"]
    ensures Construct(TestConfig, MyApp).tasker.sharepath == Root + "/public/assets/myapp"
  {
    var t := Construct(TestConfig, MyApp).tasker;
    assert HostList(MyApp.vhost) == ["localhost"];
    assert |t.destpaths| == 1 && t.destpaths[0] == Root + "/public/sites/localhost";
  }

  /** Relative globs of the test application become absolute: a plain one keeps its path. */
  lemma CssGlobAbsolute()
    ensures AbsoluteSrc(AppBase, OneGlob("client/**/*.css")) == [AppBase + "/" + "client/**/*.css"]
  {
    AppBaseIsLiteral();
    AbsoluteSrcPrefixes(AppBase, "client/**/*.css");
  }

  /** Relative globs of the test application become absolute: a `./` prefix is dropped. */
  lemma ScriptGlobAbsolute()
    ensures AbsoluteSrc(AppBase, OneGlob("./*.js")) == [AppBase + "/" + "*.js"]
  {
    AppBaseIsLiteral();
    ScriptGlobSpelling();
    AbsoluteSrcPrefixes(AppBase, "*.js");
  }

  /** The test's script glob is `./` followed by `*.js`. */
  lemma ScriptGlobSpelling()
    ensures "./*.js" == "./" + "*.js"
  {
  }

  /** The test's `.less` glob made absolute. */
  lemma ClientLessGlob()
    ensures AbsoluteSrc(AppBase, OneGlob("client/**/*.less")) == [AppBase + "/" + "client/**/*.less"]
  {
    AppBaseIsLiteral();
    AbsoluteSrcPrefixes(AppBase, "client/**/*.less");
  }

  /** The instance the tests construct, before any task is added. */
  const Initial := Tasker(TestConfig, MyApp, [Root + "/public/sites/localhost"], Root + "/public/assets/myapp",
                          [], map[], map[], false, {}, false, NotListening)

  /** Constructing for the test application yields exactly that instance. */
  lemma ConstructInitial()
    ensures Construct(TestConfig, MyApp) == Instance(Initial)
  {
    SetupPaths();
  }

  /** The namespaced name of the test task. */
  lemma ClientTaskName()
    ensures QualifiedName(MyApp, "clientTask") == "myapp-clientTask"
  {
  }

  /** Adding `clientTask` with one glob and a stage to a new instance registers one
      namespaced task, indexed under the absolute glob, and one engine task. */
  lemma AddClientTask()
    ensures var r := Add(Initial, "clientTask", SrcString("client/**/*.less"), StagesObject);
      && r.Chained?
      && r.tasker.tasks == [TaskName("myapp-clientTask")]
      && r.tasker.srcs == map[AppBase + "/" + "client/**/*.less" := ["myapp-clientTask"]]
      && r.tasker.engine.Keys == {"myapp-clientTask"}
  {
    var g := AppBase + "/" + "client/**/*.less";
    ClientLessGlob();
    ClientTaskName();
    var t := AddSimpleTask(Initial, "myapp-clientTask", [g]);
    assert Add(Initial, "clientTask", SrcString("client/**/*.less"), StagesObject) == Chained(t);
    assert multiset([g])[g] == 1;
    assert Repeat("myapp-clientTask", 1) == ["myapp-clientTask"];
    assert Dependents(t.srcs, g) == ["myapp-clientTask"];
    assert t.srcs.Keys == {g};
  }

  /** Writing `testfile` into an explicit directory fulfils with its path once the
      directory and the write succeed. */
  lemma WriteTestFile(dir: string)
    requires |dir| > 0
    ensures WriteFile(Initial, "testfile", "this is my test file", Some(dir), Overwrite, [StepIo(Done(""), Done(""))])
        == Ok(Fulfilled([dir + "/testfile"]))
  {
    var io := [StepIo(Done(""), Done(""))];
    var r := WriteFile(Initial, "testfile", "this is my test file", Some(dir), Overwrite, io);
    assert Succeeded(io[0]);
    assert r.Ok? && r.value.Fulfilled?;
    assert |r.value.value| == 1 && r.value.value[0] == dir + "/testfile";
    assert r.value.value == [dir + "/testfile"];
  }
}
