/** The benchmark engine: construction validates the configuration, `bind`
    opens a scope holding the cloud endpoints, and `run` drives the scenario
    runner over every invocation in configuration order, reporting progress to
    the task as a sequence of status updates and result appends. */
module Engine {
  import opened Wrappers
  import opened BenchmarkConfig

  /** The task states the engine reports. */
  datatype TaskStatus = Init | Benchmarking | Finished | Failed

  /** The key under which one invocation's results are appended:
      its scenario name, its index in that scenario's list, and the
      invocation itself. */
  datatype Descriptor = Descriptor(name: string, pos: nat, kw: Invocation)

  /** One timed iteration of a scenario, with the error it raised, if any. */
  datatype IterationResult = IterationResult(elapsed: int, error: Option<ExcInfo>, output: Value)

  /** The aggregated report of one invocation; `raw` is the runner's output. */
  datatype Report = Report(raw: seq<IterationResult>)

  /** A call the engine makes on the task. */
  datatype Event = UpdateStatus(status: TaskStatus) | AppendResults(key: Descriptor, report: Report)

  /** The scenario runner, abstracted to what it does for one descriptor: it
      returns the iteration results, or raises a fatal error. */
  type Runner = Descriptor -> Outcome<seq<IterationResult>>

  /** The endpoint credentials of one cloud section. */
  type Endpoint = map<string, string>

  /** The cloud configuration: section name to its settings. */
  type CloudConfig = map<string, Endpoint>

  const Identity: string := "identity"

  /** A constructed engine; `endpoints` is present exactly inside a bind
      scope. */
  datatype TestEngine = TestEngine(config: Config, endpoints: Option<Endpoint>)

  /** One appended result. */
  datatype Entry = Entry(key: Descriptor, report: Report)

  /** Why `bind` raised: the cloud configuration lacks a section. */
  datatype BindError = MissingSection(section: string)

  /** Why a run, or the bind scope around it, raised. */
  datatype RunError = NotBound | RunnerFailed(exc: ExcInfo) | BindFailed(cause: BindError)

  /** What one `run` call leaves behind: the calls it made on the task, and
      either the appended results or the error it raised. */
  datatype RunOutcome = RunOutcome(trace: seq<Event>, result: Result<seq<Entry>, RunError>)

  /** The progress of the loop over descriptors: the results appended so far
      and the fatal error that stopped it, if any. */
  datatype Progress = Progress(entries: seq<Entry>, failure: Option<ExcInfo>)

  /** Engine construction: validate the whole configuration before anything
      else happens. */
  function NewEngine(config: Config): (r: Result<TestEngine, InvalidConfig>)
    ensures r.Success? <==> ValidConfig(config)
    ensures r.Success? ==> r.value.config == config && r.value.endpoints.None?
    ensures r.Failure? ==> ReportsFirstDefect(config, r.error)
  {
    match Validate(config)
    case Success(_) => Success(TestEngine(config, None))
    case Failure(e) => Failure(e)
  }

  /** Entering the bind scope: expose the identity section as the endpoints. */
  function Bind(e: TestEngine, cloud: CloudConfig): (r: Result<TestEngine, BindError>)
    ensures r.Success? <==> Identity in cloud
    ensures r.Success? ==> r.value.endpoints == Some(cloud[Identity]) && r.value.config == e.config
    ensures r.Failure? ==> r.error == MissingSection(Identity)
  {
    if Identity in cloud then Success(e.(endpoints := Some(cloud[Identity])))
    else Failure(MissingSection(Identity))
  }

  /** Leaving the bind scope: drop the endpoints. */
  function Release(e: TestEngine): (r: TestEngine)
    ensures r.endpoints.None? && r.config == e.config
  {
    e.(endpoints := None)
  }

  /** The descriptors of one scenario: its name, each position, and the
      invocation at that position. */
  function ScenarioDescriptors(s: Scenario): seq<Descriptor> {
    seq(|s.invocations|, i requires 0 <= i < |s.invocations| => Descriptor(s.name, i, s.invocations[i]))
  }

  /** Every descriptor of the configuration, scenario by scenario. */
  function Descriptors(cfg: Config): seq<Descriptor> {
    if |cfg| == 0 then [] else ScenarioDescriptors(cfg[0]) + Descriptors(cfg[1..])
  }

  /** The result aggregator: the report carries the runner's output as is. */
  function Aggregate(raw: seq<IterationResult>): Report {
    Report(raw)
  }

  /** The loop of `run` over descriptors: invoke the runner on each in turn,
      append its report, and stop at the first fatal error. */
  function RunAll(ds: seq<Descriptor>, runner: Runner): (p: Progress)
    ensures |p.entries| <= |ds|
    ensures forall i :: 0 <= i < |p.entries| ==>
              runner(ds[i]).Returned? && p.entries[i] == Entry(ds[i], Report(runner(ds[i]).value))
    ensures p.failure.None? ==> |p.entries| == |ds|
    ensures p.failure.Some? ==> |p.entries| < |ds| && runner(ds[|p.entries|]) == Raised(p.failure.value)
  {
    if |ds| == 0 then Progress([], None)
    else match runner(ds[0])
      case Raised(exc) => Progress([], Some(exc))
      case Returned(raw) =>
        var rest := RunAll(ds[1..], runner);
        Progress([Entry(ds[0], Aggregate(raw))] + rest.entries, rest.failure)
  }

  /** The task calls that report a list of appended results. */
  function Appends(entries: seq<Entry>): (r: seq<Event>)
    ensures |r| == |entries|
    ensures forall i :: 0 <= i < |r| ==> r[i] == AppendResults(entries[i].key, entries[i].report)
  {
    if |entries| == 0 then [] else [AppendResults(entries[0].key, entries[0].report)] + Appends(entries[1..])
  }

  /** `run`: outside a bind scope it raises at once; inside, it reports
      BENCHMARKING, appends each invocation's report in order, and ends with
      FINISHED, or with FAILED followed by the runner's error. */
  function Run(e: TestEngine, runner: Runner): (r: RunOutcome)
    ensures e.endpoints.None? ==> r == RunOutcome([], Failure(NotBound))
    ensures e.endpoints.Some? ==>
              && |r.trace| >= 2
              && r.trace[0] == UpdateStatus(Benchmarking)
              && r.trace[|r.trace| - 1] == UpdateStatus(if r.result.Success? then Finished else Failed)
  {
    if e.endpoints.None? then RunOutcome([], Failure(NotBound))
    else
      var p := RunAll(Descriptors(e.config), runner);
      match p.failure
      case None =>
        RunOutcome([UpdateStatus(Benchmarking)] + Appends(p.entries) + [UpdateStatus(Finished)], Success(p.entries))
      case Some(exc) =>
        RunOutcome([UpdateStatus(Benchmarking)] + Appends(p.entries) + [UpdateStatus(Failed)], Failure(RunnerFailed(exc)))
  }

  /** The `with engine.bind(cloud): engine.run()` block: bind, run, and
      release the binding on every exit path. */
  function Session(e: TestEngine, cloud: CloudConfig, runner: Runner): (r: (RunOutcome, TestEngine))
    ensures r.1 == Release(e)
    ensures Identity !in cloud ==> r.0.trace == []
    ensures Identity in cloud ==>
              && r.0.trace == ExpectedTrace(Descriptors(e.config), runner)
              && (r.0.result.Success? <==> FirstFatal(Descriptors(e.config), runner) == |Descriptors(e.config)|)
    ensures Identity !in cloud ==> r.0.result == Failure(BindFailed(MissingSection(Identity)))
    ensures Identity in cloud ==> r.0 == Run(Bind(e, cloud).value, runner)
    ensures var ds, k := Descriptors(e.config), FirstFatal(Descriptors(e.config), runner);
            Identity in cloud && k < |ds| ==> r.0.result == Failure(RunnerFailed(runner(ds[k]).exc))
  {
    match Bind(e, cloud)
    case Failure(err) => (RunOutcome([], Failure(BindFailed(err))), Release(e))
    case Success(bound) =>
      RunMatchesExpected(bound, runner);
      var ds := Descriptors(e.config);
      var k := FirstFatal(ds, runner);
      if k < |ds| then
        RunFails(bound, runner, k);
        (Run(bound, runner), Release(bound))
      else
        (Run(bound, runner), Release(bound))
  }

  // ----- An independent reference for the trace -----

  /** The index of the first descriptor the runner fails on, or `|ds|`. */
  function FirstFatal(ds: seq<Descriptor>, runner: Runner): (k: nat)
    ensures k <= |ds|
    ensures forall i :: 0 <= i < k ==> runner(ds[i]).Returned?
    ensures k < |ds| ==> runner(ds[k]).Raised?
  {
    if |ds| == 0 || runner(ds[0]).Raised? then 0 else 1 + FirstFatal(ds[1..], runner)
  }

  /** The trace `run` must produce, written directly from the runner's
      outcomes: BENCHMARKING, one append per descriptor before the first
      fatal one, then FINISHED if there was none and FAILED otherwise. */
  function ExpectedTrace(ds: seq<Descriptor>, runner: Runner): seq<Event> {
    var k := FirstFatal(ds, runner);
    [UpdateStatus(Benchmarking)]
    + seq(k, i requires 0 <= i < k => AppendResults(ds[i], Report(runner(ds[i]).value)))
    + [UpdateStatus(if k == |ds| then Finished else Failed)]
  }

  /** The loop stops exactly at the first fatal descriptor. */
  lemma {:induction false} RunAllStopsAtFirstFatal(ds: seq<Descriptor>, runner: Runner)
    ensures |RunAll(ds, runner).entries| == FirstFatal(ds, runner)
    ensures RunAll(ds, runner).failure.Some? <==> FirstFatal(ds, runner) < |ds|
  {
    if |ds| > 0 && runner(ds[0]).Returned? {
      RunAllStopsAtFirstFatal(ds[1..], runner);
    }
  }

  /** Inside a bind scope, `run` produces exactly the reference trace, and
      raises exactly when some descriptor's runner call is fatal. */
  lemma RunMatchesExpected(e: TestEngine, runner: Runner)
    requires e.endpoints.Some?
    ensures Run(e, runner).trace == ExpectedTrace(Descriptors(e.config), runner)
    ensures Run(e, runner).result.Success? <==> FirstFatal(Descriptors(e.config), runner) == |Descriptors(e.config)|
  {
    var ds := Descriptors(e.config);
    var p := RunAll(ds, runner);
    RunAllStopsAtFirstFatal(ds, runner);
    var k := FirstFatal(ds, runner);
    assert Appends(p.entries) == seq(k, i requires 0 <= i < k => AppendResults(ds[i], Report(runner(ds[i]).value)));
  }

  /** When the runner succeeds on every descriptor, the trace is
      BENCHMARKING, one append per descriptor in configuration order, then
      FINISHED, and `run` returns those results. */
  lemma RunSucceeds(e: TestEngine, runner: Runner)
    requires e.endpoints.Some?
    requires forall d :: d in Descriptors(e.config) ==> runner(d).Returned?
    ensures var ds := Descriptors(e.config);
            && Run(e, runner).trace ==
               [UpdateStatus(Benchmarking)]
               + seq(|ds|, i requires 0 <= i < |ds| => AppendResults(ds[i], Report(runner(ds[i]).value)))
               + [UpdateStatus(Finished)]
            && Run(e, runner).result ==
               Success(seq(|ds|, i requires 0 <= i < |ds| => Entry(ds[i], Report(runner(ds[i]).value))))
  {
    var ds := Descriptors(e.config);
    RunMatchesExpected(e, runner);
    RunAllStopsAtFirstFatal(ds, runner);
    assert RunAll(ds, runner).entries == seq(|ds|, i requires 0 <= i < |ds| => Entry(ds[i], Report(runner(ds[i]).value)));
  }

  /** When the runner raises on descriptor `k` after succeeding on all
      before it, the trace is BENCHMARKING, the appends of the first `k`
      descriptors, then FAILED: nothing is appended for descriptor `k` or
      any after it, and the runner's error is raised. */
  lemma RunFails(e: TestEngine, runner: Runner, k: nat)
    requires e.endpoints.Some?
    requires k < |Descriptors(e.config)|
    requires forall i :: 0 <= i < k ==> runner(Descriptors(e.config)[i]).Returned?
    requires runner(Descriptors(e.config)[k]).Raised?
    ensures var ds := Descriptors(e.config);
            && Run(e, runner).trace ==
               [UpdateStatus(Benchmarking)]
               + seq(k, i requires 0 <= i < k => AppendResults(ds[i], Report(runner(ds[i]).value)))
               + [UpdateStatus(Failed)]
            && Run(e, runner).result == Failure(RunnerFailed(runner(ds[k]).exc))
  {
    var ds := Descriptors(e.config);
    RunMatchesExpected(e, runner);
    FirstFatalIsFirst(ds, runner, k);
    RunAllStopsAtFirstFatal(ds, runner);
  }

  /** `FirstFatal` is the least failing index. */
  lemma {:induction false} FirstFatalIsFirst(ds: seq<Descriptor>, runner: Runner, k: nat)
    requires k < |ds|
    requires forall i :: 0 <= i < k ==> runner(ds[i]).Returned?
    requires runner(ds[k]).Raised?
    ensures FirstFatal(ds, runner) == k
  {
    if k > 0 {
      FirstFatalIsFirst(ds[1..], runner, k - 1);
    }
  }

  /** The statuses a trace reports, in order. */
  function Statuses(trace: seq<Event>): seq<TaskStatus> {
    if |trace| == 0 then []
    else (if trace[0].UpdateStatus? then [trace[0].status] else []) + Statuses(trace[1..])
  }

  lemma {:induction false} AppendsHaveNoStatus(entries: seq<Entry>)
    ensures Statuses(Appends(entries)) == []
  {
    if |entries| > 0 {
      assert Appends(entries)[1..] == Appends(entries[1..]);
      AppendsHaveNoStatus(entries[1..]);
    }
  }

  lemma {:induction false} StatusesConcat(a: seq<Event>, b: seq<Event>)
    ensures Statuses(a + b) == Statuses(a) + Statuses(b)
  {
    if |a| > 0 {
      assert (a + b)[1..] == a[1..] + b;
      StatusesConcat(a[1..], b);
    } else {
      assert a + b == b;
    }
  }

  /** Inside a bind scope the task visits BENCHMARKING once and then exactly
      one terminal status: FINISHED when `run` returns, FAILED when it
      raises. */
  lemma StatusPath(e: TestEngine, runner: Runner)
    requires e.endpoints.Some?
    ensures Statuses(Run(e, runner).trace) ==
            [Benchmarking, if Run(e, runner).result.Success? then Finished else Failed]
  {
    var p := RunAll(Descriptors(e.config), runner);
    var last := UpdateStatus(if p.failure.None? then Finished else Failed);
    StatusesConcat([UpdateStatus(Benchmarking)] + Appends(p.entries), [last]);
    StatusesConcat([UpdateStatus(Benchmarking)], Appends(p.entries));
    AppendsHaveNoStatus(p.entries);
  }

  /** No result is appended after the FAILED status, which is always the
      final call. */
  lemma NoAppendAfterFailure(e: TestEngine, runner: Runner, i: nat)
    requires i < |Run(e, runner).trace|
    requires Run(e, runner).trace[i] == UpdateStatus(Failed)
    ensures i == |Run(e, runner).trace| - 1
    ensures Run(e, runner).result.Failure?
    ensures forall j :: i < j < |Run(e, runner).trace| ==> !Run(e, runner).trace[j].AppendResults?
  {
    var p := RunAll(Descriptors(e.config), runner);
    assert e.endpoints.Some?;
  }

  // ----- The task record the trace is applied to -----

  /** The external task: its status and the results appended so far. */
  datatype Task = Task(status: TaskStatus, results: seq<Entry>)

  function Apply(t: Task, ev: Event): Task {
    match ev
    case UpdateStatus(s) => t.(status := s)
    case AppendResults(k, r) => t.(results := t.results + [Entry(k, r)])
  }

  function Replay(t: Task, trace: seq<Event>): Task
    decreases |trace|
  {
    if |trace| == 0 then t else Replay(Apply(t, trace[0]), trace[1..])
  }

  lemma {:induction false} ReplayAppends(t: Task, entries: seq<Entry>)
    ensures Replay(t, Appends(entries)) == t.(results := t.results + entries)
    decreases |entries|
  {
    if |entries| > 0 {
      assert Appends(entries)[1..] == Appends(entries[1..]);
      ReplayAppends(Apply(t, Appends(entries)[0]), entries[1..]);
      assert t.results + [entries[0]] + entries[1..] == t.results + entries;
    }
  }

  lemma {:induction false} ReplayConcat(t: Task, a: seq<Event>, b: seq<Event>)
    ensures Replay(t, a + b) == Replay(Replay(t, a), b)
    decreases |a|
  {
    if |a| > 0 {
      assert (a + b)[1..] == a[1..] + b;
      ReplayConcat(Apply(t, a[0]), a[1..], b);
    } else {
      assert a + b == b;
    }
  }

  /** Replaying a run on a fresh task leaves it FINISHED holding every
      result when `run` returns, and FAILED holding exactly the results
      appended before the fatal error when it raises. */
  lemma ReplayRun(e: TestEngine, runner: Runner)
    requires e.endpoints.Some?
    ensures var t := Replay(Task(Init, []), Run(e, runner).trace);
            && (Run(e, runner).result.Success? ==>
                  t == Task(Finished, Run(e, runner).result.value))
            && (Run(e, runner).result.Failure? ==>
                  t.status == Failed
                  && t.results == RunAll(Descriptors(e.config), runner).entries)
  {
    var p := RunAll(Descriptors(e.config), runner);
    var last := UpdateStatus(if p.failure.None? then Finished else Failed);
    var t0 := Task(Init, []);
    ReplayConcat(t0, [UpdateStatus(Benchmarking)] + Appends(p.entries), [last]);
    ReplayConcat(t0, [UpdateStatus(Benchmarking)], Appends(p.entries));
    ReplayAppends(Task(Benchmarking, []), p.entries);
    assert Replay(t0, [UpdateStatus(Benchmarking)]) == Task(Benchmarking, []);
    assert Replay(Task(Benchmarking, p.entries), [last]) == Task(last.status, p.entries);
  }

  /** The bind scope releases the endpoints whatever `run` did. */
  lemma SessionReleases(e: TestEngine, cloud: CloudConfig, runner: Runner)
    ensures Session(e, cloud, runner).1.endpoints.None?
    ensures Session(e, cloud, runner).1.config == e.config
  {
  }

  /** Inside the bind scope `run` sees exactly the identity section of the
      cloud configuration, and binding then releasing restores the engine. */
  lemma BindRelease(e: TestEngine, cloud: CloudConfig)
    requires e.endpoints.None?
    requires Identity in cloud
    ensures Bind(e, cloud).value.endpoints.value == cloud[Identity]
    ensures Release(Bind(e, cloud).value) == e
  {
  }

  /** Each descriptor names a scenario of the configuration, its position in
      that scenario's list, and the invocation at that position. */
  lemma {:induction false} DescriptorsLocate(cfg: Config, d: Descriptor)
    requires d in Descriptors(cfg)
    ensures exists i :: 0 <= i < |cfg| && cfg[i].name == d.name && d.pos < |cfg[i].invocations| && cfg[i].invocations[d.pos] == d.kw
  {
    if d in ScenarioDescriptors(cfg[0]) {
      var j :| 0 <= j < |ScenarioDescriptors(cfg[0])| && ScenarioDescriptors(cfg[0])[j] == d;
      assert cfg[0].invocations[d.pos] == d.kw;
    } else {
      DescriptorsLocate(cfg[1..], d);
      var i :| 0 <= i < |cfg[1..]| && cfg[1..][i].name == d.name && d.pos < |cfg[1..][i].invocations| && cfg[1..][i].invocations[d.pos] == d.kw;
      assert cfg[i + 1] == cfg[1..][i];
    }
  }
  /** The number of invocations in the configuration. */
  function InvocationCount(cfg: Config): nat {
    if |cfg| == 0 then 0 else |cfg[0].invocations| + InvocationCount(cfg[1..])
  }

  /** There is one descriptor per invocation. */
  lemma {:induction false} DescriptorsCount(cfg: Config)
    ensures |Descriptors(cfg)| == InvocationCount(cfg)
  {
    if |cfg| > 0 {
      DescriptorsCount(cfg[1..]);
    }
  }

  /** Invocation `j` of scenario `i` has its descriptor right after those
      of every invocation of the scenarios before `i` and of the `j` before
      it in its own scenario: descriptors follow configuration order. */
  lemma {:induction false} DescriptorsAt(cfg: Config, i: nat, j: nat)
    requires i < |cfg| && j < |cfg[i].invocations|
    ensures InvocationCount(cfg[..i]) + j < |Descriptors(cfg)|
    ensures Descriptors(cfg)[InvocationCount(cfg[..i]) + j] == Descriptor(cfg[i].name, j, cfg[i].invocations[j])
  {
    DescriptorsCount(cfg);
    var first := ScenarioDescriptors(cfg[0]);
    if i == 0 {
      assert InvocationCount(cfg[..0]) == 0;
      assert Descriptors(cfg)[j] == first[j];
    } else {
      DescriptorsAt(cfg[1..], i - 1, j);
      assert cfg[1..][i - 1] == cfg[i];
      assert cfg[..i][1..] == cfg[1..][..i - 1];
      assert InvocationCount(cfg[..i]) == |first| + InvocationCount(cfg[1..][..i - 1]);
      var k := InvocationCount(cfg[1..][..i - 1]) + j;
      assert Descriptors(cfg)[|first| + k] == Descriptors(cfg[1..])[k];
    }
  }

  /** Every invocation of the configuration has a descriptor. */
  lemma DescriptorsCover(cfg: Config, i: nat, j: nat)
    requires i < |cfg| && j < |cfg[i].invocations|
    ensures Descriptor(cfg[i].name, j, cfg[i].invocations[j]) in Descriptors(cfg)
  {
    DescriptorsAt(cfg, i, j);
  }
}
