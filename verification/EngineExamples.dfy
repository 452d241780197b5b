/** The engine's test fixtures as values, and the outcomes the engine test
    case fixes for them. */
module EngineExamples {
  import opened Wrappers
  import opened BenchmarkConfig
  import opened Engine

  const ScenarioName: string := "NovaServers.boot_and_delete_server"
  const Args: map<string, Value> := map["flavor_id" := Int(1), "image_id" := Str("img")]

  function OneInvocation(execution: string, config: map<string, int>): Config {
    [Scenario(ScenarioName, [Invocation(Args, execution, config)])]
  }

  const ValidTimesInvocation: Invocation :=
    Invocation(Args, "continuous", map["times" := 10, "active_users" := 2, "tenants" := 3, "users_per_tenant" := 2])

  const ValidContinuousTimes: Config := [Scenario(ScenarioName, [ValidTimesInvocation])]

  const ValidContinuousDuration: Config :=
    OneInvocation("continuous", map["duration" := 4, "active_users" := 2, "tenants" := 3, "users_per_tenant" := 2])

  const BadExecutionType: Config :=
    OneInvocation("contitnuous", map["times" := 10, "active_users" := 2, "tenants" := 3, "users_per_tenant" := 2])

  const BadConfigParameter: Config :=
    OneInvocation("continuous", map["times" := 10, "activeusers" := 2, "tenants" := 3, "users_per_tenant" := 2])

  const ParametersConflict: Config :=
    OneInvocation("continuous", map["times" := 10, "duration" := 100, "tenants" := 3, "users_per_tenant" := 2])

  const BadParamForPeriodic: Config :=
    OneInvocation("periodic", map["times" := 10, "active_users" := 3, "tenants" := 3, "users_per_tenant" := 2])

  const IdentitySection: Endpoint := map[
    "admin_username" := "admin",
    "admin_password" := "admin",
    "admin_tenant_name" := "admin",
    "uri" := "http://127.0.0.1:5000/v2.0"]

  const ValidCloudConfig: CloudConfig := map[
    "identity" := IdentitySection,
    "compute" := map["controller_nodes" := "localhost"]]

  /** The continuous fixture with `times` is valid. */
  lemma ValidTimesAccepted()
    ensures ValidConfig(ValidContinuousTimes)
    ensures NewEngine(ValidContinuousTimes) == Success(TestEngine(ValidContinuousTimes, None))
  {
    assert ValidInvocation(ValidTimesInvocation);
  }

  /** The continuous fixture with `duration` is valid. */
  lemma ValidDurationAccepted()
    ensures NewEngine(ValidContinuousDuration).Success?
  {
    assert ValidInvocation(ValidContinuousDuration[0].invocations[0]);
  }

  /** A misspelt strategy name is rejected as an unknown execution. */
  lemma BadExecutionTypeRejected()
    ensures NewEngine(BadExecutionType) == Failure(InvalidConfig(ScenarioName, 0, UnknownExecution("contitnuous")))
  {
    UnknownExecutionRejected(BadExecutionType[0].invocations[0]);
  }

  /** A misspelt parameter is rejected as unrecognised. */
  lemma BadConfigParameterRejected()
    ensures NewEngine(BadConfigParameter) == Failure(InvalidConfig(ScenarioName, 0, UnrecognizedKeys({"activeusers"})))
  {
    var inv := BadConfigParameter[0].invocations[0];
    assert inv.config.Keys == {"times", "activeusers", "tenants", "users_per_tenant"};
    assert inv.config.Keys - AllowedKeys(Continuous) == {"activeusers"};
  }

  /** Both `times` and `duration` on one invocation is a conflict. */
  lemma ParametersConflictRejected()
    ensures NewEngine(ParametersConflict) == Failure(InvalidConfig(ScenarioName, 0, TimesAndDuration))
  {
    var inv := ParametersConflict[0].invocations[0];
    assert inv.config.Keys == {"times", "duration", "tenants", "users_per_tenant"};
    assert inv.config.Keys - AllowedKeys(Continuous) == {};
  }

  /** Pool parameters on a periodic invocation are rejected. */
  lemma BadParamForPeriodicRejected()
    ensures NewEngine(BadParamForPeriodic) ==
            Failure(InvalidConfig(ScenarioName, 0, UsersInPeriodic({"active_users", "tenants", "users_per_tenant"})))
  {
    var inv := BadParamForPeriodic[0].invocations[0];
    assert inv.config.Keys == {"times", "active_users", "tenants", "users_per_tenant"};
    assert inv.config.Keys * UserKeys == {"active_users", "tenants", "users_per_tenant"};
  }

  /** Inside the bind scope the endpoints are the identity section. */
  lemma TestBind()
    ensures NewEngine(ValidContinuousTimes).Success?
    ensures Bind(NewEngine(ValidContinuousTimes).value, ValidCloudConfig).Success?
    ensures Bind(NewEngine(ValidContinuousTimes).value, ValidCloudConfig).value.endpoints == Some(IdentitySection)
  {
    ValidTimesAccepted();
  }

  /** A runner that returns an empty result for every descriptor. */
  function EmptyRunner(d: Descriptor): Outcome<seq<IterationResult>> {
    Returned([])
  }

  /** A runner that raises for every descriptor. */
  function FailingRunner(d: Descriptor): Outcome<seq<IterationResult>> {
    Raised(ExcInfo("TestException", "", []))
  }

  /** The fixture with a runner that returns: BENCHMARKING, one append keyed
      by name, position 0 and the invocation, then FINISHED. */
  lemma TaskStatusBasicChain()
    ensures NewEngine(ValidContinuousTimes).Success?
    ensures Session(NewEngine(ValidContinuousTimes).value, ValidCloudConfig, EmptyRunner).0.trace == [
              UpdateStatus(Benchmarking),
              AppendResults(Descriptor(ScenarioName, 0, ValidTimesInvocation), Report([])),
              UpdateStatus(Finished)]
  {
    ValidTimesAccepted();
    var e := Bind(NewEngine(ValidContinuousTimes).value, ValidCloudConfig).value;
    assert Descriptors(ValidContinuousTimes) == [Descriptor(ScenarioName, 0, ValidTimesInvocation)];
    RunSucceeds(e, EmptyRunner);
  }

  /** The fixture with a runner that raises: BENCHMARKING then FAILED, no
      append, and the runner's error propagates out of the scope. */
  lemma TaskStatusFailed()
    ensures NewEngine(ValidContinuousTimes).Success?
    ensures var out := Session(NewEngine(ValidContinuousTimes).value, ValidCloudConfig, FailingRunner).0;
            && out.trace == [UpdateStatus(Benchmarking), UpdateStatus(Failed)]
            && out.result == Failure(RunnerFailed(ExcInfo("TestException", "", [])))
  {
    ValidTimesAccepted();
    var e := Bind(NewEngine(ValidContinuousTimes).value, ValidCloudConfig).value;
    assert Descriptors(ValidContinuousTimes) == [Descriptor(ScenarioName, 0, ValidTimesInvocation)];
    RunFails(e, FailingRunner, 0);
  }
}
