/** The benchmark configuration: scenario names mapped to the ordered list of
    their invocations, and the structural check the engine runs over it when
    it is constructed. */
module BenchmarkConfig {
  import opened Wrappers

  /** One invocation of a scenario: its arguments, the execution strategy by
      name, and the strategy's integer parameters. */
  datatype Invocation = Invocation(args: map<string, Value>, execution: string, config: map<string, int>)

  /** A scenario name and its invocations, in execution order. */
  datatype Scenario = Scenario(name: string, invocations: seq<Invocation>)

  /** The whole configuration, in the order the engine iterates it. */
  type Config = seq<Scenario>

  const Continuous: string := "continuous"
  const Periodic: string := "periodic"

  const Times: string := "times"
  const Duration: string := "duration"
  const Period: string := "period"
  const ActiveUsers: string := "active_users"
  const Tenants: string := "tenants"
  const UsersPerTenant: string := "users_per_tenant"

  /** Parameters that size the concurrent worker pool; periodic execution is
      single-threaded and must not carry them. */
  const UserKeys: set<string> := {ActiveUsers, Tenants, UsersPerTenant}

  /** The parameters each strategy recognises. */
  function AllowedKeys(execution: string): set<string> {
    if execution == Continuous then {Times, Duration} + UserKeys
    else {Times, Duration, Period}
  }

  /** Why an invocation was rejected. */
  datatype Reason =
    | UnknownExecution(execution: string)
    | UsersInPeriodic(keys: set<string>)
    | UnrecognizedKeys(keys: set<string>)
    | TimesAndDuration
    | NeitherTimesNorDuration

  /** The InvalidConfigException the engine raises: where, and why. */
  datatype InvalidConfig = InvalidConfig(scenario: string, pos: nat, reason: Reason)

  /** Declarative acceptance of one invocation: a known strategy, only the
      parameters it recognises, and exactly one of `times` and `duration`. */
  predicate ValidInvocation(inv: Invocation) {
    && (inv.execution == Continuous || inv.execution == Periodic)
    && inv.config.Keys <= AllowedKeys(inv.execution)
    && ((Times in inv.config) != (Duration in inv.config))
  }

  /** Every invocation of the scenario is valid. */
  predicate ValidScenario(s: Scenario) {
    forall j :: 0 <= j < |s.invocations| ==> ValidInvocation(s.invocations[j])
  }

  /** Every invocation of every scenario is valid. */
  predicate ValidConfig(cfg: Config) {
    forall i :: 0 <= i < |cfg| ==> ValidScenario(cfg[i])
  }

  /** `reason` describes a defect `inv` really has. */
  predicate Exhibits(inv: Invocation, reason: Reason) {
    match reason
    case UnknownExecution(e) =>
      e == inv.execution && e != Continuous && e != Periodic
    case UsersInPeriodic(ks) =>
      inv.execution == Periodic && ks == inv.config.Keys * UserKeys && ks != {}
    case UnrecognizedKeys(ks) =>
      ks == inv.config.Keys - AllowedKeys(inv.execution) && ks != {}
    case TimesAndDuration =>
      Times in inv.config && Duration in inv.config
    case NeitherTimesNorDuration =>
      Times !in inv.config && Duration !in inv.config
  }

  /** The first defect of one invocation, checked in a fixed order: the
      strategy name, pool parameters on a periodic run, unrecognised
      parameters, then the `times`/`duration` choice. */
  function CheckInvocation(inv: Invocation): (r: Option<Reason>)
    ensures r.None? <==> ValidInvocation(inv)
    ensures r.Some? ==> Exhibits(inv, r.value)
  {
    if inv.execution != Continuous && inv.execution != Periodic then
      Some(UnknownExecution(inv.execution))
    else if inv.execution == Periodic && inv.config.Keys * UserKeys != {} then
      Some(UsersInPeriodic(inv.config.Keys * UserKeys))
    else if inv.config.Keys - AllowedKeys(inv.execution) != {} then
      Some(UnrecognizedKeys(inv.config.Keys - AllowedKeys(inv.execution)))
    else if Times in inv.config && Duration in inv.config then
      Some(TimesAndDuration)
    else if Times !in inv.config && Duration !in inv.config then
      Some(NeitherTimesNorDuration)
    else
      None
  }

  /** The first invalid invocation of one scenario at or after `pos`. */
  function CheckInvocations(name: string, invs: seq<Invocation>, pos: nat): (r: Option<InvalidConfig>)
    requires pos <= |invs|
    ensures r.None? <==> forall j :: pos <= j < |invs| ==> ValidInvocation(invs[j])
    ensures r.Some? ==>
              && r.value.scenario == name
              && pos <= r.value.pos < |invs|
              && Exhibits(invs[r.value.pos], r.value.reason)
              && forall j :: pos <= j < r.value.pos ==> ValidInvocation(invs[j])
    decreases |invs| - pos
  {
    if pos == |invs| then None
    else match CheckInvocation(invs[pos])
      case Some(reason) => Some(InvalidConfig(name, pos, reason))
      case None => CheckInvocations(name, invs, pos + 1)
  }

  /** `e` names the first invalid invocation of `cfg` in iteration order and
      a defect it has. */
  predicate ReportsFirstDefect(cfg: Config, e: InvalidConfig) {
    exists i ::
      && 0 <= i < |cfg|
      && ValidConfig(cfg[..i])
      && cfg[i].name == e.scenario
      && e.pos < |cfg[i].invocations|
      && Exhibits(cfg[i].invocations[e.pos], e.reason)
      && forall j :: 0 <= j < e.pos ==> ValidInvocation(cfg[i].invocations[j])
  }

  /** A configuration is valid when its first scenario and the rest are. */
  lemma ValidConfigCons(cfg: Config)
    requires |cfg| > 0
    ensures ValidConfig(cfg) <==> ValidScenario(cfg[0]) && ValidConfig(cfg[1..])
  {
    assert forall i :: 1 <= i < |cfg| ==> cfg[i] == cfg[1..][i - 1];
  }

  /** A defect reported for the scenarios after a valid first one is the
      first defect of the whole configuration. */
  lemma ReportsFirstDefectCons(cfg: Config, e: InvalidConfig)
    requires |cfg| > 0 && ValidScenario(cfg[0]) && ReportsFirstDefect(cfg[1..], e)
    ensures ReportsFirstDefect(cfg, e)
  {
    var i :| && 0 <= i < |cfg[1..]|
             && ValidConfig(cfg[1..][..i])
             && cfg[1..][i].name == e.scenario
             && e.pos < |cfg[1..][i].invocations|
             && Exhibits(cfg[1..][i].invocations[e.pos], e.reason)
             && forall j :: 0 <= j < e.pos ==> ValidInvocation(cfg[1..][i].invocations[j]);
    assert cfg[..i + 1] == [cfg[0]] + cfg[1..][..i];
    ValidConfigCons(cfg[..i + 1]);
    assert cfg[..i + 1][1..] == cfg[1..][..i];
    assert cfg[i + 1] == cfg[1..][i];
  }

  /** The check the engine runs at construction: accept, or raise
      InvalidConfig for the first defective invocation. */
  function Validate(cfg: Config): (r: Result<(), InvalidConfig>)
    ensures r.Success? <==> ValidConfig(cfg)
    ensures r.Failure? ==> ReportsFirstDefect(cfg, r.error)
  {
    if |cfg| == 0 then Success(())
    else
      ValidConfigCons(cfg);
      match CheckInvocations(cfg[0].name, cfg[0].invocations, 0)
      case Some(e) =>
        assert ValidConfig(cfg[..0]);
        Failure(e)
      case None =>
        var rest := Validate(cfg[1..]);
        if rest.Failure? then
          ReportsFirstDefectCons(cfg, rest.error);
          rest
        else
          rest
  }

  /** An invocation whose strategy is neither `continuous` nor `periodic` is
      rejected for that reason, whatever its parameters. */
  lemma UnknownExecutionRejected(inv: Invocation)
    requires inv.execution != Continuous && inv.execution != Periodic
    ensures !ValidInvocation(inv)
    ensures CheckInvocation(inv) == Some(UnknownExecution(inv.execution))
  {
  }

  /** A parameter neither strategy recognises makes an invocation invalid;
      on a continuous invocation it is reported among the unrecognised keys. */
  lemma UnrecognizedKeyRejected(inv: Invocation, key: string)
    requires key in inv.config
    requires key !in AllowedKeys(Continuous) + AllowedKeys(Periodic)
    ensures !ValidInvocation(inv)
    ensures inv.execution == Continuous ==>
              && CheckInvocation(inv).Some?
              && CheckInvocation(inv).value.UnrecognizedKeys?
              && key in CheckInvocation(inv).value.keys
  {
  }

  /** Any single invalid invocation anywhere makes construction fail. */
  lemma InvalidInvocationRejectsConfig(cfg: Config, i: nat, j: nat)
    requires i < |cfg| && j < |cfg[i].invocations|
    requires !ValidInvocation(cfg[i].invocations[j])
    ensures Validate(cfg).Failure?
  {
  }
}
