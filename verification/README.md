# Rally benchmark engine and utilities, modelled in Dafny

This project states, as Dafny contracts and proofs, the behaviour that
Rally's test suites `tests/benchmark/test_engine.py` and `tests/test_utils.py`
fix for its early benchmark engine and its small utilities. The
implementation files `rally/benchmark/engine.py` and `rally/utils.py` are
not part of this model. Where the tests leave a choice open, the choice made
here is named under "Left out". Every table row below cites the test lines
whose promise the member's contract states.

The modules:

- `Wrappers`: `Option`, `Result`, an exception record `ExcInfo`, and
  `Outcome` (a call either returns a value or raises). `Outcome` stands for
  every foreign call whose body is not modelled.
- `BenchmarkConfig`: a configuration is an ordered list of scenarios.
  Each scenario holds invocations, and each invocation has `args`, an
  `execution` strategy and integer `config` parameters. The module has a
  declarative `ValidConfig` predicate and the `Validate` check that the
  engine runs at construction. `Validate` reports the first defective
  invocation together with the reason it is rejected.
- `Engine`: `TestEngine` construction, the `bind` scope (which exposes the
  `identity` section as `endpoints`), and `run`. `run` is a pure function
  from the configuration and an abstract runner to the list of
  `update_status` and `append_results` calls it makes on the task, in
  order. An independent
  reference trace (`ExpectedTrace`) is defined from the runner's outcomes,
  and `run` is proved to produce it. Replaying a trace on a task record
  gives the final status and result list.
- `EngineExamples`: the fixtures of the engine tests and the outcomes those
  tests expect.
- `Immutable`: objects become read-only once the mixin's initialiser has
  run.
- `Enums`: an enumeration class yields the values of its public
  attributes.
- `Timers`: the `Timer` scope. It takes two clock readings and records the
  error without suppressing it.
- `Subclasses`: `itersubclasses`, a depth-first walk that yields each
  transitive subclass once.
- `Waiting`: `wait_for`, which polls a resource against an abstract tick
  clock until it is ready or the timeout passes.
- `TaskLog`: `log_task_wrapper`. It formats the message with Python's `%`
  over named fields, logs a "Starting" line, calls the method, and logs a
  "Completed" line.

## Model

| member | source | states |
|---|---|---|
| BenchmarkConfig.CheckInvocation | tests/benchmark/test_engine.py:94-118 | an invocation is reported defective exactly when it is not valid: an unknown strategy, pool parameters on a periodic run, unrecognised parameters, or not exactly one of `times`/`duration`; any reason reported is one the invocation really exhibits |
| BenchmarkConfig.CheckInvocations | tests/benchmark/test_engine.py:94-118 | the scan of one scenario finds nothing exactly when every invocation from `pos` on is valid; otherwise it names the first defective position and a real defect of it |
| BenchmarkConfig.Validate | tests/benchmark/test_engine.py:94-118 | accepts exactly the valid configurations; a rejection names the first defective invocation in iteration order (every scenario before it is valid, and so is every earlier invocation of its own scenario) |
| BenchmarkConfig.UnknownExecutionRejected | tests/benchmark/test_engine.py:103-106 | a strategy other than `continuous`/`periodic` makes an invocation invalid and is the reason reported, whatever the parameters |
| BenchmarkConfig.UnrecognizedKeyRejected | tests/benchmark/test_engine.py:107-110 | a parameter that neither strategy recognises makes the invocation invalid; on a continuous invocation that key is among the reported unrecognised keys |
| BenchmarkConfig.InvalidInvocationRejectsConfig | tests/benchmark/test_engine.py:94-118 | a single invalid invocation anywhere makes the whole configuration rejected |
| Engine.NewEngine | tests/benchmark/test_engine.py:94-118 | construction succeeds exactly on a valid configuration and yields an unbound engine; otherwise it raises InvalidConfig for the first defect |
| Engine.Bind | tests/benchmark/test_engine.py:120-125 | binding succeeds exactly when the cloud configuration has an `identity` section, and the endpoints are then that section; the configuration is unchanged |
| Engine.Release | tests/benchmark/test_engine.py:123-125 | leaving the `bind` scope drops the endpoints and keeps the configuration |
| Engine.BindRelease | tests/benchmark/test_engine.py:120-125 | inside the scope the endpoints are exactly the identity section; leaving the scope restores the unbound engine |
| Engine.RunAll | tests/benchmark/test_engine.py:138-186 | the loop appends, in order, one entry per descriptor that returned, keyed by the descriptor and carrying its raw result; it stops at a failing descriptor and keeps that descriptor's error |
| Engine.Run | tests/benchmark/test_engine.py:138-186 | outside a bind scope `run` fails with no task call; inside one, the first call is BENCHMARKING and the last is FINISHED when it returns and FAILED when it raises |
| Engine.Session | tests/benchmark/test_engine.py:138-186 | the `with bind(...): run()` block releases the binding on every path; without `identity` it makes no task call and raises the bind failure for the missing section; with it, the block is `run` on the bound engine, its task calls are exactly the reference trace of the engine's descriptors, it returns exactly when no runner call raises, and otherwise it raises the first raising descriptor's own error |
| Engine.SessionReleases | tests/benchmark/test_engine.py:172-176 | after the scope the endpoints are gone and the configuration is unchanged, whether `run` returned or raised |
| Engine.FirstFatal | tests/benchmark/test_engine.py:166-186 | the reference index: every descriptor before it returns, and the descriptor at it (if any) raises |
| Engine.FirstFatalIsFirst | tests/benchmark/test_engine.py:166-186 | the first failing descriptor is the one at the reference index |
| Engine.RunAllStopsAtFirstFatal | tests/benchmark/test_engine.py:166-186 | the loop appends exactly as many entries as there are descriptors before the first failing one, and fails exactly when some descriptor fails |
| Engine.RunMatchesExpected | tests/benchmark/test_engine.py:138-186 | inside a bind scope, `run`'s task calls equal the reference trace built directly from the runner's outcomes, and `run` returns exactly when no descriptor fails |
| Engine.RunSucceeds | tests/benchmark/test_engine.py:138-162 | when every runner call returns, even with per-iteration errors inside its results, the calls are BENCHMARKING, one append per descriptor in configuration order, then FINISHED, and `run` returns those entries |
| Engine.RunFails | tests/benchmark/test_engine.py:166-186 | when descriptor `k` is the first to raise, the calls are BENCHMARKING, the appends of the `k` earlier descriptors, then FAILED, and the runner's error propagates |
| Engine.StatusPath | tests/benchmark/test_engine.py:153-158 | the statuses reported are exactly BENCHMARKING followed by one terminal status, FINISHED or FAILED according to the result |
| Engine.NoAppendAfterFailure | tests/benchmark/test_engine.py:178-182 | a FAILED status is always the last call, happens only when `run` raises, and no append follows it |
| Engine.ReplayRun | tests/benchmark/test_engine.py:138-186 | applying the calls to a fresh task leaves it FINISHED holding every result, or FAILED holding exactly the results appended before the fatal error |
| Engine.DescriptorsLocate | tests/benchmark/test_engine.py:147-151 | each descriptor carries a scenario name, that scenario's list position, and the invocation found at that position |
| Engine.DescriptorsCount | tests/benchmark/test_engine.py:147-151 | there is exactly one descriptor per invocation of every scenario |
| Engine.DescriptorsAt | tests/benchmark/test_engine.py:147-151 | the descriptor of invocation `j` of scenario `i` sits at the position that counts every invocation of the earlier scenarios, then `j` |
| Engine.DescriptorsCover | tests/benchmark/test_engine.py:147-151 | every invocation of every scenario gets a descriptor carrying its scenario name, its position and the invocation |
| EngineExamples.ValidTimesAccepted | tests/benchmark/test_engine.py:94-97 | the continuous `times` fixture with its pool parameters is accepted |
| EngineExamples.ValidDurationAccepted | tests/benchmark/test_engine.py:98-99 | the continuous `duration` fixture with its pool parameters is accepted |
| EngineExamples.BadExecutionTypeRejected | tests/benchmark/test_engine.py:103-106 | the `contitnuous` fixture is rejected because its strategy is unknown |
| EngineExamples.BadConfigParameterRejected | tests/benchmark/test_engine.py:107-110 | the `activeusers` fixture is rejected because of that unrecognised key |
| EngineExamples.ParametersConflictRejected | tests/benchmark/test_engine.py:111-114 | the fixture with both `times` and `duration` is rejected for that conflict |
| EngineExamples.BadParamForPeriodicRejected | tests/benchmark/test_engine.py:115-118 | the periodic fixture is rejected for carrying pool parameters |
| EngineExamples.TestBind | tests/benchmark/test_engine.py:120-125 | the bound test engine's endpoints are the fixture's identity section |
| EngineExamples.TaskStatusBasicChain | tests/benchmark/test_engine.py:138-162 | with a runner returning an empty result, the calls are BENCHMARKING, one append keyed by name, position 0 and the invocation with report `{'raw': {}}`, then FINISHED |
| EngineExamples.TaskStatusFailed | tests/benchmark/test_engine.py:166-186 | with a raising runner, the calls are BENCHMARKING then FAILED, and the runner's error propagates |
| Immutable.SetAttr | tests/test_utils.py:33-36 | an attribute write fails exactly on a frozen object; otherwise it binds the key and leaves every other attribute as it was |
| Immutable.Freeze | tests/test_utils.py:38-43 | the mixin's initialiser freezes the object and keeps its attributes |
| Immutable.AssignAllLastWins | tests/test_utils.py:40-48 | after a series of writes, each attribute holds its last assigned value, or its earlier value if it was not written |
| Immutable.ConstructKeepsAssignments | tests/test_utils.py:45-48 | a constructed object holds exactly the attributes assigned before the initialiser, each with its last value, and is frozen |
| Immutable.ConstructedRejectsWrites | tests/test_utils.py:45-47 | every write to a constructed object raises ImmutableException |
| Immutable.MixinExamples | tests/test_utils.py:33-48 | a bare instance refuses `test`; the subclass keeps `test` and refuses `abc` |
| Enums.EnumValues | tests/test_utils.py:53-60 | iteration yields at most one value per attribute: one for each exactly when every name is public, and none exactly when no name is |
| Enums.EnumValuesMembers | tests/test_utils.py:53-60 | a value is yielded exactly when some attribute not starting with `_` holds it |
| Enums.FooExample | tests/test_utils.py:53-60 | the test class yields the set {10, 20, "2000"}, with its underscore attributes skipped |
| Timers.TimedBlock | tests/test_utils.py:88-107 | the block's outcome passes through unchanged; the error is recorded exactly when the block raised, and it is the raised exception; the duration is the difference of the two readings |
| Timers.Enter | tests/test_utils.py:93-94 | `__enter__` takes the first clock reading and starts with no error |
| Timers.Exit | tests/test_utils.py:94-95 | `__exit__` takes the second clock reading, keeps the exception triple it is handed, and never suppresses the exception |
| Timers.TimedBlockIsWith | tests/test_utils.py:93-95 | a timed block is the `with` protocol: `__enter__` reads the clock, `__exit__` reads it again and keeps the body's exception without suppressing it |
| Timers.TimerExamples | tests/test_utils.py:88-107 | a quiet block records no error and the reading difference; a raising block records an error of kind `Exception` and still raises |
| Subclasses.Visit | tests/test_utils.py:112-125 | the walk only adds to the seen set, yields exactly the newly seen classes, and yields none twice |
| Subclasses.VisitComplete | tests/test_utils.py:112-125 | the walk marks every class it is handed and leaves the seen set closed under direct subclasses |
| Subclasses.VisitSound | tests/test_utils.py:112-125 | everything the walk yields is one of the classes it was handed or descends from one |
| Subclasses.IterSubclasses | tests/test_utils.py:112-125 | yields each class once, and yields a class exactly when it is a transitive subclass |
| Subclasses.ExcludesItself | tests/test_utils.py:125 | the class itself is yielded only if the hierarchy has a cycle through it |
| Subclasses.TreeExample | tests/test_utils.py:112-125 | for B, C under A and D under C the order is `[B, C, D]` |
| Waiting.WaitFor | tests/test_utils.py:149-173 | returns the refreshed resource at the first poll that finds it ready, with every earlier poll not ready; raises TimeoutException only after the time slept exceeds the timeout, with no poll ready |
| Waiting.UpdatedKeepsResource | tests/test_utils.py:158-170 | without an updater, or with one that returns its argument, the resource handed back is the one passed in |
| Waiting.WaitForExamples | tests/test_utils.py:149-173 | the delayed checker gives back the resource with and without the updater; a checker that is never ready raises TimeoutException |
| TaskLog.Apply | tests/test_utils.py:194 | substitution succeeds exactly when every named field has a value; otherwise it raises KeyError for a missing name |
| TaskLog.ApplyConcat | tests/test_utils.py:194 | substituting into joined pieces joins the substituted texts |
| TaskLog.Format | tests/test_utils.py:194 | text without `%` comes back unchanged; a KeyError names a key that has no value |
| TaskLog.FormatRender | tests/test_utils.py:194 | formatting a template written out from pieces gives the piecewise substitution, the KeyError of the first missing name included |
| TaskLog.MissingKeyBeforeBadDirective | tests/test_utils.py:194 | formatting works left to right: `"%(x)s%q"` with no values raises KeyError for `x` before the bad `%q` is reached |
| TaskLog.BalancedKey | tests/test_utils.py:194 | a key may hold balanced parentheses: `"%(a(b)c)s"` looks up `a(b)c` |
| TaskLog.LogLine | tests/test_utils.py:196-197 | a log line reads `Task <uuid> \| <phase> <message>` |
| TaskLog.LineTemplateRenders | tests/test_utils.py:196-197 | the line template written out is `Task %(task)s \| <phase> %(msg)s` |
| TaskLog.LineFormats | tests/test_utils.py:196-197 | `%` applied to the written-out line template, with the task uuid and the message, gives the log line |
| TaskLog.SourceTemplatesFormat | tests/test_utils.py:196-197 | the strings `Task %(task)s \| Starting:  %(msg)s` and `Task %(task)s \| Completed: %(msg)s`, formatted with a uuid and a message, give the two log lines |
| TaskLog.LogTaskWrapper | tests/test_utils.py:187-199 | a message that cannot be formatted raises before anything is logged; otherwise the method's outcome passes through unchanged, after a "Starting" line, and a "Completed" line follows exactly when the method returned |
| TaskLog.WrapperReturns | tests/test_utils.py:193-199 | a returning call hands back its value and appends exactly two lines to the log: "Starting" then "Completed", each naming the task and the formatted message |
| TaskLog.ExampleMessageFormats | tests/test_utils.py:194 | `"test %(a)s %(b)s"` with `a=10, b=20` formats to `"test 10 20"` |
| TaskLog.LogMethodExample | tests/test_utils.py:178-199 | the decorated method returns 4, and the log holds exactly the Starting and Completed lines for `some_uuid` and `test 10 20` |

## Left out

- `rally/benchmark/engine.py` and `rally/utils.py` are not part of this model. The behaviour modelled is the behaviour their two test files fix.
- The scenario runner's strategies are left out: continuous by count or by duration, periodic, the worker pool, and its concurrency. `Engine.Run` takes the runner as an abstract function from descriptor to outcome, as every engine test replaces it with a mock.
- OpenStack client construction (`osclients`) is left out. It is a foreign library and is mocked in the tests.
- `StdOutCapture` and `StdErrCapture` are left out: they redirect process I/O.
- `try_append_module` and `import_modules_from_package` are left out: they import modules from the filesystem by reflection.
- The `__name__` preservation of the decorated method is left out. It is Python function introspection.
- gettext translation is left out. The `_()` calls around the log templates are taken as the identity.
- The log sink is left out: the log is the list of lines passed to it.
- Timers.TimedBlock: clock readings are integer ticks supplied by the caller. Floating-point seconds and the real clock are not modelled.
- Waiting.WaitFor: requires a positive check interval. With a zero interval the Python loop only ends when the real clock moves, which a tick clock advanced by sleeps alone cannot express.
- Waiting.WaitFor: the updater runs before every readiness check, the first included, so a resource that is ready on entry comes back as `update(resource)`. The tests use only an identity updater, so they do not tell this order from a check-first one.
- Waiting.WaitFor: each sleep advances the clock by exactly the interval. Time spent inside the checker or the updater is not modelled.
- BenchmarkConfig.ValidInvocation: rejects an unknown strategy, pool parameters on a periodic run, unrecognised keys, and any invocation, continuous or periodic, that does not carry exactly one of `times` and `duration`. The tests exercise all of these except an invocation with neither key: rejecting that one is a choice of this model. Other required keys are not enforced, so a periodic invocation without `period` and a continuous one without pool parameters are accepted. Whether values are positive, and what `args` contain, is not checked either.
- BenchmarkConfig.Config: an ordered list of scenarios that may repeat a name, which the keys of a Python dict cannot. With a repeated name two descriptors can be equal, and the runner gives them the same outcome.
- TaskLog.Format: models only the `%(name)s` and `%%` directives. Any other conversion, flag, width or precision is reported as `BadDirective`, as is a key that never closes. Field values are already strings, so `str()` of an integer argument is written out by hand (`10` as `"10"`).
- Subclasses.ExcludesItself: states that a class is yielded for itself exactly when the hierarchy has a cycle through it. It does not state plain exclusion, because a map can encode cycles that a Python class hierarchy cannot.
- Enums.EnumValues: the attribute listing is an input. Python's `dir()` ordering is not modelled, and the test compares sets.
- Engine.Run: `run` itself reports FINISHED or FAILED before it returns, and leaving the bind scope reports nothing. In the tests `run()` is always the last statement inside the `with`, so they cannot tell this from a scope that reports on exit.
- Engine.Run: the trace records only the `update_status` and `append_results` calls. The reads of `task['uuid']` the engine makes for its own logging, that logging itself, and the runner calls are not events in it. The tests filter out the uuid reads before they compare. So the order of the appends against the runner calls is stated only through its effects: appends come in descriptor order, and none follows the fatal one.
- Engine.Run: outside a bind scope `run` raises `NotBound` and makes no task call. No test calls `run` unbound, so this is a choice of this model.
- Engine.Bind: a cloud configuration without `identity` fails with `MissingSection`. This stands for the KeyError the dictionary lookup raises.
