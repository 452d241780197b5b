/** The bounded-wait helper: poll a resource, refreshing it with an optional
    updater, until a readiness check succeeds or the timeout passes. Time is
    an abstract integer clock: the first poll happens at `start`, and each
    sleep between polls advances the clock by exactly `interval` ticks. */
module Waiting {
  import opened Wrappers

  /** The error raised once the timeout has passed. */
  datatype TimeoutException = TimeoutException

  /** The resource after `n` calls of the updater; without an updater it
      never changes. */
  function Updated<T>(resource: T, update: Option<T -> T>, n: nat): T {
    if n == 0 || update.None? then resource else update.value(Updated(resource, update, n - 1))
  }

  /** `wait_for(resource, is_ready, update_resource, timeout, check_interval)`.
      Poll `k` refreshes the resource, then asks `isReady` at clock
      `start + k * interval`; after each unready poll the helper sleeps and
      raises TimeoutException once the time slept exceeds `timeout`.
      `polls` is the number of polls made. */
  method WaitFor<T>(resource: T, isReady: (T, int) -> bool, update: Option<T -> T>,
                    timeout: int, interval: nat, start: int)
    returns (r: Result<T, TimeoutException>, polls: nat)
    requires interval > 0
    ensures polls >= 1
    ensures polls == 1 || (polls - 1) * interval <= timeout
    ensures forall j :: 0 <= j < polls - 1 ==> !isReady(Updated(resource, update, j + 1), start + j * interval)
    ensures r.Success? ==>
              && r.value == Updated(resource, update, polls)
              && isReady(r.value, start + (polls - 1) * interval)
    ensures r.Failure? ==>
              && !isReady(Updated(resource, update, polls), start + (polls - 1) * interval)
              && polls * interval > timeout
  {
    var res := resource;
    var k: nat := 0;
    while true
      invariant k == 0 || k * interval <= timeout
      invariant res == Updated(resource, update, k)
      invariant forall j :: 0 <= j < k ==> !isReady(Updated(resource, update, j + 1), start + j * interval)
      decreases timeout - k * interval
    {
      if update.Some? {
        res := update.value(res);
      }
      if isReady(res, start + k * interval) {
        return Success(res), k + 1;
      }
      k := k + 1;
      if k * interval > timeout {
        return Failure(TimeoutException), k;
      }
    }
  }

  /** Without an updater, or with one that returns its argument, the
      resource handed back is the one passed in. */
  lemma {:induction false} UpdatedKeepsResource<T>(resource: T, update: Option<T -> T>, n: nat)
    requires update.None? || forall x :: update.value(x) == x
    ensures Updated(resource, update, n) == resource
  {
    if n > 0 && update.Some? {
      UpdatedKeepsResource(resource, update, n - 1);
    }
  }

  /** The wait test, at one tick per tenth of a second: a check that turns
      true after 3 ticks, polled every 2 ticks with a 10-tick timeout, hands
      back the resource with and without the updater; a check that never
      succeeds with a 3-tick timeout polled every tick raises. */
  method WaitForExamples() returns (withUpdater: Result<int, TimeoutException>, plain: Result<int, TimeoutException>,
                                   never: Result<int, TimeoutException>)
    ensures withUpdater == Success(42) && plain == Success(42)
    ensures never == Failure(TimeoutException)
  {
    var ready := (obj: int, now: int) => now > 3;
    var n1, n2, n3;
    withUpdater, n1 := WaitFor(42, ready, Some((obj: int) => obj), 10, 2, 0);
    UpdatedKeepsResource(42, Some((obj: int) => obj), n1);
    plain, n2 := WaitFor(42, ready, None, 10, 2, 0);
    UpdatedKeepsResource(42, None, n2);
    never, n3 := WaitFor(7, (obj: int, now: int) => false, Some((obj: int) => obj), 3, 1, 0);
    assert never.error.TimeoutException?;
  }
}
