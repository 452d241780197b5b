/** The timer scope: it reads the clock on entry and on exit, and records the
    exception the timed block raised without suppressing it. Clock readings
    are abstract integer ticks supplied by the caller. */
module Timers {
  import opened Wrappers

  /** A finished timer: the two clock readings and the recorded error. */
  datatype Timer = Timer(start: int, finish: int, error: Option<ExcInfo>)

  /** The time between entering and leaving the scope. */
  function Duration(t: Timer): int {
    t.finish - t.start
  }

  /** A `with Timer()` block whose body ends with `body`, the clock reading
      `start` on entry and `finish` on exit. The block's own outcome is the
      body's: a value passes through and an exception propagates. */
  function TimedBlock<T>(start: int, finish: int, body: Outcome<T>): (r: (Timer, Outcome<T>))
    ensures r.1 == body
    ensures r.0.error.None? <==> body.Returned?
    ensures body.Raised? ==> r.0.error == Some(body.exc)
    ensures Duration(r.0) == finish - start
  {
    var t := Timer(start, finish, None);
    match body
    case Returned(_) => (t, body)
    case Raised(exc) => (t.(error := Some(exc)), body)
  }

  /** `__enter__`: the first clock reading; nothing has failed yet. */
  function Enter(clock: int): (t: Timer)
    ensures t.start == clock && t.error.None?
  {
    Timer(clock, clock, None)
  }

  /** `__exit__`: the second clock reading and the exception triple the
      interpreter hands over, if any. The flag is `__exit__`'s return value,
      which decides whether the exception is suppressed. */
  function Exit(t: Timer, clock: int, exc: Option<ExcInfo>): (r: (Timer, bool))
    ensures r.0 == Timer(t.start, clock, exc)
    ensures !r.1
  {
    (t.(finish := clock, error := exc), false)
  }

  /** A `with` block runs `__enter__`, the body, then `__exit__` with the
      body's exception. `TimedBlock` is exactly that protocol: the timer it
      yields is the one `__exit__` leaves, and since `__exit__` never
      suppresses, the block's outcome is the body's. */
  lemma TimedBlockIsWith<T>(start: int, finish: int, body: Outcome<T>)
    ensures var raised := if body.Raised? then Some(body.exc) else None;
            var (t, suppressed) := Exit(Enter(start), finish, raised);
            !suppressed && TimedBlock(start, finish, body) == (t, body)
  {
  }

  /** The timer test cases: a quiet block records no error and the span
      between the two readings; a raising block records the exception's
      type as the first part of the error triple and still raises. */
  lemma TimerExamples(start: int, finish: int)
    ensures var (t, out) := TimedBlock(start, finish, Returned(()));
            t.error.None? && Duration(t) == finish - start && out == Returned(())
    ensures var exc := ExcInfo("Exception", "", ["test_timer_exception"]);
            var (t, out) := TimedBlock<()>(start, finish, Raised(exc));
            t.error.Some? && t.error.value.kind == "Exception" && out == Raised(exc)
  {
  }
}
