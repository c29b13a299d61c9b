/**
 * The decoded form of one JSON event line of `cargo test --format json`, and
 * the choice of timing field that gives a test event its duration.
 * JSON decoding itself belongs to the caller (see `Lifecycle.Config`).
 */
module Events {
  import opened Wrappers

  /** A suite-level event; `ok` and `failed` carry the pass and fail counts. */
  datatype SuiteEvent =
    | SuiteStarted(testCount: nat)
    | SuiteOk(passed: nat, failed: nat)
    | SuiteFailed(passed: nat, failed: nat)

  /** A test-level event; every variant names the test by its full `::` identifier. */
  datatype TestEvent =
    | TestStarted(name: string)
    | TestOk(name: string)
    | TestFailed(name: string, stdout: Option<string>, stderr: Option<string>)
    | TestIgnored(name: string)
    | TestTimeout(name: string)

  /**
   * The untagged union of wire shapes. Test events come in two shapes that
   * differ only in how `exec_time` is written: a string of seconds ending in
   * `s`, or a number of seconds. `duration` is a number of milliseconds.
   * Floating-point numbers are represented by their real values.
   */
  datatype Event =
    | Suite(suite: SuiteEvent)
    | TestStringTime(test: TestEvent, duration: Option<real>, execTime: Option<string>)
    | TestFloatTime(test: TestEvent, duration: Option<real>, execSeconds: Option<real>)

  /** The timing field a test event's duration is computed from. */
  datatype TimeField =
    | ExecTimeText(text: string)
    | ExecTimeSeconds(seconds: real)
    | DurationMillis(millis: real)

  /** Why an `exec_time` string could not be read as seconds. */
  datatype TimeError =
    | MissingSecondsSuffix(text: string)
    | InvalidSeconds(text: string)

  /**
   * The floating-point parts of the duration computation, which the model
   * leaves abstract: reading a decimal number of seconds, and converting
   * seconds or milliseconds to whole nanoseconds.
   */
  datatype Clock = Clock(
    parseSeconds: string -> Option<real>,
    secondsToNanos: real -> int,
    millisToNanos: real -> int)

  /**
   * The field `get_duration` uses: `exec_time` when present, whatever
   * `duration` holds; else `duration`; else none (a zero duration).
   * Suite events have no duration.
   */
  function ChosenTimeField(e: Event): Option<TimeField>
    requires !e.Suite?
  {
    match e
    case TestStringTime(_, duration, execTime) =>
      if execTime.Some? then Some(ExecTimeText(execTime.value))
      else if duration.Some? then Some(DurationMillis(duration.value))
      else None
    case TestFloatTime(_, duration, execSeconds) =>
      if execSeconds.Some? then Some(ExecTimeSeconds(execSeconds.value))
      else if duration.Some? then Some(DurationMillis(duration.value))
      else None
  }

  /**
   * Nanoseconds from one timing field. A string of seconds must end in `s`
   * and the rest must read as a number; the source panics otherwise.
   */
  function FieldNanos(clock: Clock, f: TimeField): Result<int, TimeError> {
    match f
    case ExecTimeText(text) =>
      if text == [] || text[|text| - 1] != 's' then Err(MissingSecondsSuffix(text))
      else
        var seconds := clock.parseSeconds(text[..|text| - 1]);
        if seconds.None? then Err(InvalidSeconds(text))
        else Ok(clock.secondsToNanos(seconds.value))
    case ExecTimeSeconds(seconds) => Ok(clock.secondsToNanos(seconds))
    case DurationMillis(millis) => Ok(clock.millisToNanos(millis))
  }

  /** `Event::get_duration`, in nanoseconds. */
  function DurationNanos(clock: Clock, e: Event): Result<int, TimeError>
    requires !e.Suite?
  {
    var f := ChosenTimeField(e);
    if f.None? then Ok(0) else FieldNanos(clock, f.value)
  }
}
