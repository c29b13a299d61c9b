/**
 * The event-stream interpreter (`parse`): each line is filtered, decoded
 * (with one retry on the backslash-doubled line) and dispatched against the
 * suite/test lifecycle, accumulating a JUnit report.
 *
 * `StepEvent`, `StepLine` and `RunLines` are the specification as functions
 * on a `State` value; module `Interpreter` holds the imperative parser whose
 * fields the source mutates, proved against them.
 */
module Lifecycle {
  import opened Wrappers
  import opened Text
  import opened Events
  import opened JUnit

  /** The failure type written on every failed test case. */
  const FailureKind: string := "cargo test"

  /**
   * What the caller supplies: the suite-name prefix, the parse-start
   * timestamp, the output budget, and the foreign operations the model
   * leaves abstract: JSON decoding of one line (an event or the decoder's
   * error text), ANSI-escape stripping with lossy UTF-8 decoding (which can
   * report an I/O error), and the floating-point duration conversions.
   */
  datatype Config = Config(
    prefix: string,
    timestamp: Timestamp,
    maxLen: nat,
    decode: string -> Result<Event, string>,
    sanitize: string -> Option<string>,
    clock: Clock)

  /** Everything that aborts a parse. None of them yields a report. */
  datatype ParseError =
    | DecodeError(line: string, cause: string)  // the doubled line and the first decoder error
    | SuiteAlreadyOpen                          // suite started inside a suite
    | TestsInFlight(names: set<string>)         // suite started or completed while tests are unresolved
    | SuiteCompleteOutsideSuite
    | TestEventOutsideSuite
    | BadDuration(error: TimeError)             // the `exec_time` string is not `<seconds>s`
    | DuplicateTest(name: string)               // started twice without resolution
    | UnknownTest(name: string)                 // resolved without being in flight
    | SanitizeFailed(text: string)              // escape stripping reported an error

  /**
   * The parse's four variables: the sealed suites so far, the number of
   * suites started, the open suite, and the names of the tests in flight.
   */
  datatype State = State(
    report: seq<TestSuite>,
    suiteIndex: nat,
    current: Option<TestSuite>,
    tests: set<string>)

  const Init: State := State([], 0, None, {})

  /** `"<prefix> #<k>"`. */
  function SuiteName(prefix: string, k: nat): string {
    prefix + " #" + Decimal(k)
  }

  /** `"failed <path>::<name>"`. */
  function FailureMessage(np: NamePath): string {
    "failed " + np.path + "::" + np.name
  }

  /** Decode a candidate line; if that fails, decode it again with its backslashes doubled. */
  function DecodeLine(decode: string -> Result<Event, string>, line: string): Result<Event, ParseError> {
    var first := decode(line);
    if first.Ok? then Ok(first.value)
    else
      var repaired := DoubleBackslashes(line);
      var second := decode(repaired);
      if second.Ok? then Ok(second.value)
      else Err(DecodeError(repaired, first.error))
  }

  /** A captured stream after escape stripping; an absent stream is empty. */
  function Sanitized(sanitize: string -> Option<string>, stream: Option<string>): Result<string, ParseError> {
    if stream.None? then Ok("")
    else
      var clean := sanitize(stream.value);
      if clean.None? then Err(SanitizeFailed(stream.value)) else Ok(clean.value)
  }

  /** The open suite with one more case at its end. */
  function AddCase(suite: TestSuite, c: TestCase): TestSuite {
    suite.(cases := suite.cases + [c])
  }

  /** The effect of one test event on an open suite, given its duration. */
  function StepTest(cfg: Config, st: State, t: TestEvent, nanos: int): Result<State, ParseError>
    requires st.current.Some?
  {
    match t
    case TestStarted(name) =>
      if name in st.tests then Err(DuplicateTest(name))
      else Ok(st.(tests := st.tests + {name}))
    case TestOk(name) =>
      if name !in st.tests then Err(UnknownTest(name))
      else
        var np := SplitName(name);
        var c := TestCase(np.name, np.path, nanos, Success);
        Ok(st.(tests := st.tests - {name}, current := Some(AddCase(st.current.value, c))))
    case TestFailed(name, stdout, stderr) =>
      if name !in st.tests then Err(UnknownTest(name))
      else
        var np := SplitName(name);
        var out := Sanitized(cfg.sanitize, stdout);
        if out.Err? then Err(out.error)
        else
          var err := Sanitized(cfg.sanitize, stderr);
          if err.Err? then Err(err.error)
          else
            var text := Truncate(MergeOutput(out.value, err.value), cfg.maxLen);
            var c := TestCase(np.name, np.path, nanos, Failure(FailureKind, FailureMessage(np), text));
            Ok(st.(tests := st.tests - {name}, current := Some(AddCase(st.current.value, c))))
    case TestIgnored(name) =>
      if name !in st.tests then Err(UnknownTest(name))
      else Ok(st.(tests := st.tests - {name}))
    case TestTimeout(_) =>
      Ok(st)
  }

  /** The lifecycle rules for one decoded event. */
  function StepEvent(cfg: Config, st: State, e: Event): Result<State, ParseError> {
    match e
    case Suite(SuiteStarted(_)) =>
      if st.current.Some? then Err(SuiteAlreadyOpen)
      else if st.tests != {} then Err(TestsInFlight(st.tests))
      else
        var suite := TestSuite(SuiteName(cfg.prefix, st.suiteIndex), cfg.timestamp, []);
        Ok(st.(current := Some(suite), suiteIndex := st.suiteIndex + 1))
    case Suite(_) =>
      if st.tests != {} then Err(TestsInFlight(st.tests))
      else if st.current.None? then Err(SuiteCompleteOutsideSuite)
      else Ok(st.(report := st.report + [st.current.value], current := None))
    case _ =>
      if st.current.None? then Err(TestEventOutsideSuite)
      else
        var nanos := DurationNanos(cfg.clock, e);
        if nanos.Err? then Err(BadDuration(nanos.error))
        else StepTest(cfg, st, e.test, nanos.value)
  }

  /** One input line: skipped unless it is a candidate, else decoded and dispatched. */
  function StepLine(cfg: Config, st: State, line: string): Result<State, ParseError> {
    if !IsCandidate(line) then Ok(st)
    else
      var e := DecodeLine(cfg.decode, line);
      if e.Err? then Err(e.error) else StepEvent(cfg, st, e.value)
  }

  /** All lines in order, stopping at the first error. */
  function RunLines(cfg: Config, st: State, lines: seq<string>): Result<State, ParseError>
    decreases |lines|
  {
    if lines == [] then Ok(st)
    else
      var next := StepLine(cfg, st, lines[0]);
      if next.Err? then Err(next.error) else RunLines(cfg, next.value, lines[1..])
  }

  /**
   * The report of a whole input: the sealed suites. A suite still open when
   * the input ends is not part of it, and no error is raised for it.
   */
  function ParseSpec(cfg: Config, lines: seq<string>): Result<Report, ParseError> {
    var end := RunLines(cfg, Init, lines);
    if end.Err? then Err(end.error) else Ok(Report(end.value.report))
  }

  /**
   * The state invariant: tests are only in flight inside an open suite; every
   * suite started is sealed or open; the k-th suite is named with counter k
   * and carries the parse's timestamp.
   */
  ghost predicate Wf(cfg: Config, st: State) {
    && (st.current.None? ==> st.tests == {})
    && st.suiteIndex == |st.report| + (if st.current.Some? then 1 else 0)
    && (forall k :: 0 <= k < |st.report| ==>
          st.report[k].name == SuiteName(cfg.prefix, k) && st.report[k].timestamp == cfg.timestamp)
    && (st.current.Some? ==>
          st.current.value.name == SuiteName(cfg.prefix, |st.report|) && st.current.value.timestamp == cfg.timestamp)
  }

  /** The cases recorded so far: in the sealed suites and in the open one. */
  function TotalCases(st: State): nat {
    CaseCount(st.report) + (if st.current.Some? then |st.current.value.cases| else 0)
  }
}
