/**
 * The imperative parser: the four variables of `parse` as the fields of a
 * `Parser`, one `Step` per input line, and the loop over the lines.
 */
module Interpreter {
  import opened Wrappers
  import opened Text
  import opened Events
  import opened JUnit
  import opened Lifecycle
  import opened LifecycleProperties

  class Parser {
    const cfg: Config
    var report: seq<TestSuite>
    var suiteIndex: nat
    var currentSuite: Option<TestSuite>
    var tests: set<string>

    /** The fields as a `State` value. */
    function Snapshot(): State
      reads this
    {
      State(report, suiteIndex, currentSuite, tests)
    }

    ghost predicate Valid()
      reads this
    {
      Wf(cfg, Snapshot())
    }

    constructor (cfg: Config)
      ensures this.cfg == cfg
      ensures Valid() && Snapshot() == Init
    {
      this.cfg := cfg;
      report, suiteIndex, currentSuite, tests := [], 0, None, {};
    }

    /**
     * Process one line. On success the state becomes what `StepLine`
     * prescribes; on a decode error or a protocol violation the error is
     * returned and the state is left as it was.
     */
    method Step(line: string) returns (outcome: Outcome<ParseError>)
      requires Valid()
      modifies this
      ensures Valid()
      ensures var next := StepLine(cfg, old(Snapshot()), line);
        if next.Ok? then outcome == Pass && Snapshot() == next.value
        else outcome == Fail(next.error) && Snapshot() == old(Snapshot())
    {
      if !IsCandidate(line) {
        return Pass;
      }
      var decoded := DecodeLine(cfg.decode, line);
      if decoded.Err? {
        return Fail(decoded.error);
      }
      var e := decoded.value;
      ghost var before := Snapshot();
      match e {
        case Suite(SuiteStarted(_)) =>
          if currentSuite.Some? {
            return Fail(SuiteAlreadyOpen);
          }
          if tests != {} {
            return Fail(TestsInFlight(tests));
          }
          currentSuite := Some(TestSuite(SuiteName(cfg.prefix, suiteIndex), cfg.timestamp, []));
          suiteIndex := suiteIndex + 1;
        case Suite(_) =>
          if tests != {} {
            return Fail(TestsInFlight(tests));
          }
          if currentSuite.None? {
            return Fail(SuiteCompleteOutsideSuite);
          }
          report := report + [currentSuite.value];
          currentSuite := None;
        case _ =>
          if currentSuite.None? {
            return Fail(TestEventOutsideSuite);
          }
          var nanos := DurationNanos(cfg.clock, e);
          if nanos.Err? {
            return Fail(BadDuration(nanos.error));
          }
          var open := currentSuite.value;
          match e.test {
            case TestStarted(name) =>
              if name in tests {
                return Fail(DuplicateTest(name));
              }
              tests := tests + {name};
            case TestOk(name) =>
              if name !in tests {
                return Fail(UnknownTest(name));
              }
              tests := tests - {name};
              var np := SplitName(name);
              currentSuite := Some(AddCase(open, TestCase(np.name, np.path, nanos.value, Success)));
            case TestFailed(name, stdout, stderr) =>
              if name !in tests {
                return Fail(UnknownTest(name));
              }
              var np := SplitName(name);
              var out := Sanitized(cfg.sanitize, stdout);
              if out.Err? {
                return Fail(out.error);
              }
              var err := Sanitized(cfg.sanitize, stderr);
              if err.Err? {
                return Fail(err.error);
              }
              var systemOut := Truncate(MergeOutput(out.value, err.value), cfg.maxLen);
              tests := tests - {name};
              var verdict := Failure(FailureKind, FailureMessage(np), systemOut);
              currentSuite := Some(AddCase(open, TestCase(np.name, np.path, nanos.value, verdict)));
            case TestIgnored(name) =>
              if name !in tests {
                return Fail(UnknownTest(name));
              }
              tests := tests - {name};
            case TestTimeout(_) =>
          }
      }
      StepEventPreservesWf(cfg, before, e);
      return Pass;
    }
  }

  /**
   * `parse`: run every line through a fresh parser and return the sealed
   * suites, or the first error. The result is the one `ParseSpec` gives; on
   * success no suite name repeats and every suite has the given timestamp.
   */
  method Parse(cfg: Config, lines: seq<string>) returns (r: Result<Report, ParseError>)
    ensures r == ParseSpec(cfg, lines)
    ensures r.Ok? ==> forall i, j :: 0 <= i < j < |r.value.suites| ==> r.value.suites[i].name != r.value.suites[j].name
    ensures r.Ok? ==> forall i :: 0 <= i < |r.value.suites| ==> r.value.suites[i].timestamp == cfg.timestamp
  {
    var p := new Parser(cfg);
    for i := 0 to |lines|
      invariant p.cfg == cfg && p.Valid()
      invariant RunLines(cfg, Init, lines) == RunLines(cfg, p.Snapshot(), lines[i..])
    {
      assert lines[i..][1..] == lines[i + 1..];
      var outcome := p.Step(lines[i]);
      if outcome.Fail? {
        return Err(outcome.error);
      }
    }
    assert lines[|lines|..] == [];
    SuiteNamesDistinct(cfg, p.Snapshot());
    return Ok(Report(p.report));
  }
}
