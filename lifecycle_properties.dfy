/** What the lifecycle rules guarantee, one event at a time and over a whole input. */
module LifecycleProperties {
  import opened Wrappers
  import opened Text
  import opened TextProperties
  import opened Events
  import opened JUnit
  import opened Lifecycle

  // ---------------------------------------------------------------------
  // Filter and decoder
  // ---------------------------------------------------------------------

  /** A line that is not a candidate changes neither the state nor the report. */
  lemma NonCandidateSkipped(cfg: Config, st: State, line: string)
    requires !IsCandidate(line)
    ensures StepLine(cfg, st, line) == Ok(st)
  {
  }

  /**
   * The decoder succeeds when the line or its backslash-doubled form decodes,
   * preferring the line itself; otherwise the error carries the doubled line
   * and the first attempt's error. A line without backslashes gets no second
   * chance that could differ from the first.
   */
  lemma DecodeFallback(decode: string -> Result<Event, string>, line: string)
    ensures decode(line).Ok? ==> DecodeLine(decode, line) == Ok(decode(line).value)
    ensures DecodeLine(decode, line).Ok? <==> decode(line).Ok? || decode(DoubleBackslashes(line)).Ok?
    ensures DecodeLine(decode, line).Err? ==>
      DecodeLine(decode, line).error == DecodeError(DoubleBackslashes(line), decode(line).error)
    ensures Count(line, Backslash) == 0 ==> (DecodeLine(decode, line).Ok? <==> decode(line).Ok?)
  {
  }

  // ---------------------------------------------------------------------
  // Suite lifecycle
  // ---------------------------------------------------------------------

  /**
   * Suite-started fails when a suite is open or tests are in flight; otherwise
   * it opens an empty suite named after the number of earlier starts, stamped
   * with the parse's timestamp, and counts it.
   */
  lemma SuiteStartedRule(cfg: Config, st: State, testCount: nat)
    ensures var r := StepEvent(cfg, st, Suite(SuiteStarted(testCount)));
      && (st.current.Some? ==> r == Err(SuiteAlreadyOpen))
      && (st.current.None? && st.tests != {} ==> r == Err(TestsInFlight(st.tests)))
      && (st.current.None? && st.tests == {} ==>
            r == Ok(State(st.report, st.suiteIndex + 1,
                          Some(TestSuite(SuiteName(cfg.prefix, st.suiteIndex), cfg.timestamp, [])), {})))
  {
  }

  /** Suite-ok and suite-failed are handled alike, whatever counts they carry. */
  lemma SuiteOkFailedAlike(cfg: Config, st: State, p1: nat, f1: nat, p2: nat, f2: nat)
    ensures StepEvent(cfg, st, Suite(SuiteOk(p1, f1))) == StepEvent(cfg, st, Suite(SuiteFailed(p2, f2)))
  {
  }

  /**
   * Suite completion fails while tests are in flight or when no suite is
   * open; otherwise the open suite is appended after the earlier ones and
   * closed.
   */
  lemma SuiteCompletedRule(cfg: Config, st: State, passed: nat, failed: nat)
    ensures var r := StepEvent(cfg, st, Suite(SuiteOk(passed, failed)));
      && (r.Err? <==> st.tests != {} || st.current.None?)
      && (st.tests != {} ==> r == Err(TestsInFlight(st.tests)))
      && (st.tests == {} && st.current.None? ==> r == Err(SuiteCompleteOutsideSuite))
      && (r.Ok? ==> r.value == State(st.report + [st.current.value], st.suiteIndex, None, {}))
  {
  }

  /** Every completion appends to the report and never rewrites a sealed suite. */
  lemma StepLineReportGrows(cfg: Config, st: State, line: string)
    requires StepLine(cfg, st, line).Ok?
    ensures var st' := StepLine(cfg, st, line).value;
      st'.report == st.report || (st.current.Some? && st'.report == st.report + [st.current.value])
  {
  }

  /** Over a whole input, the state's report is a prefix of the final one. */
  lemma {:induction false} RunLinesReportGrows(cfg: Config, st: State, lines: seq<string>)
    requires RunLines(cfg, st, lines).Ok?
    ensures st.report <= RunLines(cfg, st, lines).value.report
    decreases |lines|
  {
    if lines != [] {
      var next := StepLine(cfg, st, lines[0]).value;
      StepLineReportGrows(cfg, st, lines[0]);
      RunLinesReportGrows(cfg, next, lines[1..]);
    }
  }

  // ---------------------------------------------------------------------
  // Test lifecycle: the in-flight set
  // ---------------------------------------------------------------------

  /** A test event fails outside a suite, and when its `exec_time` cannot be read. */
  lemma TestEventNeedsSuite(cfg: Config, st: State, e: Event)
    requires !e.Suite?
    ensures st.current.None? ==> StepEvent(cfg, st, e) == Err(TestEventOutsideSuite)
    ensures st.current.Some? && DurationNanos(cfg.clock, e).Err? ==>
      StepEvent(cfg, st, e) == Err(BadDuration(DurationNanos(cfg.clock, e).error))
  {
  }

  /**
   * Test-started adds a name that is not yet in flight and fails on one that
   * is; ok, failed and ignored remove a name that is in flight and fail on
   * one that is not; timeout changes nothing.
   */
  lemma InFlightDiscipline(cfg: Config, st: State, e: Event)
    requires !e.Suite? && st.current.Some? && DurationNanos(cfg.clock, e).Ok?
    ensures var r, n := StepEvent(cfg, st, e), e.test.name;
      && (e.test.TestStarted? ==>
            (r.Err? <==> n in st.tests) &&
            (n in st.tests ==> r == Err(DuplicateTest(n))) &&
            (r.Ok? ==> r.value.tests == st.tests + {n} && r.value.current == st.current))
      && (e.test.TestOk? || e.test.TestIgnored? ==> (r.Err? <==> n !in st.tests))
      && (e.test.TestFailed? ==>
            (r.Err? <==> n !in st.tests || Sanitized(cfg.sanitize, e.test.stdout).Err? ||
                         Sanitized(cfg.sanitize, e.test.stderr).Err?))
      && (e.test.TestOk? || e.test.TestFailed? || e.test.TestIgnored? ==>
            (n !in st.tests ==> r == Err(UnknownTest(n))) &&
            (r.Ok? ==> r.value.tests == st.tests - {n}))
      && (e.test.TestIgnored? && n in st.tests ==> r == Ok(st.(tests := st.tests - {n})))
      && (e.test.TestTimeout? ==> r == Ok(st))
  {
  }

  /** Test ok and test failed are the events that record a case. */
  predicate IsResolution(e: Event) {
    !e.Suite? && (e.test.TestOk? || e.test.TestFailed?)
  }

  /**
   * A resolving event appends exactly one case, named by `split_name`, to the
   * open suite and leaves the sealed suites alone; every other successful
   * step leaves the open suite's cases as they were.
   */
  lemma CaseRecording(cfg: Config, st: State, e: Event)
    requires StepEvent(cfg, st, e).Ok?
    ensures var st' := StepEvent(cfg, st, e).value;
      && (IsResolution(e) ==>
            && st'.report == st.report
            && st.current.Some? && st'.current.Some?
            && st'.current.value.name == st.current.value.name
            && |st'.current.value.cases| == |st.current.value.cases| + 1
            && st'.current.value.cases[..|st.current.value.cases|] == st.current.value.cases
            && var c := st'.current.value.cases[|st.current.value.cases|];
               && c.name == SplitName(e.test.name).name
               && c.classname == SplitName(e.test.name).path
               && c.nanos == DurationNanos(cfg.clock, e).value
               && (e.test.TestOk? <==> c.verdict.Success?))
      && (!e.Suite? && !IsResolution(e) ==> st'.report == st.report && st'.current == st.current)
  {
    if IsResolution(e) {
      var st' := StepEvent(cfg, st, e).value;
      assert st'.current.value.cases[..|st.current.value.cases|] == st.current.value.cases;
    }
  }

  /**
   * A failure case carries the failure type `cargo test`, the message
   * `failed <path>::<name>`, and the merged, sanitized, truncated output.
   */
  lemma FailureCaseContent(cfg: Config, st: State, name: string, stdout: Option<string>, stderr: Option<string>,
                           nanos: int)
    requires st.current.Some?
    requires StepTest(cfg, st, TestFailed(name, stdout, stderr), nanos).Ok?
    ensures var st' := StepTest(cfg, st, TestFailed(name, stdout, stderr), nanos).value;
      var out, err := Sanitized(cfg.sanitize, stdout), Sanitized(cfg.sanitize, stderr);
      && out.Ok? && err.Ok?
      && st'.current.Some?
      && |st'.current.value.cases| > 0
      && st'.current.value.cases[|st'.current.value.cases| - 1].verdict ==
           Failure(FailureKind, FailureMessage(SplitName(name)), Truncate(MergeOutput(out.value, err.value), cfg.maxLen))
  {
  }

  /**
   * The failure message names the whole identifier: `failed <full>` when it
   * has a module path, and `failed ::<full>` when it has none.
   */
  lemma FailureMessageForm(full: string)
    ensures HasSeparator(full) ==> FailureMessage(SplitName(full)) == "failed " + full
    ensures !HasSeparator(full) ==> FailureMessage(SplitName(full)) == "failed ::" + full
  {
    SplitNameSpec(full);
  }

  // ---------------------------------------------------------------------
  // The state invariant
  // ---------------------------------------------------------------------

  lemma InitWf(cfg: Config)
    ensures Wf(cfg, Init)
  {
  }

  lemma StepEventPreservesWf(cfg: Config, st: State, e: Event)
    requires Wf(cfg, st)
    requires StepEvent(cfg, st, e).Ok?
    ensures Wf(cfg, StepEvent(cfg, st, e).value)
  {
    var st' := StepEvent(cfg, st, e).value;
    if e.Suite? && !e.suite.SuiteStarted? {
      assert st'.report == st.report + [st.current.value];
      forall k | 0 <= k < |st'.report|
        ensures st'.report[k].name == SuiteName(cfg.prefix, k) && st'.report[k].timestamp == cfg.timestamp
      {
        if k < |st.report| { assert st'.report[k] == st.report[k]; }
      }
    }
  }

  lemma StepLinePreservesWf(cfg: Config, st: State, line: string)
    requires Wf(cfg, st)
    requires StepLine(cfg, st, line).Ok?
    ensures Wf(cfg, StepLine(cfg, st, line).value)
  {
    if IsCandidate(line) {
      StepEventPreservesWf(cfg, st, DecodeLine(cfg.decode, line).value);
    }
  }

  lemma {:induction false} RunLinesPreservesWf(cfg: Config, st: State, lines: seq<string>)
    requires Wf(cfg, st)
    requires RunLines(cfg, st, lines).Ok?
    ensures Wf(cfg, RunLines(cfg, st, lines).value)
    decreases |lines|
  {
    if lines != [] {
      StepLinePreservesWf(cfg, st, lines[0]);
      RunLinesPreservesWf(cfg, StepLine(cfg, st, lines[0]).value, lines[1..]);
    }
  }

  /** Distinct counters give distinct suite names. */
  lemma SuiteNameInjective(prefix: string, i: nat, j: nat)
    ensures SuiteName(prefix, i) == SuiteName(prefix, j) ==> i == j
  {
    if SuiteName(prefix, i) == SuiteName(prefix, j) {
      assert SuiteName(prefix, i)[|prefix| + 2..] == Decimal(i);
      assert SuiteName(prefix, j)[|prefix| + 2..] == Decimal(j);
      DecimalInjective(i, j);
    }
  }

  /** In a well-formed state no two sealed suites share a name, and all share the timestamp. */
  lemma SuiteNamesDistinct(cfg: Config, st: State)
    requires Wf(cfg, st)
    ensures forall i, j :: 0 <= i < j < |st.report| ==> st.report[i].name != st.report[j].name
    ensures forall i :: 0 <= i < |st.report| ==> st.report[i].timestamp == cfg.timestamp
  {
    forall i, j | 0 <= i < j < |st.report| ensures st.report[i].name != st.report[j].name {
      SuiteNameInjective(cfg.prefix, i, j);
    }
  }

  /** A whole input from the initial state ends well-formed, with no suite name repeated. */
  lemma RunFromInit(cfg: Config, lines: seq<string>)
    requires RunLines(cfg, Init, lines).Ok?
    ensures Wf(cfg, RunLines(cfg, Init, lines).value)
    ensures var rep := RunLines(cfg, Init, lines).value.report;
      forall i, j :: 0 <= i < j < |rep| ==> rep[i].name != rep[j].name
  {
    InitWf(cfg);
    RunLinesPreservesWf(cfg, Init, lines);
    SuiteNamesDistinct(cfg, RunLines(cfg, Init, lines).value);
  }

  // ---------------------------------------------------------------------
  // Counting cases
  // ---------------------------------------------------------------------

  /** The number of candidate lines of the input that decode to a test ok or failed event. */
  function Resolutions(decode: string -> Result<Event, string>, lines: seq<string>): nat {
    if lines == [] then 0
    else
      var e := DecodeLine(decode, lines[0]);
      (if IsCandidate(lines[0]) && e.Ok? && IsResolution(e.value) then 1 else 0) + Resolutions(decode, lines[1..])
  }

  lemma CaseCountSnoc(suites: seq<TestSuite>, s: TestSuite)
    ensures CaseCount(suites + [s]) == CaseCount(suites) + |s.cases|
  {
    assert (suites + [s])[..|suites|] == suites;
  }

  /** Each successful step adds one case for a resolving event and none otherwise. */
  lemma StepEventCases(cfg: Config, st: State, e: Event)
    requires StepEvent(cfg, st, e).Ok?
    ensures TotalCases(StepEvent(cfg, st, e).value) == TotalCases(st) + (if IsResolution(e) then 1 else 0)
  {
    if e.Suite? && !e.suite.SuiteStarted? {
      CaseCountSnoc(st.report, st.current.value);
    } else if !e.Suite? {
      CaseRecording(cfg, st, e);
    }
  }

  /**
   * Over a parse that succeeds, every candidate line decodes, and the cases
   * recorded (sealed or still open) grow by exactly the number of test ok
   * and test failed events.
   */
  lemma {:induction false} RunLinesCases(cfg: Config, st: State, lines: seq<string>)
    requires RunLines(cfg, st, lines).Ok?
    ensures forall i :: 0 <= i < |lines| && IsCandidate(lines[i]) ==> DecodeLine(cfg.decode, lines[i]).Ok?
    ensures TotalCases(RunLines(cfg, st, lines).value) == TotalCases(st) + Resolutions(cfg.decode, lines)
    decreases |lines|
  {
    if lines != [] {
      var next := StepLine(cfg, st, lines[0]).value;
      RunLinesCases(cfg, next, lines[1..]);
      if IsCandidate(lines[0]) {
        StepEventCases(cfg, st, DecodeLine(cfg.decode, lines[0]).value);
      }
      forall i | 0 <= i < |lines| && IsCandidate(lines[i]) ensures DecodeLine(cfg.decode, lines[i]).Ok? {
        if i > 0 { assert lines[i] == lines[1..][i - 1]; }
      }
    }
  }

  /**
   * On a successful parse, the report holds one case per test ok or failed
   * event, provided no suite is left open at the end of the input (the
   * cases of a suite left open are not reported).
   */
  lemma ParseCaseCount(cfg: Config, lines: seq<string>)
    requires RunLines(cfg, Init, lines).Ok?
    ensures var end := RunLines(cfg, Init, lines).value;
      && CaseCount(end.report) <= Resolutions(cfg.decode, lines)
      && (end.current.None? ==> CaseCount(end.report) == Resolutions(cfg.decode, lines))
  {
    RunLinesCases(cfg, Init, lines);
  }

  // ---------------------------------------------------------------------
  // End-to-end scenarios
  // ---------------------------------------------------------------------

  /**
   * Suite started, test `t` started, test `t` ok, suite ok: one suite
   * `<prefix> #0` holding one successful case `t` with an empty classname
   * and a zero duration.
   */
  lemma SingleTestScenario(cfg: Config, lines: seq<string>)
    requires |lines| == 4
    requires forall i :: 0 <= i < 4 ==> IsCandidate(lines[i])
    requires cfg.decode(lines[0]) == Ok(Suite(SuiteStarted(1)))
    requires cfg.decode(lines[1]) == Ok(TestStringTime(TestStarted("t"), None, None))
    requires cfg.decode(lines[2]) == Ok(TestStringTime(TestOk("t"), None, None))
    requires cfg.decode(lines[3]) == Ok(Suite(SuiteOk(1, 0)))
    ensures ParseSpec(cfg, lines) ==
      Ok(Report([TestSuite(SuiteName(cfg.prefix, 0), cfg.timestamp, [TestCase("t", "", 0, Success)])]))
  {
    assert !HasSeparator("t") by {
      forall i ensures !SeparatorAt("t", i) { }
    }
    SplitNameSpec("t");
    var open := TestSuite(SuiteName(cfg.prefix, 0), cfg.timestamp, []);
    var done := open.(cases := [TestCase("t", "", 0, Success)]);
    var s0 := State([], 1, Some(open), {});
    var s1 := State([], 1, Some(open), {"t"});
    var s2 := State([], 1, Some(done), {});
    var s3 := State([done], 1, None, {});
    assert StepLine(cfg, Init, lines[0]) == Ok(s0);
    var e1 := TestStringTime(TestStarted("t"), None, None);
    assert DecodeLine(cfg.decode, lines[1]) == Ok(e1);
    assert DurationNanos(cfg.clock, e1) == Ok(0);
    assert s0.(tests := s0.tests + {"t"}) == s1;
    assert StepTest(cfg, s0, TestStarted("t"), 0) == Ok(s1);
    assert StepLine(cfg, s0, lines[1]) == Ok(s1);
    var e2 := TestStringTime(TestOk("t"), None, None);
    assert DecodeLine(cfg.decode, lines[2]) == Ok(e2);
    assert DurationNanos(cfg.clock, e2) == Ok(0);
    assert "t" in s1.tests && s1.tests - {"t"} == {};
    assert AddCase(open, TestCase("t", "", 0, Success)) == done;
    assert StepTest(cfg, s1, TestOk("t"), 0) == Ok(s2);
    assert StepLine(cfg, s1, lines[2]) == Ok(s2);
    assert DecodeLine(cfg.decode, lines[3]) == Ok(Suite(SuiteOk(1, 0)));
    assert s2.(report := s2.report + [done], current := None) == s3;
    assert StepLine(cfg, s2, lines[3]) == Ok(s3);
    assert RunLines(cfg, s3, lines[4..]) == Ok(s3);
    assert RunLines(cfg, s2, lines[3..]) == Ok(s3);
    assert RunLines(cfg, s1, lines[2..]) == Ok(s3);
    assert RunLines(cfg, s0, lines[1..]) == Ok(s3);
  }

  /** A candidate line that decodes neither as it is nor repaired aborts the parse with a decode error. */
  lemma GarbageScenario(cfg: Config, line: string)
    requires IsCandidate(line)
    requires cfg.decode(line).Err? && cfg.decode(DoubleBackslashes(line)).Err?
    ensures ParseSpec(cfg, [line]) == Err(DecodeError(DoubleBackslashes(line), cfg.decode(line).error))
  {
  }
}
