/** The report handed to the XML serializer: suites of test cases, in the order they were completed. */
module JUnit {

  /** The instant a parse started, shared by every suite of one report (an opaque value here). */
  type Timestamp = int

  /** How a test case ended. A failure carries the failure type, its message and the captured output. */
  datatype Verdict =
    | Success
    | Failure(kind: string, message: string, systemOut: string)

  /** One test case: short name, classname (the module path), duration in nanoseconds, verdict. */
  datatype TestCase = TestCase(name: string, classname: string, nanos: int, verdict: Verdict)

  datatype TestSuite = TestSuite(name: string, timestamp: Timestamp, cases: seq<TestCase>)

  datatype Report = Report(suites: seq<TestSuite>)

  /** Number of test cases across a sequence of suites. */
  function CaseCount(suites: seq<TestSuite>): nat {
    if suites == [] then 0 else CaseCount(suites[..|suites| - 1]) + |suites[|suites| - 1].cases|
  }
}
