# cargo2junit: the event-stream parser, modelled in Dafny

cargo2junit reads the machine-readable output of `cargo test` (one JSON
event per line), checks it against the suite/test lifecycle, and builds a
JUnit report. This project models its core, the `parse` function of
`src/main.rs` and its helpers, and proves properties of that model.

Each line goes through four steps:

- **Filter.** Only lines whose first non-whitespace character is `{` are
  considered (`Text.IsCandidate`).
- **Decode.** The line is decoded into an `Events.Event`. If that fails, it is
  decoded once more with every backslash doubled (`Lifecycle.DecodeLine`).
- **Dispatch.** The event is checked against the suite and test lifecycle
  (`Lifecycle.StepEvent`). The `assert!`, `expect` and `panic!` of the source
  become values of `Lifecycle.ParseError`.
- **Record.** Test ok and test failed events append a case to the open suite.
  The case is named by `split_name` (`Text.SplitName`). For a failure, the
  captured output is merged and middle-truncated (`Text.MergeOutput`,
  `Text.Truncate`).

The model comes in two layers:

- **Specification functions** on a `Lifecycle.State` value: `StepEvent`,
  `StepLine`, `RunLines` and `ParseSpec`.
- **Imperative parser.** `Interpreter.Parser` keeps the four variables of
  `parse` as fields: `report`, `suiteIndex`, `currentSuite` and the in-flight
  set `tests`. Its `Step` method updates them for one line. `Interpreter.Parse`
  runs `Step` over every line. Both are proved equal to the specification
  functions, and both keep the state invariant `Lifecycle.Wf`.

Modules:

- `Wrappers`: Option, Result and Outcome.
- `Text`: the line filter, backslash doubling, `split_name`, decimal
  rendering, and output merge and truncation.
- `Events`: the event datatype and the duration-field choice of
  `get_duration`.
- `JUnit`: the report records.
- `Lifecycle`: the state machine as functions.
- `Interpreter`: the class and the loop.
- `TextProperties`, `EventsProperties` and `LifecycleProperties`: the lemmas.

The caller supplies everything that is foreign code in the source, through
`Lifecycle.Config`:

- JSON decoding of a line, as a function that returns an event or the
  decoder's error text.
- ANSI escape stripping with lossy UTF-8 decoding, as a function that may
  fail.
- The floating-point duration conversions (`Events.Clock`).
- The suite-name prefix, the timestamp and the output budget.

## Behaviour worth knowing

- An input that ends while a suite is still open parses successfully
  (src/main.rs:276). The open suite and its cases are silently left out of
  the report (`Lifecycle.ParseSpec`, `LifecycleProperties.ParseCaseCount`).
- Truncation keeps `maxLen / 2` characters at each end (src/main.rs:237-247).
  A truncated output therefore has length `2 * (maxLen / 2) + 19`, which
  exceeds `maxLen` (`TextProperties.TruncateSpec`,
  `TextProperties.TruncateBound`).
- An ignored test only leaves the in-flight set and records no case
  (src/main.rs:260-262, `LifecycleProperties.InFlightDiscipline`).
- `split("::")` cuts at non-overlapping occurrences found from left to right
  (src/main.rs:118). So `a:::b` gives the name `:b` and the path `a`
  (`TextProperties.SplitNameLeftmost`).

## Model

| member | source | states |
|---|---|---|
| `Text.FirstNonWhitespace` | src/main.rs:138 | none exactly when every character is whitespace; otherwise the character at the first non-whitespace position |
| `TextProperties.CandidateIff` | src/main.rs:138-140 | a line is considered iff it has a `{` preceded only by whitespace (both directions) |
| `TextProperties.IndentedCandidate` | src/main.rs:138-140 | a `{` line stays a candidate under any whitespace indentation |
| `Text.DoubleBackslashes` | src/main.rs:147 | output length is input length plus the number of backslashes; backslashes double; a backslash-free line is unchanged |
| `TextProperties.UnescapeDoubled` | src/main.rs:146-148 | reading each `\\` of the repaired line as one backslash gives back the original line |
| `LifecycleProperties.DecodeFallback` | src/main.rs:143-156 | decoding succeeds iff the line or its doubled form decodes, and the line itself is preferred; on failure the error holds the doubled line and the first error; for a backslash-free line the retry cannot change the verdict |
| `Text.Split` | src/main.rs:118 | at least one piece; the first piece is a prefix of the identifier; no piece contains `::` |
| `TextProperties.SplitFirstCut` | src/main.rs:118 | with two or more pieces the first cut is the leftmost `::`: a separator follows the first piece, and none occurs before it |
| `TextProperties.SplitNameLeftmost` | src/main.rs:117-122 | `a:::b` has the name `:b` and the path `a` |
| `TextProperties.JoinSplit` | src/main.rs:117-122 | joining the pieces with `::` gives the identifier back |
| `TextProperties.JoinCons` | src/main.rs:120 | a piece in front of at least one other is followed by `::` in the join |
| `TextProperties.JoinPrepend` | src/main.rs:120 | a character in front of the first piece comes first in the join |
| `TextProperties.JoinSnoc` | src/main.rs:119-120 | the joined path, then `::`, then the popped last piece, equals the join of all pieces |
| `TextProperties.JoinHasSeparator` | src/main.rs:120 | two or more joined pieces have `::` right after the first piece |
| `TextProperties.SplitOnePieceIff` | src/main.rs:118 | the split has a single piece iff the identifier has no `::` |
| `TextProperties.SplitNameSpec` | src/main.rs:117-122 | the name never contains `::`; without `::` the name is the identifier and the path is empty (iff); otherwise path + `::` + name is the identifier |
| `LifecycleProperties.FailureMessageForm` | src/main.rs:254 | the failure message is `failed <identifier>` with a module path, and `failed ::<identifier>` without one |
| `Text.Decimal` | src/main.rs:164 | the rendered counter is non-empty, all digits, with no leading zero |
| `TextProperties.DecimalValueSnoc` | src/main.rs:164 | appending a digit multiplies the value by ten and adds the digit |
| `TextProperties.DecimalRoundTrip` | src/main.rs:164 | reading back the rendered counter gives the counter |
| `TextProperties.DecimalInjective` | src/main.rs:164 | distinct counters render differently |
| `LifecycleProperties.SuiteNameInjective` | src/main.rs:164 | `"<prefix> #<k>"` determines k |
| `Text.MergeOutput` | src/main.rs:226-235 | the result starts with stdout and ends with stderr; one newline separates them when both are non-empty, and nothing else is added |
| `TextProperties.TruncateSpec` | src/main.rs:237-247 | at most `maxLen` characters: unchanged; longer: head `maxLen/2`, then the marker, then the tail `maxLen/2`, for a length of `2*(maxLen/2)+19` |
| `TextProperties.TruncateBound` | src/main.rs:237-247 | the result is never longer than `maxLen + 19` (it can exceed `maxLen`) |
| `TextProperties.TruncateKeepsEnds` | src/main.rs:237-247 | for `maxLen >= 2`, a truncated output keeps its first and its last character |
| `TextProperties.TruncateIdempotent` | src/main.rs:237-247 | truncating a truncated output changes nothing |
| `EventsProperties.ExecTimeWins` | src/main.rs:87-109 | with `exec_time` present, it is the chosen field, and `duration` has no effect |
| `EventsProperties.MillisOtherwise` | src/main.rs:94-95 | without `exec_time`, milliseconds are used; with neither field the duration is 0 |
| `EventsProperties.DurationFailsOnlyOnText` | src/main.rs:88-92 | the duration fails iff a string `exec_time` lacks the `s` suffix or does not parse |
| `EventsProperties.SecondsShapesAgree` | src/main.rs:88-92 | `"<x>s"` as a string and x as a number give the same duration |
| `EventsProperties.MillisShapesAgree` | src/main.rs:94-95 | without `exec_time` the two test shapes are timed alike |
| `LifecycleProperties.NonCandidateSkipped` | src/main.rs:138-140 | a non-candidate line leaves the whole state, report included, unchanged |
| `LifecycleProperties.SuiteStartedRule` | src/main.rs:161-168 | error if a suite is open or tests are in flight; otherwise opens an empty suite `"<prefix> #<k>"` with k the earlier starts, stamped with the timestamp, and counts it |
| `LifecycleProperties.SuiteOkFailedAlike` | src/main.rs:169 | suite ok and suite failed have the same effect, whatever their counts |
| `LifecycleProperties.SuiteCompletedRule` | src/main.rs:169-175 | error iff tests are in flight or no suite is open; otherwise the open suite is appended after the sealed ones and closed |
| `LifecycleProperties.StepLineReportGrows` | src/main.rs:171-174 | one line either leaves the report alone or appends the open suite |
| `LifecycleProperties.RunLinesReportGrows` | src/main.rs:135-175 | sealed suites are never changed: the report so far is a prefix of the final one |
| `LifecycleProperties.TestEventNeedsSuite` | src/main.rs:187-191 | a test event outside a suite is an error, and so is an unreadable `exec_time` |
| `LifecycleProperties.InFlightDiscipline` | src/main.rs:194-270 | started fails iff the name is in flight, else inserts it; ok and ignored fail iff the name is not in flight; failed fails iff the name is not in flight or a stream does not sanitize; a successful resolution removes the name; ignored records nothing; timeout changes nothing |
| `LifecycleProperties.CaseRecording` | src/main.rs:197-262 | ok and failed append exactly one case: `split_name`'s name and path, the event's duration, success iff ok; other test events leave the suites alone |
| `LifecycleProperties.FailureCaseContent` | src/main.rs:204-258 | a failure case has type `cargo test`, message `failed <path>::<name>`, and the truncated merge of the sanitized streams |
| `LifecycleProperties.InitWf` | src/main.rs:130-133 | the initial state satisfies the invariant |
| `LifecycleProperties.StepEventPreservesWf` | src/main.rs:159-273 | each event keeps the invariant: tests in flight only inside an open suite; k-th suite named `#k` with the timestamp; the counter is sealed plus open suites |
| `LifecycleProperties.StepLinePreservesWf` | src/main.rs:135-274 | each line keeps the invariant |
| `LifecycleProperties.RunLinesPreservesWf` | src/main.rs:135-274 | a whole input keeps the invariant |
| `LifecycleProperties.SuiteNamesDistinct` | src/main.rs:164-167 | under the invariant, no two sealed suites share a name and all carry the timestamp |
| `LifecycleProperties.RunFromInit` | src/main.rs:124-277 | a parse that succeeds ends in a well-formed state whose suite names are distinct |
| `LifecycleProperties.CaseCountSnoc` | src/main.rs:171 | sealing a suite adds its cases to the report's case count |
| `LifecycleProperties.StepEventCases` | src/main.rs:197-262 | each event adds one case if it is test ok or failed, otherwise none |
| `LifecycleProperties.RunLinesCases` | src/main.rs:135-274 | on success every candidate line decoded, and the cases grow by the number of ok and failed events |
| `LifecycleProperties.ParseCaseCount` | src/main.rs:124-277 | the report has at most one case per ok or failed event, exactly one when no suite is left open |
| `LifecycleProperties.SingleTestScenario` | src/main.rs:124-277 | suite started, test started, test ok, suite ok: one suite `#0` with one successful case `t`, classname `""`, duration 0 |
| `LifecycleProperties.GarbageScenario` | src/main.rs:338-341 | a candidate line that does not decode, even repaired, yields a decode error and no report |
| `Text.IsCandidate` | src/main.rs:138 | the filter predicate; `TextProperties.CandidateIff` states it both ways |
| `Text.SplitName` | src/main.rs:117-122 | `split_name`; `TextProperties.SplitNameSpec` and `TextProperties.SplitNameLeftmost` state its properties |
| `Text.Join` | src/main.rs:120 | `parts.join("::")`; `TextProperties.JoinSplit`, `JoinSnoc` and `JoinHasSeparator` state its properties |
| `Text.Truncate` | src/main.rs:237-247 | the middle truncation; `TextProperties.TruncateSpec`, `TruncateBound`, `TruncateKeepsEnds` and `TruncateIdempotent` state its properties |
| `Events.ChosenTimeField` | src/main.rs:87-109 | the field `get_duration` reads; `EventsProperties.ExecTimeWins` and `MillisOtherwise` state the priority |
| `Events.FieldNanos` | src/main.rs:88-94 | one field in nanoseconds, failing on a bad `exec_time` string; `EventsProperties.DurationFailsOnlyOnText` and `SecondsShapesAgree` state it |
| `Events.DurationNanos` | src/main.rs:79-114 | `get_duration`; `EventsProperties.MillisOtherwise`, `ExecTimeWins`, `DurationFailsOnlyOnText` and `MillisShapesAgree` state it |
| `Lifecycle.SuiteName` | src/main.rs:164 | `"<prefix> #<k>"`; `LifecycleProperties.SuiteNameInjective` states that it determines k |
| `Lifecycle.FailureMessage` | src/main.rs:254 | `"failed <path>::<name>"`; `LifecycleProperties.FailureMessageForm` states both forms |
| `Lifecycle.DecodeLine` | src/main.rs:143-156 | decode with one repaired retry; `LifecycleProperties.DecodeFallback` states it |
| `Lifecycle.Sanitized` | src/main.rs:211-224 | an absent stream is empty, a present one is stripped or fails; `LifecycleProperties.InFlightDiscipline` and `FailureCaseContent` state its use |
| `Lifecycle.StepTest` | src/main.rs:193-271 | one test event in an open suite; `LifecycleProperties.InFlightDiscipline`, `CaseRecording` and `FailureCaseContent` state it |
| `Lifecycle.StepEvent` | src/main.rs:159-273 | one decoded event; `LifecycleProperties.SuiteStartedRule`, `SuiteCompletedRule`, `SuiteOkFailedAlike`, `TestEventNeedsSuite`, `StepEventCases` and `StepEventPreservesWf` state it |
| `Lifecycle.StepLine` | src/main.rs:135-274 | filter, decode, dispatch of one line; `LifecycleProperties.NonCandidateSkipped`, `StepLineReportGrows` and `StepLinePreservesWf` state it |
| `Lifecycle.RunLines` | src/main.rs:135-274 | all lines, stopping at the first error; `LifecycleProperties.RunLinesReportGrows`, `RunLinesPreservesWf` and `RunLinesCases` state it |
| `Lifecycle.ParseSpec` | src/main.rs:124-277 | the report of the sealed suites or the first error; `LifecycleProperties.ParseCaseCount`, `RunFromInit`, `SingleTestScenario` and `GarbageScenario` state it |
| `Interpreter.Parser.constructor` | src/main.rs:130-133 | a new parser: empty report, counter 0, no open suite, nothing in flight |
| `Interpreter.Parser.Step` | src/main.rs:135-274 | one line: the fields become `StepLine` of the old fields; on error the error is returned and nothing changes; the invariant is kept |
| `Interpreter.Parse` | src/main.rs:124-277 | the loop over all lines returns exactly `ParseSpec`; on success suite names are distinct and all share the timestamp |

## Left out

- Reading lines from a `BufRead` and its I/O errors (`line?`): the model takes the lines as a sequence.
- JSON decoding (serde, the untagged and tagged enum matching): a caller-supplied function `Config.decode`. The model does not say which JSON texts decode to which events.
- `strip_ansi_escapes::strip` and `String::from_utf8_lossy`: a caller-supplied function `Config.sanitize`. Its failure is the `?` error of the source.
- Floating-point time arithmetic (`f64` multiplication, the `as i64` cast, `parse::<f64>()`): abstract functions in `Events.Clock`. JSON numbers are represented by their real values.
- The text model counts sequence elements where the source counts UTF-8 bytes. So `split_at` panicking inside a multi-byte character is not modelled.
- `junit_report`'s builders and `write_xml`: replaced by the records of module `JUnit`. XML serialization is not modelled.
- The suite counter: `suite_index` is an inferred `i32` (src/main.rs:131, incremented at 167) that overflows after 2^31 - 1 suites; the model's counter is an unbounded `nat` and never overflows.
- `main`: stdin/stdout locking, `Utc::now()` for the timestamp, and reading `TEST_STDOUT_MAX_LEN` (otherwise 65536). The model takes prefix, timestamp and budget as parameters.
- The test module: it compares XML against fixture files that are not part of this model. Its `error_on_garbage` case appears as `LifecycleProperties.GarbageScenario`.
- Interpreter.Parser.Step: on a failed test whose output stripping fails, the source has already removed the name from the in-flight set when it returns the error. The model leaves the state unchanged on every error. The parse aborts either way, so no report can tell the two apart.
