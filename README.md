# NodUnit test runner, modelled in Dafny

NodUnit is a small test runner for Node.js, contained in `nodunit.js`. It
finds the `...Test.js` modules of a test directory and runs them one after the
other. For each module it:

- runs the optional `setup` hook;
- turns every `test*` function into a test case with a result record;
- runs each case, synchronously or asynchronously;
- attempts `teardown` whenever the module was loaded.

A function that declares no parameter is a synchronous case. It is wrapped in
the `beforeTest`/`afterTest` hooks. A function that declares a parameter is
asynchronous: it receives a completion callback and is completed by its
first call, whether that comes during the body or later. Until then the
case is pending, unless the body throws.

After the modules have been started, the `_check` watchdog scans the results
over and over:

- a pending case that has run for more than `ASYNC_TIMEOUT` (30000 ms) is failed with the error `"AsyncTimeout"`;
- the other pending cases are counted as still running;
- when none is running, `_done` totals the cases by status, adds up execution times and aborted suites, and exits with `failed || failed || aborted`.

The model consists of seven modules:

- `JsValues`: the JavaScript values the runner inspects. This covers truthiness, property reads, object literals and `substr`.
- `Errors`: the skip signal thrown by `assert.skip`, `formatTestCaseExceptionMessage` and `convertErrorToObject`.
- `Suites`: `runTestSuite` and `runTestCase`.
  - Each is a function specifying the record, the clock and the sequence of hook calls.
  - The loops of `runTestSuite` are the methods `RunCases` and `RunTestSuite`, proved equal to those functions.
  - The completion callback is the function `Callback`.
- `Watchdog`: the `_check` scan and the `_done` tally.
  - Each is a function, plus a nested-loop method (`Scan`, `Aggregate`) proved equal to it.
  - Lemmas cover finalization, totals and the exit code.
- `Runner`: `startTests` and the class `Run`. `Run` owns the accumulated results (`TEST_RESULTS`).
  - An asynchronous completion is the explicit event `Run.Complete`.
  - Each `process.nextTick(_check)` is the explicit event `Run.Check(now)`.
- `Discovery`: the test-file pattern `/^.*?Test.js/`, and the module path derived from a file name.
- `Scenarios`: whole runs of small modules.

Time is an input:

- every function of a test module carries the milliseconds its run takes;
- a run of a case or hook advances the clock by that many milliseconds;
- the events of `Run` take the current time as a parameter.

A thrown value is a `JsValue`. A test body that throws `null` or `undefined`
is modelled as the source behaves: reading `e.name` in the handler throws a
`TypeError` that leaves `runTestCase`. The suite is then aborted and its case
loop ends. A synchronous case stays pending until the watchdog times it out.
An asynchronous case keeps the result of a callback it made during its run,
or otherwise stays pending until a later callback or the timeout.

## Model

| member | source | states |
|---|---|---|
| Errors.SkipSignal | nodunit.js:88-93 | `assert.skip(m)` throws a truthy object that is not null. Its `name` is `'SkipTest'` and its `message` is `m`. |
| Errors.SkipSignalFormatsAsSkipReason | nodunit.js:88-93 | The message for any `assert.skip(m)` is the skip reason `m`. |
| Errors.FormatTestCaseExceptionMessage | nodunit.js:357-365 | An assertion message (with message, actual, operator, expected) is chosen iff the value is truthy and all four fields are defined. A skip reason (the `message`) is chosen iff the value is not assertion-shaped, is truthy and is named `'SkipTest'`. Otherwise the message is a plain exception of the value itself. |
| Errors.AssertionShapedSkipIsReportedAsAssertion | nodunit.js:328-329 | A `'SkipTest'` value that also has assertion fields is classified as skipped. Its message is nevertheless the assertion message. |
| Errors.ConvertErrorToObject | nodunit.js:371-385 | An error whose `stack` is falsy is returned unchanged. Otherwise the result is an object with `message`, `type` (defaulting to `'Error'`), the stack frames, `arguments`, and every enumerable property of the error, the latter winning. Its keys are exactly those names. Truthiness is preserved. |
| Suites.TestProps | nodunit.js:237-238 | The test-case properties are exactly the function-valued properties whose names start with `test`. |
| Suites.TestPropsAppend | nodunit.js:237-238 | The filter keeps enumeration order: filtering `a + b` gives the filtered `a` followed by the filtered `b`. |
| Suites.TestPropsOne | nodunit.js:237-238 | A single property is kept exactly when it is a test-case property. |
| Suites.Callback | nodunit.js:308-320 | The completion callback changes nothing unless the case is pending. If it is pending, the case becomes terminal and its execTime is now minus timeStart. It fails iff the error is truthy, recording the converted error, and otherwise succeeds. |
| Suites.ApplyCallbacks | nodunit.js:308-320 | Of several callback calls, only the first has an effect. |
| Suites.RunTestCase | nodunit.js:281-349 | A sync case whose `beforeTest` throws is only marked skipped, after that hook alone ran. Any other sync case: starts after `beforeTest` and is timed by its body; returning gives success; throwing the skip signal gives skipped; throwing any other value gives failed with that raw value as error; `afterTest` runs unless an exception escaped, and changes nothing. The next case starts when `beforeTest`, the body and `afterTest` have run (`beforeTest` alone when it throws). An async case: gets no hooks, starts at the current time, and its callbacks act. A later throw overwrites the status without the pending check (skipped for a skip signal, failed and that error otherwise). An exception escapes exactly when a nullish value is thrown past `beforeTest`. |
| Suites.CaseLoopFlags | nodunit.js:237-248 | The case loop keeps one async flag per record. |
| Suites.CaseLoopLengths | nodunit.js:237-248 | Every test-case property gets a record, up to and including the first case whose exception escapes; all of them get one if none escapes. |
| Suites.CaseLoopRecords | nodunit.js:237-246 | The records follow the test-case properties in enumeration order. Each is named after its property minus the first 4 characters, and is flagged async exactly when its function declares a parameter. |
| Suites.CaseLoopPending | nodunit.js:237-256 | Only the last record can belong to an escaping case, and it does exactly when the loop escaped. Only async cases or that one can be pending after the loop. |
| Suites.BeforeTestSkips | nodunit.js:284-294 | When `beforeTest` throws, every sync case is skipped and keeps timeStart 0, execTime 0 and no error. |
| Suites.EscapeSticks | nodunit.js:237-256 | Once an exception escaped the loop, the remaining properties add nothing. |
| Suites.SuiteName | nodunit.js:225 | The suite name of `<dir>/<base>Test` is `<base>`. |
| Suites.RunSuite | nodunit.js:224-228 | The record is named after the module path, with one async flag per case. |
| Suites.RunSuiteOutcomes | nodunit.js:223-268 | A module that fails to load is aborted, with no cases and no hooks. A throwing `setup` aborts the suite with no cases, and `teardown` still runs. Otherwise the records are the case loop's, started after `setup`, and the suite is aborted iff an exception escaped. A loaded module's `teardown` is the last call whenever it exists, and it leaves the record alone. |
| Suites.RunCases | nodunit.js:237-248 | The `for...in` loop pushes a fresh record per test property, runs the case on it and stops at an escape. It equals the case-loop specification. |
| Suites.RunTestSuite | nodunit.js:223-268 | The imperative suite run equals `RunSuite`. |
| Watchdog.ScanAll | nodunit.js:439-455 | One scan at `now` fails every pending case whose elapsed time is strictly over ASYNC_TIMEOUT, with `"AsyncTimeout"` and the elapsed time as execTime. Every other case and every suite's name and abort flag are unchanged. |
| Watchdog.ScanCases | nodunit.js:443-454 | The inner scan loop over one suite's cases computes their watched values and counts the pending cases not timed out. |
| Watchdog.Scan | nodunit.js:439-455 | The nested scan loop computes `ScanAll`, and its running count is the number of pending cases not timed out. |
| Watchdog.CasesOfScan | nodunit.js:442-455 | Scanning suite by suite equals watching the flattened cases, and the abort flags are kept. |
| Watchdog.PendingAfterWatch | nodunit.js:444-452 | After a scan, the pending cases are exactly those it counted as running. |
| Watchdog.NoPendingIffNoneCounted | nodunit.js:418-420 | No case is pending iff the pending count is 0. |
| Watchdog.StatusPartition | nodunit.js:408-421 | The four status counts add up to the number of cases. |
| Watchdog.ScanLeavesNoPending | nodunit.js:440-458 | A scan leaves no pending case iff it counted no running case. |
| Watchdog.Aggregate | nodunit.js:402-428 | The nested `_done` loops compute `Tally`: cases per terminal status (pending ones are not counted), the sum of all execTimes and the number of aborted suites. |
| Watchdog.TotalsAddUp | nodunit.js:404-432 | With nothing pending, success + failed + skipped equals the number of cases. |
| Watchdog.ExitCode | nodunit.js:434 | `failed \|\| failed \|\| aborted` is nonzero iff failed > 0 or aborted > 0. It equals failed when failed > 0 and aborted otherwise. |
| Watchdog.FinalTotals | nodunit.js:457-458 | When a scan counted no running case, nothing is pending afterwards. The totals then cover every case of every suite, count exactly the aborted suites, and give an exit code that is nonzero iff something failed or aborted. |
| Watchdog.ScanTwice | nodunit.js:439-455 | A second scan at the same time changes nothing. |
| Watchdog.ScanSettled | nodunit.js:444 | With no case pending, a scan changes nothing. |
| Runner.StartAll | nodunit.js:205-215 | `startTests` pushes one result per module, in order, each named after its module path. Callbacks exist only for recorded cases. |
| Runner.Run.Start | nodunit.js:205-215 | The runner state holds exactly the results and callback positions of `StartAll`, with no totals and no exit code yet. |
| Runner.StartAllResults | nodunit.js:205-209 | Result `i` is the record `runTestSuite` builds for module `i`, started when the modules before it have run. |
| Runner.StartAllCallbacks | nodunit.js:205-209 | Case `j` of suite `i` has a completion callback exactly when the run of that suite flagged it asynchronous. |
| Runner.Run.Complete | nodunit.js:308-320 | A completion callback applies `Callback` to its own case only, and it changes nothing when the case is already terminal. |
| Runner.Run.Check | nodunit.js:439-465 | A watchdog tick replaces the results with `ScanAll`. With no case running, it sets the totals to `Tally` and the exit code to `ExitCode`, and nothing is pending. `lastCount` is then unchanged. Otherwise it reschedules, with `lastCount` set to the running count. |
| Runner.LateCallbackIsNoOp | nodunit.js:309-320 | A callback that fires after the watchdog failed its case changes nothing. |
| Runner.CompletedIsNotTimedOut | nodunit.js:444-449 | A case completed by its callback is left alone by every later scan. |
| Discovery.MatchFrom | nodunit.js:180 | The lazy search from a position finds a match iff the pattern matches at or after it. |
| Discovery.IsTestFile | nodunit.js:180 | `/^.*?Test.js/.test(file)` holds iff `Test`, one non-line-terminator character and `js` occur with no line terminator before them. |
| Discovery.ModulePath | nodunit.js:181 | The module path is the file name without its last three characters. |
| Discovery.TestFileIsNamedAfterBase | nodunit.js:180-181 | `<dir>/<base>Test.js` is a test file, and its suite is named `<base>`. |
| Discovery.UnescapedDotMatches | nodunit.js:180-181 | `aTest_js.txt` also matches, and its module path is cut three characters short. |
| Discovery.LowerCaseIsNotMatched | nodunit.js:180 | The pattern is case-sensitive. |
| Scenarios.PassAndFail | nodunit.js:321-339 | A module with a passing and a throwing sync case gives one success, one failure carrying the thrown error, no abort, and exit code 1. |
| Scenarios.SetupThrows | nodunit.js:235-265 | A throwing `setup` aborts the suite with no case recorded, and `teardown` still runs. |
| Scenarios.AsyncSuccess | nodunit.js:306-320 | An async case stays pending until its callback without an error makes it a success, timed from its start. Later scans keep it. |
| Scenarios.AsyncTimeout | nodunit.js:439-452 | An async case that never calls back is still running at exactly ASYNC_TIMEOUT, and one millisecond later is failed with the timeout error. |
| Scenarios.CallbackThenThrow | nodunit.js:308-335 | An async case that calls back without an error and then throws ends failed with the thrown value. |

## Left out

- Suites.RunTestCase: every callback call made during an asynchronous body is delivered at the end of the body, so its execTime is the body's whole duration. In the source the clock is read at the call itself.
- Discovery.IsTestFile: file names are sequences of Unicode scalar values. JavaScript's regular expression without the `u` flag works on UTF-16 code units, so a character outside the Basic Multilingual Plane right after `Test` matches the `.` here but not in the source.
- Discovery.ModulePath: it removes the last three Unicode scalar values, where `substr` removes three UTF-16 code units. The two differ when those characters include one outside the Basic Multilingual Plane.
- Suites.SuiteName: its `substr` counts Unicode scalar values, not UTF-16 code units, and differs from the source for paths with characters outside the Basic Multilingual Plane.
- Directory scanning (nodunit.js:165-197) is left out. It is asynchronous file-system I/O; the list of modules is an input of `Runner.StartAll`. In the source, a file that is neither a directory nor a test file does not call `next()`, so the scan stops there. The model does not describe that stall.
- Output is left out. This covers `log`/`logln`, console warnings, the status words printed per case, and the text formatting: `util.format`, `%d` rendering, and the strings around the parts of `Errors.CaseMessage`.
- The `uncaughtException` and `exit` process handlers and their JSON log file (nodunit.js:100-119) are left out; they are process plumbing.
- `require`, `Function.length`, the `for...in` order and the wall clock are inputs. They are, respectively, a `Load` value, the `arity` field, the order of `Module.props` and explicit times. A module's property names are assumed distinct, as on a JavaScript object; `Suites.Lookup` takes the first one.
- `process.nextTick` is modelled as repeated calls of `Runner.Run.Check`. `process.exit` is modelled as the `exitCode` field; once it is set, neither event may happen again.
- The split of `err.stack` at nodunit.js:376 is the parameter `frames`.
- A `stack` that is truthy but not a string, so that `split` would throw, is not modelled.
- The loose `==` in `e.name == 'SkipTest'` is modelled as equality with the string. A non-string `name` that converts to `'SkipTest'` is not modelled.
- Numbers are integers. Floating point, `NaN` and the date arithmetic are not modelled.
- The operating system's 8-bit truncation of the exit status is outside the source. `Watchdog.ExitCode` is the value passed to `process.exit`.
- Result records are values owned by `Runner.Run`, not shared objects. The completion callback reaches its record by its (suite, case) position; this stands for the closure's reference.
- The unused `TEST_STATUS_RUNNING` status and the spelling of the success status string (nodunit.js:67-68) are left out. Statuses are the datatype `Suites.Status`.
- `Errors.FormatTestCaseExceptionMessage`: only the choice between the three messages and their parts is stated, not the rendered text.
- `Watchdog.Scan`: each scan takes a single `now`, as the source reads the clock once per scan (nodunit.js:441).
