/** Running one test module: discovering its `test*` functions, running
    each case synchronously or asynchronously, and the suite-level hooks
    (`runTestSuite`, `runTestCase` and its completion callback). */
module Suites {
  import opened JsValues
  import opened Errors

  /** The status of a test case; every status but `Pending` is terminal. */
  datatype Status = Pending | Success | Failed | Skipped

  /** The result record of one test case. `error` is absent until a failure
      sets it. */
  datatype CaseResult = CaseResult(
    testCase: string,
    status: Status,
    timeStart: int,
    execTime: int,
    error: Option<JsValue>)

  /** The result record of one test module. */
  datatype SuiteResult = SuiteResult(moduleName: string, tests: seq<CaseResult>, aborted: bool)

  /** How the synchronous run of a function ends. */
  datatype Outcome = Returns | Throws(thrown: JsValue)

  /** A function-valued property of a test module: its declared number of
      parameters, how its synchronous run ends, the error arguments of the
      calls it makes to the completion callback during that run (only an
      asynchronous case is passed one), and the milliseconds the run takes. */
  datatype Fn = Fn(arity: nat, outcome: Outcome, callbacks: seq<JsValue>, duration: nat)

  datatype PropValue = Data(v: JsValue) | Func(f: Fn)

  datatype Prop = Prop(name: string, value: PropValue)

  /** A loaded test module: its properties in enumeration order. */
  datatype Module = Module(props: seq<Prop>)

  /** What `require(module)` does: throw, or give the module. */
  datatype Load = LoadFailed(error: JsValue) | Loaded(m: Module)

  // ---------------------------------------------------------------------
  // Properties and hooks

  /** `tObj[name]`: the value of the first property with that name. */
  function Lookup(props: seq<Prop>, name: string): (r: Option<PropValue>)
    ensures r.Some? <==> exists i :: 0 <= i < |props| && props[i].name == name
    ensures r.Some? ==> exists i :: 0 <= i < |props| && props[i] == Prop(name, r.value)
  {
    if props == [] then None
    else if props[0].name == name then Some(props[0].value)
    else
      var r := Lookup(props[1..], name);
      assert forall i :: 0 <= i < |props[1..]| ==> props[1..][i] == props[i + 1];
      r
  }

  /** A hook runs only when the module's property of that name is a function. */
  function Hook(m: Module, name: string): Option<Fn> {
    match Lookup(m.props, name)
    case Some(Func(f)) => Some(f)
    case _ => None
  }

  predicate HookThrows(m: Module, name: string) {
    Hook(m, name).Some? && Hook(m, name).value.outcome.Throws?
  }

  /** The hook's name as a call, if it is run. */
  function HookCalls(m: Module, name: string): seq<string> {
    if Hook(m, name).Some? then [name] else []
  }

  /** The time a hook's run takes, if it is run. */
  function HookTime(m: Module, name: string): nat {
    if Hook(m, name).Some? then Hook(m, name).value.duration else 0
  }

  /** A property is a test case when its name starts with `test` and its value is a function. */
  predicate IsTestProp(p: Prop) {
    StartsWith(p.name, "test") && p.value.Func?
  }

  /** The test-case properties of `ps`, in enumeration order. */
  function TestProps(ps: seq<Prop>): (r: seq<Prop>)
    ensures |r| <= |ps|
    ensures forall j :: 0 <= j < |r| ==> IsTestProp(r[j]) && r[j] in ps
    ensures forall p :: p in ps && IsTestProp(p) ==> p in r
    decreases |ps|
  {
    if ps == [] then []
    else
      var last := ps[|ps| - 1];
      var init := ps[..|ps| - 1];
      assert ps == init + [last];
      TestProps(init) + (if IsTestProp(last) then [last] else [])
  }

  /** The filter keeps the enumeration order: filtering two runs of
      properties one after the other filters each in turn. */
  lemma {:induction false} TestPropsAppend(a: seq<Prop>, b: seq<Prop>)
    ensures TestProps(a + b) == TestProps(a) + TestProps(b)
    decreases |b|
  {
    if b == [] {
      assert a + b == a;
    } else {
      var init := b[..|b| - 1];
      assert (a + b)[..|a + b| - 1] == a + init;
      assert (a + b)[|a + b| - 1] == b[|b| - 1];
      TestPropsAppend(a, init);
    }
  }

  /** A single property is kept exactly when it is a test-case property. */
  lemma TestPropsOne(p: Prop)
    ensures TestProps([p]) == if IsTestProp(p) then [p] else []
  {
    assert [p][..0] == [];
  }

  /** The record a discovered case starts with: the property name minus its
      `test` prefix, pending, no start time and no execution time yet. */
  function NewCase(name: string): CaseResult {
    CaseResult(Drop(name, 4), Pending, 0, 0, None)
  }

  // ---------------------------------------------------------------------
  // One test case

  /** The completion callback of an asynchronous case, called with `err` at
      time `now`. It acts only on a pending case: a truthy error fails it with
      the normalised error, anything else makes it a success, and either way
      its execution time is measured from its start. */
  function Callback(r: CaseResult, err: JsValue, now: int, frames: JsValue -> JsValue): (r': CaseResult)
    ensures r.status != Pending ==> r' == r
    ensures r.status == Pending ==>
      && r'.status != Pending
      && r'.testCase == r.testCase && r'.timeStart == r.timeStart
      && r'.execTime == now - r.timeStart
      && (r'.status == Failed <==> Truthy(err))
      && (r'.status == Success <==> !Truthy(err))
      && r'.error == if Truthy(err) then Some(ConvertErrorToObject(err, frames)) else r.error
  {
    if r.status == Pending then
      var completed :=
        if Truthy(err) then r.(status := Failed, error := Some(ConvertErrorToObject(err, frames)))
        else r.(status := Success);
      completed.(execTime := now - r.timeStart)
    else
      r
  }

  /** The completion callback called once per error in `errs`, all at `now`. */
  function ApplyCallbacks(r: CaseResult, errs: seq<JsValue>, now: int, frames: JsValue -> JsValue): (r': CaseResult)
    ensures errs == [] ==> r' == r
    ensures errs != [] ==> r' == Callback(r, errs[0], now, frames)
    decreases |errs|
  {
    if errs == [] then r
    else ApplyCallbacks(Callback(r, errs[0], now, frames), errs[1..], now, frames)
  }

  /** What `runTestCase` leaves behind: the case's record, the clock, the
      module functions it called (by property name), and whether an
      exception escaped it. */
  datatype CaseRun = CaseRun(result: CaseResult, clock: int, calls: seq<string>, escaped: bool)

  /** The case's run ends in an exception that leaves `runTestCase`: the body
      threw `null` or `undefined`, and reading `e.name` in the handler throws
      in turn. A synchronous case gets there only past its `beforeTest`. */
  predicate EscapesCase(m: Module, f: Fn) {
    && f.outcome.Throws? && Nullish(f.outcome.thrown)
    && (f.arity != 0 || !HookThrows(m, "beforeTest"))
  }

  /** The handler around the body: a return makes a synchronous case a
      success; a skip signal makes the case skipped; any other non-nullish
      value makes it failed with that raw value as its error; a nullish value
      leaves the record alone and escapes. */
  function Settle(r: CaseResult, o: Outcome, async: bool): (CaseResult, bool) {
    match o
    case Returns => (if async then r else r.(status := Success), false)
    case Throws(e) =>
      if Nullish(e) then (r, true)
      else if IsSkipSignal(e) then (r.(status := Skipped), false)
      else (r.(status := Failed, error := Some(e)), false)
  }

  /** `runTestCase(module, tObj, tc, result)` at time `t`. A case whose
      function declares no parameter is synchronous and is wrapped in the
      `beforeTest`/`afterTest` hooks; any other is asynchronous, is passed the
      completion callback and is left to complete later. */
  function RunTestCase(m: Module, tc: string, f: Fn, r: CaseResult, t: int, frames: JsValue -> JsValue): (cr: CaseRun)
    ensures cr.result.testCase == r.testCase
    ensures cr.escaped == EscapesCase(m, f)
    // a synchronous case whose beforeTest throws is skipped and nothing else runs
    ensures f.arity == 0 && HookThrows(m, "beforeTest") ==>
      cr.result == r.(status := Skipped) && cr.calls == ["beforeTest"]
      && cr.clock == t + HookTime(m, "beforeTest")
    // otherwise a synchronous case runs its body and is timed
    ensures f.arity == 0 && !HookThrows(m, "beforeTest") ==>
      && cr.result.timeStart == t + HookTime(m, "beforeTest")
      && cr.result.execTime == f.duration
      && cr.clock == t + HookTime(m, "beforeTest") + f.duration + (if cr.escaped then 0 else HookTime(m, "afterTest"))
      && cr.calls == HookCalls(m, "beforeTest") + [tc] + (if cr.escaped then [] else HookCalls(m, "afterTest"))
      && (f.outcome.Returns? ==> cr.result.status == Success && cr.result.error == r.error)
      && (f.outcome.Throws? && !Nullish(f.outcome.thrown) && IsSkipSignal(f.outcome.thrown) ==>
            cr.result.status == Skipped && cr.result.error == r.error)
      && (f.outcome.Throws? && !Nullish(f.outcome.thrown) && !IsSkipSignal(f.outcome.thrown) ==>
            cr.result.status == Failed && cr.result.error == Some(f.outcome.thrown))
      && (cr.escaped ==> cr.result.status == r.status)
    ensures f.arity == 0 && !cr.escaped ==> cr.result.status != Pending
    // an asynchronous case: no hooks, started at t, completed only by its callback
    ensures f.arity > 0 ==>
      && cr.calls == [tc]
      && cr.result.timeStart == t
      && cr.clock == t + f.duration
      && var called := ApplyCallbacks(r.(timeStart := t), f.callbacks, t + f.duration, frames);
         && (f.outcome.Returns? || cr.escaped ==> cr.result == called)
         && (f.outcome.Throws? && !Nullish(f.outcome.thrown) ==>
               && cr.result.execTime == called.execTime
               && cr.result.status == (if IsSkipSignal(f.outcome.thrown) then Skipped else Failed)
               && cr.result.error ==
                    (if IsSkipSignal(f.outcome.thrown) then called.error else Some(f.outcome.thrown)))
  {
    var async := f.arity != 0;
    var before := Hook(m, "beforeTest");
    if !async && before.Some? && before.value.outcome.Throws? then
      CaseRun(r.(status := Skipped), t + before.value.duration, ["beforeTest"], false)
    else
      var t1 := if async then t else t + HookTime(m, "beforeTest");
      var calls := if async then [] else HookCalls(m, "beforeTest");
      var started := r.(timeStart := t1);
      var t2 := t1 + f.duration;
      var called := if async then ApplyCallbacks(started, f.callbacks, t2, frames) else started;
      var settled := Settle(called, f.outcome, async);
      var finished := if async then settled.0 else settled.0.(execTime := t2 - t1);
      if !async && !settled.1 && Hook(m, "afterTest").Some? then
        CaseRun(finished, t2 + HookTime(m, "afterTest"), calls + [tc, "afterTest"], false)
      else
        CaseRun(finished, t2, calls + [tc], settled.1)
  }

  // ---------------------------------------------------------------------
  // One test module

  /** The state of the case loop of `runTestSuite`: the records appended so
      far, whether each of those cases was handed a completion callback, the
      clock, the module functions called, and whether an exception escaped. */
  datatype Loop = Loop(tests: seq<CaseResult>, async: seq<bool>, clock: int, calls: seq<string>, escaped: bool)

  /** One turn of the case loop: a test-case property gets a fresh record,
      appended before its case is run, and is run at the current clock. */
  function CaseStep(m: Module, st: Loop, p: Prop, frames: JsValue -> JsValue): Loop {
    if IsTestProp(p) then
      var cr := RunTestCase(m, p.name, p.value.f, NewCase(p.name), st.clock, frames);
      Loop(st.tests + [cr.result], st.async + [p.value.f.arity != 0], cr.clock, st.calls + cr.calls, cr.escaped)
    else
      st
  }

  /** The case loop over the properties `ps`, started at `t0`; an escaping
      exception ends it. */
  function CaseLoop(m: Module, ps: seq<Prop>, t0: int, frames: JsValue -> JsValue): Loop
    decreases |ps|
  {
    if ps == [] then Loop([], [], t0, [], false)
    else
      var prev := CaseLoop(m, ps[..|ps| - 1], t0, frames);
      if prev.escaped then prev else CaseStep(m, prev, ps[|ps| - 1], frames)
  }

  /** The loop keeps one callback flag per record. */
  lemma {:induction false} CaseLoopFlags(m: Module, ps: seq<Prop>, t0: int, frames: JsValue -> JsValue)
    ensures |CaseLoop(m, ps, t0, frames).tests| == |CaseLoop(m, ps, t0, frames).async|
    decreases |ps|
  {
    if ps != [] {
      CaseLoopFlags(m, ps[..|ps| - 1], t0, frames);
    }
  }

  /** Every test-case property gets a record, up to and including the first
      whose run escapes. */
  lemma {:induction false} CaseLoopLengths(m: Module, ps: seq<Prop>, t0: int, frames: JsValue -> JsValue)
    ensures var st := CaseLoop(m, ps, t0, frames);
      && |st.tests| <= |TestProps(ps)|
      && (!st.escaped ==> |st.tests| == |TestProps(ps)|)
      && (st.escaped ==> |st.tests| > 0)
    decreases |ps|
  {
    if ps != [] {
      var init := ps[..|ps| - 1];
      CaseLoopLengths(m, init, t0, frames);
      assert ps == init + [ps[|ps| - 1]];
    }
  }

  /** The records follow the test-case properties in enumeration order: each
      is named after its property without the `test` prefix, and is flagged
      asynchronous exactly when its function declares a parameter. */
  lemma {:induction false} CaseLoopRecords(m: Module, ps: seq<Prop>, t0: int, frames: JsValue -> JsValue)
    ensures var st := CaseLoop(m, ps, t0, frames);
      forall j :: 0 <= j < |st.tests| ==>
        && j < |st.async| && j < |TestProps(ps)|
        && st.tests[j].testCase == Drop(TestProps(ps)[j].name, 4)
        && st.async[j] == (TestProps(ps)[j].value.f.arity != 0)
    decreases |ps|
  {
    if ps != [] {
      var init := ps[..|ps| - 1];
      CaseLoopRecords(m, init, t0, frames);
      CaseLoopFlags(m, init, t0, frames);
      CaseLoopLengths(m, init, t0, frames);
      assert ps == init + [ps[|ps| - 1]];
      assert forall j :: 0 <= j < |TestProps(init)| ==> TestProps(ps)[j] == TestProps(init)[j];
    }
  }

  /** Only the last record can belong to a case whose exception escaped, and
      it does exactly when the loop escaped; only an asynchronous case or that
      one can still be pending when the loop ends. */
  lemma {:induction false} CaseLoopPending(m: Module, ps: seq<Prop>, t0: int, frames: JsValue -> JsValue)
    ensures var st := CaseLoop(m, ps, t0, frames);
      forall j :: 0 <= j < |st.tests| && j < |st.async| && j < |TestProps(ps)| ==>
        && (EscapesCase(m, TestProps(ps)[j].value.f) <==> st.escaped && j == |st.tests| - 1)
        && (st.tests[j].status == Pending ==> st.async[j] || (st.escaped && j == |st.tests| - 1))
    decreases |ps|
  {
    if ps != [] {
      var init := ps[..|ps| - 1];
      CaseLoopPending(m, init, t0, frames);
      CaseLoopFlags(m, init, t0, frames);
      CaseLoopLengths(m, init, t0, frames);
      assert ps == init + [ps[|ps| - 1]];
    }
  }

  /** When `beforeTest` throws, every synchronous case is skipped and keeps
      the start and execution times of its fresh record, 0, and no error. */
  lemma {:induction false} BeforeTestSkips(m: Module, ps: seq<Prop>, t0: int, frames: JsValue -> JsValue)
    requires HookThrows(m, "beforeTest")
    ensures var st := CaseLoop(m, ps, t0, frames);
      forall j :: 0 <= j < |st.tests| && j < |st.async| && !st.async[j] ==>
        && st.tests[j].status == Skipped
        && st.tests[j].timeStart == 0 && st.tests[j].execTime == 0
        && st.tests[j].error == None
    decreases |ps|
  {
    if ps != [] {
      var init := ps[..|ps| - 1];
      BeforeTestSkips(m, init, t0, frames);
      CaseLoopFlags(m, init, t0, frames);
    }
  }

  /** Once the loop has escaped after a prefix of the properties, the rest of
      them changes nothing. */
  lemma {:induction false} EscapeSticks(m: Module, ps: seq<Prop>, k: nat, t0: int, frames: JsValue -> JsValue)
    requires k <= |ps|
    requires CaseLoop(m, ps[..k], t0, frames).escaped
    ensures CaseLoop(m, ps, t0, frames) == CaseLoop(m, ps[..k], t0, frames)
    decreases |ps|
  {
    if k == |ps| {
      assert ps[..k] == ps;
    } else {
      var init := ps[..|ps| - 1];
      assert init[..k] == ps[..k];
      EscapeSticks(m, init, k, t0, frames);
    }
  }

  /** The property list was enumerated to the end, or the loop escaped. */
  lemma {:induction false} LoopDone(m: Module, ps: seq<Prop>, i: nat, t0: int, frames: JsValue -> JsValue)
    requires i <= |ps|
    requires i == |ps| || CaseLoop(m, ps[..i], t0, frames).escaped
    ensures CaseLoop(m, ps, t0, frames) == CaseLoop(m, ps[..i], t0, frames)
  {
    if i == |ps| {
      assert ps[..i] == ps;
    } else {
      EscapeSticks(m, ps, i, t0, frames);
    }
  }

  /** `result.module`: the module path with the test directory and its
      separator cut off at the front and 4 more characters than `.js` at the
      end (the `Test` of a file named `...Test.js`). */
  function SuiteName(testDir: string, path: string): (name: string)
    ensures forall base: string :: path == testDir + "/" + base + "Test" ==> name == base
  {
    Substr(path, |testDir| + 1, |path| - |testDir| - 5)
  }

  /** What `runTestSuite` leaves behind: the suite's record, whether each of
      its cases was handed a completion callback, the clock, and the module
      functions it called. */
  datatype SuiteRun = SuiteRun(result: SuiteResult, async: seq<bool>, clock: int, calls: seq<string>)

  /** `runTestSuite(module)` at time `t0` for the module at `path`. */
  function RunSuite(testDir: string, path: string, load: Load, t0: int, frames: JsValue -> JsValue): (sr: SuiteRun)
    ensures sr.result.moduleName == SuiteName(testDir, path)
    ensures |sr.async| == |sr.result.tests|
  {
    var name := SuiteName(testDir, path);
    match load
    case LoadFailed(_) => SuiteRun(SuiteResult(name, [], true), [], t0, [])
    case Loaded(m) =>
      var t1 := t0 + HookTime(m, "setup");
      if HookThrows(m, "setup") then
        SuiteRun(SuiteResult(name, [], true), [], t1 + HookTime(m, "teardown"), ["setup"] + HookCalls(m, "teardown"))
      else
        var st := CaseLoop(m, m.props, t1, frames);
        CaseLoopFlags(m, m.props, t1, frames);
        SuiteRun(SuiteResult(name, st.tests, st.escaped), st.async, st.clock + HookTime(m, "teardown"),
                 HookCalls(m, "setup") + st.calls + HookCalls(m, "teardown"))
  }

  /** What `runTestSuite` leaves behind. A module that fails to load is
      aborted with no cases and no hooks. A throwing `setup` aborts the suite
      before any case. Otherwise the case loop runs after `setup` and the
      suite is aborted exactly when an exception escaped it. A loaded
      module's `teardown` is run last in every case, and whatever it does
      leaves the record alone. */
  lemma RunSuiteOutcomes(testDir: string, path: string, load: Load, t0: int, frames: JsValue -> JsValue)
    ensures var sr := RunSuite(testDir, path, load, t0, frames);
      && (load.LoadFailed? ==> sr.result == SuiteResult(SuiteName(testDir, path), [], true) && sr.calls == [])
      && (load.Loaded? && HookThrows(load.m, "setup") ==>
            && sr.result == SuiteResult(SuiteName(testDir, path), [], true)
            && sr.calls == ["setup"] + HookCalls(load.m, "teardown"))
      && (load.Loaded? && !HookThrows(load.m, "setup") ==>
            var st := CaseLoop(load.m, load.m.props, t0 + HookTime(load.m, "setup"), frames);
            && sr.result == SuiteResult(SuiteName(testDir, path), st.tests, st.escaped)
            && sr.async == st.async
            && sr.calls == HookCalls(load.m, "setup") + st.calls + HookCalls(load.m, "teardown"))
      && (load.Loaded? && Hook(load.m, "teardown").Some? ==> sr.calls != [] && sr.calls[|sr.calls| - 1] == "teardown")
  {
  }

  /** One turn of the case loop, unfolded. */
  lemma CaseLoopStep(m: Module, ps: seq<Prop>, i: nat, t0: int, frames: JsValue -> JsValue)
    requires i < |ps|
    requires !CaseLoop(m, ps[..i], t0, frames).escaped
    ensures CaseLoop(m, ps[..i + 1], t0, frames) == CaseStep(m, CaseLoop(m, ps[..i], t0, frames), ps[i], frames)
  {
    assert ps[..i + 1][..i] == ps[..i];
  }

  /** The `for...in` loop of `runTestSuite`: each test-case property gets a
      fresh record pushed onto the suite's tests, which `runTestCase` then
      updates; the loop ends early when an exception escapes a case. */
  method RunCases(m: Module, t0: int, frames: JsValue -> JsValue) returns (st: Loop)
    ensures st == CaseLoop(m, m.props, t0, frames)
  {
    var tests: seq<CaseResult> := [];
    var async: seq<bool> := [];
    var clock := t0;
    var calls: seq<string> := [];
    var escaped := false;
    var i := 0;
    while i < |m.props| && !escaped
      invariant 0 <= i <= |m.props|
      invariant CaseLoop(m, m.props[..i], t0, frames) == Loop(tests, async, clock, calls, escaped)
    {
      var p := m.props[i];
      CaseLoopStep(m, m.props, i, t0, frames);
      if IsTestProp(p) {
        var testResult := NewCase(p.name);
        tests := tests + [testResult];
        var cr := RunTestCase(m, p.name, p.value.f, testResult, clock, frames);
        tests := tests[|tests| - 1 := cr.result];
        async := async + [p.value.f.arity != 0];
        clock := cr.clock;
        calls := calls + cr.calls;
        escaped := cr.escaped;
      }
      i := i + 1;
    }
    LoopDone(m, m.props, i, t0, frames);
    st := Loop(tests, async, clock, calls, escaped);
  }

  /** `runTestSuite`: the record is created, the module is loaded, `setup`
      runs, the case loop runs, `aborted` is raised by a throwing `setup` or an
      escaping exception, and `teardown` is attempted for every loaded module. */
  method RunTestSuite(testDir: string, path: string, load: Load, t0: int, frames: JsValue -> JsValue)
    returns (sr: SuiteRun)
    ensures sr == RunSuite(testDir, path, load, t0, frames)
  {
    var result := SuiteResult(SuiteName(testDir, path), [], false);
    var async: seq<bool> := [];
    var clock := t0;
    var calls: seq<string> := [];
    match load {
      case LoadFailed(_) =>
        result := result.(aborted := true);
      case Loaded(m) =>
        var setup := Hook(m, "setup");
        var setupThrew := false;
        if setup.Some? {
          calls := calls + ["setup"];
          clock := clock + setup.value.duration;
          setupThrew := setup.value.outcome.Throws?;
        }
        assert setupThrew == HookThrows(m, "setup");
        assert clock == t0 + HookTime(m, "setup") && calls == HookCalls(m, "setup");
        if setupThrew {
          result := result.(aborted := true);
        } else {
          var st := RunCases(m, clock, frames);
          result := result.(tests := st.tests, aborted := st.escaped);
          async := st.async;
          clock := st.clock;
          calls := calls + st.calls;
        }
        var teardown := Hook(m, "teardown");
        if teardown.Some? {
          calls := calls + ["teardown"];
          clock := clock + teardown.value.duration;
        }
    }
    sr := SuiteRun(result, async, clock, calls);
  }
}
