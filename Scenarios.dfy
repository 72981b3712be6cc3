/** Whole runs of small test modules, from loading to the exit code. */
module Scenarios {
  import opened JsValues
  import opened Suites
  import opened Watchdog

  function NoFrames(v: JsValue): JsValue { v }

  function SyncCase(name: string, o: Outcome): Prop {
    Prop(name, Func(Fn(0, o, [], 5)))
  }

  function AsyncCase(name: string, o: Outcome, callbacks: seq<JsValue>): Prop {
    Prop(name, Func(Fn(1, o, callbacks, 5)))
  }

  function Boom(): JsValue {
    Literal(map["message" := Str("boom")])
  }

  function PassAndFailModule(): Module {
    Module([SyncCase("testOk", Returns), SyncCase("testBad", Throws(Boom()))])
  }

  lemma PassAndFailFirst()
    ensures CaseLoop(PassAndFailModule(), PassAndFailModule().props[..1], 0, NoFrames)
         == Loop([CaseResult("Ok", Success, 0, 5, None)], [false], 5, ["testOk"], false)
  {
    var ps := PassAndFailModule().props;
    assert ps[..1][..0] == [];
  }

  lemma PassAndFailCases()
    ensures CaseLoop(PassAndFailModule(), PassAndFailModule().props, 0, NoFrames)
         == Loop([CaseResult("Ok", Success, 0, 5, None), CaseResult("Bad", Failed, 5, 5, Some(Boom()))],
                 [false, false], 10, ["testOk", "testBad"], false)
  {
    var ps := PassAndFailModule().props;
    PassAndFailFirst();
    assert ps[..|ps| - 1] == ps[..1];
  }

  lemma PassAndFailTally(name: string)
    ensures var cs := [CaseResult("Ok", Success, 0, 5, None), CaseResult("Bad", Failed, 5, 5, Some(Boom()))];
      Tally([SuiteResult(name, cs, false)]) == Totals(1, 1, 0, 0, 10)
  {
    var cs := [CaseResult("Ok", Success, 0, 5, None), CaseResult("Bad", Failed, 5, 5, Some(Boom()))];
    var rs := [SuiteResult(name, cs, false)];
    assert rs[..0] == [];
    assert Cases(rs) == cs;
    assert cs[..|cs| - 1] == cs[..1];
    var one := cs[..1];
    assert one[..|one| - 1] == [];
    assert CountStatus(one, Success) == 1 && CountStatus(one, Failed) == 0 && CountStatus(one, Skipped) == 0;
    assert SumExec(one) == 5;
    assert CountAborted(rs) == 0;
  }

  /** A module with a passing and a throwing synchronous case: one success,
      one failure carrying the thrown error, the suite not aborted, and the
      run exits with 1. */
  lemma PassAndFail()
    ensures var sr := RunSuite("t", "t/aTest", Loaded(PassAndFailModule()), 0, NoFrames);
      && !sr.result.aborted
      && sr.result.tests == [CaseResult("Ok", Success, 0, 5, None), CaseResult("Bad", Failed, 5, 5, Some(Boom()))]
      && ExitCode(Tally([sr.result])) == 1
  {
    PassAndFailCases();
    PassAndFailTally(RunSuite("t", "t/aTest", Loaded(PassAndFailModule()), 0, NoFrames).result.moduleName);
  }

  /** A module whose setup throws is aborted with no case recorded, and its
      teardown still runs. */
  lemma SetupThrows()
    ensures var m := Module([
        Prop("setup", Func(Fn(0, Throws(Str("no db")), [], 1))),
        Prop("teardown", Func(Fn(0, Returns, [], 1))),
        SyncCase("testOk", Returns)]);
      var sr := RunSuite("t", "t/aTest", Loaded(m), 0, NoFrames);
      sr.result.aborted && sr.result.tests == [] && sr.calls == ["setup", "teardown"]
  {
  }

  /** An asynchronous case stays pending until its callback, called without
      an error 100 ms after the case started, makes it a success; a later
      scan leaves it alone. */
  lemma AsyncSuccess(later: int)
    ensures var m := Module([AsyncCase("testLater", Returns, [])]);
      var sr := RunSuite("t", "t/aTest", Loaded(m), 0, NoFrames);
      && |sr.result.tests| == 1 && sr.async == [true]
      && sr.result.tests[0].status == Pending
      && var done := Callback(sr.result.tests[0], Null, 100, NoFrames);
         && done.status == Success && done.execTime == 100 < ASYNC_TIMEOUT
         && Watch(done, later) == done
  {
    var m := Module([AsyncCase("testLater", Returns, [])]);
    assert m.props[..1] == m.props;
    assert m.props[..1][..0] == [];
  }

  function NeverModule(): Module {
    Module([AsyncCase("testNever", Returns, [])])
  }

  lemma NeverIsPending()
    ensures RunSuite("t", "t/aTest", Loaded(NeverModule()), 0, NoFrames).result
         == SuiteResult("a", [CaseResult("Never", Pending, 0, 0, None)], false)
  {
    var ps := NeverModule().props;
    assert ps[..1] == ps;
    assert ps[..1][..0] == [];
  }

  /** An asynchronous case that never calls back is still running at the
      timeout and failed with the timeout error one millisecond later. */
  lemma AsyncTimeout()
    ensures var sr := RunSuite("t", "t/aTest", Loaded(NeverModule()), 0, NoFrames);
      && CountRunning(Cases(ScanAll([sr.result], ASYNC_TIMEOUT)), ASYNC_TIMEOUT) == 1
      && ScanAll([sr.result], ASYNC_TIMEOUT + 1)[0].tests
         == [CaseResult("Never", Failed, 0, ASYNC_TIMEOUT + 1, Some(TIMEOUT_ERROR))]
  {
    NeverIsPending();
    var rs := ScanAll([SuiteResult("a", [CaseResult("Never", Pending, 0, 0, None)], false)], ASYNC_TIMEOUT);
    assert rs[..0] == [];
    assert Cases(rs) == rs[0].tests;
    assert rs[0].tests[..0] == [];
  }

  /** An asynchronous case that calls its callback without an error and then
      throws ends failed: the handler overwrites the success. */
  lemma CallbackThenThrow()
    ensures var m := Module([AsyncCase("testTwice", Throws(Str("late")), [Null])]);
      var sr := RunSuite("t", "t/aTest", Loaded(m), 0, NoFrames);
      && Callback(NewCase("testTwice").(timeStart := 0), Null, 5, NoFrames).status == Success
      && |sr.result.tests| == 1 && sr.result.tests[0].status == Failed
      && sr.result.tests[0].error == Some(Str("late"))
  {
    var m := Module([AsyncCase("testTwice", Throws(Str("late")), [Null])]);
    assert m.props[..1] == m.props;
    assert m.props[..1][..0] == [];
  }
}
