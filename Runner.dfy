/** The whole run: `startTests` over the discovered modules, followed by the
    events of the event loop — a completion callback of an asynchronous case
    firing, or a tick of the `_check` watchdog — until the watchdog finalizes
    the run with its totals and exit code. */
module Runner {
  import opened JsValues
  import opened Suites
  import opened Watchdog

  /** A discovered test module: its path, and what loading it gives. */
  datatype SuiteRef = SuiteRef(path: string, load: Load)

  /** The results of `startTests`, the (suite, case) positions of the cases
      that were handed a completion callback, and the clock afterwards. */
  datatype Started = Started(results: seq<SuiteResult>, callbacks: set<(nat, nat)>, clock: int)

  /** The positions, in suite `i`, of the cases flagged asynchronous. */
  function CallbackSlots(i: nat, async: seq<bool>): set<(nat, nat)> {
    set j | 0 <= j < |async| && async[j] :: (i, j)
  }

  /** `startTests(suites)` at time `t0`: the modules are run in order, each
      starting when the previous one returns, and each result is pushed in
      that order; a callback exists only for a recorded case. */
  function StartAll(testDir: string, suites: seq<SuiteRef>, t0: int, frames: JsValue -> JsValue): (s: Started)
    ensures |s.results| == |suites|
    ensures forall i :: 0 <= i < |suites| ==> s.results[i].moduleName == SuiteName(testDir, suites[i].path)
    ensures forall p :: p in s.callbacks ==> p.0 < |s.results| && p.1 < |s.results[p.0].tests|
    decreases |suites|
  {
    if suites == [] then Started([], {}, t0)
    else
      var prev := StartAll(testDir, suites[..|suites| - 1], t0, frames);
      var last := suites[|suites| - 1];
      var sr := RunSuite(testDir, last.path, last.load, prev.clock, frames);
      Started(prev.results + [sr.result], prev.callbacks + CallbackSlots(|prev.results|, sr.async), sr.clock)
  }

  /** The run of module `i` within `startTests`: `runTestSuite` on it,
      started when the modules before it have run. */
  function SuiteRunAt(testDir: string, suites: seq<SuiteRef>, i: nat, t0: int, frames: JsValue -> JsValue): SuiteRun
    requires i < |suites|
  {
    RunSuite(testDir, suites[i].path, suites[i].load, StartAll(testDir, suites[..i], t0, frames).clock, frames)
  }

  /** Result `i` of `startTests` is the record `runTestSuite` builds for
      module `i`. */
  lemma {:induction false} StartAllResults(testDir: string, suites: seq<SuiteRef>, t0: int, frames: JsValue -> JsValue)
    ensures forall i :: 0 <= i < |suites| ==>
      StartAll(testDir, suites, t0, frames).results[i] == SuiteRunAt(testDir, suites, i, t0, frames).result
    decreases |suites|
  {
    if suites != [] {
      var init := suites[..|suites| - 1];
      StartAllResults(testDir, init, t0, frames);
      forall i | 0 <= i < |suites|
        ensures StartAll(testDir, suites, t0, frames).results[i] == SuiteRunAt(testDir, suites, i, t0, frames).result
      {
        if i < |init| {
          assert suites[..i] == init[..i];
          assert SuiteRunAt(testDir, suites, i, t0, frames) == SuiteRunAt(testDir, init, i, t0, frames);
        } else {
          assert suites[..i] == init;
        }
      }
    }
  }

  lemma CallbackSlotsMember(i: nat, async: seq<bool>, k: nat, j: nat)
    ensures (k, j) in CallbackSlots(i, async) <==> k == i && j < |async| && async[j]
  {
    if k == i && j < |async| && async[j] {
      assert (k, j) == (i, j);
    }
  }

  /** Dropping the last module leaves the runs of the ones before it alone. */
  lemma SuiteRunAtPrefix(testDir: string, suites: seq<SuiteRef>, i: nat, t0: int, frames: JsValue -> JsValue)
    requires i + 1 < |suites|
    ensures SuiteRunAt(testDir, suites, i, t0, frames) == SuiteRunAt(testDir, suites[..|suites| - 1], i, t0, frames)
  {
    assert suites[..|suites| - 1][..i] == suites[..i];
  }

  /** The last module's run adds the callbacks of its asynchronous cases. */
  lemma StartAllLast(testDir: string, suites: seq<SuiteRef>, t0: int, frames: JsValue -> JsValue)
    requires suites != []
    ensures var init := suites[..|suites| - 1];
      StartAll(testDir, suites, t0, frames).callbacks
        == StartAll(testDir, init, t0, frames).callbacks
           + CallbackSlots(|init|, SuiteRunAt(testDir, suites, |init|, t0, frames).async)
  {
    assert suites[..|suites| - 1] == suites[..|suites[..|suites| - 1]|];
  }

  /** Case `j` of suite `i` is handed a completion callback exactly when the
      run of that suite flagged it asynchronous. */
  lemma {:induction false} StartAllCallbacks(testDir: string, suites: seq<SuiteRef>, t0: int, frames: JsValue -> JsValue,
                                             i: nat, j: nat)
    requires i < |suites|
    ensures (i, j) in StartAll(testDir, suites, t0, frames).callbacks <==>
      j < |SuiteRunAt(testDir, suites, i, t0, frames).async| && SuiteRunAt(testDir, suites, i, t0, frames).async[j]
    decreases |suites|
  {
    var init := suites[..|suites| - 1];
    var sr := SuiteRunAt(testDir, suites, |init|, t0, frames);
    StartAllLast(testDir, suites, t0, frames);
    CallbackSlotsMember(|init|, sr.async, i, j);
    if i < |init| {
      StartAllCallbacks(testDir, init, t0, frames, i, j);
      SuiteRunAtPrefix(testDir, suites, i, t0, frames);
    } else {
      assert (i, j) !in StartAll(testDir, init, t0, frames).callbacks;
    }
  }

  /** The test run: the accumulated results (`TEST_RESULTS`), the cases whose
      completion callback exists, the watchdog's last reported running count,
      and, once `_done` has run, the totals and the exit code. After that the
      process has exited and no further event happens. */
  class Run {
    var results: seq<SuiteResult>
    var callbacks: set<(nat, nat)>
    var lastCount: nat
    var totals: Option<Totals>
    var exitCode: Option<int>

    ghost predicate Valid()
      reads this
    {
      && (forall p :: p in callbacks ==> p.0 < |results| && p.1 < |results[p.0].tests|)
      && (exitCode.Some? <==> totals.Some?)
      && (exitCode.Some? ==>
            NoPending(results) && totals.value == Tally(results) && exitCode.value == ExitCode(totals.value))
    }

    /** `startTests(suites)` with the clock at `now`. */
    constructor Start(testDir: string, suites: seq<SuiteRef>, now: int, frames: JsValue -> JsValue)
      ensures Valid()
      ensures results == StartAll(testDir, suites, now, frames).results
      ensures callbacks == StartAll(testDir, suites, now, frames).callbacks
      ensures lastCount == 0 && totals == None && exitCode == None
    {
      var rs: seq<SuiteResult> := [];
      var cbs: set<(nat, nat)> := {};
      var clock := now;
      var i := 0;
      while i < |suites|
        invariant 0 <= i <= |suites|
        invariant StartAll(testDir, suites[..i], now, frames) == Started(rs, cbs, clock)
      {
        assert suites[..i + 1][..i] == suites[..i];
        var sr := RunTestSuite(testDir, suites[i].path, suites[i].load, clock, frames);
        cbs := cbs + CallbackSlots(|rs|, sr.async);
        rs := rs + [sr.result];
        clock := sr.clock;
        i := i + 1;
      }
      assert suites[..i] == suites;
      results := rs;
      callbacks := cbs;
      lastCount := 0;
      totals := None;
      exitCode := None;
    }

    /** The completion callback of case `c` of suite `s` fires with `err` at
        `now`. It changes that case only, and only if it is still pending. */
    method Complete(s: nat, c: nat, err: JsValue, now: int, frames: JsValue -> JsValue)
      requires Valid() && exitCode.None?
      requires (s, c) in callbacks
      modifies this
      ensures Valid()
      ensures results == old(results)[s := old(results)[s].(tests :=
                old(results)[s].tests[c := Callback(old(results)[s].tests[c], err, now, frames)])]
      ensures old(results)[s].tests[c].status != Pending ==> results == old(results)
      ensures callbacks == old(callbacks) && lastCount == old(lastCount)
      ensures totals == old(totals) && exitCode == old(exitCode)
    {
      var suite := results[s];
      var r := suite.tests[c];
      if r.status == Pending {
        r := Callback(r, err, now, frames);
        results := results[s := suite.(tests := suite.tests[c := r])];
      } else {
        assert suite.tests[c := Callback(r, err, now, frames)] == suite.tests;
        assert results[s := suite] == results;
      }
    }

    /** One tick of the `_check` watchdog at `now`. Timed-out pending cases
        are failed, the others counted; with none left running `_done`
        computes the totals and the exit code, otherwise the check is
        rescheduled and the running count remembered. */
    method Check(now: int) returns (running: nat)
      requires Valid() && exitCode.None?
      modifies this
      ensures Valid()
      ensures results == ScanAll(old(results), now)
      ensures running == CountRunning(Cases(old(results)), now)
      ensures running == 0 ==>
        && NoPending(results)
        && totals == Some(Tally(results))
        && exitCode == Some(ExitCode(Tally(results)))
      ensures running == 0 ==> lastCount == old(lastCount)
      ensures running != 0 ==> totals == None && exitCode == None && lastCount == running
      ensures callbacks == old(callbacks)
    {
      var scanned, count := Scan(results, now);
      ScanLeavesNoPending(results, now);
      results := scanned;
      running := count;
      if running == 0 {
        var t := Aggregate(results);
        totals := Some(t);
        exitCode := Some(ExitCode(t));
      } else if running != lastCount {
        lastCount := running;
      }
    }
  }

  /** A callback that fires after the watchdog failed its case changes nothing. */
  lemma LateCallbackIsNoOp(c: CaseResult, now: int, later: int, err: JsValue, frames: JsValue -> JsValue)
    requires TimedOut(c, now)
    ensures Watch(c, now).status == Failed
    ensures Callback(Watch(c, now), err, later, frames) == Watch(c, now)
  {
  }

  /** A case completed by its callback is left alone by every later scan. */
  lemma CompletedIsNotTimedOut(c: CaseResult, err: JsValue, done: int, now: int, frames: JsValue -> JsValue)
    requires c.status == Pending
    ensures Watch(Callback(c, err, done, frames), now) == Callback(c, err, done, frames)
  {
  }
}
