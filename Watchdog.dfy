/** The completion watchdog and the final tally of `endTests`: the `_check`
    scan that fails timed-out pending cases and counts the ones still
    running, and the `_done` aggregation with its exit code. */
module Watchdog {
  import opened JsValues
  import opened Suites

  /** Milliseconds a pending case may run before the watchdog fails it. */
  const ASYNC_TIMEOUT: int := 30000

  /** The error recorded on a case failed by the watchdog. */
  const TIMEOUT_ERROR: JsValue := Str("AsyncTimeout")

  // ---------------------------------------------------------------------
  // One scan

  /** A pending case that has not yet run for more than ASYNC_TIMEOUT ms. */
  predicate StillRunning(c: CaseResult, now: int) {
    c.status == Pending && now - c.timeStart <= ASYNC_TIMEOUT
  }

  /** A pending case that has run for more than ASYNC_TIMEOUT ms. */
  predicate TimedOut(c: CaseResult, now: int) {
    c.status == Pending && now - c.timeStart > ASYNC_TIMEOUT
  }

  /** The watchdog's treatment of one case at `now`. */
  function Watch(c: CaseResult, now: int): CaseResult {
    if TimedOut(c, now) then
      c.(status := Failed, error := Some(TIMEOUT_ERROR), execTime := now - c.timeStart)
    else
      c
  }

  function WatchAll(cs: seq<CaseResult>, now: int): (r: seq<CaseResult>)
    ensures |r| == |cs|
  {
    seq(|cs|, k requires 0 <= k < |cs| => Watch(cs[k], now))
  }

  /** The results after one scan of `_check` at `now`: every pending case that
      has run for more than ASYNC_TIMEOUT ms is failed with the timeout error
      and its elapsed time; every other case, and every suite's name and
      abort flag, is left as it was. */
  function ScanAll(rs: seq<SuiteResult>, now: int): (r: seq<SuiteResult>)
    ensures |r| == |rs|
    ensures forall i :: 0 <= i < |rs| ==>
      && r[i].moduleName == rs[i].moduleName
      && r[i].aborted == rs[i].aborted
      && |r[i].tests| == |rs[i].tests|
    ensures forall i, j :: 0 <= i < |rs| && 0 <= j < |rs[i].tests| && !TimedOut(rs[i].tests[j], now) ==>
      r[i].tests[j] == rs[i].tests[j]
    ensures forall i, j :: 0 <= i < |rs| && 0 <= j < |rs[i].tests| && TimedOut(rs[i].tests[j], now) ==>
      && r[i].tests[j].status == Failed
      && r[i].tests[j].error == Some(TIMEOUT_ERROR)
      && r[i].tests[j].execTime == now - rs[i].tests[j].timeStart
      && r[i].tests[j].testCase == rs[i].tests[j].testCase
      && r[i].tests[j].timeStart == rs[i].tests[j].timeStart
  {
    seq(|rs|, i requires 0 <= i < |rs| => rs[i].(tests := WatchAll(rs[i].tests, now)))
  }

  // ---------------------------------------------------------------------
  // Counting over all cases

  /** Every case of every suite, suite by suite, in order. */
  function Cases(rs: seq<SuiteResult>): seq<CaseResult>
    decreases |rs|
  {
    if rs == [] then [] else Cases(rs[..|rs| - 1]) + rs[|rs| - 1].tests
  }

  function CountRunning(cs: seq<CaseResult>, now: int): nat
    decreases |cs|
  {
    if cs == [] then 0
    else CountRunning(cs[..|cs| - 1], now) + (if StillRunning(cs[|cs| - 1], now) then 1 else 0)
  }

  function CountStatus(cs: seq<CaseResult>, st: Status): nat
    decreases |cs|
  {
    if cs == [] then 0
    else CountStatus(cs[..|cs| - 1], st) + (if cs[|cs| - 1].status == st then 1 else 0)
  }

  function SumExec(cs: seq<CaseResult>): int
    decreases |cs|
  {
    if cs == [] then 0 else SumExec(cs[..|cs| - 1]) + cs[|cs| - 1].execTime
  }

  function CountAborted(rs: seq<SuiteResult>): nat
    decreases |rs|
  {
    if rs == [] then 0 else CountAborted(rs[..|rs| - 1]) + (if rs[|rs| - 1].aborted then 1 else 0)
  }

  /** No case of any suite is pending. */
  predicate NoPending(rs: seq<SuiteResult>) {
    forall i, j :: 0 <= i < |rs| && 0 <= j < |rs[i].tests| ==> rs[i].tests[j].status != Pending
  }

  /** The process-wide totals of `endTests`. */
  datatype Totals = Totals(success: nat, failed: nat, skipped: nat, aborted: nat, execTime: int)

  /** The totals over the cases `cs`, with `aborted` suites. */
  function TotalsOf(cs: seq<CaseResult>, aborted: nat): Totals {
    Totals(CountStatus(cs, Success), CountStatus(cs, Failed), CountStatus(cs, Skipped), aborted, SumExec(cs))
  }

  /** What `_done` adds up: cases per terminal status (pending ones are not
      counted), the execution time of every case, and the aborted suites. */
  function Tally(rs: seq<SuiteResult>): Totals {
    TotalsOf(Cases(rs), CountAborted(rs))
  }

  /** JavaScript's `a || b` on numbers: `a` when it is not zero, else `b`. */
  function Or(a: int, b: int): int {
    if a != 0 then a else b
  }

  /** The code `_done` passes to `process.exit`: `failed || failed || aborted`,
      that is the number of failed cases if there is one, else the number of
      aborted suites; it is zero exactly when nothing failed or aborted. */
  function ExitCode(t: Totals): (code: int)
    ensures code != 0 <==> t.failed > 0 || t.aborted > 0
    ensures t.failed > 0 ==> code == t.failed
    ensures t.failed == 0 ==> code == t.aborted
    ensures code >= 0
  {
    Or(Or(t.failed, t.failed), t.aborted)
  }

  // ---------------------------------------------------------------------
  // Unfolding the counts one element at a time

  lemma TotalsSnoc(cs: seq<CaseResult>, c: CaseResult, aborted: nat)
    ensures var t := TotalsOf(cs, aborted);
      TotalsOf(cs + [c], aborted) == Totals(
        t.success + (if c.status == Success then 1 else 0),
        t.failed + (if c.status == Failed then 1 else 0),
        t.skipped + (if c.status == Skipped then 1 else 0),
        aborted,
        t.execTime + c.execTime)
  {
    assert (cs + [c])[..|cs|] == cs;
  }

  lemma CasesSnoc(rs: seq<SuiteResult>, i: nat)
    requires i < |rs|
    ensures Cases(rs[..i + 1]) == Cases(rs[..i]) + rs[i].tests
    ensures CountAborted(rs[..i + 1]) == CountAborted(rs[..i]) + (if rs[i].aborted then 1 else 0)
  {
    assert rs[..i + 1][..i] == rs[..i];
  }

  // ---------------------------------------------------------------------
  // The scan and the tally as loops

  /** The inner loop of `_check` over one suite's cases. */
  method ScanCases(cs: seq<CaseResult>, now: int) returns (tests: seq<CaseResult>, running: nat)
    ensures tests == WatchAll(cs, now)
    ensures running == CountRunning(cs, now)
  {
    tests := cs;
    running := 0;
    var j := 0;
    while j < |tests|
      invariant 0 <= j <= |tests| && |tests| == |cs|
      invariant forall k :: 0 <= k < j ==> tests[k] == Watch(cs[k], now)
      invariant forall k :: j <= k < |tests| ==> tests[k] == cs[k]
      invariant running == CountRunning(cs[..j], now)
    {
      assert cs[..j + 1][..j] == cs[..j];
      if tests[j].status == Pending {
        var elapsed := now - tests[j].timeStart;
        if elapsed > ASYNC_TIMEOUT {
          tests := tests[j := tests[j].(status := Failed, error := Some(TIMEOUT_ERROR), execTime := elapsed)];
        } else {
          running := running + 1;
        }
      }
      j := j + 1;
    }
    assert cs[..j] == cs;
  }

  /** One run of `_check` over the results at `now`: the nested loop fails
      each pending case that has timed out and counts the others. */
  method Scan(rs: seq<SuiteResult>, now: int) returns (out: seq<SuiteResult>, running: nat)
    ensures out == ScanAll(rs, now)
    ensures running == CountRunning(Cases(rs), now)
  {
    out := rs;
    running := 0;
    var i := 0;
    while i < |rs|
      invariant 0 <= i <= |rs| && |out| == |rs|
      invariant forall k :: 0 <= k < i ==> out[k] == rs[k].(tests := WatchAll(rs[k].tests, now))
      invariant forall k :: i <= k < |rs| ==> out[k] == rs[k]
      invariant running == CountRunning(Cases(rs[..i]), now)
    {
      var tests, count := ScanCases(out[i].tests, now);
      CasesSnoc(rs, i);
      CountRunningAppend(Cases(rs[..i]), rs[i].tests, now);
      running := running + count;
      out := out[i := out[i].(tests := tests)];
      i := i + 1;
    }
    assert rs[..i] == rs;
  }

  lemma {:induction false} CountRunningAppend(a: seq<CaseResult>, b: seq<CaseResult>, now: int)
    ensures CountRunning(a + b, now) == CountRunning(a, now) + CountRunning(b, now)
    decreases |b|
  {
    if b == [] {
      assert a + b == a;
    } else {
      var init := b[..|b| - 1];
      assert (a + b)[..|a + b| - 1] == a + init;
      assert (a + b)[|a + b| - 1] == b[|b| - 1];
      CountRunningAppend(a, init, now);
    }
  }

  /** `_done`'s nested loop: per-status counts, summed execution time and
      aborted suites over all results. */
  method Aggregate(rs: seq<SuiteResult>) returns (t: Totals)
    ensures t == Tally(rs)
  {
    t := Totals(0, 0, 0, 0, 0);
    var i := 0;
    while i < |rs|
      invariant 0 <= i <= |rs|
      invariant t == TotalsOf(Cases(rs[..i]), CountAborted(rs[..i]))
    {
      var r := rs[i];
      var j := 0;
      assert Cases(rs[..i]) + r.tests[..0] == Cases(rs[..i]);
      while j < |r.tests|
        invariant 0 <= j <= |r.tests|
        invariant t == TotalsOf(Cases(rs[..i]) + r.tests[..j], CountAborted(rs[..i]))
      {
        TotalsSnoc(Cases(rs[..i]) + r.tests[..j], r.tests[j], CountAborted(rs[..i]));
        assert Cases(rs[..i]) + r.tests[..j + 1] == Cases(rs[..i]) + r.tests[..j] + [r.tests[j]];
        match r.tests[j].status {
          case Success => t := t.(success := t.success + 1);
          case Failed => t := t.(failed := t.failed + 1);
          case Skipped => t := t.(skipped := t.skipped + 1);
          case Pending =>
        }
        t := t.(execTime := t.execTime + r.tests[j].execTime);
        j := j + 1;
      }
      assert r.tests[..j] == r.tests;
      CasesSnoc(rs, i);
      if r.aborted {
        t := t.(aborted := t.aborted + 1);
      }
      i := i + 1;
    }
    assert rs[..i] == rs;
  }

  // ---------------------------------------------------------------------
  // What a scan and the tally guarantee

  lemma ScanAllPrefix(rs: seq<SuiteResult>, now: int)
    requires rs != []
    ensures ScanAll(rs, now)[..|rs| - 1] == ScanAll(rs[..|rs| - 1], now)
  {
  }

  lemma WatchAllAppend(a: seq<CaseResult>, b: seq<CaseResult>, now: int)
    ensures WatchAll(a + b, now) == WatchAll(a, now) + WatchAll(b, now)
  {
  }

  /** Scanning the suites one after the other scans the cases one after the other. */
  lemma {:induction false} CasesOfScan(rs: seq<SuiteResult>, now: int)
    ensures Cases(ScanAll(rs, now)) == WatchAll(Cases(rs), now)
    ensures CountAborted(ScanAll(rs, now)) == CountAborted(rs)
    decreases |rs|
  {
    if rs != [] {
      var init := rs[..|rs| - 1];
      ScanAllPrefix(rs, now);
      CasesOfScan(init, now);
      WatchAllAppend(Cases(init), rs[|rs| - 1].tests, now);
    }
  }

  /** After a scan, the pending cases are exactly the ones it counted as running. */
  lemma {:induction false} PendingAfterWatch(cs: seq<CaseResult>, now: int)
    ensures CountStatus(WatchAll(cs, now), Pending) == CountRunning(cs, now)
    decreases |cs|
  {
    if cs != [] {
      var init := cs[..|cs| - 1];
      assert WatchAll(cs, now)[..|cs| - 1] == WatchAll(init, now);
      PendingAfterWatch(init, now);
    }
  }

  lemma {:induction false} CountStatusAppend(a: seq<CaseResult>, b: seq<CaseResult>, st: Status)
    ensures CountStatus(a + b, st) == CountStatus(a, st) + CountStatus(b, st)
    decreases |b|
  {
    if b == [] {
      assert a + b == a;
    } else {
      var init := b[..|b| - 1];
      assert (a + b)[..|a + b| - 1] == a + init;
      assert (a + b)[|a + b| - 1] == b[|b| - 1];
      CountStatusAppend(a, init, st);
    }
  }

  /** No case has status `st` exactly when none is counted. */
  lemma {:induction false} CountStatusZero(cs: seq<CaseResult>, st: Status)
    ensures CountStatus(cs, st) == 0 <==> forall k :: 0 <= k < |cs| ==> cs[k].status != st
    decreases |cs|
  {
    if cs != [] {
      var init := cs[..|cs| - 1];
      CountStatusZero(init, st);
      assert forall k :: 0 <= k < |init| ==> init[k] == cs[k];
    }
  }

  /** No case is pending exactly when no pending case is counted. */
  lemma {:induction false} NoPendingIffNoneCounted(rs: seq<SuiteResult>)
    ensures NoPending(rs) <==> CountStatus(Cases(rs), Pending) == 0
    decreases |rs|
  {
    if rs != [] {
      var init := rs[..|rs| - 1];
      var last := rs[|rs| - 1].tests;
      NoPendingIffNoneCounted(init);
      CountStatusAppend(Cases(init), last, Pending);
      CountStatusZero(last, Pending);
      assert NoPending(rs) <==> NoPending(init) && forall k :: 0 <= k < |last| ==> last[k].status != Pending by {
        assert forall i :: 0 <= i < |init| ==> init[i] == rs[i];
      }
    }
  }

  /** Every case has one of the four statuses. */
  lemma {:induction false} StatusPartition(cs: seq<CaseResult>)
    ensures CountStatus(cs, Success) + CountStatus(cs, Failed) + CountStatus(cs, Skipped)
            + CountStatus(cs, Pending) == |cs|
    decreases |cs|
  {
    if cs != [] {
      StatusPartition(cs[..|cs| - 1]);
    }
  }

  /** A scan leaves no case pending exactly when it counts no running case:
      `_check` finalizes only when nothing is pending any more. */
  lemma ScanLeavesNoPending(rs: seq<SuiteResult>, now: int)
    ensures NoPending(ScanAll(rs, now)) <==> CountRunning(Cases(rs), now) == 0
  {
    NoPendingIffNoneCounted(ScanAll(rs, now));
    CasesOfScan(rs, now);
    PendingAfterWatch(Cases(rs), now);
  }

  /** Once nothing is pending, the success, failed and skipped counts add up
      to the number of cases. */
  lemma TotalsAddUp(rs: seq<SuiteResult>)
    requires NoPending(rs)
    ensures Tally(rs).success + Tally(rs).failed + Tally(rs).skipped == |Cases(rs)|
  {
    NoPendingIffNoneCounted(rs);
    StatusPartition(Cases(rs));
  }

  /** What `_done` reports after a scan at `now` that counted no running case:
      every case of every suite is counted under its terminal status, the
      aborted suites are counted, and the exit code is nonzero exactly when
      some case failed or some suite aborted. */
  lemma FinalTotals(rs: seq<SuiteResult>, now: int)
    requires CountRunning(Cases(rs), now) == 0
    ensures var t := Tally(ScanAll(rs, now));
      && NoPending(ScanAll(rs, now))
      && t.success + t.failed + t.skipped == |Cases(rs)|
      && t.aborted == CountAborted(rs)
      && (ExitCode(t) != 0 <==> t.failed > 0 || t.aborted > 0)
  {
    ScanLeavesNoPending(rs, now);
    TotalsAddUp(ScanAll(rs, now));
    CasesOfScan(rs, now);
  }

  /** A second scan at the same time changes nothing more: a case the first
      one failed is terminal, and the others had not timed out. */
  lemma ScanTwice(rs: seq<SuiteResult>, now: int)
    ensures ScanAll(ScanAll(rs, now), now) == ScanAll(rs, now)
  {
    var once := ScanAll(rs, now);
    forall i | 0 <= i < |rs|
      ensures ScanAll(once, now)[i] == once[i]
    {
      assert ScanAll(once, now)[i].tests == once[i].tests;
    }
  }

  /** With no case pending, a scan at any time changes nothing. */
  lemma ScanSettled(rs: seq<SuiteResult>, now: int)
    requires NoPending(rs)
    ensures ScanAll(rs, now) == rs
  {
    forall i | 0 <= i < |rs|
      ensures ScanAll(rs, now)[i] == rs[i]
    {
      assert ScanAll(rs, now)[i].tests == rs[i].tests;
    }
  }
}
