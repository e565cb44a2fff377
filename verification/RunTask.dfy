/** A task gated by elapsed time and call count (base/run_task.cpp). */
module RunTasks {
  import opened Options

  // Times in nanoseconds. The start of the clock is set by the first call and never again.
  datatype Gate = Gate(
    maxTime: Option<int>, maxCount: Option<int>, runTime: Option<int>, runCount: Option<int>, start: Option<int>)

  function NewGate(maxTime: Option<int>, maxCount: Option<int>): Gate { Gate(maxTime, maxCount, None, None, None) }

  predicate CountDone(g: Gate) { g.maxCount.None? || g.runCount.ValueOr(0) >= g.maxCount.value }

  predicate TimeDone(g: Gate) { g.maxTime.None? || g.runTime.ValueOr(0) >= g.maxTime.value }

  // What a call counts: itself, and the time since the first call. The clock is read
  // once to set the start if it is not set, and once to take the time.
  function Counted(g: Gate, first: int, second: int): Gate {
    var g1 := if g.maxCount.None? then g else g.(runCount := Some(g.runCount.ValueOr(0) + 1));
    if g.maxTime.None? then g1 else
      var g2 := if g1.start.None? then g1.(start := Some(first)) else g1;
      g2.(runTime := Some(second - g2.start.value))
  }

  predicate DoneBoth(g: Gate) { CountDone(g) && TimeDone(g) }

  predicate DoneEither(g: Gate) { CountDone(g) || TimeDone(g) }

  predicate Done(g: Gate, both: bool) { if both then DoneBoth(g) else DoneEither(g) }

  // doByTimeAndCount (both) and doByTimeOrCount (not both).
  function Called(g: Gate, both: bool, first: int, second: int): Gate {
    if Done(g, both) then g else Counted(g, first, second)
  }

  predicate Fires(g: Gate, both: bool, first: int, second: int) {
    !Done(g, both) && Done(Counted(g, first, second), both)
  }

  function Cleared(g: Gate): Gate { g.(runCount := None, runTime := None) }

  class RunTask {
    const maxTime: Option<int>
    const maxCount: Option<int>
    var runTime: Option<int>
    var runCount: Option<int>
    var start: Option<int>

    constructor (maxTime: Option<int>, maxCount: Option<int>)
      ensures Value() == NewGate(maxTime, maxCount)
    {
      this.maxTime, this.maxCount := maxTime, maxCount;
      runTime, runCount, start := None, None, None;
    }

    function Value(): Gate
      reads this
    {
      Gate(maxTime, maxCount, runTime, runCount, start)
    }

    method SelfInc(first: int, second: int)
      modifies this
      ensures Value() == Counted(old(Value()), first, second)
    {
      if maxCount.Some? {
        runCount := Some(runCount.ValueOr(0) + 1);
      }
      if maxTime.Some? {
        if start.None? {
          start := Some(first);
        }
        runTime := Some(second - start.value);
      }
    }

    // The caller does the task's work when the method returns true, as the callback would.
    method DoByTimeAndCount(first: int, second: int) returns (fires: bool)
      modifies this
      ensures fires == Fires(old(Value()), true, first, second) && Value() == Called(old(Value()), true, first, second)
    {
      if CountDone(Value()) && TimeDone(Value()) {
        return false;
      }
      SelfInc(first, second);
      fires := CountDone(Value()) && TimeDone(Value());
    }

    method DoByTimeOrCount(first: int, second: int) returns (fires: bool)
      modifies this
      ensures fires == Fires(old(Value()), false, first, second)
              && Value() == Called(old(Value()), false, first, second)
    {
      if CountDone(Value()) || TimeDone(Value()) {
        return false;
      }
      SelfInc(first, second);
      fires := CountDone(Value()) || TimeDone(Value());
    }

    method Reset()
      modifies this
      ensures Value() == Cleared(old(Value()))
    {
      runCount := None;
      runTime := None;
    }
  }

  // ---------- Runs of calls ----------

  // A call's two readings of the clock.
  datatype Reading = Reading(first: int, second: int)

  function Firings(g: Gate, both: bool, calls: seq<Reading>): nat
    decreases |calls|
  {
    if calls == [] then 0 else
      (if Fires(g, both, calls[0].first, calls[0].second) then 1 else 0)
      + Firings(Called(g, both, calls[0].first, calls[0].second), both, calls[1..])
  }

  lemma {:induction false} NoFiringOnceDone(g: Gate, both: bool, calls: seq<Reading>)
    requires Done(g, both)
    ensures Firings(g, both, calls) == 0
    decreases |calls|
  {
    if calls != [] {
      NoFiringOnceDone(g, both, calls[1..]);
    }
  }

  /** Between two resets a task fires at most once, whatever the clock shows. */
  lemma {:induction false} AtMostOnce(g: Gate, both: bool, calls: seq<Reading>)
    ensures Firings(g, both, calls) <= 1
    decreases |calls|
  {
    if calls != [] {
      var first, second := calls[0].first, calls[0].second;
      if Fires(g, both, first, second) {
        NoFiringOnceDone(Called(g, both, first, second), both, calls[1..]);
      } else {
        AtMostOnce(Called(g, both, first, second), both, calls[1..]);
      }
    }
  }

  // ---------- When a task fires ----------

  function Fired(g: Gate, both: bool, calls: seq<Reading>): (fired: seq<bool>)
    ensures |fired| == |calls|
    decreases |calls|
  {
    if calls == [] then [] else
      var first, second := calls[0].first, calls[0].second;
      [Fires(g, both, first, second)] + Fired(Called(g, both, first, second), both, calls[1..])
  }

  // Call i, counted from 0, has the calls or the time since the first call that are asked for. A
  // limit that is not given is always met.
  predicate Due(both: bool, maxTime: Option<int>, maxCount: Option<int>, calls: seq<Reading>, i: nat)
    requires i < |calls|
  {
    var enoughCalls := maxCount.None? || i + 1 >= maxCount.value;
    var enoughTime := maxTime.None? || calls[i].second - calls[0].first >= maxTime.value;
    if both then enoughCalls && enoughTime else enoughCalls || enoughTime
  }

  // Limits that are met before the first call: such a task never fires.
  predicate Shut(both: bool, maxTime: Option<int>, maxCount: Option<int>) {
    var noCalls := maxCount.None? || maxCount.value <= 0;
    var noTime := maxTime.None? || maxTime.value <= 0;
    if both then noCalls && noTime else noCalls || noTime
  }

  // The task after k calls none of which was due.
  function WaitingAfter(maxTime: Option<int>, maxCount: Option<int>, calls: seq<Reading>, k: nat): Gate
    requires k <= |calls|
  {
    if k == 0 then NewGate(maxTime, maxCount) else
      Gate(maxTime, maxCount, if maxTime.None? then None else Some(calls[k - 1].second - calls[0].first),
           if maxCount.None? then None else Some(k), if maxTime.None? then None else Some(calls[0].first))
  }

  lemma WaitingStep(both: bool, maxTime: Option<int>, maxCount: Option<int>, calls: seq<Reading>, k: nat)
    requires k < |calls| && !Shut(both, maxTime, maxCount) && (k > 0 ==> !Due(both, maxTime, maxCount, calls, k - 1))
    ensures var g, g' := WaitingAfter(maxTime, maxCount, calls, k), WaitingAfter(maxTime, maxCount, calls, k + 1);
            Called(g, both, calls[k].first, calls[k].second) == g'
              && (Done(g', both) <==> Due(both, maxTime, maxCount, calls, k))
            && (Fires(g, both, calls[k].first, calls[k].second) <==> Due(both, maxTime, maxCount, calls, k))
  {
  }

  lemma {:induction false} ShutStays(g: Gate, both: bool, calls: seq<Reading>, i: nat)
    requires Done(g, both) && i < |calls|
    ensures !Fired(g, both, calls)[i]
    decreases |calls|
  {
    if i > 0 {
      ShutStays(g, both, calls[1..], i - 1);
    }
  }

  lemma {:induction false} FiresFrom(both: bool, maxTime: Option<int>, maxCount: Option<int>, calls: seq<Reading>,
                                     k: nat, i: nat)
    requires k <= i < |calls| && !Shut(both, maxTime, maxCount)
    requires forall j | 0 <= j < k :: !Due(both, maxTime, maxCount, calls, j)
    ensures Fired(WaitingAfter(maxTime, maxCount, calls, k), both, calls[k..])[i - k]
            <==> Due(both, maxTime, maxCount, calls, i)
                 && forall j | 0 <= j < i :: !Due(both, maxTime, maxCount, calls, j)
    decreases i - k
  {
    hide Due, Shut, Done, Fires, Called, WaitingAfter;
    var g := WaitingAfter(maxTime, maxCount, calls, k);
    WaitingStep(both, maxTime, maxCount, calls, k);
    assert calls[k..][0] == calls[k] && calls[k..][1..] == calls[k + 1..];
    if i > k {
      var g' := WaitingAfter(maxTime, maxCount, calls, k + 1);
      assert Fired(g, both, calls[k..])[i - k] == Fired(g', both, calls[k + 1..])[i - k - 1];
      if Due(both, maxTime, maxCount, calls, k) {
        ShutStays(g', both, calls[k + 1..], i - k - 1);
      } else {
        FiresFrom(both, maxTime, maxCount, calls, k + 1, i);
      }
    }
  }

  /**
   A new task, called without resets, fires at exactly the first call that is due: for both limits
   when both are met, for either when one is; and never if its limits are met before the first call.
   */
  lemma FiresWhenFirstDue(both: bool, maxTime: Option<int>, maxCount: Option<int>, calls: seq<Reading>, i: nat)
    requires i < |calls|
    ensures Fired(NewGate(maxTime, maxCount), both, calls)[i]
            <==> !Shut(both, maxTime, maxCount) && Due(both, maxTime, maxCount, calls, i)
                 && forall j | 0 <= j < i :: !Due(both, maxTime, maxCount, calls, j)
  {
    hide Due, Fired;
    if Shut(both, maxTime, maxCount) {
      ShutStays(NewGate(maxTime, maxCount), both, calls, i);
    } else {
      assert calls[0..] == calls;
      FiresFrom(both, maxTime, maxCount, calls, 0, i);
    }
  }

  // The controller's use of a task: reset after every firing.
  function ResetRun(g: Gate, calls: seq<Reading>): (fired: seq<bool>)
    ensures |fired| == |calls|
    decreases |calls|
  {
    if calls == [] then [] else
      var first, second := calls[0].first, calls[0].second;
      var fires := Fires(g, true, first, second);
      var g' := Called(g, true, first, second);
      [fires] + ResetRun(if fires then Cleared(g') else g', calls[1..])
  }

  lemma {:induction false} OpenAfterInterval(g: Gate, calls: seq<Reading>, i: nat)
    requires g.maxTime.Some? && g.maxCount == Some(1) && g.start.Some? && g.runCount.ValueOr(0) >= 0 && !DoneBoth(g)
    requires i < |calls|
    ensures ResetRun(g, calls)[i] <==> calls[i].second - g.start.value >= g.maxTime.value
    decreases |calls|
  {
    var first, second := calls[0].first, calls[0].second;
    var fires := Fires(g, true, first, second);
    var g' := Called(g, true, first, second);
    if i > 0 {
      var next := if fires then Cleared(g') else g';
      OpenAfterInterval(next, calls[1..], i - 1);
    }
  }

  // The task after the first of its calls.
  function AfterFirst(maxTime: int, call: Reading): Gate {
    var g := NewGate(Some(maxTime), Some(1));
    var g' := Called(g, true, call.first, call.second);
    if Fires(g, true, call.first, call.second) then Cleared(g') else g'
  }

  lemma FirstCall(maxTime: int, call: Reading)
    ensures Fires(NewGate(Some(maxTime), Some(1)), true, call.first, call.second)
            <==> call.second - call.first >= maxTime
    ensures var g := AfterFirst(maxTime, call);
            g.maxTime == Some(maxTime) && g.maxCount == Some(1) && g.start == Some(call.first)
            && g.runCount.ValueOr(0) >= 0 && !DoneBoth(g)
  {
  }

  /**
   The interval is not one: a task with a time limit and count 1, reset after every firing,
   fires at exactly those calls made at least the limit after its very first call. Resetting
   does not restart the clock, so once it has fired it fires at every later call.
   */
  lemma FiresEverAfter(maxTime: int, calls: seq<Reading>, i: nat)
    requires i < |calls|
    ensures ResetRun(NewGate(Some(maxTime), Some(1)), calls)[i] <==> calls[i].second - calls[0].first >= maxTime
  {
    hide Fires, Called, Cleared, DoneBoth;
    FirstCall(maxTime, calls[0]);
    if i > 0 {
      OpenAfterInterval(AfterFirst(maxTime, calls[0]), calls[1..], i - 1);
    }
  }
}
