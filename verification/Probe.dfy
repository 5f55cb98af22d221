/** Once-per-outage warnings (crates/core/src/probe.rs). */
module Probe {
  datatype ProbeResult = Healthy | Degraded | Unreachable

  datatype Observation = Observation(instance: string, result: ProbeResult)

  const THRESHOLD := 3

  /** One instance's results, in order. */
  function ResultsOf(trace: seq<Observation>, instance: string): seq<ProbeResult> {
    if trace == [] then [] else
    var rest, last := ResultsOf(trace[..|trace| - 1], instance), trace[|trace| - 1];
    if last.instance == instance then rest + [last.result] else rest
  }

  /** Length of the unreachable run a list of results ends with. */
  function Trailing(results: seq<ProbeResult>): nat {
    if results == [] || results[|results| - 1] != Unreachable then 0 else 1 + Trailing(results[..|results| - 1])
  }

  /** What the two maps say of an instance whose last `n` results were unreachable. */
  predicate CountersOk(counts: map<string, nat>, warned: map<string, bool>, i: string, n: nat) {
    && (i in counts <==> n > 0) && (i in counts ==> counts[i] == n)
    && (i in warned <==> n >= THRESHOLD) && (i in warned ==> warned[i])
  }

  class UnreachableCounters {
    var counts: map<string, nat>
    var warned: map<string, bool>
    ghost var trace: seq<Observation>

    ghost predicate Valid()
      reads this
    {
      forall i :: CountersOk(counts, warned, i, Trailing(ResultsOf(trace, i)))
    }

    constructor ()
      ensures Valid() && trace == []
    {
      counts, warned, trace := map[], map[], [];
    }

    /** Warns exactly at the third result of an unreachable run, whatever other instances report in between. */
    method Observe(instance: string, result: ProbeResult) returns (warn: bool)
      requires Valid()
      modifies this
      ensures Valid() && trace == old(trace) + [Observation(instance, result)]
      ensures warn <==> Trailing(ResultsOf(trace, instance)) == THRESHOLD
    {
      hide Trailing, ResultsOf;
      assert CountersOk(counts, warned, instance, Trailing(ResultsOf(trace, instance)));
      Observed(trace, Observation(instance, result));
      warn := Count(instance, result);
      trace := trace + [Observation(instance, result)];
      forall i ensures CountersOk(counts, warned, i, Trailing(ResultsOf(trace, i))) {
        if i != instance {
          assert CountersOk(old(counts), old(warned), i, Trailing(ResultsOf(old(trace), i)));
        }
      }
    }

    /** The counting itself; no other instance's counters move. */
    method Count(instance: string, result: ProbeResult) returns (warn: bool)
      requires exists n :: CountersOk(counts, warned, instance, n)
      modifies this`counts, this`warned
      ensures forall n | CountersOk(old(counts), old(warned), instance, n) ::
                var m := if result == Unreachable then n + 1 else 0;
                CountersOk(counts, warned, instance, m) && (warn <==> m == THRESHOLD)
      ensures forall i, n | i != instance :: CountersOk(counts, warned, i, n) == CountersOk(old(counts), old(warned), i, n)
    {
      if result == Unreachable {
        var n := (if instance in counts then counts[instance] else 0) + 1;
        counts := counts[instance := n];
        if n >= THRESHOLD && !(instance in warned && warned[instance]) {
          warned := warned[instance := true];
          return true;
        }
        return false;
      }
      counts := counts - {instance};
      warned := warned - {instance};
      return false;
    }
  }

  lemma Observed(trace: seq<Observation>, o: Observation)
    ensures forall i | i != o.instance :: ResultsOf(trace + [o], i) == ResultsOf(trace, i)
    ensures Trailing(ResultsOf(trace + [o], o.instance)) ==
            if o.result == Unreachable then Trailing(ResultsOf(trace, o.instance)) + 1 else 0
  {
    assert (trace + [o])[..|trace|] == trace;
    var rs := ResultsOf(trace, o.instance);
    assert (rs + [o.result])[..|rs|] == rs;
  }

  // ----- Counting warnings -----

  /** Warnings given over a list of results: the times the trailing run is exactly three. */
  function Warnings(results: seq<ProbeResult>): nat {
    if results == [] then 0
    else Warnings(results[..|results| - 1]) + (if Trailing(results) == THRESHOLD then 1 else 0)
  }

  /** Results `i` to `j` are an unreachable run that cannot be extended. */
  ghost predicate MaximalRun(results: seq<ProbeResult>, i: int, j: int) {
    && 0 <= i < j <= |results|
    && (forall k | i <= k < j :: results[k] == Unreachable)
    && (i > 0 ==> results[i - 1] != Unreachable) && (j < |results| ==> results[j] != Unreachable)
  }

  ghost predicate StartsLongRun(results: seq<ProbeResult>, i: int) {
    exists j :: MaximalRun(results, i, j) && j - i >= THRESHOLD
  }

  /** Starts of the maximal runs of at least three. */
  ghost function LongRuns(results: seq<ProbeResult>): set<int> {
    set i: int | 0 <= i < |results| && StartsLongRun(results, i)
  }

  lemma {:induction false} TrailingIsRun(results: seq<ProbeResult>)
    ensures Trailing(results) <= |results|
    ensures forall k | |results| - Trailing(results) <= k < |results| :: results[k] == Unreachable
    ensures Trailing(results) < |results| ==> results[|results| - Trailing(results) - 1] != Unreachable
  {
    if results != [] && results[|results| - 1] == Unreachable {
      TrailingIsRun(results[..|results| - 1]);
    }
  }

  /** One more result changes the long runs only when it makes the trailing run three long. */
  lemma LongRunsSnoc(results: seq<ProbeResult>, r: ProbeResult)
    ensures var all := results + [r];
            LongRuns(all) == LongRuns(results) + (if Trailing(all) == THRESHOLD then {|all| - THRESHOLD} else {})
    ensures Trailing(results + [r]) == THRESHOLD ==> |results| + 1 - THRESHOLD !in LongRuns(results)
  {
    var all := results + [r];
    TrailingIsRun(results);
    TrailingIsRun(all);
    assert all[..|results|] == results;
    forall i | i in LongRuns(results) ensures i in LongRuns(all) {
      var j :| MaximalRun(results, i, j) && j - i >= THRESHOLD;
      if j == |results| && r == Unreachable {
        assert MaximalRun(all, i, j + 1);
      } else {
        assert MaximalRun(all, i, j);
      }
    }
    forall i | i in LongRuns(all) && i !in LongRuns(results) ensures Trailing(all) == THRESHOLD && i == |all| - THRESHOLD {
      NewLongRun(results, r, i);
    }
    if Trailing(all) == THRESHOLD {
      assert MaximalRun(all, |all| - THRESHOLD, |all|);
    }
  }

  lemma NewLongRun(results: seq<ProbeResult>, r: ProbeResult, i: int)
    requires i in LongRuns(results + [r])
    ensures i in LongRuns(results) || (Trailing(results + [r]) == THRESHOLD && i == |results| + 1 - THRESHOLD)
  {
    var all := results + [r];
    TrailingIsRun(all);
    var j :| MaximalRun(all, i, j) && j - i >= THRESHOLD;
    if j <= |results| {
      assert MaximalRun(results, i, j);
    } else if j - i > THRESHOLD {
      assert MaximalRun(results, i, j - 1);
    }
  }

  /** Over any results, one warning for each maximal unreachable run of at least three. */
  lemma {:induction false} OneWarningPerLongRun(results: seq<ProbeResult>)
    ensures Warnings(results) == |LongRuns(results)|
  {
    if results != [] {
      var init, r := results[..|results| - 1], results[|results| - 1];
      OneWarningPerLongRun(init);
      assert results == init + [r];
      LongRunsSnoc(init, r);
    }
  }

  /** The warnings `Observe` gives for one instance over a trace of them all. */
  function WarningsFor(trace: seq<Observation>, instance: string): nat {
    if trace == [] then 0 else
    WarningsFor(trace[..|trace| - 1], instance) +
    (if trace[|trace| - 1].instance == instance && Trailing(ResultsOf(trace, instance)) == THRESHOLD then 1 else 0)
  }

  lemma {:induction false} InstancesAreIndependent(trace: seq<Observation>, instance: string)
    ensures WarningsFor(trace, instance) == Warnings(ResultsOf(trace, instance))
    ensures WarningsFor(trace, instance) == |LongRuns(ResultsOf(trace, instance))|
  {
    if trace != [] {
      var init, last := trace[..|trace| - 1], trace[|trace| - 1];
      InstancesAreIndependent(init, instance);
      var rs := ResultsOf(init, instance);
      assert (rs + [last.result])[..|rs|] == rs;
    }
    OneWarningPerLongRun(ResultsOf(trace, instance));
  }
}
