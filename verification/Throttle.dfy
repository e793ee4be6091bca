/** The progress throttle, driven by the counts 1, 2, 3, ... that the pool reports. */
module Throttle {
  import opened Prelude
  import Pool

  datatype Limits = Limits(total: nat, every: int, intervalMs: int)

  /** What the closure remembers: the time and the count of its last report. */
  datatype Memory = Memory(lastAt: int, lastCount: int)

  predicate Fires(l: Limits, m: Memory, completed: int, now: int) {
    completed == l.total || completed - m.lastCount >= l.every || now - m.lastAt >= l.intervalMs
  }

  /** The counts reported when completions `from + 1`, `from + 2`, ... happen at the given times. */
  function Reports(l: Limits, m: Memory, from: nat, times: seq<int>): seq<int>
    decreases |times|
  {
    if times == [] then []
    else if Fires(l, m, from + 1, times[0]) then
      [from + 1] + Reports(l, Memory(times[0], from + 1), from + 1, times[1..])
    else Reports(l, m, from + 1, times[1..])
  }

  class Reporter {
    const limits: Limits
    var lastAt: int
    var lastCount: int
    var sent: seq<int>

    constructor (limits: Limits)
      ensures this.limits == limits && lastAt == 0 && lastCount == 0 && sent == []
    {
      this.limits := limits;
      lastAt, lastCount, sent := 0, 0, [];
    }

    method Tick(completed: int, now: int)
      modifies this
      ensures Fires(limits, Memory(old(lastAt), old(lastCount)), completed, now) ==>
                lastAt == now && lastCount == completed && sent == old(sent) + [completed]
      ensures !Fires(limits, Memory(old(lastAt), old(lastCount)), completed, now) ==>
                lastAt == old(lastAt) && lastCount == old(lastCount) && sent == old(sent)
    {
      var isLast := completed == limits.total;
      if !isLast && completed - lastCount < limits.every && now - lastAt < limits.intervalMs {
        return;
      }
      lastAt := now;
      lastCount := completed;
      sent := sent + [completed];
    }
  }

  /** One callback for each settled call, in the order the pool makes them. */
  method Drive(l: Limits, times: seq<int>) returns (sent: seq<int>)
    ensures sent == Reports(l, Memory(0, 0), 0, times)
  {
    var reporter := new Reporter(l);
    var completed := 0;
    while completed < |times|
      invariant 0 <= completed <= |times| && fresh(reporter) && reporter.limits == l
      invariant reporter.sent + Reports(l, Memory(reporter.lastAt, reporter.lastCount), completed, times[completed..])
             == Reports(l, Memory(0, 0), 0, times)
    {
      assert times[completed..][1..] == times[completed + 1..];
      reporter.Tick(completed + 1, times[completed]);
      completed := completed + 1;
    }
    sent := reporter.sent;
  }

  // ----- spacing

  /** Every count exceeds the one before it, by at most `every`. */
  ghost predicate Spaced(prev: int, counts: seq<int>, every: int) {
    && (counts != [] ==> prev < counts[0] <= prev + every)
    && forall j, k :: 0 <= j < |counts| && k == j + 1 < |counts| ==> counts[j] < counts[k] <= counts[j] + every
  }

  function LastOr(counts: seq<int>, prev: int): int {
    if counts == [] then prev else counts[|counts| - 1]
  }

  lemma SpacedCons(prev: int, head: int, rest: seq<int>, every: int)
    requires prev < head <= prev + every && Spaced(head, rest, every)
    ensures Spaced(prev, [head] + rest, every)
  {
    var counts := [head] + rest;
    forall j, k | 0 <= j < |counts| && k == j + 1 < |counts|
      ensures counts[j] < counts[k] <= counts[j] + every
    {
      assert counts[k] == rest[j];
      if j > 0 {
        assert counts[j] == rest[j - 1];
      }
    }
  }

  lemma LastOrCons(head: int, rest: seq<int>, prev: int)
    ensures LastOr([head] + rest, prev) == LastOr(rest, head)
  {
  }

  lemma {:induction false} ReportsSpaced(l: Limits, m: Memory, from: nat, times: seq<int>)
    requires 0 <= from - m.lastCount < l.every
    ensures Spaced(m.lastCount, Reports(l, m, from, times), l.every)
    ensures 0 <= from + |times| - LastOr(Reports(l, m, from, times), m.lastCount) < l.every
    ensures times != [] && from + |times| == l.total ==> LastOr(Reports(l, m, from, times), m.lastCount) == l.total
    decreases |times|
  {
    if times != [] {
      if Fires(l, m, from + 1, times[0]) {
        var rest := Reports(l, Memory(times[0], from + 1), from + 1, times[1..]);
        ReportsSpaced(l, Memory(times[0], from + 1), from + 1, times[1..]);
        SpacedCons(m.lastCount, from + 1, rest, l.every);
        LastOrCons(from + 1, rest, m.lastCount);
        hide Spaced, LastOr;
      } else {
        ReportsSpaced(l, m, from + 1, times[1..]);
      }
    }
  }

  // ----- how many reports

  ghost predicate Ascending(times: seq<int>) {
    forall i, j :: 0 <= i < j < |times| ==> times[i] <= times[j]
  }

  lemma DivAtLeast(x: int, e: int, k: int)
    requires e > 0 && x >= e * k
    ensures x / e >= k
  {
    assert x == e * (x / e) + x % e;
    assert e * (x / e) > e * k - e;
    assert e * (x / e - k + 1) > 0;
  }

  lemma DivMonotone(x: int, y: int, e: int)
    requires e > 0 && x <= y
    ensures x / e <= y / e
  {
    DivAtLeast(y, e, x / e);
  }

  lemma DivAdvance(x: int, gain: int, e: int)
    requires e > 0 && gain >= e
    ensures 1 + x / e <= (x + gain) / e
  {
    assert e * (x / e + 1) == e * (x / e) + e;
    DivAtLeast(x + gain, e, x / e + 1);
  }

  /** How many whole `e`s fit in `x`. */
  function Fit(x: int, e: int): int
    requires e > 0
  {
    x / e
  }

  lemma FitNonNegative(x: int, e: int)
    requires e > 0 && x >= 0
    ensures Fit(x, e) >= 0
  {
    DivAtLeast(x, e, 0);
  }

  /** Between two reports either the count advanced by `every` or the clock by `intervalMs`. */
  lemma {:induction false} LaterReports(l: Limits, m: Memory, from: nat, times: seq<int>)
    requires l.every > 0 && l.intervalMs > 0 && m.lastCount <= from && from + |times| <= l.total
    requires times != [] ==> Ascending([m.lastAt] + times)
    ensures times == [] ==> Reports(l, m, from, times) == []
    ensures times != [] ==>
              (|Reports(l, m, from, times)| <=
                 1 + Fit(from + |times| - m.lastCount, l.every) + Fit(times[|times| - 1] - m.lastAt, l.intervalMs))
    decreases |times|
  {
    if times != [] {
      var (rest, now) := (times[1..], times[0]);
      assert forall k :: 0 <= k < |times| ==> ([m.lastAt] + times)[k + 1] == times[k];
      assert ([m.lastAt] + times)[0] == m.lastAt;
      FitNonNegative(from + |times| - m.lastCount, l.every);
      FitNonNegative(times[|times| - 1] - m.lastAt, l.intervalMs);
      hide Fit;
      if !Fires(l, m, from + 1, now) {
        assert rest != [] ==> Ascending([m.lastAt] + rest);
        LaterReports(l, m, from + 1, rest);
      } else {
        assert rest != [] ==> Ascending([now] + rest);
        LaterReports(l, Memory(now, from + 1), from + 1, rest);
        if rest != [] {
          LaterStep(l, m, from, times);
        }
      }
    }
  }

  lemma LaterStep(l: Limits, m: Memory, from: nat, times: seq<int>)
    requires l.every > 0 && l.intervalMs > 0 && m.lastCount <= from
    requires times != [] && m.lastAt <= times[0]
    requires from + 1 - m.lastCount >= l.every || times[0] - m.lastAt >= l.intervalMs
    ensures 1 + Fit(from + |times| - (from + 1), l.every) + Fit(times[|times| - 1] - times[0], l.intervalMs)
         <= Fit(from + |times| - m.lastCount, l.every) + Fit(times[|times| - 1] - m.lastAt, l.intervalMs)
  {
    var (counted, elapsed) := (from + |times| - (from + 1), times[|times| - 1] - times[0]);
    DivMonotone(counted, from + |times| - m.lastCount, l.every);
    DivMonotone(elapsed, times[|times| - 1] - m.lastAt, l.intervalMs);
    if from + 1 - m.lastCount >= l.every {
      DivAdvance(counted, from + 1 - m.lastCount, l.every);
    } else {
      DivAdvance(elapsed, times[0] - m.lastAt, l.intervalMs);
    }
  }

  lemma {:induction false} AllReports(l: Limits, m: Memory, from: nat, times: seq<int>)
    requires l.every > 0 && l.intervalMs > 0 && m.lastCount <= from && from + |times| <= l.total
    requires times != [] && Ascending(times)
    ensures |Reports(l, m, from, times)|
         <= 2 + (l.total - from) / l.every + (times[|times| - 1] - times[0]) / l.intervalMs
    decreases |times|
  {
    var rest := times[1..];
    DivAtLeast(l.total - from, l.every, 0);
    DivAtLeast(times[|times| - 1] - times[0], l.intervalMs, 0);
    if Fires(l, m, from + 1, times[0]) {
      assert [times[0]] + rest == times;
      LaterReports(l, Memory(times[0], from + 1), from + 1, rest);
      if rest != [] {
        DivMonotone(from + 1 + |rest| - (from + 1), l.total - from, l.every);
      }
    } else if rest != [] {
      AllReports(l, m, from + 1, rest);
      DivMonotone(l.total - (from + 1), l.total - from, l.every);
      DivMonotone(times[|times| - 1] - rest[0], times[|times| - 1] - times[0], l.intervalMs);
    }
  }

  /**
    A run of the pool, with the throttle as its `onSettled`: counts ascend in steps of at most `every`,
    the sends are few, and a batch that succeeds ends by reporting its total.
  */
  lemma ThrottledRun<T, R, E>(job: Pool.Job<T, R, E>, evs: seq<Pool.Event>, t: Pool.State<R, E>,
                              l: Limits, times: seq<int>)
    requires Pool.Follows(job, Pool.Init(job), evs, t)
    requires l.total == |job.items| && l.every > 0 && l.intervalMs > 0
    requires |times| == t.completed && Ascending(times)
    ensures var sent := Reports(l, Memory(0, 0), 0, times);
            && t.reports == seq(|times|, (k: nat) => k + 1)
            && Spaced(0, sent, l.every)
            && (times != [] ==> |sent| <= 2 + l.total / l.every + (times[|times| - 1] - times[0]) / l.intervalMs)
            && (job.items != [] && job.width > 0 && Pool.Final(t) && Pool.Outcome(t).Ok? ==>
                  LastOr(sent, 0) == l.total)
  {
    Pool.EveryInterleaving(job, evs, t);
    Pool.InitInv(job);
    Pool.RunInv(job, Pool.Init(job), evs, t);
    ReportsSpaced(l, Memory(0, 0), 0, times);
    if times != [] {
      AllReports(l, Memory(0, 0), 0, times);
    }
    if job.items != [] && job.width > 0 && Pool.Final(t) && Pool.Outcome(t).Ok? {
      Pool.FillsEverySlot(job, evs, t);
    }
  }
}
