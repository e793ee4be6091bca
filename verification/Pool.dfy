/**
  The bounded worker pool. A call of `fn` either settles well or badly; because no index is ever
  passed twice (proved below), the outcome of a call is modelled as a function of its index, and a
  schedule is the order in which workers take their turns. Between two turns nothing else runs: the
  workers share variables and yield only while a call is in flight.
*/
module Pool {
  import opened Prelude

  datatype Job<!T, R, E> = Job(items: seq<T>, width: nat, serialFirst: bool, fn: (T, nat) -> Result<R, E>)

  datatype Worker = Idle | Running(index: nat) | Done

  datatype Phase<E> = Serial | Fan | Crashed(error: E)

  /** `calls` lists the indices given to `fn` and `reports` the arguments given to `onSettled`. */
  datatype State<R, E> = State(
    phase: Phase<E>,
    next: nat,
    completed: nat,
    failures: seq<E>,
    out: seq<Option<R>>,
    workers: seq<Worker>,
    calls: seq<nat>,
    reports: seq<nat>)

  datatype Event = First | Turn(worker: nat)

  function Call<T, R, E>(job: Job<T, R, E>, i: nat): Result<R, E>
    requires i < |job.items|
  {
    job.fn(job.items[i], i)
  }

  function Init<T, R, E>(job: Job<T, R, E>): State<R, E> {
    var serial := job.serialFirst && job.items != [];
    State(if serial then Serial else Fan, 0, 0, [], seq(|job.items|, _ => None),
          seq(Min(job.width, |job.items|), _ => Idle), if serial then [0] else [], [])
  }

  /** The head of the worker loop: take the next index, then start the call or leave. */
  function Claim<T, R, E>(job: Job<T, R, E>, s: State<R, E>, w: nat): State<R, E>
    requires w < |s.workers|
  {
    if s.next < |job.items| && s.failures == [] then
      s.(next := s.next + 1, workers := s.workers[w := Running(s.next)], calls := s.calls + [s.next])
    else
      s.(next := s.next + 1, workers := s.workers[w := Done])
  }

  function Settle<T, R, E>(job: Job<T, R, E>, s: State<R, E>, w: nat): State<R, E>
    requires w < |s.workers| && s.workers[w].Running?
    requires s.workers[w].index < |job.items| == |s.out|
  {
    var i := s.workers[w].index;
    match Call(job, i)
    case Err(e) => s.(failures := s.failures + [e], workers := s.workers[w := Done])
    case Ok(r) =>
      Claim(job, s.(out := s.out[i := Some(r)], completed := s.completed + 1, reports := s.reports + [s.completed + 1]), w)
  }

  function SettleFirst<T, R, E>(job: Job<T, R, E>, s: State<R, E>): State<R, E>
    requires 0 < |job.items| == |s.out|
  {
    match Call(job, 0)
    case Err(e) => s.(phase := Crashed(e))
    case Ok(r) =>
      s.(phase := Fan, next := 1, out := s.out[0 := Some(r)], completed := s.completed + 1,
         reports := s.reports + [s.completed + 1])
  }

  predicate Enabled<T, R, E>(job: Job<T, R, E>, s: State<R, E>, ev: Event) {
    && |s.out| == |job.items|
    && match ev
       case First => s.phase == Serial && job.items != []
       case Turn(w) =>
         && s.phase == Fan && w < |s.workers| && s.workers[w] != Done
         && (s.workers[w].Running? ==> s.workers[w].index < |job.items|)
  }

  function Step<T, R, E>(job: Job<T, R, E>, s: State<R, E>, ev: Event): State<R, E>
    requires Enabled(job, s, ev)
  {
    match ev
    case First => SettleFirst(job, s)
    case Turn(w) => if s.workers[w] == Idle then Claim(job, s, w) else Settle(job, s, w)
  }

  /** `evs` is a schedule that leads from `s` to `t`. */
  ghost predicate Follows<T, R, E>(job: Job<T, R, E>, s: State<R, E>, evs: seq<Event>, t: State<R, E>)
    decreases |evs|
  {
    if evs == [] then s == t
    else Enabled(job, s, evs[0]) && Follows(job, Step(job, s, evs[0]), evs[1..], t)
  }

  /** The pool's promise is settled: the first call threw, or every worker has left its loop. */
  predicate Final<R, E>(s: State<R, E>) {
    s.phase.Crashed? || (s.phase == Fan && forall w :: 0 <= w < |s.workers| ==> s.workers[w] == Done)
  }

  function Outcome<R, E>(s: State<R, E>): Result<seq<Option<R>>, E> {
    if s.phase.Crashed? then Err(s.phase.error)
    else if s.failures != [] then Err(s.failures[0])
    else Ok(s.out)
  }

  // ----- counting workers

  function Tally(ws: seq<Worker>, weight: Worker -> nat): nat {
    if ws == [] then 0 else weight(ws[0]) + Tally(ws[1..], weight)
  }

  const InFlight: Worker -> nat := (w: Worker) => if w.Running? then 1 else 0
  const Live: Worker -> nat := (w: Worker) => if w == Done then 0 else 1

  lemma {:induction false} TallyUpdate(ws: seq<Worker>, weight: Worker -> nat, k: nat, w: Worker)
    requires k < |ws|
    ensures Tally(ws[k := w], weight) == Tally(ws, weight) - weight(ws[k]) + weight(w)
  {
    if k == 0 {
      assert ws[k := w][1..] == ws[1..];
    } else {
      TallyUpdate(ws[1..], weight, k - 1, w);
      assert ws[k := w][1..] == ws[1..][k - 1 := w];
    }
  }

  lemma {:induction false} TallyBound(ws: seq<Worker>, weight: Worker -> nat)
    requires forall w :: weight(w) <= 1
    ensures Tally(ws, weight) <= |ws|
    ensures Tally(ws, weight) == |ws| <==> forall k :: 0 <= k < |ws| ==> weight(ws[k]) == 1
    ensures Tally(ws, weight) == 0 <==> forall k :: 0 <= k < |ws| ==> weight(ws[k]) == 0
  {
    if ws != [] {
      TallyBound(ws[1..], weight);
      assert forall k :: 1 <= k < |ws| ==> ws[k] == ws[1..][k - 1];
      assert forall k :: 0 <= k < |ws| - 1 ==> ws[1..][k] == ws[k + 1];
    }
  }

  // ----- what every step keeps

  /** Index `i` has been given to `fn` and its call has not settled. */
  ghost predicate Flying<R, E>(s: State<R, E>, i: nat) {
    (s.phase == Serial && i == 0) || exists w :: 0 <= w < |s.workers| && s.workers[w] == Running(i)
  }

  /** The call of index `i` threw and the pool has kept its error. */
  ghost predicate Failed<T, R, E>(job: Job<T, R, E>, s: State<R, E>, i: nat)
    requires i < |job.items|
  {
    Call(job, i).Err? && (s.phase.Crashed? || Call(job, i).error in s.failures)
  }

  /** One of the first `called` calls throws `e`. */
  ghost predicate Thrown<T, R, E>(job: Job<T, R, E>, called: nat, e: E) {
    exists i :: 0 <= i < called && i < |job.items| && Call(job, i) == Err(e)
  }

  ghost predicate Counters<T, R, E>(job: Job<T, R, E>, s: State<R, E>) {
    && |s.out| == |job.items|
    && |s.workers| == Min(job.width, |job.items|)
    && |s.calls| <= |job.items|
    && (forall k :: 0 <= k < |s.calls| ==> s.calls[k] == k)
    && |s.reports| == s.completed
    && (forall k :: 0 <= k < s.completed ==> s.reports[k] == k + 1)
    && |s.failures| + Tally(s.workers, Live) <= |s.workers|
    && s.completed + |s.failures| + Tally(s.workers, InFlight) + (if s.phase == Fan then 0 else 1) == |s.calls|
  }

  ghost predicate Phases<T, R, E>(job: Job<T, R, E>, s: State<R, E>) {
    && (s.phase != Fan ==>
          && job.serialFirst && |s.calls| == 1 && s.next == 0 && s.failures == [] && s.completed == 0
          && forall w :: 0 <= w < |s.workers| ==> s.workers[w] == Idle)
    && (s.phase.Crashed? ==> job.items != [] && Call(job, 0) == Err(s.phase.error))
    && (s.phase == Fan ==>
          && |s.calls| <= s.next
          && (job.serialFirst && job.items != [] ==> 1 <= s.next)
          && (s.failures == [] ==> |s.calls| == Min(s.next, |job.items|)))
    && (s.workers == [] ==> s.next <= if job.serialFirst then 1 else 0)
    && (s.phase == Fan && s.failures == [] && s.next < |job.items| ==>
          forall w :: 0 <= w < |s.workers| ==> s.workers[w] != Done)
  }

  ghost predicate Slots<T, R, E>(job: Job<T, R, E>, s: State<R, E>)
    requires |s.out| == |job.items|
  {
    && (forall w :: 0 <= w < |s.workers| && s.workers[w].Running? ==>
          s.workers[w].index < |s.calls| && s.workers[w].index < |s.out| && s.out[s.workers[w].index] == None)
    && (forall v, w :: 0 <= v < w < |s.workers| && s.workers[v].Running? ==> s.workers[v] != s.workers[w])
    && (forall i :: 0 <= i < |s.out| && s.out[i].Some? ==> i < |s.calls| && Call(job, i) == Ok(s.out[i].value))
    && (forall i :: 0 <= i < |s.out| && i < |s.calls| && s.out[i] == None ==> Flying(s, i) || Failed(job, s, i))
    && (forall k :: 0 <= k < |s.failures| ==> Thrown(job, |s.calls|, s.failures[k]))
  }

  ghost predicate Inv<T, R, E>(job: Job<T, R, E>, s: State<R, E>) {
    Counters(job, s) && Phases(job, s) && Slots(job, s)
  }

  lemma InitInv<T, R, E>(job: Job<T, R, E>)
    ensures Inv(job, Init(job))
  {
    var s := Init(job);
    TallyBound(s.workers, Live);
    TallyBound(s.workers, InFlight);
  }

  /** `s` where worker `w` has just left the body of its loop. */
  function AtHead<R, E>(s: State<R, E>, w: nat): State<R, E>
    requires w < |s.workers|
  {
    s.(workers := s.workers[w := Idle])
  }

  lemma ClaimCounters<T, R, E>(job: Job<T, R, E>, s: State<R, E>, w: nat)
    requires w < |s.workers| && s.phase == Fan && Phases(job, AtHead(s, w)) && Counters(job, AtHead(s, w))
    ensures Counters(job, Claim(job, s, w))
  {
    var t := Claim(job, s, w);
    var idle := AtHead(s, w).workers;
    assert t.workers == idle[w := t.workers[w]];
    TallyUpdate(idle, Live, w, t.workers[w]);
    TallyUpdate(idle, InFlight, w, t.workers[w]);
  }

  lemma ClaimSlots<T, R, E>(job: Job<T, R, E>, s: State<R, E>, w: nat)
    requires w < |s.workers| && s.phase == Fan && Phases(job, AtHead(s, w)) && Counters(job, AtHead(s, w))
    requires Slots(job, AtHead(s, w))
    ensures Slots(job, Claim(job, s, w))
  {
    var t := Claim(job, s, w);
    var idle := AtHead(s, w);
    assert forall v :: 0 <= v < |t.workers| && v != w ==> t.workers[v] == idle.workers[v];
    forall i | 0 <= i < |t.out| && i < |t.calls| && t.out[i] == None && !Failed(job, t, i)
      ensures Flying(t, i)
    {
      if i < |s.calls| {
        assert Flying(idle, i);
        var v :| 0 <= v < |idle.workers| && idle.workers[v] == Running(i);
        assert t.workers[v] == Running(i);
      } else {
        assert t.workers[w] == Running(i);
      }
    }
    forall k | 0 <= k < |t.failures|
      ensures Thrown(job, |t.calls|, t.failures[k])
    {
      assert Thrown(job, |s.calls|, idle.failures[k]);
    }
  }

  /** `s` after the call of worker `w` has settled well, before the worker takes its next index. */
  function Stored<R, E>(s: State<R, E>, w: nat, r: R): State<R, E>
    requires w < |s.workers| && s.workers[w].Running? && s.workers[w].index < |s.out|
  {
    s.(out := s.out[s.workers[w].index := Some(r)], completed := s.completed + 1,
       reports := s.reports + [s.completed + 1])
  }

  lemma StoredSlots<T, R, E>(job: Job<T, R, E>, s: State<R, E>, w: nat, r: R)
    requires Inv(job, s) && Enabled(job, s, Turn(w)) && s.workers[w].Running?
    requires Call(job, s.workers[w].index) == Ok(r)
    ensures Slots(job, AtHead(Stored(s, w, r), w))
  {
    var t := AtHead(Stored(s, w, r), w);
    assert forall v :: 0 <= v < |t.workers| && v != w ==> t.workers[v] == s.workers[v];
    forall j | 0 <= j < |t.out| && j < |t.calls| && t.out[j] == None && !Failed(job, t, j)
      ensures Flying(t, j)
    {
      assert Flying(s, j);
      var v :| 0 <= v < |s.workers| && s.workers[v] == Running(j);
      assert t.workers[v] == Running(j);
    }
  }

  lemma StoredCounters<T, R, E>(job: Job<T, R, E>, s: State<R, E>, w: nat, r: R)
    requires Inv(job, s) && Enabled(job, s, Turn(w)) && s.workers[w].Running?
    ensures Counters(job, AtHead(Stored(s, w, r), w)) && Phases(job, AtHead(Stored(s, w, r), w))
  {
    TallyUpdate(s.workers, Live, w, Idle);
    TallyUpdate(s.workers, InFlight, w, Idle);
  }

  lemma FailedInv<T, R, E>(job: Job<T, R, E>, s: State<R, E>, w: nat)
    requires Inv(job, s) && Enabled(job, s, Turn(w)) && s.workers[w].Running?
    requires Call(job, s.workers[w].index).Err?
    ensures Inv(job, Settle(job, s, w))
  {
    var t := Settle(job, s, w);
    var i := s.workers[w].index;
    TallyUpdate(s.workers, Live, w, Done);
    TallyUpdate(s.workers, InFlight, w, Done);
    assert forall v :: 0 <= v < |t.workers| && v != w ==> t.workers[v] == s.workers[v];
    forall j | 0 <= j < |t.out| && j < |t.calls| && t.out[j] == None && !Failed(job, t, j)
      ensures Flying(t, j)
    {
      assert Flying(s, j);
      var v :| 0 <= v < |s.workers| && s.workers[v] == Running(j);
      assert t.workers[v] == Running(j);
    }
    assert Thrown(job, |t.calls|, Call(job, i).error);
  }

  lemma SettleInv<T, R, E>(job: Job<T, R, E>, s: State<R, E>, w: nat)
    requires Inv(job, s) && Enabled(job, s, Turn(w)) && s.workers[w].Running?
    ensures Inv(job, Settle(job, s, w))
  {
    match Call(job, s.workers[w].index)
    case Err(e) => FailedInv(job, s, w);
    case Ok(r) =>
      StoredSlots(job, s, w, r);
      StoredCounters(job, s, w, r);
      ClaimCounters(job, Stored(s, w, r), w);
      ClaimSlots(job, Stored(s, w, r), w);
  }

  lemma FirstInv<T, R, E>(job: Job<T, R, E>, s: State<R, E>)
    requires Inv(job, s) && Enabled(job, s, First)
    ensures Inv(job, SettleFirst(job, s))
  {
    TallyBound(s.workers, Live);
    TallyBound(s.workers, InFlight);
    hide Tally;
  }

  lemma StartInv<T, R, E>(job: Job<T, R, E>, s: State<R, E>, w: nat)
    requires Inv(job, s) && Enabled(job, s, Turn(w)) && s.workers[w] == Idle
    ensures Inv(job, Claim(job, s, w))
  {
    assert AtHead(s, w) == s;
    ClaimCounters(job, s, w);
    ClaimSlots(job, s, w);
    hide Tally, Slots, Counters;
  }

  lemma StepInv<T, R, E>(job: Job<T, R, E>, s: State<R, E>, ev: Event)
    requires Inv(job, s) && Enabled(job, s, ev)
    ensures Inv(job, Step(job, s, ev))
  {
    hide Inv, Claim, Settle, SettleFirst;
    match ev
    case First => FirstInv(job, s);
    case Turn(w) =>
      if s.workers[w] == Idle {
        StartInv(job, s, w);
      } else {
        SettleInv(job, s, w);
      }
  }

  lemma {:induction false} RunInv<T, R, E>(job: Job<T, R, E>, s: State<R, E>, evs: seq<Event>, t: State<R, E>)
    requires Inv(job, s) && Follows(job, s, evs, t)
    ensures Inv(job, t)
    decreases |evs|
  {
    if evs != [] {
      StepInv(job, s, evs[0]);
      RunInv(job, Step(job, s, evs[0]), evs[1..], t);
    }
  }

  // ----- what holds in every interleaving

  lemma EveryInterleaving<T, R, E>(job: Job<T, R, E>, evs: seq<Event>, s: State<R, E>)
    requires Follows(job, Init(job), evs, s)
    ensures |s.out| == |job.items|
    ensures Distinct(s.calls) && forall i <- s.calls :: i < |job.items|
    ensures forall v, w :: 0 <= v < w < |s.workers| && s.workers[v].Running? && s.workers[w].Running? ==>
              s.workers[v].index != s.workers[w].index
    ensures Tally(s.workers, InFlight) <= job.width
    ensures s.phase == Serial ==> s.calls == [0] && Tally(s.workers, InFlight) == 0
    ensures s.reports == seq(s.completed, (k: nat) => k + 1)
    ensures |s.failures| <= job.width
    ensures forall i :: 0 <= i < |s.out| && s.out[i].Some? ==> Call(job, i) == Ok(s.out[i].value)
  {
    InitInv(job);
    RunInv(job, Init(job), evs, s);
    TallyBound(s.workers, InFlight);
  }

  lemma {:induction false} DrainsAfterFailure<T, R, E>(job: Job<T, R, E>, s: State<R, E>, evs: seq<Event>, t: State<R, E>)
    requires s.phase == Fan && s.failures != [] && Follows(job, s, evs, t)
    ensures t.calls == s.calls && t.phase == Fan && s.failures <= t.failures
    ensures Final(t) ==> Outcome(t) == Err(s.failures[0])
    decreases |evs|
  {
    if evs != [] {
      DrainsAfterFailure(job, Step(job, s, evs[0]), evs[1..], t);
    }
  }

  /** Whichever call fails first decides the error, whatever fails after it. */
  lemma FirstFailureWins<T, R, E>(job: Job<T, R, E>, s: State<R, E>, w: nat, e: E, evs: seq<Event>, t: State<R, E>)
    requires Inv(job, s) && s.failures == [] && Enabled(job, s, Turn(w))
    requires s.workers[w].Running? && Call(job, s.workers[w].index) == Err(e)
    requires Follows(job, Step(job, s, Turn(w)), evs, t) && Final(t)
    ensures Outcome(t) == Err(e) && t.calls == s.calls
  {
    DrainsAfterFailure(job, Step(job, s, Turn(w)), evs, t);
  }

  lemma CalledIsAccounted<T, R, E>(job: Job<T, R, E>, s: State<R, E>, i: nat)
    requires Inv(job, s) && i in s.calls
    ensures i < |job.items| == |s.out|
    ensures (s.out[i].Some? && Call(job, i) == Ok(s.out[i].value)) || Flying(s, i) || Failed(job, s, i)
  {
  }

  /** The promise settles only once nothing is in flight. */
  lemma SettledMeansDrained<T, R, E>(job: Job<T, R, E>, evs: seq<Event>, t: State<R, E>)
    requires Follows(job, Init(job), evs, t) && Final(t)
    ensures forall i: nat :: !Flying(t, i)
    ensures Outcome(t).Ok? <==> forall i <- t.calls :: i < |job.items| && Call(job, i).Ok?
  {
    InitInv(job);
    RunInv(job, Init(job), evs, t);
    TallyBound(t.workers, InFlight);
    if Outcome(t).Ok? {
      forall i <- t.calls
        ensures i < |job.items| && Call(job, i).Ok?
      {
        CalledIsAccounted(job, t, i);
      }
    } else if t.phase == Fan {
      assert Thrown(job, |t.calls|, t.failures[0]);
      var i :| 0 <= i < |t.calls| && i < |job.items| && Call(job, i) == Err(t.failures[0]);
      assert t.calls[i] == i;
    } else {
      assert t.calls[0] == 0;
    }
  }

  /** In a run without failures, whether every item gets its result depends on the width alone. */
  lemma FillsEverySlot<T, R, E>(job: Job<T, R, E>, evs: seq<Event>, t: State<R, E>)
    requires Follows(job, Init(job), evs, t) && Final(t) && Outcome(t).Ok?
    ensures Outcome(t) == Ok(t.out) && |t.out| == |job.items|
    ensures (forall i :: 0 <= i < |job.items| ==> t.out[i].Some? && Call(job, i) == Ok(t.out[i].value))
       <==> job.width > 0 || job.items == [] || (job.serialFirst && |job.items| == 1)
    ensures job.width > 0 ==> t.completed == |job.items|
  {
    InitInv(job);
    RunInv(job, Init(job), evs, t);
    SettledMeansDrained(job, evs, t);
    TallyBound(t.workers, InFlight);
    if job.width > 0 || job.items == [] || (job.serialFirst && |job.items| == 1) {
      EveryItemCalled(job, t);
      forall i | 0 <= i < |job.items|
        ensures t.out[i].Some? && Call(job, i) == Ok(t.out[i].value)
      {
        assert !Failed(job, t, i) && !Flying(t, i);
      }
    } else {
      assert t.workers == [];
      assert t.out[|job.items| - 1] == None;
    }
  }

  /** A pool of width zero resolves at once with every slot empty. */
  lemma ZeroWidthResolvesEmpty<T, R, E>(items: seq<T>, fn: (T, nat) -> Result<R, E>)
    requires items != []
    ensures var job := Job(items, 0, false, fn);
            var t := Init(job);
            && Follows(job, t, [], t) && Final(t) && Outcome(t) == Ok(seq(|items|, _ => None))
            && forall i :: 0 <= i < |items| ==> t.out[i] == None
  {
    var t := Init(Job(items, 0, false, fn));
    assert t.workers == [];
  }

  lemma EveryItemCalled<T, R, E>(job: Job<T, R, E>, t: State<R, E>)
    requires Inv(job, t) && Final(t) && Outcome(t).Ok?
    requires job.width > 0 || job.items == [] || (job.serialFirst && |job.items| == 1)
    ensures |t.calls| == |job.items|
  {
  }

  // ----- every schedule ends

  function Remaining<T, R, E>(job: Job<T, R, E>, s: State<R, E>): int {
    |job.items| - |s.calls| + Tally(s.workers, Live) + if s.phase == Serial then 1 else 0
  }

  lemma StepCountsDown<T, R, E>(job: Job<T, R, E>, s: State<R, E>, ev: Event)
    requires Enabled(job, s, ev)
    ensures Remaining(job, Step(job, s, ev)) == Remaining(job, s) - 1
  {
    match ev
    case First =>
    case Turn(w) => TallyUpdate(s.workers, Live, w, Step(job, s, ev).workers[w]);
  }

  lemma {:induction false} ScheduleLength<T, R, E>(job: Job<T, R, E>, s: State<R, E>, evs: seq<Event>, t: State<R, E>)
    requires Follows(job, s, evs, t)
    ensures |evs| == Remaining(job, s) - Remaining(job, t)
    decreases |evs|
  {
    if evs != [] {
      StepCountsDown(job, s, evs[0]);
      ScheduleLength(job, Step(job, s, evs[0]), evs[1..], t);
    }
  }

  /** No schedule is longer than one turn an item and one a worker, and none gets stuck before the end. */
  lemma EveryScheduleEnds<T, R, E>(job: Job<T, R, E>, evs: seq<Event>, s: State<R, E>)
    requires Follows(job, Init(job), evs, s)
    ensures |evs| <= |job.items| + Min(job.width, |job.items|)
    ensures Final(s) || exists ev :: Enabled(job, s, ev)
  {
    InitInv(job);
    RunInv(job, Init(job), evs, s);
    ScheduleLength(job, Init(job), evs, s);
    TallyBound(Init(job).workers, Live);
    if s.phase == Serial {
      assert Enabled(job, s, First);
    } else if !Final(s) {
      var w :| 0 <= w < |s.workers| && s.workers[w] != Done;
      assert Enabled(job, s, Turn(w));
    }
  }

  // ----- the pool itself

  lemma {:induction false} FollowsSnoc<T, R, E>(job: Job<T, R, E>, s: State<R, E>, evs: seq<Event>, t: State<R, E>, ev: Event)
    requires Follows(job, s, evs, t) && Enabled(job, t, ev)
    ensures Follows(job, s, evs + [ev], Step(job, t, ev))
    decreases |evs|
  {
    if evs == [] {
      assert ([] + [ev])[1..] == [];
    } else {
      FollowsSnoc(job, Step(job, s, evs[0]), evs[1..], t, ev);
      assert (evs + [ev])[1..] == evs[1..] + [ev];
    }
  }

  lemma Advance<T, R, E>(job: Job<T, R, E>, evs: seq<Event>, s: State<R, E>, w: nat)
    requires Follows(job, Init(job), evs, s) && s.phase == Fan && w < |s.workers| && s.workers[w] != Done
    ensures Enabled(job, s, Turn(w)) && Step(job, s, Turn(w)).phase == Fan
    ensures Follows(job, Init(job), evs + [Turn(w)], Step(job, s, Turn(w)))
    ensures Remaining(job, Step(job, s, Turn(w))) < Remaining(job, s) && Remaining(job, s) >= 0
  {
    InitInv(job);
    RunInv(job, Init(job), evs, s);
    StepCountsDown(job, s, Turn(w));
    FollowsSnoc(job, Init(job), evs, s, Turn(w));
  }

  /** The variables the worker loops share. */
  class WorkerPool<!T, R, E> {
    const job: Job<T, R, E>
    const out: array<Option<R>>
    var phase: Phase<E>
    var next: nat
    var completed: nat
    var failures: seq<E>
    var workers: seq<Worker>
    var calls: seq<nat>
    var reports: seq<nat>

    ghost function View(): State<R, E>
      reads this, out
    {
      State(phase, next, completed, failures, out[..], workers, calls, reports)
    }

    constructor (job: Job<T, R, E>)
      ensures this.job == job && fresh(out) && View() == Init(job)
    {
      var serial := job.serialFirst && job.items != [];
      this.job := job;
      out := new Option<R>[|job.items|](_ => None);
      phase := if serial then Serial else Fan;
      next, completed, failures, reports := 0, 0, [], [];
      workers := seq(Min(job.width, |job.items|), _ => Idle);
      calls := if serial then [0] else [];
      new;
      assert out[..] == Init(job).out;
    }

    /** The first item alone, outside any `try`: its error escapes at once. */
    method RunFirst()
      requires Enabled(job, View(), First)
      modifies this, out
      ensures View() == Step(job, old(View()), First)
    {
      match Call(job, 0)
      case Err(e) =>
        phase := Crashed(e);
      case Ok(r) =>
        out[0] := Some(r);
        next := 1;
        completed := completed + 1;
        reports := reports + [completed];
        phase := Fan;
    }

    /** One turn of a worker: from where its call settles to where it starts the next or leaves. */
    method TakeTurn(w: nat)
      requires Enabled(job, View(), Turn(w))
      modifies this, out
      ensures View() == Step(job, old(View()), Turn(w))
    {
      if workers[w].Running? {
        var i := workers[w].index;
        match Call(job, i)
        case Err(e) =>
          failures := failures + [e];
          workers := workers[w := Done];
          return;
        case Ok(r) =>
          out[i] := Some(r);
          completed := completed + 1;
          reports := reports + [completed];
      }
      var i := next;
      next := next + 1;
      if i < |job.items| && failures == [] {
        calls := calls + [i];
        workers := workers[w := Running(i)];
      } else {
        workers := workers[w := Done];
      }
    }
  }

  /** The pool under a scheduler that may give the turn to any live worker. */
  method RunPool<T, R, E>(job: Job<T, R, E>)
    returns (result: Result<seq<Option<R>>, E>, reports: seq<nat>, ghost evs: seq<Event>, ghost final: State<R, E>)
    ensures Follows(job, Init(job), evs, final) && Final(final)
    ensures result == Outcome(final) && reports == final.reports == seq(|reports|, (k: nat) => k + 1)
    ensures result.Ok? && job.width > 0 ==>
              |reports| == |result.value| == |job.items|
              && forall i :: 0 <= i < |job.items| ==>
                   result.value[i].Some? && Call(job, i) == Ok(result.value[i].value)
  {
    var pool := new WorkerPool(job);
    evs, final := [], Init(job);
    if pool.phase == Serial {
      pool.RunFirst();
      evs, final := [First], Step(job, final, First);
      if pool.phase.Crashed? {
        return Err(pool.phase.error), pool.reports, evs, final;
      }
    }
    while exists w :: 0 <= w < |pool.workers| && pool.workers[w] != Done
      invariant fresh(pool) && fresh(pool.out) && pool.job == job && pool.View() == final && final.phase == Fan
      invariant Follows(job, Init(job), evs, final)
      decreases Remaining(job, final)
    {
      var w :| 0 <= w < |pool.workers| && pool.workers[w] != Done;
      Advance(job, evs, final, w);
      pool.TakeTurn(w);
      evs, final := evs + [Turn(w)], Step(job, final, Turn(w));
    }
    result := if pool.failures != [] then Err(pool.failures[0]) else Ok(pool.out[..]);
    reports := pool.reports;
    EveryInterleaving(job, evs, final);
    if result.Ok? {
      FillsEverySlot(job, evs, final);
    }
  }
}
