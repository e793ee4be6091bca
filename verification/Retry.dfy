/** Bounded retry of one API call. Times are milliseconds. */
module Retry {
  import opened Prelude

  datatype Failure = Api(status: int, retryAfter: int) | Transient | Other

  datatype Outcome<T> = Done(value: T) | Failed(error: Failure) | GaveUp(error: Failure)

  const MAX_ATTEMPTS: nat := 5
  const MAX_WAIT: int := 60_000

  function Retryable(e: Failure): Option<int> {
    match e
    case Api(status, retryAfter) =>
      if status == 429 then Some(retryAfter)
      else if status == 502 || status == 503 || status == 504 then Some(0)
      else None
    case Transient => Some(0)
    case Other => None
  }

  /** The pause after attempt `i`: what the server asked for, else two seconds more each time, capped. */
  function Pause(asked: int, i: nat): int {
    Min(if asked <= 0 then 2_000 * i else asked, MAX_WAIT)
  }

  /** Attempt `i` failed in a way worth retrying, and was followed by the right pause. */
  ghost predicate Paused<T>(attempt: nat -> Result<T, Failure>, i: nat, pause: int) {
    && attempt(i).Err? && Retryable(attempt(i).error).Some?
    && pause == Pause(Retryable(attempt(i).error).value, i)
    && 0 < pause <= MAX_WAIT
  }

  /** The instant at which attempt `i` starts. */
  function StartOf(start: int, wakes: seq<int>, i: nat): int
    requires 1 <= i <= |wakes| + 1
  {
    if i == 1 then start else wakes[i - 2]
  }

  /**
    `attempt(i)` is the outcome of the i-th call and `takes(i)` how long it runs. `wakes[k]` is the
    instant at which the pause after attempt k + 1 ends.
  */
  method WithRetry<T>(attempt: nat -> Result<T, Failure>, takes: nat -> nat, start: int, deadline: Option<int>)
    returns (outcome: Outcome<T>, attempts: nat, pauses: seq<int>, wakes: seq<int>)
    ensures 1 <= attempts <= MAX_ATTEMPTS && |pauses| == |wakes| == attempts - 1
    ensures forall k :: 0 <= k < |pauses| ==> Paused(attempt, k + 1, pauses[k])
    ensures forall k :: 0 <= k < |wakes| ==>
              wakes[k] == StartOf(start, wakes, k + 1) + takes(k + 1) + pauses[k]
    ensures forall k :: 0 <= k < |wakes| && deadline.Some? ==> wakes[k] <= deadline.value
    ensures match outcome
            case Done(v) => attempt(attempts) == Ok(v)
            case Failed(e) => attempt(attempts) == Err(e) && (Retryable(e) == None || attempts == MAX_ATTEMPTS)
            case GaveUp(e) =>
              && attempt(attempts) == Err(e) && Retryable(e).Some? && attempts < MAX_ATTEMPTS && deadline.Some?
              && StartOf(start, wakes, attempts) + takes(attempts) + Pause(Retryable(e).value, attempts) > deadline.value
  {
    attempts, pauses, wakes := 1, [], [];
    var now := start;
    while true
      invariant 1 <= attempts <= MAX_ATTEMPTS && |pauses| == |wakes| == attempts - 1
      invariant now == StartOf(start, wakes, attempts)
      invariant forall k :: 0 <= k < |pauses| ==> Paused(attempt, k + 1, pauses[k])
      invariant forall k :: 0 <= k < |wakes| ==>
                  wakes[k] == StartOf(start, wakes, k + 1) + takes(k + 1) + pauses[k]
      invariant forall k :: 0 <= k < |wakes| && deadline.Some? ==> wakes[k] <= deadline.value
      decreases MAX_ATTEMPTS - attempts
    {
      var result := attempt(attempts);
      now := now + takes(attempts);
      if result.Ok? {
        return Done(result.value), attempts, pauses, wakes;
      }
      var asked := Retryable(result.error);
      if asked == None || attempts >= MAX_ATTEMPTS {
        return Failed(result.error), attempts, pauses, wakes;
      }
      var wait := asked.value;
      if wait <= 0 {
        wait := 2_000 * attempts;
      }
      if wait > MAX_WAIT {
        wait := MAX_WAIT;
      }
      if deadline.Some? && deadline.value - now < wait {
        return GaveUp(result.error), attempts, pauses, wakes;
      }
      assert Paused(attempt, attempts, wait);
      now := now + wait;
      pauses, wakes := pauses + [wait], wakes + [now];
      attempts := attempts + 1;
    }
  }
}
