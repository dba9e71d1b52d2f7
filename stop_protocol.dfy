/** The arithmetic of the cooperative stop: the stopped-counter and the
    all-stopped flag of one event type, as the park/count block of the worker
    loop updates them. */
module StopProtocol {

  /** The stopped-counter and the all-stopped flag of one type. */
  datatype Tally = Tally(counter: int, allStopped: bool)

  /** One pass of the park/count block by a thread that found the stop flag set,
      where `n` is the length of the type's worker-handle list. While the flag is
      clear the pass counts one more observation; the observation that brings the
      counter to `n` raises the flag and resets the counter. Once raised, passes
      change nothing. The pass does not know which thread makes it. */
  function Observe(n: int, p: Tally): (r: Tally)
    ensures p.allStopped ==> r == p
    ensures !p.allStopped ==> (r.allStopped <==> p.counter + 1 == n)
    ensures !p.allStopped && r.allStopped ==> r.counter == 0
    ensures !p.allStopped && !r.allStopped ==> r.counter == p.counter + 1
    ensures 0 <= p.counter < n ==> 0 <= r.counter < n
  {
    if p.allStopped then p
    else if p.counter + 1 == n then Tally(0, true)
    else Tally(p.counter + 1, false)
  }

  /** `k` passes of the park/count block in a row. */
  function ObserveTimes(n: int, p: Tally, k: nat): Tally
    decreases k
  {
    if k == 0 then p else ObserveTimes(n, Observe(n, p), k - 1)
  }

  lemma {:induction false} StaysStopped(n: int, c: int, k: nat)
    ensures ObserveTimes(n, Tally(c, true), k) == Tally(c, true)
    decreases k
  {
    if k > 0 {
      StaysStopped(n, c, k - 1);
    }
  }

  /** From a counter `c` below `n`, the flag rises at exactly the observation
      that makes `n` in all; before that each observation adds one. */
  lemma {:induction false} ObservationsRelease(n: int, c: int, k: nat)
    requires 0 <= c < n
    ensures c + k < n ==> ObserveTimes(n, Tally(c, false), k) == Tally(c + k, false)
    ensures c + k >= n ==> ObserveTimes(n, Tally(c, false), k) == Tally(0, true)
    decreases k
  {
    if k > 0 {
      if c + 1 == n {
        StaysStopped(n, 0, k - 1);
      } else {
        ObservationsRelease(n, c + 1, k - 1);
      }
    }
  }
}
