/** The hang detector of `AgentSupervisor._check_collector_blocked`: a counter
    of consecutive polls that found no heartbeat in the collector's pipe. */
module Heartbeat {

  const MAX_FAILED_HEARTBEATS: nat := 8
  const SERVICE_SLEEP_INTERVAL: nat := 1

  /** `MAX_FAILED_HEARTBEATS * check_freq / SERVICE_SLEEP_INTERVAL`, evaluated
      with Python 2 integer division. */
  function Threshold(checkFreq: nat): (t: nat)
    ensures t == MAX_FAILED_HEARTBEATS * checkFreq
  {
    MAX_FAILED_HEARTBEATS * checkFreq / SERVICE_SLEEP_INTERVAL
  }

  /** The counter after one check, and whether the collector is declared
      blocked (and so force-restarted) by it.  The pipe is always empty after a
      check: pending beacons are all received, and there were none otherwise. */
  datatype Check = Check(failed: nat, blocked: bool)

  /** One call of `_check_collector_blocked` with `pending` beacons waiting. */
  function CheckBlocked(failed: nat, pending: nat, threshold: nat): (c: Check)
    // any heartbeat, however many, resets the counter and never restarts
    ensures pending > 0 ==> c == Check(0, false)
    // silence counts one more miss, restarting once the count passes the threshold
    ensures pending == 0 ==> (c.blocked <==> failed + 1 > threshold)
    ensures pending == 0 && !c.blocked ==> c.failed == failed + 1
    ensures c.blocked ==> c.failed == 0
    // so the counter never exceeds the threshold after a check
    ensures c.failed <= threshold
  {
    if pending > 0 then Check(0, false)
    else if failed + 1 > threshold then Check(0, true)
    else Check(failed + 1, false)
  }

  /** `n` consecutive polls without a heartbeat, starting from `failed`
      misses: the final counter and the number of forced restarts. */
  datatype Silence = Silence(failed: nat, restarts: nat)

  function SilentPolls(failed: nat, n: nat, threshold: nat): (s: Silence)
    decreases n
  {
    if n == 0 then Silence(failed, 0)
    else
      var c := CheckBlocked(failed, 0, threshold);
      var rest := SilentPolls(c.failed, n - 1, threshold);
      Silence(rest.failed, rest.restarts + if c.blocked then 1 else 0)
  }

  /** Euclidean division is determined by quotient and remainder. */
  lemma DivUnique(a: int, m: int, q: int, r: int)
    requires m > 0 && 0 <= r < m && a == q * m + r
    ensures a / m == q && a % m == r
  {
    var q', r' := a / m, a % m;
    assert (q - q') * m == r' - r;
    if q > q' {
      assert (q - q') * m >= m by { MulAtLeast(q - q', m); }
    } else if q < q' {
      assert (q' - q) * m >= m by { MulAtLeast(q' - q, m); }
    }
  }

  lemma MulAtLeast(k: int, m: int)
    requires k >= 1 && m > 0
    ensures k * m >= m
  {
    assert k * m == (k - 1) * m + m;
  }

  lemma DivStep(x: nat, m: nat)
    requires m > 0
    ensures (x + m) / m == x / m + 1 && (x + m) % m == x % m
  {
    DivUnique(x + m, m, x / m + 1, x % m);
  }

  /** In closed form: a silent collector is restarted every `threshold + 1`
      polls, so after `n` silent polls from a counter of `failed` (at most the
      threshold), `(failed + n) / (threshold + 1)` restarts have fired and the
      counter is the remainder. */
  lemma {:induction false} SilentPollsClosedForm(failed: nat, n: nat, threshold: nat)
    requires failed <= threshold
    ensures SilentPolls(failed, n, threshold).restarts == (failed + n) / (threshold + 1)
    ensures SilentPolls(failed, n, threshold).failed == (failed + n) % (threshold + 1)
    decreases n
  {
    var m := threshold + 1;
    if n == 0 {
    } else if failed + 1 > threshold {
      SilentPollsClosedForm(0, n - 1, threshold);
      DivStep(n - 1, m);
      assert failed + n == (n - 1) + m;
    } else {
      SilentPollsClosedForm(failed + 1, n - 1, threshold);
      assert failed + n == (failed + 1) + (n - 1);
    }
  }

  /** Starting from a reset counter, the first forced restart fires on silent
      poll `threshold + 1` and not before. */
  lemma FirstForcedRestart(threshold: nat)
    ensures SilentPolls(0, threshold, threshold).restarts == 0
    ensures SilentPolls(0, threshold, threshold).failed == threshold
    ensures SilentPolls(0, threshold + 1, threshold).restarts == 1
    ensures SilentPolls(0, threshold + 1, threshold).failed == 0
  {
    SilentPollsClosedForm(0, threshold, threshold);
    SilentPollsClosedForm(0, threshold + 1, threshold);
  }
}
