/**
 * The upstream retry counter of `connect_okx_and_relay` (identical in both
 * relays). The counter is zeroed when a connection opens; after every
 * attempt, whether the connect failed or the session ended, it is bumped,
 * and reaching the limit gives one long wait and a reset, every other time
 * a short wait. Waits are returned as values.
 */
module Retry {

  const MAX_RETRIES: nat := 5
  /** Seconds waited before the next attempt in the ordinary case. */
  const RETRY_DELAY: nat := 5

  /** The counter after an attempt and the seconds slept before the next one. */
  datatype Backoff = Backoff(count: nat, delay: nat)

  /**
   * The tail of the loop body: `retry_count += 1`, then either the long wait
   * and a reset or the short wait. The new count is always below the limit,
   * and the wait is long exactly when the bumped count reached the limit.
   */
  function AfterSession(count: nat): (b: Backoff)
    ensures b.count < MAX_RETRIES
    ensures b.delay == 2 * RETRY_DELAY <==> count + 1 >= MAX_RETRIES
    ensures b.delay != 2 * RETRY_DELAY ==> b.delay == RETRY_DELAY && b.count == count + 1
    ensures b.delay == 2 * RETRY_DELAY ==> b.count == 0
  {
    var bumped := count + 1;
    if bumped >= MAX_RETRIES then Backoff(0, RETRY_DELAY * 2) else Backoff(bumped, RETRY_DELAY)
  }

  /**
   * One pass of the loop: a successful connect first zeroes the counter, so
   * whatever the count was, a session that ends is followed by a short wait
   * and a count of one.
   */
  function AfterAttempt(count: nat, connected: bool): (b: Backoff)
    ensures b.count < MAX_RETRIES
    ensures connected ==> b == Backoff(1, RETRY_DELAY)
    ensures !connected ==> b == AfterSession(count)
  {
    AfterSession(if connected then 0 else count)
  }

  /** The counter at the loop head after the attempts whose outcomes (connected or not) are given. */
  function CountAfter(outcomes: seq<bool>): (c: nat)
    ensures c < MAX_RETRIES
  {
    if outcomes == [] then 0
    else AfterAttempt(CountAfter(outcomes[..|outcomes| - 1]), outcomes[|outcomes| - 1]).count
  }

  /** The waits after each of the attempts, in order. */
  function Delays(outcomes: seq<bool>): (ds: seq<nat>)
    ensures |ds| == |outcomes|
  {
    if outcomes == [] then []
    else
      var prefix := outcomes[..|outcomes| - 1];
      Delays(prefix) + [AfterAttempt(CountAfter(prefix), outcomes[|outcomes| - 1]).delay]
  }

  /** `n` failed connects in a row. */
  function Failures(n: nat): (s: seq<bool>)
    ensures |s| == n && forall i :: 0 <= i < n ==> !s[i]
  {
    seq(n, i => false)
  }

  /**
   * Starting from the counter's initial value, `n` consecutive failures
   * leave the counter at `n mod 5`, and the wait after the `i`-th of them is
   * long exactly when `i mod 5 == 4`: the waits run 5, 5, 5, 5, 10 and repeat.
   */
  lemma {:induction false} FailureCycle(n: nat)
    ensures CountAfter(Failures(n)) == n % MAX_RETRIES
    ensures forall i :: 0 <= i < n ==>
      Delays(Failures(n))[i] == if i % MAX_RETRIES == MAX_RETRIES - 1 then 2 * RETRY_DELAY else RETRY_DELAY
  {
    if n > 0 {
      assert Failures(n)[..n - 1] == Failures(n - 1);
      FailureCycle(n - 1);
    }
  }

  /** The first five failures wait 5, 5, 5, 5 and then 10 seconds, 30 in all, and leave the counter at 0. */
  lemma FirstBurst()
    ensures Delays(Failures(5)) == [5, 5, 5, 5, 10]
    ensures CountAfter(Failures(5)) == 0
  {
    FailureCycle(5);
  }

  /**
   * After a successful connect the session's own end counts as one step:
   * four further failed connects reach the limit, and the fourth is followed
   * by the long wait.
   */
  lemma {:induction false} ConnectedThenFailures(prefix: seq<bool>)
    ensures var s := prefix + [true, false, false, false, false];
      Delays(s)[|prefix|..] == [5, 5, 5, 5, 10] && CountAfter(s) == 0
  {
    var s := prefix + [true, false, false, false, false];
    var n := |prefix|;
    assert s[..n + 1] == prefix + [true];
    assert s[..n + 1][..n] == prefix;
    assert s[..n + 2][..n + 1] == s[..n + 1];
    assert s[..n + 3][..n + 2] == s[..n + 2];
    assert s[..n + 4][..n + 3] == s[..n + 3];
    assert s[..n + 4] == s[..n + 5][..n + 4];
    assert s[..n + 5] == s;
    assert CountAfter(s[..n + 1]) == 1;
    assert CountAfter(s[..n + 2]) == 2;
    assert CountAfter(s[..n + 3]) == 3;
    assert CountAfter(s[..n + 4]) == 4;
    assert Delays(s[..n + 1])[n..] == [5];
    assert Delays(s[..n + 2])[n..] == [5, 5];
    assert Delays(s[..n + 3])[n..] == [5, 5, 5];
    assert Delays(s[..n + 4])[n..] == [5, 5, 5, 5];
  }

  /** A long wait is always followed by a counter of zero, and a zero counter only follows a long wait or the start. */
  lemma {:induction false} LongWaitResets(outcomes: seq<bool>)
    requires outcomes != []
    ensures var last := |outcomes| - 1;
      Delays(outcomes)[last] == 2 * RETRY_DELAY <==> CountAfter(outcomes) == 0
  {
    var prefix := outcomes[..|outcomes| - 1];
    assert Delays(outcomes)[|outcomes| - 1] == AfterAttempt(CountAfter(prefix), outcomes[|outcomes| - 1]).delay;
  }
}
