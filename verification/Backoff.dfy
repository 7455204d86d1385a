/** The reconnect backoff of internal/litime/manager.go, in nanoseconds. */
module Backoff {

  function Seconds(n: nat): nat { n * 1_000_000_000 }

  const MIN_RECONNECT_BACKOFF: nat := Seconds(5)
  const MAX_RECONNECT_BACKOFF: nat := Seconds(300)

  function NextBackoff(current: nat): nat {
    var next := current * 2;
    if next > MAX_RECONNECT_BACKOFF then MAX_RECONNECT_BACKOFF else next
  }

  function Pow2(k: nat): (r: nat)
    ensures r >= 1
  {
    if k == 0 then 1 else 2 * Pow2(k - 1)
  }

  /** The wait after k waits without a connection between them. */
  function Capped(k: nat): nat {
    Seconds(if 5 * Pow2(k) <= 300 then 5 * Pow2(k) else 300)
  }

  lemma {:induction false} Pow2Grows(k: nat, n: nat)
    requires k <= n
    ensures Pow2(k) <= Pow2(n)
  {
    if k < n { Pow2Grows(k, n - 1); }
  }

  lemma FirstPowers()
    ensures Pow2(0) == 1 && Pow2(1) == 2 && Pow2(2) == 4 && Pow2(3) == 8
    ensures Pow2(4) == 16 && Pow2(5) == 32 && Pow2(6) == 64
  {
    assert Pow2(3) == 2 * Pow2(2);
    assert Pow2(6) == 2 * Pow2(5) == 4 * Pow2(4) == 8 * Pow2(3);
  }

  /** Doubling under the cap follows the closed form, from any point on. */
  lemma NextIsCapped(k: nat)
    ensures Capped(0) == MIN_RECONNECT_BACKOFF
    ensures NextBackoff(Capped(k)) == Capped(k + 1)
  {
    assert Pow2(k + 1) == 2 * Pow2(k);
  }

  /** The cap is reached at the seventh wait and not before. */
  lemma CapReached(k: nat)
    ensures Capped(k) == MAX_RECONNECT_BACKOFF <==> k >= 6
  {
    FirstPowers();
    if k >= 6 { Pow2Grows(6, k); } else { Pow2Grows(k, 5); }
  }

  /** The sum of the first n waits. */
  function WaitSum(n: nat): nat {
    if n == 0 then 0 else WaitSum(n - 1) + Capped(n - 1)
  }

  lemma {:induction false} WaitSumClosedForm(n: nat)
    ensures n <= 6 ==> WaitSum(n) == Seconds(5 * (Pow2(n) - 1))
    ensures n >= 6 ==> WaitSum(n) == Seconds(315 + 300 * (n - 6))
  {
    FirstPowers();
    if n > 0 {
      WaitSumClosedForm(n - 1);
      CapReached(n - 1);
    }
  }

  lemma {:induction false} WaitSumGrows(m: nat, n: nat)
    requires m <= n
    ensures WaitSum(m) <= WaitSum(n)
  {
    if m < n { WaitSumGrows(m, n - 1); }
  }

  /** How many waits are over after a time: the first six end at 5, 15, 35, 75, 155
      and 315 seconds, and each further one takes 300 seconds. */
  function WaitsWithin(time: nat): nat {
    if time < Seconds(5) then 0
    else if time < Seconds(15) then 1
    else if time < Seconds(35) then 2
    else if time < Seconds(75) then 3
    else if time < Seconds(155) then 4
    else if time < Seconds(315) then 5
    else 6 + (time - Seconds(315)) / 300_000_000_000
  }

  lemma WaitsWithinIsLargest(time: nat)
    ensures WaitSum(WaitsWithin(time)) <= time < WaitSum(WaitsWithin(time) + 1)
  {
    FirstPowers();
    WaitSumClosedForm(WaitsWithin(time));
    WaitSumClosedForm(WaitsWithin(time) + 1);
  }

  /** Exactly that many waits fit in a time. */
  lemma WaitsThatFit(n: nat, time: nat)
    ensures WaitSum(n) <= time <==> n <= WaitsWithin(time)
  {
    WaitsWithinIsLargest(time);
    var k := WaitsWithin(time);
    if n <= k { WaitSumGrows(n, k); } else { WaitSumGrows(k + 1, n); }
  }
}
