/** trace_time.py: unwrapping the 32-bit tick count of old Windows. */
module TickCounts {

  const WRAP: int := 0x1_0000_0000

  /** The two globals, and the function that updates them under a lock. */
  class TickCount {
    var lastNow: nat
    var wraparounds: nat

    constructor ()
      ensures lastNow == 0 && wraparounds == 0
    {
      lastNow, wraparounds := 0, 0;
    }

    /** Takes a sample of GetTickCount, in milliseconds. */
    method Now(currentSample: nat) returns (finalMs: nat)
      requires currentSample < WRAP
      modifies this
      ensures lastNow == currentSample
      ensures wraparounds == old(wraparounds) + if currentSample < old(lastNow) then 1 else 0
      ensures finalMs == wraparounds * WRAP + lastNow
    {
      if currentSample < lastNow {
        wraparounds := wraparounds + 1;
      }
      lastNow := currentSample;
      finalMs := wraparounds * WRAP;
      finalMs := finalMs + lastNow;
    }
  }

  /** The times of the samples do not go back. */
  predicate Ordered(times: seq<nat>) {
    forall i :: 1 <= i < |times| ==> times[i - 1] <= times[i]
  }

  /** Each sample comes less than a full turn of the counter after the one before. */
  predicate Dense(times: seq<nat>) {
    forall i :: 1 <= i < |times| ==> times[i] - times[i - 1] < WRAP
  }

  /** The advance from one sample to the next, as far as two samples can tell. */
  function Advance(before: nat, now: nat): (n: nat)
    ensures n < WRAP
    ensures before <= now ==> (now - before == n <==> now - before < WRAP)
  {
    var a, b := before % WRAP, now % WRAP;
    (if b < a then WRAP else 0) + b - a
  }

  /** Calls at the given true tick counts: each result is the one before and the
      advance, so that results never decrease. */
  method Sample(times: seq<nat>) returns (results: seq<nat>)
    ensures |results| == |times| && (times != [] ==> results[0] == times[0] % WRAP)
    ensures forall i :: 1 <= i < |times| ==> results[i] == results[i - 1] + Advance(times[i - 1], times[i])
    ensures Ordered(results)
  {
    var ticks := new TickCount();
    results := [];
    for i := 0 to |times|
      invariant |results| == i && (i > 0 ==> results[0] == times[0] % WRAP)
      invariant forall j :: 1 <= j < i ==> results[j] == results[j - 1] + Advance(times[j - 1], times[j])
      invariant if i == 0 then ticks.lastNow == ticks.wraparounds == 0
        else ticks.lastNow == times[i - 1] % WRAP && results[i - 1] == ticks.wraparounds * WRAP + ticks.lastNow
    {
      var r := ticks.Now(times[i] % WRAP);
      results := results + [r];
    }
  }

  /** The results are the true counts, less the full turns before the first call,
      exactly when the samples are dense. */
  lemma {:induction false} TrueCounts(times: seq<nat>, results: seq<nat>)
    requires Ordered(times) && times != [] && |results| == |times| && results[0] == times[0] % WRAP
    requires forall i :: 1 <= i < |times| ==> results[i] == results[i - 1] + Advance(times[i - 1], times[i])
    ensures Dense(times) <==> forall i :: 0 <= i < |times| ==> results[i] == times[i] - times[0] / WRAP * WRAP
    decreases |times|
  {
    if |times| > 1 {
      var n := |times| - 1;
      TrueCounts(times[..n], results[..n]);
      assert Dense(times) <==> Dense(times[..n]) && times[n] - times[n - 1] < WRAP;
      assert forall i :: 0 <= i < n ==> times[..n][i] == times[i] && results[..n][i] == results[i];
    }
  }
}
