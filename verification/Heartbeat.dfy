/** Coalescing of progress callbacks (`worker/dispatch.py`). */
module Heartbeat {
  import opened Wrappers

  const MIN_INTERVAL := 0.25

  /** A callback is let through if none was emitted yet, or the interval has passed since. */
  predicate Due(last: Option<real>, now: real) { last.None? || now - last.value >= MIN_INTERVAL }

  function LastOf(times: seq<real>): Option<real> { if times == [] then None else Some(times[|times| - 1]) }

  /** Successive emissions are at least the interval apart. */
  ghost predicate Spaced(times: seq<real>) {
    forall i {:trigger times[i]} :: 0 < i < |times| ==> times[i] - times[i - 1] >= MIN_INTERVAL
  }

  lemma SpacedMore(times: seq<real>, now: real)
    requires Spaced(times) && Due(LastOf(times), now)
    ensures Spaced(times + [now]) && LastOf(times + [now]) == Some(now)
  {
  }

  lemma {:induction false} Elapsed(times: seq<real>, i: nat, j: nat)
    requires Spaced(times) && i <= j < |times|
    ensures times[j] - times[i] >= (j - i) as real * MIN_INTERVAL
  {
    if i < j {
      Elapsed(times, i, j - 1);
      assert times[j] - times[j - 1] >= MIN_INTERVAL;
    }
  }

  /** How many of the times lie between two clock readings. */
  function CountIn(times: seq<real>, t0: real, t1: real): nat {
    if times == [] then 0
    else CountIn(times[..|times| - 1], t0, t1) + if t0 <= times[|times| - 1] <= t1 then 1 else 0
  }

  /** The counted times lie between a first and a last one. */
  lemma {:induction false} CountSpan(times: seq<real>, t0: real, t1: real) returns (i: nat, j: nat)
    requires CountIn(times, t0, t1) > 0
    ensures i <= j < |times| && t0 <= times[i] && times[j] <= t1 && CountIn(times, t0, t1) <= j - i + 1
  {
    var init := times[..|times| - 1];
    if t0 <= times[|times| - 1] <= t1 {
      j := |times| - 1;
      i := j;
      if CountIn(init, t0, t1) > 0 {
        var k;
        i, k := CountSpan(init, t0, t1);
      }
    } else {
      i, j := CountSpan(init, t0, t1);
    }
  }

  /** Between two clock readings at most one frame more goes out than whole intervals fit. */
  lemma RateBound(times: seq<real>, t0: real, t1: real)
    requires Spaced(times) && t0 <= t1
    ensures CountIn(times, t0, t1) <= 1 + ((t1 - t0) / MIN_INTERVAL).Floor
  {
    if CountIn(times, t0, t1) > 0 {
      var i, j := CountSpan(times, t0, t1);
      Elapsed(times, i, j);
      assert (j - i) as real <= (t1 - t0) / MIN_INTERVAL;
    }
  }
}
