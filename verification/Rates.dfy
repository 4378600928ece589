/** Durations, and the counting argument shared by every rate limit: how many of a sorted
    list of instants can fall inside an interval. */
module Rates {
  // Instants and durations are nanoseconds, as in Go's time package.
  const SECOND := 1_000_000_000
  const MINUTE := 60_000_000_000
  const HOUR := 3_600_000_000_000

  ghost predicate Sorted(times: seq<int>)
  {
    forall i, j :: 0 <= i < j < |times| ==> times[i] <= times[j]
  }

  /** The number of instants in [lo, hi]. */
  ghost function Count(times: seq<int>, lo: int, hi: int): nat
  {
    if times == [] then 0
    else (if lo <= times[0] <= hi then 1 else 0) + Count(times[1..], lo, hi)
  }

  lemma {:induction false} CountFirst(times: seq<int>, lo: int, hi: int, n: nat)
    requires forall i :: n <= i < |times| ==> times[i] > hi
    ensures Count(times, lo, hi) <= n
  {
    if times != [] {
      forall i | (if n == 0 then 0 else n - 1) <= i < |times[1..]| ensures times[1..][i] > hi {
        assert times[1..][i] == times[i + 1];
      }
      CountFirst(times[1..], lo, hi, if n == 0 then 0 else n - 1);
    }
  }

  /** If every n + 1 consecutive instants span more than T, no interval of length T holds more than n. */
  lemma {:induction false} SlidingBound(times: seq<int>, lo: int, T: nat, n: nat)
    requires Sorted(times)
    requires forall i :: 0 <= i && i + n < |times| ==> times[i + n] - times[i] > T
    ensures Count(times, lo, lo + T) <= n
  {
    if times != [] {
      if times[0] < lo {
        var rest := times[1..];
        forall i | 0 <= i && i + n < |rest| ensures rest[i + n] - rest[i] > T {
          assert rest[i] == times[i + 1] && rest[i + n] == times[i + 1 + n];
        }
        SlidingBound(rest, lo, T, n);
      } else {
        forall i | n <= i < |times| ensures times[i] > lo + T {
          assert times[0 + n] - times[0] > T;
          assert times[n] <= times[i];
        }
        CountFirst(times, lo, lo + T, n);
      }
    }
  }

  ghost predicate Spaced(times: seq<int>, gap: nat)
  {
    forall i :: 0 <= i && i + 1 < |times| ==> times[i + 1] - times[i] >= gap
  }

  lemma SpacedAppend(times: seq<int>, gap: nat, t: int)
    requires Spaced(times, gap) && (times != [] ==> t - times[|times| - 1] >= gap)
    ensures Spaced(times + [t], gap)
  {
  }

  lemma {:induction false} SpacedSpan(times: seq<int>, gap: nat, i: nat, n: nat)
    requires Spaced(times, gap)
    requires i + n < |times|
    ensures times[i + n] - times[i] >= n * gap
    decreases n
  {
    if n > 0 {
      SpacedSpan(times, gap, i, n - 1);
      assert times[(i + n - 1) + 1] - times[i + n - 1] >= gap;
      assert n * gap == (n - 1) * gap + gap;
    }
  }

  lemma QuotientSpan(T: nat, gap: nat)
    requires gap > 0
    ensures (T / gap + 1) * gap > T
  {
    assert T == (T / gap) * gap + T % gap;
    assert (T / gap + 1) * gap == (T / gap) * gap + gap;
  }

  /** Instants at least gap apart: an interval of length T holds at most T / gap + 1 of them. */
  lemma CooldownBound(times: seq<int>, gap: nat, lo: int, T: nat)
    requires gap > 0 && Spaced(times, gap)
    ensures Count(times, lo, lo + T) <= T / gap + 1
  {
    var n := T / gap + 1;
    forall i, j | 0 <= i < j < |times| ensures times[i] <= times[j] {
      SpacedSpan(times, gap, i, j - i);
    }
    forall i | 0 <= i && i + n < |times| ensures times[i + n] - times[i] > T {
      SpacedSpan(times, gap, i, n);
      QuotientSpan(T, gap);
    }
    SlidingBound(times, lo, T, n);
  }

  lemma {:induction false} CountAppend(times: seq<int>, t: int, lo: int, hi: int)
    ensures Count(times + [t], lo, hi) == Count(times, lo, hi) + if lo <= t <= hi then 1 else 0
  {
    if times != [] {
      assert (times + [t])[1..] == times[1..] + [t];
      CountAppend(times[1..], t, lo, hi);
    }
  }
}
