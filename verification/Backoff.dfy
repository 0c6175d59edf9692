/** The reconnect loop's delays (internal/quictransport/client.go): bounded doubling on int64 nanoseconds. */
module Backoff {
  import opened Bytes
  import opened Numbers

  const DEFAULT_MIN: int := 1 * SECOND
  const DEFAULT_MAX: int := 30 * SECOND
  const INT64_LIMIT: int := 0x8000_0000_0000_0000

  type Duration = d: int | -INT64_LIMIT <= d < INT64_LIMIT

  /** Two's-complement overflow of time.Duration. */
  function Wrap(d: int): Duration {
    (d + INT64_LIMIT) % (2 * INT64_LIMIT) - INT64_LIMIT
  }

  datatype IntervalError = NegativeMin | NegativeMax | MinExceedsMax

  function NormalizeIntervals(min: Duration, max: Duration): (r: Result<(Duration, Duration), IntervalError>)
    ensures r.Ok? ==> 0 < r.value.0 <= r.value.1
    ensures min > 0 && max > 0 ==> r == if min <= max then Ok((min, max)) else Err(MinExceedsMax)
    ensures min < 0 ==> r == Err(NegativeMin)
    ensures min >= 0 && max < 0 ==> r == Err(NegativeMax)
  {
    var lo := if min == 0 then DEFAULT_MIN else min;
    var hi := if max == 0 then DEFAULT_MAX else max;
    if lo < 0 then Err(NegativeMin)
    else if hi < 0 then Err(NegativeMax)
    else if lo > hi then Err(MinExceedsMax)
    else Ok((lo, hi))
  }

  /** Zero stands for the default of that side, and normalised intervals stay as they are. */
  lemma ZeroIsDefault(min: Duration, max: Duration)
    ensures NormalizeIntervals(0, max) == NormalizeIntervals(DEFAULT_MIN, max)
    ensures NormalizeIntervals(min, 0) == NormalizeIntervals(min, DEFAULT_MAX)
    ensures var r := NormalizeIntervals(min, max);
            r.Ok? ==> NormalizeIntervals(r.value.0, r.value.1) == r
  {
  }

  /** reconnectBackoff.next on the value of `current`. */
  function Doubled(current: Duration, max: Duration): Duration {
    if current >= max then current
    else if Wrap(current * 2) > max then max
    else Wrap(current * 2)
  }

  /** The delay `k` calls of next after a reset. */
  function DelayAt(min: Duration, max: Duration, k: nat): Duration {
    if k == 0 then min else Doubled(DelayAt(min, max, k - 1), max)
  }

  /** What the delay is meant to be. */
  function IdealDelay(min: int, max: int, k: nat): int {
    if min * Pow2(k) < max then min * Pow2(k) else max
  }

  class ReconnectBackoff {
    const min: Duration
    const max: Duration
    var current: Duration

    constructor (min: Duration, max: Duration)
      ensures this.min == min && this.max == max && current == min
    {
      this.min := min;
      this.max := max;
      current := min;
    }

    method Next() returns (delay: Duration)
      modifies this
      ensures delay == old(current) && current == Doubled(old(current), max)
    {
      delay := current;
      if current < max {
        current := Wrap(current * 2);
        if current > max {
          current := max;
        }
      }
    }

    method Reset()
      modifies this
      ensures current == min
    {
      current := min;
    }
  }

  // ---- Closed form, and exactly when it holds ----

  /** The first doubling of v that reaches max. */
  function Ceiling(v: int, max: int): (c: int)
    requires v > 0
    ensures c >= max && c >= v
    ensures v < max ==> c < 2 * max
    decreases max - v
  {
    if v >= max then v else Ceiling(2 * v, max)
  }

  lemma WrapFits(d: int)
    requires -INT64_LIMIT <= d < INT64_LIMIT
    ensures Wrap(d) == d
  {
  }

  lemma WrapOverflows(d: int)
    requires INT64_LIMIT <= d < 2 * INT64_LIMIT
    ensures Wrap(d) == d - 2 * INT64_LIMIT
  {
  }

  lemma PowStep(min: int, k: nat)
    ensures min * Pow2(k + 1) == 2 * (min * Pow2(k))
  {
    assert min * (2 * Pow2(k)) == 2 * (min * Pow2(k));
  }

  lemma {:induction false} CeilingStep(min: int, max: int, k: nat)
    requires min > 0 && (k == 0 || min * Pow2(k - 1) < max)
    ensures min * Pow2(k) > 0
    ensures Ceiling(min, max) == Ceiling(min * Pow2(k), max)
  {
    if k > 0 {
      PowStep(min, k - 1);
      if k > 1 {
        PowStep(min, k - 2);
      }
      CeilingStep(min, max, k - 1);
    }
  }

  lemma {:induction false} BelowMaxEarlier(min: int, max: int, k: nat)
    requires min > 0 && min * Pow2(k + 1) < max
    ensures min * Pow2(k) < max
  {
    PowStep(min, k);
  }

  lemma {:induction false} ClosedForm(min: Duration, max: Duration, k: nat)
    requires 0 < min <= max && Ceiling(min, max) < INT64_LIMIT
    ensures DelayAt(min, max, k) == IdealDelay(min, max, k)
    ensures min <= DelayAt(min, max, k) <= max
  {
    hide Ceiling, Wrap;
    if k > 0 {
      ClosedForm(min, max, k - 1);
      PowStep(min, k - 1);
      var v := min * Pow2(k - 1);
      if v < max {
        if k > 1 {
          BelowMaxEarlier(min, max, k - 2);
        }
        CeilingStep(min, max, k);
        WrapFits(2 * v);
      }
    }
  }

  /** If the ceiling does not fit, a delay turns negative: the one that should reach max. */
  lemma {:induction false} Overflow(min: Duration, max: Duration, k: nat) returns (j: nat)
    requires 0 < min <= max && Ceiling(min, max) >= INT64_LIMIT
    requires min * Pow2(k) < max && DelayAt(min, max, k) == min * Pow2(k)
    ensures DelayAt(min, max, j) < 0 < IdealDelay(min, max, j)
    decreases max - min * Pow2(k)
  {
    hide Wrap;
    var v := min * Pow2(k);
    PowStep(min, k);
    if k > 0 {
      BelowMaxEarlier(min, max, k - 1);
    }
    CeilingStep(min, max, k);
    if 2 * v < max {
      WrapFits(2 * v);
      CeilingStep(min, max, k + 1);
      j := Overflow(min, max, k + 1);
    } else {
      WrapOverflows(2 * v);
      j := k + 1;
    }
  }

  /** After normalisation the k-th delay since a reset is min(min * 2^k, max) for every k exactly
      when the first doubling that reaches max still fits an int64. */
  lemma ClosedFormExactly(min: Duration, max: Duration)
    requires 0 < min <= max
    ensures (forall k: nat :: DelayAt(min, max, k) == IdealDelay(min, max, k)) <==> Ceiling(min, max) < INT64_LIMIT
  {
    if Ceiling(min, max) < INT64_LIMIT {
      forall k: nat ensures DelayAt(min, max, k) == IdealDelay(min, max, k) {
        ClosedForm(min, max, k);
      }
    } else {
      assert min * Pow2(0) == min;
      var j := Overflow(min, max, 0);
    }
  }

  /** Intervals that normalise, and whose second delay in a row is negative. */
  lemma NegativeDelay()
    ensures var min, max := 0x4000_0000_0000_0001, 0x7fff_ffff_ffff_ffff;
            && NormalizeIntervals(min, max) == Ok((min, max))
            && Ceiling(min, max) >= INT64_LIMIT
            && SleepOf([DialFailed, DialFailed], 1, min, max) == Some(-0x7fff_ffff_ffff_fffe)
  {
    var min, max := 0x4000_0000_0000_0001, 0x7fff_ffff_ffff_ffff;
    var turns := [DialFailed, DialFailed];
    assert turns[..1] == [DialFailed];
    assert FailedDials([DialFailed][..0]) == 0;
    assert DelayAt(min, max, 0) == min;
  }

  /** Any maximum up to 2^62 ns (146 years) is safe: delays are the ideal ones, stay within
      [min, max] and never shrink until a reset. */
  lemma SafeIntervals(min: Duration, max: Duration, k: nat)
    requires 0 < min <= max <= INT64_LIMIT / 2
    ensures DelayAt(min, max, k) == IdealDelay(min, max, k)
    ensures min <= DelayAt(min, max, k) <= DelayAt(min, max, k + 1) <= max
  {
    ClosedForm(min, max, k);
    ClosedForm(min, max, k + 1);
    PowStep(min, k);
  }

  // ---- The loop ----

  /** What one turn of reconnectClientPath meets: the path is up, or a dial that fails or succeeds. */
  datatype Turn = Present | DialFailed | Dialed

  /** Failed dials since the last successful one. */
  function FailedDials(turns: seq<Turn>): nat {
    if turns == [] then 0 else
    match turns[|turns| - 1]
    case Present => FailedDials(turns[..|turns| - 1])
    case DialFailed => FailedDials(turns[..|turns| - 1]) + 1
    case Dialed => 0
  }

  /** All failed dials after the successful one at j - 1, or after the start. */
  lemma {:induction false} FailedSinceDialed(turns: seq<Turn>, j: nat)
    requires j <= |turns| && (j > 0 ==> turns[j - 1] == Dialed)
    requires forall i | j <= i < |turns| :: turns[i] != Dialed
    ensures FailedDials(turns) == multiset(turns[j..])[DialFailed]
  {
    if j < |turns| {
      var front := turns[..|turns| - 1];
      FailedSinceDialed(front, j);
      assert turns[j..] == front[j..] + [turns[|turns| - 1]];
    }
  }

  /** How long turn i sleeps: the minimum while the path is up, the backoff delay after a failed dial. */
  function SleepOf(turns: seq<Turn>, i: nat, min: Duration, max: Duration): Option<Duration>
    requires i < |turns|
  {
    match turns[i]
    case Present => Some(min)
    case DialFailed => Some(DelayAt(min, max, FailedDials(turns[..i])))
    case Dialed => None
  }

  /** So, with intervals that normalise and a maximum of at most 2^62 ns: a turn that finds the path up
      sleeps the minimum, the k-th failed dial in a row (k from 0) min(min * 2^k, max) nanoseconds,
      whatever happened before, and a successful dial not at all. */
  lemma LoopDelays(turns: seq<Turn>, i: nat, configuredMin: Duration, configuredMax: Duration)
    requires NormalizeIntervals(configuredMin, configuredMax).Ok?
    requires NormalizeIntervals(configuredMin, configuredMax).value.1 <= INT64_LIMIT / 2
    requires i < |turns|
    ensures var (min, max) := NormalizeIntervals(configuredMin, configuredMax).value;
            SleepOf(turns, i, min, max) == match turns[i]
                                           case Present => Some(IdealDelay(min, max, 0))
                                           case DialFailed => Some(IdealDelay(min, max, FailedDials(turns[..i])))
                                           case Dialed => None
  {
    var (min, max) := NormalizeIntervals(configuredMin, configuredMax).value;
    SafeIntervals(min, max, FailedDials(turns[..i]));
    SafeIntervals(min, max, 0);
  }
}
