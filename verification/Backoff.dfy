/**
 When a failed message is tried again. The even strategy waits the same interval each time; the
 progressive one multiplies the interval by 1 + m + ... + m^(k-1) at the k-th attempt, where m is the
 multiplier but at least 1, truncated to whole intervals. Arithmetic is exact.
 */
module Backoff {

  datatype Strategy =
    | Even(maxAttempts: int, interval: int)
    | Progressive(maxAttempts: int, interval: int, multiplier: real)

  function Base(multiplier: real): real {
    if multiplier > 1.0 then multiplier else 1.0
  }

  function Pow(m: real, k: nat): real {
    if k == 0 then 1.0 else m * Pow(m, k - 1)
  }

  /** 1 + m + ... + m^(k-1). */
  function PowerSum(m: real, k: nat): real {
    if k == 0 then 0.0 else PowerSum(m, k - 1) + Pow(m, k - 1)
  }

  /** The number of intervals at an attempt; attempts below the first count as the first. */
  function Intervals(m: real, attempt: int): real {
    if attempt <= 1 then 1.0 else PowerSum(m, attempt)
  }

  lemma {:induction false} PowerSumHorner(m: real, k: nat)
    ensures PowerSum(m, k + 1) == PowerSum(m, k) * m + 1.0
  {
    if k > 0 {
      PowerSumHorner(m, k - 1);
    }
  }

  lemma PowerSumOne(m: real)
    ensures PowerSum(m, 1) == 1.0
  {
    assert PowerSum(m, 1) == PowerSum(m, 0) + Pow(m, 0);
  }

  method ProgressiveDelay(interval: int, multiplier: real, attempt: int) returns (delay: int)
    ensures delay == interval * Intervals(Base(multiplier), attempt).Floor
    ensures attempt <= 1 ==> delay == interval
    ensures attempt >= 1 && multiplier >= 1.0 ==> delay == interval * PowerSum(multiplier, attempt).Floor
    ensures attempt >= 1 && multiplier <= 1.0 ==> delay == interval * attempt
  {
    var m := 1.0;
    if multiplier > 1.0 {
      m := multiplier;
    }
    var n := 1.0;
    var i := 2;
    PowerSumOne(m);
    while i <= attempt
      invariant 2 <= i && (i == 2 || i <= attempt + 1)
      invariant n == PowerSum(m, i - 1)
    {
      PowerSumHorner(m, i - 1);
      n := n * m + 1.0;
      i := i + 1;
    }
    delay := interval * n.Floor;
    DelayLaws(Progressive(0, interval, multiplier), attempt);
  }

  function Delay(s: Strategy, attempt: int): int {
    match s
    case Even(_, interval) => interval
    case Progressive(_, interval, multiplier) => interval * Intervals(Base(multiplier), attempt).Floor
  }

  lemma {:induction false} PowerSumOfOne(k: nat)
    ensures Pow(1.0, k) == 1.0 && PowerSum(1.0, k) == k as real
  {
    if k > 0 {
      PowerSumOfOne(k - 1);
    }
  }

  /** The delays of both strategies: a multiplier above one is used as it is, any other counts as one. */
  lemma DelayLaws(s: Strategy, attempt: int)
    ensures s.Even? ==> Delay(s, attempt) == s.interval
    ensures attempt <= 1 ==> Delay(s, attempt) == s.interval
    ensures s.Progressive? && attempt >= 1 && s.multiplier >= 1.0 ==>
              Delay(s, attempt) == s.interval * PowerSum(s.multiplier, attempt).Floor
    ensures s.Progressive? && attempt >= 1 && s.multiplier <= 1.0 ==> Delay(s, attempt) == s.interval * attempt
  {
    if s.Progressive? && attempt >= 1 {
      PowerSumOne(s.multiplier);
      if s.multiplier <= 1.0 {
        PowerSumOfOne(attempt);
        assert (attempt as real).Floor == attempt;
      }
    }
  }

  method GetNextStartedAt(s: Strategy, now: int, attempt: int) returns (startedAt: int)
    ensures startedAt == now + Delay(s, attempt)
    ensures s.Even? ==> startedAt == now + s.interval
    ensures s.Progressive? && attempt >= 1 && s.multiplier >= 1.0 ==>
              startedAt == now + s.interval * PowerSum(s.multiplier, attempt).Floor
  {
    match s
    case Even(_, interval) => startedAt := now + interval;
    case Progressive(_, interval, multiplier) =>
      var delay := ProgressiveDelay(interval, multiplier, attempt);
      startedAt := now + delay;
  }

  /** The closed form: (m - 1) * (1 + m + ... + m^(k-1)) == m^k - 1. */
  lemma {:induction false} PowerSumClosedForm(m: real, k: nat)
    ensures (m - 1.0) * PowerSum(m, k) == Pow(m, k) - 1.0
  {
    if k > 0 {
      PowerSumClosedForm(m, k - 1);
      assert (m - 1.0) * PowerSum(m, k) == (m - 1.0) * PowerSum(m, k - 1) + (m - 1.0) * Pow(m, k - 1);
      assert (m - 1.0) * Pow(m, k - 1) == m * Pow(m, k - 1) - Pow(m, k - 1);
    }
  }

  lemma {:induction false} PowAtLeastOne(m: real, k: nat)
    requires m >= 1.0
    ensures Pow(m, k) >= 1.0
  {
    if k > 0 {
      PowAtLeastOne(m, k - 1);
      assert m * Pow(m, k - 1) >= 1.0 * Pow(m, k - 1);
    }
  }

  /** The k-th attempt waits at least k intervals. */
  lemma {:induction false} AtLeastLinear(multiplier: real, k: nat)
    ensures PowerSum(Base(multiplier), k) >= k as real
  {
    if k > 0 {
      AtLeastLinear(multiplier, k - 1);
      PowAtLeastOne(Base(multiplier), k - 1);
    }
  }

  lemma {:induction false} IntervalsGrow(multiplier: real, a: int, b: int)
    requires a <= b
    ensures Intervals(Base(multiplier), a) <= Intervals(Base(multiplier), b)
    decreases b - a
  {
    if a < b {
      IntervalsGrow(multiplier, a, b - 1);
      if b >= 2 {
        PowAtLeastOne(Base(multiplier), b - 1);
        if b == 2 {
          assert PowerSum(Base(multiplier), 2) == PowerSum(Base(multiplier), 1) + Pow(Base(multiplier), 1);
          PowerSumOne(Base(multiplier));
        }
      }
    }
  }

  /** A later attempt never waits less, also after truncation to whole intervals. */
  lemma DelaysNeverDecrease(s: Strategy, a: int, b: int)
    requires a <= b && s.interval >= 0
    ensures Delay(s, a) <= Delay(s, b)
  {
    if s.Progressive? {
      IntervalsGrow(s.multiplier, a, b);
      var x, y := Intervals(Base(s.multiplier), a).Floor, Intervals(Base(s.multiplier), b).Floor;
      assert x <= y;
      MulMonotone(s.interval, x, y);
    }
  }

  lemma MulMonotone(i: int, x: int, y: int)
    requires i >= 0 && x <= y
    ensures i * x <= i * y
  {
  }

  /** With a positive interval the k-th attempt waits at least k whole intervals when it is progressive. */
  lemma ProgressiveWaitsLonger(s: Strategy, k: nat)
    requires s.Progressive? && k >= 1 && s.interval >= 0
    ensures Delay(s, k) >= s.interval * k
  {
    AtLeastLinear(s.multiplier, k);
    var n := Intervals(Base(s.multiplier), k);
    PowerSumOne(Base(s.multiplier));
    assert n.Floor >= k;
    MulMonotone(s.interval, k, n.Floor);
  }
}
