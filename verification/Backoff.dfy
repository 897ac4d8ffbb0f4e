/** How long a failed controller waits before its next run. */
module Backoff {
  import opened Bytes
  import opened Net

  /** `Duration::MAX` in nanoseconds: 2^64 seconds less one nanosecond. */
  const DURATION_MAX: nat := 0x1_0000_0000_0000_0000 * 1_000_000_000 - 1

  type Duration = d: nat | d <= DURATION_MAX

  datatype Policy = NoBackoff | Linear(base: Duration, max: Duration) | Exponential(base: Duration, max: Duration)

  function Min(a: nat, b: nat): nat { if a <= b then a else b }

  /** `Duration::saturating_mul`. */
  function SaturatingMul(d: Duration, n: u32): Duration { Min(d * n, DURATION_MAX) }

  function AtLeastOne(n: nat): nat { if n == 0 then 1 else n }

  /** What the delays are meant to be, without a loop and without saturation. */
  function ClosedForm(p: Policy, n: nat): Option<nat>
  {
    match p
    case NoBackoff => None
    case Linear(base, max) => Some(Min(max, base * AtLeastOne(n)))
    case Exponential(base, max) => Some(Min(max, base * Pow2(AtLeastOne(n) - 1)))
  }

  /** One error gives the base; each further one adds the base again, or doubles the delay,
      up to the cap; no error counts as one. */
  lemma DelaySteps(p: Policy, n: nat)
    requires n > 0
    ensures ClosedForm(p, 0) == ClosedForm(p, 1)
    ensures p.NoBackoff? ==> ClosedForm(p, n) == None
    ensures !p.NoBackoff? ==>
              && ClosedForm(p, 1) == Some(if p.base < p.max then p.base else p.max)
              && ClosedForm(p, n).Some? && ClosedForm(p, n + 1).Some?
              && var d, next := ClosedForm(p, n).value, ClosedForm(p, n + 1).value;
                 var grown := if p.Linear? then d + p.base else 2 * d;
                 next == if grown < p.max then grown else p.max
  {
    if p.Linear? {
      assert p.base * (n + 1) == p.base * n + p.base;
    } else if p.Exponential? {
      assert Pow2(n) == 2 * Pow2(n - 1);
      assert p.base * Pow2(n) == 2 * (p.base * Pow2(n - 1));
    }
  }

  /** `delay`. The loop stops doubling as soon as the cap is reached, so it turns about
      log2(max / base) times at most, however large `n` is. */
  method Delay(p: Policy, consecutiveErrors: u32) returns (delay: Option<Duration>, ghost turns: nat)
    ensures delay == ClosedForm(p, consecutiveErrors)
    ensures turns < AtLeastOne(consecutiveErrors)
    ensures turns > 0 ==> p.Exponential? && 0 < p.base * Pow2(turns - 1) < p.max
    ensures p.Exponential? ==> delay == Some(Min(p.max, p.base * Pow2(turns)))
  {
    turns := 0;
    var n: u32 := AtLeastOne(consecutiveErrors);
    match p {
      case NoBackoff => delay := None;
      case Linear(base, max) =>
        delay := Some(Min(SaturatingMul(base, n), max));
      case Exponential(base, max) =>
        var d: Duration := Min(base, max);
        if d == 0 {
          ZeroTimes(Pow2(n - 1));
          return Some(d), turns;
        }
        var i := 1;
        while i < n
          invariant 1 <= i <= n && turns == i - 1
          invariant 0 < d == Min(max, base * Pow2(i - 1))
          invariant turns > 0 ==> 0 < base * Pow2(turns - 1) < max
        {
          Doubles(base, i - 1);
          if d >= max {
            DoublingGrows(base, i - 1, n - 1);
            break;
          }
          d := Min(SaturatingMul(d, 2), max);
          i, turns := i + 1, turns + 1;
        }
        delay := Some(d);
    }
  }

  lemma ZeroTimes(x: nat)
    ensures 0 * x == 0
  {
  }

  lemma Doubles(base: nat, i: nat)
    ensures base * Pow2(i + 1) == 2 * (base * Pow2(i))
  {
    assert Pow2(i + 1) == 2 * Pow2(i);
  }

  lemma {:induction false} DoublingGrows(base: nat, i: nat, j: nat)
    requires i <= j
    ensures base * Pow2(i) <= base * Pow2(j)
  {
    if i < j {
      DoublingGrows(base, i, j - 1);
      Doubles(base, j - 1);
    }
  }

  /** More errors never mean a shorter wait. */
  lemma DelayMonotone(p: Policy, m: nat, n: nat)
    requires m <= n && !p.NoBackoff?
    ensures ClosedForm(p, m).value <= ClosedForm(p, n).value
  {
    match p {
      case Linear(base, max) => TimesGrows(base, AtLeastOne(m), AtLeastOne(n));
      case Exponential(base, max) => DoublingGrows(base, AtLeastOne(m) - 1, AtLeastOne(n) - 1);
    }
  }

  lemma TimesGrows(base: nat, m: nat, n: nat)
    requires m <= n
    ensures base * m <= base * n
  {
  }

  const U32_MAX: nat := 0xFFFF_FFFF

  /** The error count saturates at 2^32 - 1; the exponential delay does not notice, since
      the cap is reached long before. */
  lemma SaturationUnnoticed(p: Policy, n: nat)
    requires p.Exponential?
    ensures ClosedForm(p, Min(n, U32_MAX)) == ClosedForm(p, n)
  {
    if n > U32_MAX {
      if p.base == 0 {
        ZeroTimes(Pow2(n - 1));
        ZeroTimes(Pow2(U32_MAX - 1));
      } else {
        PastTheCap(p.base, U32_MAX - 1);
        PastTheCap(p.base, n - 1);
      }
    }
  }

  lemma PastTheCap(base: nat, i: nat)
    requires base > 0 && i >= 128
    ensures base * Pow2(i) > DURATION_MAX
  {
    PowAtLeast(i);
    var x := Pow2(i);
    assert base * x >= x by { TimesGrows(x, 1, base); }
  }

  lemma PowAtLeast(i: nat)
    requires i >= 128
    ensures Pow2(i) > DURATION_MAX
  {
    hide Pow2;
    PowValues();
    DoublingGrows(1, 128, i);
  }
}
