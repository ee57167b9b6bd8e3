/** The few facts about products and quotients of reals that the time-based components
    need; elsewhere `Gain` and `Delay` stay hidden. */
module RealArith {

  /** What accrues at `rate` over `dt` seconds. */
  function Gain(rate: real, dt: real): real {
    dt * rate
  }

  /** How long it takes to accrue `missing` at `rate`. */
  function Delay(rate: real, missing: real): real
    requires rate > 0.0
  {
    missing / rate
  }

  function Min(x: real, y: real): real {
    if x <= y then x else y
  }

  function Max(x: real, y: real): real {
    if x >= y then x else y
  }

  lemma GainAdd(rate: real, x: real, y: real)
    ensures Gain(rate, x) + Gain(rate, y) == Gain(rate, x + y)
  {
  }

  lemma GainPositive(rate: real, dt: real)
    ensures rate > 0.0 && dt > 0.0 ==> Gain(rate, dt) > 0.0
    ensures rate >= 0.0 && dt >= 0.0 ==> Gain(rate, dt) >= 0.0
  {
  }

  lemma GainOrdered(rate: real, x: real, y: real)
    requires rate >= 0.0 && x <= y
    ensures Gain(rate, x) <= Gain(rate, y)
  {
  }

  lemma GainUnit(rate: real)
    ensures Gain(rate, 0.0) == 0.0 && Gain(rate, 1.0) == rate
  {
  }

  lemma DelayShift(rate: real, missing: real, dt: real)
    requires rate > 0.0
    ensures Delay(rate, missing - Gain(rate, dt)) == Delay(rate, missing) - dt
  {
  }

  lemma DelayMonotone(rate: real, x: real, y: real)
    requires rate > 0.0
    ensures x < y <==> Delay(rate, x) < Delay(rate, y)
    ensures Delay(rate, 0.0) == 0.0
  {
  }

  function Ceil(x: real): int {
    -((-x).Floor)
  }

  /** The number of 0.1-second naps that cover a wait. */
  function Naps(wait: real): nat {
    if wait <= 0.0 then 0 else Ceil(10.0 * wait)
  }

  lemma NapTaken(before: real, after: real)
    requires before > 0.0 && (after <= 0.0 || after <= before - 0.1)
    ensures Naps(after) < Naps(before)
  {
  }

  /** Whole naps of a given length before a limit, and one more to pass it. */
  function NapsWithin(nap: real, left: real): nat
    requires nap > 0.0
  {
    if left < 0.0 then 0
    else
      DelayMonotone(nap, left, 0.0);
      Delay(nap, left).Floor + 1
  }

  lemma LimitNearer(nap: real, before: real, after: real)
    requires nap > 0.0 && before >= 0.0 && after <= before - nap
    ensures NapsWithin(nap, after) < NapsWithin(nap, before)
  {
    assert Gain(nap, 1.0) == nap;
    hide Gain, Delay;
    DelayShift(nap, before, 1.0);
    DelayMonotone(nap, before - nap, after);
    DelayMonotone(nap, before, 0.0);
    DelayMonotone(nap, after, 0.0);
  }

  lemma ProductMonotone(x: real, y: real, z: real)
    requires x <= y && z >= 0.0
    ensures x * z <= y * z
  {
  }
}
