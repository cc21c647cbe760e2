/**
 * Tick bounds of the Uniswap v3 periphery test helpers: the fee tiers with their
 * tick spacings, the smallest and largest usable tick for a spacing, and the most
 * liquidity a single tick may hold.
 */
module PeripheryTicks {

  /** The three fee tiers, in hundredths of a basis point. */
  datatype FeeAmount = LOW | MEDIUM | HIGH

  /** The fee of each tier in hundredths of a basis point: positive and below 100%. */
  function FeeValue(fee: FeeAmount): (pips: nat)
    ensures 0 < pips < 1_000_000
  {
    match fee
    case LOW => 500
    case MEDIUM => 3000
    case HIGH => 10000
  }

  /** The tick spacing of each fee tier. */
  function TickSpacing(fee: FeeAmount): (s: int)
    ensures s > 0 && FeeValue(fee) % s == 0
  {
    match fee
    case LOW => 10
    case MEDIUM => 60
    case HIGH => 200
  }

  /** The absolute value of the extreme ticks before rounding to a spacing. */
  const MaxAbsTick: int := 887272

  /** 2^128 - 1, the largest unsigned 128-bit value. */
  const MaxUint128: int := 0x1_0000_0000_0000_0000_0000_0000_0000_0000 - 1

  /** Math.floor(a / s) for a positive divisor. */
  function FloorDiv(a: int, s: int): (q: int)
    requires s > 0
    ensures q * s <= a < q * s + s
  {
    a / s
  }

  /** Math.ceil(a / s) for a positive divisor. */
  function CeilDiv(a: int, s: int): (q: int)
    requires s > 0
    ensures q * s - s < a <= q * s
  {
    if a % s == 0 then a / s else a / s + 1
  }

  /** k * s is at least s for k >= 1 and at most -s for k <= -1. */
  lemma ScaledAwayFromZero(k: int, s: int)
    requires s > 0
    ensures k >= 1 ==> k * s >= s
    ensures k <= -1 ==> k * s <= -s
  {
    if k >= 1 {
      assert k * s == (k - 1) * s + s;
    } else if k <= -1 {
      assert k * s == (k + 1) * s - s;
    }
  }

  /** Dividing a multiple q * s by s is exact and gives q back. */
  lemma DivModOfMultiple(q: int, s: int)
    requires s > 0
    ensures (q * s) % s == 0 && (q * s) / s == q
  {
    var d, r := (q * s) / s, (q * s) % s;
    assert q * s == d * s + r;
    assert (q - d) * s == r;
    ScaledAwayFromZero(q - d, s);
  }

  /** The smallest multiple of the spacing that is not below -887272. */
  function GetMinTick(s: int): (t: int)
    requires s > 0
    ensures t % s == 0
    ensures -MaxAbsTick <= t && t - s < -MaxAbsTick
  {
    var q := CeilDiv(-MaxAbsTick, s);
    DivModOfMultiple(q, s);
    q * s
  }

  /** The largest multiple of the spacing that is not above 887272. */
  function GetMaxTick(s: int): (t: int)
    requires s > 0
    ensures t % s == 0
    ensures t <= MaxAbsTick && MaxAbsTick < t + s
  {
    var q := FloorDiv(MaxAbsTick, s);
    DivModOfMultiple(q, s);
    q * s
  }

  /** Two multiples of s that lie in one half-open window of width s are equal. */
  lemma MultiplesInWindowAreEqual(s: int, x: int, y: int, lo: int)
    requires s > 0 && x % s == 0 && y % s == 0
    requires lo <= x < lo + s && lo <= y < lo + s
    ensures x == y
  {
    var qx, qy := x / s, y / s;
    assert x == qx * s && y == qy * s;
    assert x - y == (qx - qy) * s;
    ScaledAwayFromZero(qx - qy, s);
  }

  /** The bounds are symmetric: ceil(-x / s) = -floor(x / s). */
  lemma MinTickIsNegatedMaxTick(s: int)
    requires s > 0
    ensures GetMinTick(s) == -GetMaxTick(s)
  {
    var q := GetMaxTick(s) / s;
    assert GetMaxTick(s) == q * s;
    var m := (-q) * s;
    assert m == -GetMaxTick(s);
    DivModOfMultiple(-q, s);
    MultiplesInWindowAreEqual(s, GetMinTick(s), m, -MaxAbsTick);
  }

  /** The number of usable ticks for a spacing, 2 * floor(887272 / s) + 1. */
  function UsableTickCount(s: int): (n: int)
    requires s > 0
    ensures n >= 1
  {
    2 * (MaxAbsTick / s) + 1
  }

  /** (getMaxTick(s) - getMinTick(s)) / s is an exact division and counts the usable ticks less one. */
  lemma TickRangeDividesExactly(s: int)
    requires s > 0
    ensures (GetMaxTick(s) - GetMinTick(s)) % s == 0
    ensures (GetMaxTick(s) - GetMinTick(s)) / s + 1 == UsableTickCount(s)
  {
    MinTickIsNegatedMaxTick(s);
    var q := MaxAbsTick / s;
    assert GetMaxTick(s) == q * s;
    assert GetMaxTick(s) - GetMinTick(s) == (2 * q) * s;
    DivModOfMultiple(2 * q, s);
  }

  /**
   * (2^128 - 1) divided by the number of usable ticks, rounded down: the most
   * liquidity per tick that keeps the total within 128 bits.
   */
  function GetMaxLiquidityPerTick(s: int): (r: int)
    requires s > 0
    ensures r >= 0
    ensures r * UsableTickCount(s) <= MaxUint128 < (r + 1) * UsableTickCount(s)
  {
    TickRangeDividesExactly(s);
    MaxUint128 / ((GetMaxTick(s) - GetMinTick(s)) / s + 1)
  }

  /** The bounds of the three fee tiers. */
  lemma FeeTierTickBounds()
    ensures GetMinTick(TickSpacing(LOW)) == -887270 && GetMaxTick(TickSpacing(LOW)) == 887270
    ensures GetMinTick(TickSpacing(MEDIUM)) == -887220 && GetMaxTick(TickSpacing(MEDIUM)) == 887220
    ensures GetMinTick(TickSpacing(HIGH)) == -887200 && GetMaxTick(TickSpacing(HIGH)) == 887200
  {
  }
}
