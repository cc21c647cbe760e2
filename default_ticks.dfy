/** The full-range tick pair the staker tests use for a fee tier. */
module DefaultTicks {
  import opened Wrappers
  import opened PeripheryTicks

  /** A position's tick range, as the object `{ tickLower, tickUpper }`. */
  datatype TickRange = TickRange(tickLower: int, tickUpper: int)

  /** The fee used when the argument is left out. */
  const DefaultFee: FeeAmount := MEDIUM

  /** The fee tier actually used: the argument, or MEDIUM when it is undefined. */
  function FeeOrDefault(fee: Option<FeeAmount>): (f: FeeAmount)
    ensures fee.Some? ==> f == fee.value
    ensures fee.None? ==> f == MEDIUM
  {
    match fee
    case Some(f) => f
    case None => DefaultFee
  }

  /**
   * The widest range the fee tier's spacing allows: both ends are multiples of the
   * spacing, as far out as -887272 and 887272 permit, and symmetric around zero.
   */
  function GetDefaultTicks(fee: Option<FeeAmount>): (r: TickRange)
    ensures var s := TickSpacing(FeeOrDefault(fee));
      && r.tickLower % s == 0 && r.tickUpper % s == 0
      && -MaxAbsTick <= r.tickLower < -MaxAbsTick + s
      && MaxAbsTick - s < r.tickUpper <= MaxAbsTick
    ensures r.tickLower < r.tickUpper && r.tickLower == -r.tickUpper
  {
    var s := TickSpacing(FeeOrDefault(fee));
    MinTickIsNegatedMaxTick(s);
    TickRange(GetMinTick(s), GetMaxTick(s))
  }

  /** The same pair as a tuple `[tickLower, tickUpper]`, lower end first. */
  function GetDefaultTicksArray(fee: Option<FeeAmount>): (r: (int, int))
    ensures r.0 == GetDefaultTicks(fee).tickLower && r.1 == GetDefaultTicks(fee).tickUpper
    ensures r.0 < r.1 && r.0 == -r.1
  {
    var t := GetDefaultTicks(fee);
    (t.tickLower, t.tickUpper)
  }

  /** Called with no argument, the pair is that of the MEDIUM tier, spacing 60. */
  lemma DefaultTicksWithoutFee()
    ensures GetDefaultTicks(None) == TickRange(-887220, 887220)
    ensures GetDefaultTicksArray(None) == (-887220, 887220)
  {
    FeeTierTickBounds();
  }

  /** The pair is exactly getMinTick and getMaxTick of the tier's spacing. */
  lemma DefaultTicksAreTierBounds(fee: FeeAmount)
    ensures GetDefaultTicks(Some(fee))
      == TickRange(GetMinTick(TickSpacing(fee)), GetMaxTick(TickSpacing(fee)))
  {
  }
}
