/**
 * Defaults for the reward-math test cases: a partial test case is completed in
 * place, field by field, with JavaScript's `||=`, which overwrites every falsy value.
 */
module RewardMathHelper {
  import opened Wrappers

  /**
   * A BigNumberish field of a partial test case: missing, a plain number, a
   * string, or a BigNumber object (an object, and so truthy whatever its value).
   */
  datatype Numberish = Undefined | Num(n: int) | Text(s: string) | Big(b: int)

  /** JavaScript truthiness: undefined, 0 and "" are falsy; every object is truthy. */
  predicate Truthy(v: Numberish): (t: bool)
    ensures t <==> !(v == Undefined || v == Num(0) || v == Text(""))
  {
    match v
    case Undefined => false
    case Num(n) => n != 0
    case Text(s) => s != ""
    case Big(_) => true
  }

  predicate DescriptionTruthy(d: Option<string>)
  {
    d.Some? && d.value != ""
  }

  /** `v ||= d` on a BigNumberish field: a truthy value stays, anything else becomes d. */
  function OrAssign(v: Numberish, d: Numberish): (r: Numberish)
    ensures Truthy(v) ==> r == v
    ensures !Truthy(v) ==> r == d
  {
    if Truthy(v) then v else d
  }

  /** `v ||= d` on the description. */
  function OrAssignDescription(v: Option<string>, d: string): (r: Option<string>)
    ensures DescriptionTruthy(v) ==> r == v
    ensures !DescriptionTruthy(v) ==> r == Some(d)
  {
    if DescriptionTruthy(v) then v else Some(d)
  }

  /** The description of a test case, or "hello" when it is empty; never empty itself. */
  function WriteDescription(description: string): (r: string)
    ensures r != ""
    ensures description != "" ==> r == description
    ensures description == "" ==> r == "hello"
  {
    if description != "" then description else "hello"
  }

  /** The fields of a (possibly partial) RewardMathTestCase. */
  datatype TestCase = TestCase(
    description: Option<string>,
    totalRewardUnclaimed: Numberish,
    totalSecondsClaimedX128: Numberish,
    startTime: Numberish,
    endTime: Numberish,
    liquidity: Numberish,
    secondsPerLiquidityInsideInitialX128: Numberish,
    secondsPerLiquidityInsideX128: Numberish)

  const DefaultDescription: string := "Generic Test Case"

  /** The value each field is given when it is missing or falsy. */
  const Defaults: TestCase := TestCase(
    Some(DefaultDescription), Big(100), Big(100), Big(123456), Big(1234567), Big(12345), Big(1), Big(2))

  /** Every field holds a truthy value. */
  predicate IsComplete(c: TestCase)
  {
    && DescriptionTruthy(c.description)
    && Truthy(c.totalRewardUnclaimed)
    && Truthy(c.totalSecondsClaimedX128)
    && Truthy(c.startTime)
    && Truthy(c.endTime)
    && Truthy(c.liquidity)
    && Truthy(c.secondsPerLiquidityInsideInitialX128)
    && Truthy(c.secondsPerLiquidityInsideX128)
  }

  /** A field after filling: v kept when truthy, the default d otherwise. */
  predicate FieldFilled(v: Numberish, d: Numberish, r: Numberish)
  {
    if Truthy(v) then r == v else r == d
  }

  /**
   * The completed test case: every field set, truthy fields as they were,
   * falsy or missing ones at their defaults.
   */
  function Filled(c: TestCase): (r: TestCase)
    ensures IsComplete(r)
    ensures if DescriptionTruthy(c.description) then r.description == c.description
            else r.description == Defaults.description
    ensures FieldFilled(c.totalRewardUnclaimed, Defaults.totalRewardUnclaimed, r.totalRewardUnclaimed)
    ensures FieldFilled(c.totalSecondsClaimedX128, Defaults.totalSecondsClaimedX128, r.totalSecondsClaimedX128)
    ensures FieldFilled(c.startTime, Defaults.startTime, r.startTime)
    ensures FieldFilled(c.endTime, Defaults.endTime, r.endTime)
    ensures FieldFilled(c.liquidity, Defaults.liquidity, r.liquidity)
    ensures FieldFilled(c.secondsPerLiquidityInsideInitialX128,
                        Defaults.secondsPerLiquidityInsideInitialX128, r.secondsPerLiquidityInsideInitialX128)
    ensures FieldFilled(c.secondsPerLiquidityInsideX128,
                        Defaults.secondsPerLiquidityInsideX128, r.secondsPerLiquidityInsideX128)
  {
    TestCase(
      OrAssignDescription(c.description, DefaultDescription),
      OrAssign(c.totalRewardUnclaimed, Defaults.totalRewardUnclaimed),
      OrAssign(c.totalSecondsClaimedX128, Defaults.totalSecondsClaimedX128),
      OrAssign(c.startTime, Defaults.startTime),
      OrAssign(c.endTime, Defaults.endTime),
      OrAssign(c.liquidity, Defaults.liquidity),
      OrAssign(c.secondsPerLiquidityInsideInitialX128, Defaults.secondsPerLiquidityInsideInitialX128),
      OrAssign(c.secondsPerLiquidityInsideX128, Defaults.secondsPerLiquidityInsideX128))
  }

  /** A complete test case is left as it is; so filling twice is filling once. */
  lemma FilledIdempotent(c: TestCase)
    ensures IsComplete(c) ==> Filled(c) == c
    ensures Filled(Filled(c)) == Filled(c)
  {
  }

  /** An empty test case becomes the defaults; a BigNumber zero is kept, a plain 0 is not. */
  lemma FilledExamples()
    ensures Filled(TestCase(None, Undefined, Undefined, Undefined, Undefined, Undefined, Undefined, Undefined))
      == Defaults
    ensures Filled(Defaults.(liquidity := Big(0))).liquidity == Big(0)
    ensures Filled(Defaults.(liquidity := Num(0))).liquidity == Big(12345)
    ensures Filled(Defaults.(description := Some(""))).description == Some("Generic Test Case")
  {
  }

  /** The test-case object the helper mutates. */
  class TestCaseParams {
    var description: Option<string>
    var totalRewardUnclaimed: Numberish
    var totalSecondsClaimedX128: Numberish
    var startTime: Numberish
    var endTime: Numberish
    var liquidity: Numberish
    var secondsPerLiquidityInsideInitialX128: Numberish
    var secondsPerLiquidityInsideX128: Numberish

    /** The object's current fields as a value. */
    function Fields(): TestCase
      reads this
    {
      TestCase(description, totalRewardUnclaimed, totalSecondsClaimedX128, startTime, endTime,
               liquidity, secondsPerLiquidityInsideInitialX128, secondsPerLiquidityInsideX128)
    }

    constructor (c: TestCase)
      ensures Fields() == c
    {
      description := c.description;
      totalRewardUnclaimed := c.totalRewardUnclaimed;
      totalSecondsClaimedX128 := c.totalSecondsClaimedX128;
      startTime := c.startTime;
      endTime := c.endTime;
      liquidity := c.liquidity;
      secondsPerLiquidityInsideInitialX128 := c.secondsPerLiquidityInsideInitialX128;
      secondsPerLiquidityInsideX128 := c.secondsPerLiquidityInsideX128;
    }
  }

  /**
   * `fillTestCase`: completes the given object in place, field by field, and
   * returns that same object.
   */
  method FillTestCase(params: TestCaseParams) returns (r: TestCaseParams)
    modifies params
    ensures r == params
    ensures params.Fields() == Filled(old(params.Fields()))
    ensures IsComplete(params.Fields())
  {
    params.description := OrAssignDescription(params.description, DefaultDescription);
    params.totalRewardUnclaimed := OrAssign(params.totalRewardUnclaimed, Defaults.totalRewardUnclaimed);
    params.totalSecondsClaimedX128 := OrAssign(params.totalSecondsClaimedX128, Defaults.totalSecondsClaimedX128);
    params.startTime := OrAssign(params.startTime, Defaults.startTime);
    params.endTime := OrAssign(params.endTime, Defaults.endTime);
    params.liquidity := OrAssign(params.liquidity, Defaults.liquidity);
    params.secondsPerLiquidityInsideInitialX128 := OrAssign(params.secondsPerLiquidityInsideInitialX128, Defaults.secondsPerLiquidityInsideInitialX128);
    params.secondsPerLiquidityInsideX128 := OrAssign(params.secondsPerLiquidityInsideX128, Defaults.secondsPerLiquidityInsideX128);
    return params;
  }
}
