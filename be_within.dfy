/**
 * The `beWithin(margin, actual)` chai matcher on big integers: the predicate it
 * computes, what the matcher does with it, and the two-sided check its tests expect.
 */
module BeWithin {

  function Abs(x: int): (r: int)
    ensures r >= 0 && (r == x || r == -x)
  {
    if x < 0 then -x else x
  }

  /**
   * The predicate as the matcher computes it: |obj| - |actual| <= margin. It is
   * one-sided: an `obj` smaller in magnitude than `actual` is always within a
   * non-negative margin.
   */
  function WithinAsWritten(obj: int, margin: int, actual: int): (result: bool)
    ensures result <==> Abs(obj) <= Abs(actual) + margin
    ensures margin >= 0 && Abs(obj) <= Abs(actual) ==> result
  {
    Abs(obj) - Abs(actual) <= margin
  }

  /** Flipping the sign of either side changes nothing. */
  lemma WithinAsWrittenIgnoresSigns(obj: int, margin: int, actual: int)
    ensures WithinAsWritten(-obj, margin, actual) == WithinAsWritten(obj, margin, actual)
    ensures WithinAsWritten(obj, margin, -actual) == WithinAsWritten(obj, margin, actual)
  {
  }

  /** A larger margin keeps a true result true. */
  lemma WithinAsWrittenMonotoneInMargin(obj: int, margin: int, margin': int, actual: int)
    requires margin <= margin' && WithinAsWritten(obj, margin, actual)
    ensures WithinAsWritten(obj, margin', actual)
  {
  }

  /** 100 is within 1 of 102 by the written predicate, though the test expects it not to be. */
  lemma WithinAsWrittenIsOneSided()
    ensures WithinAsWritten(100, 1, 102)
    ensures !WithinIntended(100, 1, 102)
  {
  }

  /** The written predicate agrees with the other four expectations of the matcher's test. */
  lemma WithinAsWrittenOtherExpectations()
    ensures WithinAsWritten(100, 1, 99)
    ensures !WithinAsWritten(100, 1, 98)
    ensures WithinAsWritten(100, 1, 101)
    ensures !WithinAsWritten(10, 1, 2)
  {
  }

  /** The intended check: `obj` and `actual` differ by at most `margin`. */
  function WithinIntended(obj: int, margin: int, actual: int): (result: bool)
    ensures result <==> actual - margin <= obj <= actual + margin
  {
    Abs(obj - actual) <= margin
  }

  /** The intended check is symmetric and meets all five expectations of the test. */
  lemma WithinIntendedMeetsExpectations(obj: int, margin: int, actual: int)
    ensures WithinIntended(obj, margin, actual) == WithinIntended(actual, margin, obj)
    ensures WithinIntended(100, 1, 99)
    ensures !WithinIntended(100, 1, 98)
    ensures WithinIntended(100, 1, 101)
    ensures !WithinIntended(100, 1, 102)
    ensures !WithinIntended(10, 1, 2)
  {
  }

  /** A chai assertion that is evaluated: its value, and whether `.not` flipped it. */
  datatype Check = Check(value: bool, negated: bool, message: string)

  /** What evaluating a list of assertions yields. */
  datatype Verdict = Passed | Failed(message: string)

  /** The assertions pass unless one of them has a value equal to its `.not` flag. */
  function Evaluate(checks: seq<Check>): (v: Verdict)
    ensures v == Passed <==> forall i :: 0 <= i < |checks| ==> checks[i].value != checks[i].negated
    decreases |checks|
  {
    if checks == [] then Passed
    else if checks[0].value == checks[0].negated then Failed(checks[0].message)
    else Evaluate(checks[1..])
  }

  /**
   * The matcher as written: it computes the result and constructs an assertion
   * from it, but never asserts it, so no assertion is evaluated.
   */
  function MatcherAsWritten(obj: int, margin: int, actual: int, negated: bool): (checks: seq<Check>)
    ensures checks == [] && Evaluate(checks) == Passed
  {
    var result := WithinAsWritten(obj, margin, actual);
    []
  }

  /** With or without `.not`, the written matcher never fails. */
  lemma MatcherAsWrittenNeverFails(obj: int, margin: int, actual: int, negated: bool)
    ensures Evaluate(MatcherAsWritten(obj, margin, actual, negated)) == Passed
  {
  }

  /** The matcher as intended: it asserts the two-sided check, honouring `.not`. */
  function MatcherIntended(obj: int, margin: int, actual: int, negated: bool): (checks: seq<Check>)
    ensures |checks| == 1 && checks[0].negated == negated
    ensures checks[0].value <==> actual - margin <= obj <= actual + margin
  {
    [Check(WithinIntended(obj, margin, actual), negated, "Expected obj to be within margin of actual")]
  }

  /** The intended matcher passes exactly when the check holds, or fails to hold under `.not`. */
  lemma MatcherIntendedFollowsCheck(obj: int, margin: int, actual: int, negated: bool)
    ensures Evaluate(MatcherIntended(obj, margin, actual, negated)) == Passed
      <==> WithinIntended(obj, margin, actual) != negated
  {
  }
}
