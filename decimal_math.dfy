/** Big integers written as a number times a power of ten. */
module DecimalMath {

  /** 10^p, by recursion on the exponent. */
  function Pow10(p: nat): (r: nat)
    ensures r >= 1
  {
    if p == 0 then 1 else 10 * Pow10(p - 1)
  }

  /** 10^(a+b) = 10^a·10^b. */
  lemma {:induction false} Pow10Add(a: nat, b: nat)
    ensures Pow10(a + b) == Pow10(a) * Pow10(b)
    decreases b
  {
    if b > 0 {
      Pow10Add(a, b - 1);
      assert Pow10(a + b) == 10 * Pow10(a + b - 1);
    }
  }

  /** n * 10^p, with the sign of n, and zero exactly when n is. */
  function BNe(n: int, p: nat): (r: int)
    ensures r == 0 <==> n == 0
    ensures r > 0 <==> n > 0
    ensures p == 0 ==> r == n
  {
    n * Pow10(p)
  }

  /** n * 10^18, the token amount of n whole 18-decimal tokens. */
  function BNe18(n: int): (r: int)
    ensures r == BNe(n, 18)
    ensures r == n * 1_000_000_000_000_000_000
  {
    Pow10Of18();
    n * Pow10(18)
  }

  lemma Pow10Of18()
    ensures Pow10(18) == 1_000_000_000_000_000_000
  {
    assert Pow10(3) == 1000 by {
      assert Pow10(1) == 10;
      assert Pow10(2) == 100;
    }
    Pow10Add(3, 3);
    Pow10Add(3, 6);
    Pow10Add(9, 9);
  }

  /** Raising the exponent by b multiplies by 10^b. */
  lemma BNeAddExponents(n: int, a: nat, b: nat)
    ensures BNe(n, a + b) == BNe(n, a) * Pow10(b)
  {
    Pow10Add(a, b);
    MulAssociates(n, Pow10(a), Pow10(b));
  }

  lemma MulAssociates(x: int, y: int, z: int)
    ensures x * (y * z) == (x * y) * z
  {
  }
}
