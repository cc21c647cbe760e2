/**
 * Ordering of two tokens by address, compared case-insensitively, as the pool
 * requires of token0 and token1.
 */
module TokenSort {

  /** A token contract, known by its hex address. */
  datatype Token = Token(address: string)

  /** String.prototype.toLowerCase on one character (ASCII letters only). */
  function LowerChar(c: char): (d: char)
    ensures 'A' <= c <= 'Z' ==> d as int == c as int + 32
    ensures !('A' <= c <= 'Z') ==> d == c
  {
    if 'A' <= c <= 'Z' then (c as int + 32) as char else c
  }

  /** String.prototype.toLowerCase, character by character. */
  function ToLower(s: string): (r: string)
    ensures |r| == |s|
    ensures forall i :: 0 <= i < |s| ==> r[i] == LowerChar(s[i])
    ensures forall i :: 0 <= i < |r| ==> !('A' <= r[i] <= 'Z')
  {
    seq(|s|, i requires 0 <= i < |s| => LowerChar(s[i]))
  }

  /** Lowercasing a lowercased string changes nothing. */
  lemma ToLowerIdempotent(s: string)
    ensures ToLower(ToLower(s)) == ToLower(s)
  {
    var once := ToLower(s);
    assert forall i :: 0 <= i < |once| ==> LowerChar(once[i]) == once[i];
  }

  /** `a` is a proper prefix of `b`. */
  predicate ProperPrefix(a: string, b: string)
  {
    |a| < |b| && a == b[..|a|]
  }

  /** `a` and `b` agree before position k, where `a` has the smaller character. */
  predicate SmallerAt(a: string, b: string, k: int)
  {
    0 <= k < |a| && k < |b| && a[..k] == b[..k] && a[k] < b[k]
  }

  /** Shifting past an equal first character keeps both the prefix and the first-difference relation. */
  lemma ShiftPastEqualHead(a: string, b: string)
    requires |a| > 0 && |b| > 0 && a[0] == b[0]
    ensures ProperPrefix(a, b) <==> ProperPrefix(a[1..], b[1..])
    ensures (exists k :: SmallerAt(a, b, k)) <==> (exists k :: SmallerAt(a[1..], b[1..], k))
  {
    assert a == [a[0]] + a[1..] && b == [b[0]] + b[1..];
    if |a| < |b| {
      assert b[..|a|] == [b[0]] + b[1..][..|a| - 1];
    }
    if exists k :: SmallerAt(a, b, k) {
      var k :| SmallerAt(a, b, k);
      assert k > 0;
      assert a[1..][..k - 1] == a[..k][1..] && b[1..][..k - 1] == b[..k][1..];
      assert SmallerAt(a[1..], b[1..], k - 1);
    }
    if exists k :: SmallerAt(a[1..], b[1..], k) {
      var k :| SmallerAt(a[1..], b[1..], k);
      assert a[..k + 1] == [a[0]] + a[1..][..k] && b[..k + 1] == [b[0]] + b[1..][..k];
      assert SmallerAt(a, b, k + 1);
    }
  }

  /**
   * JavaScript's `<` on strings: lexicographic by character code, a proper prefix
   * being the smaller.
   */
  predicate StrLess(a: string, b: string): (less: bool)
    ensures less <==> ProperPrefix(a, b) || exists k :: SmallerAt(a, b, k)
    decreases |a|
  {
    if |a| == 0 then |b| > 0
    else if |b| == 0 then false
    else if a[0] != b[0] then assert SmallerAt(a, b, 0) <==> a[0] < b[0]; a[0] < b[0]
    else ShiftPastEqualHead(a, b); StrLess(a[1..], b[1..])
  }

  /** No string is below itself. */
  lemma {:induction false} StrLessIrreflexive(a: string)
    ensures !StrLess(a, a)
    decreases |a|
  {
    if |a| > 0 {
      StrLessIrreflexive(a[1..]);
    }
  }

  /** Two strings are never each below the other. */
  lemma {:induction false} StrLessAsymmetric(a: string, b: string)
    ensures StrLess(a, b) ==> !StrLess(b, a)
    decreases |a|
  {
    if |a| > 0 && |b| > 0 && a[0] == b[0] {
      StrLessAsymmetric(a[1..], b[1..]);
    }
  }

  /** Below is transitive. */
  lemma {:induction false} StrLessTransitive(a: string, b: string, c: string)
    requires StrLess(a, b) && StrLess(b, c)
    ensures StrLess(a, c)
    decreases |a|
  {
    if |a| > 0 && a[0] == b[0] && b[0] == c[0] {
      StrLessTransitive(a[1..], b[1..], c[1..]);
    }
  }

  /** Any two different strings are ordered one way or the other. */
  lemma {:induction false} StrLessConnected(a: string, b: string)
    requires a != b
    ensures StrLess(a, b) || StrLess(b, a)
    decreases |a|
  {
    if |a| > 0 && |b| > 0 && a[0] == b[0] {
      assert a == [a[0]] + a[1..] && b == [b[0]] + b[1..];
      StrLessConnected(a[1..], b[1..]);
    }
  }

  /** The address as compared: lowercased. */
  function Key(t: Token): string
  {
    ToLower(t.address)
  }

  /** -1 when a's lowercased address sorts first, otherwise 1; never 0, even for equal addresses. */
  function CompareToken(a: Token, b: Token): (r: int)
    ensures r == -1 || r == 1
    ensures r == -1 <==> StrLess(Key(a), Key(b))
  {
    if StrLess(Key(a), Key(b)) then -1 else 1
  }

  /**
   * The two tokens in address order: a permutation of (a, b) whose first
   * lowercased address is not above the second's; on a tie, (b, a).
   */
  function SortedTokens(a: Token, b: Token): (r: (Token, Token))
    ensures r == (a, b) || r == (b, a)
    ensures !StrLess(Key(r.1), Key(r.0))
    ensures Key(a) == Key(b) ==> r == (b, a)
  {
    StrLessAsymmetric(Key(a), Key(b));
    StrLessIrreflexive(Key(a));
    if CompareToken(a, b) < 0 then (a, b) else (b, a)
  }

  /** For different lowercased addresses the order does not depend on the argument order. */
  lemma SortedTokensIgnoresArgumentOrder(a: Token, b: Token)
    requires Key(a) != Key(b)
    ensures SortedTokens(a, b) == SortedTokens(b, a)
    ensures StrLess(Key(SortedTokens(a, b).0), Key(SortedTokens(a, b).1))
  {
    StrLessConnected(Key(a), Key(b));
    StrLessAsymmetric(Key(a), Key(b));
  }

  /** Only the lowercased addresses decide the order. */
  lemma SortedTokensDependsOnKeysOnly(a: Token, b: Token, a': Token, b': Token)
    requires Key(a) == Key(a') && Key(b) == Key(b')
    ensures CompareToken(a, b) == CompareToken(a', b')
    ensures SortedTokens(a, b) == if CompareToken(a', b') < 0 then (a, b) else (b, a)
  {
  }
}
