/**
 * Java's integer division and remainder on `long`. Dafny's `/` and `%` are
 * Euclidean; Java's round toward zero, so the remainder takes the sign of the
 * dividend. Only positive divisors occur in the model.
 */
module JavaMath {

  /** Java's `a / b` for `b > 0`: the quotient rounded toward zero. */
  function TruncDiv(a: int, b: int): int
    requires b > 0
  {
    if a >= 0 then a / b else -((-a) / b)
  }

  /** Java's `a % b` for `b > 0`: what is left after `TruncDiv`. */
  function TruncRem(a: int, b: int): int
    requires b > 0
  {
    a - b * TruncDiv(a, b)
  }

  /** On non-negative dividends Java and Dafny agree; on negative ones the remainder is non-positive. */
  lemma TruncRemBounds(a: int, b: int)
    requires b > 0
    ensures a >= 0 ==> TruncDiv(a, b) == a / b && TruncRem(a, b) == a % b && 0 <= TruncRem(a, b) < b
    ensures a < 0 ==> -b < TruncRem(a, b) <= 0
    ensures TruncDiv(-a, b) == -TruncDiv(a, b) && TruncRem(-a, b) == -TruncRem(a, b)
  {
    var n: nat := if a >= 0 then a else -a;
    var q, r := n / b, n % b;
    assert n == b * q + r && 0 <= r < b;
    if a >= 0 {
      assert TruncDiv(a, b) == q;
      assert TruncRem(a, b) == r;
      assert TruncDiv(-a, b) == -q by {
        if a == 0 { assert q == 0; }
      }
      assert TruncRem(-a, b) == -a - b * (-q);
      assert b * (-q) == -(b * q);
    } else {
      assert TruncDiv(a, b) == -q;
      assert TruncRem(a, b) == a - b * (-q);
      assert b * (-q) == -(b * q);
      assert TruncRem(a, b) == -r;
      assert TruncDiv(-a, b) == q;
    }
  }

  lemma NatDivNested(n: nat)
    ensures (n / 60) / 60 == n / 3600
  {
    var h, r := n / 3600, n % 3600;
    assert n == 3600 * h + r && 0 <= r < 3600;
    assert n / 60 == 60 * h + r / 60;
  }

  /** Taking whole minutes twice gives whole hours, as `toMinutes()` then `/ 60` would. */
  lemma TruncDivNested(a: int)
    ensures TruncDiv(TruncDiv(a, 60), 60) == TruncDiv(a, 3600)
  {
    if a >= 0 {
      NatDivNested(a);
    } else {
      NatDivNested(-a);
    }
  }

  /** `toMinutes()` of a non-negative duration keeps the whole minutes and drops less than one minute. */
  lemma {:induction false} WholeMinutes(d: int)
    requires d >= 0
    ensures 0 <= d - 60 * TruncDiv(d, 60) < 60
    ensures TruncDiv(d, 60) >= 0
  {
    TruncRemBounds(d, 60);
  }
}
