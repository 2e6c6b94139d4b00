/** The balance test of `_process_vals` (457-468): the two totals are compared after
    Python 2's `round(x, dp)`, which rounds half away from zero. */
module Balance {

  /** Round to the nearest integer, halves away from zero. */
  function RoundHalfAway(y: real): (n: int)
    ensures y >= 0.0 ==> n >= 0 && n as real - 0.5 <= y < n as real + 0.5
    ensures y < 0.0 ==> n <= 0 && n as real - 0.5 < y <= n as real + 0.5
  {
    if y >= 0.0 then (y + 0.5).Floor else -((-y + 0.5).Floor)
  }

  /** An amount in units of the last decimal place, `x * 10^dp`. */
  function Scale(x: real, dp: nat): real {
    if dp == 0 then x else Scale(x, dp - 1) * 10.0
  }

  /** `round(x, dp)` scaled by `10^dp`: two totals round to the same value exactly when
      these integers agree. */
  function RoundScaled(x: real, dp: nat): int {
    RoundHalfAway(Scale(x, dp))
  }

  predicate Balanced(debit: real, credit: real, dp: nat) {
    RoundScaled(debit, dp) == RoundScaled(credit, dp)
  }

  /** Two values that round to the same integer are less than one apart. */
  lemma SameRoundIsClose(y: real, z: real)
    requires RoundHalfAway(y) == RoundHalfAway(z)
    ensures -1.0 < y - z < 1.0
  {
  }

  lemma {:induction false} ScaleSub(a: real, b: real, dp: nat)
    ensures Scale(a, dp) - Scale(b, dp) == Scale(a - b, dp)
  {
    if dp > 0 {
      ScaleSub(a, b, dp - 1);
    }
  }

  /** Totals that pass the test differ by less than one unit of the last decimal place. */
  lemma BalancedIsClose(debit: real, credit: real, dp: nat)
    requires Balanced(debit, credit, dp)
    ensures -1.0 < Scale(debit - credit, dp) < 1.0
  {
    SameRoundIsClose(Scale(debit, dp), Scale(credit, dp));
    ScaleSub(debit, credit, dp);
  }

  /** Totals a full unit of the last decimal place apart always fail the test. */
  lemma FarApartUnbalanced(debit: real, credit: real, dp: nat)
    requires Scale(debit - credit, dp) >= 1.0 || Scale(credit - debit, dp) >= 1.0
    ensures !Balanced(debit, credit, dp)
  {
    ScaleSub(debit, credit, dp);
    ScaleSub(credit, debit, dp);
    if Balanced(debit, credit, dp) {
      BalancedIsClose(debit, credit, dp);
      assert false;
    }
  }

  /** With two decimals, a difference below half a cent can still pass, half a cent
      up fails, and the rounding of a negative half goes away from zero. */
  lemma BalanceExamples()
    ensures Balanced(100.004, 100.0, 2)
    ensures !Balanced(100.005, 100.0, 2)
    ensures RoundScaled(-0.125, 2) == -13
  {
    assert Scale(100.004, 2) == 10000.4;
    assert Scale(100.005, 2) == 10000.5;
    assert Scale(100.0, 2) == 10000.0;
    assert Scale(-0.125, 2) == -12.5;
  }
}
