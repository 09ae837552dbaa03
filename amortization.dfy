/** The arithmetic of a fixed-rate loan, independent of any vehicle.

    `Pow` stands for `Math.pow(1 + r, n)` with a natural exponent.
    `Balance` is the reference meaning of "a payment amortizes a loan": the
    amount still owed after k months, when every month the balance accrues
    interest at the monthly rate and then one payment is made.
    `AnnuityFactor` is the sum (1+r)^0 + ... + (1+r)^(n-1); the lemmas below
    relate it to `Pow` and give `Balance` in closed form.
 */
module Amortization {

  /** x raised to a natural power. */
  function Pow(x: real, n: nat): real
  {
    if n == 0 then 1.0 else x * Pow(x, n - 1)
  }

  /** The sum of (1 + r)^j for j in [0, n). */
  function AnnuityFactor(r: real, n: nat): real
  {
    if n == 0 then 0.0 else AnnuityFactor(r, n - 1) * (1.0 + r) + 1.0
  }

  /** What is still owed on `principal` after k monthly payments of
      `payment`, interest being charged at rate r per month on the balance. */
  function Balance(principal: real, r: real, payment: real, k: nat): real
  {
    if k == 0 then principal else Balance(principal, r, payment, k - 1) * (1.0 + r) - payment
  }

  /** A growth factor of at least one never shrinks under powers, and one
      above one grows strictly from the first power on. */
  lemma {:induction false} PowGrowth(x: real, n: nat)
    requires x >= 1.0
    ensures Pow(x, n) >= 1.0
    ensures x > 1.0 && n >= 1 ==> Pow(x, n) > 1.0
  {
    if n > 0 {
      PowGrowth(x, n - 1);
      ProductAboveOne(x, Pow(x, n - 1), Pow(x, n));
    } else {
      assert Pow(x, n) == 1.0;
    }
  }

  /** Powers add exponents: x^(a+b) == x^a * x^b. */
  lemma {:induction false} PowAdd(x: real, a: nat, b: nat)
    ensures Pow(x, a + b) == Pow(x, a) * Pow(x, b)
  {
    if a > 0 {
      PowAdd(x, a - 1, b);
      assert Pow(x, a + b) == x * Pow(x, a - 1 + b);
    }
  }

  /** With a non-negative rate each of the n terms of the factor is at least
      one, so the factor is at least n. */
  lemma {:induction false} FactorAtLeastTerm(r: real, n: nat)
    requires r >= 0.0
    ensures AnnuityFactor(r, n) >= n as real
  {
    if n > 0 {
      FactorAtLeastTerm(r, n - 1);
      FactorLowerStep(r, (n - 1) as real, AnnuityFactor(r, n - 1), AnnuityFactor(r, n));
    } else {
      assert AnnuityFactor(r, n) == 0.0;
    }
  }

  /** The geometric-series identity: r * sum_{j<n} (1+r)^j == (1+r)^n - 1. */
  lemma {:induction false} FactorTimesRate(r: real, n: nat)
    ensures r * AnnuityFactor(r, n) == Pow(1.0 + r, n) - 1.0
  {
    if n > 0 {
      FactorTimesRate(r, n - 1);
      GeometricStep(r, AnnuityFactor(r, n - 1), Pow(1.0 + r, n - 1),
                    AnnuityFactor(r, n), Pow(1.0 + r, n));
    } else {
      assert AnnuityFactor(r, n) == 0.0 && Pow(1.0 + r, n) == 1.0;
    }
  }

  /** At rate zero every term of the sum is 1, so the factor is the term, and
      every power of 1 is 1. */
  lemma {:induction false} FactorAtZeroRate(n: nat)
    ensures AnnuityFactor(0.0, n) == n as real
    ensures Pow(1.0, n) == 1.0
  {
    if n > 0 {
      FactorAtZeroRate(n - 1);
    }
  }

  /** No term of the sum exceeds the last power (1+r)^n, so the sum is at most
      n times it; for a positive rate and n >= 1 the bound is strict. */
  lemma {:induction false} FactorBound(r: real, n: nat)
    requires r >= 0.0
    ensures AnnuityFactor(r, n) <= n as real * Pow(1.0 + r, n)
    ensures r > 0.0 && n >= 1 ==> AnnuityFactor(r, n) < n as real * Pow(1.0 + r, n)
  {
    if n > 0 {
      FactorBound(r, n - 1);
      PowGrowth(1.0 + r, n);
      BoundStep(r, (n - 1) as real, AnnuityFactor(r, n - 1), Pow(1.0 + r, n - 1),
                n as real, AnnuityFactor(r, n), Pow(1.0 + r, n));
    } else {
      assert AnnuityFactor(r, n) == 0.0;
    }
  }

  /** The balance after k months in closed form: the principal grown by k
      months of interest, less every payment grown from the month it was made. */
  lemma {:induction false} BalanceClosedForm(principal: real, r: real, payment: real, k: nat)
    ensures Balance(principal, r, payment, k)
         == principal * Pow(1.0 + r, k) - payment * AnnuityFactor(r, k)
  {
    if k > 0 {
      BalanceClosedForm(principal, r, payment, k - 1);
      BalanceStep(principal, r, payment,
                  Balance(principal, r, payment, k - 1), Pow(1.0 + r, k - 1), AnnuityFactor(r, k - 1),
                  Balance(principal, r, payment, k), Pow(1.0 + r, k), AnnuityFactor(r, k));
    } else {
      assert Pow(1.0 + r, k) == 1.0 && AnnuityFactor(r, k) == 0.0;
    }
  }

  /** A payment whose n-fold annuity factor equals the grown principal leaves
      nothing owed after the n-th payment. */
  lemma RetiredWhenPaymentMatches(principal: real, r: real, payment: real, n: nat)
    requires payment * AnnuityFactor(r, n) == principal * Pow(1.0 + r, n)
    ensures Balance(principal, r, payment, n) == 0.0
  {
    BalanceClosedForm(principal, r, payment, n);
  }

  // One-month steps of the inductions above, stated over plain numbers so that
  // the nonlinear arithmetic is kept apart from the recursive definitions.

  lemma ProductAboveOne(x: real, p: real, p': real)
    requires x >= 1.0 && p >= 1.0 && p' == x * p
    ensures p' >= 1.0 && (x > 1.0 ==> p' > 1.0)
  {
    assert x * p >= 1.0 * p;
  }

  lemma FactorLowerStep(r: real, k: real, s: real, s': real)
    requires r >= 0.0 && k >= 0.0 && s >= k && s' == s * (1.0 + r) + 1.0
    ensures s' >= k + 1.0
  {
    assert s * (1.0 + r) >= s;
  }

  lemma GeometricStep(r: real, s: real, t: real, s': real, t': real)
    requires r * s == t - 1.0
    requires s' == s * (1.0 + r) + 1.0 && t' == (1.0 + r) * t
    ensures r * s' == t' - 1.0
  {
    assert r * (s * (1.0 + r) + 1.0) == (r * s) * (1.0 + r) + r;
    assert (r * s) * (1.0 + r) == (t - 1.0) * (1.0 + r);
  }

  lemma BoundStep(r: real, k: real, s: real, q: real, k': real, s': real, q': real)
    requires r >= 0.0 && k >= 0.0 && s <= k * q
    requires k' == k + 1.0 && s' == s * (1.0 + r) + 1.0 && q' == (1.0 + r) * q && q' >= 1.0
    ensures s' <= k' * q'
    ensures q' > 1.0 ==> s' < k' * q'
  {
    assert s * (1.0 + r) <= (k * q) * (1.0 + r);
    assert (k * q) * (1.0 + r) == k * q';
  }

  lemma BalanceStep(principal: real, r: real, payment: real,
                    b: real, q: real, s: real, b': real, q': real, s': real)
    requires b == principal * q - payment * s
    requires b' == b * (1.0 + r) - payment && q' == (1.0 + r) * q && s' == s * (1.0 + r) + 1.0
    ensures b' == principal * q' - payment * s'
  {
    assert b * (1.0 + r) == (principal * q) * (1.0 + r) - (payment * s) * (1.0 + r);
  }
}
