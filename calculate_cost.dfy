/** The two calculators of src/utils/calculateCost.js over exact reals.

    `CalculateLoanDetails` is `calculateLoanDetails`: sales tax on the full
    price, the financed principal, an early "no loan" answer when cash covers
    the upfront cost, and otherwise a fixed monthly payment (straight line at
    rate zero, the annuity formula otherwise) with interest totals.
    `CalculateOwnershipCosts` is `calculateOwnershipCosts`: yearly figures
    turned into monthly ones, summed with the loan payment, and scaled to a
    year and to five years.
 */
module CalculateCost {
  import opened Amortization

  datatype Option<T> = None | Some(value: T)

  /** The fields `calculateLoanDetails` reads from its argument. Rates are
      percentages; the term is a JavaScript number of months. */
  datatype LoanInputs = LoanInputs(
    price: real,
    downPayment: real,
    tradeIn: real,
    interestRate: real,
    loanTermMonths: real,
    salesTaxRate: real,
    fees: real)

  /** The object `calculateLoanDetails` returns. The early "no loan" object
      has no `taxAmount` member: that is `None` here. */
  datatype LoanDetails = LoanDetails(
    monthlyPayment: real,
    loanAmount: real,
    totalInterest: real,
    totalCostWithInterest: real,
    taxAmount: Option<real>)

  /** Sales tax, charged on the full price. */
  function TaxAmount(i: LoanInputs): real
  {
    i.price * (i.salesTaxRate / 100.0)
  }

  /** Price plus tax plus fees, before any cash or trade-in is applied. */
  function TotalUpfrontCost(i: LoanInputs): real
  {
    i.price + TaxAmount(i) + i.fees
  }

  /** The amount left to finance once cash down and trade-in are applied. */
  function LoanPrincipal(i: LoanInputs): real
  {
    TotalUpfrontCost(i) - i.downPayment - i.tradeIn
  }

  /** The annual percentage rate as a monthly fraction. */
  function MonthlyRate(i: LoanInputs): real
  {
    (i.interestRate / 100.0) / 12.0
  }

  /** A term the formulas can use: a whole number of months, at least one. */
  predicate WholeMonths(t: real)
  {
    t >= 1.0 && t.Floor as real == t
  }

  /** The term as the natural exponent of `Math.pow`. */
  function Term(i: LoanInputs): (n: nat)
    requires WholeMonths(i.loanTermMonths)
    ensures n >= 1 && n as real == i.loanTermMonths
  {
    i.loanTermMonths.Floor
  }

  /** The inputs this model covers: when a loan is needed, the term is a
      whole number of months, at least one, and the rate is not negative.
      JavaScript also gives finite results for fractional terms and negative
      rates; those are not modelled. With no loan the term and the rate are
      never read. */
  predicate Amortizable(i: LoanInputs)
  {
    LoanPrincipal(i) <= 0.0 || (WholeMonths(i.loanTermMonths) && i.interestRate >= 0.0)
  }

  function CalculateLoanDetails(i: LoanInputs): (d: LoanDetails)
    requires Amortizable(i)
    ensures d.loanAmount > 0.0 <==> LoanPrincipal(i) > 0.0
    ensures LoanPrincipal(i) <= 0.0 ==>
              d == LoanDetails(0.0, 0.0, 0.0, TotalUpfrontCost(i), None)
    ensures LoanPrincipal(i) > 0.0 ==>
              && d.loanAmount == LoanPrincipal(i)
              && d.taxAmount == Some(TaxAmount(i))
              && d.totalInterest == d.monthlyPayment * i.loanTermMonths - d.loanAmount
              && d.totalCostWithInterest == TotalUpfrontCost(i) + d.totalInterest
  {
    var taxAmount := TaxAmount(i);
    var totalUpfrontCost := TotalUpfrontCost(i);
    var loanPrincipal := LoanPrincipal(i);
    if loanPrincipal <= 0.0 then
      LoanDetails(0.0, 0.0, 0.0, totalUpfrontCost, None)
    else
      var r := MonthlyRate(i);
      var n := Term(i);
      var monthlyPayment :=
        if i.interestRate == 0.0 then
          loanPrincipal / n as real
        else (
          PowGrowth(1.0 + r, n);
          (loanPrincipal * r * Pow(1.0 + r, n)) / (Pow(1.0 + r, n) - 1.0));
      var totalLoanPayments := monthlyPayment * n as real;
      var totalInterest := totalLoanPayments - loanPrincipal;
      LoanDetails(monthlyPayment, loanPrincipal, totalInterest,
                  totalUpfrontCost + totalInterest, Some(taxAmount))
  }

  /** For a positive monthly rate and a term of at least one month the
      annuity formula divides by a positive number. */
  lemma AnnuityDenominatorPositive(i: LoanInputs)
    requires WholeMonths(i.loanTermMonths) && i.interestRate > 0.0
    ensures Pow(1.0 + MonthlyRate(i), Term(i)) - 1.0 > 0.0
  {
    PowGrowth(1.0 + MonthlyRate(i), Term(i));
  }

  /** Both branches of the payment obey one amortisation rule: n payments,
      each grown by interest from the month it is paid, add up to the
      principal grown over the whole term. At rate zero the annuity factor is
      n and the growth is 1, which is the straight-line branch. */
  lemma PaymentMatchesAnnuityFactor(i: LoanInputs)
    requires Amortizable(i) && LoanPrincipal(i) > 0.0
    ensures var d := CalculateLoanDetails(i);
            d.monthlyPayment * AnnuityFactor(MonthlyRate(i), Term(i))
            == d.loanAmount * Pow(1.0 + MonthlyRate(i), Term(i))
  {
    var d := CalculateLoanDetails(i);
    var r, n := MonthlyRate(i), Term(i);
    var p := LoanPrincipal(i);
    if i.interestRate == 0.0 {
      FactorAtZeroRate(n);
      assert r == 0.0;
      assert d.monthlyPayment == p / n as real;
    } else {
      PowGrowth(1.0 + r, n);
      FactorTimesRate(r, n);
      AnnuityAlgebra(p, r, Pow(1.0 + r, n), AnnuityFactor(r, n), d.monthlyPayment);
    }
  }

  /** The closed-form annuity payment times the factor gives back the grown
      principal, using r * factor == q - 1. */
  lemma AnnuityAlgebra(p: real, r: real, q: real, s: real, m: real)
    requires q - 1.0 > 0.0 && r * s == q - 1.0
    requires m == (p * r * q) / (q - 1.0)
    ensures m * s == p * q
  {
    assert m * (q - 1.0) == p * r * q;
    assert m * (r * s) == (p * q) * r;
    assert r != 0.0;
  }

  /** The monthly payment retires the loan: after the n-th payment, with
      interest charged every month on what is still owed, nothing is owed. */
  lemma PaymentRetiresLoan(i: LoanInputs)
    requires Amortizable(i) && LoanPrincipal(i) > 0.0
    ensures var d := CalculateLoanDetails(i);
            Balance(d.loanAmount, MonthlyRate(i), d.monthlyPayment, Term(i)) == 0.0
  {
    var d := CalculateLoanDetails(i);
    PaymentMatchesAnnuityFactor(i);
    RetiredWhenPaymentMatches(d.loanAmount, MonthlyRate(i), d.monthlyPayment, Term(i));
  }

  /** At rate zero a loan is repaid in equal parts of the principal and costs
      no interest: the total cost is the upfront cost. */
  lemma ZeroRateStraightLine(i: LoanInputs)
    requires Amortizable(i) && LoanPrincipal(i) > 0.0 && i.interestRate == 0.0
    ensures var d := CalculateLoanDetails(i);
            && d.monthlyPayment == d.loanAmount / i.loanTermMonths
            && d.monthlyPayment * i.loanTermMonths == d.loanAmount
            && d.totalInterest == 0.0
            && d.totalCostWithInterest == TotalUpfrontCost(i)
  {
  }

  /** When a loan exists the payment is positive, n payments cover at least
      the principal, and interest is paid exactly when the rate is positive. */
  lemma InterestNonNegative(i: LoanInputs)
    requires Amortizable(i) && LoanPrincipal(i) > 0.0
    ensures var d := CalculateLoanDetails(i);
            && d.monthlyPayment > 0.0
            && d.monthlyPayment * i.loanTermMonths >= d.loanAmount
            && d.totalInterest >= 0.0
            && (d.totalInterest > 0.0 <==> i.interestRate > 0.0)
            && d.totalCostWithInterest >= TotalUpfrontCost(i)
  {
    var d := CalculateLoanDetails(i);
    var r, n := MonthlyRate(i), Term(i);
    PaymentMatchesAnnuityFactor(i);
    PowGrowth(1.0 + r, n);
    FactorAtLeastTerm(r, n);
    FactorBound(r, n);
    PaymentBound(d.loanAmount, d.monthlyPayment, n as real,
                 AnnuityFactor(r, n), Pow(1.0 + r, n), r > 0.0);
  }

  /** From m * s == p * q with s <= n * q (strictly when `strict`), q >= 1 and
      s >= n >= 1: m is positive and m * n covers p (strictly when `strict`). */
  lemma PaymentBound(p: real, m: real, n: real, s: real, q: real, strict: bool)
    requires p > 0.0 && n >= 1.0 && q >= 1.0 && s >= n
    requires m * s == p * q
    requires s <= n * q && (strict ==> s < n * q)
    ensures m > 0.0 && m * n >= p && (strict ==> m * n > p)
  {
    assert p * q > 0.0;
    assert m == (p * q) / s;
    assert m * s <= m * (n * q);
    assert (m * n) * q >= p * q;
    if strict {
      assert m * s < m * (n * q);
      assert (m * n) * q > p * q;
    }
  }

  /** A loan is needed exactly when cash down and trade-in fall short of
      price plus tax plus fees; exactly then the amount financed and the
      monthly payment are non-zero. Without a loan no interest is paid. */
  lemma CashOnlyIff(i: LoanInputs)
    requires Amortizable(i)
    ensures var d := CalculateLoanDetails(i);
            var cashCovers := i.downPayment + i.tradeIn >= i.price * (1.0 + i.salesTaxRate / 100.0) + i.fees;
            && (d.monthlyPayment == 0.0 <==> cashCovers)
            && (d.loanAmount == 0.0 <==> cashCovers)
            && (cashCovers ==> d.totalInterest == 0.0)
  {
    if LoanPrincipal(i) > 0.0 {
      InterestNonNegative(i);
    }
  }

  /** The annuity payment falls as the growth factor (1+r)^n rises, so
      bounds on the growth factor bound the payment. */
  lemma AnnuityPaymentBetween(p: real, r: real, q: real, lo: real, hi: real)
    requires p * r > 0.0 && 1.0 < lo <= q <= hi
    ensures (p * r * hi) / (hi - 1.0) <= (p * r * q) / (q - 1.0) <= (p * r * lo) / (lo - 1.0)
  {
    var k := p * r;
    DivLe(k * q, q - 1.0, k * lo, lo - 1.0);
    DivLe(k * hi, hi - 1.0, k * q, q - 1.0);
  }

  /** Comparing two quotients with positive denominators by cross-multiplying. */
  lemma DivLe(a: real, b: real, c: real, d: real)
    requires b > 0.0 && d > 0.0 && a * d <= c * b
    ensures a / b <= c / d
  {
    var x, y := a / b, c / d;
    assert x * b == a && y * d == c;
    assert (x * d) * b <= (y * d) * b;
    assert x * d <= y * d;
  }

  /** Trade-in value lowers the principal dollar for dollar but never the
      tax, which stays on the full price. */
  lemma TradeInLeavesTaxAlone(i: LoanInputs, extra: real)
    ensures var j := i.(tradeIn := i.tradeIn + extra);
            && TaxAmount(j) == TaxAmount(i)
            && TotalUpfrontCost(j) == TotalUpfrontCost(i)
            && LoanPrincipal(j) == LoanPrincipal(i) - extra
  {
  }

  /** The fields `calculateOwnershipCosts` reads from its argument. */
  datatype UsageInputs = UsageInputs(
    milesPerYear: real,
    mpg: real,
    gasPrice: real,
    insuranceMonthly: real,
    maintenanceYearly: real,
    monthlyPayment: real)

  /** The object `calculateOwnershipCosts` returns. */
  datatype OwnershipCosts = OwnershipCosts(
    fuelMonthly: real,
    maintenanceMonthly: real,
    insuranceMonthly: real,
    totalMonthly: real,
    totalAnnual: real,
    total5Year: real)

  function CalculateOwnershipCosts(u: UsageInputs): (c: OwnershipCosts)
    requires u.mpg != 0.0
    ensures c.fuelMonthly * u.mpg * 12.0 == u.milesPerYear * u.gasPrice
    ensures c.maintenanceMonthly * 12.0 == u.maintenanceYearly
    ensures c.insuranceMonthly == u.insuranceMonthly
    ensures c.totalMonthly == u.monthlyPayment + c.fuelMonthly + c.insuranceMonthly + c.maintenanceMonthly
    ensures c.totalAnnual == c.totalMonthly * 12.0 && c.total5Year == c.totalMonthly * 60.0
    ensures c.total5Year == 5.0 * c.totalAnnual
    ensures c.totalAnnual == 12.0 * u.monthlyPayment + u.milesPerYear * u.gasPrice / u.mpg
                             + 12.0 * u.insuranceMonthly + u.maintenanceYearly
  {
    var milesPerMonth := u.milesPerYear / 12.0;
    var fuelMonthly := (milesPerMonth / u.mpg) * u.gasPrice;
    var maintenanceMonthly := u.maintenanceYearly / 12.0;
    var totalMonthly := u.monthlyPayment + fuelMonthly + u.insuranceMonthly + maintenanceMonthly;
    FuelAlgebra(u.milesPerYear, u.mpg, u.gasPrice, fuelMonthly);
    OwnershipCosts(fuelMonthly, maintenanceMonthly, u.insuranceMonthly, totalMonthly,
                   totalMonthly * 12.0, totalMonthly * 60.0)
  }

  /** Fuel per month, scaled back to a year, is miles per year over miles per
      gallon times the gas price. */
  lemma FuelAlgebra(milesPerYear: real, mpg: real, gasPrice: real, fuel: real)
    requires mpg != 0.0 && fuel == ((milesPerYear / 12.0) / mpg) * gasPrice
    ensures fuel * mpg * 12.0 == milesPerYear * gasPrice
    ensures fuel * 12.0 == milesPerYear * gasPrice / mpg
  {
    assert (milesPerYear / 12.0) / mpg == milesPerYear / (12.0 * mpg);
    assert fuel * (12.0 * mpg) == milesPerYear * gasPrice;
  }

  /** With non-negative operating inputs and a positive mpg the operating
      costs are non-negative, so the monthly total is at least the loan
      payment, and with no payment it is the operating costs alone. */
  lemma OperatingCostsBounds(u: UsageInputs)
    requires u.mpg > 0.0
    requires u.milesPerYear >= 0.0 && u.gasPrice >= 0.0
    requires u.insuranceMonthly >= 0.0 && u.maintenanceYearly >= 0.0
    ensures var c := CalculateOwnershipCosts(u);
            && c.fuelMonthly >= 0.0 && c.maintenanceMonthly >= 0.0
            && c.totalMonthly >= u.monthlyPayment
            && (u.monthlyPayment == 0.0 ==>
                  c.totalMonthly == c.fuelMonthly + c.insuranceMonthly + c.maintenanceMonthly)
  {
    assert (u.milesPerYear / 12.0) / u.mpg >= 0.0;
  }

  /** The loan payment enters every total one for one: the operating costs
      do not depend on it. */
  lemma PaymentEntersTotalsOneForOne(u: UsageInputs, payment: real)
    requires u.mpg != 0.0
    ensures var c := CalculateOwnershipCosts(u);
            var c' := CalculateOwnershipCosts(u.(monthlyPayment := payment));
            && c'.fuelMonthly == c.fuelMonthly
            && c'.maintenanceMonthly == c.maintenanceMonthly
            && c'.insuranceMonthly == c.insuranceMonthly
            && c'.totalMonthly - c.totalMonthly == payment - u.monthlyPayment
            && c'.totalAnnual - c.totalAnnual == 12.0 * (payment - u.monthlyPayment)
  {
  }
}
