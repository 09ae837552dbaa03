# Vehicle cost calculator: loan and ownership-cost model

A Dafny model of the financial core of a side-by-side vehicle cost
calculator. For every vehicle profile the page keeps, it computes a
fixed-rate car loan (sales tax, amount financed, monthly payment, total
interest) and then the monthly cost of owning the car (fuel, insurance,
maintenance plus the loan payment), scaled to a year and to five years.

Modules, one per concern:

- `Amortization` (amortization.dfy): `Pow` for `Math.pow(1 + r, n)` with a
  natural exponent, the annuity factor (1+r)^0 + ... + (1+r)^(n-1), and
  `Balance`, the amount still owed after k monthly payments. `Balance` is the
  independent reference for what a loan payment must achieve.
- `CalculateCost` (calculate_cost.dfy): `calculateLoanDetails` and
  `calculateOwnershipCosts` as functions over exact reals, with lemmas:
  - n payments of the computed amount leave nothing owed after the n-th payment;
  - both payment branches follow one amortisation rule;
  - interest is non-negative, and positive exactly when the rate is;
  - a loan is needed exactly when cash and trade-in fall short;
  - trade-in never lowers the tax;
  - the monthly total covers the loan payment.
- `App` (app.dfy): the vehicle record, the single-field edit handler
  (a method that copies the list into an array and replaces one entry), the
  recompute map over all cars, and the initial two-car state.

Numbers are JavaScript numbers in the source and `real` here. The loan term is
kept as a number. The model covers loans whose term is a whole number of
months, at least one, and whose rate is not negative. The no-loan branch never
reads the term or the rate, so there any values are covered.

The page's footer (src/App.jsx:121-128) describes a total ownership cost over a
chosen ownership duration, with loan payments counted only over the loan term.
The calculation code in this revision has none of that, and the model follows
the code:

- The code has no ownership horizon.
- It has no cap on loan payments at the horizon.
- It has no grand total of ownership cost.
- `calculateOwnershipCosts` returns `totalAnnual` and `total5Year` instead.
- Its early "no loan" result carries no `taxAmount` (modelled as `None`).

## Model

| member | source | states |
|---|---|---|
| `Amortization.Pow` | src/utils/calculateCost.js:42 | `Math.pow(1 + r, n)` for a natural exponent n; definition, no contract |
| `Amortization.PowGrowth` | src/utils/calculateCost.js:35-42 | (1+r)^n is at least 1 for r >= 0, and above 1 for r > 0 and n >= 1, so the annuity denominator is positive |
| `Amortization.PowAdd` | src/utils/calculateCost.js:42 | powers add exponents: x^(a+b) = x^a · x^b |
| `Amortization.FactorAtLeastTerm` | src/utils/calculateCost.js:36-42 | with a non-negative rate the annuity factor over n months is at least n |
| `Amortization.FactorTimesRate` | src/utils/calculateCost.js:3 | r times the annuity factor equals (1+r)^n - 1, which links the closed formula to the month-by-month sum |
| `Amortization.FactorAtZeroRate` | src/utils/calculateCost.js:39-40 | at rate zero the annuity factor is n and the growth is 1 |
| `Amortization.FactorBound` | src/utils/calculateCost.js:42-46 | the annuity factor is at most n·(1+r)^n, strictly below it for r > 0 and n >= 1 |
| `Amortization.BalanceClosedForm` | src/utils/calculateCost.js:3 | the balance after k monthly payments is P·(1+r)^k minus the payment times the k-month annuity factor |
| `Amortization.RetiredWhenPaymentMatches` | src/utils/calculateCost.js:3 | a payment whose annuity factor times itself equals the principal grown over n months leaves nothing owed after n payments |
| `CalculateCost.TaxAmount` | src/utils/calculateCost.js:18 | price × (salesTaxRate / 100); definition, no contract |
| `CalculateCost.TotalUpfrontCost` | src/utils/calculateCost.js:21 | price + tax + fees; definition, no contract |
| `CalculateCost.LoanPrincipal` | src/utils/calculateCost.js:22 | upfront cost − down payment − trade-in; definition, no contract |
| `CalculateCost.MonthlyRate` | src/utils/calculateCost.js:35 | (interestRate / 100) / 12; definition, no contract |
| `CalculateCost.Term` | src/utils/calculateCost.js:36 | the term used as exponent is a natural number of at least one, equal to `loanTermMonths` |
| `CalculateCost.CalculateLoanDetails` | src/utils/calculateCost.js:5-55 | a loan exists (amount > 0) iff principal = price + tax + fees - down - trade-in > 0; with none, payment, amount and interest are 0, total cost is the upfront cost and there is no tax field; with one, amount = principal, tax = price·rate/100, interest = payment·n - amount, total cost = upfront + interest |
| `CalculateCost.AnnuityDenominatorPositive` | src/utils/calculateCost.js:35-42 | for a positive rate and a whole term of at least one month, (1+r)^n - 1 > 0 |
| `CalculateCost.PaymentMatchesAnnuityFactor` | src/utils/calculateCost.js:38-43 | both branches (straight line at rate 0, annuity formula otherwise) satisfy payment × annuity factor = principal × (1+r)^n |
| `CalculateCost.AnnuityAlgebra` | src/utils/calculateCost.js:42 | the annuity-formula payment times the annuity factor is the principal grown over the term |
| `CalculateCost.PaymentRetiresLoan` | src/utils/calculateCost.js:1-4 | with interest charged monthly on the balance, n payments of the computed amount leave exactly nothing owed |
| `CalculateCost.ZeroRateStraightLine` | src/utils/calculateCost.js:39-52 | at rate 0 the payment is principal / n, n payments repay exactly the principal, interest is 0 and total cost is the upfront cost |
| `CalculateCost.InterestNonNegative` | src/utils/calculateCost.js:42-52 | when a loan exists the payment is positive, n payments cover the principal, interest is >= 0 and > 0 exactly when the rate is > 0, and total cost is at least the upfront cost |
| `CalculateCost.PaymentBound` | src/utils/calculateCost.js:45-46 | a payment balancing the grown principal is positive and n of them cover the principal (strictly when the growth bound is strict) |
| `CalculateCost.CashOnlyIff` | src/utils/calculateCost.js:21-32 | the monthly payment is zero exactly when down payment + trade-in >= price·(1 + tax/100) + fees, the amount financed likewise, and then no interest is paid |
| `CalculateCost.AnnuityPaymentBetween` | src/utils/calculateCost.js:42 | the annuity payment falls as (1+r)^n rises, so bounds on the growth factor bound the payment |
| `CalculateCost.TradeInLeavesTaxAlone` | src/utils/calculateCost.js:14-22 | raising the trade-in by x leaves tax and upfront cost unchanged and lowers the principal by exactly x |
| `CalculateCost.CalculateOwnershipCosts` | src/utils/calculateCost.js:60-82 | fuel·mpg·12 = miles per year·gas price, maintenance·12 = yearly maintenance, insurance passes through, total = payment + fuel + insurance + maintenance, annual = total × 12 and five-year = total × 60, so five-year = 5 × annual, annual = 12·payment + yearly fuel + 12·insurance + yearly maintenance |
| `CalculateCost.FuelAlgebra` | src/utils/calculateCost.js:68-69 | monthly fuel cost scaled back to a year is miles per year / mpg × gas price |
| `CalculateCost.OperatingCostsBounds` | src/utils/calculateCost.js:68-72 | with non-negative operating inputs and mpg > 0, fuel and maintenance are >= 0, total >= payment, and with payment 0 the total is the operating costs alone |
| `CalculateCost.PaymentEntersTotalsOneForOne` | src/utils/calculateCost.js:72-80 | changing the loan payment leaves the operating costs alone and moves the monthly total by the same amount and the annual total by twelve times it |
| `App.Get` | src/App.jsx:38 | a field read gives text for the name and a number for every other field |
| `App.SetField` | src/App.jsx:38 | after the spread, the named field reads back as the new value, every other field and the id as before |
| `App.CarsEqualByFields` | src/App.jsx:38 | two cars with the same id and the same value in every field are the same car |
| `App.SetFieldLaws` | src/App.jsx:38 | writing back a field's own value changes nothing; a second write to the same field overrides the first |
| `App.HandleInputChange` | src/App.jsx:35-41 | the new list has the same length, every car other than `carIndex` is unchanged, and the car at `carIndex` has only `field` set to `value` |
| `App.LoanInputsOf` | src/App.jsx:46 | the car passed to the loan calculator, of which it reads price, down payment, trade-in, rate, term, tax rate and fees; definition, no contract |
| `App.UsageInputsOf` | src/App.jsx:47-51 | the car's usage fields spread together with that car's own monthly payment; definition, no contract |
| `App.ResultFor` | src/App.jsx:45-59 | the map callback: loan details, then ownership costs with that loan's payment, then totalMonthly taken from the costs; definition, no contract |
| `App.RecomputeResults` | src/App.jsx:44-62 | one result per car in the same order; each result's loan is that car's loan details, its costs use that car's own monthly payment, and its totalMonthly is costs.totalMonthly |
| `App.EditIsLocal` | src/App.jsx:44-51 | when only one car differs, every other car's result is unchanged and the edited car's loan is recomputed from its new inputs |
| `App.DisplayOnlyFieldsUnread` | src/App.jsx:45-51 | editing the name or the ownership horizon changes neither calculator's input |
| `App.DisplayOnlyEditKeepsResults` | src/App.jsx:35-62 | after an edit of the name or the ownership horizon, the recomputed results are exactly the previous ones |
| `App.MonthlyTotalCoversPayment` | src/App.jsx:46-56 | for a car with non-negative operating inputs, the payment is >= 0, > 0 exactly when a loan is needed, and totalMonthly >= the payment |
| `App.InitialCar` | src/App.jsx:7-22 | `INITIAL_CAR` with its fourteen values; a constant, no contract |
| `App.InitialCars` | src/App.jsx:7-29 | two cars with ids 0 and 1, names "Vehicle 1" and "Vehicle 2", prices 30000 and 35000, every other field shared, both computable |
| `App.InitialGrowthFactor` | src/App.jsx:14-15 | 6.5% a year compounded monthly over 60 months grows by a factor between 1.38281 and 1.38282 |
| `App.InitialMonthlyPayment` | src/App.jsx:7-29 | the first initial car pays between 540.00 and 540.05 a month and between 4800 and 4803 of interest in all |
| `App.InitialResults` | src/App.jsx:7-29 | the initial cars have tax 2100 and 2450, amounts financed 27600 and 32950, fuel 140 a month and maintenance 800/12 a month |

## Left out

- Floating point: rounding, `NaN` and `Infinity` are not modelled. The model uses exact reals.
- Division by zero: `mpg = 0` and, when a loan is needed, a term of 0 divide by zero in JavaScript; the model excludes them by preconditions.
- CalculateCost.CalculateLoanDetails: covers only whole terms of at least one month when a loan is needed. JavaScript also computes finite results for fractional terms (`Math.pow` with a fractional exponent, division by a fractional term) and for terms between 0 and 1; those are not modelled, because `Pow` takes a natural exponent.
- CalculateCost.CalculateLoanDetails: requires a non-negative interest rate when a loan exists. JavaScript computes a result for negative rates; the model does not cover them.
- App.HandleInputChange: requires `carIndex` to be inside the list. JavaScript would grow the list for a larger index; both callers pass the index of an existing car.
- App.HandleInputChange: requires the value's kind to match the field (text for the name, a number otherwise). JavaScript would store any value; the page's callers never mismatch.
- The input form's `parseFloat(value) || 0` coercion is not part of this model; inputs are taken to be numbers.
- Result rendering and currency formatting (src/components/ResultsDisplay.jsx) are not part of this model.
- React state and effect scheduling are not part of this model. The list of cars is a sequence, and the effect is the function `RecomputeResults`.
- The mobile tabs, the name input and the footer text are not part of this model.
- `costs.totalOwnershipCost` and `costs.ownershipYears` (src/App.jsx:57-58) are never produced by `calculateOwnershipCosts` in this revision. They are undefined there, so `CarResult` leaves them out.
- The spare `loanTermMonths` that the recompute passes to `calculateOwnershipCosts` (src/App.jsx:50) is never read there. `UsageInputs` leaves it out.
- The monthly payment of the second initial car is not computed; that of the first one is bounded to within five cents.
