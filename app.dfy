/** The per-vehicle state and the recompute step of src/App.jsx.

    A `Car` is one vehicle profile in the list the page keeps. `HandleInputChange`
    is the edit handler: it copies the list and replaces one car by a copy
    with one field changed. `RecomputeResults` is the body of the recompute
    effect: every car goes through the loan calculator and then, with its own
    monthly payment, through the ownership calculator.
 */
module App {
  import opened Amortization
  import opened CalculateCost

  /** One vehicle profile: an id, a display name and the numeric inputs. */
  datatype Car = Car(
    id: int,
    name: string,
    price: real,
    salesTaxRate: real,
    fees: real,
    downPayment: real,
    tradeIn: real,
    interestRate: real,
    loanTermMonths: real,
    milesPerYear: real,
    mpg: real,
    gasPrice: real,
    insuranceMonthly: real,
    maintenanceYearly: real,
    ownershipYears: real)

  /** The field names the page passes to the edit handler. */
  datatype Field =
    | Name | Price | SalesTaxRate | Fees | DownPayment | TradeIn | InterestRate
    | LoanTermMonths | MilesPerYear | Mpg | GasPrice | InsuranceMonthly
    | MaintenanceYearly | OwnershipYears

  /** A field value: text for the name, a number for everything else. */
  datatype Value = Text(text: string) | Number(number: real)

  /** The kind of value each field holds. */
  predicate Fits(field: Field, value: Value)
  {
    if field == Name then value.Text? else value.Number?
  }

  /** Reading a field by name, `car[field]`. */
  function Get(car: Car, field: Field): (v: Value)
    ensures Fits(field, v)
  {
    match field
    case Name => Text(car.name)
    case Price => Number(car.price)
    case SalesTaxRate => Number(car.salesTaxRate)
    case Fees => Number(car.fees)
    case DownPayment => Number(car.downPayment)
    case TradeIn => Number(car.tradeIn)
    case InterestRate => Number(car.interestRate)
    case LoanTermMonths => Number(car.loanTermMonths)
    case MilesPerYear => Number(car.milesPerYear)
    case Mpg => Number(car.mpg)
    case GasPrice => Number(car.gasPrice)
    case InsuranceMonthly => Number(car.insuranceMonthly)
    case MaintenanceYearly => Number(car.maintenanceYearly)
    case OwnershipYears => Number(car.ownershipYears)
  }

  /** The object spread `{ ...car, [field]: value }`: the named field reads
      back as the new value and every other field, and the id, as before. */
  function SetField(car: Car, field: Field, value: Value): (c: Car)
    requires Fits(field, value)
    ensures Get(c, field) == value
    ensures forall g :: g != field ==> Get(c, g) == Get(car, g)
    ensures c.id == car.id
  {
    match field
    case Name => car.(name := value.text)
    case Price => car.(price := value.number)
    case SalesTaxRate => car.(salesTaxRate := value.number)
    case Fees => car.(fees := value.number)
    case DownPayment => car.(downPayment := value.number)
    case TradeIn => car.(tradeIn := value.number)
    case InterestRate => car.(interestRate := value.number)
    case LoanTermMonths => car.(loanTermMonths := value.number)
    case MilesPerYear => car.(milesPerYear := value.number)
    case Mpg => car.(mpg := value.number)
    case GasPrice => car.(gasPrice := value.number)
    case InsuranceMonthly => car.(insuranceMonthly := value.number)
    case MaintenanceYearly => car.(maintenanceYearly := value.number)
    case OwnershipYears => car.(ownershipYears := value.number)
  }

  /** A car is known by its id and the values of its fields. */
  lemma CarsEqualByFields(a: Car, b: Car)
    requires a.id == b.id
    requires forall f :: Get(a, f) == Get(b, f)
    ensures a == b
  {
    assert Get(a, Name) == Get(b, Name) && Get(a, Price) == Get(b, Price);
    assert Get(a, SalesTaxRate) == Get(b, SalesTaxRate) && Get(a, Fees) == Get(b, Fees);
    assert Get(a, DownPayment) == Get(b, DownPayment) && Get(a, TradeIn) == Get(b, TradeIn);
    assert Get(a, InterestRate) == Get(b, InterestRate);
    assert Get(a, LoanTermMonths) == Get(b, LoanTermMonths);
    assert Get(a, MilesPerYear) == Get(b, MilesPerYear) && Get(a, Mpg) == Get(b, Mpg);
    assert Get(a, GasPrice) == Get(b, GasPrice);
    assert Get(a, InsuranceMonthly) == Get(b, InsuranceMonthly);
    assert Get(a, MaintenanceYearly) == Get(b, MaintenanceYearly);
    assert Get(a, OwnershipYears) == Get(b, OwnershipYears);
  }

  /** Setting a field to the value it already holds gives back the same car,
      and setting it twice keeps only the second value. */
  lemma SetFieldLaws(car: Car, field: Field, v: Value, w: Value)
    requires Fits(field, v) && Fits(field, w)
    ensures SetField(car, field, Get(car, field)) == car
    ensures SetField(SetField(car, field, v), field, w) == SetField(car, field, w)
  {
    CarsEqualByFields(SetField(car, field, Get(car, field)), car);
    CarsEqualByFields(SetField(SetField(car, field, v), field, w), SetField(car, field, w));
  }

  /** The edit handler: copy the list, then replace the car at `carIndex` by
      a copy of it with `field` set to `value`. */
  method HandleInputChange(prevCars: seq<Car>, carIndex: nat, field: Field, value: Value)
    returns (newCars: seq<Car>)
    requires carIndex < |prevCars|
    requires Fits(field, value)
    ensures |newCars| == |prevCars|
    ensures forall i :: 0 <= i < |prevCars| && i != carIndex ==> newCars[i] == prevCars[i]
    ensures newCars[carIndex] == SetField(prevCars[carIndex], field, value)
  {
    var copy := new Car[|prevCars|](i requires 0 <= i < |prevCars| => prevCars[i]);
    copy[carIndex] := SetField(copy[carIndex], field, value);
    newCars := copy[..];
  }

  /** The loan calculator's argument: the car itself, of which it reads the
      financing fields. */
  function LoanInputsOf(car: Car): LoanInputs
  {
    LoanInputs(car.price, car.downPayment, car.tradeIn, car.interestRate,
               car.loanTermMonths, car.salesTaxRate, car.fees)
  }

  /** The ownership calculator's argument: the car's usage fields with the
      car's own monthly loan payment added. */
  function UsageInputsOf(car: Car, monthlyPayment: real): UsageInputs
  {
    UsageInputs(car.milesPerYear, car.mpg, car.gasPrice, car.insuranceMonthly,
                car.maintenanceYearly, monthlyPayment)
  }

  /** A car both calculators give finite numbers for. */
  predicate Computable(car: Car)
  {
    car.mpg != 0.0 && Amortizable(LoanInputsOf(car))
  }

  /** One entry of the results list. */
  datatype CarResult = CarResult(loan: LoanDetails, costs: OwnershipCosts, totalMonthly: real)

  /** The callback of the recompute map, for one car. */
  function ResultFor(car: Car): CarResult
    requires Computable(car)
  {
    var loan := CalculateLoanDetails(LoanInputsOf(car));
    var costs := CalculateOwnershipCosts(UsageInputsOf(car, loan.monthlyPayment));
    CarResult(loan, costs, costs.totalMonthly)
  }

  /** `cars.map(...)`: one result per car, in order, each computed from that
      car alone. */
  function RecomputeResults(cars: seq<Car>): (results: seq<CarResult>)
    requires forall car :: car in cars ==> Computable(car)
    ensures |results| == |cars|
    ensures forall i :: 0 <= i < |cars| ==>
              && Computable(cars[i])
              && results[i].loan == CalculateLoanDetails(LoanInputsOf(cars[i]))
              && results[i].costs == CalculateOwnershipCosts(UsageInputsOf(cars[i], results[i].loan.monthlyPayment))
              && results[i].totalMonthly == results[i].costs.totalMonthly
  {
    if cars == [] then []
    else [ResultFor(cars[0])] + RecomputeResults(cars[1..])
  }

  /** An edit to one car changes only that car's result: every other entry of
      the recomputed list is what it was, so nothing crosses between cars. */
  lemma EditIsLocal(cars: seq<Car>, newCars: seq<Car>, carIndex: nat)
    requires forall car :: car in cars ==> Computable(car)
    requires forall car :: car in newCars ==> Computable(car)
    requires carIndex < |cars| == |newCars|
    requires forall i :: 0 <= i < |cars| && i != carIndex ==> newCars[i] == cars[i]
    ensures var before, after := RecomputeResults(cars), RecomputeResults(newCars);
            && |after| == |before|
            && (forall j :: 0 <= j < |cars| && j != carIndex ==> after[j] == before[j])
            && after[carIndex].loan == CalculateLoanDetails(LoanInputsOf(newCars[carIndex]))
  {
  }

  /** Neither calculator reads the name or the ownership horizon. */
  lemma DisplayOnlyFieldsUnread(car: Car, field: Field, value: Value)
    requires field == Name || field == OwnershipYears
    requires Fits(field, value)
    ensures LoanInputsOf(SetField(car, field, value)) == LoanInputsOf(car)
    ensures SetField(car, field, value).mpg == car.mpg
    ensures forall m :: UsageInputsOf(SetField(car, field, value), m) == UsageInputsOf(car, m)
  {
  }

  /** Editing the name or the ownership horizon leaves every result as it was. */
  lemma DisplayOnlyEditKeepsResults(cars: seq<Car>, newCars: seq<Car>, carIndex: nat, field: Field, value: Value)
    requires forall car :: car in cars ==> Computable(car)
    requires carIndex < |cars| == |newCars|
    requires field == Name || field == OwnershipYears
    requires Fits(field, value)
    requires forall i :: 0 <= i < |cars| && i != carIndex ==> newCars[i] == cars[i]
    requires newCars[carIndex] == SetField(cars[carIndex], field, value)
    ensures forall car :: car in newCars ==> Computable(car)
    ensures RecomputeResults(newCars) == RecomputeResults(cars)
  {
    var edited, original := newCars[carIndex], cars[carIndex];
    assert original in cars;
    DisplayOnlyFieldsUnread(original, field, value);
    assert Computable(edited);
    forall car | car in newCars
      ensures Computable(car)
    {
      var i :| 0 <= i < |newCars| && newCars[i] == car;
      if i != carIndex {
        assert car == cars[i];
      }
    }
    var before, after := RecomputeResults(cars), RecomputeResults(newCars);
    assert after[carIndex] == before[carIndex];
    assert forall j :: 0 <= j < |cars| ==> after[j] == before[j];
  }

  /** For a car with non-negative operating inputs and a positive mpg, the
      monthly total is at least the loan payment, which is positive exactly
      when a loan is needed. */
  lemma MonthlyTotalCoversPayment(car: Car)
    requires Computable(car) && car.mpg > 0.0
    requires car.milesPerYear >= 0.0 && car.gasPrice >= 0.0
    requires car.insuranceMonthly >= 0.0 && car.maintenanceYearly >= 0.0
    ensures var res := RecomputeResults([car])[0];
            && res.loan.monthlyPayment >= 0.0
            && (res.loan.monthlyPayment > 0.0 <==> LoanPrincipal(LoanInputsOf(car)) > 0.0)
            && res.totalMonthly >= res.loan.monthlyPayment
  {
    var res := RecomputeResults([car])[0];
    if LoanPrincipal(LoanInputsOf(car)) > 0.0 {
      InterestNonNegative(LoanInputsOf(car));
    }
    OperatingCostsBounds(UsageInputsOf(car, res.loan.monthlyPayment));
  }

  /** `INITIAL_CAR`. It carries no id of its own; both cars of the initial
      state give it one, so the id here is only a placeholder. */
  const InitialCar: Car := Car(
    id := 0,
    name := "Vehicle 1",
    price := 30000.0,
    salesTaxRate := 7.0,
    fees := 500.0,
    downPayment := 5000.0,
    tradeIn := 0.0,
    interestRate := 6.5,
    loanTermMonths := 60.0,
    milesPerYear := 12000.0,
    mpg := 25.0,
    gasPrice := 3.5,
    insuranceMonthly := 120.0,
    maintenanceYearly := 800.0,
    ownershipYears := 5.0)

  /** The initial list: two copies of `INITIAL_CAR` with ids 0 and 1, the
      second renamed and priced higher; every other field is shared, and both
      can be computed. */
  function InitialCars(): (cars: seq<Car>)
    ensures |cars| == 2
    ensures cars[0].id == 0 && cars[1].id == 1
    ensures cars[0].name == "Vehicle 1" && cars[1].name == "Vehicle 2"
    ensures cars[0].price == 30000.0 && cars[1].price == 35000.0
    ensures forall f :: f != Name && f != Price ==> Get(cars[0], f) == Get(cars[1], f)
    ensures forall car :: car in cars ==> Computable(car)
  {
    [InitialCar.(id := 0), InitialCar.(id := 1, name := "Vehicle 2", price := 35000.0)]
  }

  /** The first results on the page: tax, amount financed and monthly running
      costs of the two initial cars. */
  lemma InitialResults()
    ensures var results := RecomputeResults(InitialCars());
            && results[0].loan.taxAmount == Some(2100.0)
            && results[0].loan.loanAmount == 27600.0
            && results[1].loan.taxAmount == Some(2450.0)
            && results[1].loan.loanAmount == 32950.0
            && results[0].costs.fuelMonthly == 140.0 == results[1].costs.fuelMonthly
            && results[0].costs.maintenanceMonthly * 3.0 == 200.0
  {
  }

  /** The growth of the initial cars' loan over its term: 6.5% a year is
      13/2400 a month, compounded over 60 months. */
  lemma InitialGrowthFactor()
    ensures 1.38281 <= Pow(1.0 + 13.0 / 2400.0, 60) <= 1.38282
  {
    var x := 1.0 + 13.0 / 2400.0;
    assert Pow(x, 1) == x;
    PowAdd(x, 1, 1);
    PowAdd(x, 2, 2);
    PowAdd(x, 4, 4);
    PowAdd(x, 8, 8);
    PowAdd(x, 16, 16);
    PowAdd(x, 32, 16);
    PowAdd(x, 48, 8);
    PowAdd(x, 56, 4);
  }

  /** The first car's loan: 27600 financed at 6.5% over 60 months costs
      about 540.03 a month and about 4801.54 of interest in all. */
  lemma InitialMonthlyPayment()
    ensures var loan := CalculateLoanDetails(LoanInputsOf(InitialCars()[0]));
            && 540.0 <= loan.monthlyPayment <= 540.05
            && 4800.0 <= loan.totalInterest <= 4803.0
  {
    var i := LoanInputsOf(InitialCars()[0]);
    assert i == LoanInputsOf(InitialCar);
    var r, n := MonthlyRate(i), Term(i);
    assert LoanPrincipal(i) == 27600.0;
    assert r == 13.0 / 2400.0 && n == 60;
    InitialGrowthFactor();
    var q := Pow(1.0 + r, n);
    var m := CalculateLoanDetails(i).monthlyPayment;
    assert m == (27600.0 * r * q) / (q - 1.0);
    InitialPaymentBounds(r, q, m);
  }

  /** The annuity payment on 27600 at 13/2400 a month, for a growth factor
      within the bounds of `InitialGrowthFactor`. */
  lemma InitialPaymentBounds(r: real, q: real, m: real)
    requires r == 13.0 / 2400.0 && 1.38281 <= q <= 1.38282
    requires m == (27600.0 * r * q) / (q - 1.0)
    ensures 540.0 <= m <= 540.05 && 4800.0 <= m * 60.0 - 27600.0 <= 4803.0
  {
    AnnuityPaymentBetween(27600.0, r, q, 1.38281, 1.38282);
  }
}
