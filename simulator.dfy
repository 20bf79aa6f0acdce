/**
 * The rent-versus-buy simulation (`run_simulation` in backend/simulator.py).
 *
 * The specification functions below give, for a valid input and a year
 * y >= 1, every figure of that year's record in closed or running-sum form.
 * RunSimulation computes the same figures the way the source does, with
 * trackers updated in a yearly loop around a twelve-month amortisation loop,
 * and its contract ties every record, the totals, the break-even year and
 * the recommendation to those functions.
 */
module Simulator {
  import opened Wrappers
  import opened Mortgage
  import opened Schemas

  /** The yearly growth factor of a percentage rate: `1 + p / 100`. */
  function Growth(percent: real): real
  {
    1.0 + percent / 100.0
  }

  function DownPayment(d: SimulationInput): real
  {
    d.homePrice * (d.downPaymentPercent / 100.0)
  }

  function LoanAmount(d: SimulationInput): real
  {
    d.homePrice - DownPayment(d)
  }

  /** Down payment plus buying closing costs: paid before the first year. */
  function Upfront(d: SimulationInput): real
  {
    DownPayment(d) + d.homePrice * (d.buyingClosingCostsPercent / 100.0)
  }

  /** The mortgage the buyer takes: the loan amount at the fixed monthly payment. */
  function LoanOf(d: SimulationInput): (loan: Loan)
    requires Valid(d)
    ensures loan.principal >= 0.0
  {
    LoanWithinPrice(d);
    Loan(LoanAmount(d),
         MonthlyMortgage(LoanAmount(d), d.mortgageInterestRatePercent, d.loanTermYears),
         MonthlyRate(d.mortgageInterestRatePercent))
  }

  /** The down payment and the loan each lie between 0 and the price. */
  lemma LoanWithinPrice(d: SimulationInput)
    requires Valid(d)
    ensures 0.0 <= DownPayment(d) <= d.homePrice
    ensures 0.0 <= LoanAmount(d) <= d.homePrice
  {
    var p := d.downPaymentPercent / 100.0;
    assert 0.0 <= p <= 1.0;
    assert DownPayment(d) == d.homePrice * p;
    assert LoanAmount(d) == d.homePrice * (1.0 - p);
  }

  /** The monthly rent charged during year y: the initial rent grown y - 1 times. */
  function RentMonthly(d: SimulationInput, y: nat): real
    requires y >= 1
  {
    d.monthlyRent * Pow(Growth(d.annualRentIncreasePercent), y - 1)
  }

  /** Rent plus renters insurance paid during year y. */
  function RentAnnual(d: SimulationInput, y: nat): real
    requires y >= 1
  {
    RentMonthly(d, y) * 12.0 + d.rentInsuranceMonthly * 12.0
  }

  /** Rent paid over the first y years. */
  function RentCumulative(d: SimulationInput, y: nat): real
  {
    if y == 0 then 0.0 else RentCumulative(d, y - 1) + RentAnnual(d, y)
  }

  /** The home's value after y years of appreciation. */
  function HomeValue(d: SimulationInput, y: nat): real
  {
    d.homePrice * Pow(Growth(d.homeAppreciationRatePercent), y)
  }

  /** Mortgage cash paid during year y: months 12(y-1) .. 12y - 1. */
  function MortgagePaidInYear(d: SimulationInput, y: nat): real
    requires Valid(d) && y >= 1
  {
    PaidBetween(LoanOf(d), 12 * (y - 1), 12)
  }

  /** The loan balance after y years. */
  function RemainingMortgage(d: SimulationInput, y: nat): real
    requires Valid(d)
  {
    Balance(LoanOf(d), 12 * y)
  }

  /** A year's mortgage cash plus property tax and maintenance charged on the given value. */
  function BuyAnnualOf(mortgagePaid: real, value: real, taxPercent: real, maintenancePercent: real): real
  {
    mortgagePaid + value * (taxPercent / 100.0) + value * (maintenancePercent / 100.0)
  }

  /** The buyer's spending in year y: mortgage, then tax and maintenance on the start-of-year value. */
  function BuyAnnual(d: SimulationInput, y: nat): real
    requires Valid(d) && y >= 1
  {
    BuyAnnualOf(MortgagePaidInYear(d, y), HomeValue(d, y - 1), d.propertyTaxRatePercent, d.maintenanceCostPercent)
  }

  /** The buyer's spending over the first y years, the upfront cost included. */
  function BuyCumulative(d: SimulationInput, y: nat): real
    requires Valid(d)
  {
    if y == 0 then Upfront(d) else BuyCumulative(d, y - 1) + BuyAnnual(d, y)
  }

  function Equity(d: SimulationInput, y: nat): real
    requires Valid(d)
  {
    HomeValue(d, y) - RemainingMortgage(d, y)
  }

  /** The closing costs of selling at the given value. */
  function SellingCosts(value: real, sellingPercent: real): real
  {
    value * (sellingPercent / 100.0)
  }

  /** Spending less what a sale brings in: the value, less selling costs, less the loan paid off. */
  function NetCostOf(spent: real, value: real, owed: real, sellingPercent: real): real
  {
    spent - (value - SellingCosts(value, sellingPercent) - owed)
  }

  /** What buying has cost after y years if the home is sold then. */
  function NetCost(d: SimulationInput, y: nat): real
    requires Valid(d)
  {
    NetCostOf(BuyCumulative(d, y), HomeValue(d, y), RemainingMortgage(d, y), d.sellingClosingCostsPercent)
  }

  /** Buying is strictly cheaper than renting in year y. */
  predicate BuyIsCheaper(d: SimulationInput, y: nat)
    requires Valid(d)
  {
    NetCost(d, y) < RentCumulative(d, y)
  }

  /**
   * The first of years 1..n in which buying is strictly cheaper, scanning
   * the years in order as the simulation does.
   */
  function FirstCheaperYear(d: SimulationInput, n: nat): Option<int>
    requires Valid(d)
  {
    if n == 0 then None
    else
      var earlier := FirstCheaperYear(d, n - 1);
      if earlier.Some? then earlier
      else if BuyIsCheaper(d, n) then Some(n)
      else None
  }

  /** The break-even year is the least year in which buying is strictly cheaper, if any. */
  lemma {:induction false} FirstCheaperYearIsLeast(d: SimulationInput, n: nat)
    requires Valid(d)
    ensures FirstCheaperYear(d, n).None? <==> forall y :: 1 <= y <= n ==> !BuyIsCheaper(d, y)
    ensures FirstCheaperYear(d, n).Some? ==>
              && 1 <= FirstCheaperYear(d, n).value <= n
              && BuyIsCheaper(d, FirstCheaperYear(d, n).value)
              && forall y :: 1 <= y < FirstCheaperYear(d, n).value ==> !BuyIsCheaper(d, y)
  {
    if n > 0 {
      FirstCheaperYearIsLeast(d, n - 1);
    }
  }

  /** The trackers' starting values are the year-0 figures. */
  lemma InitialTrackers(d: SimulationInput, downPayment: real, loanAmount: real, cumBuyOutOfPocket: real)
    requires Valid(d)
    requires downPayment == d.homePrice * (d.downPaymentPercent / 100.0)
    requires loanAmount == d.homePrice - downPayment
    requires cumBuyOutOfPocket == downPayment + d.homePrice * (d.buyingClosingCostsPercent / 100.0)
    ensures d.monthlyRent == RentMonthly(d, 1)
    ensures d.homePrice == HomeValue(d, 0)
    ensures loanAmount == RemainingMortgage(d, 0)
    ensures MonthlyMortgage(loanAmount, d.mortgageInterestRatePercent, d.loanTermYears) == LoanOf(d).payment
    ensures 0.0 == RentCumulative(d, 0)
    ensures cumBuyOutOfPocket == BuyCumulative(d, 0)
  {
  }

  /** The record the simulation reports for year y. */
  function YearRecord(d: SimulationInput, y: nat): YearlyResult
    requires Valid(d) && y >= 1
  {
    YearlyResult(
      y,
      RentAnnual(d, y),
      RentCumulative(d, y),
      BuyAnnual(d, y),
      BuyCumulative(d, y),
      Equity(d, y),
      HomeValue(d, y),
      RemainingMortgage(d, y),
      NetCost(d, y))
  }

  /**
   * The verdict on the final totals: buying when renting costs strictly
   * more, renting otherwise (a tie goes to renting); the amount is the size
   * of the difference.
   */
  function Recommend(totalRent: real, totalBuyNet: real, years: int): (r: Recommendation)
    ensures r.verdict == Buying <==> totalRent - totalBuyNet > 0.0
    ensures r.amount >= 0.0
    ensures r.amount == totalRent - totalBuyNet || r.amount == totalBuyNet - totalRent
    ensures r.years == years
  {
    var diff := totalRent - totalBuyNet;
    if diff > 0.0 then Recommendation(Buying, diff, years)
    else Recommendation(Renting, -diff, years)
  }

  /** One month of the inner loop, as written there, is the month step. */
  lemma InlineMonth(b: real, payment: real, ratePercent: real, interest: real, principal: real, actual: real)
    requires b > 0.0
    requires interest == b * ((ratePercent / 100.0) / 12.0)
    requires principal == (if payment - interest > b then b else payment - interest)
    requires actual == (if payment - interest > b then principal + interest else payment)
    ensures Step(b, payment, (ratePercent / 100.0) / 12.0) == Month(b - principal, actual, principal)
  {
  }

  /**
   * The inner loop of `run_simulation`: twelve months of amortisation from
   * the balance at month `start`. Returns the new balance, the cash paid
   * over the twelve months and the principal repaid.
   */
  method AmortiseYear(remaining: real, monthlyMortgage: real, annualRatePercent: real,
                      ghost loan: Loan, ghost start: nat, ghost end: nat)
    returns (remainingLoan: real, annualMortgagePayment: real, principalPaidThisYear: real)
    requires loan.payment == monthlyMortgage && loan.monthlyRate == MonthlyRate(annualRatePercent)
    requires remaining == Balance(loan, start) && end == start + 12
    ensures remainingLoan == Balance(loan, end)
    ensures annualMortgagePayment == PaidBetween(loan, start, 12)
    ensures principalPaidThisYear == remaining - remainingLoan
  {
    remainingLoan := remaining;
    annualMortgagePayment := 0.0;
    principalPaidThisYear := 0.0;
    for month := 0 to 12
      invariant remainingLoan == Balance(loan, start + month)
      invariant annualMortgagePayment == PaidBetween(loan, start, month)
      invariant principalPaidThisYear == remaining - remainingLoan
    {
      MonthFrom(loan, start + month, remainingLoan, monthlyMortgage, (annualRatePercent / 100.0) / 12.0);
      PaidNext(loan, start, month);
      if remainingLoan > 0.0 {
        var interestPayment := remainingLoan * ((annualRatePercent / 100.0) / 12.0);
        var principalPayment := monthlyMortgage - interestPayment;
        var monthlyMortgageActual;
        if principalPayment > remainingLoan {
          principalPayment := remainingLoan;
          monthlyMortgageActual := principalPayment + interestPayment;
        } else {
          monthlyMortgageActual := monthlyMortgage;
        }
        InlineMonth(remainingLoan, monthlyMortgage, annualRatePercent, interestPayment, principalPayment, monthlyMortgageActual);
        remainingLoan := remainingLoan - principalPayment;
        principalPaidThisYear := principalPaidThisYear + principalPayment;
        annualMortgagePayment := annualMortgagePayment + monthlyMortgageActual;
      } else {
        annualMortgagePayment := annualMortgagePayment + 0.0;
      }
    }
  }

  /** The rent tracker grows by one year's factor. */
  lemma RentNext(d: SimulationInput, y: nat, rentMonthly: real)
    requires y >= 1 && rentMonthly == RentMonthly(d, y)
    ensures rentMonthly * (1.0 + d.annualRentIncreasePercent / 100.0) == RentMonthly(d, y + 1)
  {
    ScaledPowNext(rentMonthly, d.monthlyRent, Growth(d.annualRentIncreasePercent), y - 1);
  }

  /** The home value tracker appreciates by one year's factor. */
  lemma HomeValueNext(d: SimulationInput, y: nat, homeValue: real)
    requires y >= 1 && homeValue == HomeValue(d, y - 1)
    ensures homeValue * (1.0 + d.homeAppreciationRatePercent / 100.0) == HomeValue(d, y)
  {
    ScaledPowNext(homeValue, d.homePrice, Growth(d.homeAppreciationRatePercent), y - 1);
    assert y - 1 + 1 == y;
  }

  /** The year's spending as the loop computes it is BuyAnnual. */
  lemma InlineBuyAnnual(d: SimulationInput, y: nat, homeValue: real, mortgagePaid: real, propertyTax: real, maintenance: real)
    requires Valid(d) && y >= 1
    requires homeValue == HomeValue(d, y - 1) && mortgagePaid == MortgagePaidInYear(d, y)
    requires propertyTax == homeValue * (d.propertyTaxRatePercent / 100.0)
    requires maintenance == homeValue * (d.maintenanceCostPercent / 100.0)
    ensures mortgagePaid + propertyTax + maintenance == BuyAnnual(d, y)
  {
    assert mortgagePaid + propertyTax + maintenance
        == BuyAnnualOf(mortgagePaid, homeValue, d.propertyTaxRatePercent, d.maintenanceCostPercent);
  }

  /** The net cost as the loop computes it is NetCostOf its trackers. */
  lemma InlineNetCost(homeValue: real, remaining: real, cumBuy: real, sellingPercent: real,
                      sellClosingCosts: real, netProceeds: real, buyNetCost: real)
    requires sellClosingCosts == homeValue * (sellingPercent / 100.0)
    requires netProceeds == homeValue - sellClosingCosts - remaining
    requires buyNetCost == cumBuy - netProceeds
    ensures buyNetCost == NetCostOf(cumBuy, homeValue, remaining, sellingPercent)
  {
  }

  /** NetCostOf the trackers, when they hold year y's figures, is NetCost. */
  lemma NetCostAt(d: SimulationInput, y: nat, homeValue: real, remaining: real, cumBuy: real)
    requires Valid(d)
    requires homeValue == HomeValue(d, y) && remaining == RemainingMortgage(d, y) && cumBuy == BuyCumulative(d, y)
    ensures NetCost(d, y) == NetCostOf(cumBuy, homeValue, remaining, d.sellingClosingCostsPercent)
  {
  }

  /** A record built from year y's figures is YearRecord(d, y). */
  lemma RecordOf(d: SimulationInput, y: nat, annualRent: real, cumRent: real, annualBuy: real, cumBuy: real,
                 equity: real, homeValue: real, remaining: real, netCost: real)
    requires Valid(d) && y >= 1
    requires annualRent == RentAnnual(d, y) && cumRent == RentCumulative(d, y)
    requires annualBuy == BuyAnnual(d, y) && cumBuy == BuyCumulative(d, y)
    requires homeValue == HomeValue(d, y) && remaining == RemainingMortgage(d, y)
    requires equity == Equity(d, y) && netCost == NetCost(d, y)
    ensures YearlyResult(y, annualRent, cumRent, annualBuy, cumBuy, equity, homeValue, remaining, netCost) == YearRecord(d, y)
  {
  }

  /**
   * The rent side of one pass of the yearly loop: the year's rent and
   * insurance, the running total, and the rent escalated for next year.
   */
  method RentStep(d: SimulationInput, year: nat, rentMonthly: real, cumRentCost: real)
    returns (annualRent: real, rentMonthly': real, cumRentCost': real)
    requires year >= 1 && rentMonthly == RentMonthly(d, year) && cumRentCost == RentCumulative(d, year - 1)
    ensures annualRent == RentAnnual(d, year)
    ensures cumRentCost' == RentCumulative(d, year)
    ensures rentMonthly' == RentMonthly(d, year + 1)
  {
    annualRent := rentMonthly * 12.0 + d.rentInsuranceMonthly * 12.0;
    cumRentCost' := cumRentCost + annualRent;
    RentNext(d, year, rentMonthly);
    rentMonthly' := rentMonthly * (1.0 + d.annualRentIncreasePercent / 100.0);
  }

  /**
   * The buy side of one pass of the yearly loop, after the year's
   * amortisation: tax and maintenance on the start-of-year value, the
   * running total, appreciation, equity and the net cost of selling now.
   */
  method BuyStep(d: SimulationInput, year: nat, annualMortgagePayment: real, homeValue: real,
                 remainingLoan: real, cumBuyOutOfPocket: real)
    returns (annualBuyCost: real, cumBuyOutOfPocket': real, homeValue': real, equity: real, buyNetCost: real)
    requires Valid(d) && year >= 1
    requires annualMortgagePayment == MortgagePaidInYear(d, year)
    requires homeValue == HomeValue(d, year - 1)
    requires remainingLoan == RemainingMortgage(d, year)
    requires cumBuyOutOfPocket == BuyCumulative(d, year - 1)
    ensures annualBuyCost == BuyAnnual(d, year)
    ensures cumBuyOutOfPocket' == BuyCumulative(d, year)
    ensures homeValue' == HomeValue(d, year)
    ensures equity == Equity(d, year)
    ensures buyNetCost == NetCost(d, year)
  {
    var propertyTax := homeValue * (d.propertyTaxRatePercent / 100.0);
    var maintenance := homeValue * (d.maintenanceCostPercent / 100.0);
    InlineBuyAnnual(d, year, homeValue, annualMortgagePayment, propertyTax, maintenance);
    annualBuyCost := annualMortgagePayment + propertyTax + maintenance;
    cumBuyOutOfPocket' := cumBuyOutOfPocket + annualBuyCost;

    HomeValueNext(d, year, homeValue);
    homeValue' := homeValue * (1.0 + d.homeAppreciationRatePercent / 100.0);
    equity := homeValue' - remainingLoan;
    var sellClosingCosts := homeValue' * (d.sellingClosingCostsPercent / 100.0);
    var netProceeds := homeValue' - sellClosingCosts - remainingLoan;
    buyNetCost := cumBuyOutOfPocket' - netProceeds;
    InlineNetCost(homeValue', remainingLoan, cumBuyOutOfPocket', d.sellingClosingCostsPercent,
                  sellClosingCosts, netProceeds, buyNetCost);
    NetCostAt(d, year, homeValue', remainingLoan, cumBuyOutOfPocket');
  }

  /**
   * One pass of the yearly loop of `run_simulation`: given the trackers at
   * the start of year `year`, computes that year's record and the trackers
   * at the start of the next year.
   */
  method SimulateYear(d: SimulationInput, year: nat, monthlyMortgage: real,
                      rentMonthly: real, homeValue: real, remainingLoan: real,
                      cumRentCost: real, cumBuyOutOfPocket: real)
    returns (record: YearlyResult, rentMonthly': real, homeValue': real, remainingLoan': real,
             cumRentCost': real, cumBuyOutOfPocket': real)
    requires Valid(d) && year >= 1
    requires monthlyMortgage == LoanOf(d).payment
    requires rentMonthly == RentMonthly(d, year)
    requires homeValue == HomeValue(d, year - 1)
    requires remainingLoan == RemainingMortgage(d, year - 1)
    requires cumRentCost == RentCumulative(d, year - 1)
    requires cumBuyOutOfPocket == BuyCumulative(d, year - 1)
    ensures record == YearRecord(d, year)
    ensures rentMonthly' == RentMonthly(d, year + 1)
    ensures homeValue' == HomeValue(d, year)
    ensures remainingLoan' == RemainingMortgage(d, year)
    ensures cumRentCost' == RentCumulative(d, year)
    ensures cumBuyOutOfPocket' == BuyCumulative(d, year)
  {
    var annualRent;
    annualRent, rentMonthly', cumRentCost' := RentStep(d, year, rentMonthly, cumRentCost);

    var annualMortgagePayment, principalPaidThisYear;
    remainingLoan', annualMortgagePayment, principalPaidThisYear :=
      AmortiseYear(remainingLoan, monthlyMortgage, d.mortgageInterestRatePercent, LoanOf(d), 12 * (year - 1), 12 * year);

    var annualBuyCost, equity, buyNetCost;
    annualBuyCost, cumBuyOutOfPocket', homeValue', equity, buyNetCost :=
      BuyStep(d, year, annualMortgagePayment, homeValue, remainingLoan', cumBuyOutOfPocket);

    record := YearlyResult(year, annualRent, cumRentCost', annualBuyCost, cumBuyOutOfPocket',
                           equity, homeValue', remainingLoan', buyNetCost);
    RecordOf(d, year, annualRent, cumRentCost', annualBuyCost, cumBuyOutOfPocket',
             equity, homeValue', remainingLoan', buyNetCost);
  }

  /**
   * `run_simulation`: one record per simulated year, the final totals taken
   * from the last year, the first year in which buying is strictly cheaper,
   * and the recommendation on the totals.
   */
  method RunSimulation(d: SimulationInput) returns (out: SimulationOutput)
    requires Valid(d)
    ensures |out.results| == d.yearsToSimulate
    ensures forall i :: 0 <= i < |out.results| ==> out.results[i] == YearRecord(d, i + 1)
    ensures forall i :: 0 <= i < |out.results| ==> out.results[i].year == i + 1
    ensures out.totalRentCost == RentCumulative(d, d.yearsToSimulate)
    ensures out.totalBuyCostNet == NetCost(d, d.yearsToSimulate)
    ensures out.totalRentCost == out.results[|out.results| - 1].rentCumulativeCost
    ensures out.totalBuyCostNet == out.results[|out.results| - 1].buyNetCost
    ensures out.breakEvenYear.None? <==> forall y :: 1 <= y <= d.yearsToSimulate ==> !BuyIsCheaper(d, y)
    ensures out.breakEvenYear.Some? ==>
              && 1 <= out.breakEvenYear.value <= d.yearsToSimulate
              && BuyIsCheaper(d, out.breakEvenYear.value)
              && forall y :: 1 <= y < out.breakEvenYear.value ==> !BuyIsCheaper(d, y)
    ensures out.recommendation == Recommend(out.totalRentCost, out.totalBuyCostNet, d.yearsToSimulate)
  {
    var rentMonthly := d.monthlyRent;
    var homeValue := d.homePrice;
    var downPayment := d.homePrice * (d.downPaymentPercent / 100.0);
    var loanAmount := d.homePrice - downPayment;
    var monthlyMortgage := MonthlyMortgage(loanAmount, d.mortgageInterestRatePercent, d.loanTermYears);

    InitialTrackers(d, downPayment, loanAmount, d.homePrice * (d.downPaymentPercent / 100.0) + d.homePrice * (d.buyingClosingCostsPercent / 100.0));
    var cumRentCost := 0.0;
    var cumBuyOutOfPocket := downPayment + d.homePrice * (d.buyingClosingCostsPercent / 100.0);
    var remainingLoan := loanAmount;
    var results: seq<YearlyResult> := [];
    var breakEvenYear: Option<int> := None;

    for year := 1 to d.yearsToSimulate + 1
      invariant |results| == year - 1
      invariant forall i :: 0 <= i < |results| ==> results[i] == YearRecord(d, i + 1)
      invariant rentMonthly == RentMonthly(d, year)
      invariant homeValue == HomeValue(d, year - 1)
      invariant remainingLoan == RemainingMortgage(d, year - 1)
      invariant cumRentCost == RentCumulative(d, year - 1)
      invariant cumBuyOutOfPocket == BuyCumulative(d, year - 1)
      invariant breakEvenYear == FirstCheaperYear(d, year - 1)
    {
      var record;
      record, rentMonthly, homeValue, remainingLoan, cumRentCost, cumBuyOutOfPocket :=
        SimulateYear(d, year, monthlyMortgage, rentMonthly, homeValue, remainingLoan, cumRentCost, cumBuyOutOfPocket);
      results := results + [record];

      // Break-even: the first year in which buying is strictly cheaper.
      if breakEvenYear.None? && record.buyNetCost < cumRentCost {
        breakEvenYear := Some(year);
      }
    }

    FirstCheaperYearIsLeast(d, d.yearsToSimulate);
    var finalRentCost := cumRentCost;
    var finalBuyNetCost := results[|results| - 1].buyNetCost;
    var diff := finalRentCost - finalBuyNetCost;
    var recommendation;
    if diff > 0.0 {
      recommendation := Recommendation(Buying, diff, d.yearsToSimulate);
    } else {
      recommendation := Recommendation(Renting, -diff, d.yearsToSimulate);
    }
    out := SimulationOutput(results, finalRentCost, finalBuyNetCost, breakEvenYear, recommendation);
  }
}
