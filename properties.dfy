/**
 * Properties of the yearly projection that `run_simulation` reports.
 *
 * RunSimulation's contract says that record i is YearRecord(d, i + 1); the
 * lemmas here say what those figures are: how rent escalates and
 * accumulates, when the mortgage is retired, how appreciation and
 * depreciation move the home value and the equity, and how spending, equity
 * and the net cost of selling relate.
 */
module SimulatorProperties {
  import opened Wrappers
  import opened Mortgage
  import opened Schemas
  import opened Simulator

  /*
   * Powers.
   */

  /** One raised to any power is one. */
  lemma {:induction false} PowOne(n: nat)
    ensures Pow(1.0, n) == 1.0
  {
    if n > 0 {
      PowOne(n - 1);
    }
  }

  /** A base in [0, 1) raised to a positive power stays in [0, 1). */
  lemma {:induction false} PowBelowOne(x: real, n: nat)
    requires 0.0 <= x < 1.0 && n >= 1
    ensures 0.0 <= Pow(x, n) < 1.0
  {
    if n > 1 {
      PowBelowOne(x, n - 1);
      ProductBelowOne(x, Pow(x, n - 1), Pow(x, n));
    }
  }

  lemma ProductBelowOne(a: real, b: real, r: real)
    requires 0.0 <= a < 1.0 && 0.0 <= b < 1.0 && r == a * b
    ensures 0.0 <= r < 1.0
  {
    assert a * b <= a * 1.0;
  }

  lemma ScaleBelow(c: real, p: real, r: real)
    requires c > 0.0 && 0.0 <= p < 1.0 && r == c * p
    ensures 0.0 <= r < c
  {
    assert c - c * p == c * (1.0 - p);
  }

  /*
   * Rent side.
   */

  /** Every year's rent and insurance is positive: the rent is positive and never shrinks. */
  lemma RentAnnualPositive(d: SimulationInput, y: nat)
    requires Valid(d) && y >= 1
    ensures RentAnnual(d, y) >= 12.0 * d.monthlyRent
  {
    assert Growth(d.annualRentIncreasePercent) >= 1.0;
    assert d.monthlyRent * Pow(Growth(d.annualRentIncreasePercent), y - 1) >= d.monthlyRent * 1.0;
  }

  /** The cumulative rent strictly increases from one year to any later year. */
  lemma {:induction false} RentCumulativeIncreasing(d: SimulationInput, y: nat, z: nat)
    requires Valid(d) && y < z
    ensures RentCumulative(d, y) < RentCumulative(d, z)
  {
    RentAnnualPositive(d, z);
    if y < z - 1 {
      RentCumulativeIncreasing(d, y, z - 1);
    }
  }

  /** With no rent increase, every year's rent and insurance is that of the first year. */
  lemma FlatRent(d: SimulationInput, y: nat)
    requires y >= 1 && d.annualRentIncreasePercent == 0.0
    ensures RentAnnual(d, y) == RentAnnual(d, 1)
    ensures RentAnnual(d, y) == 12.0 * (d.monthlyRent + d.rentInsuranceMonthly)
  {
    PowOne(y - 1);
    PowOne(0);
  }

  /** With no rent increase, the rent over y years is y times a year's rent and insurance. */
  lemma {:induction false} FlatRentCumulative(d: SimulationInput, y: nat, annual: real)
    requires d.annualRentIncreasePercent == 0.0 && annual == 12.0 * (d.monthlyRent + d.rentInsuranceMonthly)
    ensures RentCumulative(d, y) == (y as real) * annual
  {
    if y > 0 {
      FlatRentCumulative(d, y - 1, annual);
      FlatRent(d, y);
      assert ((y - 1) as real) * annual + annual == (y as real) * annual;
    }
  }

  /*
   * Home value and equity.
   */

  /** Without appreciation the home keeps its purchase price. */
  lemma NoAppreciation(d: SimulationInput, y: nat)
    requires d.homeAppreciationRatePercent == 0.0
    ensures HomeValue(d, y) == d.homePrice
  {
    PowOne(y);
  }

  /** Positive appreciation makes the home value strictly increase year on year. */
  lemma AppreciationRaisesValue(d: SimulationInput, y: nat, z: nat)
    requires Valid(d) && d.homeAppreciationRatePercent > 0.0 && y < z
    ensures HomeValue(d, y) < HomeValue(d, z)
  {
    PowGrows(Growth(d.homeAppreciationRatePercent), y, z);
  }

  /** Depreciation of at most 100% keeps the value at or above 0 and below the price after year 0. */
  lemma DepreciationLowersValue(d: SimulationInput, y: nat)
    requires Valid(d) && -100.0 <= d.homeAppreciationRatePercent < 0.0 && y >= 1
    ensures 0.0 <= HomeValue(d, y) < d.homePrice
  {
    PowBelowOne(Growth(d.homeAppreciationRatePercent), y);
    ScaleBelow(d.homePrice, Pow(Growth(d.homeAppreciationRatePercent), y), HomeValue(d, y));
  }

  /**
   * The appreciation rate is unbounded below; beneath -100% the growth
   * factor is negative and the first year's home value is negative.
   */
  lemma DepreciationBeyondTotalLoss(d: SimulationInput)
    requires Valid(d) && d.homeAppreciationRatePercent < -100.0
    ensures HomeValue(d, 1) < 0.0
  {
    assert Pow(Growth(d.homeAppreciationRatePercent), 1) == Growth(d.homeAppreciationRatePercent);
  }

  /** The mortgage does not depend on the appreciation rate. */
  lemma LoanIgnoresAppreciation(d: SimulationInput, e: SimulationInput)
    requires Valid(d) && e == d.(homeAppreciationRatePercent := e.homeAppreciationRatePercent)
    ensures Valid(e) && LoanOf(e) == LoanOf(d)
    ensures forall y :: RemainingMortgage(e, y) == RemainingMortgage(d, y)
  {
  }

  /**
   * Depreciation of less than 200% lowers the equity below that of the same
   * purchase without appreciation, in every year from the first on: the
   * growth factor lies in (-1, 1), so every power of it stays in (-1, 1).
   */
  lemma DepreciationLowersEquity(d: SimulationInput, y: nat)
    requires Valid(d) && -200.0 < d.homeAppreciationRatePercent < 0.0 && y >= 1
    ensures Valid(d.(homeAppreciationRatePercent := 0.0))
    ensures Equity(d, y) < Equity(d.(homeAppreciationRatePercent := 0.0), y)
  {
    LoanIgnoresAppreciation(d, d.(homeAppreciationRatePercent := 0.0));
    PowInsideUnit(Growth(d.homeAppreciationRatePercent), y);
    ScaleInside(d.homePrice, Pow(Growth(d.homeAppreciationRatePercent), y), HomeValue(d, y));
    NoAppreciation(d.(homeAppreciationRatePercent := 0.0), y);
  }

  /**
   * At -300% the growth factor is -2, so in year 2 the home is worth four
   * times its price and the equity exceeds that of the same purchase
   * without appreciation: the equity comparison fails for depreciation of
   * 200% or more.
   */
  lemma DeepDepreciationRaisesEquity(d: SimulationInput, y: nat)
    requires Valid(d) && d.homeAppreciationRatePercent == -300.0 && y == 2
    ensures HomeValue(d, y) == 4.0 * d.homePrice
    ensures Valid(d.(homeAppreciationRatePercent := 0.0))
    ensures Equity(d, y) > Equity(d.(homeAppreciationRatePercent := 0.0), y)
  {
    var x := Growth(d.homeAppreciationRatePercent);
    assert x == -2.0;
    assert Pow(x, y - 1) == x * Pow(x, 0);
    assert Pow(x, y) == x * Pow(x, y - 1);
    LoanIgnoresAppreciation(d, d.(homeAppreciationRatePercent := 0.0));
    NoAppreciation(d.(homeAppreciationRatePercent := 0.0), y);
  }

  /** A base in (-1, 1) raised to a positive power stays in (-1, 1). */
  lemma {:induction false} PowInsideUnit(x: real, n: nat)
    requires -1.0 < x < 1.0 && n >= 1
    ensures -1.0 < Pow(x, n) < 1.0
  {
    if n > 1 {
      PowInsideUnit(x, n - 1);
      ProductInsideUnit(x, Pow(x, n - 1), Pow(x, n));
    }
  }

  lemma ProductInsideUnit(a: real, b: real, r: real)
    requires -1.0 < a < 1.0 && -1.0 < b < 1.0 && r == a * b
    ensures -1.0 < r < 1.0
  {
    if a >= 0.0 {
      if b >= 0.0 { assert a * b <= a * 1.0; } else { assert a * b >= a * -1.0; }
    } else {
      if b >= 0.0 { assert a * b >= -1.0 * b; } else { assert a * b <= -1.0 * b; }
    }
  }

  lemma ScaleInside(c: real, p: real, r: real)
    requires c > 0.0 && -1.0 < p < 1.0 && r == c * p
    ensures -c < r < c
  {
    assert c - c * p == c * (1.0 - p);
    assert c + c * p == c * (1.0 + p);
  }

  /*
   * The mortgage.
   */

  /** The balance the buyer still owes is never negative. */
  lemma RemainingMortgageNonNegative(d: SimulationInput, y: nat)
    requires Valid(d)
    ensures RemainingMortgage(d, y) >= 0.0
  {
    BalanceNonNegative(LoanOf(d), 12 * y);
  }

  /** The fixed payment is never negative, and is positive on a positive loan. */
  lemma PaymentNonNegative(d: SimulationInput)
    requires Valid(d)
    ensures LoanOf(d).payment >= 0.0
    ensures LoanAmount(d) > 0.0 ==> LoanOf(d).payment > 0.0
  {
    if LoanAmount(d) > 0.0 {
      if d.mortgageInterestRatePercent > 0.0 {
        assert LoanAmount(d) * MonthlyRate(d.mortgageInterestRatePercent) > 0.0;
      } else {
        PositiveFactor(LoanOf(d).payment, (d.loanTermYears * 12) as real, LoanAmount(d));
      }
    }
  }

  lemma PositiveFactor(p: real, n: real, product: real)
    requires n > 0.0 && p * n == product && product > 0.0
    ensures p > 0.0
  {
  }

  /** A month never pays out a negative amount when the payment and the rate are not negative. */
  lemma InstalmentNonNegative(loan: Loan, k: nat)
    requires loan.payment >= 0.0 && loan.monthlyRate >= 0.0
    ensures Instalment(loan, k) >= 0.0
  {
    if Balance(loan, k) > 0.0 {
      assert Balance(loan, k) * loan.monthlyRate >= 0.0;
    }
  }

  lemma {:induction false} PaidNonNegative(loan: Loan, start: nat, count: nat)
    requires loan.payment >= 0.0 && loan.monthlyRate >= 0.0
    ensures PaidBetween(loan, start, count) >= 0.0
  {
    if count > 0 {
      PaidNonNegative(loan, start, count - 1);
      InstalmentNonNegative(loan, start + count - 1);
    }
  }

  /**
   * Both payment formulas retire a positive loan exactly at the end of the
   * term: the balance is positive before month 12 * term and 0 at it, and
   * every month before it pays the fixed payment.
   */
  lemma LoanSchedule(d: SimulationInput, k: nat)
    requires Valid(d) && LoanAmount(d) > 0.0 && k <= d.loanTermYears * 12
    ensures Balance(LoanOf(d), k) == 0.0 <==> k == d.loanTermYears * 12
    ensures k < d.loanTermYears * 12 ==> Balance(LoanOf(d), k) > 0.0
    ensures k < d.loanTermYears * 12 ==> Instalment(LoanOf(d), k) == LoanOf(d).payment
  {
    if d.mortgageInterestRatePercent > 0.0 {
      AnnuitySchedule(LoanOf(d), d.loanTermYears * 12, k);
    } else {
      PaymentNonNegative(d);
      StraightLineSchedule(LoanOf(d), d.loanTermYears * 12, k);
      LinearBalance(LoanAmount(d), LoanOf(d).payment, k as real, (d.loanTermYears * 12) as real);
    }
  }

  /** The balance never rises from one month to the next, whatever the rate and the loan. */
  lemma BalanceNonIncreasing(d: SimulationInput, k: nat)
    requires Valid(d)
    ensures Balance(LoanOf(d), k + 1) <= Balance(LoanOf(d), k)
  {
    var loan := LoanOf(d);
    var n := d.loanTermYears * 12;
    if LoanAmount(d) <= 0.0 {
      PaidOffStaysPaidOff(loan, 0, k);
      PaidOffStaysPaidOff(loan, 0, k + 1);
    } else if k >= n {
      PaidOffAfterTerm(d, k);
      PaidOffAfterTerm(d, k + 1);
    } else if d.mortgageInterestRatePercent > 0.0 {
      AnnuityBalanceScaled(loan, n, k);
      AnnuityBalanceScaled(loan, n, k + 1);
      AnnuityWeightFacts(loan.principal, loan.monthlyRate, n);
      ScaledGrows(AnnuityWeight(loan.principal, loan.monthlyRate, n), 1.0 + loan.monthlyRate, k, k + 1);
    } else {
      PaymentNonNegative(d);
      StraightLineSchedule(loan, n, k);
      StraightLineSchedule(loan, n, k + 1);
    }
  }

  /** P - k * p, with P = n * p and p > 0, is 0 exactly at k = n and positive before. */
  lemma LinearBalance(principal: real, p: real, k: real, n: real)
    requires p > 0.0 && p * n == principal && k <= n
    ensures principal - k * p == 0.0 <==> k == n
    ensures k < n ==> principal - k * p > 0.0
  {
    assert principal - k * p == (n - k) * p;
  }

  /** After the end of the term nothing is owed. */
  lemma PaidOffAfterTerm(d: SimulationInput, k: nat)
    requires Valid(d) && LoanAmount(d) > 0.0 && k >= d.loanTermYears * 12
    ensures Balance(LoanOf(d), k) == 0.0
  {
    LoanSchedule(d, d.loanTermYears * 12);
    PaidOffStaysPaidOff(LoanOf(d), d.loanTermYears * 12, k - d.loanTermYears * 12);
  }

  /**
   * On a positive loan the balance reported for year y is 0 exactly from the
   * last year of the term on; each year of the term pays twelve fixed
   * payments, and later years pay nothing.
   */
  lemma LoanRetiredAtTerm(d: SimulationInput, y: nat)
    requires Valid(d) && LoanAmount(d) > 0.0
    ensures RemainingMortgage(d, y) == 0.0 <==> y >= d.loanTermYears
    ensures 1 <= y <= d.loanTermYears ==> MortgagePaidInYear(d, y) == 12.0 * LoanOf(d).payment
    ensures y > d.loanTermYears ==> MortgagePaidInYear(d, y) == 0.0
  {
    if y <= d.loanTermYears {
      LoanSchedule(d, 12 * y);
    } else {
      PaidOffAfterTerm(d, 12 * y);
    }
    if 1 <= y <= d.loanTermYears {
      forall j | 12 * (y - 1) <= j < 12 * (y - 1) + 12
        ensures Instalment(LoanOf(d), j) == LoanOf(d).payment
      {
        LoanSchedule(d, j);
      }
      PaidAtFixedPayment(LoanOf(d), 12 * (y - 1), 12);
    } else if y > d.loanTermYears {
      PaidOffAfterTerm(d, d.loanTermYears * 12);
      NothingPaidAfterPayoff(LoanOf(d), d.loanTermYears * 12, 12 * (y - 1), 12);
    }
  }

  /**
   * A purchase with a 100% down payment takes no loan: nothing is owed or
   * paid on a mortgage in any year, and the equity is the home value.
   */
  lemma CashPurchase(d: SimulationInput, y: nat)
    requires Valid(d) && d.downPaymentPercent == 100.0
    ensures LoanAmount(d) == 0.0 && Upfront(d) == d.homePrice + d.homePrice * (d.buyingClosingCostsPercent / 100.0)
    ensures RemainingMortgage(d, y) == 0.0
    ensures y >= 1 ==> MortgagePaidInYear(d, y) == 0.0
    ensures Equity(d, y) == HomeValue(d, y)
  {
    PaidOffStaysPaidOff(LoanOf(d), 0, 12 * y);
    if y >= 1 {
      NothingPaidAfterPayoff(LoanOf(d), 0, 12 * (y - 1), 12);
    }
  }

  /*
   * Spending, equity and the net cost.
   */

  /**
   * While the home value is not negative, each year's spending is not
   * negative, so the cumulative out-of-pocket never falls and never drops
   * below the upfront cost.
   */
  lemma BuyAnnualNonNegative(d: SimulationInput, y: nat)
    requires Valid(d) && d.homeAppreciationRatePercent >= -100.0 && y >= 1
    ensures BuyAnnual(d, y) >= 0.0
  {
    PaymentNonNegative(d);
    PaidNonNegative(LoanOf(d), 12 * (y - 1), 12);
    HomeValueNonNegative(d, y - 1);
    assert HomeValue(d, y - 1) * (d.propertyTaxRatePercent / 100.0) >= 0.0;
    assert HomeValue(d, y - 1) * (d.maintenanceCostPercent / 100.0) >= 0.0;
  }

  lemma HomeValueNonNegative(d: SimulationInput, y: nat)
    requires Valid(d) && d.homeAppreciationRatePercent >= -100.0
    ensures HomeValue(d, y) >= 0.0
  {
    if Growth(d.homeAppreciationRatePercent) == 0.0 {
      if y >= 1 {
        assert Pow(0.0, y) == 0.0 * Pow(0.0, y - 1);
      }
    }
  }

  lemma {:induction false} BuyCumulativeGrows(d: SimulationInput, y: nat, z: nat)
    requires Valid(d) && d.homeAppreciationRatePercent >= -100.0 && y <= z
    ensures Upfront(d) <= BuyCumulative(d, y) <= BuyCumulative(d, z)
  {
    if y < z {
      BuyCumulativeGrows(d, y, z - 1);
      BuyAnnualNonNegative(d, z);
    } else if y > 0 {
      BuyCumulativeGrows(d, 0, y);
    }
  }

  /**
   * The net cost of buying is what was spent, less the equity, plus the
   * selling costs a sale would incur.
   */
  lemma NetCostViaEquity(d: SimulationInput, y: nat)
    requires Valid(d)
    ensures NetCost(d, y) == BuyCumulative(d, y) - Equity(d, y) + SellingCosts(HomeValue(d, y), d.sellingClosingCostsPercent)
  {
  }

  /*
   * Buying outright with no running or closing costs.
   */

  /** The purchase is paid in cash and costs nothing beyond the price. */
  predicate CashWithoutCosts(d: SimulationInput)
  {
    && Valid(d) && d.downPaymentPercent == 100.0
    && d.propertyTaxRatePercent == 0.0 && d.maintenanceCostPercent == 0.0
    && d.homeAppreciationRatePercent == 0.0
    && d.buyingClosingCostsPercent == 0.0 && d.sellingClosingCostsPercent == 0.0
  }

  /**
   * Buying outright with no running or closing costs: nothing is spent after
   * the price, the home keeps its value, the equity is the price and selling
   * recovers everything, in every year.
   */
  lemma {:induction false} CashWithoutCostsYears(d: SimulationInput, y: nat)
    requires CashWithoutCosts(d)
    ensures y >= 1 ==> BuyAnnual(d, y) == 0.0
    ensures BuyCumulative(d, y) == d.homePrice
    ensures HomeValue(d, y) == d.homePrice && Equity(d, y) == d.homePrice
    ensures NetCost(d, y) == 0.0
  {
    CashPurchase(d, y);
    NoAppreciation(d, y);
    assert d.homePrice * (d.buyingClosingCostsPercent / 100.0) == 0.0;
    if y >= 1 {
      CashWithoutCostsYears(d, y - 1);
      assert HomeValue(d, y - 1) * (d.propertyTaxRatePercent / 100.0) == 0.0;
      assert HomeValue(d, y - 1) * (d.maintenanceCostPercent / 100.0) == 0.0;
    }
    assert SellingCosts(HomeValue(d, y), d.sellingClosingCostsPercent) == 0.0;
  }

  /*
   * A worked example: one year, paid in cash, with no increase, tax,
   * maintenance, appreciation or closing costs.
   */

  /**
   * One year, 1000 a month in rent, a 100000 home bought outright, every
   * other rate 0; the loan term, for a loan of nothing, is left open.
   */
  predicate CashBuyer(d: SimulationInput)
  {
    && d.yearsToSimulate == 1 && d.monthlyRent == 1000.0 && d.annualRentIncreasePercent == 0.0
    && d.rentInsuranceMonthly == 0.0 && d.homePrice == 100000.0 && d.downPaymentPercent == 100.0
    && d.mortgageInterestRatePercent == 0.0 && d.loanTermYears > 0 && d.propertyTaxRatePercent == 0.0
    && d.maintenanceCostPercent == 0.0 && d.homeAppreciationRatePercent == 0.0
    && d.buyingClosingCostsPercent == 0.0 && d.sellingClosingCostsPercent == 0.0
  }

  /**
   * A one-year run in which buying's net cost is below the rent paid: the
   * first year is the break-even year and buying is recommended by the
   * difference.
   */
  lemma CheaperInFirstYear(d: SimulationInput, y: nat)
    requires Valid(d) && y == 1 && NetCost(d, y) < RentCumulative(d, y)
    ensures FirstCheaperYear(d, y) == Some(1)
    ensures Recommend(RentCumulative(d, y), NetCost(d, y), y)
            == Recommendation(Buying, RentCumulative(d, y) - NetCost(d, y), 1)
  {
    assert FirstCheaperYear(d, y - 1) == None;
  }

  /**
   * The year's figures: 12000 in rent; nothing spent on the home during the
   * year (the down payment is part of the cumulative figure from the start);
   * the home keeps its price, nothing is owed, and the net cost is 0, so the
   * reported record is the one below.
   */
  lemma CashBuyerFigures(d: SimulationInput)
    requires CashBuyer(d)
    ensures Valid(d)
    ensures RentAnnual(d, d.yearsToSimulate) == 12000.0
    ensures RentCumulative(d, d.yearsToSimulate) == 12000.0
    ensures BuyAnnual(d, d.yearsToSimulate) == 0.0
    ensures BuyCumulative(d, d.yearsToSimulate) == 100000.0
    ensures HomeValue(d, d.yearsToSimulate) == 100000.0
    ensures RemainingMortgage(d, d.yearsToSimulate) == 0.0
    ensures Equity(d, d.yearsToSimulate) == 100000.0
    ensures NetCost(d, d.yearsToSimulate) == 0.0
    ensures YearRecord(d, d.yearsToSimulate) == YearlyResult(1, 12000.0, 12000.0, 0.0, 100000.0, 100000.0, 100000.0, 0.0, 0.0)
  {
    FlatRent(d, d.yearsToSimulate);
    FlatRentCumulative(d, d.yearsToSimulate, 12000.0);
    CashWithoutCostsYears(d, d.yearsToSimulate);
    CashPurchase(d, d.yearsToSimulate);
    RecordOf(d, d.yearsToSimulate, 12000.0, 12000.0, 0.0, 100000.0, 100000.0, 100000.0, 0.0, 0.0);
  }
}
