/**
 * The fixed monthly loan payment and the month-by-month amortisation that the
 * yearly simulation runs inside each simulated year (backend/simulator.py).
 * Money is modelled with exact reals.
 */
module Mortgage {

  /** x raised to the natural power n (Python's `x ** n` for an integral n >= 0). */
  function Pow(x: real, n: nat): (r: real)
    ensures x > 0.0 ==> r > 0.0
    ensures x >= 1.0 ==> r >= 1.0
  {
    if n == 0 then 1.0 else x * Pow(x, n - 1)
  }

  /** The monthly interest rate for an annual percentage rate: `(rate / 100) / 12`. */
  function MonthlyRate(annualRatePercent: real): real
  {
    (annualRatePercent / 100.0) / 12.0
  }

  /** The annuity payment of `calculate_monthly_mortgage` for monthly rate m over n months. */
  function MonthlyAnnuity(principal: real, m: real, n: nat): real
    requires m > 0.0 && n >= 1
  {
    PowAboveOne(m, n);
    AnnuityPayment(principal, m, Pow(1.0 + m, n))
  }

  /** The annuity formula with the growth factor A = (1 + m)^n given: P * m * A / (A - 1). */
  function AnnuityPayment(principal: real, m: real, a: real): real
    requires a > 1.0
  {
    principal * (m * a) / (a - 1.0)
  }

  /**
   * `calculate_monthly_mortgage`: nothing to pay on an empty loan, straight-line
   * repayment when the rate is not positive, the annuity formula otherwise.
   * The source divides by `years * 12` (and by `(1+m)^n - 1`), so a positive
   * principal needs a loan term of at least one year.
   */
  function MonthlyMortgage(principal: real, annualRatePercent: real, years: int): (payment: real)
    requires principal <= 0.0 || years >= 1
    ensures principal <= 0.0 ==> payment == 0.0
    ensures principal > 0.0 && annualRatePercent <= 0.0 ==> payment * ((years * 12) as real) == principal
    ensures principal > 0.0 && annualRatePercent > 0.0 ==> payment > principal * MonthlyRate(annualRatePercent)
  {
    if principal <= 0.0 then 0.0
    else if annualRatePercent <= 0.0 then
      DivTimes(principal, (years * 12) as real);
      principal / ((years * 12) as real)
    else
      AnnuityAboveInterest(principal, MonthlyRate(annualRatePercent), years * 12);
      MonthlyAnnuity(principal, MonthlyRate(annualRatePercent), years * 12)
  }

  lemma DivTimes(p: real, n: real)
    requires n > 0.0
    ensures (p / n) * n == p
  {
  }

  /** The annuity payment is more than the first month's interest, so the balance falls. */
  lemma AnnuityAboveInterest(principal: real, m: real, n: nat)
    requires principal > 0.0 && m > 0.0 && n >= 1
    ensures MonthlyAnnuity(principal, m, n) > principal * m
  {
    PowAboveOne(m, n);
    ExceedsInterest(principal, m, Pow(1.0 + m, n));
  }

  lemma PowAboveOne(m: real, n: nat)
    requires m > 0.0 && n >= 1
    ensures Pow(1.0 + m, n) > 1.0
  {
    PowGrows(1.0 + m, 0, n);
  }

  lemma ExceedsInterest(principal: real, m: real, a: real)
    requires principal > 0.0 && m > 0.0 && a > 1.0
    ensures AnnuityPayment(principal, m, a) > principal * m
  {
    assert a / (a - 1.0) == 1.0 + 1.0 / (a - 1.0);
    assert 1.0 / (a - 1.0) > 0.0;
    assert principal * (m * a) / (a - 1.0) == (principal * m) * (a / (a - 1.0));
  }

  /** Powers of a base above one grow strictly with the exponent. */
  lemma {:induction false} PowGrows(x: real, k: nat, n: nat)
    requires x > 1.0 && k < n
    ensures Pow(x, k) < Pow(x, n)
  {
    PowStep(x, n);
    if k < n - 1 {
      PowGrows(x, k, n - 1);
    } else {
      assert k == n - 1;
    }
  }

  lemma PowStep(x: real, n: nat)
    requires x > 1.0 && n >= 1
    ensures Pow(x, n - 1) < Pow(x, n)
  {
    assert Pow(x, n) == x * Pow(x, n - 1);
    GrowsByFactor(Pow(x, n), Pow(x, n - 1), x);
  }

  /** A loan as the inner loop sees it: starting balance, fixed payment, monthly rate. */
  datatype Loan = Loan(principal: real, payment: real, monthlyRate: real)

  /** What one month of the inner loop does: the new balance, the cash paid, the principal repaid. */
  datatype Month = Month(balance: real, paid: real, principalPart: real)

  /**
   * One month of amortisation. While a balance is owed, interest accrues on it
   * and the fixed payment covers that interest first; the principal portion is
   * clamped to the balance, in which case the month's payment is the balance
   * plus its interest. Nothing happens once the balance is not positive.
   */
  function Step(balance: real, payment: real, rate: real): (m: Month)
    ensures m.balance == balance - m.principalPart
    ensures balance <= 0.0 ==> m == Month(balance, 0.0, 0.0)
    ensures balance > 0.0 ==> 0.0 <= m.balance && m.paid == m.principalPart + balance * rate
    ensures balance > 0.0 ==> (m.balance == 0.0 || m.paid == payment)
    ensures balance > 0.0 && payment - balance * rate <= balance ==> m.paid == payment
  {
    if balance > 0.0 then
      var interest := balance * rate;
      var principal := payment - interest;
      if principal > balance then Month(0.0, balance + interest, balance)
      else Month(balance - principal, payment, principal)
    else Month(balance, 0.0, 0.0)
  }

  /** The balance after the first k months. */
  function Balance(loan: Loan, k: nat): real
  {
    if k == 0 then loan.principal
    else Step(Balance(loan, k - 1), loan.payment, loan.monthlyRate).balance
  }

  /** The cash paid in month k + 1 (months counted from 0). */
  function Instalment(loan: Loan, k: nat): real
  {
    Step(Balance(loan, k), loan.payment, loan.monthlyRate).paid
  }

  /** The cash paid over `count` months starting with month `start` (counted from 0). */
  function PaidBetween(loan: Loan, start: nat, count: nat): real
  {
    if count == 0 then 0.0
    else PaidBetween(loan, start, count - 1) + Instalment(loan, start + count - 1)
  }

  /** The balance is never negative when the loan is not. */
  lemma {:induction false} BalanceNonNegative(loan: Loan, k: nat)
    requires loan.principal >= 0.0
    ensures Balance(loan, k) >= 0.0
  {
    if k > 0 {
      BalanceNonNegative(loan, k - 1);
    }
  }

  /** Once the balance is paid off it stays paid off, and no later month costs anything. */
  lemma {:induction false} PaidOffStaysPaidOff(loan: Loan, k: nat, j: nat)
    requires Balance(loan, k) <= 0.0
    ensures Balance(loan, k + j) == Balance(loan, k)
    ensures Instalment(loan, k + j) == 0.0
  {
    if j > 0 {
      PaidOffStaysPaidOff(loan, k, j - 1);
      assert Balance(loan, k + j) == Step(Balance(loan, k + j - 1), loan.payment, loan.monthlyRate).balance;
    }
  }

  /** Nothing is paid over any stretch of months after the loan is paid off. */
  lemma {:induction false} NothingPaidAfterPayoff(loan: Loan, k: nat, start: nat, count: nat)
    requires Balance(loan, k) <= 0.0 && k <= start
    ensures PaidBetween(loan, start, count) == 0.0
  {
    if count > 0 {
      NothingPaidAfterPayoff(loan, k, start, count - 1);
      PaidOffStaysPaidOff(loan, k, start + count - 1 - k);
    }
  }

  /**
   * With a zero rate and the straight-line payment P / n, every one of the n
   * months repays exactly the payment as principal with no interest, and the
   * balance falls linearly.
   */
  lemma {:induction false} StraightLineSchedule(loan: Loan, n: nat, k: nat)
    requires loan.principal > 0.0 && loan.monthlyRate == 0.0
    requires n >= 1 && loan.payment * (n as real) == loan.principal
    requires k <= n
    ensures Balance(loan, k) == loan.principal - (k as real) * loan.payment
    ensures k < n ==> Instalment(loan, k) == loan.payment
    ensures k < n ==> Step(Balance(loan, k), loan.payment, 0.0).principalPart == loan.payment
  {
    if k > 0 {
      StraightLineSchedule(loan, n, k - 1);
    }
    var b := Balance(loan, k);
    if k < n {
      assert b == ((n - k - 1) as real) * loan.payment + loan.payment;
      assert loan.payment > 0.0;
      assert ((n - k - 1) as real) * loan.payment >= 0.0;
    }
  }

  /** Over months that each pay the fixed payment, the cash paid is the payment times the month count. */
  lemma {:induction false} PaidAtFixedPayment(loan: Loan, start: nat, count: nat)
    requires forall j :: start <= j < start + count ==> Instalment(loan, j) == loan.payment
    ensures PaidBetween(loan, start, count) == (count as real) * loan.payment
  {
    if count > 0 {
      PaidAtFixedPayment(loan, start, count - 1);
      assert Instalment(loan, start + count - 1) == loan.payment;
    }
  }

  /** Month k + 1 is one step from the balance b after k months. */
  lemma MonthFrom(loan: Loan, k: nat, b: real, payment: real, rate: real)
    requires b == Balance(loan, k) && payment == loan.payment && rate == loan.monthlyRate
    ensures Balance(loan, k + 1) == Step(b, payment, rate).balance
    ensures Instalment(loan, k) == Step(b, payment, rate).paid
  {
  }

  /** One more month adds that month's instalment to the cash paid. */
  lemma PaidNext(loan: Loan, start: nat, count: nat)
    ensures PaidBetween(loan, start, count + 1) == PaidBetween(loan, start, count) + Instalment(loan, start + count)
  {
  }

  lemma PowNext(x: real, n: nat)
    ensures Pow(x, n + 1) == x * Pow(x, n)
  {
  }

  /** Multiplying c * x^n by x once more gives c * x^(n+1). */
  lemma ScaledPowNext(a: real, c: real, x: real, n: nat)
    requires a == c * Pow(x, n)
    ensures a * x == c * Pow(x, n + 1)
  {
    PowNext(x, n);
    assert a * x == c * (x * Pow(x, n));
  }

  /*
   * The annuity schedule. With A = 1 + m and W = P / (A^n - 1), the balance
   * after k <= n months is W * A^n - W * A^k. The proof runs on the
   * recurrence the month step follows when the clamp does not fire
   * (Unclamped), shows that recurrence stays positive until month n, and
   * concludes that the clamp indeed never fires before then.
   */

  /**
   * With a positive rate and the annuity payment for n months, the loan is
   * retired exactly at month n: the balance is positive before it and 0 at
   * it, and every month before the n-th pays exactly the fixed payment (the
   * clamp in the month step never fires before the loan is retired).
   */
  lemma AnnuitySchedule(loan: Loan, n: nat, k: nat)
    requires loan.principal > 0.0 && loan.monthlyRate > 0.0 && n >= 1
    requires loan.payment == MonthlyAnnuity(loan.principal, loan.monthlyRate, n)
    requires k <= n
    ensures Balance(loan, k) == 0.0 <==> k == n
    ensures k < n ==> Balance(loan, k) > 0.0 && Instalment(loan, k) == loan.payment
  {
    AnnuityBalanceScaled(loan, n, k);
    if k == n {
      assert k == n;
    }
  }

  /** The annuity schedule in terms of Scaled: the balance is W * A^n - W * A^k. */
  lemma AnnuityBalanceScaled(loan: Loan, n: nat, k: nat)
    requires loan.principal > 0.0 && loan.monthlyRate > 0.0 && n >= 1
    requires loan.payment == MonthlyAnnuity(loan.principal, loan.monthlyRate, n)
    requires k <= n
    ensures Balance(loan, k) == Scaled(AnnuityWeight(loan.principal, loan.monthlyRate, n), 1.0 + loan.monthlyRate, n)
                                - Scaled(AnnuityWeight(loan.principal, loan.monthlyRate, n), 1.0 + loan.monthlyRate, k)
    ensures k < n ==> Balance(loan, k) > 0.0 && Instalment(loan, k) == loan.payment
  {
    var w := AnnuityWeight(loan.principal, loan.monthlyRate, n);
    AnnuityWeightFacts(loan.principal, loan.monthlyRate, n);
    forall j | 0 <= j <= n
      ensures j < n ==> Unclamped(loan, j) > 0.0
      ensures Unclamped(loan, j) >= 0.0
    {
      UnclampedPositive(loan, n, w, j);
    }
    UnclampedClosedForm(loan, n, w, k);
    ClampFree(loan, k);
    if k < n {
      ClampFree(loan, k + 1);
    }
  }

  /** Under the annuity payment the unclamped balance is positive before month n and 0 at n. */
  lemma UnclampedPositive(loan: Loan, n: nat, w: real, j: nat)
    requires w > 0.0 && loan.monthlyRate > 0.0 && j <= n
    requires loan.principal == Scaled(w, 1.0 + loan.monthlyRate, n) - w
    requires loan.payment == loan.monthlyRate * Scaled(w, 1.0 + loan.monthlyRate, n)
    ensures j < n ==> Unclamped(loan, j) > 0.0
    ensures Unclamped(loan, j) >= 0.0
  {
    UnclampedClosedForm(loan, n, w, j);
    if j < n {
      ScaledGrows(w, 1.0 + loan.monthlyRate, j, n);
    } else {
      assert j == n;
    }
  }

  /** W = P / (A^n - 1). */
  function AnnuityWeight(principal: real, m: real, n: nat): real
    requires m > 0.0 && n >= 1
  {
    PowAboveOne(m, n);
    principal / (Pow(1.0 + m, n) - 1.0)
  }

  /** The principal is W * A^n - W and the annuity payment is m * W * A^n. */
  lemma AnnuityWeightFacts(principal: real, m: real, n: nat)
    requires principal > 0.0 && m > 0.0 && n >= 1
    ensures AnnuityWeight(principal, m, n) > 0.0
    ensures principal == Scaled(AnnuityWeight(principal, m, n), 1.0 + m, n) - AnnuityWeight(principal, m, n)
    ensures MonthlyAnnuity(principal, m, n) == m * Scaled(AnnuityWeight(principal, m, n), 1.0 + m, n)
  {
    PowAboveOne(m, n);
    ScaledIsProduct(AnnuityWeight(principal, m, n), 1.0 + m, n);
    WeightOf(principal, m, Pow(1.0 + m, n), AnnuityWeight(principal, m, n),
             Scaled(AnnuityWeight(principal, m, n), 1.0 + m, n), MonthlyAnnuity(principal, m, n));
  }

  /** AnnuityWeightFacts with A^n, W, W * A^n and the payment named. */
  lemma WeightOf(principal: real, m: real, a: real, w: real, s: real, payment: real)
    requires principal > 0.0 && a > 1.0 && w == principal / (a - 1.0) && s == w * a
    requires payment == AnnuityPayment(principal, m, a)
    ensures w > 0.0 && principal == s - w && payment == m * s
  {
    DivSign(principal, a - 1.0);
    AnnuityWeightAlgebra(principal, m, a, w);
  }

  lemma AnnuityWeightAlgebra(principal: real, m: real, a: real, w: real)
    requires a > 1.0 && w == principal / (a - 1.0)
    ensures principal == w * a - w
    ensures principal * (m * a) / (a - 1.0) == m * (w * a)
  {
    assert w * (a - 1.0) == principal;
    var q := principal * (m * a) / (a - 1.0);
    assert q * (a - 1.0) == principal * (m * a);
    assert (m * (w * a)) * (a - 1.0) == (m * a) * (w * (a - 1.0));
    Cancel(q, m * (w * a), a - 1.0);
  }

  /** A non-zero factor cancels from both sides of an equation. */
  lemma Cancel(q: real, r: real, d: real)
    requires d != 0.0 && q * d == r * d
    ensures q == r
  {
    assert (q - r) * d == 0.0;
  }

  /** w * x^k, computed by the same recursion as Pow. */
  function Scaled(w: real, x: real, k: nat): real
  {
    if k == 0 then w else x * Scaled(w, x, k - 1)
  }

  lemma {:induction false} ScaledIsProduct(w: real, x: real, k: nat)
    ensures Scaled(w, x, k) == w * Pow(x, k)
  {
    if k > 0 {
      ScaledIsProduct(w, x, k - 1);
      assert x * (w * Pow(x, k - 1)) == w * (x * Pow(x, k - 1));
    }
  }

  lemma {:induction false} ScaledGrows(w: real, x: real, k: nat, n: nat)
    requires w > 0.0 && x > 1.0 && k < n
    ensures Scaled(w, x, k) < Scaled(w, x, n)
  {
    ScaledStep(w, x, n);
    if k < n - 1 {
      ScaledGrows(w, x, k, n - 1);
    } else {
      assert k == n - 1;
    }
  }

  lemma ScaledStep(w: real, x: real, n: nat)
    requires w > 0.0 && x > 1.0 && n >= 1
    ensures Scaled(w, x, n - 1) < Scaled(w, x, n)
  {
    ScaledPositive(w, x, n - 1);
    assert Scaled(w, x, n) == x * Scaled(w, x, n - 1);
    GrowsByFactor(Scaled(w, x, n), Scaled(w, x, n - 1), x);
  }

  lemma GrowsByFactor(a: real, b: real, x: real)
    requires a == x * b && x > 1.0 && b > 0.0
    ensures b < a
  {
    assert a - b == (x - 1.0) * b;
  }

  lemma {:induction false} ScaledPositive(w: real, x: real, k: nat)
    requires w > 0.0 && x > 1.0
    ensures Scaled(w, x, k) > 0.0
  {
    if k > 0 {
      ScaledPositive(w, x, k - 1);
    }
  }

  /** The balance the month step would give if the clamp never fired. */
  function Unclamped(loan: Loan, k: nat): real
  {
    if k == 0 then loan.principal
    else
      var b := Unclamped(loan, k - 1);
      b - (loan.payment - b * loan.monthlyRate)
  }

  /** While the unclamped balance stays positive, the month step never clamps. */
  lemma {:induction false} ClampFree(loan: Loan, k: nat)
    requires forall j :: 0 <= j < k ==> Unclamped(loan, j) > 0.0
    requires Unclamped(loan, k) >= 0.0
    ensures Balance(loan, k) == Unclamped(loan, k)
    ensures k > 0 ==> Instalment(loan, k - 1) == loan.payment
  {
    if k > 0 {
      ClampFree(loan, k - 1);
      var b := Balance(loan, k - 1);
      StepWithoutClamp(b, loan.payment, loan.monthlyRate);
    }
  }

  /** The unclamped annuity recurrence is W * A^n - W * A^k. */
  lemma {:induction false} UnclampedClosedForm(loan: Loan, n: nat, w: real, k: nat)
    requires loan.principal == Scaled(w, 1.0 + loan.monthlyRate, n) - w
    requires loan.payment == loan.monthlyRate * Scaled(w, 1.0 + loan.monthlyRate, n)
    ensures Unclamped(loan, k) == Scaled(w, 1.0 + loan.monthlyRate, n) - Scaled(w, 1.0 + loan.monthlyRate, k)
  {
    if k > 0 {
      UnclampedClosedForm(loan, n, w, k - 1);
      AnnuityStepReal(loan.monthlyRate, Scaled(w, 1.0 + loan.monthlyRate, n),
                      Scaled(w, 1.0 + loan.monthlyRate, k - 1), loan.payment, Unclamped(loan, k - 1));
    }
  }

  /**
   * The arithmetic of one annuity month: from u = sn - s the unclamped step
   * u - (payment - u * m) gives sn - (1 + m) * s when payment = m * sn.
   */
  lemma AnnuityStepReal(m: real, sn: real, s: real, payment: real, u: real)
    requires payment == m * sn && u == sn - s
    ensures u - (payment - u * m) == sn - (1.0 + m) * s
  {
  }

  /** A month whose principal portion does not exceed the balance pays the fixed payment. */
  lemma StepWithoutClamp(b: real, payment: real, rate: real)
    requires b > 0.0 && b - (payment - b * rate) >= 0.0
    ensures Step(b, payment, rate) == Month(b - (payment - b * rate), payment, payment - b * rate)
  {
  }

  lemma DivSign(x: real, d: real)
    requires x >= 0.0 && d > 0.0
    ensures x / d >= 0.0 && (x > 0.0 ==> x / d > 0.0)
  {
  }
}
