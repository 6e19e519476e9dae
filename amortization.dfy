/** Fixed-rate amortisation: the equal monthly installment (EMI) formula of
    ciat.py and the loan-balance recurrence it is meant to settle. All
    arithmetic is exact, over `real`. */
module Amortization {
  import opened Wrappers

  /** The only error the EMI formula can raise: Python's ZeroDivisionError. */
  datatype ArithError = ZeroDivision

  /** x raised to the n-th power (what `math.pow(x, n)` computes for an
      integer exponent, here without rounding). */
  function Pow(x: real, n: nat): real
  {
    if n == 0 then 1.0 else x * Pow(x, n - 1)
  }

  /** 1 + q + q^2 + ... + q^(n-1), in Horner form. */
  function Geo(q: real, n: nat): real
  {
    if n == 0 then 0.0 else 1.0 + q * Geo(q, n - 1)
  }

  /** The monthly rate for an annual percentage: `interest_rate / 12 / 100`. */
  function MonthlyRate(annualPercent: real): (r: real)
    ensures r * 1200.0 == annualPercent
    ensures r == 0.0 <==> annualPercent == 0.0
  {
    annualPercent / 12.0 / 100.0
  }

  /** Python's `/` on numbers: the quotient, or ZeroDivisionError when the
      divisor is zero. */
  function Divide(x: real, y: real): (res: Result<real, ArithError>)
    ensures res.Failure? <==> y == 0.0
    ensures res.Success? ==> res.value * y == x
  {
    if y == 0.0 then Failure(ZeroDivision) else Success(x / y)
  }

  /** The EMI expression of ciat.py, `P * r * g / (g - 1)`, where g is the
      growth factor `(1+r)^n` that the source computes twice. */
  function EmiFormula(principal: real, r: real, growth: real): Result<real, ArithError>
  {
    Divide(principal * r * growth, growth - 1.0)
  }

  /** `(1+r)^n`: what one unit grows to in n months at monthly rate r. */
  function Growth(r: real, n: nat): real
  {
    Pow(1.0 + r, n)
  }

  /** `1 + (1+r) + ... + (1+r)^(n-1)`: what n payments of one unit, each
      left to grow until month n, add up to. */
  function AnnuityFactor(r: real, n: nat): real
  {
    Geo(1.0 + r, n)
  }

  /** The EMI for a principal at monthly rate r over n months. */
  function Installment(principal: real, r: real, n: nat): Result<real, ArithError>
  {
    EmiFormula(principal, r, Growth(r, n))
  }

  /** Reference definition: what is still owed after k months when the
      balance grows by the rate r each month and then `payment` is paid. */
  function LoanBalance(principal: real, r: real, payment: real, k: nat): real
  {
    if k == 0 then principal
    else MonthEnd(LoanBalance(principal, r, payment, k - 1), r, payment)
  }

  /** One month of the loan: the balance grows by the rate r, then the
      payment is made. */
  function MonthEnd(balance: real, r: real, payment: real): real
  {
    balance * (1.0 + r) - payment
  }

  lemma {:induction false} PowOne(n: nat)
    ensures Pow(1.0, n) == 1.0
  {
    if n > 0 { PowOne(n - 1); }
  }

  /** A growth factor of at least one never shrinks under powers, and one
      above one grows strictly from the first power on. */
  lemma {:induction false} PowAtLeastOne(x: real, n: nat)
    requires x >= 1.0
    ensures Pow(x, n) >= 1.0
    ensures x > 1.0 && n > 0 ==> Pow(x, n) > 1.0
  {
    if n > 0 {
      PowAtLeastOne(x, n - 1);
      MulAtLeastOne(x, Pow(x, n - 1));
    }
  }

  /** With a non-negative ratio a non-empty geometric sum is at least its
      first term, 1. */
  lemma {:induction false} GeoAtLeastOne(q: real, n: nat)
    requires q >= 0.0 && n >= 1
    ensures Geo(q, n) >= 1.0
  {
    if n > 1 {
      GeoAtLeastOne(q, n - 1);
      assert q * Geo(q, n - 1) >= 0.0;
    }
  }

  /** The geometric sum times (q - 1) telescopes to q^n - 1. */
  lemma {:induction false} GeoTelescopes(q: real, n: nat)
    ensures (q - 1.0) * Geo(q, n) == Pow(q, n) - 1.0
  {
    if n > 0 {
      GeoTelescopes(q, n - 1);
      TelescopeStep(q, Geo(q, n - 1), Pow(q, n - 1));
    }
  }

  /** Each of the n terms of the sum is at most q^n. */
  lemma {:induction false} GeoAtMost(q: real, n: nat)
    requires q >= 1.0
    ensures Geo(q, n) <= n as real * Pow(q, n)
  {
    if n > 0 {
      GeoAtMost(q, n - 1);
      PowAtLeastOne(q, n - 1);
      AtMostStep(Geo(q, n), Pow(q, n), n as real, q, Geo(q, n - 1), Pow(q, n - 1), (n - 1) as real);
    }
  }

  /** The balance after k months, in closed form. */
  lemma {:induction false} LoanBalanceClosedForm(principal: real, r: real, payment: real, k: nat)
    ensures LoanBalance(principal, r, payment, k)
         == principal * Growth(r, k) - payment * AnnuityFactor(r, k)
  {
    if k > 0 {
      LoanBalanceClosedForm(principal, r, payment, k - 1);
      OneMoreMonth(r, k);
      LoanBalanceStep(principal, r, payment, k);
      BalanceStep(LoanBalance(principal, r, payment, k - 1), LoanBalance(principal, r, payment, k),
                  principal, 1.0 + r, payment,
                  Growth(r, k - 1), AnnuityFactor(r, k - 1), Growth(r, k), AnnuityFactor(r, k));
    }
  }

  /** The bounds and the telescoping identity, restated for the growth
      and the annuity factor of a non-negative rate. */
  lemma GrowthFacts(r: real, n: nat)
    requires r >= 0.0
    ensures Growth(r, n) >= 1.0
    ensures AnnuityFactor(r, n) <= n as real * Growth(r, n)
    ensures n >= 1 ==> AnnuityFactor(r, n) >= 1.0
    ensures r * AnnuityFactor(r, n) == Growth(r, n) - 1.0
  {
    PowAtLeastOne(1.0 + r, n);
    GeoAtMost(1.0 + r, n);
    if n >= 1 { GeoAtLeastOne(1.0 + r, n); }
    GeoTelescopes(1.0 + r, n);
    TelescopeRate(r, AnnuityFactor(r, n), Growth(r, n));
  }

  /** One month of the loan: grow by 1 + r, then pay. */
  lemma LoanBalanceStep(principal: real, r: real, payment: real, k: nat)
    requires k > 0
    ensures LoanBalance(principal, r, payment, k)
         == LoanBalance(principal, r, payment, k - 1) * (1.0 + r) - payment
  {
  }

  /** How the growth and the annuity factor change with one more month. */
  lemma OneMoreMonth(r: real, n: nat)
    requires n >= 1
    ensures Growth(r, n) == (1.0 + r) * Growth(r, n - 1)
    ensures AnnuityFactor(r, n) == 1.0 + (1.0 + r) * AnnuityFactor(r, n - 1)
  {
  }

  /** For a non-negative rate and at least one month, the EMI formula
      divides by zero exactly when the rate is zero. */
  lemma DenominatorZeroIffRateZero(r: real, n: nat)
    requires r >= 0.0 && n >= 1
    ensures Growth(r, n) - 1.0 == 0.0 <==> r == 0.0
  {
    if r == 0.0 { PowOne(n); } else { PowAtLeastOne(1.0 + r, n); }
  }

  /** For a positive rate the installment times the annuity factor is the
      principal grown over the term. */
  lemma InstallmentGeometricForm(principal: real, r: real, n: nat)
    requires r > 0.0 && n >= 1
    ensures AnnuityFactor(r, n) >= 1.0
    ensures Installment(principal, r, n).Success?
    ensures Installment(principal, r, n).value * AnnuityFactor(r, n) == principal * Growth(r, n)
  {
    GrowthFacts(r, n);
    FormAlgebra(principal, r, Growth(r, n), AnnuityFactor(r, n));
  }

  /** With a positive rate the EMI pays the loan off exactly at the end of
      the term, and it is the only monthly payment that does. */
  lemma InstallmentSettlesLoan(principal: real, r: real, n: nat, payment: real)
    requires r > 0.0 && n >= 1
    ensures Installment(principal, r, n).Success?
    ensures LoanBalance(principal, r, payment, n) == 0.0
        <==> payment == Installment(principal, r, n).value
  {
    InstallmentGeometricForm(principal, r, n);
    BalanceZeroIff(principal, r, payment, n, Installment(principal, r, n).value);
  }

  /** A payment settles the loan exactly when it equals the amount emi
      with emi * AnnuityFactor(r, n) == principal * Growth(r, n). */
  lemma BalanceZeroIff(principal: real, r: real, payment: real, n: nat, emi: real)
    requires AnnuityFactor(r, n) >= 1.0
    requires emi * AnnuityFactor(r, n) == principal * Growth(r, n)
    ensures LoanBalance(principal, r, payment, n) == 0.0 <==> payment == emi
  {
    LoanBalanceClosedForm(principal, r, payment, n);
    SettleAlgebra(principal, payment, emi, Growth(r, n), AnnuityFactor(r, n),
                  LoanBalance(principal, r, payment, n));
  }

  /** With a positive rate each installment is non-negative and the n
      installments together repay at least the principal. */
  lemma TotalRepaysPrincipal(principal: real, r: real, n: nat)
    requires principal >= 0.0 && r > 0.0 && n >= 1
    ensures Installment(principal, r, n).Success?
    ensures Installment(principal, r, n).value >= 0.0
    ensures Installment(principal, r, n).value * n as real >= principal
  {
    InstallmentGeometricForm(principal, r, n);
    GrowthFacts(r, n);
    RepayAlgebra(principal, Installment(principal, r, n).value, Growth(r, n), AnnuityFactor(r, n), n as real);
  }

  /** A longer term at the same positive rate strictly lowers the
      installment of a positive principal. */
  lemma InstallmentDecreasesWithTerm(principal: real, r: real, n: nat)
    requires principal > 0.0 && r > 0.0 && n >= 1
    ensures Installment(principal, r, n).Success?
    ensures Installment(principal, r, n + 1).Success?
    ensures Installment(principal, r, n + 1).value < Installment(principal, r, n).value
  {
    InstallmentGeometricForm(principal, r, n);
    InstallmentGeometricForm(principal, r, n + 1);
    SolutionDecreases(principal, r, n, Installment(principal, r, n).value, Installment(principal, r, n + 1).value);
  }

  /** The amounts that settle a loan over n and over n + 1 months:
      the second is the smaller. */
  lemma SolutionDecreases(principal: real, r: real, n: nat, a: real, b: real)
    requires principal > 0.0 && r > 0.0 && n >= 1
    requires a * AnnuityFactor(r, n) == principal * Growth(r, n)
    requires b * AnnuityFactor(r, n + 1) == principal * Growth(r, n + 1)
    ensures b < a
  {
    GrowthFacts(r, n);
    OneMoreMonth(r, n + 1);
    DecreaseAlgebra(principal, a, b, Growth(r, n), AnnuityFactor(r, n),
                    Growth(r, n + 1), AnnuityFactor(r, n + 1), 1.0 + r);
  }

  // Algebraic steps over plain reals, kept apart from the recursive
  // definitions so that each one is a small problem for the solver.

  lemma MulAtLeastOne(x: real, y: real)
    requires x >= 1.0 && y >= 1.0
    ensures x * y >= 1.0
    ensures x > 1.0 ==> x * y > 1.0
  {
  }

  lemma TelescopeStep(q: real, g: real, p: real)
    requires (q - 1.0) * g == p - 1.0
    ensures (q - 1.0) * (1.0 + q * g) == q * p - 1.0
  {
  }

  lemma AtMostStep(total: real, power: real, count: real, q: real, g: real, p: real, m: real)
    requires total == 1.0 + q * g && power == q * p && count == m + 1.0
    requires q >= 1.0 && p >= 1.0 && m >= 0.0 && g <= m * p
    ensures total <= count * power
  {
    AtMostBound(q, g, p, m);
  }

  lemma AtMostBound(q: real, g: real, p: real, m: real)
    requires q >= 1.0 && p >= 1.0 && m >= 0.0 && g <= m * p
    ensures 1.0 + q * g <= (m + 1.0) * (q * p)
  {
  }

  lemma BalanceStep(before: real, after: real, principal: real, q: real, x: real,
                    p: real, g: real, p1: real, g1: real)
    requires after == before * q - x && before == principal * p - x * g
    requires p1 == q * p && g1 == 1.0 + q * g
    ensures after == principal * p1 - x * g1
  {
  }

  lemma TelescopeRate(r: real, g: real, p: real)
    requires ((1.0 + r) - 1.0) * g == p - 1.0
    ensures p - 1.0 == r * g
  {
  }

  lemma FormAlgebra(principal: real, r: real, p: real, g: real)
    requires r != 0.0 && g >= 1.0 && p - 1.0 == r * g
    ensures EmiFormula(principal, r, p).Success?
    ensures EmiFormula(principal, r, p).value * g == principal * p
  {
  }

  lemma SettleAlgebra(principal: real, x: real, emi: real, p: real, g: real, balance: real)
    requires g >= 1.0 && emi * g == principal * p && balance == principal * p - x * g
    ensures balance == 0.0 <==> x == emi
  {
  }

  lemma RepayAlgebra(principal: real, emi: real, p: real, g: real, n: real)
    requires principal >= 0.0 && p >= 1.0 && g >= 1.0 && n >= 0.0
    requires emi * g == principal * p && g <= n * p
    ensures emi >= 0.0 && emi * n >= principal
  {
  }

  lemma DecreaseAlgebra(principal: real, a: real, b: real, p: real, g: real, p1: real, g1: real, q: real)
    requires principal > 0.0 && p >= 1.0 && g >= 1.0 && q >= 1.0
    requires p1 == q * p && g1 == 1.0 + q * g
    requires a * g == principal * p && b * g1 == principal * p1
    ensures b < a
  {
  }
}
