/** The body of the "Can I Afford This?" button in ciat.py: the monthly
    installment, the monthly outflow, the leftover and the verdict. */
module Affordability {
  import opened Wrappers
  import opened Amortization

  /** How the purchase is paid: at once this month, or in equal monthly
      installments (the "Buy in EMI?" checkbox with its two extra fields). */
  datatype Plan = PayNow | Emi(months: int, annualRatePercent: real)

  /** The form's values. The bank balance is read by the form but, as in
      the source, plays no part in the decision. */
  datatype Input = Input(income: real, expenses: real, balance: real, purchase: real, plan: Plan)

  /** The bounds the input widgets enforce: every amount at least 0.0, the
      EMI duration at least one month, the rate at least 0.0. */
  predicate WellFormed(i: Input)
  {
    && i.income >= 0.0 && i.expenses >= 0.0 && i.balance >= 0.0 && i.purchase >= 0.0
    && (i.plan.Emi? ==> i.plan.months >= 1 && i.plan.annualRatePercent >= 0.0)
  }

  /** What one press of the button computes. */
  datatype Evaluation = Evaluation(
    monthlyEmi: real,      // `emi_amount`
    totalPayable: real,    // `total_payable`
    monthlyOutflow: real,  // `monthly_outflow`
    leftover: real,        // `leftover`
    affordable: bool)      // which of the two result messages is shown

  /** `total_payable = emi_amount * emi_months`. */
  function TotalPayable(emi: real, months: int): real
  {
    emi * months as real
  }

  /** Leftover and verdict for a given outflow. */
  function Settle(i: Input, emi: real, total: real, outflow: real): Evaluation
  {
    var leftover := i.income - i.expenses - outflow;
    Evaluation(emi, total, outflow, leftover, leftover >= 0.0)
  }

  /** One evaluation. It fails, as the source does with ZeroDivisionError,
      exactly when EMI is chosen at a 0 % rate; otherwise the purchase is
      affordable exactly when income covers expenses plus the monthly
      outflow, and with EMI the installment is the payment that clears the
      loan in the chosen number of months and repays at least the price. */
  function Evaluate(i: Input): (res: Result<Evaluation, ArithError>)
    requires WellFormed(i)
    ensures res.Failure? <==> i.plan.Emi? && i.plan.annualRatePercent == 0.0
    ensures res.Success? ==> res.value.leftover == i.income - i.expenses - res.value.monthlyOutflow
    ensures res.Success? ==> (res.value.affordable <==> i.income - i.expenses >= res.value.monthlyOutflow)
    ensures i.plan.PayNow? ==>
              && res.Success?
              && res.value.monthlyEmi == 0.0
              && res.value.monthlyOutflow == i.purchase
              && res.value.totalPayable == i.purchase
    ensures i.plan.Emi? && res.Success? ==>
              && res.value.monthlyOutflow == res.value.monthlyEmi >= 0.0
              && res.value.totalPayable == res.value.monthlyEmi * i.plan.months as real
              && res.value.totalPayable >= i.purchase
              && LoanBalance(i.purchase, MonthlyRate(i.plan.annualRatePercent),
                             res.value.monthlyEmi, i.plan.months) == 0.0
  {
    match i.plan
    case PayNow =>
      Success(Settle(i, 0.0, i.purchase, i.purchase))
    case Emi(n, percent) =>
      var r := MonthlyRate(percent);
      DenominatorZeroIffRateZero(r, n);
      match Installment(i.purchase, r, n)
      case Failure(e) => Failure(e)
      case Success(emi) =>
        TotalRepaysPrincipal(i.purchase, r, n);
        InstallmentSettlesLoan(i.purchase, r, n, emi);
        Success(Settle(i, emi, TotalPayable(emi, n), emi))
  }

  /** The bank balance never changes an evaluation. */
  lemma BalanceNeverDecides(i: Input, otherBalance: real)
    requires WellFormed(i) && otherBalance >= 0.0
    ensures WellFormed(i.(balance := otherBalance))
    ensures Evaluate(i.(balance := otherBalance)) == Evaluate(i)
  {
  }

  /** With EMI at a positive rate, a longer term never makes a purchase
      with a positive price less affordable, and lowers the outflow. */
  lemma LongerTermLowersOutflow(i: Input)
    requires WellFormed(i) && i.purchase > 0.0
    requires i.plan.Emi? && i.plan.annualRatePercent > 0.0
    ensures var longer := i.(plan := Emi(i.plan.months + 1, i.plan.annualRatePercent));
            && WellFormed(longer)
            && Evaluate(i).Success? && Evaluate(longer).Success?
            && Evaluate(longer).value.monthlyOutflow < Evaluate(i).value.monthlyOutflow
            && Evaluate(longer).value.leftover > Evaluate(i).value.leftover
            && (Evaluate(i).value.affordable ==> Evaluate(longer).value.affordable)
  {
    var r := MonthlyRate(i.plan.annualRatePercent);
    InstallmentDecreasesWithTerm(i.purchase, r, i.plan.months);
  }

  /** 3000 income, 2000 expenses, a 120 purchase paid at once: 880 left. */
  lemma PayNowSurplusExample()
    ensures Evaluate(Input(3000.0, 2000.0, 500.0, 120.0, PayNow))
         == Success(Evaluation(0.0, 120.0, 120.0, 880.0, true))
  {
  }

  /** 1000 income, 1000 expenses, a 500 purchase paid at once: 500 short,
      and savings do not help. */
  lemma PayNowShortfallExample(balance: real)
    requires balance >= 0.0
    ensures Evaluate(Input(1000.0, 1000.0, balance, 500.0, PayNow))
         == Success(Evaluation(0.0, 500.0, 500.0, -500.0, false))
  {
  }

  /** 1200 over 12 months at 0 % per year: the source divides by zero. */
  lemma ZeroRateExample(income: real, expenses: real)
    requires income >= 0.0 && expenses >= 0.0
    ensures Evaluate(Input(income, expenses, 0.0, 1200.0, Emi(12, 0.0))) == Failure(ZeroDivision)
  {
  }

  /** 1200 over 12 months at 12 % per year (1 % a month): about 106.62 a
      month, the usual textbook value. */
  lemma TwelvePercentExample(income: real, expenses: real)
    requires income >= 0.0 && expenses >= 0.0
    ensures var res := Evaluate(Input(income, expenses, 0.0, 1200.0, Emi(12, 12.0)));
            res.Success? && 106.61 < res.value.monthlyEmi < 106.62
  {
    assert MonthlyRate(12.0) == 0.01;
    assert Growth(0.01, 12) == 1.126825030131969720661201;
  }
}
