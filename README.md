# Can I Afford This? — a Dafny model of the affordability check

`ciat.py` is a one-page budgeting calculator. The user enters monthly
income, monthly expenses, a bank balance and a purchase amount, and may
choose to buy in equal monthly installments (EMI) over a number of months
at an annual interest rate. Pressing "Can I Afford This?" computes the
monthly installment, the monthly outflow, what is left of the month's
income, and a verdict; each press appends one record to a history list
held in the session, which "Clear History" empties.

This project models that core in four modules:

- `Amortization` (`amortization.dfy`): the monthly rate, Python's division
  with its ZeroDivisionError, the EMI formula `P·r·(1+r)^n / ((1+r)^n − 1)`,
  and, as an independent reference, the month-by-month loan balance
  `B(k+1) = B(k)·(1+r) − payment`. The EMI is proved to be the one payment
  that brings that balance to zero after n months, to repay at least the
  principal in total, and to fall strictly as the term grows.
- `Affordability` (`affordability.dfy`): one evaluation, as a function of
  the form's values, returning the installment, total payable, outflow,
  leftover and verdict, or the division-by-zero failure.
- `Rounding` (`rounding.dfy`): `round(x, 2)` as applied to the stored
  amounts (nearest cent, halves to even).
- `History` (`history.dfy`): the record appended per evaluation and a
  `Session` class whose `history` field is the session's list, with the
  initialise, append-on-evaluate and clear operations. `wrappers.dfy`
  holds `Option` and `Result`.

Two consequences of the code are worth stating. There is no zero-rate
guard: with EMI at 0 % the denominator `(1+r)^n − 1` is 0, line 37 raises
ZeroDivisionError and no record is appended. And the verdict is
`leftover >= 0` whether or not EMI is chosen: the bank balance read at
line 15 is never used.

## Model

| member | source | states |
|---|---|---|
| `Amortization.MonthlyRate` | ciat.py:36 | the monthly rate is the annual percentage divided by 1200, and is zero exactly when the annual rate is |
| `Amortization.Divide` | ciat.py:37 | Python's `/`: fails (ZeroDivisionError) exactly when the divisor is zero, otherwise the quotient times the divisor gives back the dividend |
| `Amortization.DenominatorZeroIffRateZero` | ciat.py:36-37 | for a rate ≥ 0 and at least one month, the EMI denominator `(1+r)^n − 1` is zero exactly when the rate is zero |
| `Amortization.InstallmentGeometricForm` | ciat.py:37 | for a positive rate the EMI formula succeeds and the annuity factor `AnnuityFactor(r, n) = 1 + q + … + q^(n−1)` (q = 1+r) is at least 1, and the installment times it equals the principal grown over the term, `P·Growth(r, n) = P·q^n` |
| `Amortization.InstallmentSettlesLoan` | ciat.py:37 | for a positive rate, a monthly payment leaves a zero loan balance after n months (balance grown by 1+r, then the payment taken, each month) if and only if it equals the EMI |
| `Amortization.TotalRepaysPrincipal` | ciat.py:37-38 | for a positive rate and a non-negative principal the EMI is non-negative and `emi · n` (the total payable) is at least the principal |
| `Amortization.InstallmentDecreasesWithTerm` | ciat.py:37 | at a fixed positive rate and positive principal, one more month gives a strictly smaller EMI |
| `Affordability.Evaluate` | ciat.py:31-43 | an evaluation fails exactly when EMI is chosen at a 0 % rate; otherwise leftover = income − expenses − outflow and the verdict is "affordable" exactly when that is ≥ 0; without EMI the installment is 0 and outflow and total payable are the purchase; with EMI the outflow is the installment, total payable is installment × months and at least the purchase, and the installment clears the loan balance in the chosen months |
| `Affordability.BalanceNeverDecides` | ciat.py:15-43 | changing the bank balance changes nothing in the evaluation |
| `Affordability.LongerTermLowersOutflow` | ciat.py:35-43 | with EMI at a positive rate and a positive price, one more month lowers the outflow, raises the leftover, and keeps an affordable purchase affordable |
| `Affordability.PayNowSurplusExample` | ciat.py:32-43 | 3000 income, 2000 expenses, 120 paid at once: installment 0, outflow 120, leftover 880, affordable |
| `Affordability.PayNowShortfallExample` | ciat.py:40-43 | 1000 income, 1000 expenses, 500 paid at once: leftover −500, not affordable, whatever the bank balance |
| `Affordability.ZeroRateExample` | ciat.py:35-37 | 1200 over 12 months at 0 % fails with division by zero |
| `Affordability.TwelvePercentExample` | ciat.py:35-38 | 1200 over 12 months at 12 % a year gives an installment between 106.61 and 106.62 |
| `Rounding.RoundHalfEven` | ciat.py:51-53 | the result is within 1/2 of its argument, and even when exactly 1/2 away |
| `Rounding.RoundHalfEvenIsNearest` | ciat.py:51-53 | no integer is nearer to the argument than the rounded value |
| `Rounding.Round2` | ciat.py:51-53 | `round(x, 2)` is a whole number of cents within 0.005 of x, and at an exact half cent it is the one with an even number of cents |
| `Rounding.Round2KeepsCents` | ciat.py:51-53 | an amount already in whole cents is left unchanged |
| `Rounding.Round2Idempotent` | ciat.py:51-53 | rounding a rounded amount changes nothing |
| `History.MakeRecord` | ciat.py:47-54 | the record carries the given time, the "affordable" message when the verdict is affordable and the "not affordable" message otherwise, leftover and purchase rounded to cents by `round(x, 2)`, and Monthly EMI 0 without EMI and the installment rounded to cents with EMI |
| `History.Session.constructor` | ciat.py:27 | a new session has no history key |
| `History.Session.InitHistory` | ciat.py:27-28 | the history becomes the empty list only when absent; an existing history is left as it is |
| `History.Session.CheckAffordability` | ciat.py:31-54 | returns the evaluation; on success exactly one record, the one built from this evaluation, is appended at the end and all earlier records are unchanged; on failure the history is unchanged |
| `History.Session.ClearHistory` | ciat.py:77-78 | the history becomes the empty list |
| `History.ExampleSession` | ciat.py:27-78 | initialise, one successful evaluation (one record), re-initialise (record kept), one failing evaluation (nothing appended), clear (empty) |

## Left out

- The Streamlit page, widgets, headings, messages shown on the page and
  `st.experimental_rerun` (ciat.py:8-24, 44-45, 79): user interface. Only
  the widgets' bounds are kept, as the `WellFormed` precondition.
- The bar/pie chart (ciat.py:57-66): presentation only.
- The history table, the CSV encoding and the download button
  (ciat.py:69-75): pandas' formatting is not part of this model. The
  "Clear History" button is shown only when the history is non-empty
  (ciat.py:70); `ClearHistory` does not require it, since clearing an
  empty list also yields the empty list.
- The time stamp (`datetime.now()`, ciat.py:47): it is a parameter of
  `CheckAffordability`, an opaque string.
- Binary floating point: all amounts are exact reals and `math.pow` is an
  exact integer power, so float rounding, overflow to infinity and a rate
  so small that `1 + r` rounds to 1.0 are not modelled.
- Affordability.Evaluate: does not model the second exception path of
  ciat.py:37, where `math.pow(1 + r, emi_months)` raises OverflowError
  once `(1+r)^n` exceeds the largest float (for example 12 % a year over
  100000 months; the widgets at ciat.py:21-22 set no maximum). The run
  then aborts and appends no record; the model instead returns Success
  there, and `History.Session.CheckAffordability` appends a record.
- Rounding.Round2: models `round(x, 2)` on the exact decimal value;
  Python rounds the binary float, so values whose float lies just below or
  above a half cent may round the other way.
