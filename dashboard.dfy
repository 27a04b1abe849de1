/** `DashboardService`: the monthly surplus and the months until every loan
    could be repaid from it. Monthly income and expense totals come from the
    income and expense services and are parameters here. */
module Dashboard {
  import opened Wrappers
  import opened Money
  import opened Loans
  import opened LoanLedger

  const IntMax: int := 0x7fff_ffff

  /** `intValue()`: the low 32 bits of an integer, read as two's complement. */
  function IntValue(x: int): (r: int)
    ensures -IntMax - 1 <= r <= IntMax
    ensures -IntMax - 1 <= x <= IntMax ==> r == x
  {
    (x + IntMax + 1) % 0x1_0000_0000 - IntMax - 1
  }

  /** The dashboard's monthly surplus: income less expense less the loan
      payments. */
  function MonthlySurplus(income: int, expense: int, payment: int): int
  {
    income - expense - payment
  }

  datatype Overview = Overview(monthlyFixedCost: int, surplus: int, monthsToFreedom: int)

  /** Months to repay `totalDebt` from a positive surplus, rounded up;
      -1 when there is no surplus. */
  function MonthsToFreedom(totalDebt: int, surplus: int): int
  {
    if surplus > 0 then IntValue(DivideUp(totalDebt, surplus)) else -1
  }

  /** `getFinancialOverview()` on the fetched totals. */
  function FinancialOverview(income: int, expense: int, payment: int, totalDebt: int): Overview
  {
    var fixedCost := expense + payment;
    var surplus := income - fixedCost;
    Overview(fixedCost, surplus, MonthsToFreedom(totalDebt, surplus))
  }

  /** The dashboard surplus over the loan table; `None` when the monthly
      payment total throws on a null monthly payment. */
  function DashboardSurplus(loans: seq<Loan>, income: int, expense: int): Option<int>
  {
    match MonthlyPaymentTotal(loans)
    case None => None
    case Some(payment) => Some(MonthlySurplus(income, expense, payment))
  }

  /** The overview over the loan table. */
  function FinancialOverviewOf(loans: seq<Loan>, income: int, expense: int): Option<Overview>
  {
    match MonthlyPaymentTotal(loans)
    case None => None
    case Some(payment) => Some(FinancialOverview(income, expense, payment, TotalDebt(loans)))
  }

  /** The overview's surplus is the dashboard's surplus, and the fixed cost
      is what separates it from income. */
  lemma SurplusAgrees(loans: seq<Loan>, income: int, expense: int)
    ensures DashboardSurplus(loans, income, expense).Some? <==> FinancialOverviewOf(loans, income, expense).Some?
    ensures FinancialOverviewOf(loans, income, expense).Some? ==>
      var o := FinancialOverviewOf(loans, income, expense).value;
      o.surplus == DashboardSurplus(loans, income, expense).value
      && o.surplus + o.monthlyFixedCost == income
      && o.monthlyFixedCost == expense + MonthlyPaymentTotal(loans).value
  {
  }

  /** Without a surplus the debt is never repaid (-1). With one, and a debt
      whose month count fits an `int`, the months found are the fewest that
      repay it: that many months' surplus covers the debt and one month fewer
      does not. */
  lemma MonthsToFreedomBounds(totalDebt: int, surplus: int)
    ensures surplus <= 0 ==> MonthsToFreedom(totalDebt, surplus) == -1
    ensures surplus > 0 && 0 < totalDebt <= IntMax * surplus ==>
      var m := MonthsToFreedom(totalDebt, surplus);
      1 <= m <= IntMax && m * surplus >= totalDebt && (m - 1) * surplus < totalDebt
    ensures surplus > 0 && totalDebt == 0 ==> MonthsToFreedom(totalDebt, surplus) == 0
  {
    if surplus > 0 && 0 < totalDebt <= IntMax * surplus {
      var q := DivideUp(totalDebt, surplus);
      DivideUpBounds(totalDebt, surplus);
      if q - 1 >= IntMax {
        MulMono(IntMax, q - 1, surplus);
      }
    }
  }

  /** The month count wraps past `Integer.MAX_VALUE`: a debt of 2^31 units
      against a surplus of 1 reports -2^31 months. */
  lemma MonthsToFreedomWraps()
    ensures MonthsToFreedom(IntMax + 1, 1) == -IntMax - 1
  {
  }
}
