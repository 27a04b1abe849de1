/** The cash-flow forecast: month-by-month totals with a running balance,
    the deficit warning built on it, and the day-level event timeline. */
module Forecast {
  import opened Wrappers
  import opened Dates
  import opened Sorting
  import opened Loans
  import opened Items

  datatype PaymentDetail = PaymentDetail(loanName: string, platform: Option<string>, amount: int, paymentDay: Option<int>)

  /** One month of the forecast; `month` is the month's index (MonthIndex). */
  datatype MonthForecast = MonthForecast(
    month: int,
    startBalance: int,
    income: int,
    expense: int,
    payment: int,
    paymentDetails: seq<PaymentDetail>,
    surplus: int,
    endBalance: int,
    isDeficit: bool)

  /** Every loan's payoff date can be computed (none of them throws). */
  predicate PayoffsDefined(loans: seq<Loan>, today: Date)
    requires ValidDate(today)
  {
    forall k :: 0 <= k < |loans| ==> PayoffDate(loans[k], today).Ok?
  }

  /** A loan pays in a month iff it has a payoff date and the month is not
      after the payoff month. */
  predicate PaysIn(loan: Loan, today: Date, month: int)
    requires ValidDate(today) && PayoffDate(loan, today).Ok?
  {
    var p := PayoffDate(loan, today).value;
    p.Some? && month <= MonthIndex(p.value)
  }

  /** The summed monthly payments of the loans paying in `month`. */
  function MonthPayment(loans: seq<Loan>, today: Date, month: int): int
    requires ValidDate(today) && PayoffsDefined(loans, today)
  {
    if loans == [] then 0
    else
      var last := loans[|loans| - 1];
      MonthPayment(loans[..|loans| - 1], today, month) + (if PaysIn(last, today, month) then last.monthlyPayment.value else 0)
  }

  /** The paying loans of `month`, in loan order. */
  function PaymentDetails(loans: seq<Loan>, today: Date, month: int): seq<PaymentDetail>
    requires ValidDate(today) && PayoffsDefined(loans, today)
  {
    if loans == [] then []
    else
      var last := loans[|loans| - 1];
      PaymentDetails(loans[..|loans| - 1], today, month)
      + (if PaysIn(last, today, month)
         then [PaymentDetail(last.loanName, last.platform, last.monthlyPayment.value, last.paymentDay)]
         else [])
  }

  function DetailAmount(d: PaymentDetail): int { d.amount }

  function Surplus(m: MonthForecast): int { m.surplus }

  /** The forecast rows for months i .. n-1 after today's month, the first
      one opening with `start`. */
  function ForecastFrom(loans: seq<Loan>, incomes: seq<Income>, expenses: seq<Expense>, today: Date,
                        i: int, n: int, start: int): seq<MonthForecast>
    requires ValidDate(today) && PayoffsDefined(loans, today)
    decreases n - i
  {
    if i >= n then []
    else
      var month := MonthIndex(today) + i;
      var income := IncomeTotal(incomes);
      var expense := ExpenseTotal(expenses);
      var payment := MonthPayment(loans, today, month);
      var surplus := income - expense - payment;
      [MonthForecast(month, start, income, expense, payment, PaymentDetails(loans, today, month),
                     surplus, start + surplus, start + surplus < 0)]
      + ForecastFrom(loans, incomes, expenses, today, i + 1, n, start + surplus)
  }

  /** `forecastCashFlow(months)`. `None` is the exception a throwing payoff
      date raises. */
  function CashFlowForecast(loans: seq<Loan>, incomes: seq<Income>, expenses: seq<Expense>, today: Date, months: int)
    : Option<seq<MonthForecast>>
    requires ValidDate(today)
  {
    if months <= 0 then Some([])
    else if !PayoffsDefined(loans, today) then None
    else Some(ForecastFrom(loans, incomes, expenses, today, 0, months, 0))
  }

  method ForecastCashFlow(loans: seq<Loan>, incomes: seq<Income>, expenses: seq<Expense>, today: Date, months: int)
    returns (r: Option<seq<MonthForecast>>)
    requires ValidDate(today)
    ensures r == CashFlowForecast(loans, incomes, expenses, today, months)
  {
    var forecast: seq<MonthForecast> := [];
    var currentMonth := MonthIndex(today);
    var cumulativeBalance := 0;
    var i := 0;
    while i < months
      invariant 0 <= i && (months > 0 ==> i <= months)
      invariant i == 0 ==> forecast == [] && cumulativeBalance == 0
      invariant i > 0 ==> PayoffsDefined(loans, today)
      invariant i > 0 ==> ForecastFrom(loans, incomes, expenses, today, 0, months, 0)
                          == forecast + ForecastFrom(loans, incomes, expenses, today, i, months, cumulativeBalance)
    {
      var month := currentMonth + i;
      var monthlyIncome := IncomeTotal(incomes);
      var monthlyExpense := ExpenseTotal(expenses);
      var payments := MonthPayments(loans, today, month);
      if payments.None? {
        return None;
      }
      var (monthlyPayment, paymentDetails) := payments.value;
      var surplus := monthlyIncome - monthlyExpense - monthlyPayment;
      var monthData := MonthForecast(month, cumulativeBalance, monthlyIncome, monthlyExpense, monthlyPayment,
                                     paymentDetails, surplus, cumulativeBalance + surplus, cumulativeBalance + surplus < 0);
      ForecastStep(loans, incomes, expenses, today, i, months, cumulativeBalance, forecast);
      cumulativeBalance := cumulativeBalance + surplus;
      forecast := forecast + [monthData];
      i := i + 1;
    }
    if months > 0 {
      assert ForecastFrom(loans, incomes, expenses, today, i, months, cumulativeBalance) == [];
      assert forecast + [] == forecast;
    }
    return Some(forecast);
  }

  /** The loan loop of one forecast month: the payment total and the paying
      loans, or `None` when some payoff date throws. */
  method MonthPayments(loans: seq<Loan>, today: Date, month: int) returns (r: Option<(int, seq<PaymentDetail>)>)
    requires ValidDate(today)
    ensures r.Some? <==> PayoffsDefined(loans, today)
    ensures r.Some? ==> r.value == (MonthPayment(loans, today, month), PaymentDetails(loans, today, month))
  {
    var monthlyPayment := 0;
    var paymentDetails: seq<PaymentDetail> := [];
    var j := 0;
    while j < |loans|
      invariant 0 <= j <= |loans|
      invariant PayoffsDefined(loans[..j], today)
      invariant monthlyPayment == MonthPayment(loans[..j], today, month)
      invariant paymentDetails == PaymentDetails(loans[..j], today, month)
    {
      var loan := loans[j];
      var payoffDate := PayoffDate(loan, today);
      if payoffDate.Err? {
        return None;
      }
      assert loans[..j + 1][..j] == loans[..j];
      if payoffDate.value.Some? && month <= MonthIndex(payoffDate.value.value) {
        monthlyPayment := monthlyPayment + loan.monthlyPayment.value;
        paymentDetails := paymentDetails + [PaymentDetail(loan.loanName, loan.platform, loan.monthlyPayment.value, loan.paymentDay)];
      }
      j := j + 1;
    }
    assert loans[..|loans|] == loans;
    return Some((monthlyPayment, paymentDetails));
  }

  lemma ForecastFromUnfold(loans: seq<Loan>, incomes: seq<Income>, expenses: seq<Expense>, today: Date,
                           i: int, n: int, start: int)
    requires ValidDate(today) && PayoffsDefined(loans, today) && i < n
    ensures var month := MonthIndex(today) + i;
      var surplus := IncomeTotal(incomes) - ExpenseTotal(expenses) - MonthPayment(loans, today, month);
      ForecastFrom(loans, incomes, expenses, today, i, n, start)
      == [MonthForecast(month, start, IncomeTotal(incomes), ExpenseTotal(expenses), MonthPayment(loans, today, month),
                        PaymentDetails(loans, today, month), surplus, start + surplus, start + surplus < 0)]
         + ForecastFrom(loans, incomes, expenses, today, i + 1, n, start + surplus)
  {
  }

  /** One turn of the month loop moves the next row from the pending rows
      to the finished ones. */
  lemma ForecastStep(loans: seq<Loan>, incomes: seq<Income>, expenses: seq<Expense>, today: Date,
                     i: int, n: int, start: int, done: seq<MonthForecast>)
    requires ValidDate(today) && PayoffsDefined(loans, today) && i < n
    ensures var month := MonthIndex(today) + i;
      var surplus := IncomeTotal(incomes) - ExpenseTotal(expenses) - MonthPayment(loans, today, month);
      done + ForecastFrom(loans, incomes, expenses, today, i, n, start)
      == (done + [MonthForecast(month, start, IncomeTotal(incomes), ExpenseTotal(expenses), MonthPayment(loans, today, month),
                                PaymentDetails(loans, today, month), surplus, start + surplus, start + surplus < 0)])
         + ForecastFrom(loans, incomes, expenses, today, i + 1, n, start + surplus)
  {
    ForecastFromUnfold(loans, incomes, expenses, today, i, n, start);
  }

  /** Element k of ForecastFrom: its month, totals and balances. */
  lemma {:induction false} ForecastFromAt(loans: seq<Loan>, incomes: seq<Income>, expenses: seq<Expense>, today: Date,
                                          i: int, n: int, start: int, k: int)
    requires ValidDate(today) && PayoffsDefined(loans, today)
    requires 0 <= k < n - i
    ensures var f := ForecastFrom(loans, incomes, expenses, today, i, n, start);
      |f| == n - i
      && f[k].month == MonthIndex(today) + i + k
      && f[k].income == IncomeTotal(incomes)
      && f[k].expense == ExpenseTotal(expenses)
      && f[k].payment == MonthPayment(loans, today, f[k].month)
      && f[k].paymentDetails == PaymentDetails(loans, today, f[k].month)
      && f[k].surplus == f[k].income - f[k].expense - f[k].payment
      && f[k].endBalance == f[k].startBalance + f[k].surplus
      && (f[k].isDeficit <==> f[k].endBalance < 0)
      && (k == 0 ==> f[k].startBalance == start)
      && (k + 1 < n - i ==> f[k + 1].startBalance == f[k].endBalance)
    decreases n - i
  {
    var f := ForecastFrom(loans, incomes, expenses, today, i, n, start);
    var g := ForecastFrom(loans, incomes, expenses, today, i + 1, n, f[0].endBalance);
    assert f == [f[0]] + g;
    if k == 0 {
      if n - i > 1 {
        ForecastFromAt(loans, incomes, expenses, today, i + 1, n, f[0].endBalance, 0);
      } else {
        ForecastFromLength(loans, incomes, expenses, today, i + 1, n, f[0].endBalance);
      }
    } else {
      ForecastFromAt(loans, incomes, expenses, today, i + 1, n, f[0].endBalance, k - 1);
    }
  }

  lemma {:induction false} ForecastFromLength(loans: seq<Loan>, incomes: seq<Income>, expenses: seq<Expense>, today: Date,
                                              i: int, n: int, start: int)
    requires ValidDate(today) && PayoffsDefined(loans, today)
    ensures |ForecastFrom(loans, incomes, expenses, today, i, n, start)| == if i < n then n - i else 0
    decreases n - i
  {
    if i < n {
      var f := ForecastFrom(loans, incomes, expenses, today, i, n, start);
      ForecastFromLength(loans, incomes, expenses, today, i + 1, n, f[0].endBalance);
    }
  }

  /** The forecast has one row per requested month, for consecutive months
      from the current one, with the same income and expense totals in each;
      it fails exactly when some loan's payoff date throws. */
  lemma ForecastShape(loans: seq<Loan>, incomes: seq<Income>, expenses: seq<Expense>, today: Date, months: int)
    requires ValidDate(today)
    ensures var r := CashFlowForecast(loans, incomes, expenses, today, months);
      (r.None? <==> months > 0 && exists k :: 0 <= k < |loans| && PayoffDate(loans[k], today).Err?)
      && (r.Some? ==>
            |r.value| == (if months > 0 then months else 0)
            && forall k :: 0 <= k < |r.value| ==>
                 r.value[k].month == MonthIndex(today) + k
                 && r.value[k].income == IncomeTotal(incomes)
                 && r.value[k].expense == ExpenseTotal(expenses))
  {
    var r := CashFlowForecast(loans, incomes, expenses, today, months);
    if months > 0 && PayoffsDefined(loans, today) {
      ForecastFromLength(loans, incomes, expenses, today, 0, months, 0);
      forall k | 0 <= k < months
        ensures r.value[k].month == MonthIndex(today) + k
        ensures r.value[k].income == IncomeTotal(incomes) && r.value[k].expense == ExpenseTotal(expenses)
      {
        ForecastFromAt(loans, incomes, expenses, today, 0, months, 0, k);
      }
    }
  }

  /** The running balance: the first month opens at 0, each month closes at
      its opening plus its surplus, the next month opens where the previous
      closed, and so every closing balance is the sum of the surpluses so far.
      A month is a deficit month iff its closing balance is negative. */
  lemma RunningBalance(loans: seq<Loan>, incomes: seq<Income>, expenses: seq<Expense>, today: Date, months: int)
    requires ValidDate(today)
    requires CashFlowForecast(loans, incomes, expenses, today, months).Some?
    ensures var f := CashFlowForecast(loans, incomes, expenses, today, months).value;
      (|f| > 0 ==> f[0].startBalance == 0)
      && (forall k :: 0 <= k < |f| ==>
            f[k].surplus == f[k].income - f[k].expense - f[k].payment
            && f[k].endBalance == f[k].startBalance + f[k].surplus
            && (f[k].isDeficit <==> f[k].endBalance < 0)
            && f[k].endBalance == SumOf(f[..k + 1], Surplus))
      && (forall k :: 0 <= k < |f| - 1 ==> f[k + 1].startBalance == f[k].endBalance)
  {
    var f := CashFlowForecast(loans, incomes, expenses, today, months).value;
    if months > 0 {
      ForecastFromLength(loans, incomes, expenses, today, 0, months, 0);
      forall k | 0 <= k < |f|
        ensures f[k].surplus == f[k].income - f[k].expense - f[k].payment
        ensures f[k].endBalance == f[k].startBalance + f[k].surplus
        ensures f[k].isDeficit <==> f[k].endBalance < 0
        ensures k == 0 ==> f[k].startBalance == 0
        ensures k < |f| - 1 ==> f[k + 1].startBalance == f[k].endBalance
      {
        ForecastFromAt(loans, incomes, expenses, today, 0, months, 0, k);
      }
      forall k | 0 <= k < |f| ensures f[k].endBalance == SumOf(f[..k + 1], Surplus) {
        CumulativeSurplus(f, k);
      }
    }
  }

  lemma {:induction false} CumulativeSurplus(f: seq<MonthForecast>, k: int)
    requires 0 <= k < |f|
    requires |f| > 0 ==> f[0].startBalance == 0
    requires forall j :: 0 <= j < |f| ==> f[j].endBalance == f[j].startBalance + f[j].surplus
    requires forall j :: 0 <= j < |f| - 1 ==> f[j + 1].startBalance == f[j].endBalance
    ensures f[k].endBalance == SumOf(f[..k + 1], Surplus)
    decreases k
  {
    assert f[..k + 1][..k] == f[..k];
    if k == 0 {
      assert f[..k] == [];
    } else {
      CumulativeSurplus(f, k - 1);
    }
  }

  /** Each month's payment is the sum of the amounts in its payment details. */
  lemma {:induction false} PaymentIsSumOfDetails(loans: seq<Loan>, today: Date, month: int)
    requires ValidDate(today) && PayoffsDefined(loans, today)
    ensures MonthPayment(loans, today, month) == SumOf(PaymentDetails(loans, today, month), DetailAmount)
  {
    if loans != [] {
      var init := loans[..|loans| - 1];
      PaymentIsSumOfDetails(init, today, month);
      SumOfAppend(PaymentDetails(init, today, month),
                  PaymentDetails(loans, today, month)[|PaymentDetails(init, today, month)|..], DetailAmount);
      assert PaymentDetails(loans, today, month)
          == PaymentDetails(init, today, month) + PaymentDetails(loans, today, month)[|PaymentDetails(init, today, month)|..];
    }
  }

  /** Paying loans only drop out as the months advance: a loan paying in a
      later month also pays in every earlier one, so the payment total and
      the number of details never grow. A loan with no payoff date never
      pays. */
  lemma {:induction false} PaymentsShrink(loans: seq<Loan>, today: Date, m1: int, m2: int)
    requires ValidDate(today) && PayoffsDefined(loans, today)
    requires m1 <= m2
    ensures forall k :: 0 <= k < |loans| && PaysIn(loans[k], today, m2) ==> PaysIn(loans[k], today, m1)
    ensures forall k :: 0 <= k < |loans| && PayoffDate(loans[k], today) == Ok(None) ==> !PaysIn(loans[k], today, m1)
    ensures MonthPayment(loans, today, m2) <= MonthPayment(loans, today, m1)
    ensures |PaymentDetails(loans, today, m2)| <= |PaymentDetails(loans, today, m1)|
  {
    if loans != [] {
      var last := loans[|loans| - 1];
      PaymentsShrink(loans[..|loans| - 1], today, m1, m2);
      if PaysIn(last, today, m1) {
        PayoffNeedsMonthlyPayment(last, today);
      }
    }
  }

  /** The deficit report of `detectDeficit`; `firstDeficitMonth` is the month
      index of the first deficit month. */
  datatype DeficitReport = DeficitReport(hasDeficit: bool, deficitMonths: seq<MonthForecast>, firstDeficitMonth: Option<int>)

  /** The deficit months of a forecast, in order. */
  function DeficitMonths(f: seq<MonthForecast>): seq<MonthForecast>
  {
    if f == [] then []
    else DeficitMonths(f[..|f| - 1]) + (if f[|f| - 1].isDeficit then [f[|f| - 1]] else [])
  }

  function ReportOf(f: seq<MonthForecast>): DeficitReport
  {
    var d := DeficitMonths(f);
    DeficitReport(d != [], d, if d != [] then Some(d[0].month) else None)
  }

  function DeficitReportFor(loans: seq<Loan>, incomes: seq<Income>, expenses: seq<Expense>, today: Date, months: int)
    : Option<DeficitReport>
    requires ValidDate(today)
  {
    match CashFlowForecast(loans, incomes, expenses, today, months)
    case None => None
    case Some(f) => Some(ReportOf(f))
  }

  /** `detectDeficit(months)` */
  method DetectDeficit(loans: seq<Loan>, incomes: seq<Income>, expenses: seq<Expense>, today: Date, months: int)
    returns (r: Option<DeficitReport>)
    requires ValidDate(today)
    ensures r == DeficitReportFor(loans, incomes, expenses, today, months)
  {
    var forecast := ForecastCashFlow(loans, incomes, expenses, today, months);
    if forecast.None? {
      return None;
    }
    var f := forecast.value;
    var deficitMonths: seq<MonthForecast> := [];
    var i := 0;
    while i < |f|
      invariant 0 <= i <= |f|
      invariant deficitMonths == DeficitMonths(f[..i])
    {
      assert f[..i + 1][..i] == f[..i];
      if f[i].isDeficit {
        deficitMonths := deficitMonths + [f[i]];
      }
      i := i + 1;
    }
    assert f[..|f|] == f;
    var first := if deficitMonths != [] then Some(deficitMonths[0].month) else None;
    return Some(DeficitReport(deficitMonths != [], deficitMonths, first));
  }

  /** The deficit list holds exactly the deficit months, and the first of them
      is the earliest deficit month of the forecast. */
  lemma DeficitMonthsExact(f: seq<MonthForecast>)
    ensures forall m :: m in DeficitMonths(f) <==> m in f && m.isDeficit
    ensures DeficitMonths(f) != [] <==> exists k :: 0 <= k < |f| && f[k].isDeficit
    ensures DeficitMonths(f) != [] ==>
      exists k :: 0 <= k < |f| && f[k].isDeficit && DeficitMonths(f)[0] == f[k]
                  && forall j :: 0 <= j < k ==> !f[j].isDeficit
  {
    DeficitMonthsMembers(f);
    DeficitMonthsFirst(f);
    if exists k :: 0 <= k < |f| && f[k].isDeficit {
      var k :| 0 <= k < |f| && f[k].isDeficit;
      assert f[k] in DeficitMonths(f);
    }
  }

  lemma {:induction false} DeficitMonthsMembers(f: seq<MonthForecast>)
    ensures forall m :: m in DeficitMonths(f) <==> m in f && m.isDeficit
  {
    if f != [] {
      var init := f[..|f| - 1];
      DeficitMonthsMembers(init);
      assert f == init + [f[|f| - 1]];
    }
  }

  lemma {:induction false} DeficitMonthsFirst(f: seq<MonthForecast>)
    ensures DeficitMonths(f) != [] ==>
      exists k :: 0 <= k < |f| && f[k].isDeficit && DeficitMonths(f)[0] == f[k]
                  && forall j :: 0 <= j < k ==> !f[j].isDeficit
  {
    if f != [] {
      var init := f[..|f| - 1];
      var last := f[|f| - 1];
      DeficitMonthsFirst(init);
      if DeficitMonths(init) != [] {
        var k :| 0 <= k < |init| && init[k].isDeficit && DeficitMonths(init)[0] == init[k]
                  && forall j :: 0 <= j < k ==> !init[j].isDeficit;
        assert f[k] == init[k];
        forall j | 0 <= j < k ensures !f[j].isDeficit {
          assert f[j] == init[j];
        }
      } else if last.isDeficit {
        DeficitMonthsMembers(init);
        forall j | 0 <= j < |f| - 1 ensures !f[j].isDeficit {
          assert f[j] == init[j] && init[j] in init;
        }
        assert DeficitMonths(f)[0] == f[|f| - 1];
      }
    }
  }

  lemma DeficitReportFacts(f: seq<MonthForecast>)
    ensures var r := ReportOf(f);
      (r.hasDeficit <==> exists k :: 0 <= k < |f| && f[k].isDeficit)
      && (forall m :: m in r.deficitMonths <==> m in f && m.isDeficit)
      && (r.firstDeficitMonth.Some? ==>
            exists k :: 0 <= k < |f| && f[k].isDeficit && f[k].month == r.firstDeficitMonth.value
                        && forall j :: 0 <= j < k ==> !f[j].isDeficit)
  {
    DeficitMonthsExact(f);
  }

  // ---- Event timeline ----

  datatype EventKind = IncomeEvent | ExpenseEvent | PaymentEvent

  datatype TimelineEvent = TimelineEvent(date: Date, kind: EventKind, amount: int, source: string)

  function EventKey(e: TimelineEvent): int { Ord(e.date) }

  /** The dates the timeline loop visits: from `date`, one month at a time
      (each step clamped, so the day can drift down), while before `end`. */
  function Steps(date: Date, end: Date): (r: seq<Date>)
    requires ValidDate(date) && ValidDate(end)
    ensures forall k :: 0 <= k < |r| ==> ValidDate(r[k]) && Before(r[k], end)
    ensures |r| > 0 ==> r[0] == date
    decreases MonthIndex(end) - MonthIndex(date) + 1
  {
    if Before(date, end) then [date] + Steps(PlusMonths(date, 1), end) else []
  }

  predicate IncomeDaysFit(incomes: seq<Income>, date: Date)
    requires ValidMonth(date)
  {
    forall k :: 0 <= k < |incomes| ==> 1 <= incomes[k].incomeDay <= LengthOfMonth(date)
  }

  predicate ExpenseDaysFit(expenses: seq<Expense>, date: Date)
    requires ValidMonth(date)
  {
    forall k :: 0 <= k < |expenses| ==> 1 <= expenses[k].expenseDay <= LengthOfMonth(date)
  }

  /** A loan emits a payment at step `date` iff it has a payoff date and the
      step is not after it. */
  predicate Emits(loan: Loan, today: Date, date: Date)
    requires ValidDate(today) && PayoffDate(loan, today).Ok?
  {
    var p := PayoffDate(loan, today).value;
    p.Some? && NotAfter(date, p.value)
  }

  /** The loan's part of the step does not throw. */
  predicate LoanStepDefined(loan: Loan, today: Date, date: Date)
    requires ValidDate(today) && ValidMonth(date)
  {
    PayoffDate(loan, today).Ok?
    && (Emits(loan, today, date) ==> loan.paymentDay.Some? && 1 <= loan.paymentDay.value <= LengthOfMonth(date))
  }

  predicate StepDefined(loans: seq<Loan>, incomes: seq<Income>, expenses: seq<Expense>, today: Date, date: Date)
    requires ValidDate(today) && ValidMonth(date)
  {
    IncomeDaysFit(incomes, date) && ExpenseDaysFit(expenses, date)
    && forall k :: 0 <= k < |loans| ==> LoanStepDefined(loans[k], today, date)
  }

  function IncomeEvents(incomes: seq<Income>, date: Date): seq<TimelineEvent>
    requires ValidMonth(date) && IncomeDaysFit(incomes, date)
  {
    if incomes == [] then []
    else
      var x := incomes[|incomes| - 1];
      IncomeEvents(incomes[..|incomes| - 1], date)
      + [TimelineEvent(WithDayOfMonth(date, x.incomeDay).value, IncomeEvent, x.amount, x.incomeType)]
  }

  function ExpenseEvents(expenses: seq<Expense>, date: Date): seq<TimelineEvent>
    requires ValidMonth(date) && ExpenseDaysFit(expenses, date)
  {
    if expenses == [] then []
    else
      var x := expenses[|expenses| - 1];
      ExpenseEvents(expenses[..|expenses| - 1], date)
      + [TimelineEvent(WithDayOfMonth(date, x.expenseDay).value, ExpenseEvent, x.amount, x.expenseName)]
  }

  function PaymentEvents(loans: seq<Loan>, today: Date, date: Date): seq<TimelineEvent>
    requires ValidDate(today) && ValidMonth(date)
    requires forall k :: 0 <= k < |loans| ==> LoanStepDefined(loans[k], today, date)
  {
    if loans == [] then []
    else
      var x := loans[|loans| - 1];
      assert LoanStepDefined(x, today, date);
      PaymentEvents(loans[..|loans| - 1], today, date) + LoanEvents(x, today, date)
  }

  /** One loan's part of a step: its payment event, if it still pays. */
  function LoanEvents(loan: Loan, today: Date, date: Date): seq<TimelineEvent>
    requires ValidDate(today) && ValidMonth(date) && LoanStepDefined(loan, today, date)
  {
    if Emits(loan, today, date)
    then [TimelineEvent(WithDayOfMonth(date, loan.paymentDay.value).value, PaymentEvent, loan.monthlyPayment.value, loan.loanName)]
    else []
  }

  function StepEvents(loans: seq<Loan>, incomes: seq<Income>, expenses: seq<Expense>, today: Date, date: Date)
    : seq<TimelineEvent>
    requires ValidDate(today) && ValidMonth(date) && StepDefined(loans, incomes, expenses, today, date)
  {
    IncomeEvents(incomes, date) + ExpenseEvents(expenses, date) + PaymentEvents(loans, today, date)
  }

  predicate StepsDefined(loans: seq<Loan>, incomes: seq<Income>, expenses: seq<Expense>, today: Date, steps: seq<Date>)
    requires ValidDate(today)
  {
    forall k :: 0 <= k < |steps| ==> ValidDate(steps[k]) && StepDefined(loans, incomes, expenses, today, steps[k])
  }

  /** The events of the visited steps, in generation order. */
  function EventsOf(loans: seq<Loan>, incomes: seq<Income>, expenses: seq<Expense>, today: Date, steps: seq<Date>)
    : seq<TimelineEvent>
    requires ValidDate(today) && StepsDefined(loans, incomes, expenses, today, steps)
  {
    if steps == [] then []
    else EventsOf(loans, incomes, expenses, today, steps[..|steps| - 1])
         + StepEvents(loans, incomes, expenses, today, steps[|steps| - 1])
  }

  /** `generateEventTimeline(months)`: `None` is an exception from an
      impossible day of month, a missing payment day or a throwing payoff
      date. */
  function EventTimeline(loans: seq<Loan>, incomes: seq<Income>, expenses: seq<Expense>, today: Date, months: int)
    : Option<seq<TimelineEvent>>
    requires ValidDate(today)
  {
    var steps := Steps(today, PlusMonths(today, months));
    if StepsDefined(loans, incomes, expenses, today, steps)
    then Some(SortBy(EventsOf(loans, incomes, expenses, today, steps), EventKey))
    else None
  }

  method GenerateEventTimeline(loans: seq<Loan>, incomes: seq<Income>, expenses: seq<Expense>, today: Date, months: int)
    returns (r: Option<seq<TimelineEvent>>)
    requires ValidDate(today)
    ensures r == EventTimeline(loans, incomes, expenses, today, months)
  {
    var events: seq<TimelineEvent> := [];
    var startDate := today;
    var endDate := PlusMonths(startDate, months);
    ghost var visited: seq<Date> := [];
    var date := startDate;
    while Before(date, endDate)
      invariant ValidDate(date)
      invariant Steps(today, endDate) == visited + Steps(date, endDate)
      invariant StepsDefined(loans, incomes, expenses, today, visited)
      invariant events == EventsOf(loans, incomes, expenses, today, visited)
      decreases MonthIndex(endDate) - MonthIndex(date) + 1
    {
      var stepEvents := AddStepEvents(loans, incomes, expenses, today, date);
      if stepEvents.None? {
        StepFailure(loans, incomes, expenses, today, visited, date, endDate);
        return None;
      }
      StepSuccess(loans, incomes, expenses, today, visited, date);
      StepsAdvance(today, endDate, visited, date);
      events := events + stepEvents.value;
      visited := visited + [date];
      date := PlusMonths(date, 1);
    }
    StepsDone(today, endDate, visited, date);
    events := SortBy(events, EventKey);
    return Some(events);
  }

  /** The body of the month loop: the income, expense and loan loops of
      one step, in that order. */
  method AddStepEvents(loans: seq<Loan>, incomes: seq<Income>, expenses: seq<Expense>, today: Date, date: Date)
    returns (r: Option<seq<TimelineEvent>>)
    requires ValidDate(today) && ValidDate(date)
    ensures r.Some? <==> StepDefined(loans, incomes, expenses, today, date)
    ensures r.Some? ==> r.value == StepEvents(loans, incomes, expenses, today, date)
  {
    var incomeEvents := AddIncomeEvents(incomes, date);
    if incomeEvents.None? {
      return None;
    }
    var expenseEvents := AddExpenseEvents(expenses, date);
    if expenseEvents.None? {
      return None;
    }
    var paymentEvents := AddPaymentEvents(loans, today, date);
    if paymentEvents.None? {
      return None;
    }
    return Some(incomeEvents.value + expenseEvents.value + paymentEvents.value);
  }

  /** The income loop of one step; `None` is the exception of an income day
      the month does not have. */
  method AddIncomeEvents(incomes: seq<Income>, date: Date) returns (r: Option<seq<TimelineEvent>>)
    requires ValidDate(date)
    ensures r.Some? <==> IncomeDaysFit(incomes, date)
    ensures r.Some? ==> r.value == IncomeEvents(incomes, date)
  {
    var events: seq<TimelineEvent> := [];
    var j := 0;
    while j < |incomes|
      invariant 0 <= j <= |incomes|
      invariant IncomeDaysFit(incomes[..j], date)
      invariant events == IncomeEvents(incomes[..j], date)
    {
      var income := incomes[j];
      var d := WithDayOfMonth(date, income.incomeDay);
      if d.None? {
        return None;
      }
      assert incomes[..j + 1][..j] == incomes[..j];
      events := events + [TimelineEvent(d.value, IncomeEvent, income.amount, income.incomeType)];
      j := j + 1;
    }
    assert incomes[..|incomes|] == incomes;
    return Some(events);
  }

  /** The expense loop of one step. */
  method AddExpenseEvents(expenses: seq<Expense>, date: Date) returns (r: Option<seq<TimelineEvent>>)
    requires ValidDate(date)
    ensures r.Some? <==> ExpenseDaysFit(expenses, date)
    ensures r.Some? ==> r.value == ExpenseEvents(expenses, date)
  {
    var events: seq<TimelineEvent> := [];
    var j := 0;
    while j < |expenses|
      invariant 0 <= j <= |expenses|
      invariant ExpenseDaysFit(expenses[..j], date)
      invariant events == ExpenseEvents(expenses[..j], date)
    {
      var expense := expenses[j];
      var d := WithDayOfMonth(date, expense.expenseDay);
      if d.None? {
        return None;
      }
      assert expenses[..j + 1][..j] == expenses[..j];
      events := events + [TimelineEvent(d.value, ExpenseEvent, expense.amount, expense.expenseName)];
      j := j + 1;
    }
    assert expenses[..|expenses|] == expenses;
    return Some(events);
  }

  /** The loan loop of one step: a payment event for each loan whose payoff
      date is not before the step. */
  method AddPaymentEvents(loans: seq<Loan>, today: Date, date: Date) returns (r: Option<seq<TimelineEvent>>)
    requires ValidDate(today) && ValidDate(date)
    ensures r.Some? <==> forall k :: 0 <= k < |loans| ==> LoanStepDefined(loans[k], today, date)
    ensures r.Some? ==> r.value == PaymentEvents(loans, today, date)
  {
    var events: seq<TimelineEvent> := [];
    var j := 0;
    while j < |loans|
      invariant 0 <= j <= |loans|
      invariant forall k :: 0 <= k < j ==> LoanStepDefined(loans[k], today, date)
      invariant events == PaymentEvents(loans[..j], today, date)
    {
      var e := AddLoanEvent(loans[j], today, date);
      if e.None? {
        return None;
      }
      PaymentEventsStep(loans, j, today, date);
      events := events + e.value;
      j := j + 1;
    }
    assert loans[..|loans|] == loans;
    return Some(events);
  }

  lemma PaymentEventsStep(loans: seq<Loan>, j: int, today: Date, date: Date)
    requires ValidDate(today) && ValidMonth(date) && 0 <= j < |loans|
    requires forall k :: 0 <= k <= j ==> LoanStepDefined(loans[k], today, date)
    ensures PaymentEvents(loans[..j + 1], today, date) == PaymentEvents(loans[..j], today, date) + LoanEvents(loans[j], today, date)
  {
    assert loans[..j + 1][..j] == loans[..j];
  }

  /** One pass of the loan loop: `None` when the payoff date throws, or the
      loan still pays and has no payment day or one the month lacks. */
  method AddLoanEvent(loan: Loan, today: Date, date: Date) returns (r: Option<seq<TimelineEvent>>)
    requires ValidDate(today) && ValidDate(date)
    ensures r.Some? <==> LoanStepDefined(loan, today, date)
    ensures r.Some? ==> r.value == LoanEvents(loan, today, date)
  {
    var payoffDate := PayoffDate(loan, today);
    if payoffDate.Err? {
      return None;
    }
    if payoffDate.value.Some? && Before(date, PlusDay(payoffDate.value.value)) {
      if loan.paymentDay.None? {
        return None;
      }
      var d := WithDayOfMonth(date, loan.paymentDay.value);
      if d.None? {
        return None;
      }
      return Some([TimelineEvent(d.value, PaymentEvent, loan.monthlyPayment.value, loan.loanName)]);
    }
    return Some([]);
  }

  lemma StepsAdvance(today: Date, end: Date, visited: seq<Date>, date: Date)
    requires ValidDate(today) && ValidDate(date) && ValidDate(end) && Before(date, end)
    requires Steps(today, end) == visited + Steps(date, end)
    ensures ValidDate(PlusMonths(date, 1))
    ensures Steps(today, end) == (visited + [date]) + Steps(PlusMonths(date, 1), end)
  {
    var rest := Steps(PlusMonths(date, 1), end);
    assert Steps(date, end) == [date] + rest;
    assert visited + ([date] + rest) == (visited + [date]) + rest;
  }

  lemma StepsDone(today: Date, end: Date, visited: seq<Date>, date: Date)
    requires ValidDate(today) && ValidDate(date) && ValidDate(end) && !Before(date, end)
    requires Steps(today, end) == visited + Steps(date, end)
    ensures Steps(today, end) == visited
  {
    assert Steps(date, end) == [];
  }

  lemma StepFailure(loans: seq<Loan>, incomes: seq<Income>, expenses: seq<Expense>, today: Date,
                    visited: seq<Date>, date: Date, end: Date)
    requires ValidDate(today) && ValidDate(date) && ValidDate(end) && Before(date, end)
    requires Steps(today, end) == visited + Steps(date, end)
    requires !StepDefined(loans, incomes, expenses, today, date)
    ensures !StepsDefined(loans, incomes, expenses, today, Steps(today, end))
  {
    assert Steps(today, end)[|visited|] == date;
  }

  lemma StepSuccess(loans: seq<Loan>, incomes: seq<Income>, expenses: seq<Expense>, today: Date,
                    visited: seq<Date>, date: Date)
    requires ValidDate(today) && ValidDate(date)
    requires StepsDefined(loans, incomes, expenses, today, visited)
    requires StepDefined(loans, incomes, expenses, today, date)
    ensures StepsDefined(loans, incomes, expenses, today, visited + [date])
    ensures EventsOf(loans, incomes, expenses, today, visited + [date])
            == EventsOf(loans, incomes, expenses, today, visited) + StepEvents(loans, incomes, expenses, today, date)
  {
    assert (visited + [date])[..|visited|] == visited;
  }

  /** `d.plusDays(1)`, used only in the comparison `date < d + 1 day`, which
      for valid dates is `date <= d`. */
  function PlusDay(d: Date): (r: Date)
    requires ValidDate(d)
    ensures forall x :: ValidDate(x) ==> (Before(x, r) <==> NotAfter(x, d))
  {
    Date(d.year, d.month, d.day + 1)
  }

  /** The timeline is ordered by date and holds exactly the generated
      events; events on the same day keep their generation order. */
  lemma TimelineSorted(loans: seq<Loan>, incomes: seq<Income>, expenses: seq<Expense>, today: Date, months: int)
    requires ValidDate(today)
    requires EventTimeline(loans, incomes, expenses, today, months).Some?
    ensures var steps := Steps(today, PlusMonths(today, months));
      var t := EventTimeline(loans, incomes, expenses, today, months).value;
      SortedBy(t, EventKey)
      && multiset(t) == multiset(EventsOf(loans, incomes, expenses, today, steps))
      && forall k :: WithKey(t, EventKey, k) == WithKey(EventsOf(loans, incomes, expenses, today, steps), EventKey, k)
  {
    var steps := Steps(today, PlusMonths(today, months));
    var e := EventsOf(loans, incomes, expenses, today, steps);
    SortByFacts(e, EventKey);
    forall k ensures WithKey(SortBy(e, EventKey), EventKey, k) == WithKey(e, EventKey, k) {
      SortByStable(e, EventKey, k);
    }
  }

  /** Every payment event comes from a loan that has a payoff date and a
      step that is not after it, on that loan's payment day of the step's
      month, for that loan's monthly payment. */
  lemma {:induction false} PaymentEventsFromPayers(loans: seq<Loan>, today: Date, date: Date)
    requires ValidDate(today) && ValidMonth(date)
    requires forall k :: 0 <= k < |loans| ==> LoanStepDefined(loans[k], today, date)
    ensures forall e :: e in PaymentEvents(loans, today, date) ==>
      e.kind == PaymentEvent
      && exists l :: l in loans && PayoffDate(l, today).Ok? && Emits(l, today, date)
                     && e.source == l.loanName && l.monthlyPayment.Some? && e.amount == l.monthlyPayment.value
                     && l.paymentDay.Some? && e.date == Date(date.year, date.month, l.paymentDay.value)
  {
    if loans != [] {
      var init := loans[..|loans| - 1];
      var x := loans[|loans| - 1];
      PaymentEventsFromPayers(init, today, date);
      forall e | e in PaymentEvents(loans, today, date)
        ensures e.kind == PaymentEvent
        ensures exists l :: l in loans && PayoffDate(l, today).Ok? && Emits(l, today, date)
                     && e.source == l.loanName && l.monthlyPayment.Some? && e.amount == l.monthlyPayment.value
                     && l.paymentDay.Some? && e.date == Date(date.year, date.month, l.paymentDay.value)
      {
        if e in PaymentEvents(init, today, date) {
          var l :| l in init && PayoffDate(l, today).Ok? && Emits(l, today, date)
                     && e.source == l.loanName && l.monthlyPayment.Some? && e.amount == l.monthlyPayment.value
                     && l.paymentDay.Some? && e.date == Date(date.year, date.month, l.paymentDay.value);
          assert l in loans;
        } else {
          PayoffNeedsMonthlyPayment(x, today);
          assert x in loans;
        }
      }
    }
  }

  /** Month drift: from 31 January 2025 the loop visits 31 January,
      28 February and 28 March before 31 March, three months for `months = 2`. */
  lemma DriftExample()
    ensures Steps(Date(2025, 1, 31), PlusMonths(Date(2025, 1, 31), 2))
            == [Date(2025, 1, 31), Date(2025, 2, 28), Date(2025, 3, 28)]
  {
    var end := PlusMonths(Date(2025, 1, 31), 2);
    assert end == Date(2025, 3, 31);
    assert PlusMonths(Date(2025, 1, 31), 1) == Date(2025, 2, 28);
    assert PlusMonths(Date(2025, 2, 28), 1) == Date(2025, 3, 28);
    assert PlusMonths(Date(2025, 3, 28), 1) == Date(2025, 4, 28);
    assert Steps(Date(2025, 4, 28), end) == [];
  }

  /** Without clamping (a day of month up to 28) the loop visits exactly
      `months` months. */
  lemma {:induction false} StepsWithoutDrift(today: Date, i: int, months: int)
    requires ValidDate(today) && today.day <= 28 && 0 <= i <= months
    ensures |Steps(PlusMonths(today, i), PlusMonths(today, months))| == months - i
    decreases months - i
  {
    var d := PlusMonths(today, i);
    var end := PlusMonths(today, months);
    assert d.day == today.day && end.day == today.day;
    if i < months {
      EarlierMonthIsBefore(d, end);
      assert PlusMonths(d, 1) == PlusMonths(today, i + 1);
      StepsWithoutDrift(today, i + 1, months);
    } else {
      assert d == end;
    }
  }

  /** An income day that does not exist in the current month makes the whole
      timeline fail rather than skipping the item. */
  lemma InvalidIncomeDayFails(loans: seq<Loan>, incomes: seq<Income>, expenses: seq<Expense>, today: Date, months: int, k: int)
    requires ValidDate(today) && months >= 1
    requires 0 <= k < |incomes| && !(1 <= incomes[k].incomeDay <= LengthOfMonth(today))
    ensures EventTimeline(loans, incomes, expenses, today, months) == None
  {
    var end := PlusMonths(today, months);
    EarlierMonthIsBefore(today, end);
    var steps := Steps(today, end);
    assert steps[0] == today;
    assert !StepDefined(loans, incomes, expenses, today, today);
  }
}
