/** The loan record and its two derived figures: the expected payoff date
    and the repaid percentage. */
module Loans {
  import opened Wrappers
  import opened Dates
  import opened Money

  /** A loan row. Money is in minor units; `None` is a SQL NULL. The
      timestamp `updatedAt` is kept as its calendar date. */
  datatype Loan = Loan(
    id: int,
    loanName: string,
    platform: Option<string>,
    totalAmount: Option<int>,
    remainingAmount: int,
    monthlyPayment: Option<int>,
    paymentDay: Option<int>,
    totalPeriods: Option<int>,
    paidPeriods: Option<int>,
    startDate: Option<Date>,
    status: Option<string>,
    note: string,
    updatedAt: Option<Date>)

  /** A row of the payment history. Its generated id is its position in the
      table plus one. */
  datatype PaymentHistory = PaymentHistory(
    loanId: int,
    paymentAmount: Option<int>,
    paymentDate: Date,
    isExtraPayment: bool,
    autoDeductBalance: bool,
    note: string)

  const Active: string := "active"
  const Completed: string := "completed"

  /** The thrown `DateTimeException` of an impossible day of month. */
  const InvalidDay: string := "invalid day of month"

  predicate IsActive(loan: Loan) { loan.status == Some(Active) }

  /** `findByStatus("active")`: the active rows in table order. */
  function ActiveLoans(loans: seq<Loan>): (r: seq<Loan>)
    ensures |r| <= |loans|
    ensures forall l :: l in r <==> l in loans && IsActive(l)
  {
    if loans == [] then []
    else ActiveLoans(loans[..|loans| - 1]) + (if IsActive(loans[|loans| - 1]) then [loans[|loans| - 1]] else [])
  }

  /** Periods left to pay, when both period counts are known. */
  function RemainingPeriods(loan: Loan): Option<int>
  {
    if loan.totalPeriods.Some? && loan.paidPeriods.Some? then Some(loan.totalPeriods.value - loan.paidPeriods.value)
    else None
  }

  /** The month the next instalment falls in: this month while the payment
      day has not passed, otherwise next month. */
  function DueBase(today: Date, paymentDay: int): Date
  {
    if today.day <= paymentDay then today else PlusMonths(today, 1)
  }

  /** The `count`-th instalment counted from DueBase, on the payment day
      clamped to the length of its month. */
  function NthDueDate(today: Date, paymentDay: int, count: int): Result<Date, string>
    requires ValidDate(today)
  {
    var payoffMonth := PlusMonths(DueBase(today, paymentDay), count - 1);
    match WithDayOfMonth(payoffMonth, Min(paymentDay, LengthOfMonth(payoffMonth)))
    case Some(d) => Ok(d)
    case None => Err(InvalidDay)
  }

  /** What NthDueDate yields: a valid date in the expected month, never
      before today, on the payment day whenever that day exists. */
  lemma NthDueDateFacts(today: Date, paymentDay: int, count: int)
    requires ValidDate(today)
    ensures NthDueDate(today, paymentDay, count).Ok? <==> paymentDay >= 1
    ensures paymentDay >= 1 ==>
      var d := NthDueDate(today, paymentDay, count).value;
      ValidDate(d)
      && MonthIndex(d) == MonthIndex(today) + count - 1 + (if today.day <= paymentDay then 0 else 1)
      && d.day == Min(paymentDay, DaysInMonth(d.year, d.month))
      && (paymentDay <= DaysInMonth(d.year, d.month) ==> d.day == paymentDay)
      && (count >= 1 ==> !Before(d, today))
  {
    if paymentDay >= 1 {
      var d := NthDueDate(today, paymentDay, count).value;
      if count >= 1 && today.day > paymentDay {
        EarlierMonthIsBefore(today, d);
      }
    }
  }

  /** `Loan.calculatePayoffDate()` with `LocalDate.now()` given as `today`.
      `Ok(None)` is a null result; `Err` is the exception `withDayOfMonth`
      throws for a payment day below 1. */
  function PayoffDate(loan: Loan, today: Date): Result<Option<Date>, string>
    requires ValidDate(today)
  {
    if loan.monthlyPayment.None? || loan.monthlyPayment.value <= 0 then Ok(None)
    else if loan.totalPeriods.Some? && loan.paidPeriods.Some? && loan.paymentDay.Some? then
      var remainingPeriods := loan.totalPeriods.value - loan.paidPeriods.value;
      if remainingPeriods <= 0 then Ok(None)
      else match NthDueDate(today, loan.paymentDay.value, remainingPeriods)
        case Ok(d) => Ok(Some(d))
        case Err(e) => Err(e)
    else
      var remainingMonths := DivideUp(loan.remainingAmount, loan.monthlyPayment.value);
      if remainingMonths <= 0 then Ok(None)
      else if loan.paymentDay.Some? then
        match NthDueDate(today, loan.paymentDay.value, remainingMonths)
        case Ok(d) => Ok(Some(d))
        case Err(e) => Err(e)
      else Ok(Some(PlusMonths(today, remainingMonths)))
  }

  /** Without a positive monthly payment there is no payoff date. */
  lemma PayoffNeedsMonthlyPayment(loan: Loan, today: Date)
    requires ValidDate(today)
    requires PayoffDate(loan, today).Ok? && PayoffDate(loan, today).value.Some?
    ensures loan.monthlyPayment.Some? && loan.monthlyPayment.value > 0
  {
  }

  /** The periods path: known periods and payment day. */
  lemma PayoffByPeriods(loan: Loan, today: Date)
    requires ValidDate(today)
    requires loan.monthlyPayment.Some? && loan.monthlyPayment.value > 0
    requires loan.totalPeriods.Some? && loan.paidPeriods.Some? && loan.paymentDay.Some?
    ensures var rp := loan.totalPeriods.value - loan.paidPeriods.value;
      var pd := loan.paymentDay.value;
      var r := PayoffDate(loan, today);
      (rp <= 0 ==> r == Ok(None))
      && (rp > 0 && pd < 1 ==> r.Err?)
      && (rp > 0 && pd >= 1 ==>
            r.Ok? && r.value.Some?
            && ValidDate(r.value.value)
            && MonthIndex(r.value.value) == MonthIndex(today) + (if today.day <= pd then rp - 1 else rp)
            && r.value.value.day == Min(pd, DaysInMonth(r.value.value.year, r.value.value.month))
            && !Before(r.value.value, today))
  {
    var rp := loan.totalPeriods.value - loan.paidPeriods.value;
    NthDueDateFacts(today, loan.paymentDay.value, rp);
  }

  /** The fallback path: months = remaining / monthly rounded up. */
  lemma PayoffByAmount(loan: Loan, today: Date)
    requires ValidDate(today)
    requires loan.monthlyPayment.Some? && loan.monthlyPayment.value > 0
    requires !(loan.totalPeriods.Some? && loan.paidPeriods.Some? && loan.paymentDay.Some?)
    ensures var m := loan.monthlyPayment.value;
      var r := PayoffDate(loan, today);
      var months := DivideUp(loan.remainingAmount, m);
      (loan.remainingAmount <= 0 <==> r == Ok(None))
      && (loan.remainingAmount > 0 ==> months * m >= loan.remainingAmount && (months - 1) * m < loan.remainingAmount)
      && (loan.remainingAmount > 0 && loan.paymentDay.None? ==> r == Ok(Some(PlusMonths(today, months))))
      && (loan.remainingAmount > 0 && loan.paymentDay.Some? && loan.paymentDay.value >= 1 ==>
            r.Ok? && r.value.Some? && !Before(r.value.value, today)
            && MonthIndex(r.value.value) == MonthIndex(today) + months - 1 + (if today.day <= loan.paymentDay.value then 0 else 1))
  {
    DivideUpBounds(loan.remainingAmount, loan.monthlyPayment.value);
    if loan.paymentDay.Some? {
      NthDueDateFacts(today, loan.paymentDay.value, DivideUp(loan.remainingAmount, loan.monthlyPayment.value));
    }
  }

  /** `getRepaidPercentage()` in hundredths of a percent: the repaid share
      rounded HALF_UP to four decimal places, times 100 percent. */
  function RepaidBasisPoints(loan: Loan): int
  {
    if loan.totalAmount.None? || loan.totalAmount.value == 0 then 0
    else HalfUp((loan.totalAmount.value - loan.remainingAmount) * 10000, loan.totalAmount.value)
  }

  /** The percentage is the repaid share to the nearest 0.01 %. */
  lemma RepaidIsNearest(loan: Loan)
    requires loan.totalAmount.Some? && loan.totalAmount.value != 0
    ensures var t := loan.totalAmount.value;
      2 * Abs(RepaidBasisPoints(loan) * t - (t - loan.remainingAmount) * 10000) <= Abs(t)
  {
    HalfUpNearest((loan.totalAmount.value - loan.remainingAmount) * 10000, loan.totalAmount.value);
  }

  lemma RepaidEnds(loan: Loan)
    ensures loan.totalAmount.None? || loan.totalAmount == Some(0) ==> RepaidBasisPoints(loan) == 0
    ensures loan.totalAmount.Some? && loan.totalAmount.value != 0 && loan.remainingAmount == 0 ==> RepaidBasisPoints(loan) == 10000
    ensures loan.totalAmount.Some? && loan.totalAmount.value != 0 && loan.remainingAmount == loan.totalAmount.value ==> RepaidBasisPoints(loan) == 0
  {
    if loan.totalAmount.Some? && loan.totalAmount.value != 0 {
      var t := loan.totalAmount.value;
      if loan.remainingAmount == 0 {
        assert (t - loan.remainingAmount) * 10000 == 10000 * t;
        HalfUpExact(10000, t);
      }
      if loan.remainingAmount == t {
        assert (t - loan.remainingAmount) * 10000 == 0 * t;
        HalfUpExact(0, t);
      }
    }
  }

  /** A loan between untouched and fully repaid reads between 0 and 100 %. */
  lemma RepaidBounds(loan: Loan)
    requires loan.totalAmount.Some? && loan.totalAmount.value > 0
    requires 0 <= loan.remainingAmount <= loan.totalAmount.value
    ensures 0 <= RepaidBasisPoints(loan) <= 10000
  {
    var t := loan.totalAmount.value;
    MulMono(loan.remainingAmount, t, 10000);
    HalfUpWithin((t - loan.remainingAmount) * 10000, t, 10000);
  }
}
