/** The salary-cycle projection: the pay-day window around a date, the loan
    payments and fixed expenses falling inside it, the merged timeline with
    its running balance, and the balance left before and after pay day. */
module SalaryCycle {
  import opened Wrappers
  import opened Dates
  import opened Sorting
  import opened Loans
  import opened Items

  // ---- The cycle window ----

  /** A cycle runs from one pay day (inclusive) to the next (exclusive). */
  datatype Window = Window(start: Date, end: Date)

  /** The window of `getCurrentCycle` / `getCycleByDate` around `date`:
      this month's pay day to next month's when the pay day has come,
      otherwise last month's to this month's. `None` is the exception of
      `LocalDate.of` for a pay day the month does not have. */
  function CycleWindow(date: Date, salaryDay: int): Option<Window>
    requires ValidDate(date)
  {
    match Of(date.year, date.month, salaryDay)
    case None => None
    case Some(payDay) =>
      if date.day >= salaryDay then Some(Window(payDay, PlusMonths(payDay, 1)))
      else Some(Window(MinusMonths(payDay, 1), payDay))
  }

  /** The window exists iff the pay day is a day of the date's month; it then
      holds the date (start <= date < end), spans consecutive months, and is
      anchored on this month's pay day. */
  lemma CycleWindowFacts(date: Date, salaryDay: int)
    requires ValidDate(date)
    ensures CycleWindow(date, salaryDay).Some? <==> 1 <= salaryDay <= LengthOfMonth(date)
    ensures CycleWindow(date, salaryDay).Some? ==>
      var w := CycleWindow(date, salaryDay).value;
      ValidDate(w.start) && ValidDate(w.end)
      && NotAfter(w.start, date) && Before(date, w.end)
      && MonthIndex(w.end) == MonthIndex(w.start) + 1
      && (date.day >= salaryDay ==> w.start == Date(date.year, date.month, salaryDay) && w.end == PlusMonths(w.start, 1))
      && (date.day < salaryDay ==> w.end == Date(date.year, date.month, salaryDay) && w.start == MinusMonths(w.end, 1))
  {
    if CycleWindow(date, salaryDay).Some? {
      var w := CycleWindow(date, salaryDay).value;
      if date.day >= salaryDay {
        EarlierMonthIsBefore(date, w.end);
      } else {
        EarlierMonthIsBefore(w.start, date);
      }
    }
  }

  /** The end is not always the start plus one month: on 10 March 2024 with
      pay day 31 the window is 29 February to 31 March, while 29 February
      plus one month is 29 March. */
  lemma CycleEndIsNotStartPlusMonth()
    ensures CycleWindow(Date(2024, 3, 10), 31) == Some(Window(Date(2024, 2, 29), Date(2024, 3, 31)))
    ensures PlusMonths(Date(2024, 2, 29), 1) == Date(2024, 3, 29)
  {
  }

  // ---- Recurring items expanded into dated occurrences ----

  /** What the detail and total loops read from a loan or a fixed expense. */
  datatype Recurring = Recurring(name: string, platform: Option<string>, day: Option<int>, amount: Option<int>)

  function LoanItem(loan: Loan): Recurring
  {
    Recurring(loan.loanName, loan.platform, loan.paymentDay, loan.monthlyPayment)
  }

  function ExpenseItem(expense: Expense): Recurring
  {
    Recurring(expense.expenseName, None, Some(expense.expenseDay), Some(expense.amount))
  }

  /** An item falling due on a date. */
  datatype Occurrence = Occurrence(date: Date, item: Recurring)

  function OccurrenceKey(o: Occurrence): int { Ord(o.date) }

  /** `startDate.withDayOfMonth(1)` */
  function FirstOfMonth(d: Date): (r: Date)
    requires ValidDate(d)
    ensures ValidDate(r) && r.day == 1 && MonthIndex(r) == MonthIndex(d)
  {
    WithDayOfMonth(d, 1).value
  }

  /** The item's occurrence in `month`: only when its day exists in that
      month (an impossible or missing day is skipped) and falls in
      [start, end). */
  function MonthOccurrence(item: Recurring, month: Date, start: Date, end: Date): seq<Occurrence>
    requires ValidMonth(month)
  {
    if item.day.None? then []
    else match Of(month.year, month.month, item.day.value)
      case None => []
      case Some(d) => if NotAfter(start, d) && Before(d, end) then [Occurrence(d, item)] else []
  }

  /** The occurrences over the first days of the months from `month` up to
      `endMonth`. */
  function OccurrencesFrom(item: Recurring, month: Date, endMonth: Date, start: Date, end: Date): seq<Occurrence>
    requires ValidDate(month) && ValidDate(endMonth)
    decreases MonthIndex(endMonth) - MonthIndex(month) + 1
  {
    if Before(endMonth, month) then []
    else MonthOccurrence(item, month, start, end) + OccurrencesFrom(item, PlusMonths(month, 1), endMonth, start, end)
  }

  function ItemOccurrences(item: Recurring, start: Date, end: Date): seq<Occurrence>
    requires ValidDate(start) && ValidDate(end)
  {
    OccurrencesFrom(item, FirstOfMonth(start), FirstOfMonth(end), start, end)
  }

  /** The occurrences of all items, item by item, before the sort. */
  function AllOccurrences(items: seq<Recurring>, start: Date, end: Date): seq<Occurrence>
    requires ValidDate(start) && ValidDate(end)
  {
    if items == [] then []
    else AllOccurrences(items[..|items| - 1], start, end) + ItemOccurrences(items[|items| - 1], start, end)
  }

  /** `getLoanPaymentDetails` / `getFixedExpenseDetails`. */
  function Details(items: seq<Recurring>, start: Date, end: Date): seq<Occurrence>
    requires ValidDate(start) && ValidDate(end)
  {
    SortBy(AllOccurrences(items, start, end), OccurrenceKey)
  }

  /** The detail loop shared by `getLoanPaymentDetails` and
      `getFixedExpenseDetails`: per item, month by month from the start's
      month to the end's month, then a sort by date. */
  method RecurringDetails(items: seq<Recurring>, start: Date, end: Date) returns (details: seq<Occurrence>)
    requires ValidDate(start) && ValidDate(end)
    ensures details == Details(items, start, end)
  {
    details := [];
    var j := 0;
    while j < |items|
      invariant 0 <= j <= |items|
      invariant details == AllOccurrences(items[..j], start, end)
    {
      assert items[..j + 1][..j] == items[..j];
      details := AppendOccurrences(details, items[j], start, end);
      j := j + 1;
    }
    assert items[..|items|] == items;
    details := SortBy(details, OccurrenceKey);
  }

  /** The month loop of one item, appending to `details`. */
  method AppendOccurrences(details: seq<Occurrence>, item: Recurring, start: Date, end: Date) returns (r: seq<Occurrence>)
    requires ValidDate(start) && ValidDate(end)
    ensures r == details + ItemOccurrences(item, start, end)
  {
    r := details;
    var checkMonth := FirstOfMonth(start);
    var endMonth := FirstOfMonth(end);
    while !Before(endMonth, checkMonth)
      invariant ValidDate(checkMonth)
      invariant details + ItemOccurrences(item, start, end) == r + OccurrencesFrom(item, checkMonth, endMonth, start, end)
      decreases MonthIndex(endMonth) - MonthIndex(checkMonth) + 1
    {
      ghost var r0 := r;
      if item.day.Some? {
        var paymentDate := Of(checkMonth.year, checkMonth.month, item.day.value);
        if paymentDate.Some? && !Before(paymentDate.value, start) && Before(paymentDate.value, end) {
          r := r + [Occurrence(paymentDate.value, item)];
        }
      }
      assert r == r0 + MonthOccurrence(item, checkMonth, start, end);
      OccurrencesStep(item, checkMonth, endMonth, start, end, r0);
      checkMonth := PlusMonths(checkMonth, 1);
    }
    assert r + [] == r;
  }

  lemma OccurrencesStep(item: Recurring, month: Date, endMonth: Date, start: Date, end: Date, done: seq<Occurrence>)
    requires ValidDate(month) && ValidDate(endMonth) && !Before(endMonth, month)
    ensures done + OccurrencesFrom(item, month, endMonth, start, end)
            == (done + MonthOccurrence(item, month, start, end)) + OccurrencesFrom(item, PlusMonths(month, 1), endMonth, start, end)
  {
  }

  function LoanItems(loans: seq<Loan>): seq<Recurring> { MapSeq(LoanItem, loans) }

  function ExpenseItems(expenses: seq<Expense>): seq<Recurring> { MapSeq(ExpenseItem, expenses) }

  method LoanPaymentDetails(activeLoans: seq<Loan>, start: Date, end: Date) returns (details: seq<Occurrence>)
    requires ValidDate(start) && ValidDate(end)
    ensures details == Details(LoanItems(activeLoans), start, end)
  {
    details := RecurringDetails(LoanItems(activeLoans), start, end);
  }

  method FixedExpenseDetails(activeExpenses: seq<Expense>, start: Date, end: Date) returns (details: seq<Occurrence>)
    requires ValidDate(start) && ValidDate(end)
    ensures details == Details(ExpenseItems(activeExpenses), start, end)
  {
    details := RecurringDetails(ExpenseItems(activeExpenses), start, end);
  }

  /** An occurrence of `item` on its own day, inside [start, end). */
  predicate InWindow(o: Occurrence, item: Recurring, start: Date, end: Date)
  {
    ValidDate(o.date) && o.item == item && item.day == Some(o.date.day)
    && NotAfter(start, o.date) && Before(o.date, end)
  }

  lemma MonthOccurrenceFacts(item: Recurring, month: Date, start: Date, end: Date)
    requires ValidMonth(month)
    ensures var here := MonthOccurrence(item, month, start, end);
      |here| <= 1
      && forall k :: 0 <= k < |here| ==> InWindow(here[k], item, start, end) && MonthIndex(here[k].date) == MonthIndex(month)
  {
  }

  /** Every occurrence is on the item's day, in [start, end), and in one of
      the visited months. */
  lemma {:induction false} OccurrencesFromBounds(item: Recurring, month: Date, endMonth: Date, start: Date, end: Date)
    requires ValidDate(month) && ValidDate(endMonth)
    ensures forall o :: o in OccurrencesFrom(item, month, endMonth, start, end) ==>
      InWindow(o, item, start, end) && MonthIndex(month) <= MonthIndex(o.date) <= MonthIndex(endMonth)
    decreases MonthIndex(endMonth) - MonthIndex(month) + 1
  {
    if !Before(endMonth, month) {
      var next := PlusMonths(month, 1);
      OccurrencesFromBounds(item, next, endMonth, start, end);
      var here := MonthOccurrence(item, month, start, end);
      var rest := OccurrencesFrom(item, next, endMonth, start, end);
      BeforeMonthIndex(month, endMonth);
      MonthOccurrenceFacts(item, month, start, end);
      assert OccurrencesFrom(item, month, endMonth, start, end) == here + rest;
    }
  }

  /** The months of the occurrences strictly increase, so an item yields at
      most one occurrence per calendar month. */
  lemma {:induction false} OccurrencesFromOrdered(item: Recurring, month: Date, endMonth: Date, start: Date, end: Date)
    requires ValidDate(month) && ValidDate(endMonth)
    ensures MonthsIncrease(OccurrencesFrom(item, month, endMonth, start, end))
    decreases MonthIndex(endMonth) - MonthIndex(month) + 1
  {
    if !Before(endMonth, month) {
      var next := PlusMonths(month, 1);
      OccurrencesFromOrdered(item, next, endMonth, start, end);
      OccurrencesFromBounds(item, next, endMonth, start, end);
      var here := MonthOccurrence(item, month, start, end);
      var rest := OccurrencesFrom(item, next, endMonth, start, end);
      MonthOccurrenceFacts(item, month, start, end);
      var r := here + rest;
      assert OccurrencesFrom(item, month, endMonth, start, end) == r;
      forall k, l | 0 <= k < l < |r| ensures MonthIndex(r[k].date) < MonthIndex(r[l].date) {
        assert r[l] == rest[l - |here|];
        assert rest[l - |here|] in rest;
        if k < |here| { assert r[k] == here[k]; } else { assert r[k] == rest[k - |here|]; }
      }
    }
  }

  /** Strictly increasing months: at most one element per calendar month. */
  predicate MonthsIncrease(r: seq<Occurrence>)
  {
    forall k, l :: 0 <= k < l < |r| ==> MonthIndex(r[k].date) < MonthIndex(r[l].date)
  }

  /** Completeness: a date in [start, end) on the item's day is listed. */
  lemma {:induction false} OccurrencesFromComplete(item: Recurring, month: Date, endMonth: Date, start: Date, end: Date, d: Date)
    requires ValidDate(month) && ValidDate(endMonth) && month.day == 1
    requires ValidDate(d) && item.day == Some(d.day) && NotAfter(start, d) && Before(d, end)
    requires MonthIndex(month) <= MonthIndex(d) <= MonthIndex(endMonth)
    ensures Occurrence(d, item) in OccurrencesFrom(item, month, endMonth, start, end)
    decreases MonthIndex(d) - MonthIndex(month)
  {
    assert !Before(endMonth, month);
    if MonthIndex(d) == MonthIndex(month) {
      MonthIndexInjective(d, month);
      assert MonthOccurrence(item, month, start, end) == [Occurrence(d, item)];
    } else {
      OccurrencesFromComplete(item, PlusMonths(month, 1), endMonth, start, end, d);
    }
  }

  lemma {:induction false} AllOccurrencesFacts(items: seq<Recurring>, start: Date, end: Date)
    requires ValidDate(start) && ValidDate(end)
    ensures forall o :: o in AllOccurrences(items, start, end) ==>
      ValidDate(o.date) && o.item in items && o.item.day == Some(o.date.day)
      && NotAfter(start, o.date) && Before(o.date, end)
    ensures forall item, d :: item in items && ValidDate(d) && item.day == Some(d.day)
                              && NotAfter(start, d) && Before(d, end)
                              ==> Occurrence(d, item) in AllOccurrences(items, start, end)
  {
    if items != [] {
      var init, last := items[..|items| - 1], items[|items| - 1];
      AllOccurrencesFacts(init, start, end);
      OccurrencesFromBounds(last, FirstOfMonth(start), FirstOfMonth(end), start, end);
      forall item, d | item in items && ValidDate(d) && item.day == Some(d.day) && NotAfter(start, d) && Before(d, end)
        ensures Occurrence(d, item) in AllOccurrences(items, start, end)
      {
        if item == last {
          BeforeMonthIndex(start, d);
          BeforeMonthIndex(d, end);
          OccurrencesFromComplete(last, FirstOfMonth(start), FirstOfMonth(end), start, end, d);
        } else {
          assert item in init;
        }
      }
    }
  }

  /** The detail list: sorted by date, and it holds exactly the dates in
      [start, end) that fall on an item's day; items with a missing or
      impossible day in a month are skipped for that month. */
  lemma DetailsExact(items: seq<Recurring>, start: Date, end: Date)
    requires ValidDate(start) && ValidDate(end)
    ensures SortedBy(Details(items, start, end), OccurrenceKey)
    ensures forall o :: o in Details(items, start, end) <==>
      o.item in items && ValidDate(o.date) && o.item.day == Some(o.date.day)
      && NotAfter(start, o.date) && Before(o.date, end)
  {
    var all := AllOccurrences(items, start, end);
    SortByFacts(all, OccurrenceKey);
    AllOccurrencesFacts(items, start, end);
    forall o ensures o in Details(items, start, end) <==> o in all {
      assert o in Details(items, start, end) <==> o in multiset(Details(items, start, end));
      assert o in all <==> o in multiset(all);
    }
  }

  /** One item yields at most one occurrence per calendar month. */
  lemma OncePerMonth(item: Recurring, start: Date, end: Date)
    requires ValidDate(start) && ValidDate(end)
    ensures MonthsIncrease(ItemOccurrences(item, start, end))
  {
    OccurrencesFromOrdered(item, FirstOfMonth(start), FirstOfMonth(end), start, end);
  }

  // ---- Range totals ----

  /** One step of `calculate*InRange`: `None` is the exception of a missing
      or impossible day, or of adding a missing amount. */
  function StepAmount(item: Recurring, current: Date, start: Date, end: Date): Option<int>
    requires ValidMonth(current)
  {
    if item.day.None? then None
    else match Of(current.year, current.month, item.day.value)
      case None => None
      case Some(d) =>
        if NotAfter(start, d) && Before(d, end) then (if item.amount.None? then None else Some(item.amount.value))
        else Some(0)
  }

  /** The steps from `current`, one month at a time (clamped, so the day can
      drift), while not after `end`. */
  function ItemTotalFrom(item: Recurring, current: Date, start: Date, end: Date): Option<int>
    requires ValidDate(current) && ValidDate(end)
    decreases MonthIndex(end) - MonthIndex(current) + 1
  {
    if Before(end, current) then Some(0)
    else AddOpt(StepAmount(item, current, start, end), ItemTotalFrom(item, PlusMonths(current, 1), start, end))
  }

  /** `calculateLoanPaymentsInRange` / `calculateFixedExpensesInRange`. */
  function RangeTotal(items: seq<Recurring>, start: Date, end: Date): Option<int>
    requires ValidDate(start) && ValidDate(end)
  {
    if items == [] then Some(0)
    else AddOpt(RangeTotal(items[..|items| - 1], start, end), ItemTotalFrom(items[|items| - 1], start, start, end))
  }

  /** Once a prefix fails the whole total fails. */
  lemma {:induction false} RangeTotalPrefixFails(items: seq<Recurring>, k: int, start: Date, end: Date)
    requires ValidDate(start) && ValidDate(end) && 0 <= k <= |items|
    requires RangeTotal(items[..k], start, end).None?
    ensures RangeTotal(items, start, end).None?
    decreases |items| - k
  {
    if k < |items| {
      assert items[..k + 1][..k] == items[..k];
      RangeTotalPrefixFails(items, k + 1, start, end);
    } else {
      assert items[..k] == items;
    }
  }

  method RangeTotalOf(items: seq<Recurring>, start: Date, end: Date) returns (r: Option<int>)
    requires ValidDate(start) && ValidDate(end)
    ensures r == RangeTotal(items, start, end)
  {
    var total := 0;
    var j := 0;
    while j < |items|
      invariant 0 <= j <= |items|
      invariant RangeTotal(items[..j], start, end) == Some(total)
    {
      var item := items[j];
      var current := start;
      assert items[..j + 1][..j] == items[..j];
      while !Before(end, current)
        invariant ValidDate(current)
        invariant RangeTotal(items[..j + 1], start, end) == AddOpt(Some(total), ItemTotalFrom(item, current, start, end))
        decreases MonthIndex(end) - MonthIndex(current) + 1
      {
        if item.day.None? {
          RangeTotalPrefixFails(items, j + 1, start, end);
          return None;
        }
        var paymentDate := Of(current.year, current.month, item.day.value);
        if paymentDate.None? {
          RangeTotalPrefixFails(items, j + 1, start, end);
          return None;
        }
        if !Before(paymentDate.value, start) && Before(paymentDate.value, end) {
          if item.amount.None? {
            RangeTotalPrefixFails(items, j + 1, start, end);
            return None;
          }
          total := total + item.amount.value;
        }
        current := PlusMonths(current, 1);
      }
      j := j + 1;
    }
    assert items[..|items|] == items;
    return Some(total);
  }

  /** `calculateLoanPaymentsInRange` (and `calculateLoanPayments`, which is
      the same loop). */
  method LoanPaymentsInRange(activeLoans: seq<Loan>, start: Date, end: Date) returns (r: Option<int>)
    requires ValidDate(start) && ValidDate(end)
    ensures r == RangeTotal(LoanItems(activeLoans), start, end)
  {
    r := RangeTotalOf(LoanItems(activeLoans), start, end);
  }

  /** `calculateFixedExpensesInRange` (and `calculateFixedExpenses`). */
  method FixedExpensesInRange(activeExpenses: seq<Expense>, start: Date, end: Date) returns (r: Option<int>)
    requires ValidDate(start) && ValidDate(end)
    ensures r == RangeTotal(ExpenseItems(activeExpenses), start, end)
  {
    r := RangeTotalOf(ExpenseItems(activeExpenses), start, end);
  }

  /** What a total step counts: an item's amount only for a date in
      [start, end) on its day. */
  lemma StepAmountFacts(item: Recurring, current: Date, start: Date, end: Date)
    requires ValidDate(current)
    ensures StepAmount(item, current, start, end).None? <==>
      item.day.None? || !(1 <= item.day.value <= LengthOfMonth(current))
      || (NotAfter(start, Date(current.year, current.month, item.day.value))
          && Before(Date(current.year, current.month, item.day.value), end) && item.amount.None?)
    ensures StepAmount(item, current, start, end).Some? ==>
      var d := Date(current.year, current.month, item.day.value);
      StepAmount(item, current, start, end).value
      == if NotAfter(start, d) && Before(d, end) then item.amount.value else 0
  {
  }

  /** Totals and details can disagree: from 31 January 2024 to 20 February
      2024 a loan due on the 10th is listed once (10 February) but the total
      steps 31 January, then 29 February, which is past the end, and counts
      nothing. */
  lemma TotalMissesDetail()
    ensures RangeTotal([Recurring("loan", None, Some(10), Some(100))], Date(2024, 1, 31), Date(2024, 2, 20)) == Some(0)
    ensures Details([Recurring("loan", None, Some(10), Some(100))], Date(2024, 1, 31), Date(2024, 2, 20))
            == [Occurrence(Date(2024, 2, 10), Recurring("loan", None, Some(10), Some(100)))]
  {
    var item := Recurring("loan", None, Some(10), Some(100));
    var start, end := Date(2024, 1, 31), Date(2024, 2, 20);
    assert [item][..0] == [];
    TotalStopsAtDrift(item);
    ListedOnce(item);
    assert AllOccurrences([item], start, end) == [Occurrence(Date(2024, 2, 10), item)];
  }

  lemma TotalStopsAtDrift(item: Recurring)
    requires item.day == Some(10)
    ensures ItemTotalFrom(item, Date(2024, 1, 31), Date(2024, 1, 31), Date(2024, 2, 20)) == Some(0)
  {
    var start, end := Date(2024, 1, 31), Date(2024, 2, 20);
    assert PlusMonths(start, 1) == Date(2024, 2, 29);
    assert ItemTotalFrom(item, Date(2024, 2, 29), start, end) == Some(0);
    assert StepAmount(item, start, start, end) == Some(0);
  }

  lemma ListedOnce(item: Recurring)
    requires item.day == Some(10)
    ensures ItemOccurrences(item, Date(2024, 1, 31), Date(2024, 2, 20)) == [Occurrence(Date(2024, 2, 10), item)]
  {
    var start, end := Date(2024, 1, 31), Date(2024, 2, 20);
    var jan, feb := Date(2024, 1, 1), Date(2024, 2, 1);
    assert FirstOfMonth(start) == jan && FirstOfMonth(end) == feb;
    assert PlusMonths(jan, 1) == feb;
    assert PlusMonths(feb, 1) == Date(2024, 3, 1);
    assert OccurrencesFrom(item, Date(2024, 3, 1), feb, start, end) == [];
    assert MonthOccurrence(item, jan, start, end) == [];
    assert MonthOccurrence(item, feb, start, end) == [Occurrence(Date(2024, 2, 10), item)];
  }

  /** A missing payment day makes the total fail whenever the window is not
      empty, while the details only skip that loan. */
  lemma MissingDayFailsTotal(items: seq<Recurring>, k: int, start: Date, end: Date)
    requires ValidDate(start) && ValidDate(end) && NotAfter(start, end)
    requires 0 <= k < |items| && items[k].day.None?
    ensures RangeTotal(items, start, end).None?
    ensures forall o :: o in Details(items, start, end) ==> o.item != items[k]
  {
    assert items[..k + 1][..k] == items[..k];
    assert RangeTotal(items[..k + 1], start, end).None?;
    RangeTotalPrefixFails(items, k + 1, start, end);
    DetailsExact(items, start, end);
  }

  // ---- Temporary transactions (inclusive date range) ----

  /** `transaction_date BETWEEN from AND to`: both ends included. */
  predicate Between(t: TempTransaction, from: Date, to: Date)
  {
    NotAfter(from, t.transactionDate) && NotAfter(t.transactionDate, to)
  }

  function TempsBetween(temps: seq<TempTransaction>, from: Date, to: Date): (r: seq<TempTransaction>)
    ensures forall t :: t in r <==> t in temps && Between(t, from, to)
  {
    if temps == [] then []
    else TempsBetween(temps[..|temps| - 1], from, to)
         + (if Between(temps[|temps| - 1], from, to) then [temps[|temps| - 1]] else [])
  }

  function DateDescending(t: TempTransaction): int { -Ord(t.transactionDate) }

  /** `findByDateRange`: the transactions in range, newest first. */
  function TempsByDateDesc(temps: seq<TempTransaction>, from: Date, to: Date): seq<TempTransaction>
  {
    SortBy(TempsBetween(temps, from, to), DateDescending)
  }

  function TempAmount(t: TempTransaction): int { t.amount }

  /** `getTempIncomeInRange` / `getTempExpenseInRange`: the amounts of the
      transactions of one type in range. */
  function TempTotal(temps: seq<TempTransaction>, kind: string, from: Date, to: Date): int
  {
    if temps == [] then 0
    else TempTotal(temps[..|temps| - 1], kind, from, to)
         + (var t := temps[|temps| - 1]; if t.kind == kind && Between(t, from, to) then t.amount else 0)
  }

  const IncomeType: string := "income"
  const ExpenseType: string := "expense"

  /** A transaction dated on the end day is included, although no loan or
      expense occurrence can be. */
  lemma EndDayIncluded(temps: seq<TempTransaction>, items: seq<Recurring>, start: Date, end: Date, t: TempTransaction)
    requires ValidDate(start) && ValidDate(end) && NotAfter(start, end)
    requires t in temps && t.transactionDate == end
    ensures t in TempsByDateDesc(temps, start, end)
    ensures forall o :: o in Details(items, start, end) ==> o.date != end
  {
    var b := TempsBetween(temps, start, end);
    SortByFacts(b, DateDescending);
    assert t in multiset(b);
    DetailsExact(items, start, end);
  }

  // ---- The merged timeline and its running balance ----

  /** An entry of the timeline before the balance is attached. `None` as an
      amount is a loan without a monthly payment. */
  datatype CycleEvent = CycleEvent(date: Date, eventType: string, description: string, platform: Option<string>,
                                   amount: Option<int>, isIncome: bool)

  datatype TimelineItem = TimelineItem(event: CycleEvent, balanceBefore: int, balanceAfter: int)

  function CycleEventKey(e: CycleEvent): int { Ord(e.date) }

  function LoanEvent(o: Occurrence): CycleEvent
  {
    CycleEvent(o.date, "loan", o.item.name, o.item.platform, o.item.amount, false)
  }

  function ExpenseEvent(o: Occurrence): CycleEvent
  {
    CycleEvent(o.date, "expense", o.item.name, None, o.item.amount, false)
  }

  /** A temporary transaction is income only when its type is "income". */
  function TempEvent(t: TempTransaction): CycleEvent
  {
    CycleEvent(t.transactionDate, t.kind, t.description, None, Some(t.amount), t.kind == IncomeType)
  }

  /** The events in collection order: loans, then expenses, then temporary
      transactions. */
  function CycleEvents(activeLoans: seq<Loan>, expenses: seq<Expense>, temps: seq<TempTransaction>, start: Date, end: Date)
    : seq<CycleEvent>
    requires ValidDate(start) && ValidDate(end)
  {
    MapSeq(LoanEvent, Details(LoanItems(activeLoans), start, end))
    + MapSeq(ExpenseEvent, Details(ExpenseItems(expenses), start, end))
    + MapSeq(TempEvent, TempsByDateDesc(temps, start, end))
  }

  /** The signed effect of an event on the balance (a missing amount counts
      nothing; the walk fails on it). */
  function Signed(e: CycleEvent): int
  {
    if e.amount.None? then 0 else if e.isIncome then e.amount.value else -e.amount.value
  }

  predicate AmountsPresent(events: seq<CycleEvent>)
  {
    forall k :: 0 <= k < |events| ==> events[k].amount.Some?
  }

  /** The balance walk of `generateTimeline` over events already in order. */
  function Walk(events: seq<CycleEvent>, seed: int): (r: Option<seq<TimelineItem>>)
    ensures r.Some? <==> AmountsPresent(events)
    ensures r.Some? ==> |r.value| == |events|
  {
    if events == [] then Some([])
    else
      var init, last := events[..|events| - 1], events[|events| - 1];
      var before := seed + SumOf(init, Signed);
      match Walk(init, seed)
      case None => None
      case Some(items) =>
        if last.amount.None? then None
        else Some(items + [TimelineItem(last, before, before + Signed(last))])
  }

  /** `generateTimeline`: the merged events, stably sorted by date, walked
      from `seed`. */
  function Timeline(activeLoans: seq<Loan>, expenses: seq<Expense>, temps: seq<TempTransaction>, start: Date, end: Date,
                    seed: int): Option<seq<TimelineItem>>
    requires ValidDate(start) && ValidDate(end)
  {
    Walk(SortBy(CycleEvents(activeLoans, expenses, temps, start, end), CycleEventKey), seed)
  }

  /** Appends f applied to each element of xs, in order. */
  method AppendMapped<A>(events: seq<CycleEvent>, xs: seq<A>, f: A -> CycleEvent) returns (r: seq<CycleEvent>)
    ensures r == events + MapSeq(f, xs)
  {
    r := events;
    var i := 0;
    while i < |xs|
      invariant 0 <= i <= |xs|
      invariant r == events + MapSeq(f, xs[..i])
    {
      r := r + [f(xs[i])];
      i := i + 1;
    }
    assert xs[..|xs|] == xs;
  }

  method GenerateTimeline(activeLoans: seq<Loan>, expenses: seq<Expense>, temps: seq<TempTransaction>,
                          start: Date, end: Date, seed: int) returns (r: Option<seq<TimelineItem>>)
    requires ValidDate(start) && ValidDate(end)
    ensures r == Timeline(activeLoans, expenses, temps, start, end, seed)
  {
    var loanDetails := LoanPaymentDetails(activeLoans, start, end);
    var expenseDetails := FixedExpenseDetails(expenses, start, end);
    var events := CollectEvents(loanDetails, expenseDetails, TempsByDateDesc(temps, start, end));
    events := SortBy(events, CycleEventKey);
    r := WalkBalance(events, seed);
  }

  /** The three collection loops of `generateTimeline`. */
  method CollectEvents(loanDetails: seq<Occurrence>, expenseDetails: seq<Occurrence>, temps: seq<TempTransaction>)
    returns (events: seq<CycleEvent>)
    ensures events == MapSeq(LoanEvent, loanDetails) + MapSeq(ExpenseEvent, expenseDetails) + MapSeq(TempEvent, temps)
  {
    events := [];
    events := AppendMapped(events, loanDetails, LoanEvent);
    events := AppendMapped(events, expenseDetails, ExpenseEvent);
    events := AppendMapped(events, temps, TempEvent);
    assert [] + MapSeq(LoanEvent, loanDetails) == MapSeq(LoanEvent, loanDetails);
  }

  /** The balance loop of `generateTimeline`. */
  method WalkBalance(events: seq<CycleEvent>, seed: int) returns (r: Option<seq<TimelineItem>>)
    ensures r == Walk(events, seed)
  {
    var timeline: seq<TimelineItem> := [];
    var balance := seed;
    var i := 0;
    while i < |events|
      invariant 0 <= i <= |events|
      invariant Walk(events[..i], seed) == Some(timeline)
      invariant balance == seed + SumOf(events[..i], Signed)
    {
      var event := events[i];
      assert events[..i + 1][..i] == events[..i];
      if event.amount.None? {
        WalkPrefixFails(events, i + 1, seed);
        return None;
      }
      var before := balance;
      if event.isIncome {
        balance := balance + event.amount.value;
      } else {
        balance := balance - event.amount.value;
      }
      timeline := timeline + [TimelineItem(event, before, balance)];
      i := i + 1;
    }
    assert events[..|events|] == events;
    return Some(timeline);
  }

  lemma WalkPrefixFails(events: seq<CycleEvent>, k: int, seed: int)
    requires 0 <= k <= |events| && Walk(events[..k], seed).None?
    ensures Walk(events, seed).None?
  {
    assert !AmountsPresent(events[..k]);
    var j :| 0 <= j < k && events[..k][j].amount.None?;
    assert events[j].amount.None?;
  }

  /** Entry k of the walk: event k, opening at the seed plus the net of the
      events before it, closing after adding an income or subtracting an
      outflow. */
  lemma {:induction false} WalkAt(events: seq<CycleEvent>, seed: int, k: int)
    requires Walk(events, seed).Some? && 0 <= k < |events|
    ensures var t := Walk(events, seed).value;
      t[k].event == events[k]
      && t[k].balanceBefore == seed + SumOf(events[..k], Signed)
      && t[k].balanceAfter == (if events[k].isIncome then t[k].balanceBefore + events[k].amount.value
                               else t[k].balanceBefore - events[k].amount.value)
    decreases |events|
  {
    var init := events[..|events| - 1];
    var t := Walk(events, seed).value;
    var ti := Walk(init, seed).value;
    assert t == ti + [t[|t| - 1]];
    if k < |events| - 1 {
      WalkAt(init, seed, k);
      assert t[k] == ti[k];
      assert init[..k] == events[..k];
    } else {
      assert init == events[..k];
    }
  }

  /** The running balance: the first entry starts from the seed and each
      entry starts where the previous one ended. */
  lemma WalkChains(events: seq<CycleEvent>, seed: int)
    requires Walk(events, seed).Some?
    ensures var t := Walk(events, seed).value;
      (|t| > 0 ==> t[0].balanceBefore == seed)
      && forall k :: 0 <= k < |t| - 1 ==> t[k].balanceAfter == t[k + 1].balanceBefore
  {
    var t := Walk(events, seed).value;
    if |t| > 0 {
      WalkAt(events, seed, 0);
      assert events[..0] == [];
    }
    forall k | 0 <= k < |t| - 1 ensures t[k].balanceAfter == t[k + 1].balanceBefore {
      WalkAt(events, seed, k);
      WalkAt(events, seed, k + 1);
      assert events[..k + 1][..k] == events[..k];
    }
  }

  /** The balance left before pay day: the last entry's closing balance, or
      the seed when there are no entries. */
  function BeforeSalary(timeline: seq<TimelineItem>, seed: int): int
  {
    if timeline == [] then seed else timeline[|timeline| - 1].balanceAfter
  }

  /** It is the seed plus all incomes minus all outflows, whatever their
      order. */
  lemma BeforeSalaryIsNet(events: seq<CycleEvent>, seed: int)
    requires Walk(events, seed).Some?
    ensures BeforeSalary(Walk(events, seed).value, seed) == seed + SumOf(events, Signed)
  {
    if events != [] {
      assert events[..|events| - 1] + [events[|events| - 1]] == events;
    }
  }

  // ---- The cycle report ----

  datatype CycleReport = CycleReport(
    cycleStart: Date,
    cycleEnd: Date,
    isCurrent: bool,
    daysToSalary: Option<int>,
    currentBalance: int,
    salaryIncome: int,
    loanPayments: int,
    fixedExpenses: int,
    tempIncome: int,
    tempExpense: int,
    loanPaymentDetails: seq<Occurrence>,
    fixedExpenseDetails: seq<Occurrence>,
    tempTransactions: seq<TempTransaction>,
    timeline: seq<TimelineItem>,
    beforeSalaryBalance: int,
    afterSalaryBalance: int,
    isSufficient: bool)

  /** The loan and expense totals the report shows: over the whole window,
      and for the current cycle again from today (both are computed, so
      either can fail). */
  function ShownTotals(w: Window, isCurrent: bool, today: Date, active: seq<Loan>, expenses: seq<Expense>)
    : Option<(int, int)>
    requires ValidDate(w.start) && ValidDate(w.end) && ValidDate(today)
  {
    var loanPayments := RangeTotal(LoanItems(active), w.start, w.end);
    var fixedExpenses := RangeTotal(ExpenseItems(expenses), w.start, w.end);
    if loanPayments.None? || fixedExpenses.None? then None
    else if !isCurrent then Some((loanPayments.value, fixedExpenses.value))
    else
      var loansFromToday := RangeTotal(LoanItems(active), today, w.end);
      var expensesFromToday := RangeTotal(ExpenseItems(expenses), today, w.end);
      if loansFromToday.None? || expensesFromToday.None? then None
      else Some((loansFromToday.value, expensesFromToday.value))
  }

  method ComputeShownTotals(w: Window, isCurrent: bool, today: Date, active: seq<Loan>, expenses: seq<Expense>)
    returns (r: Option<(int, int)>)
    requires ValidDate(w.start) && ValidDate(w.end) && ValidDate(today)
    ensures r == ShownTotals(w, isCurrent, today, active, expenses)
  {
    var loanPayments := LoanPaymentsInRange(active, w.start, w.end);
    if loanPayments.None? { return None; }
    var fixedExpenses := FixedExpensesInRange(expenses, w.start, w.end);
    if fixedExpenses.None? { return None; }
    if !isCurrent { return Some((loanPayments.value, fixedExpenses.value)); }
    var loanPaymentsFromToday := LoanPaymentsInRange(active, today, w.end);
    if loanPaymentsFromToday.None? { return None; }
    var fixedExpensesFromToday := FixedExpensesInRange(expenses, today, w.end);
    if fixedExpensesFromToday.None? { return None; }
    return Some((loanPaymentsFromToday.value, fixedExpensesFromToday.value));
  }

  /** The report once the totals and the timeline are known; the figures
      before and after pay day come from the timeline's last entry. */
  function Report(w: Window, isCurrent: bool, today: Date, from: Date, currentBalance: int, salaryAmount: int,
                  active: seq<Loan>, expenses: seq<Expense>, temps: seq<TempTransaction>,
                  totals: (int, int), timeline: seq<TimelineItem>): CycleReport
    requires ValidDate(today) && ValidDate(from) && ValidDate(w.end)
  {
    var before := BeforeSalary(timeline, currentBalance);
    var daysToSalary := if isCurrent then Some(DaysBetween(today, w.end)) else None;
    CycleReport(w.start, w.end, isCurrent, daysToSalary, currentBalance, salaryAmount, totals.0, totals.1,
                TempTotal(temps, IncomeType, from, w.end), TempTotal(temps, ExpenseType, from, w.end),
                Details(LoanItems(active), from, w.end), Details(ExpenseItems(expenses), from, w.end),
                TempsByDateDesc(temps, from, w.end), timeline,
                before, before + salaryAmount, before >= 0)
  }

  /** `calculateCycle`, with the clock, the current balance and the salary
      amount as inputs. `None` is an exception from one of the totals or
      from the timeline. For the current cycle the shown totals, the details
      and the timeline run from today; otherwise from the cycle start. */
  function CycleReportOf(w: Window, isCurrent: bool, today: Date, currentBalance: int, salaryAmount: int,
                         loans: seq<Loan>, expenses: seq<Expense>, temps: seq<TempTransaction>): Option<CycleReport>
    requires ValidDate(w.start) && ValidDate(w.end) && ValidDate(today)
  {
    var active := ActiveLoans(loans);
    var from := if isCurrent then today else w.start;
    match ShownTotals(w, isCurrent, today, active, expenses)
    case None => None
    case Some(totals) =>
      match Timeline(active, expenses, temps, from, w.end, currentBalance)
      case None => None
      case Some(timeline) =>
        Some(Report(w, isCurrent, today, from, currentBalance, salaryAmount, active, expenses, temps, totals, timeline))
  }

  method CalculateCycle(w: Window, isCurrent: bool, today: Date, currentBalance: int, salaryAmount: int,
                        loans: seq<Loan>, expenses: seq<Expense>, temps: seq<TempTransaction>) returns (r: Option<CycleReport>)
    requires ValidDate(w.start) && ValidDate(w.end) && ValidDate(today)
    ensures r == CycleReportOf(w, isCurrent, today, currentBalance, salaryAmount, loans, expenses, temps)
  {
    var active := ActiveLoans(loans);
    var totals := ComputeShownTotals(w, isCurrent, today, active, expenses);
    if totals.None? { return None; }
    var calculateStart := if isCurrent then today else w.start;
    var tempIncome := TempTotal(temps, IncomeType, calculateStart, w.end);
    var tempExpense := TempTotal(temps, ExpenseType, calculateStart, w.end);
    var detailStart := calculateStart;
    var loanPaymentDetails := LoanPaymentDetails(active, detailStart, w.end);
    var fixedExpenseDetails := FixedExpenseDetails(expenses, detailStart, w.end);
    var tempTransactions := TempsByDateDesc(temps, detailStart, w.end);
    var timeline := GenerateTimeline(active, expenses, temps, detailStart, w.end, currentBalance);
    if timeline.None? { return None; }
    ghost var expected := Report(w, isCurrent, today, calculateStart, currentBalance, salaryAmount, active, expenses, temps,
                                 totals.value, timeline.value);
    assert CycleReportOf(w, isCurrent, today, currentBalance, salaryAmount, loans, expenses, temps) == Some(expected);
    var beforeSalary := if timeline.value == [] then currentBalance else timeline.value[|timeline.value| - 1].balanceAfter;
    var afterSalary := beforeSalary + salaryAmount;
    var daysToSalary := if isCurrent then Some(DaysBetween(today, w.end)) else None;
    return Some(CycleReport(w.start, w.end, isCurrent, daysToSalary, currentBalance, salaryAmount,
                            totals.value.0, totals.value.1, tempIncome, tempExpense,
                            loanPaymentDetails, fixedExpenseDetails, tempTransactions, timeline.value,
                            beforeSalary, afterSalary, beforeSalary >= 0));
  }

  /** A report covers the window it was asked for. */
  lemma ReportWindow(w: Window, isCurrent: bool, today: Date, currentBalance: int, salaryAmount: int,
                     loans: seq<Loan>, expenses: seq<Expense>, temps: seq<TempTransaction>)
    requires ValidDate(w.start) && ValidDate(w.end) && ValidDate(today)
    ensures var c := CycleReportOf(w, isCurrent, today, currentBalance, salaryAmount, loans, expenses, temps);
      c.Some? ==> c.value.cycleStart == w.start && c.value.cycleEnd == w.end && c.value.isCurrent == isCurrent
  {
  }

  /** Only the current cycle reports the days to pay day: the calendar days
      from today to the cycle end, at least one, since the current window
      ends after today; a cycle asked for by date reports none. */
  lemma DaysToSalaryFacts(date: Date, salaryDay: int, isCurrent: bool, today: Date, currentBalance: int,
                          salaryAmount: int, loans: seq<Loan>, expenses: seq<Expense>, temps: seq<TempTransaction>)
    requires ValidDate(date) && ValidDate(today)
    ensures var c := CycleAt(date, salaryDay, isCurrent, today, currentBalance, salaryAmount, loans, expenses, temps);
      c.Some? ==>
        (c.value.daysToSalary.Some? <==> isCurrent)
        && (isCurrent ==> c.value.daysToSalary.value == DaysBetween(today, c.value.cycleEnd))
        && (isCurrent && date == today ==> c.value.daysToSalary.value >= 1)
  {
    var c := CycleAt(date, salaryDay, isCurrent, today, currentBalance, salaryAmount, loans, expenses, temps);
    if c.Some? {
      CycleWindowFacts(date, salaryDay);
      var w := CycleWindow(date, salaryDay).value;
      var active := ActiveLoans(loans);
      var from := if isCurrent then today else w.start;
      var totals := ShownTotals(w, isCurrent, today, active, expenses).value;
      var t := Timeline(active, expenses, temps, from, w.end, currentBalance).value;
      assert c.value == Report(w, isCurrent, today, from, currentBalance, salaryAmount, active, expenses, temps, totals, t);
      DayNumberOrder(date, w.end);
    }
  }

  /** The walk over the sorted events: one entry per event, in date order,
      ending at the seed plus the net of all events. */
  lemma SortedWalkFacts(events: seq<CycleEvent>, seed: int)
    requires Walk(SortBy(events, CycleEventKey), seed).Some?
    ensures var t := Walk(SortBy(events, CycleEventKey), seed).value;
      |t| == |events|
      && (forall k, l :: 0 <= k < l < |t| ==> NotAfter(t[k].event.date, t[l].event.date))
      && BeforeSalary(t, seed) == seed + SumOf(events, Signed)
  {
    var sorted := SortBy(events, CycleEventKey);
    var t := Walk(sorted, seed).value;
    SortByFacts(events, CycleEventKey);
    SortBySum(events, CycleEventKey, Signed);
    BeforeSalaryIsNet(sorted, seed);
    forall k, l | 0 <= k < l < |t| ensures NotAfter(t[k].event.date, t[l].event.date) {
      WalkAt(sorted, seed, k);
      WalkAt(sorted, seed, l);
      assert CycleEventKey(sorted[k]) <= CycleEventKey(sorted[l]);
    }
  }

  /** The report's figures: the timeline holds every detail and transaction
      in date order, the balance before pay day is the current balance plus
      the net of all events, the balance after adds the salary, and the
      cycle is sufficient iff the balance before pay day is not negative. */
  lemma CycleFigures(w: Window, isCurrent: bool, today: Date, currentBalance: int, salaryAmount: int,
                     loans: seq<Loan>, expenses: seq<Expense>, temps: seq<TempTransaction>)
    requires ValidDate(w.start) && ValidDate(w.end) && ValidDate(today)
    requires CycleReportOf(w, isCurrent, today, currentBalance, salaryAmount, loans, expenses, temps).Some?
    ensures var c := CycleReportOf(w, isCurrent, today, currentBalance, salaryAmount, loans, expenses, temps).value;
      var from := if isCurrent then today else w.start;
      var events := CycleEvents(ActiveLoans(loans), expenses, temps, from, w.end);
      |c.timeline| == |c.loanPaymentDetails| + |c.fixedExpenseDetails| + |c.tempTransactions|
      && (forall k, l :: 0 <= k < l < |c.timeline| ==> NotAfter(c.timeline[k].event.date, c.timeline[l].event.date))
      && c.beforeSalaryBalance == currentBalance + SumOf(events, Signed)
      && c.afterSalaryBalance == c.beforeSalaryBalance + salaryAmount
      && (c.isSufficient <==> c.beforeSalaryBalance >= 0)
  {
    var active := ActiveLoans(loans);
    var from := if isCurrent then today else w.start;
    var events := CycleEvents(active, expenses, temps, from, w.end);
    var totals := ShownTotals(w, isCurrent, today, active, expenses).value;
    var t := Walk(SortBy(events, CycleEventKey), currentBalance).value;
    assert CycleReportOf(w, isCurrent, today, currentBalance, salaryAmount, loans, expenses, temps).value
      == Report(w, isCurrent, today, from, currentBalance, salaryAmount, active, expenses, temps, totals, t);
    SortedWalkFacts(events, currentBalance);
  }

  /** The cycle around `date`, or `None` when its window or its report fails. */
  function CycleAt(date: Date, salaryDay: int, isCurrent: bool, today: Date, currentBalance: int, salaryAmount: int,
                   loans: seq<Loan>, expenses: seq<Expense>, temps: seq<TempTransaction>): Option<CycleReport>
    requires ValidDate(date) && ValidDate(today)
  {
    var w := CycleWindow(date, salaryDay);
    if w.None? then None
    else
      CycleWindowFacts(date, salaryDay);
      CycleReportOf(w.value, isCurrent, today, currentBalance, salaryAmount, loans, expenses, temps)
  }

  /** `getCurrentCycle()` */
  method CurrentCycle(today: Date, salaryDay: int, currentBalance: int, salaryAmount: int,
                      loans: seq<Loan>, expenses: seq<Expense>, temps: seq<TempTransaction>) returns (r: Option<CycleReport>)
    requires ValidDate(today)
    ensures r == CycleAt(today, salaryDay, true, today, currentBalance, salaryAmount, loans, expenses, temps)
  {
    var w := CycleWindow(today, salaryDay);
    if w.None? { return None; }
    CycleWindowFacts(today, salaryDay);
    r := CalculateCycle(w.value, true, today, currentBalance, salaryAmount, loans, expenses, temps);
  }

  /** `getCycleByDate(date)` */
  method CycleByDate(date: Date, today: Date, salaryDay: int, currentBalance: int, salaryAmount: int,
                     loans: seq<Loan>, expenses: seq<Expense>, temps: seq<TempTransaction>) returns (r: Option<CycleReport>)
    requires ValidDate(date) && ValidDate(today)
    ensures r == CycleAt(date, salaryDay, false, today, currentBalance, salaryAmount, loans, expenses, temps)
  {
    var w := CycleWindow(date, salaryDay);
    if w.None? { return None; }
    CycleWindowFacts(date, salaryDay);
    r := CalculateCycle(w.value, false, today, currentBalance, salaryAmount, loans, expenses, temps);
  }

  /** The first cycle start of `getFutureCycles`: this month's pay day, or
      one month before it when it has not come yet. */
  function FirstCycleStart(today: Date, salaryDay: int): Option<Date>
    requires ValidDate(today)
  {
    match Of(today.year, today.month, salaryDay)
    case None => None
    case Some(payDay) => if today.day >= salaryDay then Some(payDay) else Some(MinusMonths(payDay, 1))
  }

  function FutureWindow(first: Date, i: int): (w: Window)
    requires ValidDate(first)
    ensures ValidDate(w.start) && ValidDate(w.end)
  {
    var start := PlusMonths(first, i);
    Window(start, PlusMonths(start, 1))
  }

  /** Cycle i of `getFutureCycles`: the window i months after the first,
      marked current only for i = 0. */
  function FutureCycle(first: Date, i: int, today: Date, currentBalance: int, salaryAmount: int,
                       loans: seq<Loan>, expenses: seq<Expense>, temps: seq<TempTransaction>): (r: Option<CycleReport>)
    requires ValidDate(first) && ValidDate(today)
    ensures r.Some? ==>
      r.value.cycleStart == PlusMonths(first, i) && r.value.cycleEnd == PlusMonths(r.value.cycleStart, 1)
      && (r.value.isCurrent <==> i == 0)
  {
    var w := FutureWindow(first, i);
    ReportWindow(w, i == 0, today, currentBalance, salaryAmount, loans, expenses, temps);
    CycleReportOf(w, i == 0, today, currentBalance, salaryAmount, loans, expenses, temps)
  }

  /** `getFutureCycles(count)` */
  function FutureCyclesOf(count: int, today: Date, salaryDay: int, currentBalance: int, salaryAmount: int,
                          loans: seq<Loan>, expenses: seq<Expense>, temps: seq<TempTransaction>): Option<seq<CycleReport>>
    requires ValidDate(today)
  {
    match FirstCycleStart(today, salaryDay)
    case None => None
    case Some(first) =>
      if count <= 0 then Some([])
      else AllSome(seq(count, i => FutureCycle(first, i, today, currentBalance, salaryAmount, loans, expenses, temps)))
  }

  /** One iteration of the `getFutureCycles` loop. */
  method NextFutureCycle(first: Date, i: int, today: Date, currentBalance: int, salaryAmount: int,
                         loans: seq<Loan>, expenses: seq<Expense>, temps: seq<TempTransaction>) returns (c: Option<CycleReport>)
    requires ValidDate(first) && ValidDate(today)
    ensures c == FutureCycle(first, i, today, currentBalance, salaryAmount, loans, expenses, temps)
  {
    var cycleStart := PlusMonths(first, i);
    var cycleEnd := PlusMonths(cycleStart, 1);
    c := CalculateCycle(Window(cycleStart, cycleEnd), i == 0, today, currentBalance, salaryAmount, loans, expenses, temps);
  }

  method FutureCycles(count: int, today: Date, salaryDay: int, currentBalance: int, salaryAmount: int,
                      loans: seq<Loan>, expenses: seq<Expense>, temps: seq<TempTransaction>) returns (r: Option<seq<CycleReport>>)
    requires ValidDate(today)
    ensures r == FutureCyclesOf(count, today, salaryDay, currentBalance, salaryAmount, loans, expenses, temps)
  {
    var payDay := Of(today.year, today.month, salaryDay);
    if payDay.None? { return None; }
    var currentCycleStart := if today.day >= salaryDay then payDay.value else MinusMonths(payDay.value, 1);
    if count <= 0 { return Some([]); }
    var cycles: seq<CycleReport> := [];
    var i := 0;
    while i < count
      invariant 0 <= i <= count && |cycles| == i
      invariant CyclesUpTo(currentCycleStart, cycles, today, currentBalance, salaryAmount, loans, expenses, temps)
    {
      var c := NextFutureCycle(currentCycleStart, i, today, currentBalance, salaryAmount, loans, expenses, temps);
      if c.None? {
        FutureCyclesFail(count, i, today, salaryDay, currentBalance, salaryAmount, loans, expenses, temps);
        return None;
      }
      CyclesUpToSnoc(currentCycleStart, cycles, c.value, today, currentBalance, salaryAmount, loans, expenses, temps);
      cycles := cycles + [c.value];
      i := i + 1;
    }
    FutureCyclesBuilt(count, cycles, today, salaryDay, currentBalance, salaryAmount, loans, expenses, temps);
    return Some(cycles);
  }

  /** The cycles computed so far are the first |cycles| future cycles. */
  predicate CyclesUpTo(first: Date, cycles: seq<CycleReport>, today: Date, currentBalance: int, salaryAmount: int,
                       loans: seq<Loan>, expenses: seq<Expense>, temps: seq<TempTransaction>)
    requires ValidDate(first) && ValidDate(today)
  {
    forall k :: 0 <= k < |cycles| ==>
      FutureCycle(first, k, today, currentBalance, salaryAmount, loans, expenses, temps) == Some(cycles[k])
  }

  lemma CyclesUpToSnoc(first: Date, cycles: seq<CycleReport>, c: CycleReport, today: Date, currentBalance: int,
                       salaryAmount: int, loans: seq<Loan>, expenses: seq<Expense>, temps: seq<TempTransaction>)
    requires ValidDate(first) && ValidDate(today)
    requires CyclesUpTo(first, cycles, today, currentBalance, salaryAmount, loans, expenses, temps)
    requires FutureCycle(first, |cycles|, today, currentBalance, salaryAmount, loans, expenses, temps) == Some(c)
    ensures CyclesUpTo(first, cycles + [c], today, currentBalance, salaryAmount, loans, expenses, temps)
  {
    var next := cycles + [c];
    forall k | 0 <= k < |next|
      ensures FutureCycle(first, k, today, currentBalance, salaryAmount, loans, expenses, temps) == Some(next[k])
    {
      if k < |cycles| { assert next[k] == cycles[k]; }
    }
  }

  lemma FutureCyclesFail(count: int, i: int, today: Date, salaryDay: int, currentBalance: int, salaryAmount: int,
                         loans: seq<Loan>, expenses: seq<Expense>, temps: seq<TempTransaction>)
    requires ValidDate(today) && FirstCycleStart(today, salaryDay).Some? && 0 <= i < count
    requires FutureCycle(FirstCycleStart(today, salaryDay).value, i, today, currentBalance, salaryAmount, loans, expenses, temps).None?
    ensures FutureCyclesOf(count, today, salaryDay, currentBalance, salaryAmount, loans, expenses, temps).None?
  {
    var first := FirstCycleStart(today, salaryDay).value;
    var reports := seq(count, k => FutureCycle(first, k, today, currentBalance, salaryAmount, loans, expenses, temps));
    assert reports[i].None?;
  }

  lemma FutureCyclesBuilt(count: int, cycles: seq<CycleReport>, today: Date, salaryDay: int, currentBalance: int,
                          salaryAmount: int, loans: seq<Loan>, expenses: seq<Expense>, temps: seq<TempTransaction>)
    requires ValidDate(today) && FirstCycleStart(today, salaryDay).Some? && 0 < count == |cycles|
    requires CyclesUpTo(FirstCycleStart(today, salaryDay).value, cycles, today, currentBalance, salaryAmount, loans, expenses, temps)
    ensures FutureCyclesOf(count, today, salaryDay, currentBalance, salaryAmount, loans, expenses, temps) == Some(cycles)
  {
    var first := FirstCycleStart(today, salaryDay).value;
    var reports := seq(count, k => FutureCycle(first, k, today, currentBalance, salaryAmount, loans, expenses, temps));
    assert AllSome(reports).value == cycles;
  }

  /** `count` cycles, consecutive from the first start, each one month long,
      and only the first marked current; the first start is the start of the
      current cycle's window. */
  lemma FutureCyclesFacts(count: int, today: Date, salaryDay: int, currentBalance: int, salaryAmount: int,
                          loans: seq<Loan>, expenses: seq<Expense>, temps: seq<TempTransaction>)
    requires ValidDate(today)
    requires FutureCyclesOf(count, today, salaryDay, currentBalance, salaryAmount, loans, expenses, temps).Some?
    ensures var cs := FutureCyclesOf(count, today, salaryDay, currentBalance, salaryAmount, loans, expenses, temps).value;
      var first := FirstCycleStart(today, salaryDay).value;
      first == CycleWindow(today, salaryDay).value.start
      && |cs| == (if count > 0 then count else 0)
      && forall k :: 0 <= k < |cs| ==>
           cs[k].cycleStart == PlusMonths(first, k)
           && cs[k].cycleEnd == PlusMonths(cs[k].cycleStart, 1)
           && (cs[k].isCurrent <==> k == 0)
  {
    var first := FirstCycleStart(today, salaryDay).value;
    if count > 0 {
      var reports := seq(count, i => FutureCycle(first, i, today, currentBalance, salaryAmount, loans, expenses, temps));
      var cs := AllSome(reports).value;
      forall k | 0 <= k < |cs|
        ensures cs[k].cycleStart == PlusMonths(first, k) && cs[k].cycleEnd == PlusMonths(cs[k].cycleStart, 1)
        ensures cs[k].isCurrent <==> k == 0
      {
        assert reports[k] == FutureCycle(first, k, today, currentBalance, salaryAmount, loans, expenses, temps);
      }
    }
  }

  /** The first future cycle need not be the current cycle: on 10 March 2024
      with pay day 31 the current cycle ends on 31 March, the first future
      cycle on 29 March. */
  lemma FirstFutureCycleDiffers()
    ensures FirstCycleStart(Date(2024, 3, 10), 31) == Some(Date(2024, 2, 29))
    ensures FutureWindow(Date(2024, 2, 29), 0).end == Date(2024, 3, 29)
    ensures CycleWindow(Date(2024, 3, 10), 31).value.end == Date(2024, 3, 31)
  {
    assert Of(2024, 3, 31) == Some(Date(2024, 3, 31));
    assert MinusMonths(Date(2024, 3, 31), 1) == Date(2024, 2, 29);
    PlusZeroMonths(Date(2024, 2, 29));
    assert PlusMonths(Date(2024, 2, 29), 1) == Date(2024, 3, 29);
  }
}
