/** `CalendarService`: which loans are still being repaid in a month, and
    their payments grouped by payment day. */
module Calendar {
  import opened Wrappers
  import opened Dates
  import opened Sorting
  import opened Loans

  /** One listed payment: loan id, name, platform and monthly amount. */
  datatype CalendarEntry = CalendarEntry(loanId: int, loanName: string, platform: Option<string>, amount: Option<int>)

  datatype MonthSummary = MonthSummary(
    year: int,
    month: int,
    dailyPayments: map<int, seq<CalendarEntry>>,
    monthTotal: int,
    monthCount: int)

  function EntryOf(loan: Loan): CalendarEntry
  {
    CalendarEntry(loan.id, loan.loanName, loan.platform, loan.monthlyPayment)
  }

  /** `isLoanActiveInMonth(loan, targetMonth)` with today's date as a
      parameter. Without period counts the window is last month to next
      month; otherwise it runs from the start month (the start date's, or
      `paidPeriods` months before today) to `remainingPeriods` months after
      today, and is empty when nothing remains. */
  function ActiveInMonth(loan: Loan, target: Date, today: Date): bool
  {
    if loan.totalPeriods.None? || loan.paidPeriods.None? then
      var minMonth := FirstOfIndex(MonthIndex(MinusMonths(today, 1)));
      var maxMonth := FirstOfIndex(MonthIndex(PlusMonths(today, 2)));
      !Before(target, minMonth) && Before(target, maxMonth)
    else
      var paid := loan.paidPeriods.value;
      var remaining := loan.totalPeriods.value - paid;
      if remaining <= 0 then false
      else
        var start := if loan.startDate.Some? then FirstOfIndex(MonthIndex(loan.startDate.value))
                     else FirstOfIndex(MonthIndex(MinusMonths(today, paid)));
        var end := FirstOfIndex(MonthIndex(PlusMonths(today, remaining)));
        var targetFirst := FirstOfIndex(MonthIndex(target));
        !Before(targetFirst, start) && Before(targetFirst, PlusMonths(end, 1))
  }

  /** The first month the loan is shown in, when it has period counts. */
  function StartIndex(loan: Loan, today: Date): int
    requires loan.paidPeriods.Some?
  {
    if loan.startDate.Some? then MonthIndex(loan.startDate.value) else MonthIndex(today) - loan.paidPeriods.value
  }

  /** The window as month numbers: the month before today to the month
      after it without period counts; otherwise from the start month up to
      and including `remainingPeriods` months after today. */
  lemma ActiveInMonthWindow(loan: Loan, target: Date, today: Date)
    requires ValidDate(target)
    ensures ActiveInMonth(loan, target, today) <==>
      if loan.totalPeriods.None? || loan.paidPeriods.None? then
        MonthIndex(today) - 1 <= MonthIndex(target) <= MonthIndex(today) + 1
      else
        loan.totalPeriods.value - loan.paidPeriods.value > 0
        && StartIndex(loan, today) <= MonthIndex(target)
        && MonthIndex(target) <= MonthIndex(today) + loan.totalPeriods.value - loan.paidPeriods.value
  {
  }

  /** A loan whose periods are all paid is shown in no month. */
  lemma FinishedNeverShown(loan: Loan, target: Date, today: Date)
    requires loan.totalPeriods.Some? && loan.paidPeriods.Some?
    requires loan.paidPeriods.value >= loan.totalPeriods.value
    ensures !ActiveInMonth(loan, target, today)
  {
  }

  /** Reading the payment day of a loan shown in the month throws when it
      is null, which fails the whole request. */
  predicate NoMissingDay(loans: seq<Loan>, target: Date, today: Date)
  {
    forall k :: 0 <= k < |loans| && ActiveInMonth(loans[k], target, today) ==> loans[k].paymentDay.Some?
  }

  /** The loans shown in the month, in table order. */
  function InMonthLoans(loans: seq<Loan>, target: Date, today: Date): seq<Loan>
  {
    if loans == [] then []
    else
      var last := loans[|loans| - 1];
      InMonthLoans(loans[..|loans| - 1], target, today) + (if ActiveInMonth(last, target, today) then [last] else [])
  }

  /** A payment day that is a real date of the target month. */
  predicate DayExists(loan: Loan, target: Date)
  {
    loan.paymentDay.Some? && Of(target.year, target.month, loan.paymentDay.value).Some?
  }

  /** The loans the month summary lists: shown in the month, on a day the
      month has. */
  function Listed(loans: seq<Loan>, target: Date, today: Date): seq<Loan>
  {
    if loans == [] then []
    else
      var last := loans[|loans| - 1];
      Listed(loans[..|loans| - 1], target, today)
        + (if ActiveInMonth(last, target, today) && DayExists(last, target) then [last] else [])
  }

  /** The entries of the loans that pay on `day`, in order. */
  function EntriesOn(loans: seq<Loan>, day: int): seq<CalendarEntry>
  {
    if loans == [] then []
    else
      var last := loans[|loans| - 1];
      EntriesOn(loans[..|loans| - 1], day) + (if last.paymentDay == Some(day) then [EntryOf(last)] else [])
  }

  function PaymentDays(loans: seq<Loan>): set<int>
  {
    set l | l in loans && l.paymentDay.Some? :: l.paymentDay.value
  }

  /** `dailyPayments`: each payment day of the listed loans, with their
      entries. */
  function DailyOf(loans: seq<Loan>): map<int, seq<CalendarEntry>>
  {
    map d | d in PaymentDays(loans) :: EntriesOn(loans, d)
  }

  /** The amount added to the month total: a null monthly payment throws
      after the entry is listed, so it adds nothing. */
  function KnownAmount(loan: Loan): int { loan.monthlyPayment.GetOr(0) }

  function CountKnown(loans: seq<Loan>): int
  {
    if loans == [] then 0
    else CountKnown(loans[..|loans| - 1]) + (if loans[|loans| - 1].monthlyPayment.Some? then 1 else 0)
  }

  /** `getMonthSummary(year, month)` over the given active loans; `None`
      when the month is not a month or a shown loan has no payment day. */
  function MonthSummaryOf(loans: seq<Loan>, year: int, month: int, today: Date): Option<MonthSummary>
  {
    if Of(year, month, 1).None? then None
    else
      var target := Date(year, month, 1);
      if !NoMissingDay(loans, target, today) then None
      else
        var listed := Listed(loans, target, today);
        Some(MonthSummary(year, month, DailyOf(listed), SumOf(listed, KnownAmount), CountKnown(listed)))
  }

  /** `getDayPayments(year, month, day)` over the given active loans: the
      shown loans whose payment day is `day`, whether or not the month has
      that day. */
  function DayPaymentsOf(loans: seq<Loan>, year: int, month: int, day: int, today: Date): Option<seq<CalendarEntry>>
  {
    if Of(year, month, 1).None? then None
    else
      var target := Date(year, month, 1);
      if !NoMissingDay(loans, target, today) then None
      else Some(EntriesOn(InMonthLoans(loans, target, today), day))
  }

  lemma EntriesOnSnoc(loans: seq<Loan>, l: Loan, d: int)
    ensures EntriesOn(loans + [l], d) == EntriesOn(loans, d) + (if l.paymentDay == Some(d) then [EntryOf(l)] else [])
  {
    assert (loans + [l])[..|loans|] == loans;
  }

  lemma {:induction false} EntriesOnEmpty(loans: seq<Loan>, d: int)
    ensures EntriesOn(loans, d) == [] <==> d !in PaymentDays(loans)
    decreases |loans|
  {
    if loans != [] {
      var init := loans[..|loans| - 1];
      var last := loans[|loans| - 1];
      EntriesOnEmpty(init, d);
      assert loans == init + [last];
      assert PaymentDays(loans) == PaymentDays(init) + (if last.paymentDay.Some? then {last.paymentDay.value} else {});
    }
  }

  /** Listing one more loan appends its entry under its payment day. */
  lemma DailySnoc(loans: seq<Loan>, l: Loan)
    requires l.paymentDay.Some?
    ensures var daily := DailyOf(loans);
      var pd := l.paymentDay.value;
      DailyOf(loans + [l]) == daily[pd := (if pd in daily then daily[pd] else []) + [EntryOf(l)]]
  {
    var pd := l.paymentDay.value;
    var daily := DailyOf(loans);
    var next := loans + [l];
    assert PaymentDays(next) == PaymentDays(loans) + {pd};
    forall d | d in PaymentDays(next) ensures EntriesOn(next, d) == daily[pd := (if pd in daily then daily[pd] else []) + [EntryOf(l)]][d] {
      EntriesOnSnoc(loans, l, d);
      if d == pd && pd !in daily {
        EntriesOnEmpty(loans, d);
      }
    }
  }

  /** Among the loans shown, the ones on a day the month has are the ones
      the summary lists; for such a day both list the same entries. */
  lemma {:induction false} ListedOnRealDay(loans: seq<Loan>, target: Date, today: Date, d: int)
    requires Of(target.year, target.month, d).Some?
    ensures EntriesOn(InMonthLoans(loans, target, today), d) == EntriesOn(Listed(loans, target, today), d)
    decreases |loans|
  {
    if loans != [] {
      var init := loans[..|loans| - 1];
      var last := loans[|loans| - 1];
      ListedOnRealDay(init, target, today, d);
      var shown := InMonthLoans(init, target, today);
      var listed := Listed(init, target, today);
      assert InMonthLoans(loans, target, today) == shown + (if ActiveInMonth(last, target, today) then [last] else []);
      assert Listed(loans, target, today)
        == listed + (if ActiveInMonth(last, target, today) && DayExists(last, target) then [last] else []);
      if ActiveInMonth(last, target, today) {
        EntriesOnSnoc(shown, last, d);
        if DayExists(last, target) {
          EntriesOnSnoc(listed, last, d);
        } else {
          assert last.paymentDay != Some(d);
          assert listed + [] == listed;
        }
      } else {
        assert shown + [] == shown && listed + [] == listed;
      }
    }
  }

  /** The day view agrees with the month view: for a day the month has,
      both fail together, and otherwise `getDayPayments` lists exactly the
      summary's entries for that day, in the same order. */
  lemma DayMatchesMonth(loans: seq<Loan>, year: int, month: int, d: int, today: Date)
    requires Of(year, month, d).Some?
    ensures MonthSummaryOf(loans, year, month, today).Some? <==> DayPaymentsOf(loans, year, month, d, today).Some?
    ensures MonthSummaryOf(loans, year, month, today).Some? ==>
      var daily := MonthSummaryOf(loans, year, month, today).value.dailyPayments;
      DayPaymentsOf(loans, year, month, d, today).value == (if d in daily then daily[d] else [])
  {
    var target := Date(year, month, 1);
    if MonthSummaryOf(loans, year, month, today).Some? {
      var listed := Listed(loans, target, today);
      ListedOnRealDay(loans, target, today, d);
      EntriesOnEmpty(listed, d);
    }
  }

  /** The month count is the number of listed loans when every monthly
      payment is known. */
  lemma {:induction false} CountKnownAll(loans: seq<Loan>)
    requires forall k :: 0 <= k < |loans| ==> loans[k].monthlyPayment.Some?
    ensures CountKnown(loans) == |loans|
    decreases |loans|
  {
    if loans != [] {
      CountKnownAll(loans[..|loans| - 1]);
    }
  }

  /** The entries under a day are those of the loans paying on it. */
  lemma {:induction false} EntriesOnMembers(loans: seq<Loan>, d: int)
    ensures forall e :: e in EntriesOn(loans, d) <==> exists l :: l in loans && l.paymentDay == Some(d) && e == EntryOf(l)
    decreases |loans|
  {
    if loans != [] {
      var init := loans[..|loans| - 1];
      EntriesOnMembers(init, d);
      assert loans == init + [loans[|loans| - 1]];
    }
  }

  /** The month summary: its days are real days of the month, each with at
      least one entry; the entries under a day are exactly those of the
      loans shown in the month that pay on it; and when every monthly
      payment is known the count is the number of listed loans; the total
      is the sum of the listed loans' known payments. */
  lemma MonthSummaryFacts(loans: seq<Loan>, year: int, month: int, today: Date)
    requires MonthSummaryOf(loans, year, month, today).Some?
    ensures var s := MonthSummaryOf(loans, year, month, today).value;
      var target := Date(year, month, 1);
      s.year == year && s.month == month
      && (forall d :: d in s.dailyPayments ==> Of(year, month, d).Some? && s.dailyPayments[d] != [])
      && (forall d :: d in s.dailyPayments ==>
            forall e :: e in s.dailyPayments[d] <==>
              exists l :: l in loans && ActiveInMonth(l, target, today) && l.paymentDay == Some(d) && e == EntryOf(l))
      && (forall l :: l in loans && ActiveInMonth(l, target, today) && DayExists(l, target) ==>
            l.paymentDay.value in s.dailyPayments && EntryOf(l) in s.dailyPayments[l.paymentDay.value])
      && ((forall l :: l in loans ==> l.monthlyPayment.Some?) ==> s.monthCount == |Listed(loans, target, today)|)
      && s.monthTotal == SumOf(Listed(loans, target, today), KnownAmount)
      && ((forall l :: l in loans && l.monthlyPayment.Some? ==> l.monthlyPayment.value >= 0) ==> s.monthTotal >= 0)
  {
    var s := MonthSummaryOf(loans, year, month, today).value;
    var target := Date(year, month, 1);
    var listed := Listed(loans, target, today);
    ListedFacts(loans, target, today);
    forall d | d in s.dailyPayments
      ensures Of(year, month, d).Some? && s.dailyPayments[d] != []
      ensures forall e :: e in s.dailyPayments[d] <==>
        exists l :: l in loans && ActiveInMonth(l, target, today) && l.paymentDay == Some(d) && e == EntryOf(l)
    {
      var l :| l in listed && l.paymentDay.Some? && l.paymentDay.value == d;
      assert DayExists(l, target);
      EntriesOnEmpty(listed, d);
      EntriesOnMembers(listed, d);
      forall e | exists l :: l in loans && ActiveInMonth(l, target, today) && l.paymentDay == Some(d) && e == EntryOf(l)
        ensures e in s.dailyPayments[d]
      {
        var m :| m in loans && ActiveInMonth(m, target, today) && m.paymentDay == Some(d) && e == EntryOf(m);
        assert DayExists(m, target);
        assert m in listed;
      }
    }
    forall l | l in loans && ActiveInMonth(l, target, today) && DayExists(l, target)
      ensures l.paymentDay.value in s.dailyPayments && EntryOf(l) in s.dailyPayments[l.paymentDay.value]
    {
      assert l in listed;
      EntriesOnMembers(listed, l.paymentDay.value);
    }
    if forall l :: l in loans ==> l.monthlyPayment.Some? {
      CountKnownAll(listed);
    }
    if forall l :: l in loans && l.monthlyPayment.Some? ==> l.monthlyPayment.value >= 0 {
      KnownTotalNonNegative(listed);
    }
  }

  /** Amounts that are not negative add up to a total that is not negative;
      a loan without a monthly payment adds nothing. */
  lemma {:induction false} KnownTotalNonNegative(loans: seq<Loan>)
    requires forall l :: l in loans && l.monthlyPayment.Some? ==> l.monthlyPayment.value >= 0
    ensures SumOf(loans, KnownAmount) >= 0
    decreases |loans|
  {
    if loans != [] {
      var init := loans[..|loans| - 1];
      assert forall l :: l in init ==> l in loans;
      KnownTotalNonNegative(init);
      assert loans[|loans| - 1] in loans;
    }
  }

  /** Every listed loan is shown in the month, on a day the month has, and
      the listed loans are drawn in order from the given ones. */
  lemma {:induction false} ListedFacts(loans: seq<Loan>, target: Date, today: Date)
    ensures var listed := Listed(loans, target, today);
      |listed| <= |loans|
      && forall l :: l in listed <==> l in loans && ActiveInMonth(l, target, today) && DayExists(l, target)
    decreases |loans|
  {
    if loans != [] {
      var init := loans[..|loans| - 1];
      ListedFacts(init, target, today);
      assert loans == init + [loans[|loans| - 1]];
    }
  }

  lemma PrefixSnoc(loans: seq<Loan>, i: int, target: Date, today: Date)
    requires 0 <= i < |loans|
    ensures var l := loans[i];
      Listed(loans[..i + 1], target, today)
        == Listed(loans[..i], target, today) + (if ActiveInMonth(l, target, today) && DayExists(l, target) then [l] else [])
      && InMonthLoans(loans[..i + 1], target, today)
        == InMonthLoans(loans[..i], target, today) + (if ActiveInMonth(l, target, today) then [l] else [])
  {
    assert loans[..i + 1][..i] == loans[..i];
  }

  /** One turn of the `getMonthSummary` loop, on the specification side. */
  lemma ListedStep(loans: seq<Loan>, i: int, target: Date, today: Date)
    requires 0 <= i < |loans|
    ensures ActiveInMonth(loans[i], target, today) && DayExists(loans[i], target) ==>
      Listed(loans[..i + 1], target, today) == Listed(loans[..i], target, today) + [loans[i]]
    ensures !(ActiveInMonth(loans[i], target, today) && DayExists(loans[i], target)) ==>
      Listed(loans[..i + 1], target, today) == Listed(loans[..i], target, today)
  {
    assert loans[..i + 1][..i] == loans[..i];
    assert Listed(loans[..i], target, today) + [] == Listed(loans[..i], target, today);
  }

  /** The summary's accumulators hold exactly what the listed loans give. */
  ghost predicate Tallied(daily: map<int, seq<CalendarEntry>>, total: int, count: int, listed: seq<Loan>)
  {
    daily == DailyOf(listed) && total == SumOf(listed, KnownAmount) && count == CountKnown(listed)
  }

  /** One listed loan: its entry under its day, its amount into the total
      and the count when the amount is known. */
  method TallyOne(daily: map<int, seq<CalendarEntry>>, total: int, count: int, ghost listed: seq<Loan>, loan: Loan)
    returns (daily': map<int, seq<CalendarEntry>>, total': int, count': int)
    requires Tallied(daily, total, count, listed) && loan.paymentDay.Some?
    ensures Tallied(daily', total', count', listed + [loan])
  {
    var paymentDay := loan.paymentDay.value;
    var payments := if paymentDay in daily then daily[paymentDay] else [];
    DailySnoc(listed, loan);
    assert (listed + [loan])[..|listed|] == listed;
    daily' := daily[paymentDay := payments + [EntryOf(loan)]];
    if loan.monthlyPayment.Some? {
      total' := total + loan.monthlyPayment.value;
      count' := count + 1;
    } else {
      total' := total;
      count' := count;
    }
  }

  /** The body of the `getMonthSummary` loop for loan i: `false` is the
      exception of a shown loan without a payment day. */
  method SummarizeLoan(loans: seq<Loan>, i: int, target: Date, today: Date,
                       daily: map<int, seq<CalendarEntry>>, total: int, count: int)
    returns (ok: bool, daily': map<int, seq<CalendarEntry>>, total': int, count': int)
    requires 0 <= i < |loans| && NoMissingDay(loans[..i], target, today)
    requires Tallied(daily, total, count, Listed(loans[..i], target, today))
    ensures ok <==> NoMissingDay(loans[..i + 1], target, today)
    ensures !ok ==> !NoMissingDay(loans, target, today)
    ensures ok ==> Tallied(daily', total', count', Listed(loans[..i + 1], target, today))
  {
    var loan := loans[i];
    ghost var listed := Listed(loans[..i], target, today);
    ListedStep(loans, i, target, today);
    NoMissingDaySnoc(loans, i, target, today);
    daily', total', count' := daily, total, count;
    if ActiveInMonth(loan, target, today) && loan.paymentDay.None? {
      NoMissingDayPrefix(loans, i + 1, target, today);
      return false, daily', total', count';
    }
    if ActiveInMonth(loan, target, today) && Of(target.year, target.month, loan.paymentDay.value).Some? {
      daily', total', count' := TallyOne(daily, total, count, listed, loan);
    }
    return true, daily', total', count';
  }

  /** The loop of `getMonthSummary`. */
  method GetMonthSummary(activeLoans: seq<Loan>, year: int, month: int, today: Date) returns (r: Option<MonthSummary>)
    ensures r == MonthSummaryOf(activeLoans, year, month, today)
  {
    if Of(year, month, 1).None? {
      return None;
    }
    var target := Date(year, month, 1);
    var dailyPayments: map<int, seq<CalendarEntry>> := map[];
    var monthTotal := 0;
    var paymentCount := 0;
    var i := 0;
    while i < |activeLoans|
      invariant 0 <= i <= |activeLoans|
      invariant NoMissingDay(activeLoans[..i], target, today)
      invariant Tallied(dailyPayments, monthTotal, paymentCount, Listed(activeLoans[..i], target, today))
    {
      var ok;
      ok, dailyPayments, monthTotal, paymentCount := SummarizeLoan(activeLoans, i, target, today, dailyPayments, monthTotal, paymentCount);
      if !ok {
        return None;
      }
      i := i + 1;
    }
    assert activeLoans[..i] == activeLoans;
    return Some(MonthSummary(year, month, dailyPayments, monthTotal, paymentCount));
  }

  /** One turn of the `getDayPayments` loop, on the specification side. */
  lemma DayStep(loans: seq<Loan>, i: int, target: Date, today: Date, day: int)
    requires 0 <= i < |loans|
    ensures NoMissingDay(loans[..i + 1], target, today)
            <==> NoMissingDay(loans[..i], target, today) && (ActiveInMonth(loans[i], target, today) ==> loans[i].paymentDay.Some?)
    ensures !NoMissingDay(loans[..i + 1], target, today) ==> !NoMissingDay(loans, target, today)
    ensures EntriesOn(InMonthLoans(loans[..i + 1], target, today), day)
            == EntriesOn(InMonthLoans(loans[..i], target, today), day)
               + (if ActiveInMonth(loans[i], target, today) && loans[i].paymentDay == Some(day) then [EntryOf(loans[i])] else [])
  {
    DayStepEntries(loans, i, target, today, day);
    NoMissingDaySnoc(loans, i, target, today);
    NoMissingDayPrefix(loans, i + 1, target, today);
  }

  lemma NoMissingDaySnoc(loans: seq<Loan>, i: int, target: Date, today: Date)
    requires 0 <= i < |loans|
    ensures NoMissingDay(loans[..i + 1], target, today)
            <==> NoMissingDay(loans[..i], target, today) && (ActiveInMonth(loans[i], target, today) ==> loans[i].paymentDay.Some?)
  {
    var p, q := loans[..i], loans[..i + 1];
    assert forall k :: 0 <= k < i ==> q[k] == p[k];
    assert q[i] == loans[i];
  }

  lemma DayStepEntries(loans: seq<Loan>, i: int, target: Date, today: Date, day: int)
    requires 0 <= i < |loans|
    ensures EntriesOn(InMonthLoans(loans[..i + 1], target, today), day)
            == EntriesOn(InMonthLoans(loans[..i], target, today), day)
               + (if ActiveInMonth(loans[i], target, today) && loans[i].paymentDay == Some(day) then [EntryOf(loans[i])] else [])
  {
    var l := loans[i];
    var shown := InMonthLoans(loans[..i], target, today);
    assert loans[..i + 1][..i] == loans[..i];
    if ActiveInMonth(l, target, today) {
      assert InMonthLoans(loans[..i + 1], target, today) == shown + [l];
      EntriesOnSnoc(shown, l, day);
    } else {
      assert InMonthLoans(loans[..i + 1], target, today) == shown + [];
      assert InMonthLoans(loans[..i + 1], target, today) == shown;
    }
  }

  /** A loan with a missing payment day in a prefix is missing it in the
      whole table. */
  lemma NoMissingDayPrefix(loans: seq<Loan>, n: int, target: Date, today: Date)
    requires 0 <= n <= |loans|
    ensures NoMissingDay(loans, target, today) ==> NoMissingDay(loans[..n], target, today)
  {
    if NoMissingDay(loans, target, today) {
      forall k | 0 <= k < n && ActiveInMonth(loans[..n][k], target, today) ensures loans[..n][k].paymentDay.Some? {
        assert loans[..n][k] == loans[k];
      }
    }
  }

  /** The loop of `getDayPayments`. */
  method GetDayPayments(activeLoans: seq<Loan>, year: int, month: int, day: int, today: Date)
    returns (r: Option<seq<CalendarEntry>>)
    ensures r == DayPaymentsOf(activeLoans, year, month, day, today)
  {
    if Of(year, month, 1).None? {
      return None;
    }
    var target := Date(year, month, 1);
    var payments: seq<CalendarEntry> := [];
    var i := 0;
    while i < |activeLoans|
      invariant 0 <= i <= |activeLoans|
      invariant NoMissingDay(activeLoans[..i], target, today)
      invariant payments == EntriesOn(InMonthLoans(activeLoans[..i], target, today), day)
    {
      var loan := activeLoans[i];
      DayStep(activeLoans, i, target, today, day);
      if ActiveInMonth(loan, target, today) && loan.paymentDay.None? {
        return None;
      }
      if ActiveInMonth(loan, target, today) && loan.paymentDay.value == day {
        payments := payments + [EntryOf(loan)];
      }
      i := i + 1;
    }
    assert activeLoans[..i] == activeLoans;
    return Some(payments);
  }
}
