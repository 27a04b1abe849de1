/** `LoanService.generatePaymentHistory`: back-fills one payment-history row
    per month already paid, skipping a month that already has a row for the
    loan, so that a second run adds nothing. The run is modelled as written
    (`corrected == false`), where a loan without a start date whose first
    date does not exist is skipped, and with the first date corrected
    (`corrected == true`); the properties below hold of both. */
module PaymentHistoryBackfill {
  import opened Wrappers
  import opened Dates
  import opened Loans
  import opened LoanLedger

  const GeneratedNote: string := "系统自动生成的历史记录"

  /** The loans a run may write rows for: paid periods known and positive,
      and a payment day. */
  predicate Eligible(loan: Loan)
  {
    loan.paidPeriods.Some? && loan.paidPeriods.value > 0 && loan.paymentDay.Some?
  }

  /** The first payment date as written: the month after the start date, or
      without a start date `paidPeriods - 1` months before today, on the
      payment day clamped to a month's length. `None` is the exception of
      `withDayOfMonth`, which skips the loan. In the second case the clamp
      uses the length of TODAY's month instead of the target month's. */
  function FirstPaymentDateAsWritten(loan: Loan, today: Date): (r: Option<Date>)
    requires Eligible(loan) && ValidMonth(today)
    ensures r.None? <==>
      loan.paymentDay.value < 1
      || (loan.startDate.None?
          && Min(loan.paymentDay.value, LengthOfMonth(today)) > LengthOfMonth(MinusMonths(today, loan.paidPeriods.value - 1)))
    ensures r.Some? ==>
      ValidDate(r.value)
      && FirstPaymentDate(loan, today).Some?
      && MonthIndex(r.value) == MonthIndex(FirstPaymentDate(loan, today).value)
  {
    var pd := loan.paymentDay.value;
    if loan.startDate.Some? then
      var next := PlusMonths(loan.startDate.value, 1);
      WithDayOfMonth(next, Min(pd, LengthOfMonth(next)))
    else
      var base := MinusMonths(today, loan.paidPeriods.value - 1);
      WithDayOfMonth(base, Min(pd, LengthOfMonth(today)))
  }

  /** The first payment date with the clamp to the target month in both
      cases. */
  function FirstPaymentDate(loan: Loan, today: Date): (r: Option<Date>)
    requires Eligible(loan)
    ensures r.Some? <==> loan.paymentDay.value >= 1
    ensures r.Some? ==>
      ValidDate(r.value)
      && r.value.day == Min(loan.paymentDay.value, DaysInMonth(r.value.year, r.value.month))
      && MonthIndex(r.value) == (if loan.startDate.Some? then MonthIndex(loan.startDate.value) + 1
                                 else MonthIndex(today) - (loan.paidPeriods.value - 1))
  {
    var pd := loan.paymentDay.value;
    var base := if loan.startDate.Some? then PlusMonths(loan.startDate.value, 1)
                else MinusMonths(today, loan.paidPeriods.value - 1);
    WithDayOfMonth(base, Min(pd, LengthOfMonth(base)))
  }

  /** Without a start date, on 2024-03-15, a loan paid for two periods on
      day 31: the code asks for February 31 and skips the loan, while the
      clamp to February gives 2024-02-29. */
  lemma AsWrittenSkipsMonthEnd()
    ensures var loan := Loan(1, "", None, None, 0, Some(100), Some(31), Some(12), Some(2), None, Some(Active), "", None);
      var today := Date(2024, 3, 15);
      FirstPaymentDateAsWritten(loan, today) == None
      && FirstPaymentDate(loan, today) == Some(Date(2024, 2, 29))
  {
    var today := Date(2024, 3, 15);
    assert MinusMonths(today, 1) == Date(2024, 2, 15);
  }

  /** The same loan in a run as written: it writes no row and counts as
      skipped. */
  lemma AsWrittenSkipsLoan()
    ensures var loan := Loan(1, "", None, None, 0, Some(100), Some(31), Some(12), Some(2), None, Some(Active), "", None);
      Backfill([], [loan], Date(2024, 3, 15), false) == BackfillResult([], 0, 1)
  {
    var loan := Loan(1, "", None, None, 0, Some(100), Some(31), Some(12), Some(2), None, Some(Active), "", None);
    var today := Date(2024, 3, 15);
    AsWrittenSkipsMonthEnd();
    assert LoanMonths(loan, today, false) == [];
    assert BackfillLoan([], loan, today, false) == [];
  }

  /** The corrected run writes that loan's rows for 29 February and
      31 March. */
  lemma CorrectedKeepsLoan()
    ensures var loan := Loan(1, "", None, None, 0, Some(100), Some(31), Some(12), Some(2), None, Some(Active), "", None);
      Backfill([], [loan], Date(2024, 3, 15), true)
        == BackfillResult([Row(loan, Date(2024, 2, 29)), Row(loan, Date(2024, 3, 31))], 2, 0)
  {
    var loan := Loan(1, "", None, None, 0, Some(100), Some(31), Some(12), Some(2), None, Some(Active), "", None);
    var today := Date(2024, 3, 15);
    var feb, mar := Date(2024, 2, 29), Date(2024, 3, 31);
    CorrectedMonthEndDates();
    RowsFromTwoMonths(loan, feb, mar);
    BackfillSingle([], loan, today, true);
  }

  /** A run over one loan. */
  lemma BackfillSingle(history: seq<PaymentHistory>, loan: Loan, today: Date, corrected: bool)
    requires ValidMonth(today)
    ensures var next := BackfillLoan(history, loan, today, corrected);
      Backfill(history, [loan], today, corrected)
        == BackfillResult(next, |next| - |history|, if |next| == |history| then 1 else 0)
  {
    var next := BackfillLoan(history, loan, today, corrected);
    assert [loan][1..] == [];
    assert Backfill(next, [], today, corrected) == BackfillResult(next, 0, 0);
  }

  /** Into an empty history, two dates in different months give one row
      each, in order. */
  lemma RowsFromTwoMonths(loan: Loan, a: Date, b: Date)
    requires a.year != b.year || a.month != b.month
    ensures RowsFrom([], loan, [a, b]) == [Row(loan, a), Row(loan, b)]
  {
    var one := [Row(loan, a)];
    assert !HasMonth([], loan.id, a) && [] + [Row(loan, a)] == one;
    assert [a, b][1..] == [b];
    assert RowsFrom([], loan, [a, b]) == RowsFrom(one, loan, [b]);
    assert !HasMonth(one, loan.id, b);
  }

  lemma CorrectedMonthEndDates()
    ensures var loan := Loan(1, "", None, None, 0, Some(100), Some(31), Some(12), Some(2), None, Some(Active), "", None);
      LoanMonths(loan, Date(2024, 3, 15), true) == [Date(2024, 2, 29), Date(2024, 3, 31)]
  {
    var loan := Loan(1, "", None, None, 0, Some(100), Some(31), Some(12), Some(2), None, Some(Active), "", None);
    var ms := LoanMonths(loan, Date(2024, 3, 15), true);
    var feb := Date(2024, 2, 29);
    AsWrittenSkipsMonthEnd();
    assert ms[0] == MonthDate(feb, 31, 0);
    PlusZeroMonths(feb);
    assert ms[1] == MonthDate(feb, 31, 1);
    assert PlusMonths(feb, 1) == Date(2024, 3, 29);
  }

  /** The same date whenever the start date is known or the payment day
      fits every month (28 or less). */
  lemma AsWrittenAgrees(loan: Loan, today: Date)
    requires Eligible(loan) && ValidMonth(today)
    requires loan.startDate.Some? || loan.paymentDay.value <= 28
    ensures FirstPaymentDateAsWritten(loan, today) == FirstPaymentDate(loan, today)
  {
  }

  /** The first date the run uses: as written, or corrected. */
  function FirstDate(loan: Loan, today: Date, corrected: bool): Option<Date>
    requires Eligible(loan) && ValidMonth(today)
  {
    if corrected then FirstPaymentDate(loan, today) else FirstPaymentDateAsWritten(loan, today)
  }

  /** Payment i: i months after the first, on the payment day clamped to
      that month. */
  function MonthDate(first: Date, paymentDay: int, i: int): (d: Date)
    requires paymentDay >= 1
    ensures ValidDate(d) && MonthIndex(d) == MonthIndex(first) + i
    ensures d.day == Min(paymentDay, DaysInMonth(d.year, d.month))
  {
    var m := PlusMonths(first, i);
    WithDayOfMonth(m, Min(paymentDay, LengthOfMonth(m))).value
  }

  /** The payment dates a run covers for a loan, none for a loan it skips
      (ineligible, or no first date). */
  function LoanMonths(loan: Loan, today: Date, corrected: bool): (r: seq<Date>)
    requires ValidMonth(today)
  {
    if !Eligible(loan) then []
    else match FirstDate(loan, today, corrected)
      case None => []
      case Some(first) =>
        seq(loan.paidPeriods.value, i requires 0 <= i < loan.paidPeriods.value => MonthDate(first, loan.paymentDay.value, i))
  }

  /** A row for this loan already falls in d's year and month. */
  predicate HasMonth(history: seq<PaymentHistory>, loanId: int, d: Date)
  {
    exists k :: 0 <= k < |history| && history[k].loanId == loanId
      && history[k].paymentDate.year == d.year && history[k].paymentDate.month == d.month
  }

  function Row(loan: Loan, d: Date): PaymentHistory
  {
    PaymentHistory(loan.id, loan.monthlyPayment, d, false, false, GeneratedNote)
  }

  /** The inner loop: each date whose month has no row yet gets one. */
  function RowsFrom(history: seq<PaymentHistory>, loan: Loan, months: seq<Date>): seq<PaymentHistory>
    decreases |months|
  {
    if months == [] then history
    else
      var next := if HasMonth(history, loan.id, months[0]) then history else history + [Row(loan, months[0])];
      RowsFrom(next, loan, months[1..])
  }

  function BackfillLoan(history: seq<PaymentHistory>, loan: Loan, today: Date, corrected: bool): seq<PaymentHistory>
    requires ValidMonth(today)
  {
    RowsFrom(history, loan, LoanMonths(loan, today, corrected))
  }

  datatype BackfillResult = BackfillResult(history: seq<PaymentHistory>, totalGenerated: int, skipped: int)

  /** The outer loop over the loans: a loan counts as skipped when it writes
      no row, which includes a loan whose first date throws. */
  function Backfill(history: seq<PaymentHistory>, loans: seq<Loan>, today: Date, corrected: bool): BackfillResult
    requires ValidMonth(today)
    decreases |loans|
  {
    if loans == [] then BackfillResult(history, 0, 0)
    else
      var next := BackfillLoan(history, loans[0], today, corrected);
      var generated := |next| - |history|;
      var rest := Backfill(next, loans[1..], today, corrected);
      BackfillResult(rest.history, generated + rest.totalGenerated, (if generated == 0 then 1 else 0) + rest.skipped)
  }

  datatype Generation = LoanMissing | Generated(totalGenerated: int, skipped: int, totalProcessed: int)

  /** The loans a run processes: the one asked for, or all active loans. */
  function ToProcess(loans: seq<Loan>, loanId: Option<int>): Option<seq<Loan>>
  {
    if loanId.None? then Some(ActiveLoans(loans))
    else match FindLoan(loans, loanId.value)
      case None => None
      case Some(k) => Some([loans[k]])
  }

  predicate Covered(history: seq<PaymentHistory>, loan: Loan, today: Date, corrected: bool)
    requires ValidMonth(today)
  {
    forall d :: d in LoanMonths(loan, today, corrected) ==> HasMonth(history, loan.id, d)
  }

  /** The month of the first payment: the one after the start date, or
      without one `paidPeriods - 1` months before today. */
  function FirstMonthIndex(loan: Loan, today: Date): int
    requires Eligible(loan)
  {
    if loan.startDate.Some? then MonthIndex(loan.startDate.value) + 1
    else MonthIndex(today) - (loan.paidPeriods.value - 1)
  }

  /** The dates of an eligible loan: none when its first date fails (as
      written, for a start-date-less month-end payment day; corrected, only
      for a payment day below 1), otherwise `paidPeriods` consecutive months
      from the first payment month, each on the payment day clamped to its
      month. */
  lemma LoanMonthsFacts(loan: Loan, today: Date, corrected: bool)
    requires Eligible(loan) && ValidMonth(today)
    ensures var ms := LoanMonths(loan, today, corrected);
      (ms == [] <==> FirstDate(loan, today, corrected).None?)
      && (corrected ==> (ms == [] <==> loan.paymentDay.value < 1))
      && (ms != [] ==>
           |ms| == loan.paidPeriods.value
           && forall i :: 0 <= i < |ms| ==>
                ValidDate(ms[i]) && MonthIndex(ms[i]) == FirstMonthIndex(loan, today) + i
                && ms[i].day == Min(loan.paymentDay.value, DaysInMonth(ms[i].year, ms[i].month)))
  {
  }

  /** Where the first date as written exists it lies in the corrected
      first date's month, so the two runs write the same dates for the loan;
      the run as written differs only by skipping the loans whose first date
      throws. */
  lemma {:induction false} AsWrittenSameMonths(loan: Loan, today: Date)
    requires ValidMonth(today)
    ensures LoanMonths(loan, today, false)
      == if Eligible(loan) && FirstPaymentDateAsWritten(loan, today).None? then [] else LoanMonths(loan, today, true)
  {
    if Eligible(loan) && FirstPaymentDateAsWritten(loan, today).Some? {
      var a := FirstPaymentDateAsWritten(loan, today).value;
      var b := FirstPaymentDate(loan, today).value;
      var pd := loan.paymentDay.value;
      var ms, cs := LoanMonths(loan, today, false), LoanMonths(loan, today, true);
      assert |ms| == |cs|;
      forall i | 0 <= i < |ms| ensures ms[i] == cs[i] {
        assert ms[i] == MonthDate(a, pd, i) && cs[i] == MonthDate(b, pd, i);
        MonthIndexInjective(ms[i], cs[i]);
      }
    }
  }

  /** The same for one loan's rows. */
  lemma AsWrittenSameRows(history: seq<PaymentHistory>, loan: Loan, today: Date)
    requires ValidMonth(today)
    ensures BackfillLoan(history, loan, today, false)
      == if Eligible(loan) && FirstPaymentDateAsWritten(loan, today).None? then history
         else BackfillLoan(history, loan, today, true)
  {
    AsWrittenSameMonths(loan, today);
  }

  /** A loan without positive paid periods or without a payment day gets no
      rows. */
  lemma IneligibleUntouched(history: seq<PaymentHistory>, loan: Loan, today: Date, corrected: bool)
    requires ValidMonth(today) && !Eligible(loan)
    ensures BackfillLoan(history, loan, today, corrected) == history
  {
  }

  lemma HasMonthExtends(history: seq<PaymentHistory>, more: seq<PaymentHistory>, loanId: int, d: Date)
    requires HasMonth(history, loanId, d)
    ensures HasMonth(history + more, loanId, d)
  {
    var k :| 0 <= k < |history| && history[k].loanId == loanId
      && history[k].paymentDate.year == d.year && history[k].paymentDate.month == d.month;
    assert (history + more)[k] == history[k];
  }

  /** The inner loop only appends rows of this loan, one per listed month
      that had none, and afterwards every listed month has a row. */
  lemma RowsFromFacts(history: seq<PaymentHistory>, loan: Loan, months: seq<Date>)
    ensures var r := RowsFrom(history, loan, months);
      |r| >= |history| && r[..|history|] == history
      && (forall k :: |history| <= k < |r| ==> exists d :: d in months && r[k] == Row(loan, d))
      && (forall d :: d in months ==> HasMonth(r, loan.id, d))
  {
    RowsFromKeeps(history, loan, months);
    RowsFromAdds(history, loan, months);
    RowsFromCovers(history, loan, months);
  }

  /** The inner loop keeps every existing row... */
  lemma {:induction false} RowsFromKeeps(history: seq<PaymentHistory>, loan: Loan, months: seq<Date>)
    ensures var r := RowsFrom(history, loan, months);
      |r| >= |history| && r[..|history|] == history
    decreases |months|
  {
    if months != [] {
      var next := if HasMonth(history, loan.id, months[0]) then history else history + [Row(loan, months[0])];
      RowsFromKeeps(next, loan, months[1..]);
      var r := RowsFrom(next, loan, months[1..]);
      assert r[..|history|] == r[..|next|][..|history|];
    }
  }

  /** ... appends only rows of this loan for listed months... */
  lemma {:induction false} RowsFromAdds(history: seq<PaymentHistory>, loan: Loan, months: seq<Date>)
    ensures var r := RowsFrom(history, loan, months);
      forall k :: |history| <= k < |r| ==> exists d :: d in months && r[k] == Row(loan, d)
    decreases |months|
  {
    if months != [] {
      var d0 := months[0];
      var next := if HasMonth(history, loan.id, d0) then history else history + [Row(loan, d0)];
      RowsFromKeeps(next, loan, months[1..]);
      RowsFromAdds(next, loan, months[1..]);
      var r := RowsFrom(next, loan, months[1..]);
      forall k | |history| <= k < |r| ensures exists d :: d in months && r[k] == Row(loan, d) {
        if k < |next| {
          assert r[k] == r[..|next|][k] == next[k] == Row(loan, d0);
        } else {
          var d :| d in months[1..] && r[k] == Row(loan, d);
          assert d in months;
        }
      }
    }
  }

  /** ... and afterwards every listed month has a row. */
  lemma {:induction false} RowsFromCovers(history: seq<PaymentHistory>, loan: Loan, months: seq<Date>)
    ensures var r := RowsFrom(history, loan, months);
      forall d :: d in months ==> HasMonth(r, loan.id, d)
    decreases |months|
  {
    if months != [] {
      var d0 := months[0];
      var next := if HasMonth(history, loan.id, d0) then history else history + [Row(loan, d0)];
      RowsFromKeeps(next, loan, months[1..]);
      RowsFromCovers(next, loan, months[1..]);
      var r := RowsFrom(next, loan, months[1..]);
      assert HasMonth(next, loan.id, d0) by {
        if !HasMonth(history, loan.id, d0) {
          assert next[|history|] == Row(loan, d0);
        }
      }
      assert HasMonth(r, loan.id, d0) by {
        HasMonthExtends(next, r[|next|..], loan.id, d0);
        assert next + r[|next|..] == r;
      }
      forall d | d in months ensures HasMonth(r, loan.id, d) {
        if d != d0 {
          assert d in months[1..];
        }
      }
    }
  }

  /** When every listed month already has a row, the inner loop adds none. */
  lemma {:induction false} RowsFromCovered(history: seq<PaymentHistory>, loan: Loan, months: seq<Date>)
    requires forall d :: d in months ==> HasMonth(history, loan.id, d)
    ensures RowsFrom(history, loan, months) == history
    decreases |months|
  {
    if months != [] {
      assert months[0] in months;
      RowsFromCovered(history, loan, months[1..]);
    }
  }

  lemma CoveredExtends(history: seq<PaymentHistory>, more: seq<PaymentHistory>, loan: Loan, today: Date, corrected: bool)
    requires ValidMonth(today) && Covered(history, loan, today, corrected)
    ensures Covered(history + more, loan, today, corrected)
  {
    forall d | d in LoanMonths(loan, today, corrected) ensures HasMonth(history + more, loan.id, d) {
      HasMonthExtends(history, more, loan.id, d);
    }
  }

  /** A run keeps every existing row, covers every processed loan's months,
      and reports as generated exactly the rows it added. */
  lemma {:induction false} BackfillFacts(history: seq<PaymentHistory>, loans: seq<Loan>, today: Date, corrected: bool)
    requires ValidMonth(today)
    ensures var b := Backfill(history, loans, today, corrected);
      |b.history| >= |history| && b.history[..|history|] == history
      && b.totalGenerated == |b.history| - |history|
      && 0 <= b.skipped <= |loans|
      && (forall l :: l in loans ==> Covered(b.history, l, today, corrected))
    decreases |loans|
  {
    if loans != [] {
      var next := BackfillLoan(history, loans[0], today, corrected);
      RowsFromFacts(history, loans[0], LoanMonths(loans[0], today, corrected));
      BackfillFacts(next, loans[1..], today, corrected);
      var b := Backfill(history, loans, today, corrected);
      assert b.history == Backfill(next, loans[1..], today, corrected).history;
      assert b.history[..|history|] == b.history[..|next|][..|history|];
      forall l | l in loans ensures Covered(b.history, l, today, corrected) {
        if l !in loans[1..] {
          assert l == loans[0];
          assert Covered(next, l, today, corrected);
          CoveredExtends(next, b.history[|next|..], l, today, corrected);
          assert next + b.history[|next|..] == b.history;
        }
      }
    }
  }

  /** A run over loans whose months all have rows already adds nothing and
      skips every loan. */
  lemma {:induction false} BackfillCovered(history: seq<PaymentHistory>, loans: seq<Loan>, today: Date, corrected: bool)
    requires ValidMonth(today)
    requires forall l :: l in loans ==> Covered(history, l, today, corrected)
    ensures Backfill(history, loans, today, corrected) == BackfillResult(history, 0, |loans|)
    decreases |loans|
  {
    if loans != [] {
      assert loans[0] in loans;
      RowsFromCovered(history, loans[0], LoanMonths(loans[0], today, corrected));
      BackfillCovered(history, loans[1..], today, corrected);
    }
  }

  /** Running the back-fill twice is running it once: the second run
      generates nothing and leaves the history as the first run left it. */
  lemma BackfillIdempotent(history: seq<PaymentHistory>, loans: seq<Loan>, today: Date, corrected: bool)
    requires ValidMonth(today)
    ensures var once := Backfill(history, loans, today, corrected);
      Backfill(once.history, loans, today, corrected) == BackfillResult(once.history, 0, |loans|)
  {
    BackfillFacts(history, loans, today, corrected);
    BackfillCovered(Backfill(history, loans, today, corrected).history, loans, today, corrected);
  }

  /** The body of the `generatePaymentHistory` loop for one loan, inserting
      into the table; a first date that throws is caught and writes nothing. */
  method BackfillOne(tables: LoanTables, loan: Loan, today: Date) returns (generated: int)
    requires ValidDate(today)
    modifies tables
    ensures tables.history == BackfillLoan(old(tables.history), loan, today, false)
    ensures generated == |tables.history| - |old(tables.history)| >= 0 && tables.loans == old(tables.loans)
  {
    ghost var months := LoanMonths(loan, today, false);
    generated := 0;
    if loan.paidPeriods.None? || loan.paidPeriods.value <= 0 || loan.paymentDay.None? {
      return;
    }
    var first := FirstPaymentDateAsWritten(loan, today);
    if first.None? {
      return;
    }
    var paymentDay := loan.paymentDay.value;
    var i := 0;
    while i < loan.paidPeriods.value
      invariant 0 <= i <= loan.paidPeriods.value && tables.loans == old(tables.loans)
      invariant BackfillLoan(old(tables.history), loan, today, false) == RowsFrom(tables.history, loan, months[i..])
      invariant generated == |tables.history| - |old(tables.history)| && generated >= 0
    {
      var paymentDate := MonthDate(first.value, paymentDay, i);
      assert months[i..][0] == paymentDate;
      assert months[i..][1..] == months[i + 1..];
      if !HasMonth(tables.history, loan.id, paymentDate) {
        tables.history := tables.history + [Row(loan, paymentDate)];
        generated := generated + 1;
      }
      i := i + 1;
    }
  }

  /** The counts of the loans before the remaining ones added to a run over
      those. */
  function Offset(b: BackfillResult, generated: int, skipped: int): BackfillResult
  {
    BackfillResult(b.history, b.totalGenerated + generated, b.skipped + skipped)
  }

  lemma BackfillStep(history: seq<PaymentHistory>, loans: seq<Loan>, i: int, today: Date)
    requires ValidMonth(today) && 0 <= i < |loans|
    ensures var next := BackfillLoan(history, loans[i], today, false);
      var generated := |next| - |history|;
      Backfill(history, loans[i..], today, false)
        == Offset(Backfill(next, loans[i + 1..], today, false), generated, if generated == 0 then 1 else 0)
  {
    assert loans[i..][1..] == loans[i + 1..];
  }

  /** The loans `generatePaymentHistory` processes; `None` for an unknown id. */
  method LoansToProcess(tables: LoanTables, loanId: Option<int>) returns (r: Option<seq<Loan>>)
    ensures r == ToProcess(tables.loans, loanId)
  {
    if loanId.None? {
      return Some(ActiveLoans(tables.loans));
    }
    var k := FindLoan(tables.loans, loanId.value);
    if k.None? {
      return None;
    }
    return Some([tables.loans[k.value]]);
  }

  /** The outer loop: each loan's rows in order, counting the rows written
      and the loans that wrote none. */
  method BackfillAll(tables: LoanTables, loans: seq<Loan>, today: Date) returns (totalGenerated: int, skipped: int)
    requires ValidDate(today)
    modifies tables
    ensures Backfill(old(tables.history), loans, today, false) == BackfillResult(tables.history, totalGenerated, skipped)
    ensures tables.loans == old(tables.loans)
  {
    totalGenerated := 0;
    skipped := 0;
    var i := 0;
    while i < |loans|
      invariant 0 <= i <= |loans| && tables.loans == old(tables.loans)
      invariant Backfill(old(tables.history), loans, today, false)
        == Offset(Backfill(tables.history, loans[i..], today, false), totalGenerated, skipped)
    {
      BackfillStep(tables.history, loans, i, today);
      var generated := BackfillOne(tables, loans[i], today);
      if generated > 0 {
        totalGenerated := totalGenerated + generated;
      } else {
        skipped := skipped + 1;
      }
      i := i + 1;
    }
  }

  /** `generatePaymentHistory(loanId)`: a missing loan id changes nothing;
      otherwise the processed loans are back-filled in order. */
  method GeneratePaymentHistory(tables: LoanTables, loanId: Option<int>, today: Date) returns (r: Generation)
    requires ValidDate(today)
    modifies tables
    ensures ToProcess(old(tables.loans), loanId).None? ==> r == LoanMissing && tables.history == old(tables.history)
    ensures ToProcess(old(tables.loans), loanId).Some? ==>
      var loans := ToProcess(old(tables.loans), loanId).value;
      var b := Backfill(old(tables.history), loans, today, false);
      r == Generated(b.totalGenerated, b.skipped, |loans|) && tables.history == b.history
    ensures tables.loans == old(tables.loans)
  {
    var loansToProcess := LoansToProcess(tables, loanId);
    if loansToProcess.None? {
      return LoanMissing;
    }
    var totalGenerated, skipped := BackfillAll(tables, loansToProcess.value, today);
    return Generated(totalGenerated, skipped, |loansToProcess.value|);
  }
}
