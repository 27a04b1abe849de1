/** `LoanAutoUpdateService`: the daily job that, once a month after the
    payment day, counts one more period paid on each active loan and records
    the payment. */
module LoanAutoUpdate {
  import opened Wrappers
  import opened Dates
  import opened Loans
  import opened LoanLedger

  const AutoNote: string := "系统自动记录"

  /** `shouldUpdateThisMonth`: the loan was not stamped in today's month. */
  predicate ShouldUpdateThisMonth(loan: Loan, today: Date)
  {
    loan.updatedAt.None? || loan.updatedAt.value.year != today.year || loan.updatedAt.value.month != today.month
  }

  /** The loans the job advances today: active, with payment day, total and
      paid periods known, periods left, today on or after the payment day,
      and not yet stamped this month. */
  predicate Due(loan: Loan, today: Date)
  {
    IsActive(loan)
    && loan.paymentDay.Some? && loan.totalPeriods.Some? && loan.paidPeriods.Some?
    && loan.paidPeriods.value < loan.totalPeriods.value
    && today.day >= loan.paymentDay.value
    && ShouldUpdateThisMonth(loan, today)
  }

  /** The row `update` writes back: one more period paid, the remaining
      amount recomputed when the monthly payment is known, completed with
      nothing remaining once every period is paid, stamped today. */
  function Advanced(loan: Loan, today: Date): Loan
    requires loan.totalPeriods.Some? && loan.paidPeriods.Some?
  {
    var paid := loan.paidPeriods.value + 1;
    var total := loan.totalPeriods.value;
    var remaining := if loan.monthlyPayment.Some? then loan.monthlyPayment.value * (total - paid) else loan.remainingAmount;
    var stepped := loan.(paidPeriods := Some(paid), remainingAmount := remaining);
    var settled := if paid >= total then stepped.(status := Some(Completed), remainingAmount := 0) else stepped;
    settled.(updatedAt := Some(today))
  }

  /** The history row recorded for an advanced loan: its monthly payment,
      dated today, not deducted from the balance. */
  function AutoRow(loan: Loan, today: Date): PaymentHistory
  {
    PaymentHistory(loan.id, loan.monthlyPayment, today, false, false, AutoNote)
  }

  function UpdatedOne(loan: Loan, today: Date): Loan
  {
    if Due(loan, today) then Advanced(loan, today) else loan
  }

  /** The loan table after one run. */
  function AutoUpdated(loans: seq<Loan>, today: Date): (r: seq<Loan>)
    ensures |r| == |loans| && forall k :: 0 <= k < |loans| ==> r[k] == UpdatedOne(loans[k], today)
  {
    seq(|loans|, k requires 0 <= k < |loans| => UpdatedOne(loans[k], today))
  }

  /** The history rows one run appends, in table order. */
  function AutoRows(loans: seq<Loan>, today: Date): seq<PaymentHistory>
  {
    if loans == [] then []
    else
      var last := loans[|loans| - 1];
      AutoRows(loans[..|loans| - 1], today) + (if Due(last, today) then [AutoRow(Advanced(last, today), today)] else [])
  }

  /** One row per advanced loan, each for that loan, dated today. */
  lemma AutoRowsFacts(loans: seq<Loan>, today: Date)
    ensures var rows := AutoRows(loans, today);
      |rows| == |set k | 0 <= k < |loans| && Due(loans[k], today)|
      && (forall h :: h in rows ==>
            (h.paymentDate == today && !h.autoDeductBalance && h.note == AutoNote
             && exists k :: 0 <= k < |loans| && Due(loans[k], today) && h.loanId == loans[k].id
                  && h.paymentAmount == loans[k].monthlyPayment))
  {
    AutoRowsCount(loans, today);
    AutoRowsFor(loans, today);
  }

  lemma {:induction false} AutoRowsCount(loans: seq<Loan>, today: Date)
    ensures |AutoRows(loans, today)| == |set k | 0 <= k < |loans| && Due(loans[k], today)|
    decreases |loans|
  {
    if loans != [] {
      var n := |loans| - 1;
      var init := loans[..n];
      AutoRowsCount(init, today);
      var before := set k | 0 <= k < n && Due(init[k], today);
      var now := set k | 0 <= k < |loans| && Due(loans[k], today);
      var extra := if Due(loans[n], today) then {n} else {};
      forall k ensures k in now <==> k in before + extra {
        if 0 <= k < n {
          assert init[k] == loans[k];
        }
      }
      assert now == before + extra;
      assert n !in before;
    }
  }

  lemma {:induction false} AutoRowsFor(loans: seq<Loan>, today: Date)
    ensures forall h :: h in AutoRows(loans, today) ==>
            (h.paymentDate == today && !h.autoDeductBalance && h.note == AutoNote
             && exists k :: 0 <= k < |loans| && Due(loans[k], today) && h.loanId == loans[k].id
                  && h.paymentAmount == loans[k].monthlyPayment)
    decreases |loans|
  {
    if loans != [] {
      var n := |loans| - 1;
      var init := loans[..n];
      AutoRowsFor(init, today);
      forall h | h in AutoRows(loans, today)
        ensures h.paymentDate == today && !h.autoDeductBalance && h.note == AutoNote
        ensures exists k :: 0 <= k < |loans| && Due(loans[k], today) && h.loanId == loans[k].id
                 && h.paymentAmount == loans[k].monthlyPayment
      {
        if h in AutoRows(init, today) {
          var k :| 0 <= k < n && Due(init[k], today) && h.loanId == init[k].id && h.paymentAmount == init[k].monthlyPayment;
          assert loans[k] == init[k];
        } else {
          assert Due(loans[n], today) && h == AutoRow(Advanced(loans[n], today), today);
        }
      }
    }
  }

  /** What an advanced loan looks like: exactly one more period, never more
      than the total, completed exactly when the last period is paid, its
      remaining amount agreeing with the periods left, stamped today, and
      nothing else changed. */
  lemma AdvancedFacts(loan: Loan, today: Date)
    requires Due(loan, today)
    ensures var r := Advanced(loan, today);
      r.paidPeriods == Some(loan.paidPeriods.value + 1)
      && r.paidPeriods.value <= r.totalPeriods.value
      && (r.status == Some(Completed) <==> r.paidPeriods.value == r.totalPeriods.value)
      && (r.status != Some(Completed) ==> r.status == loan.status)
      && (r.status == Some(Completed) ==> r.remainingAmount == 0)
      && RemainingConsistent(r)
      && r.updatedAt == Some(today)
      && r.(paidPeriods := loan.paidPeriods, remainingAmount := loan.remainingAmount, status := loan.status,
            updatedAt := loan.updatedAt) == loan
  {
  }

  /** Paid periods stay within the total across a run. */
  predicate WithinTerm(loan: Loan)
  {
    loan.paidPeriods.Some? && loan.totalPeriods.Some? ==> loan.paidPeriods.value <= loan.totalPeriods.value
  }

  lemma AutoUpdateKeepsTerm(loans: seq<Loan>, today: Date)
    requires forall k :: 0 <= k < |loans| ==> WithinTerm(loans[k])
    ensures forall k :: 0 <= k < |loans| ==> WithinTerm(AutoUpdated(loans, today)[k])
  {
    forall k | 0 <= k < |loans| ensures WithinTerm(AutoUpdated(loans, today)[k]) {
      if Due(loans[k], today) {
        AdvancedFacts(loans[k], today);
      }
    }
  }

  /** A loan the run advanced is not due again for the rest of the month. */
  lemma AdvancedNotDueThisMonth(loan: Loan, today: Date, later: Date)
    requires Due(loan, today)
    requires later.year == today.year && later.month == today.month
    ensures !Due(Advanced(loan, today), later)
  {
  }

  /** A second run on the same day changes nothing and records nothing. */
  lemma {:induction false} AutoUpdateIdempotent(loans: seq<Loan>, today: Date)
    ensures AutoUpdated(AutoUpdated(loans, today), today) == AutoUpdated(loans, today)
    ensures AutoRows(AutoUpdated(loans, today), today) == []
  {
    var once := AutoUpdated(loans, today);
    forall k | 0 <= k < |once| ensures !Due(once[k], today) {
      if Due(loans[k], today) {
        AdvancedNotDueThisMonth(loans[k], today, today);
      }
    }
    NoneDue(once, today);
  }

  lemma {:induction false} NoneDue(loans: seq<Loan>, today: Date)
    requires forall k :: 0 <= k < |loans| ==> !Due(loans[k], today)
    ensures AutoUpdated(loans, today) == loans && AutoRows(loans, today) == []
    decreases |loans|
  {
    if loans != [] {
      NoneDue(loans[..|loans| - 1], today);
    }
  }

  lemma AutoRowsStep(loans: seq<Loan>, k: int, today: Date)
    requires 0 <= k < |loans|
    ensures AutoRows(loans[..k + 1], today)
      == AutoRows(loans[..k], today) + (if Due(loans[k], today) then [AutoRow(Advanced(loans[k], today), today)] else [])
  {
    assert loans[..k + 1][..k] == loans[..k];
  }

  /** `autoUpdatePaidPeriods()` with the enabled flag and today's date as
      parameters: every due loan is advanced in place and gets one history
      row; the count of advanced loans is returned. Disabled, nothing
      changes. */
  method AutoUpdatePaidPeriods(tables: LoanTables, enabled: bool, today: Date) returns (updatedCount: int)
    modifies tables
    ensures !enabled ==> updatedCount == 0 && tables.loans == old(tables.loans) && tables.history == old(tables.history)
    ensures enabled ==>
      tables.loans == AutoUpdated(old(tables.loans), today)
      && tables.history == old(tables.history) + AutoRows(old(tables.loans), today)
      && updatedCount == |AutoRows(old(tables.loans), today)|
  {
    updatedCount := 0;
    if !enabled {
      return;
    }
    ghost var loans0 := tables.loans;
    ghost var history0 := tables.history;
    var k := 0;
    while k < |tables.loans|
      invariant 0 <= k <= |tables.loans| == |loans0|
      invariant forall i :: 0 <= i < k ==> tables.loans[i] == UpdatedOne(loans0[i], today)
      invariant forall i :: k <= i < |loans0| ==> tables.loans[i] == loans0[i]
      invariant tables.history == history0 + AutoRows(loans0[..k], today)
      invariant updatedCount == |AutoRows(loans0[..k], today)|
    {
      var loan := tables.loans[k];
      AutoRowsStep(loans0, k, today);
      if Due(loan, today) {
        loan := Advanced(loan, today);
        tables.loans := tables.loans[k := loan];
        tables.history := tables.history + [AutoRow(loan, today)];
        updatedCount := updatedCount + 1;
      }
      k := k + 1;
    }
    assert loans0[..k] == loans0;
    assert loans0[..k] == loans0;
  }
}
