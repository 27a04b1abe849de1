/** `LoanService`: the loan and payment-history tables, the operations that
    write them, and the read-only reductions and reports over the loans. */
module LoanLedger {
  import opened Wrappers
  import opened Dates
  import opened Money
  import opened Sorting
  import opened Loans
  import opened Balances

  /** The exception `getLoanById` throws for an unknown id. */
  const NotFound: string := "loan not found"
  /** The exception of a `null` monthly payment used in arithmetic. */
  const NullMonthlyPayment: string := "monthly payment is null"
  const PaymentChange: string := "payment"
  const Unclassified: string := "未分类"

  /** The `loans` and `payment_history` tables. Both services that write
      loans share one instance. */
  class LoanTables {
    var loans: seq<Loan>
    var history: seq<PaymentHistory>

    constructor ()
      ensures loans == [] && history == []
    {
      loans := [];
      history := [];
    }
  }

  /** `loanMapper.findById(id)`: the position of the row with that id. */
  function FindLoan(loans: seq<Loan>, id: int): (r: Option<nat>)
    ensures r.Some? ==> r.value < |loans| && loans[r.value].id == id
    ensures r.None? <==> forall k :: 0 <= k < |loans| ==> loans[k].id != id
  {
    if loans == [] then None
    else if loans[0].id == id then Some(0)
    else match FindLoan(loans[1..], id)
      case None => None
      case Some(k) => Some(k + 1)
  }

  /** The id the table's auto-increment hands out next. */
  function NextLoanId(loans: seq<Loan>): (r: int)
    ensures forall k :: 0 <= k < |loans| ==> loans[k].id < r
  {
    if loans == [] then 1
    else
      var rest := NextLoanId(loans[..|loans| - 1]);
      if loans[|loans| - 1].id < rest then rest else loans[|loans| - 1].id + 1
  }

  /** The remaining amount the service derives, when total periods, paid
      periods and monthly payment are all known. */
  function DerivedRemaining(loan: Loan): Option<int>
  {
    if loan.totalPeriods.Some? && loan.paidPeriods.Some? && loan.monthlyPayment.Some? then
      Some(loan.monthlyPayment.value * (loan.totalPeriods.value - loan.paidPeriods.value))
    else None
  }

  /** The stored remaining amount agrees with the periods still to pay. */
  predicate RemainingConsistent(loan: Loan)
  {
    DerivedRemaining(loan).None? || loan.remainingAmount == DerivedRemaining(loan).value
  }

  /** The row `addLoan` stores: status defaults to active and the remaining
      amount is derived when it can be; `insert` stamps `updated_at`. */
  function Admitted(loan: Loan, id: int, today: Date): Loan
  {
    var withStatus := if loan.status.None? then loan.(status := Some(Active)) else loan;
    withStatus.(id := id, remainingAmount := DerivedRemaining(loan).GetOr(loan.remainingAmount), updatedAt := Some(today))
  }

  /** The row `updateLoan` stores: every editable field from `details`, the
      remaining amount derived or else taken from `details`; id kept. */
  function Revised(loan: Loan, details: Loan, today: Date): Loan
  {
    details.(id := loan.id,
             remainingAmount := DerivedRemaining(details).GetOr(details.remainingAmount),
             updatedAt := Some(today))
  }

  /** The row after `recordPayment` of `amount`. */
  function AfterPayment(loan: Loan, amount: int, today: Date): Loan
  {
    var newRemaining := loan.remainingAmount - amount;
    var paid := if loan.paidPeriods.Some? then Some(loan.paidPeriods.value + 1) else None;
    var stepped := loan.(remainingAmount := newRemaining, paidPeriods := paid, updatedAt := Some(today));
    if newRemaining <= 0 then stepped.(status := Some(Completed), remainingAmount := 0) else stepped
  }

  /** A stored loan has status active unless one was given, keeps every
      other supplied field, and its remaining amount agrees with its periods. */
  lemma AdmittedFacts(loan: Loan, id: int, today: Date)
    ensures var r := Admitted(loan, id, today);
      r.status == (if loan.status.None? then Some(Active) else loan.status)
      && RemainingConsistent(r)
      && (DerivedRemaining(loan).None? ==> r.remainingAmount == loan.remainingAmount)
      && r.(id := loan.id, status := loan.status, remainingAmount := loan.remainingAmount, updatedAt := loan.updatedAt) == loan
  {
  }

  /** An update keeps the id, takes everything else from the details, and
      updating twice with the same details is the same as once. */
  lemma RevisedFacts(loan: Loan, details: Loan, today: Date)
    ensures var r := Revised(loan, details, today);
      r.id == loan.id && RemainingConsistent(r)
      && r.(id := details.id, remainingAmount := details.remainingAmount, updatedAt := details.updatedAt) == details
      && Revised(r, details, today) == r
  {
  }

  /** After a payment the remaining amount is never negative; the loan is
      completed exactly when the payment covered what remained, and
      otherwise keeps its status; one more period is paid. */
  lemma PaymentFacts(loan: Loan, amount: int, today: Date)
    ensures var r := AfterPayment(loan, amount, today);
      r.remainingAmount >= 0
      && r.remainingAmount == (if loan.remainingAmount - amount <= 0 then 0 else loan.remainingAmount - amount)
      && (loan.remainingAmount <= amount ==> r.status == Some(Completed))
      && (loan.remainingAmount > amount ==> r.status == loan.status)
      && (loan.paidPeriods.Some? <==> r.paidPeriods.Some?)
      && (loan.paidPeriods.Some? ==> r.paidPeriods.value == loan.paidPeriods.value + 1)
  {
  }

  /** Paying exactly one instalment of a consistent loan that still has
      periods left keeps it consistent. */
  lemma InstalmentKeepsConsistency(loan: Loan, today: Date)
    requires RemainingConsistent(loan) && DerivedRemaining(loan).Some?
    requires loan.monthlyPayment.value > 0 && loan.paidPeriods.value < loan.totalPeriods.value
    ensures RemainingConsistent(AfterPayment(loan, loan.monthlyPayment.value, today))
  {
    var m := loan.monthlyPayment.value;
    var t := loan.totalPeriods.value;
    var p := loan.paidPeriods.value;
    assert m * (t - p) - m == m * (t - (p + 1));
    MulMono(0, t - (p + 1), m);
  }

  /** The service over the shared tables and the balance ledger. */
  class LoanService {
    const tables: LoanTables
    const balances: BalanceService

    constructor (tables: LoanTables, balances: BalanceService)
      ensures this.tables == tables && this.balances == balances
    {
      this.tables := tables;
      this.balances := balances;
    }

    /** `addLoan(loan)` */
    method AddLoan(loan: Loan, today: Date) returns (r: Loan)
      modifies tables
      ensures r == Admitted(loan, NextLoanId(old(tables.loans)), today)
      ensures tables.loans == old(tables.loans) + [r] && tables.history == old(tables.history)
    {
      var stored := loan;
      if stored.status.None? {
        stored := stored.(status := Some(Active));
      }
      if loan.totalPeriods.Some? && loan.paidPeriods.Some? && loan.monthlyPayment.Some? {
        var remainingPeriods := loan.totalPeriods.value - loan.paidPeriods.value;
        stored := stored.(remainingAmount := loan.monthlyPayment.value * remainingPeriods);
      }
      r := stored.(id := NextLoanId(tables.loans), updatedAt := Some(today));
      tables.loans := tables.loans + [r];
    }

    /** `updateLoan(id, details)`; an unknown id changes nothing. */
    method UpdateLoan(id: int, details: Loan, today: Date) returns (r: Result<Loan, string>)
      modifies tables
      ensures FindLoan(old(tables.loans), id).None? ==> r == Err(NotFound) && tables.loans == old(tables.loans)
      ensures FindLoan(old(tables.loans), id).Some? ==>
        var k := FindLoan(old(tables.loans), id).value;
        r == Ok(Revised(old(tables.loans)[k], details, today))
        && tables.loans == old(tables.loans)[k := r.value]
      ensures tables.history == old(tables.history)
    {
      var k := FindLoan(tables.loans, id);
      if k.None? {
        return Err(NotFound);
      }
      var loan := tables.loans[k.value];
      var remaining := details.remainingAmount;
      if details.totalPeriods.Some? && details.paidPeriods.Some? && details.monthlyPayment.Some? {
        remaining := details.monthlyPayment.value * (details.totalPeriods.value - details.paidPeriods.value);
      }
      var updated := details.(id := loan.id, remainingAmount := remaining, updatedAt := Some(today));
      tables.loans := tables.loans[k.value := updated];
      return Ok(updated);
    }

    /** `recordPayment(loanId, amount, paymentDate, autoDeduct, note)`: one
        history row, the loan stepped by the payment, and with autoDeduct a
        deduction of exactly `amount` linked to the new row's id. */
    method RecordPayment(loanId: int, amount: int, paymentDate: Date, autoDeduct: bool, note: string, today: Date)
      returns (r: Result<PaymentHistory, string>)
      modifies tables, balances
      ensures FindLoan(old(tables.loans), loanId).None? ==>
        r == Err(NotFound) && tables.loans == old(tables.loans) && tables.history == old(tables.history)
        && balances.entries == old(balances.entries)
      ensures FindLoan(old(tables.loans), loanId).Some? ==>
        var k := FindLoan(old(tables.loans), loanId).value;
        var loan := old(tables.loans)[k];
        r == Ok(PaymentHistory(loanId, Some(amount), paymentDate, false, autoDeduct, note))
        && tables.history == old(tables.history) + [r.value]
        && tables.loans == old(tables.loans)[k := AfterPayment(loan, amount, today)]
        && balances.entries == old(balances.entries)
             + (if autoDeduct
                then [BalanceEntry(CurrentOf(old(balances.entries)) - amount, -amount, PaymentChange,
                                   Some(|old(tables.history)| + 1), "还款：" + loan.loanName)]
                else [])
    {
      var k := FindLoan(tables.loans, loanId);
      if k.None? {
        return Err(NotFound);
      }
      var loan := tables.loans[k.value];
      var payment := PaymentHistory(loanId, Some(amount), paymentDate, false, autoDeduct, note);
      tables.history := tables.history + [payment];
      var paymentId := |tables.history|;
      var newRemaining := loan.remainingAmount - amount;
      loan := loan.(remainingAmount := newRemaining);
      if loan.paidPeriods.Some? {
        loan := loan.(paidPeriods := Some(loan.paidPeriods.value + 1));
      }
      if newRemaining <= 0 {
        loan := loan.(status := Some(Completed), remainingAmount := 0);
      }
      loan := loan.(updatedAt := Some(today));
      tables.loans := tables.loans[k.value := loan];
      if autoDeduct {
        var _ := balances.DeductBalance(amount, PaymentChange, Some(paymentId), "还款：" + loan.loanName);
      }
      return Ok(payment);
    }
  }

  // ---- Reductions over the active loans ----

  function Remaining(l: Loan): int { l.remainingAmount }
  function Monthly(l: Loan): int { l.monthlyPayment.GetOr(0) }

  /** `getTotalDebt()`: the remaining amounts of the active loans, summed. */
  function TotalDebt(loans: seq<Loan>): int
  {
    SumOf(ActiveLoans(loans), Remaining)
  }

  predicate MonthlyKnown(loans: seq<Loan>)
  {
    forall k :: 0 <= k < |loans| ==> loans[k].monthlyPayment.Some?
  }

  /** The monthly payments summed; absent when one is `null` (the addition
      throws). */
  function SumMonthly(loans: seq<Loan>): (r: Option<int>)
    ensures r.Some? <==> MonthlyKnown(loans)
    ensures r.Some? ==> r.value == SumOf(loans, Monthly)
  {
    if loans == [] then Some(0)
    else
      var init := loans[..|loans| - 1];
      assert forall k :: 0 <= k < |init| ==> init[k] == loans[k];
      AddOpt(SumMonthly(init), loans[|loans| - 1].monthlyPayment)
  }

  /** `getMonthlyPaymentTotal()` */
  function MonthlyPaymentTotal(loans: seq<Loan>): Option<int>
  {
    SumMonthly(ActiveLoans(loans))
  }

  // ---- getPlatformSummary ----

  datatype PlatformGroup = PlatformGroup(platform: string, count: int, totalDebt: int, monthlyPayment: int)

  function PlatformOf(l: Loan): string { l.platform.GetOr(Unclassified) }
  function Count(g: PlatformGroup): int { g.count }
  function Debt(g: PlatformGroup): int { g.totalDebt }
  function DebtDescending(g: PlatformGroup): int { -g.totalDebt }

  /** The loans on platform p, in order. */
  function OnPlatform(loans: seq<Loan>, p: string): (r: seq<Loan>)
    ensures forall l :: l in r <==> l in loans && PlatformOf(l) == p
  {
    if loans == [] then []
    else OnPlatform(loans[..|loans| - 1], p) + (if PlatformOf(loans[|loans| - 1]) == p then [loans[|loans| - 1]] else [])
  }

  /** What the group of platform p holds: its loans counted and summed. */
  function GroupOf(loans: seq<Loan>, p: string): PlatformGroup
  {
    var on := OnPlatform(loans, p);
    PlatformGroup(p, |on|, SumOf(on, Remaining), SumOf(on, Monthly))
  }

  /** `platformMap.get(p)`: the position of p's group. */
  function GroupIndex(groups: seq<PlatformGroup>, p: string): (r: Option<nat>)
    ensures r.Some? ==> r.value < |groups| && groups[r.value].platform == p
    ensures r.None? <==> forall k :: 0 <= k < |groups| ==> groups[k].platform != p
  {
    if groups == [] then None
    else if groups[0].platform == p then Some(0)
    else match GroupIndex(groups[1..], p)
      case None => None
      case Some(k) => Some(k + 1)
  }

  /** One iteration of the grouping loop (the monthly payment is known). */
  function AddToGroups(groups: seq<PlatformGroup>, l: Loan): seq<PlatformGroup>
  {
    var p := PlatformOf(l);
    match GroupIndex(groups, p)
    case Some(i) =>
      groups[i := PlatformGroup(p, groups[i].count + 1, groups[i].totalDebt + l.remainingAmount,
                                groups[i].monthlyPayment + Monthly(l))]
    case None => groups + [PlatformGroup(p, 1, l.remainingAmount, Monthly(l))]
  }

  /** The groups in order of first appearance. */
  function Grouped(loans: seq<Loan>): seq<PlatformGroup>
  {
    if loans == [] then [] else AddToGroups(Grouped(loans[..|loans| - 1]), loans[|loans| - 1])
  }

  /** `getPlatformSummary()`: absent when an active loan has no monthly
      payment; otherwise the groups ordered by debt, highest first. */
  function PlatformSummaryOf(loans: seq<Loan>): Option<seq<PlatformGroup>>
  {
    var active := ActiveLoans(loans);
    if MonthlyKnown(active) then Some(SortBy(Grouped(active), DebtDescending)) else None
  }

  predicate DistinctPlatforms(groups: seq<PlatformGroup>)
  {
    forall i, j :: 0 <= i < j < |groups| ==> groups[i].platform != groups[j].platform
  }

  /** Appending a loan adds it to its own platform's group... */
  lemma GroupOfSnocSame(init: seq<Loan>, l: Loan)
    ensures var g := GroupOf(init, PlatformOf(l));
      GroupOf(init + [l], PlatformOf(l)) == PlatformGroup(g.platform, g.count + 1, g.totalDebt + l.remainingAmount,
                                                          g.monthlyPayment + Monthly(l))
  {
    var loans := init + [l];
    var q := PlatformOf(l);
    assert loans[..|loans| - 1] == init;
    var on := OnPlatform(loans, q);
    assert on == OnPlatform(init, q) + [l];
    assert on[..|on| - 1] == OnPlatform(init, q);
  }

  /** ... and leaves every other platform's group as it was. */
  lemma GroupOfSnocOther(init: seq<Loan>, l: Loan, q: string)
    requires PlatformOf(l) != q
    ensures GroupOf(init + [l], q) == GroupOf(init, q)
  {
    var loans := init + [l];
    assert loans[..|loans| - 1] == init;
    assert OnPlatform(loans, q) == OnPlatform(init, q) + [];
    assert OnPlatform(loans, q) == OnPlatform(init, q);
  }

  /** No platform has two groups. */
  lemma {:induction false} GroupedDistinct(loans: seq<Loan>)
    ensures DistinctPlatforms(Grouped(loans))
    decreases |loans|
  {
    if loans != [] {
      GroupedDistinct(loans[..|loans| - 1]);
    }
  }

  /** Every loan's platform has a group. */
  lemma {:induction false} GroupedCovers(loans: seq<Loan>)
    ensures forall l :: l in loans ==> GroupIndex(Grouped(loans), PlatformOf(l)).Some?
    decreases |loans|
  {
    if loans != [] {
      var init, l := loans[..|loans| - 1], loans[|loans| - 1];
      GroupedCovers(init);
      var gs0 := Grouped(init);
      var gs := Grouped(loans);
      forall x | x in loans ensures GroupIndex(gs, PlatformOf(x)).Some? {
        if x in init {
          var j := GroupIndex(gs0, PlatformOf(x)).value;
          assert gs[j].platform == PlatformOf(x);
        } else {
          var i := GroupIndex(gs0, PlatformOf(l));
          if i.Some? {
            assert gs[i.value].platform == PlatformOf(x);
          } else {
            assert gs[|gs0|].platform == PlatformOf(x);
          }
        }
      }
    }
  }

  lemma {:induction false} OnPlatformEmpty(loans: seq<Loan>, p: string)
    requires forall x :: x in loans ==> PlatformOf(x) != p
    ensures OnPlatform(loans, p) == []
    decreases |loans|
  {
    if loans != [] {
      OnPlatformEmpty(loans[..|loans| - 1], p);
    }
  }

  /** A platform without a group has no loans. */
  lemma NoGroupNoLoans(loans: seq<Loan>, p: string)
    requires GroupIndex(Grouped(loans), p).None?
    ensures OnPlatform(loans, p) == []
  {
    GroupedCovers(loans);
    OnPlatformEmpty(loans, p);
  }

  predicate ExactGroups(loans: seq<Loan>, gs: seq<PlatformGroup>)
  {
    forall k :: 0 <= k < |gs| ==> gs[k] == GroupOf(loans, gs[k].platform) && gs[k].count > 0
  }

  /** Each group is exactly its platform's loans counted and summed. */
  lemma {:induction false} GroupedExact(loans: seq<Loan>)
    ensures var gs := Grouped(loans);
      forall k :: 0 <= k < |gs| ==> gs[k] == GroupOf(loans, gs[k].platform) && gs[k].count > 0
    decreases |loans|
  {
    if loans != [] {
      var init, l := loans[..|loans| - 1], loans[|loans| - 1];
      assert loans == init + [l];
      GroupedExact(init);
      GroupedDistinct(init);
      assert Grouped(loans) == AddToGroups(Grouped(init), l);
      if GroupIndex(Grouped(init), PlatformOf(l)).None? {
        NoGroupNoLoans(init, PlatformOf(l));
      }
      AddToGroupsExact(init, Grouped(init), l);
    }
  }

  /** A grouping step keeps every group exact for the loans seen so far. */
  lemma AddToGroupsExact(init: seq<Loan>, gs0: seq<PlatformGroup>, l: Loan)
    requires DistinctPlatforms(gs0) && ExactGroups(init, gs0)
    requires GroupIndex(gs0, PlatformOf(l)).None? ==> OnPlatform(init, PlatformOf(l)) == []
    ensures ExactGroups(init + [l], AddToGroups(gs0, l))
  {
    var gs := AddToGroups(gs0, l);
    forall k | 0 <= k < |gs| ensures gs[k] == GroupOf(init + [l], gs[k].platform) && gs[k].count > 0 {
      AddToGroupsExactAt(init, gs0, l, k);
    }
  }

  lemma AddToGroupsExactAt(init: seq<Loan>, gs0: seq<PlatformGroup>, l: Loan, k: int)
    requires DistinctPlatforms(gs0) && ExactGroups(init, gs0)
    requires GroupIndex(gs0, PlatformOf(l)).None? ==> OnPlatform(init, PlatformOf(l)) == []
    requires 0 <= k < |AddToGroups(gs0, l)|
    ensures var gs := AddToGroups(gs0, l);
      gs[k] == GroupOf(init + [l], gs[k].platform) && gs[k].count > 0
  {
    var p := PlatformOf(l);
    match GroupIndex(gs0, p)
    case Some(i) => {
      if k == i {
        assert gs0[i] == GroupOf(init, gs0[i].platform);
        GroupOfSnocSame(init, l);
      } else {
        if k < i {
          assert gs0[k].platform != gs0[i].platform;
        } else {
          assert gs0[i].platform != gs0[k].platform;
        }
        assert gs0[k] == GroupOf(init, gs0[k].platform);
        GroupOfSnocOther(init, l, gs0[k].platform);
      }
    }
    case None => {
      if k == |gs0| {
        assert GroupOf(init, p) == PlatformGroup(p, 0, 0, 0);
        GroupOfSnocSame(init, l);
      } else {
        assert gs0[k] == GroupOf(init, gs0[k].platform);
        GroupOfSnocOther(init, l, gs0[k].platform);
      }
    }
  }

  /** The group counts add up to the number of loans and the group debts to
      their total remaining amount. */
  lemma {:induction false} GroupedSums(loans: seq<Loan>)
    ensures SumOf(Grouped(loans), Count) == |loans|
    ensures SumOf(Grouped(loans), Debt) == SumOf(loans, Remaining)
    decreases |loans|
  {
    if loans != [] {
      var init, l := loans[..|loans| - 1], loans[|loans| - 1];
      GroupedSums(init);
      AddToGroupsSums(Grouped(init), l);
      assert SumOf(loans, Remaining) == SumOf(init, Remaining) + l.remainingAmount;
    }
  }

  /** One grouping step adds one to the counts and the loan's remaining
      amount to the debts. */
  lemma AddToGroupsSums(gs: seq<PlatformGroup>, l: Loan)
    ensures SumOf(AddToGroups(gs, l), Count) == SumOf(gs, Count) + 1
    ensures SumOf(AddToGroups(gs, l), Debt) == SumOf(gs, Debt) + l.remainingAmount
  {
    var p := PlatformOf(l);
    match GroupIndex(gs, p)
    case Some(i) => {
      var g := PlatformGroup(p, gs[i].count + 1, gs[i].totalDebt + l.remainingAmount, gs[i].monthlyPayment + Monthly(l));
      assert AddToGroups(gs, l) == gs[i := g];
      SumOfUpdate(gs, i, g, Count);
      SumOfUpdate(gs, i, g, Debt);
    }
    case None => {
      var g := PlatformGroup(p, 1, l.remainingAmount, Monthly(l));
      assert AddToGroups(gs, l) == gs + [g];
      assert (gs + [g])[..|gs|] == gs;
    }
  }

  /** The summary: ordered by debt, highest first, with ties in order of
      first appearance; a permutation of the grouping, each group its
      platform's active loans counted and summed, every active loan's
      platform present; the counts add up to the number of active loans and
      the debts to `getTotalDebt()`. */
  lemma PlatformSummaryFacts(loans: seq<Loan>)
    requires PlatformSummaryOf(loans).Some?
    ensures var gs := PlatformSummaryOf(loans).value;
      var active := ActiveLoans(loans);
      SortedBy(gs, DebtDescending)
      && multiset(gs) == multiset(Grouped(active))
      && (forall g :: g in gs ==> g == GroupOf(active, g.platform) && g.count > 0)
      && (forall l :: l in active ==> exists g :: g in gs && g.platform == PlatformOf(l))
      && SumOf(gs, Count) == |active|
      && SumOf(gs, Debt) == TotalDebt(loans)
  {
    var active := ActiveLoans(loans);
    var grouped := Grouped(active);
    assert PlatformSummaryOf(loans).value == SortBy(grouped, DebtDescending);
    SortedGroupsFacts(active);
  }

  lemma SortedGroupsFacts(active: seq<Loan>)
    ensures var grouped := Grouped(active);
      var gs := SortBy(grouped, DebtDescending);
      SortedBy(gs, DebtDescending)
      && multiset(gs) == multiset(grouped)
      && (forall g :: g in gs ==> g == GroupOf(active, g.platform) && g.count > 0)
      && (forall l :: l in active ==> exists g :: g in gs && g.platform == PlatformOf(l))
      && SumOf(gs, Count) == |active|
      && SumOf(gs, Debt) == SumOf(active, Remaining)
  {
    var grouped := Grouped(active);
    var gs := SortBy(grouped, DebtDescending);
    SortByFacts(grouped, DebtDescending);
    SortBySum(grouped, DebtDescending, Count);
    SortBySum(grouped, DebtDescending, Debt);
    GroupedExact(active);
    GroupedCovers(active);
    GroupedSums(active);
    forall g | g in gs ensures g == GroupOf(active, g.platform) && g.count > 0 {
      assert g in multiset(gs);
      var k :| 0 <= k < |grouped| && grouped[k] == g;
    }
    forall l | l in active ensures exists g :: g in gs && g.platform == PlatformOf(l) {
      var i := GroupIndex(grouped, PlatformOf(l)).value;
      assert grouped[i] in multiset(gs);
    }
  }

  /** One iteration of the grouping loop: `putIfAbsent`, then the three
      accumulators of the platform's entry. */
  method AddToPlatform(groups: seq<PlatformGroup>, loan: Loan) returns (r: seq<PlatformGroup>)
    requires loan.monthlyPayment.Some?
    ensures r == AddToGroups(groups, loan)
  {
    var platform := if loan.platform.Some? then loan.platform.value else Unclassified;
    var index := GroupIndex(groups, platform);
    if index.Some? {
      var data := groups[index.value];
      r := groups[index.value := PlatformGroup(platform, data.count + 1, data.totalDebt + loan.remainingAmount,
                                               data.monthlyPayment + loan.monthlyPayment.value)];
    } else {
      r := groups + [PlatformGroup(platform, 1, loan.remainingAmount, loan.monthlyPayment.value)];
    }
  }

  lemma GroupedStep(loans: seq<Loan>, i: int)
    requires 0 <= i < |loans|
    ensures Grouped(loans[..i + 1]) == AddToGroups(Grouped(loans[..i]), loans[i])
    ensures MonthlyKnown(loans[..i + 1]) <==> MonthlyKnown(loans[..i]) && loans[i].monthlyPayment.Some?
    ensures loans[i].monthlyPayment.None? ==> !MonthlyKnown(loans)
  {
    var p, q := loans[..i], loans[..i + 1];
    assert q[..i] == p;
    assert forall k :: 0 <= k < i ==> q[k] == p[k];
    assert q[i] == loans[i];
  }

  /** The grouping loop of `getPlatformSummary`, then the sort. */
  method PlatformSummary(loans: seq<Loan>) returns (r: Option<seq<PlatformGroup>>)
    ensures r == PlatformSummaryOf(loans)
  {
    var active := ActiveLoans(loans);
    var groups: seq<PlatformGroup> := [];
    var i := 0;
    while i < |active|
      invariant 0 <= i <= |active|
      invariant groups == Grouped(active[..i]) && MonthlyKnown(active[..i])
    {
      var loan := active[i];
      GroupedStep(active, i);
      if loan.monthlyPayment.None? {
        return None;
      }
      groups := AddToPlatform(groups, loan);
      i := i + 1;
    }
    assert active[..|active|] == active;
    return Some(SortBy(groups, DebtDescending));
  }

  // ---- getLoanDetail ----

  datatype LoanDetail = LoanDetail(
    loan: Loan,
    remainingPeriods: int,
    paidTotal: int,
    totalRepayment: Option<int>,
    totalInterest: Option<int>,
    payoffDate: Option<Date>)

  /** The figures of `getLoanDetail` for a found loan; `None` is the
      `NullPointerException` of a missing monthly payment multiplied by the
      paid or the total periods. Its payoff date is `today` plus the
      remaining periods, not the formula of `calculatePayoffDate`. */
  function DetailOf(loan: Loan, today: Date): Option<LoanDetail>
  {
    var remainingPeriods := RemainingPeriods(loan).GetOr(0);
    var withInterest := loan.totalAmount.Some? && loan.totalPeriods.Some?;
    if (loan.paidPeriods.Some? || withInterest) && loan.monthlyPayment.None? then None
    else
      var paidTotal := if loan.paidPeriods.Some? then loan.monthlyPayment.value * loan.paidPeriods.value else 0;
      var totalRepayment := if withInterest then Some(loan.monthlyPayment.value * loan.totalPeriods.value) else None;
      var totalInterest := if withInterest then Some(totalRepayment.value - loan.totalAmount.value) else None;
      var payoffDate := if remainingPeriods > 0 then Some(PlusMonths(today, remainingPeriods)) else None;
      Some(LoanDetail(loan, remainingPeriods, paidTotal, totalRepayment, totalInterest, payoffDate))
  }

  /** `getLoanDetail(id)` */
  function LoanDetailById(loans: seq<Loan>, id: int, today: Date): Result<LoanDetail, string>
  {
    match FindLoan(loans, id)
    case None => Err(NotFound)
    case Some(k) =>
      match DetailOf(loans[k], today)
      case None => Err(NullMonthlyPayment)
      case Some(d) => Ok(d)
  }

  /** The detail exists unless the id is unknown or a needed monthly payment
      is missing; the paid total and the remaining periods add up to the
      total repayment; the interest is the repayment beyond the principal;
      a payoff date is given exactly when periods remain, that many months
      after today. */
  lemma LoanDetailFacts(loans: seq<Loan>, id: int, today: Date)
    ensures var r := LoanDetailById(loans, id, today);
      var k := FindLoan(loans, id);
      (k.None? ==> r == Err(NotFound))
      && (k.Some? ==>
            var loan := loans[k.value];
            (r.Ok? <==> loan.monthlyPayment.Some? || (loan.paidPeriods.None? && !(loan.totalAmount.Some? && loan.totalPeriods.Some?)))
            && (r.Ok? ==>
                  var d := r.value;
                  d.loan == loan
                  && d.remainingPeriods == (if loan.totalPeriods.Some? && loan.paidPeriods.Some? then loan.totalPeriods.value - loan.paidPeriods.value else 0)
                  && (d.payoffDate.Some? <==> d.remainingPeriods > 0)
                  && (d.payoffDate.Some? ==> MonthIndex(d.payoffDate.value) == MonthIndex(today) + d.remainingPeriods)
                  && (d.totalRepayment.Some? <==> loan.totalAmount.Some? && loan.totalPeriods.Some?)
                  && (d.totalRepayment.Some? ==> d.totalInterest == Some(d.totalRepayment.value - loan.totalAmount.value))
                  && (d.totalRepayment.Some? && loan.paidPeriods.Some? ==>
                        d.paidTotal + loan.monthlyPayment.value * d.remainingPeriods == d.totalRepayment.value)))
  {
    var k := FindLoan(loans, id);
    if k.Some? {
      var loan := loans[k.value];
      if loan.monthlyPayment.Some? && loan.totalPeriods.Some? && loan.paidPeriods.Some? {
        var m, t, p := loan.monthlyPayment.value, loan.totalPeriods.value, loan.paidPeriods.value;
        assert m * p + m * (t - p) == m * t;
      }
    }
  }

  /** The detail's payoff date and `calculatePayoffDate` disagree: ten of
      twelve periods paid, payment day 20, on 2024-01-10 the detail says
      2024-03-10 while the payoff calculation says 2024-02-20. */
  lemma TwoPayoffFormulas()
    ensures var loan := Loan(1, "", None, Some(1200), 200, Some(100), Some(20), Some(12), Some(10), None, Some(Active), "", None);
      var today := Date(2024, 1, 10);
      DetailOf(loan, today).value.payoffDate == Some(Date(2024, 3, 10))
      && PayoffDate(loan, today) == Ok(Some(Date(2024, 2, 20)))
  {
    var loan := Loan(1, "", None, Some(1200), 200, Some(100), Some(20), Some(12), Some(10), None, Some(Active), "", None);
    var today := Date(2024, 1, 10);
    assert PlusMonths(today, 2) == Date(2024, 3, 10);
    assert PlusMonths(today, 1) == Date(2024, 2, 10);
  }

  // ---- getRepaymentPlan ----

  /** `Period.between(a, b)` as a whole number of months (years * 12 plus
      months): the month difference, one less when b's day of month is
      before a's (and one more in the mirrored case going backwards). */
  function MonthsBetween(a: Date, b: Date): int
  {
    var total := MonthIndex(b) - MonthIndex(a);
    var days := b.day - a.day;
    if total > 0 && days < 0 then total - 1
    else if total < 0 && days > 0 then total + 1
    else total
  }

  /** From a date to a later one: the whole months between them, which
      added to the first date do not pass the second. */
  lemma MonthsBetweenFacts(a: Date, b: Date)
    requires ValidDate(a) && ValidDate(b) && NotAfter(a, b)
    ensures var t := MonthsBetween(a, b);
      0 <= t && MonthIndex(b) - MonthIndex(a) - 1 <= t <= MonthIndex(b) - MonthIndex(a)
      && NotAfter(PlusMonths(a, t), b)
  {
    BeforeMonthIndex(a, b);
    var t := MonthsBetween(a, b);
    var c := PlusMonths(a, t);
    if MonthIndex(c) < MonthIndex(b) {
      EarlierMonthIsBefore(c, b);
    } else {
      MonthIndexInjective(c, b);
    }
  }

  /** `remainingMonths` of a plan: the months until the payoff date, 0 when
      there is none, when it is today, or when it has passed. */
  function RemainingMonths(payoff: Option<Date>, today: Date): int
  {
    if payoff.None? then 0
    else
      var months := MonthsBetween(today, payoff.value);
      if months < 0 || payoff.value == today then 0 else months
  }

  lemma RemainingMonthsFacts(payoff: Option<Date>, today: Date)
    requires ValidDate(today) && (payoff.Some? ==> ValidDate(payoff.value))
    ensures var m := RemainingMonths(payoff, today);
      m >= 0
      && (payoff.None? || payoff == Some(today) ==> m == 0)
      && (payoff.Some? && NotAfter(today, payoff.value) ==>
            m == MonthsBetween(today, payoff.value) && NotAfter(PlusMonths(today, m), payoff.value))
  {
    if payoff.Some? && NotAfter(today, payoff.value) {
      MonthsBetweenFacts(today, payoff.value);
      if payoff.value == today {
        PlusZeroMonths(today);
      }
    }
  }

  datatype LoanPlan = LoanPlan(
    id: int,
    remainingAmount: int,
    remainingPeriods: int,
    payoffDate: Option<Date>,
    remainingMonths: int,
    repaidBasisPoints: int)

  datatype RepaymentPlanReport = RepaymentPlanReport(loans: seq<LoanPlan>, activeCount: int, totalDebt: int)

  /** The plan of one loan; `None` when `calculatePayoffDate` throws. */
  function PlanOf(loan: Loan, today: Date): Option<LoanPlan>
    requires ValidDate(today)
  {
    match PayoffDate(loan, today)
    case Err(_) => None
    case Ok(payoff) =>
      Some(LoanPlan(loan.id, loan.remainingAmount, RemainingPeriods(loan).GetOr(0), payoff,
                    RemainingMonths(payoff, today), RepaidBasisPoints(loan)))
  }

  function MonthsKey(p: LoanPlan): int { p.remainingMonths }

  /** `getRepaymentPlan()`: one plan per active loan, soonest payoff first
      (a stable sort), with the active count and the summed remaining
      amounts. */
  function RepaymentPlanOf(loans: seq<Loan>, today: Date): Option<RepaymentPlanReport>
    requires ValidDate(today)
  {
    var active := ActiveLoans(loans);
    match AllSome(seq(|active|, k requires 0 <= k < |active| => PlanOf(active[k], today)))
    case None => None
    case Some(plans) => Some(RepaymentPlanReport(SortBy(plans, MonthsKey), |active|, SumOf(active, Remaining)))
  }

  /** The plan of each active loan, in table order, so far. */
  predicate PlansUpTo(active: seq<Loan>, plans: seq<LoanPlan>, today: Date)
    requires ValidDate(today)
  {
    |plans| <= |active| && forall k :: 0 <= k < |plans| ==> PlanOf(active[k], today) == Some(plans[k])
  }

  lemma PlansUpToSnoc(active: seq<Loan>, plans: seq<LoanPlan>, p: LoanPlan, today: Date)
    requires ValidDate(today) && PlansUpTo(active, plans, today) && |plans| < |active|
    requires PlanOf(active[|plans|], today) == Some(p)
    ensures PlansUpTo(active, plans + [p], today)
  {
    var next := plans + [p];
    forall k | 0 <= k < |next| ensures PlanOf(active[k], today) == Some(next[k]) {
      if k < |plans| { assert next[k] == plans[k]; }
    }
  }

  lemma PlansComplete(loans: seq<Loan>, plans: seq<LoanPlan>, totalDebt: int, today: Date)
    requires ValidDate(today)
    requires PlansUpTo(ActiveLoans(loans), plans, today) && |plans| == |ActiveLoans(loans)|
    requires totalDebt == SumOf(ActiveLoans(loans), Remaining)
    ensures RepaymentPlanOf(loans, today)
      == Some(RepaymentPlanReport(SortBy(plans, MonthsKey), |ActiveLoans(loans)|, totalDebt))
  {
    var active := ActiveLoans(loans);
    var each := seq(|active|, k requires 0 <= k < |active| => PlanOf(active[k], today));
    assert AllSome(each).value == plans;
  }

  /** The plans of the loans whose payoff date is known, in table order. */
  function ActivePlans(active: seq<Loan>, today: Date): seq<LoanPlan>
    requires ValidDate(today)
  {
    if active == [] then []
    else
      var rest := ActivePlans(active[..|active| - 1], today);
      match PlanOf(active[|active| - 1], today)
      case None => rest
      case Some(p) => rest + [p]
  }

  /** When every active loan has a plan, the loop's plans are those plans. */
  lemma {:induction false} PlansAreActivePlans(active: seq<Loan>, plans: seq<LoanPlan>, today: Date)
    requires ValidDate(today) && PlansUpTo(active, plans, today) && |plans| == |active|
    ensures plans == ActivePlans(active, today)
    decreases |active|
  {
    if active != [] {
      var n := |active| - 1;
      assert PlansUpTo(active[..n], plans[..n], today) by {
        forall k | 0 <= k < n ensures PlanOf(active[..n][k], today) == Some(plans[..n][k]) {
          assert active[..n][k] == active[k];
        }
      }
      PlansAreActivePlans(active[..n], plans[..n], today);
      assert plans == plans[..n] + [plans[n]];
    }
  }

  /** Sorting the plans of all active loans keeps one plan per loan, each
      with a month count that is not negative. */
  lemma SortedPlansFacts(active: seq<Loan>, plans: seq<LoanPlan>, today: Date)
    requires ValidDate(today) && PlansUpTo(active, plans, today) && |plans| == |active|
    ensures var sorted := SortBy(plans, MonthsKey);
      SortedBy(sorted, MonthsKey) && |sorted| == |active|
      && (forall l :: l in active ==> PlanOf(l, today).Some? && PlanOf(l, today).value in sorted)
      && (forall p :: p in sorted ==> p.remainingMonths >= 0)
      && (forall p :: p in sorted ==> exists l :: l in active && PlanOf(l, today) == Some(p))
      && multiset(sorted) == multiset(ActivePlans(active, today))
  {
    PlansAreActivePlans(active, plans, today);
    SortByFacts(plans, MonthsKey);
    var sorted := SortBy(plans, MonthsKey);
    forall l | l in active ensures PlanOf(l, today).Some? && PlanOf(l, today).value in sorted {
      var k :| 0 <= k < |active| && active[k] == l;
      assert plans[k] in multiset(sorted);
    }
    PlanSources(active, plans, today);
    forall p | p in sorted ensures p in plans {
      assert p in multiset(plans);
    }
  }

  /** Each collected plan is the plan of an active loan. */
  lemma PlanSources(active: seq<Loan>, plans: seq<LoanPlan>, today: Date)
    requires ValidDate(today) && PlansUpTo(active, plans, today) && |plans| == |active|
    ensures forall p :: p in plans ==> p.remainingMonths >= 0 && exists l :: l in active && PlanOf(l, today) == Some(p)
  {
    forall p | p in plans ensures p.remainingMonths >= 0 && exists l :: l in active && PlanOf(l, today) == Some(p) {
      var k :| 0 <= k < |plans| && plans[k] == p;
      assert active[k] in active && PlanOf(active[k], today) == Some(p);
    }
  }

  lemma PlansFail(loans: seq<Loan>, i: int, today: Date)
    requires ValidDate(today) && 0 <= i < |ActiveLoans(loans)|
    requires PlanOf(ActiveLoans(loans)[i], today).None?
    ensures RepaymentPlanOf(loans, today).None?
  {
    var active := ActiveLoans(loans);
    var each := seq(|active|, k requires 0 <= k < |active| => PlanOf(active[k], today));
    assert each[i].None?;
  }

  /** The loop of `getRepaymentPlan`, then the sort. */
  method RepaymentPlan(loans: seq<Loan>, today: Date) returns (r: Option<RepaymentPlanReport>)
    requires ValidDate(today)
    ensures r == RepaymentPlanOf(loans, today)
  {
    var active := ActiveLoans(loans);
    var plans: seq<LoanPlan> := [];
    var totalDebt := 0;
    var i := 0;
    while i < |active|
      invariant 0 <= i <= |active| && |plans| == i
      invariant PlansUpTo(active, plans, today)
      invariant totalDebt == SumOf(active[..i], Remaining)
    {
      var plan := PlanOf(active[i], today);
      if plan.None? {
        PlansFail(loans, i, today);
        return None;
      }
      PlansUpToSnoc(active, plans, plan.value, today);
      plans := plans + [plan.value];
      assert active[..i + 1][..i] == active[..i];
      totalDebt := totalDebt + active[i].remainingAmount;
      i := i + 1;
    }
    assert active[..|active|] == active;
    PlansComplete(loans, plans, totalDebt, today);
    return Some(RepaymentPlanReport(SortBy(plans, MonthsKey), |active|, totalDebt));
  }

  /** The plan lists every active loan's plan once, sorted by remaining
      months, each never negative; the count is the number of active loans
      and the total debt is `getTotalDebt()`. */
  lemma RepaymentPlanFacts(loans: seq<Loan>, today: Date)
    requires ValidDate(today) && RepaymentPlanOf(loans, today).Some?
    ensures var r := RepaymentPlanOf(loans, today).value;
      var active := ActiveLoans(loans);
      SortedBy(r.loans, MonthsKey)
      && |r.loans| == r.activeCount == |active|
      && r.totalDebt == TotalDebt(loans)
      && (forall l :: l in active ==> PlanOf(l, today).Some? && PlanOf(l, today).value in r.loans)
      && (forall p :: p in r.loans ==> exists l :: l in active && PlanOf(l, today) == Some(p))
      && multiset(r.loans) == multiset(ActivePlans(active, today))
      && (forall p :: p in r.loans ==> p.remainingMonths >= 0)
  {
    var active := ActiveLoans(loans);
    var each := seq(|active|, k requires 0 <= k < |active| => PlanOf(active[k], today));
    var plans := AllSome(each).value;
    assert RepaymentPlanOf(loans, today).value == RepaymentPlanReport(SortBy(plans, MonthsKey), |active|, SumOf(active, Remaining));
    assert PlansUpTo(active, plans, today) by {
      forall k | 0 <= k < |plans| ensures PlanOf(active[k], today) == Some(plans[k]) {
        assert each[k] == PlanOf(active[k], today);
      }
    }
    SortedPlansFacts(active, plans, today);
  }
}
