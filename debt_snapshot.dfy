/** `DebtSnapshotService`: a once-per-(date, type) aggregate of the debt,
    stored only when none exists yet. Its loan record has the fields the
    service reads (`principal`, `monthlyAmount`), which the loan entity of
    the loan service does not have. */
module DebtSnapshots {
  import opened Wrappers
  import opened Dates
  import opened Sorting
  import opened RepaymentSchedules

  const Active: string := "active"
  const Completed: string := "completed"
  const Daily: string := "daily"

  /** The loan fields the snapshot reads. */
  datatype SnapshotLoan = SnapshotLoan(id: int, principal: Option<int>, monthlyAmount: Option<int>, status: Option<string>)

  datatype DebtSnapshot = DebtSnapshot(
    snapshotDate: Date,
    totalDebt: int,
    totalPrincipal: int,
    paidAmount: int,
    remainingAmount: int,
    activeLoans: int,
    completedLoans: int,
    monthlyPayment: int,
    snapshotType: string)

  function Principal(l: SnapshotLoan): int { l.principal.GetOr(0) }

  function MonthlyAmount(l: SnapshotLoan): int { l.monthlyAmount.GetOr(0) }

  /** `findByStatus(status)` */
  function WithStatus(loans: seq<SnapshotLoan>, status: string): (r: seq<SnapshotLoan>)
    ensures forall l :: l in r <==> l in loans && l.status == Some(status)
    ensures |r| <= |loans|
  {
    if loans == [] then []
    else
      var last := loans[|loans| - 1];
      WithStatus(loans[..|loans| - 1], status) + (if last.status == Some(status) then [last] else [])
  }

  /** The paid amounts of a loan's "paid" entries, a null one counting 0. */
  function PaidOn(schedules: seq<Schedule>, loanId: int): int
  {
    if schedules == [] then 0
    else
      var e := schedules[|schedules| - 1];
      PaidOn(schedules[..|schedules| - 1], loanId)
        + (if e.loanId == loanId && e.status == Some(Paid) then e.paidAmount.GetOr(0) else 0)
  }

  /** A pending entry whose amount is null: adding it throws. */
  predicate NullPending(e: Schedule, loanId: int)
  {
    e.loanId == loanId && e.status == Some(Pending) && e.amount.None?
  }

  /** The amounts of a loan's "pending" entries; `None` when one is null. */
  function PendingOn(schedules: seq<Schedule>, loanId: int): (r: Option<int>)
    ensures r.None? <==> exists k :: 0 <= k < |schedules| && NullPending(schedules[k], loanId)
  {
    if schedules == [] then Some(0)
    else
      var e := schedules[|schedules| - 1];
      var init := schedules[..|schedules| - 1];
      assert forall k :: 0 <= k < |init| ==> init[k] == schedules[k];
      AddOpt(PendingOn(init, loanId),
             if e.loanId == loanId && e.status == Some(Pending) then e.amount else Some(0))
  }

  /** The first loop: paid amounts over all loans. */
  function PaidTotal(loans: seq<SnapshotLoan>, schedules: seq<Schedule>): int
  {
    if loans == [] then 0 else PaidTotal(loans[..|loans| - 1], schedules) + PaidOn(schedules, loans[|loans| - 1].id)
  }

  /** The second loop: pending amounts over the active loans. */
  function RemainingTotal(active: seq<SnapshotLoan>, schedules: seq<Schedule>): Option<int>
  {
    if active == [] then Some(0)
    else AddOpt(RemainingTotal(active[..|active| - 1], schedules), PendingOn(schedules, active[|active| - 1].id))
  }

  /** The remaining amount is known exactly when no active loan has a
      pending entry without an amount. */
  lemma {:induction false} RemainingKnown(active: seq<SnapshotLoan>, schedules: seq<Schedule>)
    ensures RemainingTotal(active, schedules).Some? <==>
      forall i, k :: 0 <= i < |active| && 0 <= k < |schedules| ==> !NullPending(schedules[k], active[i].id)
    decreases |active|
  {
    if active != [] {
      var init := active[..|active| - 1];
      RemainingKnown(init, schedules);
      assert forall i :: 0 <= i < |init| ==> init[i] == active[i];
    }
  }

  /** The snapshot `createSnapshot` builds; `None` when summing a null
      pending amount throws. */
  function SnapshotOf(loans: seq<SnapshotLoan>, schedules: seq<Schedule>, date: Date, snapshotType: string): Option<DebtSnapshot>
  {
    var active := WithStatus(loans, Active);
    match RemainingTotal(active, schedules)
    case None => None
    case Some(remaining) =>
      Some(DebtSnapshot(date, remaining, SumOf(loans, Principal), PaidTotal(loans, schedules), remaining,
                        |active|, |WithStatus(loans, Completed)|, SumOf(active, MonthlyAmount), snapshotType))
  }

  /** `findByDateAndType(date, type)`: the first stored match. */
  function FindSnapshot(store: seq<DebtSnapshot>, date: Date, snapshotType: string): (r: Option<DebtSnapshot>)
    ensures r.Some? <==> exists k :: 0 <= k < |store| && store[k].snapshotDate == date && store[k].snapshotType == snapshotType
    ensures r.Some? ==> r.value in store && r.value.snapshotDate == date && r.value.snapshotType == snapshotType
  {
    if store == [] then None
    else if store[0].snapshotDate == date && store[0].snapshotType == snapshotType then Some(store[0])
    else
      var rest := FindSnapshot(store[1..], date, snapshotType);
      assert forall k :: 1 <= k < |store| ==> store[1..][k - 1] == store[k];
      rest
  }

  datatype Created = Created(snapshot: DebtSnapshot, store: seq<DebtSnapshot>)

  /** `createSnapshot(date, type)`: the stored one when it exists, else the
      new snapshot appended to the store. */
  function Create(store: seq<DebtSnapshot>, loans: seq<SnapshotLoan>, schedules: seq<Schedule>, date: Date, snapshotType: string): Option<Created>
  {
    match FindSnapshot(store, date, snapshotType)
    case Some(existing) => Some(Created(existing, store))
    case None =>
      match SnapshotOf(loans, schedules, date, snapshotType)
      case None => None
      case Some(s) => Some(Created(s, store + [s]))
  }

  /** A new snapshot: its debt equals its remaining amount (the pending
      amounts of the active loans), it sums every loan's principal and paid
      entries and the active loans' monthly amounts, counts the active
      loans, carries the requested date and type, and is stored where the
      next lookup finds it. */
  lemma CreateFacts(store: seq<DebtSnapshot>, loans: seq<SnapshotLoan>, schedules: seq<Schedule>, date: Date, snapshotType: string)
    requires FindSnapshot(store, date, snapshotType).None?
    requires Create(store, loans, schedules, date, snapshotType).Some?
    ensures var c := Create(store, loans, schedules, date, snapshotType).value;
      c.store == store + [c.snapshot]
      && c.snapshot.totalDebt == c.snapshot.remainingAmount
      && c.snapshot.snapshotDate == date && c.snapshot.snapshotType == snapshotType
      && c.snapshot.activeLoans == |WithStatus(loans, Active)| <= |loans|
      && c.snapshot.remainingAmount == RemainingTotal(WithStatus(loans, Active), schedules).value
      && c.snapshot.totalPrincipal == SumOf(loans, Principal)
      && c.snapshot.paidAmount == PaidTotal(loans, schedules)
      && c.snapshot.monthlyPayment == SumOf(WithStatus(loans, Active), MonthlyAmount)
      && FindSnapshot(c.store, date, snapshotType) == Some(c.snapshot)
  {
    var c := Create(store, loans, schedules, date, snapshotType).value;
    FindAfterAppend(store, c.snapshot, date, snapshotType);
  }

  lemma {:induction false} FindAfterAppend(store: seq<DebtSnapshot>, s: DebtSnapshot, date: Date, snapshotType: string)
    requires FindSnapshot(store, date, snapshotType).None?
    requires s.snapshotDate == date && s.snapshotType == snapshotType
    ensures FindSnapshot(store + [s], date, snapshotType) == Some(s)
    decreases |store|
  {
    if store != [] {
      assert (store + [s])[1..] == store[1..] + [s];
      FindAfterAppend(store[1..], s, date, snapshotType);
    }
  }

  /** Creating twice is creating once: the second call returns the first
      call's snapshot and stores nothing, whatever the tables hold then. */
  lemma CreateIdempotent(store: seq<DebtSnapshot>, loans: seq<SnapshotLoan>, schedules: seq<Schedule>,
                         loans2: seq<SnapshotLoan>, schedules2: seq<Schedule>, date: Date, snapshotType: string)
    requires Create(store, loans, schedules, date, snapshotType).Some?
    ensures var c := Create(store, loans, schedules, date, snapshotType).value;
      Create(c.store, loans2, schedules2, date, snapshotType) == Some(c)
  {
    if FindSnapshot(store, date, snapshotType).None? {
      CreateFacts(store, loans, schedules, date, snapshotType);
    }
  }

  /** The snapshot table. */
  class SnapshotStore {
    var snapshots: seq<DebtSnapshot>

    constructor ()
      ensures snapshots == []
    {
      snapshots := [];
    }

    /** The paid amounts of one loan's paid entries. */
    static method SumPaid(schedules: seq<Schedule>, loanId: int) returns (total: int)
      ensures total == PaidOn(schedules, loanId)
    {
      total := 0;
      var k := 0;
      while k < |schedules|
        invariant 0 <= k <= |schedules| && total == PaidOn(schedules[..k], loanId)
      {
        var e := schedules[k];
        assert schedules[..k + 1][..k] == schedules[..k];
        if e.loanId == loanId && e.status == Some(Paid) {
          total := total + (if e.paidAmount.Some? then e.paidAmount.value else 0);
        }
        k := k + 1;
      }
      assert schedules[..k] == schedules;
    }

    /** The amounts of one loan's pending entries; `None` at a null one. */
    static method SumPending(schedules: seq<Schedule>, loanId: int, start: int) returns (total: Option<int>)
      ensures total == AddOpt(Some(start), PendingOn(schedules, loanId))
    {
      var sum := start;
      var k := 0;
      while k < |schedules|
        invariant 0 <= k <= |schedules|
        invariant PendingOn(schedules[..k], loanId).Some? && sum == start + PendingOn(schedules[..k], loanId).value
      {
        var e := schedules[k];
        assert schedules[..k + 1][..k] == schedules[..k];
        if e.loanId == loanId && e.status == Some(Pending) {
          if e.amount.None? {
            assert NullPending(schedules[k], loanId);
            return None;
          }
          sum := sum + e.amount.value;
        }
        k := k + 1;
      }
      assert schedules[..k] == schedules;
      return Some(sum);
    }

    /** `createSnapshot(date, type)` over the loan and schedule tables. */
    method CreateSnapshot(loans: seq<SnapshotLoan>, schedules: seq<Schedule>, date: Date, snapshotType: string)
      returns (r: Option<DebtSnapshot>)
      modifies this
      ensures var c := Create(old(snapshots), loans, schedules, date, snapshotType);
        (c.None? ==> r.None? && snapshots == old(snapshots))
        && (c.Some? ==> r == Some(c.value.snapshot) && snapshots == c.value.store)
    {
      var existing := FindSnapshot(snapshots, date, snapshotType);
      if existing.Some? {
        return existing;
      }
      ghost var store := snapshots;
      var activeLoans := WithStatus(loans, Active);
      var totalPrincipal := 0;
      var paidAmount := 0;
      var i := 0;
      while i < |loans|
        invariant 0 <= i <= |loans| && snapshots == store
        invariant totalPrincipal == SumOf(loans[..i], Principal) && paidAmount == PaidTotal(loans[..i], schedules)
      {
        var loan := loans[i];
        assert loans[..i + 1][..i] == loans[..i];
        totalPrincipal := totalPrincipal + (if loan.principal.Some? then loan.principal.value else 0);
        var paid := SumPaid(schedules, loan.id);
        paidAmount := paidAmount + paid;
        i := i + 1;
      }
      assert loans[..i] == loans;
      var monthlyPayment := 0;
      var remainingAmount := 0;
      var j := 0;
      while j < |activeLoans|
        invariant 0 <= j <= |activeLoans| && snapshots == store
        invariant monthlyPayment == SumOf(activeLoans[..j], MonthlyAmount)
        invariant RemainingTotal(activeLoans[..j], schedules) == Some(remainingAmount)
      {
        var loan := activeLoans[j];
        assert activeLoans[..j + 1][..j] == activeLoans[..j];
        monthlyPayment := monthlyPayment + (if loan.monthlyAmount.Some? then loan.monthlyAmount.value else 0);
        var remaining := SumPending(schedules, loan.id, remainingAmount);
        if remaining.None? {
          assert activeLoans[..j + 1][j] == loan;
          assert RemainingTotal(activeLoans[..j + 1], schedules).None?;
          RemainingStaysUnknown(activeLoans, schedules, j + 1);
          assert SnapshotOf(loans, schedules, date, snapshotType).None?;
          assert Create(store, loans, schedules, date, snapshotType).None?;
          return None;
        }
        remainingAmount := remaining.value;
        j := j + 1;
      }
      assert activeLoans[..j] == activeLoans;
      var snapshot := DebtSnapshot(date, remainingAmount, totalPrincipal, paidAmount, remainingAmount,
                                   |activeLoans|, |WithStatus(loans, Completed)|, monthlyPayment, snapshotType);
      assert SnapshotOf(loans, schedules, date, snapshotType) == Some(snapshot);
      assert Create(store, loans, schedules, date, snapshotType) == Some(Created(snapshot, store + [snapshot]));
      snapshots := snapshots + [snapshot];
      return Some(snapshot);
    }

    /** `createDailySnapshot()` with today's date as a parameter. */
    method CreateDailySnapshot(loans: seq<SnapshotLoan>, schedules: seq<Schedule>, today: Date)
      modifies this
      ensures var c := Create(old(snapshots), loans, schedules, today, Daily);
        (c.None? ==> snapshots == old(snapshots)) && (c.Some? ==> snapshots == c.value.store)
    {
      var _ := CreateSnapshot(loans, schedules, today, Daily);
    }
  }

  /** Once the running pending total is unknown it stays unknown. */
  lemma {:induction false} RemainingStaysUnknown(active: seq<SnapshotLoan>, schedules: seq<Schedule>, j: int)
    requires 0 <= j <= |active| && RemainingTotal(active[..j], schedules).None?
    ensures RemainingTotal(active, schedules).None?
    decreases |active| - j
  {
    if j < |active| {
      assert active[..j + 1][..j] == active[..j];
      RemainingStaysUnknown(active, schedules, j + 1);
    } else {
      assert active[..j] == active;
    }
  }
}
