/** `RepaymentScheduleService`: paying one entry of a repayment schedule,
    and marking every entry due today as paid. */
module RepaymentSchedules {
  import opened Wrappers
  import opened Dates
  import opened Sorting

  /** A `repayment_schedule` row. */
  datatype Schedule = Schedule(
    id: int,
    loanId: int,
    period: Option<int>,
    dueDate: Option<Date>,
    amount: Option<int>,
    status: Option<string>,
    paidDate: Option<Date>,
    paidAmount: Option<int>)

  /** A `payment_record` row. */
  datatype PaymentRecord = PaymentRecord(
    loanId: int,
    scheduleId: int,
    amount: Option<int>,
    paymentDate: Date,
    paymentType: string)

  const Pending: string := "pending"
  const Paid: string := "paid"
  const Overdue: string := "overdue"
  const Normal: string := "normal"
  const Auto: string := "auto"
  const ScheduleMissing: string := "还款计划不存在"
  const AlreadyPaid: string := "该期已还款"

  /** `findById`: the first row with the id. */
  function FindSchedule(s: seq<Schedule>, id: int): (r: Option<nat>)
    ensures r.Some? ==> r.value < |s| && s[r.value].id == id && forall k :: 0 <= k < r.value ==> s[k].id != id
    ensures r.None? <==> forall k :: 0 <= k < |s| ==> s[k].id != id
  {
    if s == [] then None
    else if s[0].id == id then Some(0)
    else match FindSchedule(s[1..], id)
      case None => None
      case Some(k) => Some(k + 1)
  }

  /** `update(schedule)`: every row with the object's id takes its values. */
  function UpdateById(s: seq<Schedule>, row: Schedule): (r: seq<Schedule>)
    ensures |r| == |s| && forall k :: 0 <= k < |s| ==> r[k] == if s[k].id == row.id then row else s[k]
  {
    seq(|s|, k requires 0 <= k < |s| => if s[k].id == row.id then row else s[k])
  }

  /** An entry as paid on `date` with `amount`. */
  function PaidAs(e: Schedule, amount: Option<int>, date: Date): Schedule
  {
    e.(status := Some(Paid), paidDate := Some(date), paidAmount := amount)
  }

  /** `recordPayment` on the schedule table: the new table, or the message
      it throws. */
  function Pay(s: seq<Schedule>, scheduleId: int, amount: int, date: Date): Result<seq<Schedule>, string>
  {
    match FindSchedule(s, scheduleId)
    case None => Err(ScheduleMissing)
    case Some(k) =>
      if s[k].status == Some(Paid) then Err(AlreadyPaid)
      else Ok(UpdateById(s, PaidAs(s[k], Some(amount), date)))
  }

  /** The record `recordPayment` inserts. */
  function NormalRecord(e: Schedule, scheduleId: int, amount: int, date: Date): PaymentRecord
  {
    PaymentRecord(e.loanId, scheduleId, Some(amount), date, Normal)
  }

  /** An unknown id is rejected, a paid entry is rejected, and any other
      entry, pending or overdue, becomes paid with the given date and amount
      while every row with another id stays as it was. */
  lemma PayFacts(s: seq<Schedule>, scheduleId: int, amount: int, date: Date)
    ensures (forall k :: 0 <= k < |s| ==> s[k].id != scheduleId) <==> Pay(s, scheduleId, amount, date) == Err(ScheduleMissing)
    ensures Pay(s, scheduleId, amount, date).Ok? ==>
      var k := FindSchedule(s, scheduleId).value;
      var r := Pay(s, scheduleId, amount, date).value;
      s[k].status != Some(Paid)
      && |r| == |s|
      && r[k].status == Some(Paid) && r[k].paidDate == Some(date) && r[k].paidAmount == Some(amount)
      && r[k].(status := s[k].status, paidDate := s[k].paidDate, paidAmount := s[k].paidAmount) == s[k]
      && forall j :: 0 <= j < |s| && s[j].id != scheduleId ==> r[j] == s[j]
  {
  }

  /** Pending and overdue entries are both accepted. */
  lemma PayAcceptsOpen(s: seq<Schedule>, scheduleId: int, amount: int, date: Date)
    requires FindSchedule(s, scheduleId).Some?
    requires s[FindSchedule(s, scheduleId).value].status in {Some(Pending), Some(Overdue)}
    ensures Pay(s, scheduleId, amount, date).Ok?
  {
  }

  /** A second payment of the same entry is rejected. */
  lemma SecondPaymentRejected(s: seq<Schedule>, scheduleId: int, a1: int, d1: Date, a2: int, d2: Date)
    requires Pay(s, scheduleId, a1, d1).Ok?
    ensures Pay(Pay(s, scheduleId, a1, d1).value, scheduleId, a2, d2) == Err(AlreadyPaid)
  {
    var k := FindSchedule(s, scheduleId).value;
    var r := Pay(s, scheduleId, a1, d1).value;
    assert forall j :: 0 <= j < |r| ==> (r[j].id == scheduleId <==> s[j].id == scheduleId);
    assert FindSchedule(r, scheduleId) == Some(k);
  }

  /** `findTodayPending(today)`: due today and pending, in table order
      before the query's ordering. */
  function DuePending(s: seq<Schedule>, today: Date): (r: seq<Schedule>)
    ensures forall e :: e in r <==> e in s && e.dueDate == Some(today) && e.status == Some(Pending)
  {
    if s == [] then []
    else
      var last := s[|s| - 1];
      DuePending(s[..|s| - 1], today) + (if last.dueDate == Some(today) && last.status == Some(Pending) then [last] else [])
  }

  function ScheduleId(e: Schedule): int { e.id }

  /** The query's result, ordered by id. */
  function TodayPending(s: seq<Schedule>, today: Date): seq<Schedule>
  {
    SortBy(DuePending(s, today), ScheduleId)
  }

  /** The rows the query returns are the ones due today and pending,
      ascending by id. */
  lemma TodayPendingFacts(s: seq<Schedule>, today: Date)
    ensures var q := TodayPending(s, today);
      SortedBy(q, ScheduleId)
      && forall e :: e in q <==> e in s && e.dueDate == Some(today) && e.status == Some(Pending)
  {
    SortByFacts(DuePending(s, today), ScheduleId);
    var q := TodayPending(s, today);
    forall e ensures e in q <==> e in DuePending(s, today) {
      assert e in q <==> e in multiset(q);
      assert e in DuePending(s, today) <==> e in multiset(DuePending(s, today));
    }
  }

  function AutoMarked(e: Schedule, today: Date): Schedule { PaidAs(e, e.amount, today) }

  function AutoRecord(e: Schedule, today: Date): PaymentRecord
  {
    PaymentRecord(e.loanId, e.id, e.amount, today, Auto)
  }

  /** The table after the loop of `markTodayAsPaid` has updated each listed
      row in turn. */
  function ApplyMarks(s: seq<Schedule>, marked: seq<Schedule>, today: Date): seq<Schedule>
    decreases |marked|
  {
    if marked == [] then s
    else ApplyMarks(UpdateById(s, AutoMarked(marked[0], today)), marked[1..], today)
  }

  function AutoRecords(marked: seq<Schedule>, today: Date): (r: seq<PaymentRecord>)
    ensures |r| == |marked| && forall i :: 0 <= i < |marked| ==> r[i] == AutoRecord(marked[i], today)
  {
    seq(|marked|, i requires 0 <= i < |marked| => AutoRecord(marked[i], today))
  }

  /** A row whose id some listed entry has ends up as that entry marked
      paid; any other row is untouched. */
  lemma {:induction false} ApplyMarksFacts(s: seq<Schedule>, marked: seq<Schedule>, today: Date)
    ensures var r := ApplyMarks(s, marked, today);
      |r| == |s|
      && forall k :: 0 <= k < |s| ==>
           if exists e :: e in marked && e.id == s[k].id
           then exists e :: e in marked && e.id == s[k].id && r[k] == AutoMarked(e, today)
           else r[k] == s[k]
    decreases |marked|
  {
    if marked != [] {
      var first := marked[0];
      var next := UpdateById(s, AutoMarked(first, today));
      ApplyMarksFacts(next, marked[1..], today);
      var r := ApplyMarks(s, marked, today);
      forall k | 0 <= k < |s|
        ensures if exists e :: e in marked && e.id == s[k].id
                then exists e :: e in marked && e.id == s[k].id && r[k] == AutoMarked(e, today)
                else r[k] == s[k]
      {
        assert next[k].id == s[k].id;
        if exists e :: e in marked[1..] && e.id == s[k].id {
          var e :| e in marked[1..] && e.id == s[k].id && r[k] == AutoMarked(e, today);
          assert e in marked;
        } else if s[k].id == first.id {
          assert r[k] == next[k] == AutoMarked(first, today);
        } else {
          forall e | e in marked ensures e.id != s[k].id {
            if e != first {
              assert e in marked[1..] by {
                var i :| 0 <= i < |marked| && marked[i] == e;
                assert i != 0;
                assert marked[1..][i - 1] == e;
              }
            }
          }
        }
      }
    }
  }

  /** After `markTodayAsPaid`, nothing is due today and pending: a second
      call on the same day marks nothing and returns 0. */
  lemma SecondMarkFindsNothing(s: seq<Schedule>, today: Date)
    ensures TodayPending(ApplyMarks(s, TodayPending(s, today), today), today) == []
  {
    var q := TodayPending(s, today);
    var r := ApplyMarks(s, q, today);
    TodayPendingFacts(s, today);
    ApplyMarksFacts(s, q, today);
    forall k | 0 <= k < |r| ensures !(r[k].dueDate == Some(today) && r[k].status == Some(Pending)) {
      if exists x :: x in q && x.id == s[k].id {
        var x :| x in q && x.id == s[k].id && r[k] == AutoMarked(x, today);
      } else {
        assert s[k] in s && s[k] !in q;
      }
    }
    NoDuePending(r, today);
  }

  lemma {:induction false} NoDuePending(s: seq<Schedule>, today: Date)
    requires forall k :: 0 <= k < |s| ==> !(s[k].dueDate == Some(today) && s[k].status == Some(Pending))
    ensures DuePending(s, today) == [] && TodayPending(s, today) == []
    decreases |s|
  {
    if s != [] {
      NoDuePending(s[..|s| - 1], today);
    }
  }

  predicate UniqueIds(s: seq<Schedule>)
  {
    forall i, j :: 0 <= i < j < |s| ==> s[i].id != s[j].id
  }

  /** With the table's primary key, `markTodayAsPaid` marks exactly the
      entries due today and pending, paid today with their own amount, and
      leaves every other entry as it was. */
  lemma MarkExactly(s: seq<Schedule>, today: Date)
    requires UniqueIds(s)
    ensures var r := ApplyMarks(s, TodayPending(s, today), today);
      |r| == |s|
      && forall k :: 0 <= k < |s| ==>
           r[k] == if s[k].dueDate == Some(today) && s[k].status == Some(Pending) then AutoMarked(s[k], today) else s[k]
  {
    var q := TodayPending(s, today);
    var r := ApplyMarks(s, q, today);
    TodayPendingFacts(s, today);
    ApplyMarksFacts(s, q, today);
    forall k | 0 <= k < |s|
      ensures r[k] == if s[k].dueDate == Some(today) && s[k].status == Some(Pending) then AutoMarked(s[k], today) else s[k]
    {
      if exists e :: e in q && e.id == s[k].id {
        var e :| e in q && e.id == s[k].id && r[k] == AutoMarked(e, today);
        var j :| 0 <= j < |s| && s[j] == e;
        assert j == k;
      }
    }
  }

  /** The schedule and record tables. */
  class ScheduleService {
    var schedules: seq<Schedule>
    var records: seq<PaymentRecord>

    constructor (schedules: seq<Schedule>)
      ensures this.schedules == schedules && records == []
    {
      this.schedules := schedules;
      records := [];
    }

    /** `recordPayment(scheduleId, amount, paymentDate)`: on success the
        entry is paid and one "normal" record is appended; a failure changes
        nothing. */
    method RecordPayment(scheduleId: int, amount: int, paymentDate: Date) returns (r: Result<(), string>)
      modifies this
      ensures Pay(old(schedules), scheduleId, amount, paymentDate).Err? ==>
        r == Err(Pay(old(schedules), scheduleId, amount, paymentDate).error)
        && schedules == old(schedules) && records == old(records)
      ensures Pay(old(schedules), scheduleId, amount, paymentDate).Ok? ==>
        var e := old(schedules)[FindSchedule(old(schedules), scheduleId).value];
        r == Ok(())
        && schedules == Pay(old(schedules), scheduleId, amount, paymentDate).value
        && records == old(records) + [NormalRecord(e, scheduleId, amount, paymentDate)]
    {
      var k := FindSchedule(schedules, scheduleId);
      if k.None? {
        return Err(ScheduleMissing);
      }
      var schedule := schedules[k.value];
      if schedule.status == Some(Paid) {
        return Err(AlreadyPaid);
      }
      schedules := UpdateById(schedules, PaidAs(schedule, Some(amount), paymentDate));
      records := records + [NormalRecord(schedule, scheduleId, amount, paymentDate)];
      return Ok(());
    }

    /** `markTodayAsPaid()` with today's date as a parameter: each entry the
        query returns is updated and gets one "auto" record; the count is
        returned. */
    method MarkTodayAsPaid(today: Date) returns (count: int)
      modifies this
      ensures var q := TodayPending(old(schedules), today);
        schedules == ApplyMarks(old(schedules), q, today)
        && records == old(records) + AutoRecords(q, today)
        && count == |q|
    {
      var todaySchedules := TodayPending(schedules, today);
      ghost var s0 := schedules;
      ghost var r0 := records;
      count := 0;
      var i := 0;
      while i < |todaySchedules|
        invariant 0 <= i <= |todaySchedules| && count == i
        invariant ApplyMarks(s0, todaySchedules, today) == ApplyMarks(schedules, todaySchedules[i..], today)
        invariant records == r0 + AutoRecords(todaySchedules[..i], today)
      {
        var schedule := todaySchedules[i];
        assert todaySchedules[i..][1..] == todaySchedules[i + 1..];
        schedules := UpdateById(schedules, AutoMarked(schedule, today));
        records := records + [AutoRecord(schedule, today)];
        count := count + 1;
        i := i + 1;
      }
      assert todaySchedules[..i] == todaySchedules;
    }
  }
}
