# Loans: a verified model of the amortisation and cash-flow core

This project models in Dafny the core of a personal loan manager (the Java
Spring service `com.finance.loans`). The model covers:

- **The `Loan` record.** Its expected payoff date and its repaid percentage.
- **Loan ledger state.** Adding, editing and paying loans; totals; the
  per-platform summary; the loan detail view; the repayment plan; the
  back-filling of payment history.
- **The monthly job.** It counts one more paid period on each loan after its
  payment day.
- **The cash-flow forecast.** Month-by-month running balance, deficit
  months, and the day-level event timeline.
- **The salary cycle.** The window between two paydays; the loan and
  fixed-expense events inside it; the running-balance timeline; the figures
  before and after payday.
- **The payment calendar.** Which loans are still being repaid in a month,
  and their payments grouped by day.
- **The repayment-schedule state machine.** Pending or overdue to paid, and
  "mark today's entries paid".
- **The append-only balance ledger.**
- **Debt snapshots.** Created only if absent.
- **The dashboard.** Surplus and months to freedom.

Money is exact integer minor units (the source uses `BigDecimal`). A date is
`Date(year, month, day)` with java.time's month arithmetic: `plusMonths`
clamps the day, while `LocalDate.of` and `withDayOfMonth` fail on a day the
month does not have. A SQL `NULL` is `None` in the fields the services
test for null: a loan's platform, total amount, monthly payment, payment
day, periods, start date and status, and a snapshot loan's principal,
monthly amount and status. The other columns are always present in the
model; "## Left out" names them.

Each case changes form in the model:

- `LocalDate.now()` becomes a `today` parameter.
- A mapper becomes a table held in a class (`LoanTables`, `BalanceService`,
  `ScheduleService`, `SnapshotStore`) or a sequence parameter.
- An exception that escapes a request makes the operation return `None` or
  `Err`.
- A per-loan `try/catch` means the loan is skipped.

Modules, one per source class (plus four shared ones):

| file | module | models |
|---|---|---|
| wrappers.dfy | Wrappers | Option / Result, failing sums |
| dates.dfy | Dates | `LocalDate`, `plusMonths`, `minusMonths`, `of`, `withDayOfMonth`, ordering, `DAYS.between` |
| money.dfy | Money | `RoundingMode.UP` and `HALF_UP` division |
| sorting.dfy | Sorting | `List.sort` (stable) and stream sums |
| loan.dfy | Loans | `Loan.java` |
| items.dfy | Items | incomes, expenses, temporary transactions (inputs) |
| loan_service.dfy | LoanLedger | `LoanService` except `generatePaymentHistory` |
| history_backfill.dfy | PaymentHistoryBackfill | `LoanService.generatePaymentHistory` |
| auto_update.dfy | LoanAutoUpdate | `LoanAutoUpdateService` |
| forecast.dfy | Forecast | `ForecastService` |
| salary_cycle.dfy | SalaryCycle | `SalaryCycleService` |
| calendar.dfy | Calendar | `CalendarService` |
| repayment_schedule.dfy | RepaymentSchedules | `RepaymentScheduleService` |
| balance.dfy | Balances | `BalanceService` |
| debt_snapshot.dfy | DebtSnapshots | `DebtSnapshotService` |
| dashboard.dfy | Dashboard | `DashboardService` |

The source's loops are `method`s with loop invariants. Each is proved equal
to a specification function, and the lemmas beside it state what the source
promises about that function.

The back-fill of payment history runs as the code is written: a loan
without a start date whose first date does not exist is caught and
skipped (see "## Findings"). The same functions with `corrected == true`
give the run with the first date clamped to its own month. Each property
of the back-fill is proved of both runs, and AsWrittenSameRows states
how they differ.

## Model

| member | source | states |
|---|---|---|
| Dates.PlusMonths | src/main/java/com/finance/loans/model/Loan.java:50-53 | `plusMonths(n)` lands n months later, keeps the day when the target month has it and otherwise clamps it to the month's length; valid dates stay valid |
| Dates.MinusMonths | src/main/java/com/finance/loans/service/SalaryCycleService.java:43 | `minusMonths(n)` lands n months earlier and keeps valid dates valid |
| Dates.Of | src/main/java/com/finance/loans/service/CalendarService.java:43 | `LocalDate.of` succeeds exactly for a month 1..12 and a day the month has, and then yields that date |
| Dates.WithDayOfMonth | src/main/java/com/finance/loans/model/Loan.java:59 | `withDayOfMonth` succeeds exactly for a day the month has, stays in the same month, and sets that day |
| Dates.OrdIsChronological | src/main/java/com/finance/loans/service/ForecastService.java:184 | the integer key used for date comparisons orders valid dates as year, month, day, and equal keys mean equal dates |
| Dates.ClampExamples | src/main/java/com/finance/loans/model/Loan.java:55-57 | 31 January plus one month is 29 February in a leap year and 28 February otherwise; 29 February 2023 does not exist |
| Dates.YearLength | src/main/java/com/finance/loans/service/SalaryCycleService.java:81 | the day count gives a year 366 days when it is a leap year and 365 otherwise |
| Dates.DayNumberNext | src/main/java/com/finance/loans/service/SalaryCycleService.java:81 | the day number counts days: the next calendar day has the next number |
| Dates.DayNumberOrder | src/main/java/com/finance/loans/service/SalaryCycleService.java:81 | the day number orders valid dates as the calendar does and names each date once, so `DAYS.between(a, b)` is positive iff a is before b |
| Dates.DaysBetweenExamples | src/main/java/com/finance/loans/service/SalaryCycleService.java:81 | `DAYS.between` across a month end, a leap day and a year end |
| Money.DivideUpBounds | src/main/java/com/finance/loans/model/Loan.java:63 | for a positive dividend, division rounded UP is the least number of divisor-sized steps that covers it; otherwise it is not positive |
| Money.HalfUpNearest | src/main/java/com/finance/loans/model/Loan.java:91 | HALF_UP division lands within half a unit of the exact quotient, and exactly on a half it moves away from zero |
| Sorting.SortByFacts | src/main/java/com/finance/loans/service/SalaryCycleService.java:200 | the sort orders the list by its key, keeps its length and only rearranges its elements |
| Sorting.SortByStable | src/main/java/com/finance/loans/service/ForecastService.java:184 | the sort is stable: elements with equal keys keep their input order |
| Sorting.SortBySum | src/main/java/com/finance/loans/service/LoanService.java:245 | sorting does not change a sum over the list |
| Loans.ActiveLoans | src/main/java/com/finance/loans/service/LoanService.java:37-39 | `findByStatus("active")` returns exactly the active rows, never more rows than the table |
| Loans.NthDueDateFacts | src/main/java/com/finance/loans/model/Loan.java:45-59 | the n-th due date exists iff the payment day is at least 1; it is valid, in the current month (day not passed) or the next, plus n-1 months, on the payment day clamped to the month's length (exactly the payment day when it fits), and never before today |
| Loans.PayoffNeedsMonthlyPayment | src/main/java/com/finance/loans/model/Loan.java:34-36 | a payoff date exists only when the monthly payment is present and positive |
| Loans.PayoffByPeriods | src/main/java/com/finance/loans/model/Loan.java:39-60 | with periods and payment day known: no date when no period remains; otherwise the last due date, remaining-1 months after this month when today's day has not passed the payment day, remaining months after it otherwise, on the clamped payment day, never before today; an invalid payment day throws |
| Loans.PayoffByAmount | src/main/java/com/finance/loans/model/Loan.java:62-80 | the fallback uses remaining / monthly rounded up, the fewest months that cover the remaining amount; no date iff nothing remains; without a payment day the date is today plus that many months, unclamped to a payment day |
| Loans.RepaidIsNearest | src/main/java/com/finance/loans/model/Loan.java:86-94 | the repaid percentage (in hundredths of a percent) is the repaid share to the nearest 0.01 % |
| Loans.RepaidEnds | src/main/java/com/finance/loans/model/Loan.java:86-94 | 0 when the total is null or zero, exactly 100 % when nothing remains, exactly 0 % when nothing is repaid |
| Loans.RepaidBounds | src/main/java/com/finance/loans/model/Loan.java:86-94 | a loan between untouched and repaid reads between 0 % and 100 % |
| LoanLedger.FindLoan | src/main/java/com/finance/loans/service/LoanService.java:53-58 | the lookup finds a row with the id, and finds none exactly when no row has it |
| LoanLedger.NextLoanId | src/main/java/com/finance/loans/service/LoanService.java:65-79 | the id a new row receives is larger than every existing id |
| LoanLedger.AdmittedFacts | src/main/java/com/finance/loans/service/LoanService.java:66-75 | a stored new loan is active unless a status was given, keeps every supplied field, and its remaining amount is monthly × (total − paid) when those are known, the supplied amount otherwise |
| LoanLedger.RevisedFacts | src/main/java/com/finance/loans/service/LoanService.java:86-105 | an update keeps the id, takes every other field from the details, derives the remaining amount when it can, and applying the same update twice equals applying it once |
| LoanLedger.PaymentFacts | src/main/java/com/finance/loans/service/LoanService.java:141-152 | a payment lowers the remaining amount by the amount paid, and it is never negative afterwards; the loan completes with 0 remaining iff the payment covers it, otherwise its status is kept; paid periods go up by one when known |
| LoanLedger.InstalmentKeepsConsistency | src/main/java/com/finance/loans/service/LoanService.java:141-152 | paying exactly one instalment of a consistent loan keeps its remaining amount equal to monthly × periods left |
| LoanLedger.LoanService.AddLoan | src/main/java/com/finance/loans/service/LoanService.java:65-79 | `addLoan` appends exactly the admitted row under a fresh id and touches no history |
| LoanLedger.LoanService.UpdateLoan | src/main/java/com/finance/loans/service/LoanService.java:85-109 | `updateLoan` on an unknown id fails with "not found" and changes nothing; otherwise it replaces that row by the revised one and nothing else |
| LoanLedger.LoanService.RecordPayment | src/main/java/com/finance/loans/service/LoanService.java:127-163 | `recordPayment` on an unknown loan fails and changes nothing; otherwise it updates that loan as PaymentFacts says, appends exactly one history row, and appends one balance deduction of exactly the amount iff auto-deduct is set |
| LoanLedger.SumMonthly | src/main/java/com/finance/loans/service/LoanService.java:178-183 | the monthly payment total exists iff every active loan's monthly payment is present, and is then their sum |
| LoanLedger.GroupedExact | src/main/java/com/finance/loans/service/LoanService.java:219-243 | each platform group holds exactly its platform's loans (a null platform is "未分类"), counted and summed, and is not empty |
| LoanLedger.GroupedSums | src/main/java/com/finance/loans/service/LoanService.java:219-243 | the group counts add up to the number of loans and the group debts to their remaining amounts |
| LoanLedger.PlatformSummaryFacts | src/main/java/com/finance/loans/service/LoanService.java:168-173 | the platform summary is sorted by debt, highest first; it rearranges the groups of the active loans; every active loan's platform has a group; the counts sum to the active count and the debts to `getTotalDebt` |
| LoanLedger.PlatformSummary | src/main/java/com/finance/loans/service/LoanService.java:219-246 | the grouping loop and the sort compute the platform summary, failing when an active loan's monthly payment is null |
| LoanLedger.LoanDetailFacts | src/main/java/com/finance/loans/service/LoanService.java:252-288 | an unknown id fails; remaining periods are total − paid, or 0 when either is missing; the payoff date exists iff periods remain and lies that many months after today; interest is total repayment − principal; paid plus remaining instalments make the total repayment |
| LoanLedger.TwoPayoffFormulas | src/main/java/com/finance/loans/service/LoanService.java:283 | the detail view and `calculatePayoffDate` give different payoff dates for the same loan (10 March against 20 February 2024 in the stated case) |
| LoanLedger.MonthsBetweenFacts | src/main/java/com/finance/loans/service/LoanService.java:329-330 | `Period.between` read as years × 12 + months counts the whole months from a date to a later one: the month difference or one less, and adding them does not pass the later date |
| LoanLedger.RemainingMonthsFacts | src/main/java/com/finance/loans/service/LoanService.java:321-336 | a plan's remaining months are never negative, are 0 with no payoff date or a payoff today, and are otherwise the whole months until the payoff date |
| LoanLedger.RepaymentPlan | src/main/java/com/finance/loans/service/LoanService.java:293-361 | the loop and sort of `getRepaymentPlan` compute the repayment plan, failing when a payoff date throws |
| LoanLedger.RepaymentPlanFacts | src/main/java/com/finance/loans/service/LoanService.java:321-352 | the plans are ascending by remaining months, one per active loan, each the plan of an active loan, and as a multiset exactly the plans of the active loans whose payoff date is known; the total debt is `getTotalDebt` |
| PaymentHistoryBackfill.FirstPaymentDate | src/main/java/com/finance/loans/service/LoanService.java:403-415 | the first back-filled date exists iff the payment day is at least 1; it is valid, in the month after the start date (or paid−1 months before today without one), on the payment day clamped to that month |
| PaymentHistoryBackfill.FirstPaymentDateAsWritten | src/main/java/com/finance/loans/service/LoanService.java:403-415 | the first date as written fails iff the payment day is below 1 or, without a start date, the payment day clamped to today's month length exceeds the length of the month paid−1 months back; when it exists it is valid and in the corrected first date's month |
| PaymentHistoryBackfill.AsWrittenSkipsMonthEnd | src/main/java/com/finance/loans/service/LoanService.java:413-414 | the first date as written throws for payment day 31, two paid periods, no start date and today 2024-03-15, where clamping to the target month gives 2024-02-29 |
| PaymentHistoryBackfill.AsWrittenSkipsLoan | src/main/java/com/finance/loans/service/LoanService.java:386-458 | in a run as written, that loan writes no row and counts as skipped |
| PaymentHistoryBackfill.CorrectedKeepsLoan | src/main/java/com/finance/loans/service/LoanService.java:405-445 | the corrected run writes that loan's rows for 2024-02-29 and 2024-03-31 and skips nothing |
| PaymentHistoryBackfill.AsWrittenAgrees | src/main/java/com/finance/loans/service/LoanService.java:403-415 | the source's first date equals the corrected one whenever the start date is known or the payment day is at most 28 |
| PaymentHistoryBackfill.LoanMonthsFacts | src/main/java/com/finance/loans/service/LoanService.java:403-424 | an eligible loan gets no dates exactly when its first date fails (corrected: exactly when the payment day is below 1); otherwise its dates are paidPeriods consecutive months from the first payment month, each on the payment day clamped to its month |
| PaymentHistoryBackfill.AsWrittenSameMonths | src/main/java/com/finance/loans/service/LoanService.java:419-422 | where the first date as written exists, the run as written covers the same dates as the corrected run, since each row clamps the payment day to its own month; otherwise it covers none |
| PaymentHistoryBackfill.AsWrittenSameRows | src/main/java/com/finance/loans/service/LoanService.java:403-445 | one loan's rows as written are the corrected rows, or none when the first date as written throws |
| PaymentHistoryBackfill.IneligibleUntouched | src/main/java/com/finance/loans/service/LoanService.java:389-401 | a loan with paid periods null or not positive, or without a payment day, gets no rows |
| PaymentHistoryBackfill.RowsFromFacts | src/main/java/com/finance/loans/service/LoanService.java:419-445 | the inner loop keeps every existing row, appends only rows of this loan for listed months, and afterwards every listed month has a row |
| PaymentHistoryBackfill.BackfillFacts | src/main/java/com/finance/loans/service/LoanService.java:376-459 | a run, as written or corrected, keeps every existing row, covers every processed loan's months, reports as generated exactly the rows it added, and skips at most every loan |
| PaymentHistoryBackfill.BackfillIdempotent | src/main/java/com/finance/loans/service/LoanService.java:426-431 | for the run as written and for the corrected run, a second run generates nothing, leaves the history as the first left it, and reports every loan as skipped |
| PaymentHistoryBackfill.BackfillOne | src/main/java/com/finance/loans/service/LoanService.java:389-458 | the per-loan body inserts exactly the rows of the run as written, none when the first date throws, and returns how many, leaving the loan table alone |
| PaymentHistoryBackfill.GeneratePaymentHistory | src/main/java/com/finance/loans/service/LoanService.java:368-469 | an unknown loan id changes nothing; otherwise the loan asked for, or every active loan, is back-filled in order as written, with generated, skipped and processed counts as the specification gives |
| LoanAutoUpdate.AdvancedFacts | src/main/java/com/finance/loans/service/LoanAutoUpdateService.java:78-96 | an advanced loan has exactly one more paid period, never more than the total; it is completed with 0 remaining exactly when the last period is paid; its remaining amount agrees with the periods left; it is stamped today; nothing else changes |
| LoanAutoUpdate.AutoRowsFacts | src/main/java/com/finance/loans/service/LoanAutoUpdateService.java:99-105 | a run records one history row per due loan, each for that loan's monthly payment, dated today and not deducted from the balance |
| LoanAutoUpdate.AutoUpdateKeepsTerm | src/main/java/com/finance/loans/service/LoanAutoUpdateService.java:59-66 | paid periods never pass total periods across a run |
| LoanAutoUpdate.AdvancedNotDueThisMonth | src/main/java/com/finance/loans/service/LoanAutoUpdateService.java:130-140 | a loan advanced today is not due again on any later day of the same month |
| LoanAutoUpdate.AutoUpdateIdempotent | src/main/java/com/finance/loans/service/LoanAutoUpdateService.java:96 | a second run the same day changes no loan and records no row |
| LoanAutoUpdate.AutoUpdatePaidPeriods | src/main/java/com/finance/loans/service/LoanAutoUpdateService.java:44-123 | disabled, the job changes nothing; enabled, every due loan (active, periods known and left, payment day reached, not stamped this month) is advanced in place, one row per advanced loan is appended, and their number is counted |
| Forecast.ForecastCashFlow | src/main/java/com/finance/loans/service/ForecastService.java:28-106 | the month loop computes the forecast specification |
| Forecast.MonthPayments | src/main/java/com/finance/loans/service/ForecastService.java:66-84 | the loan loop of a month succeeds iff no payoff date throws, and then yields that month's payment and paying loans |
| Forecast.ForecastShape | src/main/java/com/finance/loans/service/ForecastService.java:37-60 | the forecast fails iff some payoff date throws (and months is positive); otherwise it has exactly months entries (none when months ≤ 0) for consecutive months from the current one, each with the same income and expense totals |
| Forecast.RunningBalance | src/main/java/com/finance/loans/service/ForecastService.java:40-99 | the first month opens at 0; surplus = income − expense − payment; each month closes at open + surplus and the next opens there; the closing balance is the sum of the surpluses so far; a month is a deficit iff it closes below 0 |
| Forecast.PaymentIsSumOfDetails | src/main/java/com/finance/loans/service/ForecastService.java:73-81 | each month's payment is the sum of the amounts in its payment details |
| Forecast.PaymentsShrink | src/main/java/com/finance/loans/service/ForecastService.java:66-84 | a loan paying in a later month pays in every earlier one, a loan with no payoff date never pays, and the payment and the paying list only shrink month over month |
| Forecast.DetectDeficit | src/main/java/com/finance/loans/service/ForecastService.java:111-132 | the deficit loop computes the deficit report of the forecast |
| Forecast.DeficitReportFacts | src/main/java/com/finance/loans/service/ForecastService.java:116-129 | the report lists exactly the deficit months, has a deficit iff one exists, and names as first the earliest deficit month |
| Forecast.GenerateEventTimeline | src/main/java/com/finance/loans/service/ForecastService.java:137-187 | the nested loops and the sort compute the event timeline, failing when a day does not exist or a payoff date throws |
| Forecast.TimelineSorted | src/main/java/com/finance/loans/service/ForecastService.java:184 | the timeline is ordered by date, holds exactly the generated events, and same-day events keep their generation order |
| Forecast.PaymentEventsFromPayers | src/main/java/com/finance/loans/service/ForecastService.java:169-181 | every payment event comes from a loan with a payoff date not before the step, for its monthly payment, on its payment day of the step's month |
| Forecast.PlusDay | src/main/java/com/finance/loans/service/ForecastService.java:171-172 | "before payoff + 1 day" holds of a valid date exactly when it is not after the payoff date |
| Forecast.DriftExample | src/main/java/com/finance/loans/service/ForecastService.java:145-148 | stepping by `plusMonths(1)` from 31 January visits three months for a two-month horizon (31 Jan, 28 Feb, 28 Mar) |
| Forecast.StepsWithoutDrift | src/main/java/com/finance/loans/service/ForecastService.java:145-148 | from a day up to 28 the loop visits exactly months steps |
| Forecast.InvalidIncomeDayFails | src/main/java/com/finance/loans/service/ForecastService.java:150-152 | an income day the current month does not have makes the whole timeline fail rather than skipping the income |
| SalaryCycle.CycleWindowFacts | src/main/java/com/finance/loans/service/SalaryCycleService.java:36-44 | the cycle window exists iff the salary day is a day of the date's month; start ≤ date < end; the end is one month after the start; on or after payday the start is this month's payday, otherwise the end is |
| SalaryCycle.CycleEndIsNotStartPlusMonth | src/main/java/com/finance/loans/service/SalaryCycleService.java:42-43 | before a payday on the 31st the window runs 29 February to 31 March, though the start plus one month is 29 March |
| SalaryCycle.LoanPaymentDetails | src/main/java/com/finance/loans/service/SalaryCycleService.java:249-296 | the month loop over loans and the sort compute the loan payment details |
| SalaryCycle.FixedExpenseDetails | src/main/java/com/finance/loans/service/SalaryCycleService.java:301-334 | the month loop over expenses and the sort compute the fixed expense details |
| SalaryCycle.DetailsExact | src/main/java/com/finance/loans/service/SalaryCycleService.java:261-290 | the details are sorted by date and hold exactly the dates in [start, end) on an item's day; a day a month lacks is skipped |
| SalaryCycle.OncePerMonth | src/main/java/com/finance/loans/service/SalaryCycleService.java:261-285 | one item yields at most one detail per calendar month, in increasing months |
| SalaryCycle.LoanPaymentsInRange | src/main/java/com/finance/loans/service/SalaryCycleService.java:346-365 | the stepping loop computes the loan payment total of the range |
| SalaryCycle.FixedExpensesInRange | src/main/java/com/finance/loans/service/SalaryCycleService.java:370-389 | the stepping loop computes the fixed expense total of the range |
| SalaryCycle.StepAmountFacts | src/main/java/com/finance/loans/service/SalaryCycleService.java:350-361 | a step of the total throws iff the item's day is missing or not in the month (or its amount is missing for a counted date); otherwise it counts the amount only for a date in [start, end) |
| SalaryCycle.TotalMissesDetail | src/main/java/com/finance/loans/service/SalaryCycleService.java:346-365 | stepping from 31 January the total for a payday on the 10th is 0, while the details list 10 February |
| SalaryCycle.MissingDayFailsTotal | src/main/java/com/finance/loans/service/SalaryCycleService.java:353 | a loan without a payment day makes the total fail, while the details only leave it out |
| SalaryCycle.EndDayIncluded | src/main/java/com/finance/loans/mapper/TempTransactionMapper.java:20-21 | a temporary transaction on the end date is fetched, while no loan or expense detail can fall on it |
| SalaryCycle.GenerateTimeline | src/main/java/com/finance/loans/service/SalaryCycleService.java:157-220 | the collection loops, the sort and the balance loop compute the timeline specification |
| SalaryCycle.WalkChains | src/main/java/com/finance/loans/service/SalaryCycleService.java:203-216 | the first entry starts from the seed and each entry starts where the previous one ended |
| SalaryCycle.WalkAt | src/main/java/com/finance/loans/service/SalaryCycleService.java:203-216 | entry k starts at the seed plus the signed amounts before it and ends with its amount added if income, subtracted otherwise |
| SalaryCycle.BeforeSalaryIsNet | src/main/java/com/finance/loans/service/SalaryCycleService.java:134-140 | the balance before payday is the seed plus all incomes minus all outflows |
| SalaryCycle.CalculateCycle | src/main/java/com/finance/loans/service/SalaryCycleService.java:71-152 | `calculateCycle` computes the cycle report, including `daysToSalary` for the current cycle |
| SalaryCycle.CycleFigures | src/main/java/com/finance/loans/service/SalaryCycleService.java:134-149 | the timeline has one entry per loan, expense and temporary event, in date order; before-salary is the current balance plus the net of the events; after-salary adds the salary; sufficient iff before-salary is not negative |
| SalaryCycle.ReportWindow | src/main/java/com/finance/loans/service/SalaryCycleService.java:71-80 | a report covers the window and the current flag it was asked for |
| SalaryCycle.DaysToSalaryFacts | src/main/java/com/finance/loans/service/SalaryCycleService.java:80-82 | only the current cycle reports days to pay day; they are the calendar days from today to the cycle end, at least one for the cycle around today |
| SalaryCycle.CurrentCycle | src/main/java/com/finance/loans/service/SalaryCycleService.java:29-47 | `getCurrentCycle` reports the current cycle around today |
| SalaryCycle.CycleByDate | src/main/java/com/finance/loans/service/SalaryCycleService.java:52-66 | `getCycleByDate` reports the cycle around the date, not marked current |
| SalaryCycle.FutureCycles | src/main/java/com/finance/loans/service/SalaryCycleService.java:394-414 | the loop of `getFutureCycles` computes the future cycles |
| SalaryCycle.FutureCyclesFacts | src/main/java/com/finance/loans/service/SalaryCycleService.java:401-411 | count cycles (none for count ≤ 0); cycle i starts i months after the current cycle's start and ends one month later; only the first is current |
| SalaryCycle.FirstFutureCycleDiffers | src/main/java/com/finance/loans/service/SalaryCycleService.java:402-409 | for a payday on the 31st the first future cycle ends 29 March while the current cycle ends 31 March |
| Calendar.ActiveInMonthWindow | src/main/java/com/finance/loans/service/CalendarService.java:76-111 | without period counts a loan shows from last month to next month; otherwise, if periods remain, from its start month (start date's, or paid months before today) to remaining months after today, inclusive |
| Calendar.FinishedNeverShown | src/main/java/com/finance/loans/service/CalendarService.java:89-93 | a loan with no period left is shown in no month |
| Calendar.MonthSummaryFacts | src/main/java/com/finance/loans/service/CalendarService.java:33-68 | the summary's days are real days of the month, each with entries; a day's entries are exactly those of the shown loans paying on it; every listed loan is under its day; with every amount known the count is the number of listed loans; the month total is the sum of the listed loans' known monthly payments, non-negative when those payments are |
| Calendar.ListedFacts | src/main/java/com/finance/loans/service/CalendarService.java:33-44 | the summary lists exactly the loans shown in the month whose payment day exists in it |
| Calendar.DayMatchesMonth | src/main/java/com/finance/loans/service/CalendarService.java:116-139 | for a real day, the day view and the month summary fail together, and the day view lists the summary's entries for that day, in the same order |
| Calendar.GetMonthSummary | src/main/java/com/finance/loans/service/CalendarService.java:23-71 | the loop of `getMonthSummary` computes the month summary |
| Calendar.GetDayPayments | src/main/java/com/finance/loans/service/CalendarService.java:116-139 | the loop of `getDayPayments` computes the day's payments |
| RepaymentSchedules.PayFacts | src/main/java/com/finance/loans/service/RepaymentScheduleService.java:60-74 | paying fails with "还款计划不存在" iff no entry has the id; on success the entry was not paid and now is paid on the date with the amount, nothing else in it changes, and other entries are untouched |
| RepaymentSchedules.PayAcceptsOpen | src/main/java/com/finance/loans/service/RepaymentScheduleService.java:66-74 | pending and overdue entries are both accepted |
| RepaymentSchedules.SecondPaymentRejected | src/main/java/com/finance/loans/service/RepaymentScheduleService.java:66-68 | a second payment of the same entry fails with "该期已还款" |
| RepaymentSchedules.TodayPendingFacts | src/main/java/com/finance/loans/mapper/RepaymentScheduleMapper.java:35-38 | today's query returns exactly the entries due today and pending, ascending by id |
| RepaymentSchedules.ApplyMarksFacts | src/main/java/com/finance/loans/service/RepaymentScheduleService.java:96-104 | marking updates each row whose id is listed to that entry marked paid today with its own amount, and leaves other rows alone |
| RepaymentSchedules.MarkExactly | src/main/java/com/finance/loans/service/RepaymentScheduleService.java:96-116 | with unique ids, marking changes exactly the entries due today and pending, to paid today with their amount |
| RepaymentSchedules.SecondMarkFindsNothing | src/main/java/com/finance/loans/service/RepaymentScheduleService.java:96-116 | after marking, nothing is due today and pending, so a second call marks nothing |
| RepaymentSchedules.ScheduleService.RecordPayment | src/main/java/com/finance/loans/service/RepaymentScheduleService.java:60-84 | a rejected payment changes nothing and reports the message; an accepted one updates the entry as PayFacts says and appends exactly one "normal" record for its loan and schedule |
| RepaymentSchedules.ScheduleService.MarkTodayAsPaid | src/main/java/com/finance/loans/service/RepaymentScheduleService.java:91-117 | the table is updated for today's pending entries, one "auto" record per entry is appended, and their number is returned |
| Balances.ChainedAppend | src/main/java/com/finance/loans/service/BalanceService.java:47-55 | appending an entry that records a change on top of the current balance keeps the ledger chained, and the new current balance is its balance |
| Balances.BalanceIsSumOfChanges | src/main/java/com/finance/loans/mapper/BalanceHistoryMapper.java:19-20 | in a chained ledger the current balance is the sum of all changes |
| Balances.BalanceService.CurrentBalance | src/main/java/com/finance/loans/service/BalanceService.java:23-26 | the current balance is the latest entry's, or 0 for an empty ledger |
| Balances.BalanceService.UpdateBalance | src/main/java/com/finance/loans/service/BalanceService.java:46-56 | appends a manual entry at the new balance whose change is the difference to the old one; earlier entries unchanged; the chain is kept |
| Balances.BalanceService.AddBalance | src/main/java/com/finance/loans/service/BalanceService.java:62-73 | appends an entry at current + amount with change +amount; earlier entries unchanged; the chain is kept |
| Balances.BalanceService.DeductBalance | src/main/java/com/finance/loans/service/BalanceService.java:79-90 | appends an entry at current − amount with change −amount; earlier entries unchanged; the chain is kept |
| Balances.AddThenDeduct | src/main/java/com/finance/loans/service/BalanceService.java:62-90 | adding and then deducting an amount leaves a chained ledger at its starting balance |
| DebtSnapshots.PendingOn | src/main/java/com/finance/loans/service/DebtSnapshotService.java:106-109 | a loan's pending sum fails exactly when one of its pending entries has no amount |
| DebtSnapshots.RemainingKnown | src/main/java/com/finance/loans/service/DebtSnapshotService.java:102-110 | the remaining amount is known exactly when no active loan has a pending entry without an amount |
| DebtSnapshots.CreateFacts | src/main/java/com/finance/loans/service/DebtSnapshotService.java:83-126 | a new snapshot has debt = remaining = pending amounts of the active loans, principal and paid sums over all loans, monthly sum and count over the active ones, the requested date and type, and is stored so that the next lookup finds it |
| DebtSnapshots.CreateIdempotent | src/main/java/com/finance/loans/service/DebtSnapshotService.java:78-81 | creating twice for a date and type returns the first snapshot and stores nothing, whatever the tables hold then |
| DebtSnapshots.SnapshotStore.CreateSnapshot | src/main/java/com/finance/loans/service/DebtSnapshotService.java:76-127 | the accumulator loops and the conditional insert compute the specification: the existing snapshot, or the new one appended |
| DebtSnapshots.SnapshotStore.CreateDailySnapshot | src/main/java/com/finance/loans/service/DebtSnapshotService.java:66-70 | the daily snapshot is `createSnapshot(today, "daily")` |
| Dashboard.IntValue | src/main/java/com/finance/loans/service/DashboardService.java:83 | `intValue()` yields a 32-bit value, equal to the input when it fits |
| Dashboard.SurplusAgrees | src/main/java/com/finance/loans/service/DashboardService.java:48-51 | the overview's surplus is the dashboard's income − expense − payment, the fixed cost is expense + payment, and both fail together |
| Dashboard.MonthsToFreedomBounds | src/main/java/com/finance/loans/service/DashboardService.java:82-87 | no surplus gives −1; with a surplus and a month count that fits an int, the months are the fewest whose surpluses cover the debt; no debt gives 0 |
| Dashboard.MonthsToFreedomWraps | src/main/java/com/finance/loans/service/DashboardService.java:83 | a month count past `Integer.MAX_VALUE` wraps: debt 2^31 against surplus 1 reports −2^31 |

## Left out

- HTTP controllers, the browser front end, logging, and display strings
  (labels, `monthDisplay`, messages) are not modelled. Notes and messages
  that the code stores are kept as constants.
- The clock (`LocalDate.now()`), the `autoUpdateEnabled` configuration flag
  and the salary configuration (day and amount) are parameters. The
  salary amount is an exact integer; the source converts it from `double`.
- Floating point: `getRepaidPercentage` returns the exact 4-place value in
  hundredths of a percent rather than the `double` it converts to.
- `@Transactional` atomicity, scheduling (`ScheduledTasks`) and concurrency
  are not modelled. Each operation runs alone, to completion or to its
  failure.
- Integer width: ids, periods and days are unbounded integers. The only
  32-bit truncation modelled is `intValue()` in months-to-freedom.
- HashMap iteration order in `getPlatformSummary` is unspecified. Before the
  sort, the model takes the groups in order of first appearance.
- `manualUpdatePaidPeriods` only calls `autoUpdatePaidPeriods` and returns
  1. It is not modelled separately.
- Thin reads and deletes (`getAllLoans`, `getLoansByPlatform`, `deleteLoan`,
  `getPaymentHistory`, `getLoanSummary`, the balance-history queries, the
  schedule list queries, `getLatestSnapshot` and the snapshot range
  queries) are not modelled. IncomeService, ExpenseService,
  TempTransactionService, PaymentRecordService and SystemConfigService
  enter only as input sequences and their sums.
- The trend and statistics endpoints and the one-argument `createSnapshot`
  have no implementation in the source, so they are not modelled.
- DebtSnapshotService relies on loan accessors (`getPrincipal`,
  `getMonthlyAmount`) that `Loan.java` does not declare. The model gives it
  its own loan record `SnapshotLoan(id, principal, monthlyAmount, status)`.
  It counts completed loans from that table instead of `countByStatus`.
  `DebtSnapshotMapper.insertOrUpdate` is never called and is not modelled.
- DebtSnapshots.SnapshotStore.CreateSnapshot follows the calls and setters
  that `DebtSnapshotService.java` makes, not the declared API:
  `DebtSnapshotMapper.java` has no `findByDateAndType` and no `insert`,
  `LoanMapper.java` has no `countByStatus`, and `DebtSnapshot.java` declares
  only id, snapshotDate, totalDebt, totalMonthlyPayment, activeLoanCount and
  createdAt. The model's `DebtSnapshot` has the fields the service sets
  (snapshot type, principal, paid and remaining amounts, active and
  completed counts, monthly payment), and its store is looked up by date
  and type. The columns that the entity has and the service never sets
  (totalMonthlyPayment, activeLoanCount, createdAt) are not modelled.
- Repayment-schedule generation is not modelled, because no code in the
  source builds schedule entries.
- Exceptions are not modelled by type:
  - An exception a request does not catch makes the operation return `None`
    or `Err`.
  - The per-loan `try/catch` of `generatePaymentHistory` and
    `autoUpdatePaidPeriods` means the loan is skipped.
  - An exception out of `getMonthSummary`'s per-loan `try` block (a null
    monthly payment in `add`) skips that loan's total and count. Its entry
    is already listed.
- RepaymentSchedules.MarkExactly: assumes schedule ids are unique, as a
  primary key guarantees. ApplyMarksFacts states the general case by id.
- LoanAutoUpdate.AutoUpdatePaidPeriods: the returned count only appears in
  the source's log line. The model returns it.
- Calendar.GetMonthSummary and Calendar.GetDayPayments: both take the
  active loans as a parameter, in place of `loanService.getActiveLoans()`.
- Dashboard.MonthsToFreedomBounds: the exact bounds are stated only for a
  month count that fits an `int`. Beyond that the value wraps, as
  MonthsToFreedomWraps shows.
- The history row id is the row's position plus one, not a database
  sequence.
- `Loan.remainingAmount` is never null in the model. `addLoan` stores the
  supplied value unchanged when total periods, paid periods or the monthly
  payment is missing (LoanService.java:66-75), so the column can be null.
  A null one would then throw in `payLoan`, `getTotalDebt`,
  `getPlatformSummary` and `getRepaymentPlan` (LoanService.java:141,
  171-172, 233, 344) and in `getExpectedPayoffDate` and
  `getRepaidPercentage` (Loan.java:63, 90). These failure paths are not
  modelled.
- `Expense.amount` and `Expense.expenseDay` are never null in the model. In
  the source a null expense day makes the salary-cycle detail loop skip the
  expense while the range-total loop throws, and a null amount throws in
  the totals. The model keeps both paths only for loans, whose payment day
  and monthly payment are optional.
- `Income.amount`, `Income.incomeDay` and `TempTransaction.amount` are never
  null in the model, so the null paths that read them are not modelled:
  the income sum over `Income::getAmount` in ForecastService.java:51-52
  (`Forecast.CashFlowForecast`, `Forecast.ForecastCashFlow`,
  `Forecast.DetectDeficit`), `withDayOfMonth(income.getIncomeDay())` in
  ForecastService.java:152 (`Forecast.EventTimeline`,
  `Forecast.GenerateEventTimeline`), and the temporary amounts added and
  subtracted in the balance walk of SalaryCycleService.java:194 and 208-212
  (`SalaryCycle.Walk`, `SalaryCycle.GenerateTimeline`,
  `SalaryCycle.CalculateCycle`). In the source each of these throws a
  `NullPointerException` on a null field; in the model it cannot arise.
- Balances.CurrentOf: `findLatest` orders by `created_at DESC LIMIT 1`
  (BalanceHistoryMapper.java:19), and `created_at` is the database's `NOW()`
  at insertion (BalanceHistoryMapper.java:25-26). Two rows written within
  the same clock tick tie, and which one the query returns is unspecified
  in the source. The model resolves such a tie by insertion order: the last
  appended row is the current one.

## Findings

| source | as written | input that shows it | evidently intended | confidence | as-written member | corrected member |
|---|---|---|---|---|---|---|
| src/main/java/com/finance/loans/service/LoanService.java:413-414 | without a start date, the first back-filled date clamps the payment day to the length of today's month, not of the target month, so `withDayOfMonth` throws and the loan is silently skipped | payment day 31, 2 paid periods, no start date, today 2024-03-15: February 2024 has no 31st | clamp to the length of the target month, as lines 407-408 do for the start-date case, giving 2024-02-29 | not executed | PaymentHistoryBackfill.AsWrittenSkipsLoan | PaymentHistoryBackfill.FirstPaymentDate |
