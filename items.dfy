/** Recurring income, fixed expenses and one-off ("temporary") transactions,
    as the income, expense and temp-transaction services hand them over. */
module Items {
  import opened Dates

  datatype Income = Income(incomeType: string, amount: int, incomeDay: int)

  datatype Expense = Expense(expenseName: string, amount: int, expenseDay: int)

  datatype TempTransaction = TempTransaction(transactionDate: Date, kind: string, amount: int, description: string)

  /** `getMonthlyIncomeTotal()`: the amounts of the active income items added up. */
  function IncomeTotal(incomes: seq<Income>): int
  {
    if incomes == [] then 0 else IncomeTotal(incomes[..|incomes| - 1]) + incomes[|incomes| - 1].amount
  }

  /** `getMonthlyExpenseTotal()`: the amounts of the active expenses added up. */
  function ExpenseTotal(expenses: seq<Expense>): int
  {
    if expenses == [] then 0 else ExpenseTotal(expenses[..|expenses| - 1]) + expenses[|expenses| - 1].amount
  }
}
