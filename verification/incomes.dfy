/** The records the services exchange: an income over a period and one
  * computed contribution line. */
module Incomes {
  import opened Calendar

  /** The four kinds of income a contributor may declare or the system may derive. */
  datatype IncomeType = Real | Estimated | Automatic | System

  /** An amount (a Java `long`) earned between `start` and `end`. */
  datatype Income = Income(amount: int, kind: IncomeType, start: DateTime, end: DateTime)

  predicate ValidIncome(i: Income)
  {
    ValidDateTime(i.start) && ValidDateTime(i.end)
  }

  /** One contribution line: rule code, the income it was computed from, the
    * base the rule retained, the informative rate in percent, the amount. */
  datatype Contribution = Contribution(code: string, income: real, baseIncome: real, rate: real, amount: real)

  /** The number of months an income is taken to cover: the months component of
    * the period between its start and end dates, plus one. Zero or negative
    * for some ill-ordered spans. */
  function MonthCount(i: Income): (n: int)
    ensures -10 <= n <= 12
  {
    PeriodMonths(i.start.date, i.end.date) + 1
  }

  /** An income over a whole calendar year in UTC (`IncomeUtils.yearIncome`,
    * and `Income.ofYear`, which the model takes to mean the same). */
  function YearIncome(amount: int, year: int, kind: IncomeType): (r: Income)
    ensures ValidIncome(r) && MonthCount(r) == 12
    ensures r.amount == amount && r.kind == kind
    ensures r.start.date == Date(year, 1, 1) && r.end.date == Date(year, 12, 31)
    ensures r.start.nanoOfDay == StartOfDay && r.end.nanoOfDay == EndOfDay
    ensures r.start.offsetSeconds == Utc == r.end.offsetSeconds
  {
    PeriodMonthsWithinYear(Date(year, 1, 1), Date(year, 12, 31));
    Income(amount, kind, DateTime(Date(year, 1, 1), StartOfDay, Utc), DateTime(Date(year, 12, 31), EndOfDay, Utc))
  }

  /** `Income.ZERO`: the class defining it is not part of this model; it is
    * taken as a zero real income on the first of January 1970 in UTC. */
  const Zero: Income := Income(0, Real, DateTime(Date(1970, 1, 1), StartOfDay, Utc), DateTime(Date(1970, 1, 1), StartOfDay, Utc))

  /** The sum of the amounts of a month-keyed map of incomes. */
  function SumAmounts(incomes: map<int, Income>, months: seq<int>): int
  {
    if months == [] then 0
    else (if months[0] in incomes then incomes[months[0]].amount else 0) + SumAmounts(incomes, months[1..])
  }

}
