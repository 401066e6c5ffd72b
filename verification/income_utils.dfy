/** Prorating of incomes (`IncomeUtils`): rescaling an income to another span
  * in proportion to the months covered, and spreading an income over the
  * calendar months of its span. The calculator service's copy differs only
  * in `ScaleToEndOfYearFromStart` and in keying months by number, which this
  * model does throughout. */
module IncomeUtils {
  import opened Results
  import opened Rounding
  import opened Calendar
  import opened Incomes
  import opened DateUtils
  import opened SortedKeys

  /** `scale(income, start, end)`: the amount times the months of the new span,
    * divided by the months of the income's own span, rounded toward zero. */
  function Scale(income: Income, start: DateTime, end: DateTime): (r: Result<Income, ArithError>)
    ensures r.Err? <==> MonthCount(income) == 0
    ensures r.Err? ==> r.error == DivisionByZero
    ensures r.Ok? ==> r.value.kind == income.kind && r.value.start == start && r.value.end == end
    ensures r.Ok? ==> MonthCount(r.value) == PeriodMonths(start.date, end.date) + 1
    ensures r.Ok? ==> r.value.amount == TruncDiv(income.amount * MonthCount(r.value), MonthCount(income))
    ensures r.Ok? ==>
      var n := MonthCount(income);
      var product := income.amount * (PeriodMonths(start.date, end.date) + 1);
      Abs(product - r.value.amount * n) < Abs(n)
      && (product - r.value.amount * n == 0 || (product - r.value.amount * n < 0 <==> product < 0))
  {
    var n := MonthCount(income);
    if n == 0 then Err(DivisionByZero)
    else
      var product := income.amount * (PeriodMonths(start.date, end.date) + 1);
      assert product == TruncDiv(product, n) * n + TruncRem(product, n);
      Ok(Income(TruncDiv(product, n), income.kind, start, end))
  }

  /** `scaleToFullYear(income, year)`: the income rescaled to the whole of `year` in UTC. */
  function ScaleToFullYear(income: Income, year: int): (r: Result<Income, ArithError>)
    ensures r.Err? <==> MonthCount(income) == 0
    ensures r.Ok? ==> r.value == YearIncome(r.value.amount, year, income.kind)
    ensures r.Ok? ==> r.value.amount == TruncDiv(income.amount * 12, MonthCount(income))
    ensures r.Ok? && MonthCount(income) == 12 ==> r.value.amount == income.amount
  {
    var y := YearIncome(0, year, income.kind);
    Scale(income, y.start, y.end)
  }

  /** `scaleToFullYear(income)`: rescaled to the whole year in which the income starts. */
  function ScaleToOwnFullYear(income: Income): (r: Result<Income, ArithError>)
    ensures r.Err? <==> MonthCount(income) == 0
    ensures r.Ok? ==> r.value == YearIncome(r.value.amount, income.start.date.year, income.kind)
    ensures r.Ok? ==> r.value.amount == TruncDiv(income.amount * 12, MonthCount(income))
    ensures r.Ok? && MonthCount(income) == 12 ==> r.value.amount == income.amount
  {
    ScaleToFullYear(income, income.start.date.year)
  }

  /** `scaleToEndOfYear` of the income service: rescaled to the span from the
    * first instant of the start month to the same time of day on the 31st of
    * December of the end year. */
  function ScaleToEndOfYear(income: Income): (r: Result<Income, ArithError>)
    requires ValidIncome(income)
    ensures r.Err? <==> MonthCount(income) == 0
    ensures r.Ok? ==> ValidIncome(r.value) && r.value.kind == income.kind
    ensures r.Ok? ==> r.value.start == MinFirstDayOfMonth(income.start)
    ensures r.Ok? ==> r.value.end == WithLastDayOfYear(income.end)
    ensures r.Ok? ==> r.value.amount == TruncDiv(income.amount * MonthCount(r.value), MonthCount(income))
    ensures r.Ok? && income.start.date.year <= income.end.date.year ==>
      && MonthCount(r.value) == 13 - income.start.date.month
      && r.value.amount == TruncDiv(income.amount * (13 - income.start.date.month), MonthCount(income))
  {
    var start := MinFirstDayOfMonth(income.start);
    var end := WithLastDayOfYear(income.end);
    if income.start.date.year <= income.end.date.year then
      PeriodMonthsToYearEnd(start.date, end.date.year);
      Scale(income, start, end)
    else
      Scale(income, start, end)
  }

  /** `scaleToEndOfYear` of the calculator service: as `ScaleToEndOfYear`, but
    * the start instant is kept as it is. */
  function ScaleToEndOfYearFromStart(income: Income): (r: Result<Income, ArithError>)
    requires ValidIncome(income)
    ensures r.Err? <==> MonthCount(income) == 0
    ensures r.Ok? ==> ValidIncome(r.value) && r.value.kind == income.kind
    ensures r.Ok? ==> r.value.start == income.start && r.value.end == WithLastDayOfYear(income.end)
    ensures r.Ok? ==> r.value.amount == TruncDiv(income.amount * MonthCount(r.value), MonthCount(income))
    ensures r.Ok? && income.start.date.year <= income.end.date.year ==>
      && MonthCount(r.value) == 13 - income.start.date.month
      && r.value.amount == TruncDiv(income.amount * (13 - income.start.date.month), MonthCount(income))
  {
    var end := WithLastDayOfYear(income.end);
    if income.start.date.year <= income.end.date.year then
      PeriodMonthsToYearEnd(income.start.date, end.date.year);
      Scale(income, income.start, end)
    else
      Scale(income, income.start, end)
  }

  /** `toCompleteMonths`: the whole amount placed on the calendar month in which the income starts. */
  function ToCompleteMonths(income: Income): (r: Income)
    requires ValidIncome(income)
    ensures ValidIncome(r) && MonthCount(r) == 1
    ensures r.amount == income.amount && r.kind == income.kind
    ensures r.start == MinFirstDayOfMonth(income.start) && r.end == MaxLastDayOfMonth(income.start)
  {
    var start := MinFirstDayOfMonth(income.start);
    var end := MaxLastDayOfMonth(income.start);
    PeriodMonthsWithinYear(start.date, end.date);
    Income(income.amount, income.kind, start, end)
  }

  // ---- spreading over months -------------------------------------------------

  /** One month's share: `amount` over the whole calendar month `month` of `year`. */
  function MonthShare(amount: int, kind: IncomeType, year: int, month: int, offset: int): (r: Income)
    requires 1 <= month <= 12 && -MaxOffsetSeconds <= offset <= MaxOffsetSeconds
    ensures ValidIncome(r) && MonthCount(r) == 1
  {
    PeriodMonthsWithinYear(Date(year, month, 1), Date(year, month, DaysInMonth(year, month)));
    Income(amount, kind,
           DateTime(Date(year, month, 1), StartOfDay, offset),
           DateTime(Date(year, month, DaysInMonth(year, month)), EndOfDay, offset))
  }

  /** `spreadOutOverMonths`: with `n` the month count of the income, a one-month
    * income is returned as is under its start month. A negative `n` fails as
    * the map sized with it does, a zero `n` as the division by it. Otherwise every month from
    * the start month up to (not including) the end month receives the amount
    * divided by `n`, rounded toward zero, and the end month receives that share
    * plus what the `n` shares leave of the amount. The last entry is dated on
    * the month the walk stopped at, which is the start month when the end month
    * does not come after it. */
  function SpreadOutOverMonths(income: Income): (r: Result<map<int, Income>, ArithError>)
    requires ValidIncome(income)
    ensures r.Err? <==> MonthCount(income) <= 0
    ensures MonthCount(income) == 0 ==> r == Err(DivisionByZero)
    ensures MonthCount(income) < 0 ==> r == Err(NegativeCapacity)
    ensures r.Ok? && MonthCount(income) == 1 ==> r.value == map[income.start.date.month := income]
    ensures r.Ok? && MonthCount(income) != 1 ==>
      var sm, em := income.start.date.month, income.end.date.month;
      var share := TruncDiv(income.amount, MonthCount(income));
      (forall m :: m in r.value <==> sm <= m < em || m == em)
      && (forall m :: m in r.value && m != em ==> r.value[m].amount == share && r.value[m].start.date.month == m)
      && r.value[em].amount == income.amount - share * (MonthCount(income) - 1)
    ensures r.Ok? ==> forall m :: m in r.value ==> ValidIncome(r.value[m]) && r.value[m].kind == income.kind
  {
    var n := MonthCount(income);
    if n == 1 then Ok(map[income.start.date.month := income])
    else if n < 0 then Err(NegativeCapacity)
    else if n == 0 then Err(DivisionByZero)
    else
      var share := TruncDiv(income.amount, n);
      var year, offset := income.start.date.year, income.start.offsetSeconds;
      var sm, em := income.start.date.month, income.end.date.month;
      var lastMonth := if sm < em then em else sm;
      var shares := map m | sm <= m < em :: MonthShare(share, income.kind, year, m, offset);
      var remainder := income.amount - share * n;
      Ok(shares[em := MonthShare(share + remainder, income.kind, year, lastMonth, offset)])
  }

  // ---- properties ------------------------------------------------------------

  /** Rescaling an income to its own span gives it back unchanged. */
  lemma ScaleToOwnSpanIsIdentity(income: Income)
    requires MonthCount(income) != 0
    ensures Scale(income, income.start, income.end) == Ok(income)
  {
    var n := MonthCount(income);
    var q := Scale(income, income.start, income.end).value.amount;
    ExactQuotient(income.amount, n, q);
  }

  /** Only `a` itself is within less than one `n` of `a * n` when multiplied by `n`. */
  lemma ExactQuotient(a: int, n: int, q: int)
    requires n != 0 && Abs(a * n - q * n) < Abs(n)
    ensures q == a
  {
    assert a * n - q * n == (a - q) * n;
    if a != q {
      AbsProductAtLeast(a - q, n);
    }
  }

  lemma AbsProductAtLeast(a: int, b: int)
    requires a != 0 && b != 0
    ensures Abs(a * b) >= Abs(b)
  {
    if a > 0 && b > 0 {
      assert a * b >= b;
    } else if a > 0 {
      assert a * b <= b;
    } else if b > 0 {
      assert a * b <= -b;
    } else {
      assert a * b >= -b;
    }
  }

  /** For a span within one year whose end day does not precede its start day,
    * the period-based month count is the number of calendar months touched. */
  lemma MonthCountOfAlignedSpan(income: Income)
    requires ValidIncome(income)
    requires income.start.date.year == income.end.date.year
    requires income.start.date.month <= income.end.date.month
    requires income.start.date.day <= income.end.date.day
    ensures MonthCount(income) == income.end.date.month - income.start.date.month + 1
  {
    PeriodMonthsWithinYear(income.start.date, income.end.date);
  }

  /** The sum over `months` of entries equal to `share` below `em`, and `last` at `em`. */
  lemma {:induction false} SumOfShares(incomes: map<int, Income>, lo: int, sm: int, em: int, share: int, last: int)
    requires 1 <= sm <= em <= 12 && 1 <= lo <= 13
    requires forall m :: m in incomes <==> sm <= m <= em
    requires forall m :: sm <= m < em ==> incomes[m].amount == share
    requires incomes[em].amount == last
    ensures SumAmounts(incomes, Range(lo, 12))
            == share * (if lo <= sm then em - sm else if lo <= em then em - lo else 0)
               + (if lo <= em then last else 0)
    decreases 13 - lo
  {
    if lo <= 12 {
      SumOfShares(incomes, lo + 1, sm, em, share, last);
      var months := Range(lo, 12);
      assert months[0] == lo && months[1..] == Range(lo + 1, 12);
      assert SumAmounts(incomes, months)
             == (if lo in incomes then incomes[lo].amount else 0) + SumAmounts(incomes, Range(lo + 1, 12));
      if sm <= lo < em {
        var c := if lo + 1 <= sm then em - sm else em - (lo + 1);
        MultiplyByNext(share, c);
      }
    }
  }

  /** One more share is one more `a`. */
  lemma MultiplyByNext(a: int, c: int)
    ensures a * (c + 1) == a * c + a
  {
  }

  /** Spreading conserves the amount whenever the calendar months the walk
    * writes are exactly as many as the period-based month count. */
  lemma SpreadConservesAmount(income: Income)
    requires ValidIncome(income)
    requires income.start.date.month <= income.end.date.month
    requires MonthCount(income) == income.end.date.month - income.start.date.month + 1
    ensures SpreadOutOverMonths(income).Ok?
    ensures SumAmounts(SpreadOutOverMonths(income).value, Range(1, 12)) == income.amount
  {
    var r := SpreadOutOverMonths(income).value;
    var n := MonthCount(income);
    var sm, em := income.start.date.month, income.end.date.month;
    if n == 1 {
      SumOfShares(r, 1, sm, em, 0, income.amount);
    } else {
      var share := TruncDiv(income.amount, n);
      SumOfShares(r, 1, sm, em, share, income.amount - share * (n - 1));
    }
  }

  /** An income whose span ends on a day of the month no earlier than the day it
    * starts, within one year, is spread without loss or gain. */
  lemma SpreadOfAlignedSpanConserves(income: Income)
    requires ValidIncome(income)
    requires income.start.date.year == income.end.date.year
    requires income.start.date.month <= income.end.date.month
    requires income.start.date.day <= income.end.date.day
    ensures SpreadOutOverMonths(income).Ok?
    ensures SumAmounts(SpreadOutOverMonths(income).value, Range(1, 12)) == income.amount
  {
    MonthCountOfAlignedSpan(income);
    SpreadConservesAmount(income);
  }

  /** The incomes the services actually spread (rescaled to the end of a year
    * or folded into one complete month) are spread without loss or gain. */
  lemma NormalisedIncomesSpreadExactly(income: Income)
    requires ValidIncome(income) && income.start.date.year == income.end.date.year
    ensures ScaleToEndOfYear(income).Ok? ==>
      SumAmounts(SpreadOutOverMonths(ScaleToEndOfYear(income).value).value, Range(1, 12))
        == ScaleToEndOfYear(income).value.amount
    ensures ScaleToEndOfYearFromStart(income).Ok? ==>
      SumAmounts(SpreadOutOverMonths(ScaleToEndOfYearFromStart(income).value).value, Range(1, 12))
        == ScaleToEndOfYearFromStart(income).value.amount
    ensures SumAmounts(SpreadOutOverMonths(ToCompleteMonths(income)).value, Range(1, 12)) == income.amount
  {
    if ScaleToEndOfYear(income).Ok? {
      SpreadOfAlignedSpanConserves(ScaleToEndOfYear(income).value);
    }
    if ScaleToEndOfYearFromStart(income).Ok? {
      SpreadOfAlignedSpanConserves(ScaleToEndOfYearFromStart(income).value);
    }
    SpreadOfAlignedSpanConserves(ToCompleteMonths(income));
  }

  /** A span from the 15th of January to the 10th of March counts two months,
    * yet the walk writes January, February and March: 100 is spread as
    * 50 + 50 + 50. */
  lemma MisalignedSpanIsOverSpread()
    ensures var income := Income(100, Real, DateTime(Date(2019, 1, 15), StartOfDay, Utc),
                                 DateTime(Date(2019, 3, 10), StartOfDay, Utc));
      MonthCount(income) == 2
      && SpreadOutOverMonths(income).Ok?
      && SumAmounts(SpreadOutOverMonths(income).value, Range(1, 12)) == 150
  {
    var income := Income(100, Real, DateTime(Date(2019, 1, 15), StartOfDay, Utc),
                         DateTime(Date(2019, 3, 10), StartOfDay, Utc));
    assert PeriodMonths(income.start.date, income.end.date) == 1;
    assert TruncDiv(100, 2) == 50;
    var r := SpreadOutOverMonths(income).value;
    assert forall m :: m in r <==> 1 <= m <= 3;
    SumOfShares(r, 1, 1, 3, 50, 50);
  }

  /** The quarter example of the income service's tests: a quarter's income is
    * spread as a third on each of the first two months and the rest on the third. */
  lemma QuarterSpread()
    ensures var income := Income(10000, Real, DateTime(Date(2019, 4, 1), StartOfDay, Utc),
                                 DateTime(Date(2019, 6, 30), EndOfDay, Utc));
      var r := SpreadOutOverMonths(income);
      r.Ok? && r.value.Keys == {4, 5, 6}
      && r.value[4].amount == 3333 && r.value[5].amount == 3333 && r.value[6].amount == 3334
  {
    var income := Income(10000, Real, DateTime(Date(2019, 4, 1), StartOfDay, Utc),
                         DateTime(Date(2019, 6, 30), EndOfDay, Utc));
    assert PeriodMonths(income.start.date, income.end.date) == 2;
    assert TruncDiv(10000, 3) == 3333;
    var r := SpreadOutOverMonths(income);
    assert forall m :: m in r.value <==> 4 <= m <= 6;
  }


  /** A whole-year income is spread over the twelve months of that year: a
    * twelfth on each of January to November, the rest on December, and the
    * shares add up to the amount. */
  lemma YearIncomeSpread(amount: int, year: int, kind: IncomeType)
    ensures var r := SpreadOutOverMonths(YearIncome(amount, year, kind));
      r.Ok?
      && (forall m :: m in r.value <==> 1 <= m <= 12)
      && (forall m :: m in r.value ==> r.value[m].start.date.year == year && r.value[m].kind == kind)
      && (forall m :: 1 <= m < 12 ==> r.value[m].amount == TruncDiv(amount, 12))
      && r.value[12].amount == amount - TruncDiv(amount, 12) * 11
      && SumAmounts(r.value, Range(1, 12)) == amount
  {
    var income := YearIncome(amount, year, kind);
    SpreadOfAlignedSpanConserves(income);
    assert income.start.date.year == year;
  }

  /** The twelve shares of a whole-year income of `amount` in `year`: a twelfth,
    * rounded toward zero, on January to November and the rest on December. */
  function YearShares(amount: int, year: int, kind: IncomeType): (r: map<int, Income>)
    ensures forall m :: m in r <==> 1 <= m <= 12
  {
    var share := TruncDiv(amount, 12);
    (map m | 1 <= m < 12 :: MonthShare(share, kind, year, m, Utc))[12 := MonthShare(amount - share * 11, kind, year, 12, Utc)]
  }

  /** `YearShares` is what spreading a whole-year income gives. */
  lemma YearSharesAreTheSpread(amount: int, year: int, kind: IncomeType)
    ensures SpreadOutOverMonths(YearIncome(amount, year, kind)) == Ok(YearShares(amount, year, kind))
  {
    var income := YearIncome(amount, year, kind);
    var r := SpreadOutOverMonths(income).value;
    var y := YearShares(amount, year, kind);
    var share := TruncDiv(amount, 12);
    assert MonthCount(income) == 12 && income.start.date.month == 1 && income.end.date.month == 12;
    assert share + (amount - share * 12) == amount - share * 11;
  }

}
