/** The state adjusters of the first generation of the calculator service
  * (`calculation.IncomeAdjusters`). Amounts are read as hundredths
  * (`BigDecimal.valueOf(amount, 2)`), divided exactly, so that a quotient
  * without a finite decimal expansion throws, and truncated back to a whole
  * number; the result is stored as an amount again, so every rescaling also
  * divides by a hundred. */
module LegacyAdjusters {
  import opened Results
  import opened Rounding
  import opened Calendar
  import opened Incomes
  import opened DateUtils
  import opened Decimals
  import opened SortedKeys
  import opened LegacyState

  // ---- rescaling ------------------------------------------------------------------

  /** The amount read in hundredths, divided exactly by the `from` months it
    * covers, multiplied by `to` months, and truncated toward zero to a whole
    * amount again. */
  function ProRata(amount: int, from: int, to: int): (r: int)
    requires from != 0
    ensures var exact := (amount * to) as real / (100 * from) as real;
      AbsReal(r as real) <= AbsReal(exact) < AbsReal(r as real) + 1.0
      && (r != 0 ==> (r < 0 <==> exact < 0.0))
  {
    var exact := amount as real / (100 * from) as real * to as real;
    assert exact == (amount * to) as real / (100 * from) as real;
    DownOf(exact)
  }

  /** `scale(income, start, end)`: an income over twelve months is returned
    * as it is; any other is prorated from its own month count to that of the
    * new span, the exact division by its month count failing when it has no
    * finite expansion or the count is zero. */
  function Scale(income: Income, start: DateTime, end: DateTime): (r: Result<Income, ArithError>)
    ensures MonthCount(income) == 12 ==> r == Ok(income)
    ensures MonthCount(income) != 12 ==> (r.Ok? <==> Terminates(income.amount, 100 * MonthCount(income)))
    ensures MonthCount(income) == 0 ==> r == Err(DivisionByZero)
    ensures MonthCount(income) != 12 && r.Ok? ==> MonthCount(income) != 0
    ensures MonthCount(income) != 12 && r.Ok? ==>
      && r.value.kind == income.kind && r.value.start == start && r.value.end == end
      && r.value.amount == ProRata(income.amount, MonthCount(income), PeriodMonths(start.date, end.date) + 1)
  {
    var months := MonthCount(income);
    if months == 12 then Ok(income)
    else
      match ExactDivide(income.amount, 100 * months)
      case Err(e) => Err(e)
      case Ok(_) => Ok(Income(ProRata(income.amount, months, PeriodMonths(start.date, end.date) + 1), income.kind, start, end))
  }

  /** `scaleToFullYear`: the span widened to the first and the last day of
    * the year, time of day and offset kept. */
  function ScaleToFullYear(income: Income): (r: Result<Income, ArithError>)
    requires ValidIncome(income)
    ensures MonthCount(income) == 12 ==> r == Ok(income)
    ensures MonthCount(income) != 12 ==> (r.Ok? <==> Terminates(income.amount, 100 * MonthCount(income)))
    ensures r.Ok? ==> ValidIncome(r.value) && r.value.kind == income.kind
    ensures MonthCount(income) != 12 && r.Ok? ==>
      && MonthCount(income) != 0
      && r.value.start == WithFirstDayOfYear(income.start) && r.value.end == WithLastDayOfYear(income.end)
      && r.value.amount == ProRata(income.amount, MonthCount(income), MonthCount(r.value))
      && (income.start.date.year <= income.end.date.year ==>
            MonthCount(r.value) == 12 && r.value.amount == ProRata(income.amount, MonthCount(income), 12))
  {
    var start := WithFirstDayOfYear(income.start);
    var end := WithLastDayOfYear(income.end);
    if income.start.date.year <= income.end.date.year then
      PeriodMonthsToYearEnd(start.date, end.date.year);
      Scale(income, start, end)
    else Scale(income, start, end)
  }

  /** `scaleToEndOfYear`: the end moved to the last day of its year. */
  function ScaleToEndOfYear(income: Income): (r: Result<Income, ArithError>)
    requires ValidIncome(income)
    ensures MonthCount(income) == 12 ==> r == Ok(income)
    ensures MonthCount(income) != 12 ==> (r.Ok? <==> Terminates(income.amount, 100 * MonthCount(income)))
    ensures r.Ok? ==> ValidIncome(r.value) && r.value.kind == income.kind && r.value.start == income.start
    ensures MonthCount(income) != 12 && r.Ok? ==>
      && r.value.end == WithLastDayOfYear(income.end)
      && r.value.amount == ProRata(income.amount, MonthCount(income), MonthCount(r.value))
      && (income.start.date.year <= income.end.date.year ==>
            MonthCount(r.value) == 13 - income.start.date.month
            && r.value.amount == ProRata(income.amount, MonthCount(income), 13 - income.start.date.month))
  {
    var end := WithLastDayOfYear(income.end);
    if income.start.date.year <= income.end.date.year then
      PeriodMonthsToYearEnd(income.start.date, end.date.year);
      Scale(income, income.start, end)
    else Scale(income, income.start, end)
  }

  /** `scaleToMonth(income, year, month)`: one month's share of the income,
    * over that month of `year`, from its first instant to its last in the
    * offset of the income's start. The share is the exact quotient by the
    * month count, truncated toward zero; it does not depend on the month. */
  function ScaleToMonth(income: Income, year: int, month: int): (r: Result<Income, ArithError>)
    requires ValidIncome(income) && 1 <= month <= 12
    ensures r.Ok? <==> Terminates(income.amount, 100 * MonthCount(income))
    ensures MonthCount(income) == 0 ==> r == Err(DivisionByZero)
    ensures r.Ok? ==>
      && ValidIncome(r.value) && MonthCount(r.value) == 1 && r.value.kind == income.kind
      && r.value.amount == ProRata(income.amount, MonthCount(income), 1)
      && r.value.start == DateTime(Date(year, month, 1), StartOfDay, income.start.offsetSeconds)
      && r.value.end == DateTime(Date(year, month, DaysInMonth(year, month)), EndOfDay, income.start.offsetSeconds)
  {
    var first := DateTime(Date(year, month, 1), StartOfDay, income.start.offsetSeconds);
    PeriodMonthsWithinYear(first.date, MaxLastDayOfMonth(first).date);
    match ExactDivide(income.amount, 100 * MonthCount(income))
    case Err(e) => Err(e)
    case Ok(_) => Ok(Income(ProRata(income.amount, MonthCount(income), 1), income.kind, first, MaxLastDayOfMonth(first)))
  }

  // ---- the income before registration ---------------------------------------------

  /** What `updateIncomes` reads of the state: the registration date and the
    * previous incomes by year. */
  datatype History = History(registeredDate: DateTime, previousIncomes: map<int, Income>)

  predicate ValidHistory(h: History)
  {
    ValidDateTime(h.registeredDate) && forall y :: y in h.previousIncomes ==> ValidIncome(h.previousIncomes[y])
  }

  function HistoryOf(s: LegacyState): (h: History)
    ensures ValidLegacyState(s) ==> ValidHistory(h)
    ensures h.registeredDate == s.registeredDate && h.previousIncomes == s.yearlyPreviousIncomes
  {
    History(s.registeredDate, s.yearlyPreviousIncomes)
  }

  /** A zero automatic income over the whole year before the one of `income`. */
  function ZeroYearBefore(income: Income): (r: Income)
    requires ValidIncome(income)
    ensures ValidIncome(r) && r.amount == 0 && r.kind == Automatic
    ensures r.start.date.year == income.start.date.year - 1
  {
    var firstDay := WithFirstDayOfYear(income.start);
    Income(0, Automatic, DateTime(MinusYears(firstDay.date, 1), firstDay.nanoOfDay, firstDay.offsetSeconds),
           JustBefore(firstDay))
  }

  /** Whether the contributor was registered by the first day of the income's
    * year, with last year's income known. */
  predicate KnownBeforeTheYear(h: History, income: Income)
    requires ValidHistory(h) && ValidIncome(income)
  {
    !IsBefore(h.registeredDate, WithFirstDayOfYear(income.start))
    && h.registeredDate.date.year - 1 in h.previousIncomes
  }

  /** `beforeRegistration`: the share of last year's income (in hundredths,
    * a twelfth per month) earned from the first day of the income's year to
    * just before the earlier of the income's start and the registration; a
    * zero income over the year before when the contributor registered before
    * that first day or last year's income is unknown. */
  function BeforeRegistration(h: History, income: Income): (r: Result<Income, ArithError>)
    requires ValidHistory(h) && ValidIncome(income)
    ensures !KnownBeforeTheYear(h, income) ==> r == Ok(ZeroYearBefore(income))
    ensures r.Ok? ==> ValidIncome(r.value)
    ensures r.Ok? ==> (r.value.start.date.year == income.start.date.year <==> KnownBeforeTheYear(h, income))
    ensures KnownBeforeTheYear(h, income) ==>
      var lastYear := h.previousIncomes[h.registeredDate.date.year - 1];
      var end := JustBefore(if IsBefore(income.start, h.registeredDate) then income.start else h.registeredDate);
      && (r.Ok? <==> Terminates(lastYear.amount, 1200))
      && (r.Ok? ==>
            && r.value.kind == lastYear.kind && r.value.start == WithFirstDayOfYear(income.start) && r.value.end == end
            && r.value.amount == ProRata(lastYear.amount, 12, PeriodMonths(r.value.start.date, end.date) + 1))
  {
    var firstDay := WithFirstDayOfYear(income.start);
    if IsBefore(h.registeredDate, firstDay) then Ok(ZeroYearBefore(income))
    else if h.registeredDate.date.year - 1 !in h.previousIncomes then Ok(ZeroYearBefore(income))
    else
      var lastYear := h.previousIncomes[h.registeredDate.date.year - 1];
      var end := JustBefore(if IsBefore(income.start, h.registeredDate) then income.start else h.registeredDate);
      match ExactDivide(lastYear.amount, 1200)
      case Err(e) => Err(e)
      case Ok(_) => Ok(Income(ProRata(lastYear.amount, 12, PeriodMonths(firstDay.date, end.date) + 1), lastYear.kind, firstDay, end))
  }

  // ---- updateIncomes --------------------------------------------------------------

  /** Months `first..last` each set to their share of `source` in `year`. */
  function FillMonths(source: Income, year: int, first: int, last: int, acc: map<int, Income>)
    : (r: Result<map<int, Income>, ArithError>)
    requires ValidIncome(source) && 1 <= first && last <= 12
    requires forall m :: m in acc ==> ValidIncome(acc[m])
    ensures r.Err? <==> first <= last && !Terminates(source.amount, 100 * MonthCount(source))
    ensures r.Ok? ==> forall m :: m in r.value <==> m in acc || first <= m <= last
    ensures r.Ok? ==> forall m :: m in acc && !(first <= m <= last) ==> r.value[m] == acc[m]
    ensures r.Ok? ==> forall m :: m in r.value ==> ValidIncome(r.value[m])
    decreases last - first
  {
    if first > last then Ok(acc)
    else
      match ScaleToMonth(source, year, first)
      case Err(e) => Err(e)
      case Ok(share) => FillMonths(source, year, first + 1, last, acc[first := share])
  }

  /** The months up to the end of the income before registration, each with
    * its share, when that income is of the same year as `income`; none
    * otherwise. */
  function FromBeforeRegistration(h: History, income: Income): (r: Result<map<int, Income>, ArithError>)
    requires ValidHistory(h) && ValidIncome(income)
    ensures !KnownBeforeTheYear(h, income) ==> r == Ok(map[])
    ensures r.Ok? ==> (1 in r.value <==> KnownBeforeTheYear(h, income))
    ensures r.Ok? ==> forall m :: m in r.value ==> 1 <= m <= 12 && ValidIncome(r.value[m])
  {
    match BeforeRegistration(h, income)
    case Err(e) => Err(e)
    case Ok(before) =>
      if before.start.date.year == income.start.date.year
      then FillMonths(before, before.start.date.year, 1, before.end.date.month, map[])
      else Ok(map[])
  }

  /** The months of the new income, each with its share of the income
    * rescaled to the end of its year, over what is already known. */
  function FromNewIncome(income: Income, known: map<int, Income>): (r: Result<map<int, Income>, ArithError>)
    requires ValidIncome(income)
    requires forall m :: m in known ==> 1 <= m <= 12 && ValidIncome(known[m])
    ensures r.Ok? ==> ScaleToEndOfYear(income).Ok?
    ensures r.Ok? ==> forall m :: m in r.value <==> m in known || income.start.date.month <= m <= income.end.date.month
    ensures r.Ok? ==> forall m :: m in r.value ==> 1 <= m <= 12 && ValidIncome(r.value[m])
  {
    match ScaleToEndOfYear(income)
    case Err(e) => Err(e)
    case Ok(toEnd) => FillMonths(toEnd, toEnd.start.date.year, income.start.date.month, income.end.date.month, known)
  }

  /** January from last year's income, when no step before set it. */
  function January(h: History, income: Income, acc: map<int, Income>): (r: Result<map<int, Income>, ArithError>)
    requires ValidHistory(h) && ValidIncome(income)
    ensures 1 in acc || income.start.date.year - 1 !in h.previousIncomes ==> r == Ok(acc)
    ensures 1 !in acc && income.start.date.year - 1 in h.previousIncomes ==>
      var share := ScaleToMonth(h.previousIncomes[income.start.date.year - 1], income.start.date.year, 1);
      (r.Ok? <==> share.Ok?) && (r.Ok? ==> share.Ok? && r.value == acc[1 := share.value])
    ensures r.Ok? ==> forall m :: m in r.value <==> m in acc || (m == 1 && income.start.date.year - 1 in h.previousIncomes)
    ensures r.Ok? ==> forall m :: m in r.value && m in acc ==> r.value[m] == acc[m] || m == 1
    ensures (forall m :: m in acc ==> ValidIncome(acc[m])) && r.Ok? ==> forall m :: m in r.value ==> ValidIncome(r.value[m])
  {
    var lastYear := income.start.date.year - 1;
    if 1 in acc || lastYear !in h.previousIncomes then Ok(acc)
    else
      match ScaleToMonth(h.previousIncomes[lastYear], income.start.date.year, 1)
      case Err(e) => Err(e)
      case Ok(share) => Ok(acc[1 := share])
  }

  /** Months `m..12` that are still missing, each set to the share of the
    * month before it, rescaled to its own month; a missing month before a
    * missing month is a null dereference. */
  function FillGaps(m: int, acc: map<int, Income>): (r: Result<map<int, Income>, Failure>)
    requires 2 <= m <= 13
    requires forall k :: k in acc ==> ValidIncome(acc[k])
    ensures r.Ok? ==> forall k :: k in acc ==> k in r.value && r.value[k] == acc[k]
    ensures r.Ok? ==> forall k :: m <= k <= 12 ==> k in r.value
    ensures r.Ok? ==> forall k :: k in r.value ==> (k in acc || m <= k <= 12) && ValidIncome(r.value[k])
    ensures m <= 12 && m !in acc && m - 1 !in acc ==> r == Err(NullIncome(m))
    decreases 13 - m
  {
    if m > 12 then Ok(acc)
    else if m in acc then FillGaps(m + 1, acc)
    else if m - 1 !in acc then Err(NullIncome(m))
    else
      var previous := acc[m - 1];
      match ScaleToMonth(previous, previous.start.date.year, m)
      case Err(e) => Err(Arithmetic(e))
      case Ok(share) => FillGaps(m + 1, acc[m := share])
  }

  /** The last two steps of the gathering: January from last year's income,
    * then the gaps. */
  function Complete(h: History, income: Income, acc: map<int, Income>): (r: Result<map<int, Income>, Failure>)
    requires ValidHistory(h) && ValidIncome(income)
    requires forall m :: m in acc ==> 1 <= m <= 12 && ValidIncome(acc[m])
    ensures r.Ok? ==> forall m :: m in r.value ==> 1 <= m <= 12
    ensures r.Ok? ==> forall m :: 2 <= m <= 12 ==> m in r.value
  {
    match January(h, income, acc)
    case Err(e) => Err(Arithmetic(e))
    case Ok(withJanuary) => FillGaps(2, withJanuary)
  }

  /** The gathering from the months known before registration on: the new
    * income's months, then `Complete`. */
  function Gather(h: History, income: Income, known: map<int, Income>): (r: Result<map<int, Income>, Failure>)
    requires ValidHistory(h) && ValidIncome(income)
    requires forall m :: m in known ==> 1 <= m <= 12 && ValidIncome(known[m])
    ensures r.Ok? ==> forall m :: m in r.value ==> 1 <= m <= 12
    ensures r.Ok? ==> forall m :: 2 <= m <= 12 ==> m in r.value
  {
    match FromNewIncome(income, known)
    case Err(e) => Err(Arithmetic(e))
    case Ok(withIncome) => Complete(h, income, withIncome)
  }

  /** The monthly incomes `updateIncomes` gathers, by month, before it lists
    * them. The known incomes are meant to be copied first, but the test it
    * uses asks whether the list holds the month number as an element, which
    * never holds; so nothing is copied. Then, in order: the months up to
    * the end of the income before registration, when that income is of the
    * same year; the months of the new income, from its rescaling to the end
    * of the year; January from last year's income when still missing; and
    * every later missing month from the month before it. */
  function MonthlyIncomes(h: History, income: Income): (r: Result<map<int, Income>, Failure>)
    requires ValidHistory(h) && ValidIncome(income)
    ensures r.Ok? ==> forall m :: m in r.value ==> 1 <= m <= 12
    ensures r.Ok? ==> forall m :: 2 <= m <= 12 ==> m in r.value
  {
    match FromBeforeRegistration(h, income)
    case Err(e) => Err(Arithmetic(e))
    case Ok(known) => Gather(h, income, known)
  }

  /** The incomes of the listed months, in that order. */
  function InOrder(incomes: map<int, Income>, months: seq<int>): (r: seq<Income>)
    requires forall i :: 0 <= i < |months| ==> months[i] in incomes
    ensures |r| == |months|
    ensures forall i :: 0 <= i < |r| ==> r[i] == incomes[months[i]]
  {
    if months == [] then [] else [incomes[months[0]]] + InOrder(incomes, months[1..])
  }

  /** `updateIncomes`: the monthly incomes listed in month order (the order
    * in which a hash map keyed by the numbers 1 to 12 yields them). Of the
    * state it reads only the registration date and the previous incomes. */
  function UpdateIncomes(s: LegacyState, income: Income): (r: Result<seq<Income>, Failure>)
    requires ValidLegacyState(s) && ValidIncome(income)
    ensures var byMonth := MonthlyIncomes(HistoryOf(s), income);
      && (r.Err? <==> byMonth.Err?)
      && (r.Err? ==> r.error == byMonth.error)
      && (r.Ok? ==>
            var months := MonthsAscending(byMonth.value.Keys);
            |r.value| == |months| && forall i :: 0 <= i < |r.value| ==> r.value[i] == byMonth.value[months[i]])
  {
    match MonthlyIncomes(HistoryOf(s), income)
    case Err(e) => Err(e)
    case Ok(byMonth) =>
      var months := MonthsAscending(byMonth.Keys);
      Ok(InOrder(byMonth, months))
  }

  // ---- the adjusters ----------------------------------------------------------------

  /** `month(income)`: the current incomes become the updated list, and the
    * income itself, as given, is filed among the previous yearly incomes
    * under the year it starts in. The contributions are left as they are. */
  function Month(s: LegacyState, income: Income): (r: Result<LegacyState, Failure>)
    requires ValidLegacyState(s) && ValidIncome(income)
    ensures r.Err? <==> UpdateIncomes(s, income).Err?
    ensures r.Ok? ==>
      && r.value.contributorId == s.contributorId && r.value.registeredDate == s.registeredDate
      && r.value.contributionYear == s.contributionYear && r.value.contributions == s.contributions
      && r.value.currentIncomes == UpdateIncomes(s, income).value
      && (forall y :: y in r.value.yearlyPreviousIncomes <==> y in s.yearlyPreviousIncomes || y == income.start.date.year)
      && r.value.yearlyPreviousIncomes[income.start.date.year] == income
      && forall y :: y in s.yearlyPreviousIncomes && y != income.start.date.year ==>
           r.value.yearlyPreviousIncomes[y] == s.yearlyPreviousIncomes[y]
  {
    match UpdateIncomes(s, income)
    case Err(e) => Err(e)
    case Ok(incomes) =>
      Ok(s.(yearlyPreviousIncomes := s.yearlyPreviousIncomes[income.start.date.year := income],
            currentIncomes := incomes))
  }

  /** `previousYear(income)`: the income rescaled to its whole year is filed
    * under the year it starts in; current incomes and contributions are left
    * as they are. */
  function PreviousYear(s: LegacyState, income: Income): (r: Result<LegacyState, Failure>)
    requires ValidLegacyState(s) && ValidIncome(income)
    ensures r.Err? <==> ScaleToFullYear(income).Err?
    ensures r.Err? ==> r.error == Arithmetic(ScaleToFullYear(income).error)
    ensures r.Ok? ==>
      && r.value.contributorId == s.contributorId && r.value.registeredDate == s.registeredDate
      && r.value.contributionYear == s.contributionYear && r.value.contributions == s.contributions
      && r.value.currentIncomes == s.currentIncomes
      && (forall y :: y in r.value.yearlyPreviousIncomes <==> y in s.yearlyPreviousIncomes || y == income.start.date.year)
      && r.value.yearlyPreviousIncomes[income.start.date.year] == ScaleToFullYear(income).value
      && forall y :: y in s.yearlyPreviousIncomes && y != income.start.date.year ==>
           r.value.yearlyPreviousIncomes[y] == s.yearlyPreviousIncomes[y]
  {
    match ScaleToFullYear(income)
    case Err(e) => Err(Arithmetic(e))
    case Ok(yearly) => Ok(s.(yearlyPreviousIncomes := s.yearlyPreviousIncomes[income.start.date.year := yearly]))
  }

  // ---- properties ---------------------------------------------------------------

  /** Every month the gap filling adds is the share, rescaled to its own
    * month, of the month before it. */
  lemma {:induction false} GapsCopyThePreviousMonth(m: int, acc: map<int, Income>, k: int)
    requires 2 <= m <= 13 && forall j :: j in acc ==> ValidIncome(acc[j])
    requires FillGaps(m, acc).Ok? && m <= k <= 12 && k !in acc
    ensures var r := FillGaps(m, acc).value;
      && k - 1 in r && ScaleToMonth(r[k - 1], r[k - 1].start.date.year, k).Ok?
      && r[k] == ScaleToMonth(r[k - 1], r[k - 1].start.date.year, k).value
    decreases 13 - m
  {
    if m in acc {
      GapsCopyThePreviousMonth(m + 1, acc, k);
    } else {
      var previous := acc[m - 1];
      var share := ScaleToMonth(previous, previous.start.date.year, m).value;
      if k != m {
        GapsCopyThePreviousMonth(m + 1, acc[m := share], k);
      }
    }
  }

  /** Each month of the new income holds that month's share of the income
    * rescaled to the end of its year. */
  lemma NewIncomeFillsItsMonths(h: History, income: Income, m: int)
    requires ValidHistory(h) && ValidIncome(income) && MonthlyIncomes(h, income).Ok?
    requires income.start.date.month <= m <= income.end.date.month
    ensures ScaleToEndOfYear(income).Ok?
    ensures var toEnd := ScaleToEndOfYear(income).value;
      var r := MonthlyIncomes(h, income).value;
      && ScaleToMonth(toEnd, income.start.date.year, m).Ok?
      && m in r && r[m] == ScaleToMonth(toEnd, income.start.date.year, m).value
  {
    var known := FromBeforeRegistration(h, income).value;
    var toEnd := ScaleToEndOfYear(income).value;
    var withIncome := FromNewIncome(income, known).value;
    var withJanuary := January(h, income, withIncome).value;
    FillMonthsShares(toEnd, income.start.date.year, income.start.date.month, income.end.date.month, known, m);
    assert m in withIncome && withJanuary[m] == withIncome[m];
    assert MonthlyIncomes(h, income) == Gather(h, income, known) == Complete(h, income, withIncome);
    assert Complete(h, income, withIncome) == FillGaps(2, withJanuary);
  }

  /** Each month of the range holds its share of the source. */
  lemma {:induction false} FillMonthsShares(source: Income, year: int, first: int, last: int, acc: map<int, Income>, m: int)
    requires ValidIncome(source) && 1 <= first && last <= 12
    requires forall k :: k in acc ==> ValidIncome(acc[k])
    requires FillMonths(source, year, first, last, acc).Ok? && first <= m <= last
    ensures ScaleToMonth(source, year, m).Ok?
    ensures FillMonths(source, year, first, last, acc).value[m] == ScaleToMonth(source, year, m).value
    decreases last - first
  {
    FillMonthsStep(source, year, first, last, acc);
    if m != first {
      var next := acc[first := ScaleToMonth(source, year, first).value];
      FillMonthsShares(source, year, first + 1, last, next, m);
    }
  }

  lemma FillMonthsStep(source: Income, year: int, first: int, last: int, acc: map<int, Income>)
    requires ValidIncome(source) && 1 <= first <= last <= 12
    requires forall k :: k in acc ==> ValidIncome(acc[k])
    requires FillMonths(source, year, first, last, acc).Ok?
    ensures ScaleToMonth(source, year, first).Ok?
    ensures FillMonths(source, year, first, last, acc)
         == FillMonths(source, year, first + 1, last, acc[first := ScaleToMonth(source, year, first).value])
    ensures FillMonths(source, year, first, last, acc).value[first] == ScaleToMonth(source, year, first).value
  {
  }

  // Each stage of the gathering, unfolded one step.

  lemma CompletionSteps(h: History, income: Income, acc: map<int, Income>)
    requires ValidHistory(h) && ValidIncome(income)
    requires forall m :: m in acc ==> 1 <= m <= 12 && ValidIncome(acc[m])
    requires Complete(h, income, acc).Ok?
    ensures January(h, income, acc).Ok?
    ensures Complete(h, income, acc) == FillGaps(2, January(h, income, acc).value)
  {
  }

  lemma GatheringSteps(h: History, income: Income, known: map<int, Income>)
    requires ValidHistory(h) && ValidIncome(income)
    requires forall m :: m in known ==> 1 <= m <= 12 && ValidIncome(known[m])
    requires Gather(h, income, known).Ok?
    ensures FromNewIncome(income, known).Ok?
    ensures Gather(h, income, known) == Complete(h, income, FromNewIncome(income, known).value)
  {
  }

  lemma MonthlySteps(h: History, income: Income)
    requires ValidHistory(h) && ValidIncome(income)
    ensures FromBeforeRegistration(h, income).Err? ==>
      MonthlyIncomes(h, income) == Err(Arithmetic(FromBeforeRegistration(h, income).error))
    ensures FromBeforeRegistration(h, income).Ok? ==>
      MonthlyIncomes(h, income) == Gather(h, income, FromBeforeRegistration(h, income).value)
  {
  }

  /** Filling the gaps from February on never adds January. */
  lemma GapsLeaveJanuary(h: History, income: Income, acc: map<int, Income>)
    requires ValidHistory(h) && ValidIncome(income)
    requires forall m :: m in acc ==> 1 <= m <= 12 && ValidIncome(acc[m])
    requires January(h, income, acc).Ok? && FillGaps(2, January(h, income, acc).value).Ok?
    ensures 1 in FillGaps(2, January(h, income, acc).value).value <==>
      1 in acc || income.start.date.year - 1 in h.previousIncomes
  {
  }

  /** The last two steps add January exactly when last year's income is known. */
  lemma JanuaryAfterCompletion(h: History, income: Income, acc: map<int, Income>)
    requires ValidHistory(h) && ValidIncome(income)
    requires forall m :: m in acc ==> 1 <= m <= 12 && ValidIncome(acc[m])
    requires Complete(h, income, acc).Ok?
    ensures 1 in Complete(h, income, acc).value <==> 1 in acc || income.start.date.year - 1 in h.previousIncomes
  {
    CompletionSteps(h, income, acc);
    GapsLeaveJanuary(h, income, acc);
  }

  /** After the new income, January is known when it was before, when the
    * income starts in January, or when last year's income is known. */
  lemma JanuaryAfterGathering(h: History, income: Income, known: map<int, Income>)
    requires ValidHistory(h) && ValidIncome(income)
    requires forall m :: m in known ==> 1 <= m <= 12 && ValidIncome(known[m])
    requires Gather(h, income, known).Ok?
    ensures 1 in Gather(h, income, known).value <==>
      1 in known || income.start.date.month == 1 || income.start.date.year - 1 in h.previousIncomes
  {
    GatheringSteps(h, income, known);
    JanuaryAfterCompletion(h, income, FromNewIncome(income, known).value);
  }

  /** January is known after the update exactly when the contributor was
    * registered by the start of the income's year with last year's income
    * known, or the income starts in January, or an income is filed under
    * the year before the income's. */
  lemma WhenJanuaryIsKnown(h: History, income: Income)
    requires ValidHistory(h) && ValidIncome(income) && MonthlyIncomes(h, income).Ok?
    ensures 1 in MonthlyIncomes(h, income).value <==>
      KnownBeforeTheYear(h, income) || income.start.date.month == 1 || income.start.date.year - 1 in h.previousIncomes
  {
    MonthlySteps(h, income);
    JanuaryAfterGathering(h, income, FromBeforeRegistration(h, income).value);
  }

  /** With January unknown and the income starting after February, February
    * is missing with no month before it to copy from: the update throws a
    * null dereference, unless an exact division failed first. */
  lemma MissingJanuaryFails(h: History, income: Income)
    requires ValidHistory(h) && ValidIncome(income)
    requires !KnownBeforeTheYear(h, income) && income.start.date.month > 2
    requires income.start.date.year - 1 !in h.previousIncomes
    ensures MonthlyIncomes(h, income).Err?
    ensures MonthlyIncomes(h, income).error.NullIncome? ==> MonthlyIncomes(h, income).error.month == 2
  {
    var known := FromBeforeRegistration(h, income).value;
    var next := FromNewIncome(income, known);
    if next.Ok? {
      assert 1 !in next.value && 2 !in next.value;
      assert January(h, income, next.value) == Ok(next.value);
      assert Complete(h, income, next.value) == FillGaps(2, next.value);
    }
    assert MonthlyIncomes(h, income) == Gather(h, income, known);
  }

  /** The known current incomes play no part: two states with the same
    * registration date and previous incomes, whatever their current
    * incomes, update alike. */
  lemma KnownIncomesAreNotCopied(s: LegacyState, t: LegacyState, income: Income)
    requires ValidLegacyState(s) && ValidLegacyState(t) && ValidIncome(income)
    requires s.registeredDate == t.registeredDate && s.yearlyPreviousIncomes == t.yearlyPreviousIncomes
    ensures UpdateIncomes(t, income) == UpdateIncomes(s, income)
  {
    assert HistoryOf(t) == HistoryOf(s);
  }

  /** Strictly ascending lists with the same elements are the same list. */
  lemma {:induction false} AscendingWithSameElements(a: seq<int>, b: seq<int>)
    requires StrictlyAscending(a) && StrictlyAscending(b)
    requires forall k :: k in a <==> k in b
    ensures a == b
    decreases |a|
  {
    if a != [] {
      assert a[0] in a;
    }
    if b != [] {
      assert b[0] in b;
    }
    if a != [] && b != [] {
      assert a[0] == b[0];
      forall k
        ensures k in a[1..] <==> k in b[1..]
      {
        if k in a[1..] {
          assert k in b && k > a[0];
        }
        if k in b[1..] {
          assert k in a && k > b[0];
        }
      }
      AscendingWithSameElements(a[1..], b[1..]);
    }
  }

  /** A month-keyed map holding every month from February on lists its
    * months from January or February through December. */
  lemma MonthsFromJanuaryOrFebruary(byMonth: map<int, Income>)
    requires forall m :: m in byMonth ==> 1 <= m <= 12
    requires forall m :: 2 <= m <= 12 ==> m in byMonth
    ensures MonthsAscending(byMonth.Keys) == Range(if 1 in byMonth then 1 else 2, 12)
  {
    var months := MonthsAscending(byMonth.Keys);
    var range := Range(if 1 in byMonth then 1 else 2, 12);
    forall k
      ensures k in months <==> k in range
    {
      if k in range {
        var i :| 0 <= i < |range| && range[i] == k;
      }
      if k in months {
        assert range[k - range[0]] == k;
      }
    }
    AscendingWithSameElements(months, range);
  }

  /** The list holds the months in calendar order: from January when January
    * is known, from February otherwise, through December. */
  lemma UpdatedIncomesInMonthOrder(s: LegacyState, income: Income)
    requires ValidLegacyState(s) && ValidIncome(income) && UpdateIncomes(s, income).Ok?
    ensures var byMonth := MonthlyIncomes(HistoryOf(s), income).value;
      && (1 in byMonth ==> UpdateIncomes(s, income).value == InOrder(byMonth, Range(1, 12)))
      && (1 !in byMonth ==> UpdateIncomes(s, income).value == InOrder(byMonth, Range(2, 12)))
  {
    MonthsFromJanuaryOrFebruary(MonthlyIncomes(HistoryOf(s), income).value);
  }

  // Every income the gathering produces is a real span.

  lemma CompletedAreValid(h: History, income: Income, acc: map<int, Income>)
    requires ValidHistory(h) && ValidIncome(income)
    requires forall m :: m in acc ==> 1 <= m <= 12 && ValidIncome(acc[m])
    requires Complete(h, income, acc).Ok?
    ensures forall m :: m in Complete(h, income, acc).value ==> ValidIncome(Complete(h, income, acc).value[m])
  {
    CompletionSteps(h, income, acc);
  }

  lemma GatheredAreValid(h: History, income: Income, known: map<int, Income>)
    requires ValidHistory(h) && ValidIncome(income)
    requires forall m :: m in known ==> 1 <= m <= 12 && ValidIncome(known[m])
    requires Gather(h, income, known).Ok?
    ensures forall m :: m in Gather(h, income, known).value ==> ValidIncome(Gather(h, income, known).value[m])
  {
    GatheringSteps(h, income, known);
    CompletedAreValid(h, income, FromNewIncome(income, known).value);
  }

  lemma MonthlyAreValid(h: History, income: Income)
    requires ValidHistory(h) && ValidIncome(income) && MonthlyIncomes(h, income).Ok?
    ensures forall m :: m in MonthlyIncomes(h, income).value ==> ValidIncome(MonthlyIncomes(h, income).value[m])
  {
    MonthlySteps(h, income);
    GatheredAreValid(h, income, FromBeforeRegistration(h, income).value);
  }

  lemma UpdatedAreValid(s: LegacyState, income: Income)
    requires ValidLegacyState(s) && ValidIncome(income) && UpdateIncomes(s, income).Ok?
    ensures forall i :: 0 <= i < |UpdateIncomes(s, income).value| ==> ValidIncome(UpdateIncomes(s, income).value[i])
  {
    var byMonth := MonthlyIncomes(HistoryOf(s), income).value;
    var months := MonthsAscending(byMonth.Keys);
    MonthlyAreValid(HistoryOf(s), income);
    assert forall i :: 0 <= i < |months| ==> months[i] in months;
  }

  /** `month` keeps every date of the state a real date. */
  lemma MonthKeepsTheStateValid(s: LegacyState, income: Income)
    requires ValidLegacyState(s) && ValidIncome(income)
    ensures Month(s, income).Ok? ==> ValidLegacyState(Month(s, income).value)
  {
    if Month(s, income).Ok? {
      UpdatedAreValid(s, income);
    }
  }

  /** `previousYear` keeps every date of the state a real date. */
  lemma PreviousYearKeepsTheStateValid(s: LegacyState, income: Income)
    requires ValidLegacyState(s) && ValidIncome(income)
    ensures PreviousYear(s, income).Ok? ==> ValidLegacyState(PreviousYear(s, income).value)
  {
  }
}
