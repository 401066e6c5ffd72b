/** The income service's front end (`CalculationServiceImpl`): it normalises
  * an applied income, spreads it over the months, asks the contribution
  * service for each month's contributions and sends the resulting command to
  * the contributor aggregate; it also turns month-keyed contribution lines
  * into the reply. The contribution service it calls is a parameter. */
module CalculationService {
  import opened Results
  import opened Rounding
  import opened Calendar
  import opened Incomes
  import opened DateUtils
  import opened IncomeUtils
  import opened SortedKeys
  import opened ContributionStates
  import opened DomainCommands
  import opened DomainState
  import opened DomainEntity
  import CalculatorService

  /** The remote `compute` call of the contribution service. */
  type RemoteCalculator = CalculatorService.MonthlyIncomeRequest -> MonthContributions

  /** The reply: the months that have lines, in calendar order, the totals per
    * rule code, the income of the listed months and the span they cover. */
  datatype Contributions = Contributions(
    contributorId: string,
    start: Date,
    end: Date,
    totalIncome: real,
    total: map<string, real>,
    byMonth: seq<(int, seq<Contribution>)>)

  /** The `NotFound` failure of a reply without any line. */
  datatype NotFound = NoContributions

  // ---- normalising an applied income ---------------------------------------

  /** `normalizeIncome`: an income starting after it ends, or spanning two
    * years, is rejected (in that order, on the instants and years as given);
    * otherwise it is rescaled to the end of its year, or folded into the
    * month it starts in. */
  function NormalizeIncome(income: Income, scaleToEnd: bool): (r: Result<Income, Error>)
    requires ValidIncome(income)
    ensures IsAfter(income.start, income.end) ==> r == Err(IllegalPeriod(income.start, income.end))
    ensures !IsAfter(income.start, income.end) && income.start.date.year != income.end.date.year ==>
      r == Err(NotSingleYearPeriod(income.start, income.end))
    ensures r.Ok? <==> !IsAfter(income.start, income.end) && income.start.date.year == income.end.date.year
    ensures r.Ok? ==> ValidIncome(r.value) && r.value.kind == income.kind
    ensures r.Ok? ==> r.value.start == MinFirstDayOfMonth(income.start)
    ensures r.Ok? && !scaleToEnd ==>
      r.value.amount == income.amount && r.value.end == MaxLastDayOfMonth(income.start) && MonthCount(r.value) == 1
    ensures r.Ok? && scaleToEnd ==>
      r.value.end == WithLastDayOfYear(income.end) && MonthCount(r.value) == 13 - income.start.date.month
  {
    if IsAfter(income.start, income.end) then Err(IllegalPeriod(income.start, income.end))
    else if income.start.date.year != income.end.date.year then Err(NotSingleYearPeriod(income.start, income.end))
    else if scaleToEnd then
      OrderedSpanCoversAMonth(income);
      match ScaleToEndOfYear(income)
      case Err(e) => Err(Arithmetic(e))
      case Ok(scaled) => Ok(scaled)
    else Ok(ToCompleteMonths(income))
  }

  /** The date of an instant is at most two days after the date of any instant
    * not before it, offsets being at most eighteen hours. */
  lemma OrderedInstantsCloseDates(a: DateTime, b: DateTime)
    requires ValidDateTime(a) && ValidDateTime(b) && !IsAfter(a, b)
    ensures EpochDay(a.date) <= EpochDay(b.date) + 2
  {
    var da, db := EpochDay(a.date), EpochDay(b.date);
    assert InstantNanos(a) <= InstantNanos(b);
  }

  /** Within one year, an income that does not start after it ends covers at
    * least one month by the period count: its dates may cross back over a
    * month boundary by two days at most, which the count does not see. */
  lemma OrderedSpanCoversAMonth(income: Income)
    requires ValidIncome(income) && !IsAfter(income.start, income.end)
    requires income.start.date.year == income.end.date.year
    ensures MonthCount(income) >= 1
  {
    var s, e := income.start.date, income.end.date;
    OrderedInstantsCloseDates(income.start, income.end);
    if s.month > e.month {
      MonthsApart(e, s);
    }
  }

  /** A date in a later month of the same year than `early` is more than two
    * days after it, unless it is in the very next month, at most two days
    * into it, and `early` is at most two days before its month's end. */
  lemma MonthsApart(early: Date, late: Date)
    requires ValidDate(early) && ValidDate(late) && early.year == late.year && early.month < late.month
    requires EpochDay(late) <= EpochDay(early) + 2
    ensures late.month == early.month + 1 && late.day < early.day
  {
    var next := Date(early.year, early.month + 1, 1);
    var last := Date(early.year, early.month, DaysInMonth(early.year, early.month));
    NextDayIsOneDayLater(last);
    assert EpochDay(next) == EpochDay(last) + 1;
    if late.month > early.month + 1 {
      var after := Date(early.year, early.month + 2, 1);
      var end := Date(early.year, early.month + 1, DaysInMonth(early.year, early.month + 1));
      NextDayIsOneDayLater(end);
      LaterMonthLaterDay(after, late);
      assert false;
    }
  }

  // ---- asking for the contributions ----------------------------------------

  /** The request `getContributions` sends for one month's income: the
    * amount, the year given, the month, no rounding. */
  function MonthRequest(year: int, month: int, income: Income): (r: CalculatorService.MonthlyIncomeRequest)
    ensures r.income == income.amount as real && r.year == year && r.month == month && !r.round
  {
    CalculatorService.MonthlyIncomeRequest(income.amount as real, year, month, false)
  }

  /** `getContributions`: the contributions computed for each month's income. */
  function GetContributions(compute: RemoteCalculator, year: int, incomes: map<int, Income>)
    : (r: map<int, MonthContributions>)
    ensures r.Keys == incomes.Keys
    ensures forall m :: m in r ==> r[m] == compute(MonthRequest(year, m, incomes[m]))
  {
    map m | m in incomes :: compute(MonthRequest(year, m, incomes[m]))
  }

  /** `doRegister`, up to the command sent to the aggregate: the previous
    * yearly income is placed on the registration year, spread over its
    * months, and each month's contributions computed. The id and the income
    * type are never missing here, so the command's missing-field failures are
    * not reached from the service. */
  function DoRegister(compute: RemoteCalculator, contributorId: string, registrationDate: DateTime,
                      previousYearlyIncome: int, kind: IncomeType): (r: Command)
    requires ValidDateTime(registrationDate)
    ensures r.Register? && r.contributorId == contributorId && r.registrationDate == registrationDate
    ensures r.previousYearlyIncome == PreviousYear(registrationDate, previousYearlyIncome, kind)
    ensures r.givenContributions.Some?
    ensures forall m :: m in r.givenContributions.value <==> 1 <= m <= 12
  {
    var year := registrationDate.date.year;
    var spread := SpreadOutOverMonths(YearIncome(previousYearlyIncome, year, kind)).value;
    assert forall m :: m in spread <==> 1 <= m <= 12;
    var contributions := GetContributions(compute, year, spread);
    NewRegisterFromAmount(Some(contributorId), Some(registrationDate), previousYearlyIncome, Some(kind),
                          Some(contributions)).value
  }

  /** `doApplyIncome`, up to the command sent to the aggregate: the income is
    * normalised, spread over its months, and each month's contributions
    * computed for the year the income starts in. As for `DoRegister`, the
    * command's missing-field failures are not reached from here. */
  function DoApplyIncome(compute: RemoteCalculator, contributorId: string, income: Income, scaleToEnd: bool,
                         dryRun: bool): (r: Result<Command, Error>)
    requires ValidIncome(income)
    ensures r.Err? <==> NormalizeIncome(income, scaleToEnd).Err?
    ensures r.Err? ==> r.error == NormalizeIncome(income, scaleToEnd).error
    ensures r.Ok? ==>
      && r.value.ApplyIncome? && r.value.contributorId == contributorId
      && r.value.income == NormalizeIncome(income, scaleToEnd).value
      && r.value.scaleToEnd == scaleToEnd && r.value.dryRun == dryRun
    ensures r.Ok? ==>
      var sm := income.start.date.month;
      forall m :: m in r.value.contributions <==> if scaleToEnd then sm <= m <= 12 else m == sm
  {
    match NormalizeIncome(income, scaleToEnd)
    case Err(e) => Err(e)
    case Ok(normalized) =>
      var spread := SpreadOutOverMonths(normalized).value;
      var contributions := GetContributions(compute, income.start.date.year, spread);
      Ok(NewApplyIncome(Some(contributorId), Some(normalized), scaleToEnd, dryRun, Some(contributions)).value)
  }

  // ---- the reply -------------------------------------------------------------

  /** The months of the year that have at least one line, in calendar order. */
  function FilledMonths(byMonth: map<int, seq<Contribution>>): (r: seq<int>)
    ensures StrictlyAscending(r)
    ensures forall m :: m in r <==> 1 <= m <= 12 && m in byMonth && byMonth[m] != []
    ensures forall i :: 0 <= i < |r| ==> 1 <= r[i] <= 12 && r[i] in byMonth && byMonth[r[i]] != []
  {
    var r := MonthsAscending(set m | m in byMonth && byMonth[m] != []);
    assert forall i :: 0 <= i < |r| ==> r[i] in r;
    r
  }

  /** The lines of the listed months, one month after the other. */
  function Lines(byMonth: map<int, seq<Contribution>>, months: seq<int>): (r: seq<Contribution>)
    requires forall i :: 0 <= i < |months| ==> months[i] in byMonth
    ensures forall c :: c in r <==> exists i :: 0 <= i < |months| && c in byMonth[months[i]]
  {
    if months == [] then []
    else
      byMonth[months[0]] + Lines(byMonth, months[1..])
  }

  /** The contributions filed under `code` among `lines`, added up. */
  function CodeSum(lines: seq<Contribution>, code: string): real
  {
    if lines == [] then 0.0
    else (if lines[0].code == code then lines[0].amount else 0.0) + CodeSum(lines[1..], code)
  }

  /** The codes some line is filed under. */
  function Codes(lines: seq<Contribution>): (r: set<string>)
    ensures forall code :: code in r <==> exists c :: c in lines && c.code == code
  {
    set c | c in lines :: c.code
  }

  /** Every code some line is filed under, with its contributions added up. */
  function Totals(lines: seq<Contribution>): (r: map<string, real>)
    ensures forall code :: code in r <==> exists c :: c in lines && c.code == code
    ensures forall code :: code in r ==> r[code] == CodeSum(lines, code)
  {
    map code | code in Codes(lines) :: CodeSum(lines, code)
  }

  /** The income of each listed month, read from its first line, added up. */
  function FirstLineIncomes(byMonth: map<int, seq<Contribution>>, months: seq<int>): real
    requires forall i :: 0 <= i < |months| ==> months[i] in byMonth && byMonth[months[i]] != []
  {
    if months == [] then 0.0 else byMonth[months[0]][0].income + FirstLineIncomes(byMonth, months[1..])
  }

  /** `convertToContributions`: months without lines are dropped and the
    * others listed in calendar order; with none left the reply is
    * `NotFound`. The totals group every listed line by its code; the total
    * income adds up the income of the first line of each month; the span runs
    * from the first day of the first listed month to the last day of the last. */
  function ConvertToContributions(contributorId: string, year: int, byMonth: map<int, seq<Contribution>>)
    : (r: Result<Contributions, NotFound>)
    ensures r.Err? <==> forall m :: 1 <= m <= 12 && m in byMonth ==> byMonth[m] == []
    ensures r.Ok? ==> r.value.contributorId == contributorId && r.value.byMonth == Entries(byMonth, FilledMonths(byMonth))
    ensures r.Ok? ==>
      var months := FilledMonths(byMonth);
      r.value.total == Totals(Lines(byMonth, months)) && r.value.totalIncome == FirstLineIncomes(byMonth, months)
    ensures r.Ok? ==>
      var first, last := r.value.byMonth[0].0, r.value.byMonth[|r.value.byMonth| - 1].0;
      r.value.start == Date(year, first, 1) && r.value.end == Date(year, last, DaysInMonth(year, last))
  {
    var months := FilledMonths(byMonth);
    if months == [] then Err(NoContributions)
    else
      var first, last := months[0], months[|months| - 1];
      assert last in months;
      Ok(Contributions(contributorId, Date(year, first, 1), Date(year, last, DaysInMonth(year, last)),
                       FirstLineIncomes(byMonth, months), Totals(Lines(byMonth, months)),
                       Entries(byMonth, months)))
  }

  /** The months that have lines are listed each once with its lines, in
    * calendar order. */
  lemma ListingIsOrderedAndComplete(byMonth: map<int, seq<Contribution>>, l: seq<(int, seq<Contribution>)>)
    requires l == Entries(byMonth, FilledMonths(byMonth))
    ensures forall i, j :: 0 <= i < j < |l| ==> l[i].0 < l[j].0
    ensures forall i :: 0 <= i < |l| ==> l[i].0 in byMonth && l[i].1 == byMonth[l[i].0] && l[i].1 != []
    ensures forall m :: 1 <= m <= 12 && m in byMonth && byMonth[m] != [] ==> exists i :: 0 <= i < |l| && l[i].0 == m
  {
    var months := FilledMonths(byMonth);
    forall m | 1 <= m <= 12 && m in byMonth && byMonth[m] != []
      ensures exists i :: 0 <= i < |l| && l[i].0 == m
    {
      var i :| 0 <= i < |months| && months[i] == m;
      assert l[i].0 == m;
    }
  }

  /** The reply lists the months that have lines, each once with its lines,
    * in calendar order, and its span runs from the first day of the first
    * listed month to the last day of the last, covering every listed month. */
  lemma ReplyListsFilledMonths(contributorId: string, year: int, byMonth: map<int, seq<Contribution>>)
    requires ConvertToContributions(contributorId, year, byMonth).Ok?
    ensures var r := ConvertToContributions(contributorId, year, byMonth).value;
      && (forall i, j :: 0 <= i < j < |r.byMonth| ==> r.byMonth[i].0 < r.byMonth[j].0)
      && (forall i :: 0 <= i < |r.byMonth| ==>
            r.byMonth[i].0 in byMonth && r.byMonth[i].1 == byMonth[r.byMonth[i].0] && r.byMonth[i].1 != [])
      && (forall m :: 1 <= m <= 12 && m in byMonth && byMonth[m] != [] ==>
            exists i :: 0 <= i < |r.byMonth| && r.byMonth[i].0 == m)
      && (forall i :: 0 <= i < |r.byMonth| ==> r.start.month <= r.byMonth[i].0 <= r.end.month)
  {
    ListingIsOrderedAndComplete(byMonth, ConvertToContributions(contributorId, year, byMonth).value.byMonth);
  }

  // ---- properties ------------------------------------------------------------

  /** An income ending on the 10th of March at noon and starting on the 15th
    * is rejected by the service, while the aggregate, which compares whole
    * months only, would let it through. */
  lemma ReversedDaysRejectedByTheService(s: IncomeTaxState, contributorId: string, scaleToEnd: bool)
    requires s.isRegistered && s.contributionYear == 2019
    ensures var income := Income(500, Real, DateTime(Date(2019, 3, 15), NanosPerDay / 2, Utc),
                                            DateTime(Date(2019, 3, 10), NanosPerDay / 2, Utc));
      && NormalizeIncome(income, scaleToEnd) == Err(IllegalPeriod(income.start, income.end))
      && CheckIncomeArguments(s, contributorId, income).None?
  {
    var income := Income(500, Real, DateTime(Date(2019, 3, 15), NanosPerDay / 2, Utc),
                                    DateTime(Date(2019, 3, 10), NanosPerDay / 2, Utc));
    assert EpochDay(income.start.date) == EpochDay(income.end.date) + 5;
    assert InstantNanos(income.start) == InstantNanos(income.end) + 5 * NanosPerDay;
    assert IsAfter(income.start, income.end);
    SameMonthPassesPeriodChecks(s, contributorId, income);
  }

  /** What the service sends on is accepted by the aggregate's period checks
    * when the contributor is registered for the year the income starts in:
    * the normalised income runs from the first day of a month to a later
    * instant of the same year. */
  lemma NormalisedIncomePassesEntityChecks(s: IncomeTaxState, contributorId: string, income: Income, scaleToEnd: bool)
    requires ValidIncome(income) && NormalizeIncome(income, scaleToEnd).Ok?
    requires s.isRegistered && s.contributionYear == income.start.date.year
    ensures CheckIncomeArguments(s, contributorId, NormalizeIncome(income, scaleToEnd).value).None?
  {
    var n := NormalizeIncome(income, scaleToEnd).value;
    SnapIdempotent(income.start);
    if scaleToEnd {
      ScaledSpanIsOrdered(n);
    } else {
      MonthBracket(income.start);
    }
  }

  /** From the first day of a month to the last day of its year, whatever the
    * offsets, the span is ordered. */
  lemma ScaledSpanIsOrdered(n: Income)
    requires ValidIncome(n) && n.end.date.month == 12 && n.end.date.day == 31
    requires n.start.date.day == 1 && n.start.date.year == n.end.date.year
    ensures !IsAfter(MinFirstDayOfMonth(n.start), MaxLastDayOfMonth(n.end))
  {
    var first, last := MinFirstDayOfMonth(n.start), MaxLastDayOfMonth(n.end);
    var december := Date(n.start.date.year, 12, 1);
    if first.date != december {
      LaterMonthLaterDay(first.date, december);
    }
    assert EpochDay(last.date) == EpochDay(december) + 30;
    DaysApartAreOrdered(first, last);
  }

  /** Two instants whose dates are at least three days apart are in the order
    * of their dates (two days are not enough with offsets eighteen hours
    * apart each way). */
  lemma DaysApartAreOrdered(a: DateTime, b: DateTime)
    requires ValidDateTime(a) && ValidDateTime(b) && EpochDay(a.date) + 3 <= EpochDay(b.date)
    ensures !IsAfter(a, b)
  {
    if IsAfter(a, b) {
      OrderedInstantsCloseDates(b, a);
    }
  }

  /** Registration asks for the contributions of every month of the
    * registration year on a twelfth of the previous yearly income, the rest
    * going to December. */
  lemma RegistrationRequestsMonthlyShares(compute: RemoteCalculator, contributorId: string,
                                          registrationDate: DateTime, previousYearlyIncome: int, kind: IncomeType)
    requires ValidDateTime(registrationDate)
    ensures var cmd := DoRegister(compute, contributorId, registrationDate, previousYearlyIncome, kind);
      var year := registrationDate.date.year;
      var spread := SpreadOutOverMonths(YearIncome(previousYearlyIncome, year, kind)).value;
      && (forall m :: 1 <= m <= 12 ==> m in spread && cmd.givenContributions.value[m] == compute(MonthRequest(year, m, spread[m])))
      && (forall m :: 1 <= m < 12 ==> spread[m].amount == TruncDiv(previousYearlyIncome, 12))
      && spread[12].amount == previousYearlyIncome - 11 * TruncDiv(previousYearlyIncome, 12)
  {
    YearIncomeSpread(previousYearlyIncome, registrationDate.date.year, kind);
  }

  /** The incomes registration asks about add up to the previous yearly
    * income, which is also what the aggregate, rescaling the command's
    * previous income to its year, schedules. */
  lemma RegistrationRequestsAddUp(compute: RemoteCalculator, contributorId: string,
                                  registrationDate: DateTime, previousYearlyIncome: int, kind: IncomeType)
    requires ValidDateTime(registrationDate)
    ensures var cmd := DoRegister(compute, contributorId, registrationDate, previousYearlyIncome, kind);
      var spread := SpreadOutOverMonths(YearIncome(previousYearlyIncome, registrationDate.date.year, kind)).value;
      && SumAmounts(spread, Range(1, 12)) == previousYearlyIncome
      && ScaleToOwnFullYear(cmd.previousYearlyIncome).value.amount == previousYearlyIncome
  {
    YearIncomeSpread(previousYearlyIncome, registrationDate.date.year, kind);
    AmountFormCoversTheYear(registrationDate, previousYearlyIncome, kind);
  }

  /** An applied income is asked for month by month, on the shares of the
    * normalised income, and the shares add up to the normalised amount, which
    * without `scaleToEnd` is the amount as given. */
  lemma AppliedRequestsSpreadTheIncome(compute: RemoteCalculator, contributorId: string, income: Income,
                                       scaleToEnd: bool, dryRun: bool)
    requires ValidIncome(income) && DoApplyIncome(compute, contributorId, income, scaleToEnd, dryRun).Ok?
    ensures var cmd := DoApplyIncome(compute, contributorId, income, scaleToEnd, dryRun).value;
      var spread := SpreadOutOverMonths(cmd.income).value;
      && SpreadOutOverMonths(cmd.income).Ok?
      && (forall m :: m in cmd.contributions ==>
            m in spread && cmd.contributions[m] == compute(MonthRequest(income.start.date.year, m, spread[m])))
      && SumAmounts(spread, Range(1, 12)) == cmd.income.amount
      && (!scaleToEnd ==> cmd.income.amount == income.amount)
  {
    NormalisedIncomesSpreadExactly(income);
  }

  lemma {:induction false} CodeSumOfConcatenation(a: seq<Contribution>, b: seq<Contribution>, code: string)
    ensures CodeSum(a + b, code) == CodeSum(a, code) + CodeSum(b, code)
  {
    if a != [] {
      assert (a + b)[0] == a[0] && (a + b)[1..] == a[1..] + b;
      CodeSumOfConcatenation(a[1..], b, code);
      assert CodeSum(a + b, code) == (if a[0].code == code then a[0].amount else 0.0) + CodeSum(a[1..] + b, code);
    } else {
      assert a + b == b;
    }
  }

  /** The contributions filed under `code` month by month, added up over the months. */
  function MonthlyCodeSums(byMonth: map<int, seq<Contribution>>, months: seq<int>, code: string): real
    requires forall i :: 0 <= i < |months| ==> months[i] in byMonth
  {
    if months == [] then 0.0 else CodeSum(byMonth[months[0]], code) + MonthlyCodeSums(byMonth, months[1..], code)
  }

  /** A code's total over all the listed lines is the sum of its totals per month. */
  lemma {:induction false} TotalIsSumOfMonthlyTotals(byMonth: map<int, seq<Contribution>>, months: seq<int>,
                                                     code: string)
    requires forall i :: 0 <= i < |months| ==> months[i] in byMonth
    ensures CodeSum(Lines(byMonth, months), code) == MonthlyCodeSums(byMonth, months, code)
  {
    if months != [] {
      CodeSumOfConcatenation(byMonth[months[0]], Lines(byMonth, months[1..]), code);
      TotalIsSumOfMonthlyTotals(byMonth, months[1..], code);
    }
  }

  /** A month without lines is as good as no month at all. */
  lemma EmptyMonthIsIgnored(contributorId: string, year: int, byMonth: map<int, seq<Contribution>>, m: int)
    ensures ConvertToContributions(contributorId, year, byMonth[m := []])
         == ConvertToContributions(contributorId, year, byMonth - {m})
  {
    var with, without := byMonth[m := []], byMonth - {m};
    assert (set k | k in with && with[k] != []) == (set k | k in without && without[k] != []);
    var months := FilledMonths(with);
    assert months == FilledMonths(without);
    LinesAgree(with, without, months);
    FirstLineIncomesAgree(with, without, months);
    assert Entries(with, months) == Entries(without, months);
  }

  lemma {:induction false} LinesAgree(a: map<int, seq<Contribution>>, b: map<int, seq<Contribution>>, months: seq<int>)
    requires forall i :: 0 <= i < |months| ==> months[i] in a && months[i] in b && a[months[i]] == b[months[i]]
    ensures Lines(a, months) == Lines(b, months)
  {
    if months != [] {
      LinesAgree(a, b, months[1..]);
    }
  }

  lemma {:induction false} FirstLineIncomesAgree(a: map<int, seq<Contribution>>, b: map<int, seq<Contribution>>,
                                                 months: seq<int>)
    requires forall i :: 0 <= i < |months| ==>
      months[i] in a && months[i] in b && a[months[i]] == b[months[i]] && a[months[i]] != []
    ensures FirstLineIncomes(a, months) == FirstLineIncomes(b, months)
  {
    if months != [] {
      FirstLineIncomesAgree(a, b, months[1..]);
    }
  }

  /** When every line of a month carries the income the month was computed
    * from, as the contribution service's lines do, the total income is the
    * sum of those incomes over the months that have lines. */
  lemma {:induction false} TotalIncomeOfComputedLines(byMonth: map<int, seq<Contribution>>, incomes: map<int, Income>,
                                                      months: seq<int>)
    requires forall i :: 0 <= i < |months| ==> months[i] in byMonth && byMonth[months[i]] != []
    requires forall i :: 0 <= i < |months| ==> months[i] in incomes
    requires forall i, c :: 0 <= i < |months| && c in byMonth[months[i]] ==> c.income == incomes[months[i]].amount as real
    ensures FirstLineIncomes(byMonth, months) == SumAmounts(incomes, months) as real
  {
    if months != [] {
      assert byMonth[months[0]][0] in byMonth[months[0]];
      TotalIncomeOfComputedLines(byMonth, incomes, months[1..]);
    }
  }

  /** Lines in March and May, none in April: the reply lists March and May,
    * runs from the 1st of March to the 31st of May, and adds up each code. */
  lemma ConversionExample()
    ensures var march := [Contribution("CSG", 1000.0, 1000.0, 9.2, 92.0), Contribution("RDS", 1000.0, 1000.0, 0.5, 5.0)];
      var may := [Contribution("CSG", 2000.0, 2000.0, 9.2, 184.0)];
      var r := ConvertToContributions("c", 2019, map[3 := march, 4 := [], 5 := may]);
      && r.Ok?
      && r.value.byMonth == [(3, march), (5, may)]
      && r.value.start == Date(2019, 3, 1) && r.value.end == Date(2019, 5, 31)
      && r.value.total == map["CSG" := 276.0, "RDS" := 5.0]
      && r.value.totalIncome == 3000.0
  {
    var march := [Contribution("CSG", 1000.0, 1000.0, 9.2, 92.0), Contribution("RDS", 1000.0, 1000.0, 0.5, 5.0)];
    var may := [Contribution("CSG", 2000.0, 2000.0, 9.2, 184.0)];
    var byMonth := map[3 := march, 4 := [], 5 := may];
    var months := FilledMonths(byMonth);
    AscendingPair(months, 3, 5);
    ExampleLines(byMonth, months, march, may);
    ExampleTotals(march, may);
  }

  lemma ExampleLines(byMonth: map<int, seq<Contribution>>, months: seq<int>, march: seq<Contribution>, may: seq<Contribution>)
    requires months == [3, 5] && byMonth == map[3 := march, 4 := [], 5 := may] && march != [] && may != []
    ensures Lines(byMonth, months) == march + may
    ensures Entries(byMonth, months) == [(3, march), (5, may)]
    ensures FirstLineIncomes(byMonth, months) == march[0].income + may[0].income
  {
    assert months[1..] == [5] && months[1..][1..] == [];
    assert Lines(byMonth, months[1..]) == may + Lines(byMonth, []);
    assert FirstLineIncomes(byMonth, months[1..]) == may[0].income + FirstLineIncomes(byMonth, []);
  }

  lemma ExampleTotals(march: seq<Contribution>, may: seq<Contribution>)
    requires march == [Contribution("CSG", 1000.0, 1000.0, 9.2, 92.0), Contribution("RDS", 1000.0, 1000.0, 0.5, 5.0)]
    requires may == [Contribution("CSG", 2000.0, 2000.0, 9.2, 184.0)]
    ensures Totals(march + may) == map["CSG" := 276.0, "RDS" := 5.0]
  {
    var lines := march + may;
    assert lines == [march[0], march[1], may[0]];
    assert lines[1..] == [march[1], may[0]] && lines[1..][1..] == [may[0]] && lines[1..][1..][1..] == [];
    assert "RDS" != "CSG" by {
      assert "RDS"[0] != "CSG"[0];
    }
    assert CodeSum(lines[1..][1..], "CSG") == 184.0 && CodeSum(lines[1..][1..], "RDS") == 0.0;
    assert CodeSum(lines[1..], "CSG") == 184.0 && CodeSum(lines[1..], "RDS") == 5.0;
    assert CodeSum(lines, "CSG") == 276.0 && CodeSum(lines, "RDS") == 5.0;
    assert Codes(lines) == {"CSG", "RDS"} by {
      assert forall code :: code in Codes(lines) <==> code == "CSG" || code == "RDS" by {
        assert march[0] in lines && march[1] in lines;
      }
    }
  }

  /** The only strictly ascending sequence holding exactly `a < b` is `[a, b]`. */
  lemma AscendingPair(s: seq<int>, a: int, b: int)
    requires StrictlyAscending(s) && a < b
    requires forall k :: k in s <==> k == a || k == b
    ensures s == [a, b]
  {
    assert a in s && b in s;
    assert |s| >= 2;
    assert s[0] in s && s[1] in s;
    assert s[0] == a && s[1] == b;
    assert |s| == 2 by {
      if |s| > 2 {
        Element(s, 2);
        assert false;
      }
    }
  }

  lemma Element(s: seq<int>, k: int)
    requires 0 <= k < |s|
    ensures s[k] in s
  {
  }
}
