/** The state adjusters of the contributor aggregate (`domain.IncomeAdjusters`):
  * the schedule set up at registration, a new income declared in the current
  * year, and the move to a new contribution year. Each recomputes the
  * contributions of the months it touches with a calculator chosen by year. */
module DomainAdjusters {
  import opened Results
  import opened Rounding
  import opened Calendar
  import opened Incomes
  import opened IncomeUtils
  import opened SortedKeys
  import opened ContributionStates
  import opened DomainState
  import opened Registry
  import Calculator2018

  /** A calculator as the aggregate calls it: a monthly income and a rounding
    * flag to the contribution lines keyed by rule code. */
  type MonthlyCalculator = (real, bool) -> MonthContributions

  /** The registry the adjusters hold: the calculators found at start-up, or
    * the 2018 calculator alone when none were found. */
  function StartupCalculators(loaded: seq<(int, MonthlyCalculator)>): (r: seq<(int, MonthlyCalculator)>)
    ensures r != []
    ensures loaded != [] ==> r == loaded
    ensures loaded == [] ==> |r| == 1 && r[0].0 == 2018
    ensures loaded == [] ==> forall x, round :: r[0].1(x, round) == Calculator2018.ComputeFromMonthlyIncome(x, round)
  {
    if loaded == [] then [(2018, (x, round) => Calculator2018.ComputeFromMonthlyIncome(x, round))]
    else loaded
  }

  /** `calculateContributions`: no months, no contributions; otherwise every
    * month's income, unrounded, through the calculator of `year` if there is
    * one and through the first calculator of the registry if not. */
  function CalculateContributions(calculators: seq<(int, MonthlyCalculator)>, year: int, incomes: map<int, Income>)
    : (r: map<int, MonthContributions>)
    requires calculators != []
    ensures r.Keys == incomes.Keys
    ensures year in Years(calculators) ==>
      forall m :: m in r ==> r[m] == Lookup(calculators, year).value(incomes[m].amount as real, false)
    ensures year !in Years(calculators) ==>
      forall m :: m in r ==> r[m] == calculators[0].1(incomes[m].amount as real, false)
  {
    if incomes == map[] then map[]
    else
      var calculator := Select(calculators, year).value;
      map m | m in incomes :: calculator(incomes[m].amount as real, false)
  }

  /** The twelve monthly shares of `income` rescaled to the whole of `year`. */
  function YearSpread(income: Income, year: int): (r: map<int, Income>)
    requires MonthCount(income) != 0
    ensures forall m :: m in r <==> 1 <= m <= 12
    ensures forall m :: m in r ==> r[m].start.date.year == year && r[m].kind == income.kind
    ensures SumAmounts(r, Range(1, 12)) == ScaleToFullYear(income, year).value.amount
  {
    var yearly := ScaleToFullYear(income, year).value;
    assert yearly == YearIncome(yearly.amount, year, income.kind);
    YearIncomeSpread(yearly.amount, year, income.kind);
    YearSharesAreTheSpread(yearly.amount, year, income.kind);
    YearShares(yearly.amount, year, income.kind)
  }

  /** `beforeRegistration(income)`: the income rescaled to the registration
    * year is spread over that year and merged into the current incomes; the
    * income itself is recorded, as a whole-year income, for the year before
    * the contribution year. Fails when the income covers no month. */
  function BeforeRegistration(calculators: seq<(int, MonthlyCalculator)>, s: IncomeTaxState, income: Income)
    : (r: Result<IncomeTaxState, ArithError>)
    requires calculators != []
    ensures r.Err? <==> MonthCount(income) == 0
    ensures r.Ok? ==> r.value.contributorId == s.contributorId && r.value.isRegistered == s.isRegistered
                      && r.value.registeredDate == s.registeredDate
    ensures r.Ok? ==> r.value.contributionYear == s.contributionYear
    ensures r.Ok? ==>
      r.value.previousYearlyIncomes == s.previousYearlyIncomes[s.contributionYear - 1 :=
        YearIncome(income.amount, s.contributionYear - 1, income.kind)]
    ensures r.Ok? ==> r.value.currentIncomes == s.currentIncomes + YearSpread(income, s.registeredDate.date.year)
    ensures r.Ok? ==>
      r.value.contributions == Update(s.contributions,
        CalculateContributions(calculators, s.contributionYear, YearSpread(income, s.registeredDate.date.year)))
  {
    if MonthCount(income) == 0 then Err(DivisionByZero)
    else
      var spread := YearSpread(income, s.registeredDate.date.year);
      var before := YearIncome(income.amount, s.contributionYear - 1, income.kind);
      var contributions := Update(s.contributions, CalculateContributions(calculators, s.contributionYear, spread));
      var m := NewModifier(s);
      var m := WithNewPreviousYearlyIncome(m, map[s.contributionYear - 1 := before]);
      var m := WithNewCurrentIncomes(m, spread);
      var m := WithNewContributionState(m, contributions);
      MergeSingleton(s.previousYearlyIncomes, s.contributionYear - 1, before);
      Ok(Modify(m))
  }

  /** `currentYear(income)`: the income spread over its months overrides those
    * months of the current incomes, and only their contributions are
    * recomputed. Fails when the income covers no month or a negative number of them. */
  function CurrentYear(calculators: seq<(int, MonthlyCalculator)>, s: IncomeTaxState, income: Income)
    : (r: Result<IncomeTaxState, ArithError>)
    requires calculators != [] && ValidIncome(income)
    ensures r.Err? <==> MonthCount(income) <= 0
    ensures r.Ok? ==> r.value.contributorId == s.contributorId && r.value.isRegistered == s.isRegistered
                      && r.value.registeredDate == s.registeredDate
    ensures r.Ok? ==> r.value.contributionYear == s.contributionYear
                      && r.value.previousYearlyIncomes == s.previousYearlyIncomes
    ensures r.Ok? ==>
      var spread := SpreadOutOverMonths(income).value;
      r.value.currentIncomes.Keys == s.currentIncomes.Keys + spread.Keys
      && (forall m :: m in spread ==> r.value.currentIncomes[m] == spread[m])
      && (forall m :: m in s.currentIncomes && m !in spread ==> r.value.currentIncomes[m] == s.currentIncomes[m])
      && r.value.contributions.contributions.Keys == s.contributions.contributions.Keys + spread.Keys
      && (forall m :: m in spread ==>
            r.value.contributions.contributions[m] == CalculateContributions(calculators, s.contributionYear, spread)[m])
      && (forall m :: m in s.contributions.contributions && m !in spread ==>
            r.value.contributions.contributions[m] == s.contributions.contributions[m])
  {
    match SpreadOutOverMonths(income)
    case Err(e) => Err(e)
    case Ok(spread) =>
      var contributions := Update(s.contributions, CalculateContributions(calculators, s.contributionYear, spread));
      var m := NewModifier(s);
      var m := WithNewCurrentIncomes(m, s.currentIncomes + spread);
      var m := WithNewContributionState(m, contributions);
      Ok(Modify(m))
  }

  /** `newYear()`: the months of the closing year are added up; the total is
    * recorded as the closing year's income and spread again over the twelve
    * months of the next year, whose contributions are computed with the
    * calculator of the closing year. */
  function NewYear(calculators: seq<(int, MonthlyCalculator)>, s: IncomeTaxState): (r: IncomeTaxState)
    requires calculators != []
    ensures r.contributorId == s.contributorId && r.isRegistered == s.isRegistered
            && r.registeredDate == s.registeredDate
    ensures r.contributionYear == s.contributionYear + 1
    ensures r.previousYearlyIncomes == s.previousYearlyIncomes[s.contributionYear :=
      YearIncome(SumAmounts(s.currentIncomes, Range(1, 12)), s.contributionYear, System)]
    ensures r.currentIncomes == s.currentIncomes + NextYearSpread(s)
    ensures r.contributions == Update(s.contributions, CalculateContributions(calculators, s.contributionYear, NextYearSpread(s)))
  {
    var nextYear := s.contributionYear + 1;
    var total := SumAmounts(s.currentIncomes, Range(1, 12));
    var previous := s.previousYearlyIncomes[s.contributionYear := YearIncome(total, s.contributionYear, System)];
    var spread := NextYearSpread(s);
    var contributions := Update(s.contributions, CalculateContributions(calculators, s.contributionYear, spread));
    var m := NewModifier(s);
    var m := WithNewContributionYear(m, nextYear);
    var m := WithNewPreviousYearlyIncome(m, previous);
    var m := WithNewCurrentIncomes(m, spread);
    var m := WithNewContributionState(m, contributions);
    MergeOverSuperset(s.previousYearlyIncomes, previous);
    Modify(m)
  }

  /** The closing year's total, as a system income, spread over the next year. */
  function NextYearSpread(s: IncomeTaxState): (r: map<int, Income>)
    ensures forall m :: m in r <==> 1 <= m <= 12
    ensures forall m :: m in r ==> r[m].start.date.year == s.contributionYear + 1 && r[m].kind == System
    ensures SumAmounts(r, Range(1, 12)) == SumAmounts(s.currentIncomes, Range(1, 12))
  {
    var total := SumAmounts(s.currentIncomes, Range(1, 12));
    YearIncomeSpread(total, s.contributionYear + 1, System);
    SpreadOutOverMonths(YearIncome(total, s.contributionYear + 1, System)).value
  }

  // ---- properties ---------------------------------------------------------------

  /** Every month key of the state is a month number. */
  predicate MonthKeyed(s: IncomeTaxState)
  {
    s.currentIncomes.Keys <= MonthNumbers && s.contributions.contributions.Keys <= MonthNumbers
  }

  /** A fresh state is month-keyed. */
  lemma FreshStateIsMonthKeyed(id: string, registered: bool, date: DateTime, previous: Income)
    ensures MonthKeyed(Of(id, registered, date, previous))
  {
  }

  /** Registration keeps the state month-keyed. */
  lemma BeforeRegistrationKeepsMonthKeys(calculators: seq<(int, MonthlyCalculator)>, s: IncomeTaxState, income: Income)
    requires calculators != [] && MonthKeyed(s) && MonthCount(income) != 0
    ensures MonthKeyed(BeforeRegistration(calculators, s, income).value)
  {
    var r := BeforeRegistration(calculators, s, income).value;
    var spread := YearSpread(income, s.registeredDate.date.year);
    assert r.currentIncomes.Keys == s.currentIncomes.Keys + spread.Keys;
    assert r.contributions.contributions.Keys == s.contributions.contributions.Keys + spread.Keys;
  }

  /** A new income keeps the state month-keyed. */
  lemma CurrentYearKeepsMonthKeys(calculators: seq<(int, MonthlyCalculator)>, s: IncomeTaxState, income: Income)
    requires calculators != [] && ValidIncome(income) && MonthKeyed(s) && MonthCount(income) > 0
    ensures MonthKeyed(CurrentYear(calculators, s, income).value)
  {
  }

  /** A new year keeps the state month-keyed. */
  lemma NewYearKeepsMonthKeys(calculators: seq<(int, MonthlyCalculator)>, s: IncomeTaxState)
    requires calculators != [] && MonthKeyed(s)
    ensures MonthKeyed(NewYear(calculators, s))
  {
    var r := NewYear(calculators, s);
    var spread := NextYearSpread(s);
    assert r.currentIncomes.Keys == s.currentIncomes.Keys + spread.Keys;
    assert r.contributions.contributions.Keys == s.contributions.contributions.Keys + spread.Keys;
  }

  /** Registration spreads over the registration year: the twelve months add
    * up to the income rescaled to that year, each dated in it. */
  lemma BeforeRegistrationFillsTheYear(calculators: seq<(int, MonthlyCalculator)>, s: IncomeTaxState, income: Income)
    requires calculators != [] && MonthCount(income) != 0
    ensures var r := BeforeRegistration(calculators, s, income).value;
      SumAmounts(r.currentIncomes, Range(1, 12)) == ScaleToFullYear(income, s.registeredDate.date.year).value.amount
  {
    SumOfMergedYear(s.currentIncomes, YearSpread(income, s.registeredDate.date.year));
  }

  /** After registration each of the twelve months carries the contributions
    * its own income calls for. */
  lemma BeforeRegistrationContributions(calculators: seq<(int, MonthlyCalculator)>, s: IncomeTaxState, income: Income)
    requires calculators != [] && MonthCount(income) != 0
    ensures var r := BeforeRegistration(calculators, s, income).value;
      forall m :: 1 <= m <= 12 ==>
        r.contributions.contributions[m] == CalculateContributions(calculators, s.contributionYear, r.currentIncomes)[m]
  {
    SameMonthsCalculated(calculators, s.contributionYear, s.currentIncomes, YearSpread(income, s.registeredDate.date.year));
  }

  /** The move to a new year keeps the yearly total: the next year's twelve
    * months add up to what the closing year's months added up to, which is
    * also what is recorded for the closing year. */
  lemma NewYearKeepsTheTotal(calculators: seq<(int, MonthlyCalculator)>, s: IncomeTaxState)
    requires calculators != []
    ensures var r := NewYear(calculators, s);
      SumAmounts(r.currentIncomes, Range(1, 12)) == SumAmounts(s.currentIncomes, Range(1, 12))
      == r.previousYearlyIncomes[s.contributionYear].amount
  {
    SumOfMergedYear(s.currentIncomes, NextYearSpread(s));
  }

  /** The next year's contributions are computed with the calculator of the
    * closing year, whenever the registry has one for it. */
  lemma NewYearUsesTheClosingYearCalculator(calculators: seq<(int, MonthlyCalculator)>, s: IncomeTaxState)
    requires calculators != [] && s.contributionYear in Years(calculators)
    ensures var r := NewYear(calculators, s);
      var calculator := Lookup(calculators, s.contributionYear).value;
      forall m :: 1 <= m <= 12 ==>
        r.contributions.contributions[m] == calculator(r.currentIncomes[m].amount as real, false)
  {
    SameMonthsCalculated(calculators, s.contributionYear, s.currentIncomes, NextYearSpread(s));
  }

  /** Registering a contributor with no current income yet, as the adjusters'
    * tests do from an unregistered state: the contribution year is kept, the
    * income is filed as given for the year before it, and the current incomes
    * are exactly the twelve months of the registration year. */
  lemma RegistrationOfANewcomer(calculators: seq<(int, MonthlyCalculator)>, s: IncomeTaxState, income: Income)
    requires calculators != [] && MonthCount(income) != 0 && s.currentIncomes == map[]
    ensures var r := BeforeRegistration(calculators, s, income);
      r.Ok? && r.value.contributionYear == s.contributionYear
      && s.contributionYear - 1 in r.value.previousYearlyIncomes
      && r.value.previousYearlyIncomes[s.contributionYear - 1] == YearIncome(income.amount, s.contributionYear - 1, income.kind)
      && (forall m :: m in r.value.currentIncomes <==> 1 <= m <= 12)
      && (forall m :: m in r.value.currentIncomes ==> r.value.currentIncomes[m].start.date.year == s.registeredDate.date.year)
  {
    BeforeRegistrationRecordsTheIncome(calculators, s, income, s.contributionYear - 1);
    var r := BeforeRegistration(calculators, s, income);
    var spread := YearSpread(income, s.registeredDate.date.year);
    MergeOverSuperset(s.currentIncomes, spread);
    assert r.value.currentIncomes == spread;
  }

  /** The income a registration starts from is recorded, as a whole-year
    * income, for the year before the contribution year. */
  lemma BeforeRegistrationRecordsTheIncome(calculators: seq<(int, MonthlyCalculator)>, s: IncomeTaxState, income: Income,
                                           yearBefore: int)
    requires calculators != [] && MonthCount(income) != 0 && yearBefore == s.contributionYear - 1
    ensures var r := BeforeRegistration(calculators, s, income);
      && yearBefore in r.value.previousYearlyIncomes
      && r.value.previousYearlyIncomes[yearBefore] == YearIncome(income.amount, yearBefore, income.kind)
  {
  }

  // ---- helpers ------------------------------------------------------------------

  /** Merging a twelve-month map over any map leaves the twelve-month sums of
    * the twelve-month map. */
  lemma SumOfMergedYear(current: map<int, Income>, spread: map<int, Income>)
    requires forall m :: 1 <= m <= 12 ==> m in spread
    ensures SumAmounts(current + spread, Range(1, 12)) == SumAmounts(spread, Range(1, 12))
  {
    SumAgreeing(current + spread, spread, Range(1, 12));
  }

  /** Merging a one-entry map is setting that entry. */
  lemma MergeSingleton(a: map<int, Income>, k: int, v: Income)
    ensures a + map[k := v] == a[k := v]
  {
  }

  /** Merging a map over one that has all its keys gives the latter. */
  lemma MergeOverSuperset(a: map<int, Income>, b: map<int, Income>)
    requires a.Keys <= b.Keys
    ensures a + b == b
  {
  }

  /** Two maps that agree on the keys listed have the same sum over them. */
  lemma {:induction false} SumAgreeing(a: map<int, Income>, b: map<int, Income>, months: seq<int>)
    requires forall i :: 0 <= i < |months| ==> (months[i] in a <==> months[i] in b)
    requires forall i :: 0 <= i < |months| && months[i] in a ==> a[months[i]].amount == b[months[i]].amount
    ensures SumAmounts(a, months) == SumAmounts(b, months)
  {
    if months != [] {
      SumAgreeing(a, b, months[1..]);
    }
  }

  /** Over the months of a twelve-month map, calculating on it or on it merged
    * over other incomes is the same. */
  lemma SameMonthsCalculated(calculators: seq<(int, MonthlyCalculator)>, year: int, current: map<int, Income>, spread: map<int, Income>)
    requires calculators != []
    requires forall m :: m in spread <==> 1 <= m <= 12
    ensures forall m :: 1 <= m <= 12 ==>
      CalculateContributions(calculators, year, spread)[m] == CalculateContributions(calculators, year, current + spread)[m]
  {
  }
}
