/** The contributor state of the newest generation, and its `Modifier`, a
  * builder whose setters merge maps (argument entries win) except the
  * contribution-state setter, which replaces. */
module DomainState {
  import opened Results
  import opened Calendar
  import opened Incomes
  import opened IncomeUtils
  import opened ContributionStates

  datatype IncomeTaxState = IncomeTaxState(
    contributorId: string,
    isRegistered: bool,
    registeredDate: DateTime,
    previousYearlyIncomes: map<int, Income>,
    contributionYear: int,
    currentIncomes: map<int, Income>,
    contributions: ContributionState)

  /** `of(id, registered, date, previous)`: the previous yearly income is kept
    * under the year before registration, and the registration year is the
    * contribution year. */
  function Of(contributorId: string, isRegistered: bool, registeredDate: DateTime, previousYearlyIncome: Income)
    : (r: IncomeTaxState)
    ensures r.contributorId == contributorId && r.isRegistered == isRegistered && r.registeredDate == registeredDate
    ensures r.contributionYear == registeredDate.date.year
    ensures registeredDate.date.year - 1 in r.previousYearlyIncomes && |r.previousYearlyIncomes| == 1
    ensures r.previousYearlyIncomes[registeredDate.date.year - 1] == previousYearlyIncome
    ensures r.currentIncomes == map[] && r.contributions == Empty()
  {
    IncomeTaxState(contributorId, isRegistered, registeredDate,
      map[registeredDate.date.year - 1 := previousYearlyIncome], registeredDate.date.year, map[], Empty())
  }

  /** `of(id, date)`: an unregistered state with a zero previous income. */
  function OfUnregistered(contributorId: string, registeredDate: DateTime): (r: IncomeTaxState)
    ensures !r.isRegistered && r.contributorId == contributorId
    ensures r == Of(contributorId, false, registeredDate, Zero)
  {
    Of(contributorId, false, registeredDate, Zero)
  }

  /** `initial`, for the clock reading `now`. */
  function Initial(now: DateTime): (r: IncomeTaxState)
    ensures !r.isRegistered && r.contributorId == "john doe" && r.registeredDate == now
  {
    OfUnregistered("john doe", now)
  }

  /** The builder: the state it started from and the parts set so far. */
  datatype Modifier = Modifier(
    current: IncomeTaxState,
    previousYearlyIncomes: map<int, Income>,
    currentIncomes: map<int, Income>,
    contributionState: ContributionState,
    contributionYear: int)

  function NewModifier(s: IncomeTaxState): (r: Modifier)
    ensures r.current == s
    ensures r.previousYearlyIncomes == s.previousYearlyIncomes && r.currentIncomes == s.currentIncomes
    ensures r.contributionState == s.contributions && r.contributionYear == s.contributionYear
  {
    Modifier(s, s.previousYearlyIncomes, s.currentIncomes, s.contributions, s.contributionYear)
  }

  function WithNewPreviousYearlyIncome(m: Modifier, incomes: map<int, Income>): (r: Modifier)
    ensures r.previousYearlyIncomes.Keys == m.previousYearlyIncomes.Keys + incomes.Keys
    ensures forall y :: y in incomes ==> r.previousYearlyIncomes[y] == incomes[y]
    ensures forall y :: y in m.previousYearlyIncomes && y !in incomes ==> r.previousYearlyIncomes[y] == m.previousYearlyIncomes[y]
    ensures r.(previousYearlyIncomes := m.previousYearlyIncomes) == m
  {
    m.(previousYearlyIncomes := m.previousYearlyIncomes + incomes)
  }

  function WithNewCurrentIncomes(m: Modifier, incomes: map<int, Income>): (r: Modifier)
    ensures r.currentIncomes.Keys == m.currentIncomes.Keys + incomes.Keys
    ensures forall k :: k in incomes ==> r.currentIncomes[k] == incomes[k]
    ensures forall k :: k in m.currentIncomes && k !in incomes ==> r.currentIncomes[k] == m.currentIncomes[k]
    ensures r.(currentIncomes := m.currentIncomes) == m
  {
    m.(currentIncomes := m.currentIncomes + incomes)
  }

  /** `withNewIncome`: merge in the income spread over its months; the spread
    * fails with a division by zero when the income covers no month. */
  function WithNewIncome(m: Modifier, income: Income): (r: Result<Modifier, ArithError>)
    requires ValidIncome(income)
    ensures r.Err? <==> SpreadOutOverMonths(income).Err?
    ensures r.Ok? ==> r.value == WithNewCurrentIncomes(m, SpreadOutOverMonths(income).value)
  {
    match SpreadOutOverMonths(income)
    case Err(e) => Err(e)
    case Ok(spread) => Ok(m.(currentIncomes := m.currentIncomes + spread))
  }

  /** `withNewContributions(ContributionState)`: replaces the contribution state. */
  function WithNewContributionState(m: Modifier, contributions: ContributionState): (r: Modifier)
    ensures r.contributionState == contributions
    ensures r.(contributionState := m.contributionState) == m
  {
    m.(contributionState := contributions)
  }

  /** `withNewContributions(map)`: updates the contribution state month by month. */
  function WithNewContributions(m: Modifier, contributions: map<int, MonthContributions>): (r: Modifier)
    ensures r.contributionState == Update(m.contributionState, contributions)
    ensures r.(contributionState := m.contributionState) == m
  {
    m.(contributionState := Update(m.contributionState, contributions))
  }

  function WithNewContributionYear(m: Modifier, year: int): (r: Modifier)
    ensures r.contributionYear == year
    ensures r.(contributionYear := m.contributionYear) == m
  {
    m.(contributionYear := year)
  }

  /** `modify()`: identity, registration flag and date come from the state
    * the builder started from; everything else from the builder. */
  function Modify(m: Modifier): (r: IncomeTaxState)
    ensures r.contributorId == m.current.contributorId
    ensures r.isRegistered == m.current.isRegistered
    ensures r.registeredDate == m.current.registeredDate
    ensures r.previousYearlyIncomes == m.previousYearlyIncomes && r.currentIncomes == m.currentIncomes
    ensures r.contributions == m.contributionState && r.contributionYear == m.contributionYear
  {
    IncomeTaxState(m.current.contributorId, m.current.isRegistered, m.current.registeredDate,
      m.previousYearlyIncomes, m.contributionYear, m.currentIncomes, m.contributionState)
  }

  // ---- properties ---------------------------------------------------------------

  /** A builder nobody touched rebuilds the state it started from. */
  lemma UntouchedModifierRebuilds(s: IncomeTaxState)
    ensures Modify(NewModifier(s)) == s
  {
  }

  /** Merging the same entries twice is merging them once. */
  lemma MergeIsIdempotent(m: Modifier, incomes: map<int, Income>)
    ensures WithNewCurrentIncomes(WithNewCurrentIncomes(m, incomes), incomes) == WithNewCurrentIncomes(m, incomes)
  {
    assert WithNewCurrentIncomes(WithNewCurrentIncomes(m, incomes), incomes).currentIncomes
        == WithNewCurrentIncomes(m, incomes).currentIncomes;
  }

  /** The two contribution setters agree when the replacement is the update. */
  lemma ContributionSettersAgree(m: Modifier, contributions: map<int, MonthContributions>)
    ensures WithNewContributions(m, contributions) == WithNewContributionState(m, Update(m.contributionState, contributions))
  {
  }
}
