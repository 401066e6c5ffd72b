/** The contributor state of the calculator service (`domain.IncomeTaxState`
  * of calculator-impl), the generation before the income service's: no
  * registration flag, contribution lines keyed by rule, and a `Modifier`
  * whose setters replace whole maps instead of merging into them. */
module OlderDomainState {
  import opened Calendar
  import opened Incomes
  import DomainState
  import ContributionStates

  datatype OlderState = OlderState(
    contributorId: string,
    registeredDate: DateTime,
    previousYearlyIncomes: map<int, Income>,
    contributionYear: int,
    currentIncomes: map<int, Income>,
    contributions: map<string, Contribution>)

  /** An `IncomeAdjuster`: a rewrite of the whole state. */
  type Adjuster = OlderState -> OlderState

  /** The private three-argument constructor: the previous yearly income is
    * kept under the year before registration, the registration year is the
    * contribution year, and no income and no contribution is known yet. */
  function Base(contributorId: string, registeredDate: DateTime, previousYearlyIncome: Income): (r: OlderState)
    ensures r.contributorId == contributorId && r.registeredDate == registeredDate
    ensures r.contributionYear == registeredDate.date.year
    ensures registeredDate.date.year - 1 in r.previousYearlyIncomes && |r.previousYearlyIncomes| == 1
    ensures r.previousYearlyIncomes[registeredDate.date.year - 1] == previousYearlyIncome
    ensures r.currentIncomes == map[] && r.contributions == map[]
  {
    OlderState(contributorId, registeredDate, map[registeredDate.date.year - 1 := previousYearlyIncome],
               registeredDate.date.year, map[], map[])
  }

  /** `with(adjuster)`. */
  function With(s: OlderState, adjuster: Adjuster): (r: OlderState)
    ensures r == adjuster(s)
  {
    adjuster(s)
  }

  /** `of(id, date, previous)`: the fresh state, then the new-year adjuster
    * built from the previous income. That adjuster is not part of this model,
    * so it is a parameter. */
  function Of(newYear: Income -> Adjuster, contributorId: string, registeredDate: DateTime, previousYearlyIncome: Income)
    : (r: OlderState)
    ensures r == newYear(previousYearlyIncome)(Base(contributorId, registeredDate, previousYearlyIncome))
  {
    With(Base(contributorId, registeredDate, previousYearlyIncome), newYear(previousYearlyIncome))
  }

  /** `empty`: "nobody", registered at the clock reading `now`, with a zero
    * previous income. */
  function Empty(now: DateTime): (r: OlderState)
    ensures r.contributorId == "nobody" && r.registeredDate == now
    ensures now.date.year - 1 in r.previousYearlyIncomes && r.previousYearlyIncomes[now.date.year - 1] == Zero
  {
    Base("nobody", now, Zero)
  }

  /** The builder: the state it started from and the three maps set so far. */
  datatype Modifier = Modifier(
    current: OlderState,
    previousYearlyIncomes: map<int, Income>,
    currentIncomes: map<int, Income>,
    contributions: map<string, Contribution>)

  function NewModifier(s: OlderState): (r: Modifier)
    ensures r.current == s
    ensures r.previousYearlyIncomes == s.previousYearlyIncomes && r.currentIncomes == s.currentIncomes
    ensures r.contributions == s.contributions
  {
    Modifier(s, s.previousYearlyIncomes, s.currentIncomes, s.contributions)
  }

  /** The setters replace their map and leave the rest of the builder alone. */
  function WithNewPreviousYearlyIncome(m: Modifier, incomes: map<int, Income>): (r: Modifier)
    ensures r.previousYearlyIncomes == incomes
    ensures r.(previousYearlyIncomes := m.previousYearlyIncomes) == m
  {
    m.(previousYearlyIncomes := incomes)
  }

  function WithNewCurrentIncomes(m: Modifier, incomes: map<int, Income>): (r: Modifier)
    ensures r.currentIncomes == incomes
    ensures r.(currentIncomes := m.currentIncomes) == m
  {
    m.(currentIncomes := incomes)
  }

  function WithNewContributions(m: Modifier, contributions: map<string, Contribution>): (r: Modifier)
    ensures r.contributions == contributions
    ensures r.(contributions := m.contributions) == m
  {
    m.(contributions := contributions)
  }

  /** `modify()`: identity, registration date and contribution year come from
    * the state the builder started from, the maps from the builder. */
  function Modify(m: Modifier): (r: OlderState)
    ensures r.contributorId == m.current.contributorId && r.registeredDate == m.current.registeredDate
    ensures r.contributionYear == m.current.contributionYear
    ensures r.previousYearlyIncomes == m.previousYearlyIncomes && r.currentIncomes == m.currentIncomes
    ensures r.contributions == m.contributions
  {
    OlderState(m.current.contributorId, m.current.registeredDate, m.previousYearlyIncomes,
               m.current.contributionYear, m.currentIncomes, m.contributions)
  }

  // ---- properties ---------------------------------------------------------------

  /** A builder nobody touched rebuilds the state it started from. */
  lemma UntouchedModifierRebuilds(s: OlderState)
    ensures Modify(NewModifier(s)) == s
  {
  }

  /** The last value set wins: setting twice is setting the second value. */
  lemma LastSetterWins(m: Modifier, first: map<int, Income>, second: map<int, Income>)
    ensures WithNewCurrentIncomes(WithNewCurrentIncomes(m, first), second) == WithNewCurrentIncomes(m, second)
    ensures WithNewPreviousYearlyIncome(WithNewPreviousYearlyIncome(m, first), second)
         == WithNewPreviousYearlyIncome(m, second)
  {
  }

  /** Setters of different maps do not interfere, whatever their order. */
  lemma SettersCommute(m: Modifier, previous: map<int, Income>, current: map<int, Income>,
                       contributions: map<string, Contribution>)
    ensures WithNewCurrentIncomes(WithNewPreviousYearlyIncome(m, previous), current)
         == WithNewPreviousYearlyIncome(WithNewCurrentIncomes(m, current), previous)
    ensures WithNewContributions(WithNewCurrentIncomes(m, current), contributions)
         == WithNewCurrentIncomes(WithNewContributions(m, contributions), current)
  {
  }

  /** No builder changes the contribution year: a state rebuilt from it keeps
    * the year of the state it started from, whatever was set. */
  lemma ModifyKeepsTheYear(s: OlderState, previous: map<int, Income>, current: map<int, Income>,
                           contributions: map<string, Contribution>)
    ensures var r := Modify(WithNewContributions(WithNewCurrentIncomes(
                       WithNewPreviousYearlyIncome(NewModifier(s), previous), current), contributions));
      r.contributionYear == s.contributionYear && r.contributorId == s.contributorId
      && r.registeredDate == s.registeredDate
      && r.previousYearlyIncomes == previous && r.currentIncomes == current && r.contributions == contributions
  {
  }

  /** With an adjuster that changes nothing, `of` is the fresh state. */
  lemma OfWithoutNewYear(contributorId: string, registeredDate: DateTime, previousYearlyIncome: Income)
    ensures Of((i: Income) => (s: OlderState) => s, contributorId, registeredDate, previousYearlyIncome)
         == Base(contributorId, registeredDate, previousYearlyIncome)
  {
  }

  /** Unlike the income service's builder, which merges, this one replaces:
    * setting the current incomes of a state that knows March to a map of
    * April alone forgets March here and keeps it there. */
  lemma ReplacingForgetsWhatMergingKeeps(s: OlderState, march: Income, april: Income)
    requires s.currentIncomes == map[3 := march]
    ensures 3 !in Modify(WithNewCurrentIncomes(NewModifier(s), map[4 := april])).currentIncomes
    ensures var newer := DomainState.IncomeTaxState(s.contributorId, true, s.registeredDate, s.previousYearlyIncomes,
                                                    s.contributionYear, s.currentIncomes, ContributionStates.Empty());
      var merged := DomainState.Modify(DomainState.WithNewCurrentIncomes(DomainState.NewModifier(newer), map[4 := april]));
      3 in merged.currentIncomes && merged.currentIncomes[3] == march && merged.currentIncomes[4] == april
  {
  }
}
