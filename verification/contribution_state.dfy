/** The per-month contribution lines of a contributor: for each month
  * number, the contributions keyed by rule code. */
module ContributionStates {
  import opened Incomes

  type MonthContributions = map<string, Contribution>

  datatype ContributionState = ContributionState(contributions: map<int, MonthContributions>)

  const MonthNumbers: set<int> := set m | 1 <= m <= 12

  /** `empty()`: every month present, each without any contribution. */
  function Empty(): (r: ContributionState)
    ensures forall m :: m in r.contributions <==> 1 <= m <= 12
    ensures forall m :: m in r.contributions ==> r.contributions[m] == map[]
  {
    ContributionState(map m | m in MonthNumbers :: map[])
  }

  /** `update(m)`: each month of `m` gets m's lines as a whole (no merge per
    * rule), every other month keeps its lines. */
  function Update(s: ContributionState, newContributions: map<int, MonthContributions>): (r: ContributionState)
    ensures r.contributions.Keys == s.contributions.Keys + newContributions.Keys
    ensures forall m :: m in newContributions ==> r.contributions[m] == newContributions[m]
    ensures forall m :: m in s.contributions && m !in newContributions ==> r.contributions[m] == s.contributions[m]
  {
    ContributionState(s.contributions + newContributions)
  }

  // ---- properties ---------------------------------------------------------------

  /** Updating with nothing changes nothing. */
  lemma UpdateWithNothing(s: ContributionState)
    ensures Update(s, map[]) == s
  {
    assert Update(s, map[]).contributions == s.contributions;
  }

  /** Two updates in a row are one update with the later lines winning. */
  lemma UpdatesCompose(s: ContributionState, first: map<int, MonthContributions>, second: map<int, MonthContributions>)
    ensures Update(Update(s, first), second) == Update(s, first + second)
  {
    assert Update(Update(s, first), second).contributions == Update(s, first + second).contributions;
  }

  /** Updating the empty state with any months keeps the twelve months and
    * replaces exactly the given ones. */
  lemma UpdateOfEmpty(newContributions: map<int, MonthContributions>)
    requires forall m :: m in newContributions ==> 1 <= m <= 12
    ensures forall m :: m in Update(Empty(), newContributions).contributions <==> 1 <= m <= 12
    ensures forall m :: 1 <= m <= 12 && m !in newContributions ==> Update(Empty(), newContributions).contributions[m] == map[]
  {
  }
}
