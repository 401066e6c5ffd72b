/** The reply of the contributor aggregate (`IncomeTaxEntity.contributionsFrom`):
  * the contribution lines month by month in calendar order, their totals per
  * rule code over the year, and the yearly income. */
module ContributionReports {
  import opened Incomes
  import opened SortedKeys
  import opened ContributionStates

  datatype ContributionReport = ContributionReport(
    contributorId: string,
    year: int,
    yearlyIncome: int,
    total: map<string, real>,
    byMonth: seq<(int, MonthContributions)>)

  /** The amount of the line filed under `code` in one month, zero when none is. */
  function LineAmount(lines: MonthContributions, code: string): real
  {
    if code in lines then lines[code].amount else 0.0
  }

  /** The amounts filed under `code` over the listed months, added up. */
  function CodeTotal(yearly: map<int, MonthContributions>, months: seq<int>, code: string): real
  {
    if months == [] then 0.0
    else (if months[0] in yearly then LineAmount(yearly[months[0]], code) else 0.0)
         + CodeTotal(yearly, months[1..], code)
  }

  /** The codes filed in any of the listed months. */
  function CodesIn(yearly: map<int, MonthContributions>, months: seq<int>): (r: set<string>)
    ensures forall code :: code in r <==> exists m :: m in months && m in yearly && code in yearly[m]
  {
    if months == [] then {}
    else
      var rest := CodesIn(yearly, months[1..]);
      assert forall m :: m in months <==> m == months[0] || m in months[1..];
      (if months[0] in yearly then yearly[months[0]].Keys else {}) + rest
  }

  /** The months that have lines, each with its lines, in calendar order. */
  function MonthEntries(yearly: map<int, MonthContributions>): (r: seq<(int, MonthContributions)>)
    ensures forall i, j :: 0 <= i < j < |r| ==> r[i].0 < r[j].0
    ensures forall i :: 0 <= i < |r| ==> r[i].0 in yearly && r[i].1 == yearly[r[i].0]
    ensures |r| == |MonthsAscending(yearly.Keys)|
    ensures forall i :: 0 <= i < |r| ==> r[i].0 == MonthsAscending(yearly.Keys)[i]
  {
    Entries(yearly, MonthsAscending(yearly.Keys))
  }

  /** Every code filed in some month, with its amounts added up over the months. */
  function Totals(yearly: map<int, MonthContributions>): (r: map<string, real>)
    ensures forall code :: code in r <==> exists m :: 1 <= m <= 12 && m in yearly && code in yearly[m]
    ensures forall code :: code in r ==> r[code] == CodeTotal(yearly, MonthsAscending(yearly.Keys), code)
  {
    var months := MonthsAscending(yearly.Keys);
    var codes := CodesIn(yearly, months);
    map code | code in codes :: CodeTotal(yearly, months, code)
  }

  /** `contributionsFrom(id, year, currentIncomes, yearlyContributions)`. The
    * lines are grouped by the code they are filed under; the calculators file
    * every line under its own code (BaseCalculator.LinesAreFiledUnderTheirCode,
    * Calculator2018.LinesAreFiledUnderTheirCode), so this is grouping by code. */
  function ContributionsFrom(contributorId: string, year: int, currentIncomes: map<int, Income>,
                             yearlyContributions: map<int, MonthContributions>): (r: ContributionReport)
    ensures r.contributorId == contributorId && r.year == year
    ensures forall i, j :: 0 <= i < j < |r.byMonth| ==> r.byMonth[i].0 < r.byMonth[j].0
    ensures forall i :: 0 <= i < |r.byMonth| ==>
      r.byMonth[i].0 in yearlyContributions && r.byMonth[i].1 == yearlyContributions[r.byMonth[i].0]
    ensures forall code :: code in r.total <==>
      exists m :: 1 <= m <= 12 && m in yearlyContributions && code in yearlyContributions[m]
    ensures r.yearlyIncome == SumAmounts(currentIncomes, MonthsAscending(currentIncomes.Keys))
  {
    ContributionReport(contributorId, year, SumAmounts(currentIncomes, MonthsAscending(currentIncomes.Keys)),
                       Totals(yearlyContributions), MonthEntries(yearlyContributions))
  }

  // ---- properties ------------------------------------------------------------

  /** Every month of the year that has lines is listed. */
  lemma EveryMonthListed(contributorId: string, year: int, currentIncomes: map<int, Income>,
                         yearlyContributions: map<int, MonthContributions>, m: int)
    requires 1 <= m <= 12 && m in yearlyContributions
    ensures var r := ContributionsFrom(contributorId, year, currentIncomes, yearlyContributions);
      exists i :: 0 <= i < |r.byMonth| && r.byMonth[i].0 == m
  {
    var months := MonthsAscending(yearlyContributions.Keys);
    var r := ContributionsFrom(contributorId, year, currentIncomes, yearlyContributions);
    assert m in months;
    var i :| 0 <= i < |months| && months[i] == m;
    assert r.byMonth[i].0 == m;
  }

  /** A code's total is what each month contributes under it, added up over
    * the months in calendar order. */
  lemma TotalIsSumOverMonths(contributorId: string, year: int, currentIncomes: map<int, Income>,
                             yearlyContributions: map<int, MonthContributions>, code: string)
    ensures var r := ContributionsFrom(contributorId, year, currentIncomes, yearlyContributions);
      code in r.total ==> r.total[code] == CodeTotal(yearlyContributions, Range(1, 12), code)
  {
    FilterKeepsTotal(yearlyContributions, Range(1, 12), code);
  }

  /** Replacing the lines of one month (what `ContributionState.update` does)
    * moves every code's total by exactly the difference of that month. */
  lemma {:induction false} ReplacedMonthMovesTotal(yearly: map<int, MonthContributions>, months: seq<int>,
                                                   m: int, lines: MonthContributions, code: string)
    requires StrictlyAscending(months) && m in yearly
    ensures CodeTotal(yearly[m := lines], months, code)
         == CodeTotal(yearly, months, code)
            + (if m in months then LineAmount(lines, code) - LineAmount(yearly[m], code) else 0.0)
  {
    if months != [] {
      ReplacedMonthMovesTotal(yearly, months[1..], m, lines, code);
      if months[0] == m {
        assert m !in months[1..];
      }
    }
  }

  /** Months without lines add nothing, so listing only the months that have
    * lines gives the same totals. */
  lemma {:induction false} FilterKeepsTotal(yearly: map<int, MonthContributions>, months: seq<int>, code: string)
    ensures CodeTotal(yearly, Filter(months, yearly.Keys), code) == CodeTotal(yearly, months, code)
  {
    if months != [] {
      FilterKeepsTotal(yearly, months[1..], code);
    }
  }

  /** When every month of the year holds incomes, the yearly income is the sum
    * over the twelve months. */
  lemma FullYearIncome(contributorId: string, year: int, currentIncomes: map<int, Income>,
                       yearlyContributions: map<int, MonthContributions>)
    requires forall m :: 1 <= m <= 12 ==> m in currentIncomes
    ensures ContributionsFrom(contributorId, year, currentIncomes, yearlyContributions).yearlyIncome
         == SumAmounts(currentIncomes, Range(1, 12))
  {
    FilterOfAll(Range(1, 12), currentIncomes.Keys);
  }

  lemma {:induction false} FilterOfAll(s: seq<int>, keys: set<int>)
    requires forall i :: 0 <= i < |s| ==> s[i] in keys
    ensures Filter(s, keys) == s
  {
    if s != [] {
      FilterOfAll(s[1..], keys);
    }
  }
}
