/** The contributor state of the first generation of the calculator service
  * (`income.tax.impl.IncomeTaxState`): previous incomes by year, the current
  * incomes as a list, and contribution lines by contribution type. */
module LegacyState {
  import opened Results
  import opened Calendar
  import opened Incomes

  /** The ten contribution types, each with its rule code. */
  datatype ContributionType =
    | Maladie1T2 | Maladie1T1 | Maladie2 | RetraiteT1 | RetraiteT2
    | RetraiteComplementaireT1 | RetraiteComplementaireT2 | InvaliditeDeces
    | AllocationsFamiliales | CsgCrds

  function Code(t: ContributionType): (r: string)
    ensures |r| > 0
  {
    match t
    case Maladie1T2 => "MLD1T2"
    case Maladie1T1 => "MLD1T1"
    case Maladie2 => "MLD2"
    case RetraiteT1 => "RVB T1"
    case RetraiteT2 => "RVB T2"
    case RetraiteComplementaireT1 => "RCI T1"
    case RetraiteComplementaireT2 => "RCI T2"
    case InvaliditeDeces => "RID"
    case AllocationsFamiliales => "AF"
    case CsgCrds => "CSG/CRDS"
  }

  datatype LegacyContribution = LegacyContribution(
    kind: ContributionType, rate: real, baseIncome: real, income: real, cell: real)

  datatype LegacyState = LegacyState(
    contributorId: string,
    registeredDate: DateTime,
    yearlyPreviousIncomes: map<int, Income>,
    contributionYear: int,
    currentIncomes: seq<Income>,
    contributions: map<ContributionType, LegacyContribution>)

  /** Every date of the state is a real date-time. */
  predicate ValidLegacyState(s: LegacyState)
  {
    ValidDateTime(s.registeredDate)
    && (forall y :: y in s.yearlyPreviousIncomes ==> ValidIncome(s.yearlyPreviousIncomes[y]))
    && (forall i :: 0 <= i < |s.currentIncomes| ==> ValidIncome(s.currentIncomes[i]))
  }

  /** What an adjuster throws: an `ArithmeticException` of an exact division,
    * or a `NullPointerException` on a month that has no income. */
  datatype Failure = Arithmetic(cause: ArithError) | NullIncome(month: int)

  /** An `IncomeAdjuster`. */
  type Adjuster = LegacyState -> Result<LegacyState, Failure>

  /** The two-argument constructor: nothing known yet, the contribution year
    * being the year of registration. */
  function Fresh(contributorId: string, registeredDate: DateTime): (r: LegacyState)
    ensures r.contributorId == contributorId && r.registeredDate == registeredDate
    ensures r.contributionYear == registeredDate.date.year
    ensures r.yearlyPreviousIncomes == map[] && r.currentIncomes == [] && r.contributions == map[]
  {
    LegacyState(contributorId, registeredDate, map[], registeredDate.date.year, [], map[])
  }

  /** `empty`, for the clock reading `now`. */
  function Empty(now: DateTime): (r: LegacyState)
    ensures r.contributorId == "nobody" && r.registeredDate == now
    ensures r == Fresh("nobody", now)
  {
    Fresh("nobody", now)
  }

  /** The state a registration event starts over from. The constructor the
    * event handler calls, with the previous yearly income as third argument,
    * is not declared by this state; it is taken to keep that income under the
    * year before registration, as the constructor of the same shape in the
    * next generation does. */
  function Registered(contributorId: string, registeredDate: DateTime, previousYearlyIncome: Income): (r: LegacyState)
    ensures r.contributorId == contributorId && r.registeredDate == registeredDate
    ensures r.contributionYear == registeredDate.date.year
    ensures registeredDate.date.year - 1 in r.yearlyPreviousIncomes && |r.yearlyPreviousIncomes| == 1
    ensures r.yearlyPreviousIncomes[registeredDate.date.year - 1] == previousYearlyIncome
    ensures r.currentIncomes == [] && r.contributions == map[]
  {
    Fresh(contributorId, registeredDate).(yearlyPreviousIncomes := map[registeredDate.date.year - 1 := previousYearlyIncome])
  }

  /** `applyIncome`: a stub that ignores the income. */
  function ApplyIncome(s: LegacyState, income: Income): (r: LegacyState)
    ensures r == s
  {
    s
  }

  /** `with(adjuster)`. */
  function With(s: LegacyState, adjuster: Adjuster): (r: Result<LegacyState, Failure>)
    ensures r == adjuster(s)
  {
    adjuster(s)
  }

  // ---- properties ---------------------------------------------------------------

  /** A registration differs from the fresh state only by the previous income. */
  lemma RegisteredExtendsFresh(contributorId: string, registeredDate: DateTime, previousYearlyIncome: Income)
    ensures var r := Registered(contributorId, registeredDate, previousYearlyIncome);
      r.(yearlyPreviousIncomes := map[]) == Fresh(contributorId, registeredDate)
  {
  }

  /** The rule codes tell the types apart. */
  lemma CodesAreDistinct(a: ContributionType, b: ContributionType)
    ensures Code(a) == Code(b) <==> a == b
  {
  }
}
