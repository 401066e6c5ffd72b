/** The commands of the contributor aggregate (`IncomeTaxCommand` of the income
  * service) and their constructors, which reject missing arguments. A Java
  * `null` argument is an `Option` that is `None`. */
module DomainCommands {
  import opened Results
  import opened Calendar
  import opened Incomes
  import opened DateUtils
  import opened IncomeUtils
  import opened ContributionStates

  datatype Command =
    | Register(contributorId: string, registrationDate: DateTime, previousYearlyIncome: Income,
               givenContributions: Option<map<int, MonthContributions>>)
    | ApplyIncome(contributorId: string, income: Income, scaleToEnd: bool, dryRun: bool,
                  contributions: map<int, MonthContributions>)

  /** The `NullPointerException` of a precondition check, with the argument
    * name it reports (`None` when the check names none). */
  datatype ConstructionError = NullArgument(name: Option<string>)

  predicate ValidCommand(c: Command)
  {
    match c
    case Register(_, date, previous, _) => ValidDateTime(date) && ValidIncome(previous)
    case ApplyIncome(_, income, _, _, _) => ValidIncome(income)
  }

  /** `new Register(id, date, previousYearlyIncome, contributions)`: the first
    * three are required, in that order; the contributions may be absent. */
  function NewRegister(contributorId: Option<string>, registrationDate: Option<DateTime>,
                       previousYearlyIncome: Option<Income>, contributions: Option<map<int, MonthContributions>>)
    : (r: Result<Command, ConstructionError>)
    ensures r.Ok? <==> contributorId.Some? && registrationDate.Some? && previousYearlyIncome.Some?
    ensures contributorId.None? ==> r == Err(NullArgument(Some("contributorId")))
    ensures contributorId.Some? && registrationDate.None? ==> r == Err(NullArgument(Some("registrationDate")))
    ensures contributorId.Some? && registrationDate.Some? && previousYearlyIncome.None? ==>
      r == Err(NullArgument(Some("previousYearlyIncome")))
    ensures r.Ok? ==>
      && r.value.Register? && r.value.contributorId == contributorId.value
      && r.value.registrationDate == registrationDate.value
      && r.value.previousYearlyIncome == previousYearlyIncome.value && r.value.givenContributions == contributions
  {
    if contributorId.None? then Err(NullArgument(Some("contributorId")))
    else if registrationDate.None? then Err(NullArgument(Some("registrationDate")))
    else if previousYearlyIncome.None? then Err(NullArgument(Some("previousYearlyIncome")))
    else Ok(Register(contributorId.value, registrationDate.value, previousYearlyIncome.value, contributions))
  }

  /** The previous yearly income the amount form of `Register` builds: from the
    * first to the last instant of the year before registration, in the
    * registration's offset. */
  function PreviousYear(registrationDate: DateTime, amount: int, kind: IncomeType): (r: Income)
    requires ValidDateTime(registrationDate)
    ensures ValidIncome(r) && r.amount == amount && r.kind == kind
    ensures var year := registrationDate.date.year - 1;
      && r.start.date == Date(year, 1, 1) && r.start.nanoOfDay == StartOfDay
      && r.end.date == Date(year, 12, 31) && r.end.nanoOfDay == EndOfDay
      && r.start.offsetSeconds == r.end.offsetSeconds == registrationDate.offsetSeconds
  {
    var lastYear := DateTime(MinusYears(registrationDate.date, 1), registrationDate.nanoOfDay, registrationDate.offsetSeconds);
    Income(amount, kind, MinFirstDayOfYear(lastYear), MaxLastDayOfYear(lastYear))
  }

  /** `new Register(id, date, amount, type, contributions)`: the id (reported
    * as "name"), the date and the type are required, in that order. */
  function NewRegisterFromAmount(contributorId: Option<string>, registrationDate: Option<DateTime>, amount: int,
                                 kind: Option<IncomeType>, contributions: Option<map<int, MonthContributions>>)
    : (r: Result<Command, ConstructionError>)
    requires registrationDate.Some? ==> ValidDateTime(registrationDate.value)
    ensures r.Ok? <==> contributorId.Some? && registrationDate.Some? && kind.Some?
    ensures contributorId.None? ==> r == Err(NullArgument(Some("name")))
    ensures contributorId.Some? && registrationDate.None? ==> r == Err(NullArgument(Some("registrationDate")))
    ensures contributorId.Some? && registrationDate.Some? && kind.None? ==> r == Err(NullArgument(Some("incomeType")))
    ensures r.Ok? ==>
      && r.value.Register? && r.value.contributorId == contributorId.value
      && r.value.registrationDate == registrationDate.value && r.value.givenContributions == contributions
    ensures r.Ok? ==> r.value.previousYearlyIncome == PreviousYear(registrationDate.value, amount, kind.value)
  {
    if contributorId.None? then Err(NullArgument(Some("name")))
    else if registrationDate.None? then Err(NullArgument(Some("registrationDate")))
    else if kind.None? then Err(NullArgument(Some("incomeType")))
    else Ok(Register(contributorId.value, registrationDate.value,
                     PreviousYear(registrationDate.value, amount, kind.value), contributions))
  }

  /** `new ApplyIncome(id, income, scaleToEnd, dryRun, contributions)`: the id,
    * the income and the contributions are required, in that order; the last
    * check names no argument. The flags are kept as given. */
  function NewApplyIncome(contributorId: Option<string>, income: Option<Income>, scaleToEnd: bool, dryRun: bool,
                          contributions: Option<map<int, MonthContributions>>)
    : (r: Result<Command, ConstructionError>)
    ensures r.Ok? <==> contributorId.Some? && income.Some? && contributions.Some?
    ensures contributorId.None? ==> r == Err(NullArgument(Some("contributorId")))
    ensures contributorId.Some? && income.None? ==> r == Err(NullArgument(Some("income")))
    ensures contributorId.Some? && income.Some? && contributions.None? ==> r == Err(NullArgument(None))
    ensures r.Ok? ==>
      && r.value.ApplyIncome? && r.value.contributorId == contributorId.value
      && r.value.income == income.value && r.value.contributions == contributions.value
      && r.value.scaleToEnd == scaleToEnd && r.value.dryRun == dryRun
  {
    if contributorId.None? then Err(NullArgument(Some("contributorId")))
    else if income.None? then Err(NullArgument(Some("income")))
    else if contributions.None? then Err(NullArgument(None))
    else Ok(ApplyIncome(contributorId.value, income.value, scaleToEnd, dryRun, contributions.value))
  }

  // ---- properties ------------------------------------------------------------

  /** The previous yearly income built from an amount covers twelve months, so
    * rescaling it to its own year leaves the amount as given. */
  lemma AmountFormCoversTheYear(registrationDate: DateTime, amount: int, kind: IncomeType)
    requires ValidDateTime(registrationDate)
    ensures MonthCount(PreviousYear(registrationDate, amount, kind)) == 12
    ensures ScaleToOwnFullYear(PreviousYear(registrationDate, amount, kind)).value.amount == amount
  {
    var year := registrationDate.date.year - 1;
    PeriodMonthsWithinYear(Date(year, 1, 1), Date(year, 12, 31));
  }
}
