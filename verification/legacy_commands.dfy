/** The commands of the first generation of the calculator service
  * (`income.tax.impl.IncomeTaxCommand`) and their constructors, which reject
  * missing arguments. A Java `null` argument is an `Option` that is `None`. */
module LegacyCommands {
  import opened Results
  import opened Calendar
  import opened Incomes
  import opened DateUtils
  import opened Decimals
  import DomainCommands
  import LegacyAdjusters
  import LegacyState

  datatype Command =
    | Register(contributorId: string, registrationDate: DateTime, previousYearlyIncome: Income)
    | ApplyIncome(contributorId: string, income: Income)

  /** The `NullPointerException` of a precondition check, with the argument
    * name it reports. */
  type ConstructionError = DomainCommands.ConstructionError

  predicate ValidCommand(c: Command)
  {
    match c
    case Register(_, date, previous) => ValidDateTime(date) && ValidIncome(previous)
    case ApplyIncome(_, income) => ValidIncome(income)
  }

  /** `new Register(id, date, previousYearlyIncome)`: all three are required,
    * in that order. */
  function NewRegister(contributorId: Option<string>, registrationDate: Option<DateTime>,
                       previousYearlyIncome: Option<Income>): (r: Result<Command, ConstructionError>)
    ensures r.Ok? <==> contributorId.Some? && registrationDate.Some? && previousYearlyIncome.Some?
    ensures contributorId.None? ==> r == Err(DomainCommands.NullArgument(Some("contributorId")))
    ensures contributorId.Some? && registrationDate.None? ==>
      r == Err(DomainCommands.NullArgument(Some("registrationDate")))
    ensures contributorId.Some? && registrationDate.Some? && previousYearlyIncome.None? ==>
      r == Err(DomainCommands.NullArgument(Some("previousYearlyIncome")))
    ensures r.Ok? ==>
      && r.value.Register? && r.value.contributorId == contributorId.value
      && r.value.registrationDate == registrationDate.value
      && r.value.previousYearlyIncome == previousYearlyIncome.value
  {
    if contributorId.None? then Err(DomainCommands.NullArgument(Some("contributorId")))
    else if registrationDate.None? then Err(DomainCommands.NullArgument(Some("registrationDate")))
    else if previousYearlyIncome.None? then Err(DomainCommands.NullArgument(Some("previousYearlyIncome")))
    else Ok(Register(contributorId.value, registrationDate.value, previousYearlyIncome.value))
  }

  /** The first instant of the year before registration, in the
    * registration's offset. */
  function LastYearStart(registrationDate: DateTime): (r: DateTime)
    requires ValidDateTime(registrationDate)
    ensures ValidDateTime(r)
    ensures r.date == Date(registrationDate.date.year - 1, 1, 1) && r.nanoOfDay == StartOfDay
    ensures r.offsetSeconds == registrationDate.offsetSeconds
  {
    MinFirstDayOfYear(DateTime(MinusYears(registrationDate.date, 1), registrationDate.nanoOfDay,
                               registrationDate.offsetSeconds))
  }

  /** The previous yearly income the amount form of `Register` builds, as
    * written: the end is the start of the year before registration too, so
    * the income covers a single instant. */
  function PreviousYearAsWritten(registrationDate: DateTime, amount: int, kind: IncomeType): (r: Income)
    requires ValidDateTime(registrationDate)
    ensures ValidIncome(r) && r.amount == amount && r.kind == kind
    ensures r.start == r.end == LastYearStart(registrationDate)
  {
    var start := LastYearStart(registrationDate);
    Income(amount, kind, start, start)
  }

  /** `new Register(id, date, amount, type)`, as written: the id (reported as
    * "name"), the date and the type are required, in that order, and the
    * previous income is `PreviousYearAsWritten`. */
  function NewRegisterFromAmount(contributorId: Option<string>, registrationDate: Option<DateTime>, amount: int,
                                 kind: Option<IncomeType>): (r: Result<Command, ConstructionError>)
    requires registrationDate.Some? ==> ValidDateTime(registrationDate.value)
    ensures r.Ok? <==> contributorId.Some? && registrationDate.Some? && kind.Some?
    ensures contributorId.None? ==> r == Err(DomainCommands.NullArgument(Some("name")))
    ensures contributorId.Some? && registrationDate.None? ==>
      r == Err(DomainCommands.NullArgument(Some("registrationDate")))
    ensures contributorId.Some? && registrationDate.Some? && kind.None? ==>
      r == Err(DomainCommands.NullArgument(Some("incomeType")))
    ensures r.Ok? ==>
      && r.value.Register? && r.value.contributorId == contributorId.value
      && r.value.registrationDate == registrationDate.value
      && r.value.previousYearlyIncome == PreviousYearAsWritten(registrationDate.value, amount, kind.value)
  {
    if contributorId.None? then Err(DomainCommands.NullArgument(Some("name")))
    else if registrationDate.None? then Err(DomainCommands.NullArgument(Some("registrationDate")))
    else if kind.None? then Err(DomainCommands.NullArgument(Some("incomeType")))
    else Ok(Register(contributorId.value, registrationDate.value,
                     PreviousYearAsWritten(registrationDate.value, amount, kind.value)))
  }

  /** The amount form of `Register` as evidently intended: the same checks,
    * with the previous income spanning the year before registration from
    * its first to its last instant, as the income service's amount form does. */
  function NewRegisterFromWholeYear(contributorId: Option<string>, registrationDate: Option<DateTime>, amount: int,
                                    kind: Option<IncomeType>): (r: Result<Command, ConstructionError>)
    requires registrationDate.Some? ==> ValidDateTime(registrationDate.value)
    ensures r.Ok? <==> contributorId.Some? && registrationDate.Some? && kind.Some?
    ensures r.Err? ==> r == NewRegisterFromAmount(contributorId, registrationDate, amount, kind)
    ensures r.Ok? ==>
      && r.value.Register? && r.value.contributorId == contributorId.value
      && r.value.registrationDate == registrationDate.value
      && r.value.previousYearlyIncome == DomainCommands.PreviousYear(registrationDate.value, amount, kind.value)
  {
    if contributorId.None? then Err(DomainCommands.NullArgument(Some("name")))
    else if registrationDate.None? then Err(DomainCommands.NullArgument(Some("registrationDate")))
    else if kind.None? then Err(DomainCommands.NullArgument(Some("incomeType")))
    else Ok(Register(contributorId.value, registrationDate.value,
                     DomainCommands.PreviousYear(registrationDate.value, amount, kind.value)))
  }

  /** `new ApplyIncome(id, income)`: both are required, in that order. */
  function NewApplyIncome(contributorId: Option<string>, income: Option<Income>): (r: Result<Command, ConstructionError>)
    ensures r.Ok? <==> contributorId.Some? && income.Some?
    ensures contributorId.None? ==> r == Err(DomainCommands.NullArgument(Some("contributorId")))
    ensures contributorId.Some? && income.None? ==> r == Err(DomainCommands.NullArgument(Some("income")))
    ensures r.Ok? ==> r.value.ApplyIncome? && r.value.contributorId == contributorId.value && r.value.income == income.value
  {
    if contributorId.None? then Err(DomainCommands.NullArgument(Some("contributorId")))
    else if income.None? then Err(DomainCommands.NullArgument(Some("income")))
    else Ok(ApplyIncome(contributorId.value, income.value))
  }

  // ---- properties ------------------------------------------------------------

  /** As written, the previous income of the amount form is taken to cover a
    * single month, whatever the registration date. */
  lemma AsWrittenCoversOneMonth(registrationDate: DateTime, amount: int, kind: IncomeType)
    requires ValidDateTime(registrationDate)
    ensures MonthCount(PreviousYearAsWritten(registrationDate, amount, kind)) == 1
  {
  }

  /** The registered previous income reaches the update through the January
    * step: an income of the registration year whose start has a later time of
    * day than the registration, itself on the first of January, finds nothing
    * before registration and, starting after January, leaves January to be
    * taken from the year before. */
  lemma JanuaryComesFromTheRegisteredIncome(contributorId: string, registrationDate: DateTime, previous: Income,
                                            income: Income)
    requires ValidDateTime(registrationDate) && ValidIncome(previous) && ValidIncome(income)
    requires income.start.date.year == registrationDate.date.year && income.start.date.month > 1
    requires IsBefore(registrationDate, WithFirstDayOfYear(income.start))
    ensures var h := LegacyAdjusters.HistoryOf(LegacyState.Registered(contributorId, registrationDate, previous));
      && !LegacyAdjusters.KnownBeforeTheYear(h, income)
      && LegacyAdjusters.MonthlyIncomes(h, income) == LegacyAdjusters.Gather(h, income, map[])
      && var withIncome := LegacyAdjusters.FromNewIncome(income, map[]);
         withIncome.Ok? ==>
           && 1 !in withIncome.value
           && LegacyAdjusters.Gather(h, income, map[]) == LegacyAdjusters.Complete(h, income, withIncome.value)
           && registrationDate.date.year - 1 in h.previousIncomes
  {
    var h := LegacyAdjusters.HistoryOf(LegacyState.Registered(contributorId, registrationDate, previous));
    assert LegacyAdjusters.FromBeforeRegistration(h, income) == Ok(map[]);
  }

  /** There, as written, January receives the whole previous income, in
    * hundredths, since that income is taken to cover a single month. */
  lemma AsWrittenJanuaryTakesTheWholeAmount(contributorId: string, registrationDate: DateTime, amount: int,
                                            kind: IncomeType, income: Income, acc: map<int, Income>)
    requires ValidDateTime(registrationDate) && ValidIncome(income)
    requires income.start.date.year == registrationDate.date.year && 1 !in acc
    ensures var s := LegacyState.Registered(contributorId, registrationDate,
                                            PreviousYearAsWritten(registrationDate, amount, kind));
      var r := LegacyAdjusters.January(LegacyAdjusters.HistoryOf(s), income, acc);
      && (r.Ok? <==> Terminates(amount, 100))
      && (r.Ok? ==> 1 in r.value && r.value[1].amount == LegacyAdjusters.ProRata(amount, 1, 1))
  {
    AsWrittenCoversOneMonth(registrationDate, amount, kind);
  }

  /** As intended, January receives a twelfth of the previous income. */
  lemma WholeYearJanuaryTakesATwelfth(contributorId: string, registrationDate: DateTime, amount: int,
                                      kind: IncomeType, income: Income, acc: map<int, Income>)
    requires ValidDateTime(registrationDate) && ValidIncome(income)
    requires income.start.date.year == registrationDate.date.year && 1 !in acc
    ensures var s := LegacyState.Registered(contributorId, registrationDate,
                                            DomainCommands.PreviousYear(registrationDate, amount, kind));
      var r := LegacyAdjusters.January(LegacyAdjusters.HistoryOf(s), income, acc);
      && (r.Ok? <==> Terminates(amount, 1200))
      && (r.Ok? ==> 1 in r.value && r.value[1].amount == LegacyAdjusters.ProRata(amount, 12, 1))
  {
    DomainCommands.AmountFormCoversTheYear(registrationDate, amount, kind);
  }

  /** Registering at midnight UTC on 1 January 2019 with 1200 and then applying
    * an income of 2019 from 10:00 UTC on 5 March: January 2019 gets 12 as
    * written, where the whole-year income gives it 1. */
  lemma AsWrittenJanuaryIsTwelveTimesTheShare()
    ensures var registrationDate := DateTime(Date(2019, 1, 1), StartOfDay, Utc);
      var income := Income(500, Real, DateTime(Date(2019, 3, 5), 10 * 3600 * NanosPerSecond, Utc),
                           DateTime(Date(2019, 3, 31), EndOfDay, Utc));
      && IsBefore(registrationDate, WithFirstDayOfYear(income.start))
      && Terminates(1200, 100) && LegacyAdjusters.ProRata(1200, 1, 1) == 12
      && Terminates(1200, 1200) && LegacyAdjusters.ProRata(1200, 12, 1) == 1
  {
    assert Gcd(1200, 100) == Gcd(100, 0) == 100;
    assert Gcd(1200, 1200) == Gcd(1200, 0) == 1200;
    assert OnlyTwosAndFives(1);
    assert 1200 as real / 100 as real * 1 as real == 12.0;
    assert 1200 as real / 1200 as real * 1 as real == 1.0;
  }
}
