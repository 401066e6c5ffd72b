/** The contributor aggregate (`domain.IncomeTaxEntity`): command handling,
  * which validates a command and decides the events to persist, and event
  * application, which folds the events into the state through the adjusters. */
module DomainEntity {
  import opened Results
  import opened Calendar
  import opened Incomes
  import opened DateUtils
  import opened IncomeUtils
  import opened SortedKeys
  import opened ContributionStates
  import opened DomainState
  import opened DomainAdjusters
  import opened DomainCommands
  import opened ContributionReports

  datatype Event =
    | Registered(contributorId: string, registrationDate: DateTime, previousYearlyIncome: Income)
    | ContributionScheduleStarted(contributorId: string, previousYearlyIncome: Income)
    | IncomeApplied(contributorId: string, income: Income, createdAt: DateTime)
    | PreviousIncomeApplied(contributorId: string, income: Income)

  /** A command failure, named after the message it reports, or the exception
    * an arithmetic step raises. */
  datatype Error =
    | AlreadyRegistered(contributorId: string)
    | NotRegisteredYet(contributorId: string)
    | IllegalPeriod(start: DateTime, end: DateTime)
    | NotSingleYearPeriod(start: DateTime, end: DateTime)
    | NotCurrentContributionYear(start: DateTime, end: DateTime)
    | Arithmetic(cause: ArithError)

  predicate ValidEvent(e: Event)
  {
    match e
    case IncomeApplied(_, income, _) => ValidIncome(income)
    case _ => true
  }

  /** `checkIncomeCommandArguments`: the contributor must be registered; then,
    * on the income's span widened to whole months, the start must not come
    * after the end, both must be in one year, and that year must be the
    * contribution year. The first failing check is reported. */
  function CheckIncomeArguments(s: IncomeTaxState, contributorId: string, income: Income): (r: Option<Error>)
    requires ValidIncome(income)
    ensures !s.isRegistered ==> r == Some(NotRegisteredYet(contributorId))
    ensures s.isRegistered && IsAfter(MinFirstDayOfMonth(income.start), MaxLastDayOfMonth(income.end)) ==>
      r == Some(IllegalPeriod(income.start, income.end))
    ensures s.isRegistered && !IsAfter(MinFirstDayOfMonth(income.start), MaxLastDayOfMonth(income.end))
            && income.start.date.year != income.end.date.year ==>
      r == Some(NotSingleYearPeriod(income.start, income.end))
    ensures s.isRegistered && !IsAfter(MinFirstDayOfMonth(income.start), MaxLastDayOfMonth(income.end))
            && income.start.date.year == income.end.date.year && income.start.date.year != s.contributionYear ==>
      r == Some(NotCurrentContributionYear(income.start, income.end))
    ensures r.None? <==>
      s.isRegistered && !IsAfter(MinFirstDayOfMonth(income.start), MaxLastDayOfMonth(income.end))
      && income.start.date.year == income.end.date.year == s.contributionYear
  {
    var start := MinFirstDayOfMonth(income.start);
    var end := MaxLastDayOfMonth(income.end);
    if !s.isRegistered then Some(NotRegisteredYet(contributorId))
    else if IsAfter(start, end) then Some(IllegalPeriod(income.start, income.end))
    else if start.date.year != end.date.year then Some(NotSingleYearPeriod(income.start, income.end))
    else if start.date.year != s.contributionYear then Some(NotCurrentContributionYear(income.start, income.end))
    else None
  }

  /** The command handlers. `Register` fails on a registered contributor, and
    * otherwise persists the registration followed by the start of the schedule
    * on the previous income rescaled to its whole year. `ApplyIncome` persists
    * one applied income, stamped `now`, once the arguments are valid; with
    * `scaleToEnd` the income is first rescaled up to the end of its year. */
  function Handle(entityId: string, s: IncomeTaxState, cmd: Command, now: DateTime): (r: Result<seq<Event>, Error>)
    requires ValidCommand(cmd)
    ensures cmd.Register? && s.isRegistered ==> r == Err(AlreadyRegistered(s.contributorId))
    ensures cmd.Register? && !s.isRegistered ==> (r.Ok? <==> MonthCount(cmd.previousYearlyIncome) != 0)
    ensures cmd.Register? && r.Ok? ==>
      r.value == [Registered(entityId, cmd.registrationDate, cmd.previousYearlyIncome),
                  ContributionScheduleStarted(entityId, ScaleToOwnFullYear(cmd.previousYearlyIncome).value)]
    ensures cmd.ApplyIncome? && CheckIncomeArguments(s, cmd.contributorId, cmd.income).Some? ==>
      r == Err(CheckIncomeArguments(s, cmd.contributorId, cmd.income).value)
    ensures cmd.ApplyIncome? && CheckIncomeArguments(s, cmd.contributorId, cmd.income).None? ==>
      (r.Ok? <==> !cmd.scaleToEnd || MonthCount(cmd.income) != 0)
    ensures cmd.ApplyIncome? && r.Ok? ==>
      r.value == [IncomeApplied(entityId,
                    if cmd.scaleToEnd then ScaleToEndOfYearFromStart(cmd.income).value else cmd.income, now)]
  {
    match cmd
    case Register(_, date, previous, _) =>
      if s.isRegistered then Err(AlreadyRegistered(s.contributorId))
      else (
        match ScaleToOwnFullYear(previous)
        case Err(e) => Err(Arithmetic(e))
        case Ok(yearly) => Ok([Registered(entityId, date, previous), ContributionScheduleStarted(entityId, yearly)]))
    case ApplyIncome(id, income, scaleToEnd, _, _) =>
      match CheckIncomeArguments(s, id, income)
      case Some(error) => Err(error)
      case None =>
        if !scaleToEnd then Ok([IncomeApplied(entityId, income, now)])
        else (
          match ScaleToEndOfYearFromStart(income)
          case Err(e) => Err(Arithmetic(e))
          case Ok(scaled) => Ok([IncomeApplied(entityId, scaled, now)]))
  }

  /** The event handlers. A registration starts over from a fresh registered
    * state; the schedule start and a previous income go through
    * `beforeRegistration`, an applied income through `currentYear`. The
    * registration handler calls a three-argument `of` that the state does not
    * declare; it is taken as the four-argument one with a zero previous income. */
  function Apply(calculators: seq<(int, MonthlyCalculator)>, s: IncomeTaxState, e: Event): (r: Result<IncomeTaxState, ArithError>)
    requires calculators != [] && ValidEvent(e)
    ensures e.Registered? ==>
      && r.Ok? && r.value.isRegistered && r.value.contributorId == e.contributorId
      && r.value.registeredDate == e.registrationDate && r.value.contributionYear == e.registrationDate.date.year
      && r.value.currentIncomes == map[] && r.value.contributions == Empty()
    ensures e.ContributionScheduleStarted? || e.PreviousIncomeApplied? ==>
      (r.Ok? <==> MonthCount(if e.ContributionScheduleStarted? then e.previousYearlyIncome else e.income) != 0)
    ensures e.IncomeApplied? ==> (r.Ok? <==> MonthCount(e.income) > 0)
    ensures !e.Registered? && r.Ok? ==>
      r.value.contributorId == s.contributorId && r.value.isRegistered == s.isRegistered
      && r.value.registeredDate == s.registeredDate && r.value.contributionYear == s.contributionYear
  {
    match e
    case Registered(id, date, _) => Ok(Of(id, true, date, Zero))
    case ContributionScheduleStarted(_, previous) => BeforeRegistration(calculators, s, previous)
    case IncomeApplied(_, income, _) => CurrentYear(calculators, s, income)
    case PreviousIncomeApplied(_, income) => BeforeRegistration(calculators, s, income)
  }

  /** Whether none of the events is a registration. */
  predicate NoRegistration(events: seq<Event>)
    decreases |events|
  {
    events == [] || (!events[0].Registered? && NoRegistration(events[1..]))
  }

  /** Whether two states have the same contributor, registration and contribution year. */
  predicate SameRegistration(a: IncomeTaxState, b: IncomeTaxState)
  {
    a.contributorId == b.contributorId && a.isRegistered == b.isRegistered
    && a.registeredDate == b.registeredDate && a.contributionYear == b.contributionYear
  }

  /** Recovery: the events applied in order, the first failure stopping the
    * fold. Without a registration among them, the contributor, the
    * registration and the contribution year come through unchanged. */
  function Replay(calculators: seq<(int, MonthlyCalculator)>, s: IncomeTaxState, events: seq<Event>)
    : (r: Result<IncomeTaxState, ArithError>)
    requires calculators != [] && forall e :: e in events ==> ValidEvent(e)
    ensures events == [] ==> r == Ok(s)
    ensures r.Ok? && NoRegistration(events) ==> SameRegistration(r.value, s)
    decreases |events|
  {
    if events == [] then Ok(s)
    else
      match Apply(calculators, s, events[0])
      case Err(e) => Err(e)
      case Ok(next) => Replay(calculators, next, events[1..])
  }

  /** The reply of both handlers: the report of the state the events lead to. */
  function Reply(s: IncomeTaxState): (r: ContributionReport)
    ensures r.contributorId == s.contributorId && r.year == s.contributionYear
  {
    ContributionsFrom(s.contributorId, s.contributionYear, s.currentIncomes, s.contributions.contributions)
  }

  // ---- properties ------------------------------------------------------------

  /** What is left to replay once a first part has been replayed. */
  function ContinueReplay(calculators: seq<(int, MonthlyCalculator)>, sofar: Result<IncomeTaxState, ArithError>,
                          events: seq<Event>): (r: Result<IncomeTaxState, ArithError>)
    requires calculators != [] && forall e :: e in events ==> ValidEvent(e)
    ensures sofar.Err? ==> r == sofar
  {
    match sofar
    case Err(e) => Err(e)
    case Ok(middle) => Replay(calculators, middle, events)
  }

  /** Replaying a concatenation is replaying the first part, then the second
    * from where the first left off. */
  lemma {:induction false} ReplayConcatenation(calculators: seq<(int, MonthlyCalculator)>, s: IncomeTaxState,
                                               first: seq<Event>, second: seq<Event>)
    requires calculators != []
    requires forall e :: e in first ==> ValidEvent(e)
    requires forall e :: e in second ==> ValidEvent(e)
    ensures forall e :: e in first + second ==> ValidEvent(e)
    ensures Replay(calculators, s, first + second) == ContinueReplay(calculators, Replay(calculators, s, first), second)
    decreases |first|
  {
    if first == [] {
      assert first + second == second;
    } else {
      var all := first + second;
      assert all[0] == first[0] && all[1..] == first[1..] + second;
      var step := Apply(calculators, s, first[0]);
      if step.Ok? {
        ReplayConcatenation(calculators, step.value, first[1..], second);
      }
    }
  }

  /** Since only whole months are compared, an income whose start and end
    * share a year, a month and an offset passes the period checks whatever
    * the order of its days. */
  lemma SameMonthPassesPeriodChecks(s: IncomeTaxState, contributorId: string, income: Income)
    requires ValidIncome(income) && s.isRegistered
    requires income.start.date.year == income.end.date.year == s.contributionYear
    requires income.start.date.month == income.end.date.month
    requires income.start.offsetSeconds == income.end.offsetSeconds
    ensures CheckIncomeArguments(s, contributorId, income).None?
  {
    var first := MinFirstDayOfMonth(income.start).date;
    var last := MaxLastDayOfMonth(income.end).date;
    LaterMonthLaterDay(first, last);
  }

  /** The period checks compare instants while the month count compares
    * local dates, so offsets let through an income that covers no month:
    * ending on the 28th of February 2019 at noon in UTC and starting on the
    * 31st of March at noon at +18:00, it passes every check. Without
    * `scaleToEnd` its event is persisted and then cannot be applied; with
    * it the command itself fails. */
  lemma AcceptedIncomeThatCannotBeApplied(calculators: seq<(int, MonthlyCalculator)>, entityId: string, now: DateTime)
    requires calculators != []
    ensures var s := Of("contributor", true, DateTime(Date(2019, 1, 1), StartOfDay, Utc), Zero);
      var income := Income(1200, Real, DateTime(Date(2019, 3, 31), NanosPerDay / 2, MaxOffsetSeconds),
                                       DateTime(Date(2019, 2, 28), NanosPerDay / 2, Utc));
      var plain := ApplyIncome("contributor", income, false, false, map[]);
      var scaled := ApplyIncome("contributor", income, true, false, map[]);
      CheckIncomeArguments(s, "contributor", income).None?
      && Handle(entityId, s, plain, now) == Ok([IncomeApplied(entityId, income, now)])
      && Apply(calculators, s, IncomeApplied(entityId, income, now)) == Err(DivisionByZero)
      && Handle(entityId, s, scaled, now) == Err(Arithmetic(DivisionByZero))
  {
    var income := Income(1200, Real, DateTime(Date(2019, 3, 31), NanosPerDay / 2, MaxOffsetSeconds),
                                     DateTime(Date(2019, 2, 28), NanosPerDay / 2, Utc));
    assert EpochDay(Date(2019, 3, 1)) == EpochDay(Date(2019, 2, 28)) + 1;
    assert PeriodMonths(income.start.date, income.end.date) == -1;
  }
}
