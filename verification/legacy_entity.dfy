/** The contributor aggregate of the first generation of the calculator
  * service (`income.tax.impl.IncomeTaxEntity`): command handling, which
  * checks the income's period and routes it to the current or a previous
  * year, and event application through the legacy adjusters. */
module LegacyEntity {
  import opened Results
  import opened Calendar
  import opened Incomes
  import opened DateUtils
  import opened Messages
  import opened LegacyCommands
  import State = LegacyState
  import Adjusters = LegacyAdjusters

  datatype Event =
    | Registered(contributorId: string, registrationDate: DateTime, previousYearlyIncome: Income)
    | IncomeApplied(contributorId: string, income: Income, createdAt: DateTime)
    | PreviousIncomeApplied(contributorId: string, income: Income, createdAt: DateTime)

  predicate ValidEvent(e: Event)
  {
    match e
    case Registered(_, date, previous) => ValidDateTime(date) && ValidIncome(previous)
    case IncomeApplied(_, income, _) => ValidIncome(income)
    case PreviousIncomeApplied(_, income, _) => ValidIncome(income)
  }

  /** `checkIncomeCommandArguments`: on the income's span widened to whole
    * months, the start must not come after the end, and both must be in one
    * year. The first failing check names its message. */
  function CheckIncomeArguments(income: Income): (r: Option<Key>)
    requires ValidIncome(income)
    ensures IsAfter(MinFirstDayOfMonth(income.start), MaxLastDayOfMonth(income.end)) ==> r == Some(IllegalPeriod)
    ensures !IsAfter(MinFirstDayOfMonth(income.start), MaxLastDayOfMonth(income.end))
            && income.start.date.year != income.end.date.year ==>
      r == Some(NotSingleYearPeriod)
    ensures r.None? <==>
      !IsAfter(MinFirstDayOfMonth(income.start), MaxLastDayOfMonth(income.end))
      && income.start.date.year == income.end.date.year
    ensures r.Some? ==> r.value in Constants(CalculatorMessage)
  {
    var start := MinFirstDayOfMonth(income.start);
    var end := MaxLastDayOfMonth(income.end);
    if IsAfter(start, end) then Some(IllegalPeriod)
    else if start.date.year != end.date.year then Some(NotSingleYearPeriod)
    else None
  }

  /** The command handlers. `Register` persists the registration under the
    * entity's id, whatever the state. `ApplyIncome` answers an invalid
    * command with the text of the failing check's message (from `bundle`,
    * formatted by `format`, with no arguments), and otherwise persists one
    * income stamped `now`: applied to the current year when it starts in the
    * contribution year, to a previous year otherwise. */
  function Handle(entityId: string, s: State.LegacyState, cmd: Command, now: DateTime,
                  bundle: map<string, string>, format: (string, seq<string>) -> string)
    : (r: Result<seq<Event>, string>)
    requires ValidCommand(cmd)
    ensures cmd.Register? ==> r == Ok([Registered(entityId, cmd.registrationDate, cmd.previousYearlyIncome)])
    ensures cmd.ApplyIncome? ==> (r.Err? <==> CheckIncomeArguments(cmd.income).Some?)
    ensures cmd.ApplyIncome? && r.Err? ==>
      r.error == Get(CalculatorMessage, CheckIncomeArguments(cmd.income).value, bundle, format, [])
    ensures cmd.ApplyIncome? && r.Ok? ==>
      && |r.value| == 1 && !r.value[0].Registered?
      && r.value[0].contributorId == entityId && r.value[0].income == cmd.income && r.value[0].createdAt == now
      && (r.value[0].IncomeApplied? <==> cmd.income.start.date.year == s.contributionYear)
  {
    match cmd
    case Register(_, date, previous) => Ok([Registered(entityId, date, previous)])
    case ApplyIncome(_, income) =>
      match CheckIncomeArguments(income)
      case Some(message) => Err(Get(CalculatorMessage, message, bundle, format, []))
      case None =>
        if income.start.date.year == s.contributionYear then Ok([IncomeApplied(entityId, income, now)])
        else Ok([PreviousIncomeApplied(entityId, income, now)])
  }

  /** The event handlers. A registration starts over from a fresh state built
    * from the event; an income of the current year goes through `month`,
    * one of a previous year through `previousYear`. The current-year handler
    * calls an adjuster the legacy adjusters do not declare; it is taken to be
    * `month`. Every state reached keeps its dates real. */
  function Apply(s: State.LegacyState, e: Event): (r: Result<State.LegacyState, State.Failure>)
    requires State.ValidLegacyState(s) && ValidEvent(e)
    ensures e.Registered? ==> r == Ok(State.Registered(e.contributorId, e.registrationDate, e.previousYearlyIncome))
    ensures e.IncomeApplied? ==> r == Adjusters.Month(s, e.income)
    ensures e.PreviousIncomeApplied? ==> r == Adjusters.PreviousYear(s, e.income)
    ensures r.Ok? ==> State.ValidLegacyState(r.value)
  {
    match e
    case Registered(id, date, previous) => Ok(State.Registered(id, date, previous))
    case IncomeApplied(_, income, _) =>
      Adjusters.MonthKeepsTheStateValid(s, income);
      Adjusters.Month(s, income)
    case PreviousIncomeApplied(_, income, _) =>
      Adjusters.PreviousYearKeepsTheStateValid(s, income);
      Adjusters.PreviousYear(s, income)
  }

  /** The events folded into the state in order; the first failing handler
    * ends the fold. */
  function Replay(s: State.LegacyState, events: seq<Event>): (r: Result<State.LegacyState, State.Failure>)
    requires State.ValidLegacyState(s) && forall e :: e in events ==> ValidEvent(e)
    ensures r.Ok? ==> State.ValidLegacyState(r.value)
    ensures events == [] ==> r == Ok(s)
    decreases |events|
  {
    if events == [] then Ok(s)
    else
      match Apply(s, events[0])
      case Err(failure) => Err(failure)
      case Ok(next) => Replay(next, events[1..])
  }

  /** The state the entity starts from: its snapshot, or else `empty` at the
    * clock reading `now`. */
  function Initial(snapshot: Option<State.LegacyState>, now: DateTime): (r: State.LegacyState)
    ensures snapshot.Some? ==> r == snapshot.value
    ensures snapshot.None? ==> r.contributorId == "nobody" && r.registeredDate == now
  {
    match snapshot
    case Some(state) => state
    case None => State.Empty(now)
  }

  // ---- properties ------------------------------------------------------------

  /** Replaying two runs of events is replaying the second from where the
    * first ended. */
  lemma {:induction false} ReplayConcatenation(s: State.LegacyState, first: seq<Event>, second: seq<Event>)
    requires State.ValidLegacyState(s)
    requires forall e :: e in first ==> ValidEvent(e)
    requires forall e :: e in second ==> ValidEvent(e)
    ensures forall e :: e in first + second ==> ValidEvent(e)
    ensures var head := Replay(s, first);
      && (head.Err? ==> Replay(s, first + second) == head)
      && (head.Ok? ==> Replay(s, first + second) == Replay(head.value, second))
    decreases |first|
  {
    if first != [] {
      assert (first + second)[0] == first[0];
      assert (first + second)[1..] == first[1..] + second;
      match Apply(s, first[0])
      case Err(_) =>
      case Ok(next) => ReplayConcatenation(next, first[1..], second);
    } else {
      assert first + second == second;
    }
  }

  /** A registration forgets whatever the state held before it. */
  lemma RegistrationForgetsThePast(s: State.LegacyState, t: State.LegacyState, e: Event)
    requires State.ValidLegacyState(s) && State.ValidLegacyState(t) && ValidEvent(e) && e.Registered?
    ensures Apply(s, e) == Apply(t, e)
    ensures Apply(s, e).Ok? && Apply(s, e).value.contributionYear == e.registrationDate.date.year
  {
  }

  /** Registering never depends on the state: a registered contributor can
    * register again, and the registration replaces its state. */
  lemma RegisterIgnoresTheState(entityId: string, s: State.LegacyState, t: State.LegacyState, cmd: Command,
                                now: DateTime, bundle: map<string, string>, format: (string, seq<string>) -> string)
    requires ValidCommand(cmd) && cmd.Register?
    ensures Handle(entityId, s, cmd, now, bundle, format) == Handle(entityId, t, cmd, now, bundle, format)
  {
  }

  /** The checks compare the month-widened span, so an income whose start
    * day comes after its end day within one month of one year and one offset
    * is accepted. */
  lemma ReversedDaysWithinAMonthAreAccepted(income: Income)
    requires ValidIncome(income)
    requires income.start.date.year == income.end.date.year && income.start.date.month == income.end.date.month
    requires income.start.offsetSeconds == income.end.offsetSeconds
    ensures CheckIncomeArguments(income).None?
  {
    LaterMonthLaterDay(MinFirstDayOfMonth(income.start).date, MaxLastDayOfMonth(income.end).date);
  }

  /** After a registration, an income starting in the registration year is
    * applied to the current year, and one of any other year to a previous
    * year. */
  lemma RegistrationSetsTheCurrentYear(entityId: string, date: DateTime, previous: Income, income: Income,
                                       now: DateTime, bundle: map<string, string>,
                                       format: (string, seq<string>) -> string)
    requires ValidDateTime(date) && ValidIncome(previous) && ValidIncome(income)
    requires CheckIncomeArguments(income).None?
    ensures var s := State.Registered(entityId, date, previous);
      var r := Handle(entityId, s, ApplyIncome(entityId, income), now, bundle, format);
      r.Ok? && (r.value[0].IncomeApplied? <==> income.start.date.year == date.date.year)
  {
  }

  /** An income whose month-widened start comes after its end is refused
    * with the illegal-period message, whose code is 1. */
  lemma IllegalPeriodIsReported(entityId: string, s: State.LegacyState, income: Income, now: DateTime,
                                bundle: map<string, string>, format: (string, seq<string>) -> string)
    requires ValidIncome(income) && IsAfter(MinFirstDayOfMonth(income.start), MaxLastDayOfMonth(income.end))
    ensures var r := Handle(entityId, s, ApplyIncome(entityId, income), now, bundle, format);
      && r.Err? && |r.error| >= 8 && r.error[1..4] == "TAX" && AllDigits(r.error[4..8])
      && ReadCode(r.error[4..8]) == 1
  {
    HeaderIdentifiesTheConstant(CalculatorMessage, IllegalPeriod, bundle, format, []);
  }
}
