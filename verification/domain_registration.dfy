/** What replaying an accepted registration leads to: a registered
  * contributor whose schedule starts from the previous yearly income. */
module DomainRegistration {
  import opened Results
  import opened Calendar
  import opened Incomes
  import opened IncomeUtils
  import opened SortedKeys
  import opened DomainState
  import opened DomainAdjusters
  import opened DomainCommands
  import opened ContributionReports
  import opened DomainEntity

  /** The two events of a registration replay, from any state, to the
    * schedule started on a fresh registered state. */
  lemma RegistrationEventsReplay(calculators: seq<(int, MonthlyCalculator)>, s: IncomeTaxState, entityId: string,
                                 date: DateTime, previous: Income, yearly: Income)
    requires calculators != [] && MonthCount(yearly) != 0
    ensures Replay(calculators, s, [Registered(entityId, date, previous), ContributionScheduleStarted(entityId, yearly)])
         == BeforeRegistration(calculators, Of(entityId, true, date, Zero), yearly)
  {
    var registered := Of(entityId, true, date, Zero);
    assert Apply(calculators, s, Registered(entityId, date, previous)) == Ok(registered);
    ReplayFirst(calculators, s, Registered(entityId, date, previous), [ContributionScheduleStarted(entityId, yearly)]);
    ReplayOne(calculators, registered, ContributionScheduleStarted(entityId, yearly));
  }

  /** Replaying events after a first one that applies is replaying them from
    * where that first one leads. */
  lemma ReplayFirst(calculators: seq<(int, MonthlyCalculator)>, s: IncomeTaxState, e: Event, rest: seq<Event>)
    requires calculators != [] && ValidEvent(e) && forall x :: x in rest ==> ValidEvent(x)
    requires Apply(calculators, s, e).Ok?
    ensures forall x :: x in [e] + rest ==> ValidEvent(x)
    ensures Replay(calculators, s, [e] + rest) == Replay(calculators, Apply(calculators, s, e).value, rest)
  {
    assert ([e] + rest)[0] == e && ([e] + rest)[1..] == rest;
  }

  /** Replaying one event is applying it. */
  lemma ReplayOne(calculators: seq<(int, MonthlyCalculator)>, s: IncomeTaxState, e: Event)
    requires calculators != [] && ValidEvent(e)
    ensures Replay(calculators, s, [e]) == Apply(calculators, s, e)
  {
    assert [e][1..] == [];
  }

  /** Starting the schedule of a freshly registered contributor keeps the
    * registration and makes the registration year the contribution year. */
  lemma FreshScheduleKeepsRegistration(calculators: seq<(int, MonthlyCalculator)>, entityId: string, date: DateTime,
                                       yearly: Income)
    requires calculators != [] && MonthCount(yearly) != 0
    ensures var r := BeforeRegistration(calculators, Of(entityId, true, date, Zero), yearly);
      && r.Ok? && r.value.isRegistered && r.value.contributorId == entityId
      && r.value.registeredDate == date && r.value.contributionYear == date.date.year
  {
  }

  /** The schedule records a whole-year income for the year before
    * registration, at the amount it started from. */
  lemma FreshScheduleRecordsPreviousYear(calculators: seq<(int, MonthlyCalculator)>, entityId: string, date: DateTime,
                                         yearly: Income)
    requires calculators != [] && MonthCount(yearly) != 0
    ensures var r := BeforeRegistration(calculators, Of(entityId, true, date, Zero), yearly);
      && date.date.year - 1 in r.value.previousYearlyIncomes
      && r.value.previousYearlyIncomes[date.date.year - 1] == YearIncome(yearly.amount, date.date.year - 1, yearly.kind)
  {
    BeforeRegistrationRecordsTheIncome(calculators, Of(entityId, true, date, Zero), yearly, date.date.year - 1);
  }

  /** The schedule of a whole-year income fills the twelve months of the
    * registration year with its amount. */
  lemma FreshScheduleFillsTheYear(calculators: seq<(int, MonthlyCalculator)>, entityId: string, date: DateTime,
                                  yearly: Income)
    requires calculators != [] && MonthCount(yearly) == 12
    ensures var r := BeforeRegistration(calculators, Of(entityId, true, date, Zero), yearly);
      && r.Ok? && (forall m :: m in r.value.currentIncomes <==> 1 <= m <= 12)
      && SumAmounts(r.value.currentIncomes, Range(1, 12)) == yearly.amount
  {
    var registered := Of(entityId, true, date, Zero);
    assert forall m :: m in BeforeRegistration(calculators, registered, yearly).value.currentIncomes <==> 1 <= m <= 12 by {
      MergeOverSuperset(registered.currentIncomes, YearSpread(yearly, date.date.year));
    }
    BeforeRegistrationFillsTheYear(calculators, registered, yearly);
  }

  /** An accepted registration persists the registration and the start of
    * the schedule on the previous income rescaled to a whole year of its own. */
  lemma AcceptedRegistrationEvents(entityId: string, s: IncomeTaxState, cmd: Command, now: DateTime)
    requires ValidCommand(cmd) && cmd.Register? && Handle(entityId, s, cmd, now).Ok?
    ensures var yearly := ScaleToOwnFullYear(cmd.previousYearlyIncome).value;
      && MonthCount(yearly) == 12 && yearly.kind == cmd.previousYearlyIncome.kind
      && Handle(entityId, s, cmd, now).value
         == [Registered(entityId, cmd.registrationDate, cmd.previousYearlyIncome), ContributionScheduleStarted(entityId, yearly)]
  {
  }

  /** The registration events, replayed from any state, give a registered
    * contributor whose contribution year is the registration year, whose
    * previous income is recorded for the year before at its whole-year
    * amount, and whose twelve months in the registration year add up to
    * that amount. */
  lemma RegistrationEventsSchedule(calculators: seq<(int, MonthlyCalculator)>, s: IncomeTaxState, entityId: string,
                                   date: DateTime, previous: Income, yearly: Income)
    requires calculators != [] && MonthCount(yearly) == 12
    ensures var r := Replay(calculators, s, [Registered(entityId, date, previous), ContributionScheduleStarted(entityId, yearly)]);
      && r.Ok? && r.value.isRegistered && r.value.contributorId == entityId
      && r.value.registeredDate == date && r.value.contributionYear == date.date.year
      && date.date.year - 1 in r.value.previousYearlyIncomes
      && r.value.previousYearlyIncomes[date.date.year - 1] == YearIncome(yearly.amount, date.date.year - 1, yearly.kind)
      && (forall m :: m in r.value.currentIncomes <==> 1 <= m <= 12)
      && SumAmounts(r.value.currentIncomes, Range(1, 12)) == yearly.amount
  {
    RegistrationEventsReplay(calculators, s, entityId, date, previous, yearly);
    FreshScheduleKeepsRegistration(calculators, entityId, date, yearly);
    FreshScheduleRecordsPreviousYear(calculators, entityId, date, yearly);
    FreshScheduleFillsTheYear(calculators, entityId, date, yearly);
  }

  /** The reply after the registration events reports the whole-year
    * income the schedule started from as the yearly income. */
  lemma RegistrationEventsReply(calculators: seq<(int, MonthlyCalculator)>, s: IncomeTaxState, entityId: string,
                                date: DateTime, previous: Income, yearly: Income)
    requires calculators != [] && MonthCount(yearly) == 12
    ensures var r := Replay(calculators, s, [Registered(entityId, date, previous), ContributionScheduleStarted(entityId, yearly)]);
      r.Ok? && Reply(r.value).yearlyIncome == yearly.amount
  {
    var events := [Registered(entityId, date, previous), ContributionScheduleStarted(entityId, yearly)];
    RegistrationEventsSchedule(calculators, s, entityId, date, previous, yearly);
    FullYearReply(Replay(calculators, s, events).value, yearly.amount);
  }

  /** A state holding the twelve months replies with their sum. */
  lemma FullYearReply(st: IncomeTaxState, amount: int)
    requires forall m :: m in st.currentIncomes <==> 1 <= m <= 12
    requires SumAmounts(st.currentIncomes, Range(1, 12)) == amount
    ensures Reply(st).yearlyIncome == amount
  {
    assert forall m :: 1 <= m <= 12 ==> m in st.currentIncomes;
    FullYearIncome(st.contributorId, st.contributionYear, st.currentIncomes, st.contributions.contributions);
  }

  /** The reply to an accepted registration reports the previous income,
    * rescaled to its whole year, as the yearly income. */
  lemma RegistrationReply(calculators: seq<(int, MonthlyCalculator)>, entityId: string, s: IncomeTaxState,
                          cmd: Command, now: DateTime)
    requires calculators != [] && ValidCommand(cmd) && cmd.Register?
    requires Handle(entityId, s, cmd, now).Ok?
    ensures var r := Replay(calculators, s, Handle(entityId, s, cmd, now).value);
      r.Ok? && Reply(r.value).yearlyIncome == ScaleToOwnFullYear(cmd.previousYearlyIncome).value.amount
  {
    AcceptedRegistrationEvents(entityId, s, cmd, now);
    RegistrationEventsReply(calculators, s, entityId, cmd.registrationDate, cmd.previousYearlyIncome,
                            ScaleToOwnFullYear(cmd.previousYearlyIncome).value);
  }
}
