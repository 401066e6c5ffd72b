# income-tax, modelled in Dafny

This project models the computational core of the income-tax services. The services take a self-employed contributor's declared incomes, spread them over the months of the contribution year, and compute the social contributions owed. Those contributions are health, maternity, basic and supplementary pension, invalidity-death, family allowances and CSG/CRDS.

The core comes in three generations, and each is modelled on its own over a shared vocabulary. In that vocabulary months are the numbers 1 to 12, an `Income` is an amount with a type and a span, and dates are Gregorian dates with a time of day and an offset.

- **Shared vocabulary**
  - `Results`: `Result`/`Option`.
  - `Rounding`: Java's truncating division, and rounding down, floor, half-even and ceiling to cents.
  - `Calendar`: dates, instants, `Period.between(..).getMonths()`.
  - `Decimals`: the exact `BigDecimal.divide` that fails on a non-terminating quotient.
  - `Incomes`, `SortedKeys`, and `ContributionStates`.
- **Newest generation**
  - **Bracket rules**: `BracketRules`, one definition of the rules parameterised by PASS, PRCI and the CSG factor.
  - **Calculators**: `BaseCalculator` with its 2019 instance, and the contribution services `CalculatorService` and `CalculatorPluginService`.
  - **Registry**: `Registry`, covering `loadCalculators` in both versions and the calculator choice by year.
  - **Income and date tools**: `IncomeUtils` and `DateUtils`.
  - **Income service front end**: `CalculationService`, with `normalizeIncome`, the pipelines of `doRegister` and `doApplyIncome`, and `convertToContributions`.
- **Middle generation**
  - The 2018 calculators `Calculator2018` and `CalculatorConfig2018`.
  - The contributor aggregate:
    - `DomainState`: the state and its merging `Modifier`;
    - `DomainCommands`;
    - `DomainAdjusters`;
    - `DomainEntity`: command handling, event fold and reply;
    - `ContributionReports`: `contributionsFrom`;
    - `DomainRegistration`: what a registration replays to.
  - `OlderDomainState`: the earlier state, whose `Modifier` replaces maps.
- **Oldest generation**
  - `LegacyState`, `LegacyCommands`, `LegacyAdjusters` and `LegacyEntity`.
  - `Messages`: the message catalogues and `Helper.getMessage`.

Java's `null` arguments are `Option`s. Its exceptions are `Result` errors:
- `NullPointerException` from a precondition check;
- `ArithmeticException` from an exact division or a division by zero;
- `IllegalStateException` from an empty registry;
- the aggregate's command failures.

Amounts of money in the calculators are exact reals. Incomes are unbounded integers.

## Model

| member | source | states |
|---|---|---|
| BracketRules.RuleOfCode | contribution-impl/src/main/java/income/tax/contribution/impl/calculator/BaseCalculator.java:392-416 | A code found maps back to a rule reported under that very code. |
| BracketRules.CodeRoundTrip | contribution-impl/src/main/java/income/tax/contribution/impl/calculator/BaseCalculator.java:392-416 | Every rule is found again from its code. |
| BracketRules.CodesAreDistinct | contribution-impl/src/main/java/income/tax/contribution/impl/calculator/BaseCalculator.java:392-416 | Two rules share a code exactly when they are the same rule, so a code keys one result. |
| BracketRules.Tiers | contribution-impl/src/main/java/income/tax/contribution/impl/calculator/BaseCalculator.java:190-211 | A composite rule (MAL1, RVB, RCI) is made of two single tiers, neither of them composite. |
| BracketRules.InformativeRate | contribution-impl/src/main/java/income/tax/contribution/impl/calculator/BaseCalculator.java:102-108 | The informative rate is zero for a zero base; otherwise it is the contribution as a percentage of the base, rounded up to the cent (at most 0.01 above it). |
| BracketRules.UpperChar | contribution-impl/src/main/java/income/tax/contribution/impl/calculator/BaseCalculator.java:114 | A lower-case ASCII letter becomes its capital; any other character stays as it is. |
| BracketRules.ToUpper | contribution-impl/src/main/java/income/tax/contribution/impl/calculator/BaseCalculator.java:114 | Upper-casing keeps the length and upper-cases each character in place. |
| BracketRules.ConstantNamed | contribution-impl/src/main/java/income/tax/contribution/impl/calculator/BaseCalculator.java:112-124 | PASS, PRCI and CSG are returned for their names in any case; any other name gives zero. |
| BracketRules.BaseIncome | contribution-impl/src/main/java/income/tax/contribution/impl/calculator/BaseCalculator.java:143-360 | Each base clamps the income into its bracket: MLD1T2 and RVB T2 are the non-negative excess over 5 PASS and PASS; MLD1T1 and MAL2 lie in [0.4 PASS, 5 PASS] and RVB T1 and RID in [0.115 PASS, PASS], equal to the income inside and to the nearer bound outside; RCI T1 is the income capped at PRCI; RCI T2 lies in [0, 4 PASS - PRCI], the income less PRCI inside, 0 below and the top of the range above; AF and the composites retain the income and CSG/CRDS its CSG share. |
| BracketRules.RateBounds | contribution-impl/src/main/java/income/tax/contribution/impl/calculator/BaseCalculator.java:143-379 | Under valid constants every rate, flat or income-dependent, lies between 0 and 17.75 percent. |
| BracketRules.TierBounds | contribution-impl/src/main/java/income/tax/contribution/impl/calculator/BaseCalculator.java:143-379 | For a non-negative income under valid constants, a base is never negative and a rate lies in [0, 17.75]. |
| BracketRules.TierContribution | contribution-impl/src/main/java/income/tax/contribution/impl/calculator/BaseCalculator.java:143-360 | A single rule contributes nothing on an empty base, and never a negative amount for a non-negative income. |
| BracketRules.ContributionOf | contribution-impl/src/main/java/income/tax/contribution/impl/calculator/BaseCalculator.java:190-342 | A single rule contributes its tier amount, and no rule contributes a negative amount for a non-negative income. |
| BracketRules.BaseClamps | contribution-impl/src/main/java/income/tax/contribution/impl/calculator/BaseCalculator.java:143-360 | The bases clamp the income: MLD1T2 takes the excess over 5 PASS; MLD1T1 and MAL2 take the income clamped to [0.4 PASS, 5 PASS]; RCI T1 takes it capped at PRCI; RID takes it clamped to [0.115 PASS, PASS]. |
| BracketRules.BasicPensionSplit | contribution-impl/src/main/java/income/tax/contribution/impl/calculator/BaseCalculator.java:231-263 | From 0.115 PASS up, the two basic-pension tiers share the income exactly and the first is capped at PASS. Below that, the first tier is the 0.115 PASS floor and the second is empty. |
| BracketRules.SupplementaryPensionSplit | contribution-impl/src/main/java/income/tax/contribution/impl/calculator/BaseCalculator.java:287-319 | RCI T2 is empty below PRCI, equals income minus PRCI up to 4 PASS, and is constant beyond. Below 4 PASS the two tiers add up to the income. |
| BracketRules.HealthRateContinuity | contribution-impl/src/main/java/income/tax/contribution/impl/calculator/BaseCalculator.java:164-185 | The MLD1T1 rate is 0 at zero income, joins its second segment at 0.4 PASS and reaches 6.35 at 1.1 PASS. It stays at 6.35 above that and within [0, 6.35] below. |
| BracketRules.FamilyAllowanceRate | contribution-impl/src/main/java/income/tax/contribution/impl/calculator/BaseCalculator.java:362-379 | The AF rate is 0 below 1.1 PASS and 3.1 above 1.4 PASS. Between the two it lies within [0, 3.1] and meets both ends. |
| BracketRules.CompositeIsSumOfTiers | contribution-impl/src/main/java/income/tax/contribution/impl/calculator/BaseCalculator.java:190-342 | Each composite contribution is the sum of its two tiers' contributions. |
| BaseCalculator.ComputeRule | contribution-impl/src/main/java/income/tax/contribution/impl/calculator/BaseCalculator.java:98-110 | A rule's result carries its code, the income, the rule's base and contribution, and the informative rate bounds. |
| BaseCalculator.LinesAreFiledUnderTheirCode | contribution-impl/src/main/java/income/tax/contribution/impl/calculator/BaseCalculator.java:65-92 | Every yearly and monthly line is filed under its own code, as the map is keyed by each line's type. |
| BaseCalculator.ComputeFromYearlyIncome | contribution-impl/src/main/java/income/tax/contribution/impl/calculator/BaseCalculator.java:64-74 | The yearly map has a key for a rule exactly when the rule is one of the ten computed tiers. Each entry is that rule's result on the income. |
| BaseCalculator.ComputeFromMonthlyIncome | contribution-impl/src/main/java/income/tax/contribution/impl/calculator/BaseCalculator.java:76-96 | The monthly map has the keys of the yearly computation on twelve times the income, and every entry carries the monthly income. |
| BaseCalculator.Round | contribution-impl/src/main/java/income/tax/contribution/impl/calculator/BaseCalculator.java:59-62 | Rounding lands within one unit of the value, on the side the mode asks: at or below it for FLOOR, at or above it for CEILING, toward zero with the value's sign for DOWN, within half a unit and even at a tie for HALF_EVEN; the result is the one whole number that `RoundedTo` admits. |
| BaseCalculator.ContributionTypes | contribution-impl/src/main/java/income/tax/contribution/impl/calculator/BaseCalculator.java:126-133 | The reported types are the codes of the computed tiers, in their order. |
| BaseCalculator.YearlyRulesAreTheTiers | contribution-impl/src/main/java/income/tax/contribution/impl/calculator/BaseCalculator.java:29-33 | A rule is computed exactly when it is not a composite. |
| BaseCalculator.YearlyHoldsTheTiers | contribution-impl/src/main/java/income/tax/contribution/impl/calculator/BaseCalculator.java:126-133 | The yearly map's keys are exactly the non-composite codes, and exactly the codes the calculator reports as its types. |
| BaseCalculator.MonthlyIsTwelfthOfYearly | contribution-impl/src/main/java/income/tax/contribution/impl/calculator/BaseCalculator.java:76-96 | Each monthly amount and base times twelve is the yearly one on twelve months of income, and the rate and code are the yearly ones. |
| BaseCalculator.ConstantsByName | contribution-impl/src/main/java/income/tax/contribution/impl/calculator/BaseCalculator.java:112-124 | "pass", "Prci" and "CSG" give the three constants, and an unknown name gives zero. |
| BaseCalculator.Calculator2019Health | contribution-calculator-impl/src/main/java/income/tax/contribution/impl/calculator/Calculator2019.java:8-10 | With the 2019 constants and an income of 240000, MLD1T2, MLD1T1 and MAL2 come to 2429.7, 12866.37 and 1722.27. |
| BaseCalculator.Calculator2019Pension | contribution-calculator-impl/src/main/java/income/tax/contribution/impl/calculator/Calculator2019.java:8-10 | With the 2019 constants and an income of 240000, RVB T1 and RVB T2 come to 7193.01 and 1196.856. |
| BaseCalculator.Calculator2019Rounding | contribution-calculator-impl/src/main/java/income/tax/contribution/impl/calculator/Calculator2019.java:9 | The 2019 calculator rounds half-even: 2.5 goes to 2 and 3.5 to 4. |
| Calculator2018.Round | calculator-impl/src/main/java/income/tax/impl/contribution/Calculator2018.java:46-49 | Rounding floors: the result is the largest whole number not above the value. The 2018 configuration's `round` floors the same way and is this function. |
| Calculator2018.ComputeRule | calculator-impl/src/main/java/income/tax/impl/contribution/Calculator2018.java:86-101 | The base is the rule's base. Unrounded, the amount is exact; with `round`, it is that amount floored to a whole number. The rate derives from the amount as reported. |
| Calculator2018.LinesAreFiledUnderTheirCode | calculator-impl/src/main/java/income/tax/impl/contribution/Calculator2018.java:56-65 | Every yearly and monthly line is filed under its own code, as the map is keyed by each line's type. |
| Calculator2018.Compute | calculator-impl/src/main/java/income/tax/impl/contribution/Calculator2018.java:51-65 | The map has a key for a rule exactly when the rule is one of the seven reported rules, and each entry is that rule's result. |
| Calculator2018.ComputeFromMonthlyIncome | calculator-impl/src/main/java/income/tax/impl/contribution/Calculator2018.java:67-84 | The monthly map has the keys of the yearly computation on twelve times the income, with the monthly income in each entry. |
| Calculator2018.ReportsNoTier | calculator-impl/src/main/java/income/tax/impl/contribution/Calculator2018.java:51-53 | Every composite is reported and neither of its tiers is. |
| Calculator2018.CompositeAmount | calculator-impl/src/main/java/income/tax/impl/contribution/Calculator2018.java:172-193 | A composite's amount is the exact sum of its tiers, or that sum floored when rounding is asked. |
| Calculator2018.MonthlyIsTwelfthOfYearly | calculator-impl/src/main/java/income/tax/impl/contribution/Calculator2018.java:67-84 | Monthly amount and base times twelve give the yearly ones, and the rate is the yearly one. |
| Calculator2018.HighIncomeHealth | calculator-impl/src/main/java/income/tax/impl/contribution/Calculator2018.java:18-30 | For an income of 240000, MAL1 is 15302.01 (15302 rounded) and MAL2 is 1688.61 (1688 rounded). |
| CalculatorConfig2018.TierRate | calculator-impl/src/main/java/income/tax/impl/contribution/CalculatorConfig2018.java:273-291 | A single rule's rate fails exactly for AF in the band [1.1 PASS, 1.4 PASS], where it is a non-terminating decimal; otherwise it is the bracket rate. |
| CalculatorConfig2018.TierAmount | calculator-impl/src/main/java/income/tax/impl/contribution/CalculatorConfig2018.java:26-27 | A single rule's amount fails exactly in the AF band. Otherwise it is a whole number of cents, at or above the exact amount and less than a cent above it. |
| CalculatorConfig2018.FamilyAllowanceSlopeDoesNotTerminate | calculator-impl/src/main/java/income/tax/impl/contribution/CalculatorConfig2018.java:285-286 | The slope 3.1 / (0.3 * 39732) is 31 / 119196, and no power of ten times 31 is a multiple of 119196. So an exact decimal division has no result. |
| CalculatorConfig2018.ContributionOf | calculator-impl/src/main/java/income/tax/impl/contribution/CalculatorConfig2018.java:43-291 | A rule's amount fails, as a non-terminating decimal, exactly for AF in its sloped band; composites never fail. A single rule's amount is its tier amount, and any amount lies at or above the exact contribution, by less than a cent for a single rule and less than two cents for a composite. |
| CalculatorConfig2018.FamilyAllowanceBandBounds | calculator-impl/src/main/java/income/tax/impl/contribution/CalculatorConfig2018.java:273-291 | In whole units, AF fails exactly for incomes 43706 through 55624. |
| CalculatorConfig2018.HighIncomeHealth | calculator-impl/src/main/java/income/tax/impl/contribution/CalculatorConfig2018.java:43-116 | For an income of 240000, MLD1T2, MLD1T1 and MAL1 come to 2687.1, 12614.91 and 15302.01. |
| CalculatorConfig2018.HighIncomePensions | calculator-impl/src/main/java/income/tax/impl/contribution/CalculatorConfig2018.java:131-252 | For an income of 240000, RVB is 8254.04 (its second tier rounded up from 1201.608) and RCI is 12335.78. |
| Registry.Years | contribution-impl/src/main/java/income/tax/contribution/impl/ContributionModule.java:36-40 | The years of the entries, one per entry and in order. |
| Registry.Collect | contribution-impl/src/main/java/income/tax/contribution/impl/ContributionModule.java:33-40 | The year map has exactly the discovered years. Each year maps to the calculator discovered last for it. |
| Registry.LoadCalculators | contribution-impl/src/main/java/income/tax/contribution/impl/ContributionModule.java:45-50 | The registry's years strictly descend and are exactly the discovered years. Each entry holds the calculator collected for its year. |
| Registry.LoadCalculatorsFailFast | contribution-impl/src/main/java/income/tax/contribution/impl/ContributionModule.java:41-43 | Loading fails exactly when nothing was discovered. Otherwise it gives the non-empty loaded registry. |
| Registry.IndexOf | contribution-impl/src/main/java/income/tax/contribution/impl/CalculatorServiceImpl.java:54 | The position of the first entry for the year, or nothing exactly when the year has no entry. |
| Registry.Lookup | contribution-impl/src/main/java/income/tax/contribution/impl/CalculatorServiceImpl.java:54 | Lookup finds nothing exactly when the year is missing. Otherwise it returns the calculator of an entry for that year. |
| Registry.Select | contribution-impl/src/main/java/income/tax/contribution/impl/CalculatorServiceImpl.java:51-60 | Selection fails exactly on an empty registry. It picks the year's own calculator when registered, and otherwise the first entry's. |
| Registry.DescendingYearsAreKeys | contribution-impl/src/main/java/income/tax/contribution/impl/ContributionModule.java:45-50 | In a strictly descending registry, looking up an entry's year gives that entry's calculator. |
| Registry.SelectFromLoaded | contribution-impl/src/main/java/income/tax/contribution/impl/CalculatorServiceImpl.java:51-60 | From a loaded registry, a known year gets its last-discovered calculator and an unknown year gets the most recent year's. Selection fails exactly when nothing was discovered. |
| Registry.LaterDiscoveryWins | contribution-impl/src/main/java/income/tax/contribution/impl/ContributionModule.java:39 | A calculator discovered later for a year replaces the earlier one. |
| CalculatorService.ConvertInternalContribution | contribution-impl/src/main/java/income/tax/contribution/impl/CalculatorServiceImpl.java:62-86 | The keys, type, income, base and rate are kept. The amount is rounded with the calculator's rounding exactly when asked. |
| CalculatorService.Compute | contribution-impl/src/main/java/income/tax/contribution/impl/CalculatorServiceImpl.java:32-86 | The request fails exactly on an empty registry. Otherwise it has the selected calculator's monthly keys. Each entry keeps that calculator's code, base and rate, carries the request's income, and its amount is the calculator's rounding of the computed amount when the request asks for rounding, the computed amount otherwise. |
| CalculatorService.UnroundedComputeIsTheCalculator | contribution-impl/src/main/java/income/tax/contribution/impl/CalculatorServiceImpl.java:41-86 | Without rounding, the service answers exactly the selected calculator's monthly computation. |
| CalculatorService.UnroundedConversionIsIdentity | contribution-impl/src/main/java/income/tax/contribution/impl/CalculatorServiceImpl.java:71-75 | Without rounding, the conversion returns the internal contributions unchanged. |
| CalculatorService.RoundedAmounts | contribution-impl/src/main/java/income/tax/contribution/impl/CalculatorServiceImpl.java:71-72 | Rounded amounts are whole and within one unit of the computed ones, and within half a unit for a half-even calculator. |
| CalculatorService.Request2019 | contribution-impl/src/main/java/income/tax/contribution/impl/CalculatorServiceImpl.java:51-60 | With only the 2019 calculator loaded, both 2019 and 2031 are computed by it. |
| CalculatorPluginService.ConvertInternalContribution | contribution-calculator-impl/src/main/java/income/tax/contribution/impl/CalculatorServiceImpl.java:57-71 | The conversion keeps the keys and copies every entry field by field. |
| CalculatorPluginService.ConversionIsIdentity | contribution-calculator-impl/src/main/java/income/tax/contribution/impl/CalculatorServiceImpl.java:57-71 | The conversion is the identity. |
| CalculatorPluginService.Compute | contribution-calculator-impl/src/main/java/income/tax/contribution/impl/CalculatorServiceImpl.java:40-55 | The request fails exactly on an empty registry. It is answered by the year's calculator when one is registered, and otherwise by the first, with the round flag passed along. |
| CalculatorPluginService.EmptyDiscovery | contribution-calculator-impl/src/main/java/income/tax/contribution/impl/ContributionModule.java:28-43 | Without the emptiness check, an empty discovery loads an empty registry, and then every request fails. |
| Calendar.DaysInMonth | income-impl/src/main/java/income/tax/impl/tools/DateUtils.java:33-36 | A month has 28 to 31 days: 29 exactly for February of a leap year, 28 exactly for February otherwise. |
| Calendar.NextDay | income-impl/src/main/java/income/tax/impl/CalculationServiceImpl.java:207 | The day after a real date is a real date. |
| Calendar.PreviousDay | income-impl/src/main/java/income/tax/impl/tools/DateUtils.java:43-44 | The day before a real date is a real date, and the next day after it is the date again. |
| Calendar.PlusMonths | income-impl/src/main/java/income/tax/impl/tools/IncomeUtils.java:78 | Adding months moves the year-and-month count by exactly that much. The day is kept, or clamped to the new month's length. |
| Calendar.MinusYears | calculator-impl/src/main/java/income/tax/impl/IncomeTaxCommand.java:54-57 | Going back years keeps the month and the day, except that 29 February becomes 28 February in a common year. |
| Calendar.PeriodMonths | income-impl/src/main/java/income/tax/impl/tools/IncomeUtils.java:47-48 | The months component of a period lies between -11 and 11. |
| Calendar.YearLength | income-impl/src/main/java/income/tax/impl/tools/IncomeUtils.java:20-25 | A year has 366 days exactly when it is a leap year, and 365 otherwise. |
| Calendar.NextDayIsOneDayLater | income-impl/src/main/java/income/tax/impl/CalculationServiceImpl.java:207 | The next day is exactly one day later on the day count. |
| Calendar.LaterMonthLaterDay | income-impl/src/main/java/income/tax/impl/tools/DateUtils.java:13-41 | Within one year, a date with a later month, or the same month and a later day, comes later. |
| Calendar.PeriodMonthsWithinYear | income-impl/src/main/java/income/tax/impl/tools/IncomeUtils.java:47-48 | Within one year, when the day does not go back, the period's months are the difference of the month numbers. |
| Calendar.PeriodMonthsToYearEnd | income-impl/src/main/java/income/tax/impl/tools/IncomeUtils.java:34-38 | From any date to the 31st of December of the same or a later year, the period's months component is 12 minus the start month. |
| Rounding.TruncDiv | income-impl/src/main/java/income/tax/impl/tools/IncomeUtils.java:67-69 | Division toward zero: the magnitude is the quotient of the magnitudes, and the sign is negative only for operands of opposite signs. |
| Rounding.TruncRem | income-impl/src/main/java/income/tax/impl/tools/IncomeUtils.java:81 | The remainder completes the truncated quotient, is smaller than the divisor and takes the dividend's sign. |
| Rounding.FloorOf | calculator-impl/src/main/java/income/tax/impl/contribution/Calculator2018.java:46-49 | The largest whole number not above the value. |
| Rounding.DownOf | calculator-impl/src/main/java/income/tax/impl/calculation/IncomeAdjusters.java:129-143 | Rounding toward zero: below the value in magnitude by less than one, with the value's sign. |
| Rounding.HalfEvenOf | contribution-calculator-impl/src/main/java/income/tax/contribution/impl/calculator/Calculator2019.java:9 | The nearest whole number, and the even one of two at a tie. |
| Rounding.RoundToInteger | contribution-impl/src/main/java/income/tax/contribution/impl/calculator/BaseCalculator.java:59-62 | Setting the scale to zero: at or below the value for FLOOR, at or above it for CEILING, below it in magnitude by less than one and with its sign for DOWN, the nearest whole number and the even one at a tie for HALF_EVEN. |
| Rounding.RoundedToIsUnique | contribution-impl/src/main/java/income/tax/contribution/impl/calculator/BaseCalculator.java:59-62 | Each mode admits only one whole number: any number that meets the mode's characterisation is the rounded value. |
| Rounding.CeilingCents | contribution-impl/src/main/java/income/tax/contribution/impl/calculator/BaseCalculator.java:107 | The least whole number of hundredths at or above the value. |
| Decimals.ExactDivide | calculator-impl/src/main/java/income/tax/impl/calculation/IncomeAdjusters.java:150-153 | An exact division fails exactly when the quotient has no finite decimal expansion: by zero, or as a non-terminating decimal otherwise. A success times the divisor gives the dividend back. |
| Decimals.GcdDivides | calculator-impl/src/main/java/income/tax/impl/calculation/IncomeAdjusters.java:150-153 | The greatest common divisor divides both numbers, and is positive unless both are zero. |
| Decimals.TwosAndFivesDividePowerOfTen | calculator-impl/src/main/java/income/tax/impl/calculation/IncomeAdjusters.java:150-153 | A divisor made only of twos and fives divides some power of ten. |
| Decimals.TerminatingQuotientIsDecimal | calculator-impl/src/main/java/income/tax/impl/calculation/IncomeAdjusters.java:150-153 | A quotient that terminates is a whole number once multiplied by some power of ten. |
| Decimals.DecimalQuotientTerminates | calculator-impl/src/main/java/income/tax/impl/calculation/IncomeAdjusters.java:150-153 | Conversely, a quotient that is a whole number once multiplied by some power of ten terminates. |
| Decimals.TerminatesIffDecimal | calculator-impl/src/main/java/income/tax/impl/calculation/IncomeAdjusters.java:150-153 | A quotient terminates exactly when some power of ten times the dividend is a multiple of the divisor, so exact division accepts exactly the quotients with a finite decimal expansion. |
| Decimals.PowerOfTenDivisorIsTwosAndFives | calculator-impl/src/main/java/income/tax/impl/calculation/IncomeAdjusters.java:150-153 | A positive divisor of a power of ten has no prime factor other than two and five. |
| Decimals.TerminatingExamples | calculator-impl/src/main/java/income/tax/impl/calculation/IncomeAdjusters.java:150-153 | A quarter, a fifth, an eighth and 300/12 terminate. |
| Decimals.NonTerminatingExamples | calculator-impl/src/main/java/income/tax/impl/calculation/IncomeAdjusters.java:150-153 | A third does not terminate, and neither does 1000/1200. |
| SortedKeys.InsertDescending | contribution-impl/src/main/java/income/tax/contribution/impl/ContributionModule.java:45-49 | Inserting keeps the list strictly descending and adds exactly the new key. |
| SortedKeys.DescendingDistinct | contribution-impl/src/main/java/income/tax/contribution/impl/ContributionModule.java:45-49 | The distinct keys, strictly descending, with exactly the elements of the input. |
| SortedKeys.Range | income-impl/src/main/java/income/tax/impl/CalculationServiceImpl.java:217-249 | The integers from lo to hi in order. |
| SortedKeys.Filter | income-impl/src/main/java/income/tax/impl/CalculationServiceImpl.java:217-249 | The elements of the list that are keys, in the list's order. An ascending list stays ascending. |
| SortedKeys.MonthsAscending | calculator-impl/src/main/java/income/tax/impl/calculation/IncomeAdjusters.java:93 | The month keys of a map, ascending: exactly the months 1 to 12 that are keys. |
| DateUtils.MinFirstDayOfMonthFromDate | income-impl/src/main/java/income/tax/impl/tools/DateUtils.java:18-21 | The date form is the date-time form applied to that date at midnight UTC. |
| DateUtils.MaxLastDayOfMonthFromDate | income-impl/src/main/java/income/tax/impl/tools/DateUtils.java:28-31 | The date form is the date-time form applied to that date at midnight UTC. |
| DateUtils.MinFirstDayOfMonth | income-impl/src/main/java/income/tax/impl/tools/DateUtils.java:13-16 | The 1st of the month of the instant, at midnight, in its offset. |
| DateUtils.MinFirstDayOfYear | income-impl/src/main/java/income/tax/impl/tools/DateUtils.java:23-26 | The 1st of January of the instant's year, at midnight, in its offset. |
| DateUtils.MaxLastDayOfMonth | income-impl/src/main/java/income/tax/impl/tools/DateUtils.java:33-36 | The month's last day, whose next day is a 1st, at the last nanosecond, in the instant's offset. |
| DateUtils.MaxLastDayOfYear | income-impl/src/main/java/income/tax/impl/tools/DateUtils.java:38-41 | The 31st of December of the instant's year, at the last nanosecond, in its offset. |
| DateUtils.JustBefore | income-impl/src/main/java/income/tax/impl/tools/DateUtils.java:43-44 | The last nanosecond of the day whose next day is the instant's date, in its offset. |
| DateUtils.WithLastDayOfYear | calculator-impl/src/main/java/income/tax/impl/calculation/IncomeAdjusters.java:121-127 | The 31st of December of the same year, time of day and offset kept. |
| DateUtils.WithFirstDayOfYear | calculator-impl/src/main/java/income/tax/impl/calculation/IncomeAdjusters.java:97 | The 1st of January of the same year, time of day and offset kept. |
| DateUtils.MonthBracket | income-impl/src/main/java/income/tax/impl/tools/DateUtils.java:13-16 | Every instant lies between the first and the last instant of its month, and both ends keep its year and month. |
| DateUtils.YearBracket | income-impl/src/main/java/income/tax/impl/tools/DateUtils.java:23-41 | Every instant lies between the first and the last instant of its year. |
| DateUtils.LastDayOfMonthIsLast | income-impl/src/main/java/income/tax/impl/tools/DateUtils.java:33-36 | The day after the month's last day is the 1st of the next month. |
| DateUtils.SnapIdempotent | income-impl/src/main/java/income/tax/impl/tools/DateUtils.java:13-36 | Snapping to the start or the end of a month is idempotent, and either end of a month snaps to the same two ends. |
| DateUtils.JustBeforeIsEndOfPreviousDay | income-impl/src/main/java/income/tax/impl/tools/DateUtils.java:43-44 | The result is one nanosecond before the start of the given day, on the day before it. |
| Incomes.MonthCount | income-impl/src/main/java/income/tax/impl/tools/IncomeUtils.java:47-48 | The month count of a span is the period's months plus one, so it lies between -10 and 12. |
| Incomes.YearIncome | income-impl/src/main/java/income/tax/impl/tools/IncomeUtils.java:20-25 | The income runs from 1 January at midnight to 31 December at the last nanosecond, in UTC. It covers twelve months and keeps the amount and type. |
| IncomeUtils.Scale | income-impl/src/main/java/income/tax/impl/tools/IncomeUtils.java:46-56 | Scaling fails exactly when the income's month count is zero. Otherwise the new amount is the amount times the new months over the old, rounded toward zero, on the new span. |
| IncomeUtils.ScaleToFullYear | income-impl/src/main/java/income/tax/impl/tools/IncomeUtils.java:27-32 | Scaling fails exactly when the income covers no month. Otherwise the result is the UTC year income for the year, with the amount times twelve over the income's month count, truncated toward zero; a twelve-month income keeps its amount. |
| IncomeUtils.ScaleToOwnFullYear | income-impl/src/main/java/income/tax/impl/tools/IncomeUtils.java:16-18 | As ScaleToFullYear, for the year the income starts in: the amount times twelve over the month count, truncated toward zero. |
| IncomeUtils.ScaleToEndOfYear | income-impl/src/main/java/income/tax/impl/tools/IncomeUtils.java:34-38 | Scaling fails exactly when the income covers no month. The span runs from the start month's first instant to 31 December of the end's year, and the amount is the amount times the new month count over the old, truncated toward zero. When the end is not in an earlier year than the start, the span covers 13 minus the start month months. |
| IncomeUtils.ScaleToEndOfYearFromStart | calculator-impl/src/main/java/income/tax/impl/tools/IncomeUtils.java:26-28 | The same, keeping the start instant as it is: the same failure, span length and truncated amount. |
| IncomeUtils.ToCompleteMonths | income-impl/src/main/java/income/tax/impl/tools/IncomeUtils.java:40-44 | The whole amount is placed on the income's start month, from its first to its last instant, which makes one month. |
| IncomeUtils.MonthShare | income-impl/src/main/java/income/tax/impl/tools/IncomeUtils.java:75-77 | A share covers exactly one whole calendar month. |
| IncomeUtils.SpreadOutOverMonths | income-impl/src/main/java/income/tax/impl/tools/IncomeUtils.java:58-86 | Spreading fails exactly when the month count is zero or negative: as a division by zero for zero, as the map's negative initial capacity below zero. A one-month income is returned as is. Otherwise the months from the start month up to the end month get the share (amount over count, truncated toward zero), and the end month gets what the other shares leave. |
| IncomeUtils.ScaleToOwnSpanIsIdentity | income-impl/src/main/java/income/tax/impl/tools/IncomeUtils.java:46-56 | Scaling an income to its own span gives it back unchanged. |
| IncomeUtils.MonthCountOfAlignedSpan | income-impl/src/main/java/income/tax/impl/tools/IncomeUtils.java:47-48 | In one year, when the end day is not before the start day, the month count is the number of calendar months touched. |
| IncomeUtils.SumOfShares | income-impl/src/main/java/income/tax/impl/tools/IncomeUtils.java:71-84 | The sum over the months from lo on is the shares below the end month plus the last share. |
| IncomeUtils.SpreadConservesAmount | income-impl/src/main/java/income/tax/impl/tools/IncomeUtils.java:58-86 | When the months walked equal the month count, the shares add up to the amount. |
| IncomeUtils.SpreadOfAlignedSpanConserves | income-impl/src/main/java/income/tax/impl/tools/IncomeUtils.java:58-86 | An aligned span within one year is spread without loss or gain. |
| IncomeUtils.NormalisedIncomesSpreadExactly | income-impl/src/main/java/income/tax/impl/tools/IncomeUtils.java:34-44 | An income scaled to the end of its year (either form), or folded into its month, is spread without loss or gain. |
| IncomeUtils.MisalignedSpanIsOverSpread | income-impl/src/main/java/income/tax/impl/tools/IncomeUtils.java:58-86 | From 15 January to 10 March the count is 2, yet three months receive 50 each, so 100 becomes 150. |
| IncomeUtils.QuarterSpread | income-impl/src/test/java/income/tax/impl/domain/IncomeTaxEntityTest.java:194-201 | A quarter's 10000 is spread as 3333, 3333 and 3334 over April to June. |
| IncomeUtils.YearIncomeSpread | income-impl/src/main/java/income/tax/impl/tools/IncomeUtils.java:58-86 | A year income is spread over its twelve months: a twelfth on January to November, the rest on December, adding up to the amount. |
| IncomeUtils.YearSharesAreTheSpread | income-impl/src/main/java/income/tax/impl/tools/IncomeUtils.java:58-86 | Spreading a year income gives the twelve monthly shares of that year: the truncated twelfth from January to November and the rest in December. |
| ContributionStates.Empty | calculator-impl/src/main/java/income/tax/impl/domain/ContributionState.java:29-34 | The empty contribution state has all twelve months, each without lines. |
| ContributionStates.Update | calculator-impl/src/main/java/income/tax/impl/domain/ContributionState.java:36-38 | Each month of the update takes the new lines as a whole, and every other month keeps its lines. |
| ContributionStates.UpdateWithNothing | calculator-impl/src/main/java/income/tax/impl/domain/ContributionState.java:36-38 | An update with no months changes nothing. |
| ContributionStates.UpdatesCompose | calculator-impl/src/main/java/income/tax/impl/domain/ContributionState.java:36-38 | Two updates in a row are one update in which the later lines win. |
| ContributionStates.UpdateOfEmpty | calculator-impl/src/main/java/income/tax/impl/domain/ContributionState.java:29-38 | Updating the empty state keeps exactly the twelve months, and a month left out of the update stays without lines. |
| DomainCommands.NewRegister | income-impl/src/main/java/income/tax/impl/domain/IncomeTaxCommand.java:46-51 | The command is built exactly when the id, the date and the previous income are given. Otherwise the first missing one is reported by name. Given contributions may be absent and are kept. |
| DomainCommands.PreviousYear | income-impl/src/main/java/income/tax/impl/domain/IncomeTaxCommand.java:58-61 | The previous income built from an amount keeps the amount and type. It runs from midnight on the 1st of January to the last instant of the 31st of December of the year before registration, in the registration's offset. |
| DomainCommands.NewRegisterFromAmount | income-impl/src/main/java/income/tax/impl/domain/IncomeTaxCommand.java:53-62 | The command is built exactly when the id, the date and the type are given. Otherwise "name", "registrationDate" or "incomeType" is reported, in that order. The previous income is PreviousYear. |
| DomainCommands.NewApplyIncome | income-impl/src/main/java/income/tax/impl/domain/IncomeTaxCommand.java:83-89 | The command is built exactly when the id, the income and the contributions are given. A missing contributions map is reported without a name. The flags are kept as given. |
| DomainCommands.AmountFormCoversTheYear | income-impl/src/main/java/income/tax/impl/domain/IncomeTaxCommand.java:58-61 | The previous income built from an amount covers twelve months, so rescaling it to its own year keeps the amount. |
| DomainState.Of | income-impl/src/main/java/income/tax/impl/domain/IncomeTaxState.java:67-71 | The state keeps the id, the flag and the date. The previous income is the only one and is filed under the year before registration. The registration year is the contribution year. There are no current incomes and the contribution state is empty. |
| DomainState.OfUnregistered | income-impl/src/main/java/income/tax/impl/domain/IncomeTaxState.java:72-74 | The two-argument form is the unregistered state with a zero previous income. |
| DomainState.Initial | income-impl/src/main/java/income/tax/impl/domain/IncomeTaxState.java:29-30 | The initial state is the unregistered "john doe" at the clock reading. |
| DomainState.NewModifier | income-impl/src/main/java/income/tax/impl/domain/IncomeTaxState.java:91-97 | A new builder starts from the state's maps, contribution state and year. |
| DomainState.WithNewPreviousYearlyIncome | income-impl/src/main/java/income/tax/impl/domain/IncomeTaxState.java:99-102 | The given years are merged into the previous incomes, the given entries winning. Nothing else in the builder changes. |
| DomainState.WithNewCurrentIncomes | income-impl/src/main/java/income/tax/impl/domain/IncomeTaxState.java:104-107 | The given months are merged into the current incomes, the given entries winning. Nothing else in the builder changes. |
| DomainState.WithNewIncome | income-impl/src/main/java/income/tax/impl/domain/IncomeTaxState.java:109-114 | The update fails exactly when the spread fails. Otherwise it merges the income's monthly spread into the current incomes. |
| DomainState.WithNewContributionState | income-impl/src/main/java/income/tax/impl/domain/IncomeTaxState.java:116-119 | The contribution state is replaced and nothing else changes. |
| DomainState.WithNewContributions | income-impl/src/main/java/income/tax/impl/domain/IncomeTaxState.java:121-124 | The contribution state is updated month by month and nothing else changes. |
| DomainState.WithNewContributionYear | income-impl/src/main/java/income/tax/impl/domain/IncomeTaxState.java:133-136 | The contribution year is replaced and nothing else changes. |
| DomainState.Modify | income-impl/src/main/java/income/tax/impl/domain/IncomeTaxState.java:126-131 | The id, the flag and the date come from the original state, and every other part comes from the builder. |
| DomainState.UntouchedModifierRebuilds | income-impl/src/main/java/income/tax/impl/domain/IncomeTaxState.java:91-97 | A builder nobody touched rebuilds the state it started from. |
| DomainState.MergeIsIdempotent | income-impl/src/main/java/income/tax/impl/domain/IncomeTaxState.java:104-107 | Merging the same incomes twice is merging them once. |
| DomainState.ContributionSettersAgree | income-impl/src/main/java/income/tax/impl/domain/IncomeTaxState.java:116-124 | The updating setter is the replacing setter given the updated state. |
| OlderDomainState.Base | calculator-impl/src/main/java/income/tax/impl/domain/IncomeTaxState.java:59-63 | The private constructor files the previous income alone under the year before registration. The registration year is the contribution year. There are no incomes or contributions. |
| OlderDomainState.Empty | calculator-impl/src/main/java/income/tax/impl/domain/IncomeTaxState.java:26 | The empty state is "nobody" at the clock reading, with a zero previous income for the year before. |
| OlderDomainState.NewModifier | calculator-impl/src/main/java/income/tax/impl/domain/IncomeTaxState.java:86-91 | A new builder starts from the state's three maps. |
| OlderDomainState.WithNewPreviousYearlyIncome | calculator-impl/src/main/java/income/tax/impl/domain/IncomeTaxState.java:93-96 | The setter replaces the previous incomes and changes nothing else. |
| OlderDomainState.WithNewCurrentIncomes | calculator-impl/src/main/java/income/tax/impl/domain/IncomeTaxState.java:98-101 | The setter replaces the current incomes and changes nothing else. |
| OlderDomainState.WithNewContributions | calculator-impl/src/main/java/income/tax/impl/domain/IncomeTaxState.java:103-106 | The setter replaces the contributions and changes nothing else. |
| OlderDomainState.Modify | calculator-impl/src/main/java/income/tax/impl/domain/IncomeTaxState.java:108-113 | The id, the date and the contribution year come from the original state, and the maps come from the builder. |
| OlderDomainState.UntouchedModifierRebuilds | calculator-impl/src/main/java/income/tax/impl/domain/IncomeTaxState.java:86-113 | A builder nobody touched rebuilds the state it started from. |
| OlderDomainState.LastSetterWins | calculator-impl/src/main/java/income/tax/impl/domain/IncomeTaxState.java:93-101 | Setting a map twice keeps only the second value. |
| OlderDomainState.SettersCommute | calculator-impl/src/main/java/income/tax/impl/domain/IncomeTaxState.java:93-106 | Setters of different maps give the same builder in either order. |
| OlderDomainState.ModifyKeepsTheYear | calculator-impl/src/main/java/income/tax/impl/domain/IncomeTaxState.java:108-113 | No sequence of setters changes the contribution year, the id or the date, and the rebuilt maps are the ones last set. |
| OlderDomainState.OfWithoutNewYear | calculator-impl/src/main/java/income/tax/impl/domain/IncomeTaxState.java:65-70 | With an adjuster that changes nothing, `of` is the fresh state. |
| OlderDomainState.ReplacingForgetsWhatMergingKeeps | calculator-impl/src/main/java/income/tax/impl/domain/IncomeTaxState.java:98-101 | Setting April's incomes on a state that knows March forgets March in this builder. The income service's merging builder keeps it. |
| DomainAdjusters.StartupCalculators | calculator-impl/src/main/java/income/tax/impl/domain/IncomeAdjusters.java:23-31 | The registry is never empty: it is the loaded calculators, or the 2018 calculator alone under 2018 when none were loaded. |
| DomainAdjusters.CalculateContributions | calculator-impl/src/main/java/income/tax/impl/domain/IncomeAdjusters.java:133-155 | There is one entry per month of the incomes. Each month's unrounded income goes through the calculator of the year when the registry has one, and through the first calculator otherwise. |
| DomainAdjusters.YearSpread | calculator-impl/src/main/java/income/tax/impl/domain/IncomeAdjusters.java:44-47 | The spread has exactly months 1 to 12, dated in the given year and of the income's type, and adds up to the income rescaled to that year. |
| DomainAdjusters.BeforeRegistration | calculator-impl/src/main/java/income/tax/impl/domain/IncomeAdjusters.java:39-65 | The update fails exactly when the income covers no month. Otherwise it files a whole-year income of the amount under the year before the contribution year and merges the year spread into the current incomes. It updates the contributions of those months and changes nothing else. |
| DomainAdjusters.CurrentYear | calculator-impl/src/main/java/income/tax/impl/domain/IncomeAdjusters.java:73-91 | The update fails exactly when the income covers no month. Otherwise the income's months override those of the current incomes and get freshly computed contributions. Every other month, the previous incomes, the identity and the year are kept. |
| DomainAdjusters.NewYear | calculator-impl/src/main/java/income/tax/impl/domain/IncomeAdjusters.java:99-131 | The contribution year moves up by one. The closing year's twelve-month total is filed under it as a system income and spread again over the next year. The contributions of those months are updated with the closing year's calculator. |
| DomainAdjusters.NextYearSpread | calculator-impl/src/main/java/income/tax/impl/domain/IncomeAdjusters.java:103-116 | Months 1 to 12, dated in the next year, of the system type, adding up to the closing year's twelve-month total. |
| DomainAdjusters.FreshStateIsMonthKeyed | income-impl/src/main/java/income/tax/impl/domain/IncomeTaxState.java:67-71 | A fresh state is keyed by month numbers only. |
| DomainAdjusters.BeforeRegistrationKeepsMonthKeys | calculator-impl/src/main/java/income/tax/impl/domain/IncomeAdjusters.java:39-65 | `beforeRegistration` keeps the state keyed by month numbers. |
| DomainAdjusters.CurrentYearKeepsMonthKeys | calculator-impl/src/main/java/income/tax/impl/domain/IncomeAdjusters.java:73-91 | `currentYear` keeps the state keyed by month numbers. |
| DomainAdjusters.NewYearKeepsMonthKeys | calculator-impl/src/main/java/income/tax/impl/domain/IncomeAdjusters.java:99-131 | `newYear` keeps the state keyed by month numbers. |
| DomainAdjusters.BeforeRegistrationFillsTheYear | calculator-impl/src/main/java/income/tax/impl/domain/IncomeAdjusters.java:44-61 | After `beforeRegistration`, the twelve current months add up to the income rescaled to the registration year. |
| DomainAdjusters.BeforeRegistrationContributions | calculator-impl/src/main/java/income/tax/impl/domain/IncomeAdjusters.java:53-62 | After `beforeRegistration`, each of the twelve months carries the contributions of its own income. |
| DomainAdjusters.NewYearKeepsTheTotal | calculator-impl/src/main/java/income/tax/impl/domain/IncomeAdjusters.java:103-127 | The next year's twelve months add up to the closing year's, and that is also the income filed for the closing year. |
| DomainAdjusters.NewYearUsesTheClosingYearCalculator | calculator-impl/src/main/java/income/tax/impl/domain/IncomeAdjusters.java:119-120 | The next year's months are computed with the closing year's calculator. |
| DomainAdjusters.RegistrationOfANewcomer | calculator-impl/src/main/java/income/tax/impl/domain/IncomeAdjusters.java:39-65 | Registering a contributor with no current income yet keeps the contribution year, files the previous income as given under the year before, and leaves exactly the months 1 to 12, each dated in the registration year. |
| DomainAdjusters.BeforeRegistrationRecordsTheIncome | calculator-impl/src/main/java/income/tax/impl/domain/IncomeAdjusters.java:51 | The registration income is filed as a whole-year income under the year before the contribution year. |
| DomainEntity.CheckIncomeArguments | calculator-impl/src/main/java/income/tax/impl/domain/IncomeTaxEntity.java:124-145 | An unregistered contributor is refused first. On the month-widened span, a start after the end, then two years, then a year other than the contribution year are refused, each with its own error. There is no error exactly when the contributor is registered, the span is ordered, and both ends are in the contribution year. |
| DomainEntity.Handle | calculator-impl/src/main/java/income/tax/impl/domain/IncomeTaxEntity.java:67-99 | Register fails on a registered contributor. Otherwise it persists the registration and the schedule start on the previous income rescaled to its year, and fails exactly when that income covers no month. ApplyIncome fails with the check's error. Otherwise it persists one income stamped now, rescaled to the end of the year when asked, and fails only when that rescaling divides by zero. |
| DomainEntity.Apply | calculator-impl/src/main/java/income/tax/impl/domain/IncomeTaxEntity.java:103-117 | A registration gives a fresh registered state for its year, with empty contributions. The other events fail exactly when their income covers no month, and keep the identity, flag, date and year. |
| DomainEntity.Replay | calculator-impl/src/main/java/income/tax/impl/domain/IncomeTaxEntity.java:103-117 | Replaying no event gives the state back; replaying events none of which is a registration keeps the contributor, the registration flag and date and the contribution year. |
| DomainEntity.Reply | calculator-impl/src/main/java/income/tax/impl/domain/IncomeTaxEntity.java:77-80 | The reply reports the state's contributor and contribution year. |
| DomainEntity.ReplayConcatenation | calculator-impl/src/main/java/income/tax/impl/domain/IncomeTaxEntity.java:103-117 | Replaying a concatenation replays the first part, then the second from where it ended, and stops at the first failure. |
| DomainEntity.SameMonthPassesPeriodChecks | calculator-impl/src/main/java/income/tax/impl/domain/IncomeTaxEntity.java:129-145 | For a registered contributor, an income within one month of the contribution year, in one offset, passes the checks whatever the order of its days. |
| DomainEntity.AcceptedIncomeThatCannotBeApplied | calculator-impl/src/main/java/income/tax/impl/domain/IncomeTaxEntity.java:85-98 | With offsets, an income from 31 March 2019 at +18:00 to 28 February 2019 in UTC passes every check. Without rescaling its event is persisted and cannot be applied. With rescaling the command fails. |
| DomainRegistration.RegistrationEventsReplay | calculator-impl/src/main/java/income/tax/impl/domain/IncomeTaxEntity.java:103-109 | The two registration events replay, from any state, to the schedule started on a fresh registered state. |
| DomainRegistration.ReplayFirst | calculator-impl/src/main/java/income/tax/impl/domain/IncomeTaxEntity.java:103-117 | Replaying after a first event that applies continues from its state. |
| DomainRegistration.ReplayOne | calculator-impl/src/main/java/income/tax/impl/domain/IncomeTaxEntity.java:103-117 | Replaying one event is applying it. |
| DomainRegistration.FreshScheduleKeepsRegistration | calculator-impl/src/main/java/income/tax/impl/domain/IncomeTaxEntity.java:103-109 | Starting the schedule keeps the registration and makes the registration year the contribution year. |
| DomainRegistration.FreshScheduleRecordsPreviousYear | calculator-impl/src/main/java/income/tax/impl/domain/IncomeAdjusters.java:51-60 | The schedule files a whole-year income of the amount under the year before registration. |
| DomainRegistration.FreshScheduleFillsTheYear | calculator-impl/src/main/java/income/tax/impl/domain/IncomeAdjusters.java:44-61 | A twelve-month income fills exactly the twelve months, and they add up to its amount. |
| DomainRegistration.AcceptedRegistrationEvents | calculator-impl/src/main/java/income/tax/impl/domain/IncomeTaxEntity.java:75-82 | An accepted registration persists the registration and the schedule start on a twelve-month income of the same type. |
| DomainRegistration.RegistrationEventsSchedule | calculator-impl/src/main/java/income/tax/impl/domain/IncomeTaxEntity.java:103-109 | After the registration events the contributor is registered for the registration year. The previous year is filed at the whole-year amount, and the twelve months add up to it. |
| DomainRegistration.RegistrationEventsReply | calculator-impl/src/main/java/income/tax/impl/domain/IncomeTaxEntity.java:159-197 | The reply after the registration events reports the whole-year amount as the yearly income. |
| DomainRegistration.RegistrationReply | calculator-impl/src/main/java/income/tax/impl/domain/IncomeTaxEntity.java:67-83 | The reply to an accepted registration reports the previous income, rescaled to its year, as the yearly income. |
| ContributionReports.CodesIn | calculator-impl/src/main/java/income/tax/impl/domain/IncomeTaxEntity.java:184-190 | The codes filed in any listed month. |
| SortedKeys.Entries | calculator-impl/src/main/java/income/tax/impl/domain/IncomeTaxEntity.java:178-182 | The listed keys, each paired with its value, in the order given: the month lines of a contribution report and of a service reply. |
| ContributionReports.MonthEntries | calculator-impl/src/main/java/income/tax/impl/domain/IncomeTaxEntity.java:178-182 | Every month of the map, each once with its lines (an empty month included), in strictly ascending month order. |
| ContributionReports.Totals | calculator-impl/src/main/java/income/tax/impl/domain/IncomeTaxEntity.java:184-190 | Exactly the codes filed in some month, each with its amounts added up over the months. |
| ContributionReports.ContributionsFrom | calculator-impl/src/main/java/income/tax/impl/domain/IncomeTaxEntity.java:159-198 | The reply keeps the id and the year, lists the months in ascending order with their lines, and totals exactly the codes filed. Its yearly income is the sum of the current incomes. |
| ContributionReports.EveryMonthListed | calculator-impl/src/main/java/income/tax/impl/domain/IncomeTaxEntity.java:163-182 | Every month that has lines is listed. |
| ContributionReports.TotalIsSumOverMonths | calculator-impl/src/main/java/income/tax/impl/domain/IncomeTaxEntity.java:184-190 | A code's total is its amounts added up over the months January to December. |
| ContributionReports.ReplacedMonthMovesTotal | calculator-impl/src/main/java/income/tax/impl/domain/ContributionState.java:36-38 | Replacing one month's lines moves each code's total by exactly that month's difference. |
| ContributionReports.FilterKeepsTotal | calculator-impl/src/main/java/income/tax/impl/domain/IncomeTaxEntity.java:184-190 | Leaving out months without lines keeps every total. |
| ContributionReports.FullYearIncome | calculator-impl/src/main/java/income/tax/impl/domain/IncomeTaxEntity.java:192-195 | With all twelve months known, the yearly income is their sum. |
| ContributionReports.FilterOfAll | calculator-impl/src/main/java/income/tax/impl/domain/IncomeTaxEntity.java:192-195 | Filtering a list on keys it already has keeps it. |
| LegacyAdjusters.Scale | calculator-impl/src/main/java/income/tax/impl/calculation/IncomeAdjusters.java:129-143 | A twelve-month income is returned as it is. Otherwise scaling succeeds exactly when the amount in hundredths divides exactly by the months. It then gives the amount over the months times the new months, rounded toward zero, on the new span; a zero count fails as a division by zero. |
| LegacyAdjusters.ProRata | calculator-impl/src/main/java/income/tax/impl/calculation/IncomeAdjusters.java:136-140 | The pro-rated amount is the exact value of the amount in hundredths times the new months over the old, rounded toward zero: below it in magnitude by less than one, with its sign. |
| LegacyAdjusters.ScaleToFullYear | calculator-impl/src/main/java/income/tax/impl/calculation/IncomeAdjusters.java:121-123 | A twelve-month income is kept. Any other is rescaled exactly when its amount in hundredths divides exactly by its month count; it is widened to the 1st of January and 31st of December of its own dates, with the amount pro-rated from its months to the new span's. When the end is not in an earlier year than the start, that span is twelve months. |
| LegacyAdjusters.ScaleToEndOfYear | calculator-impl/src/main/java/income/tax/impl/calculation/IncomeAdjusters.java:125-127 | A twelve-month income is kept. Any other keeps its start, succeeds exactly when the division terminates, ends on the 31st of December of its end year and is pro-rated to the new span; when the end is not in an earlier year than the start, that span is 13 minus the start month months. |
| LegacyAdjusters.ScaleToMonth | calculator-impl/src/main/java/income/tax/impl/calculation/IncomeAdjusters.java:145-158 | The share succeeds exactly when the amount in hundredths divides exactly by the income's months. It is then that quotient rounded toward zero, over the whole given month in the income's offset. |
| LegacyAdjusters.HistoryOf | calculator-impl/src/main/java/income/tax/impl/calculation/IncomeAdjusters.java:53-94 | The registration date and the previous incomes of the state, which is all the update reads. |
| LegacyAdjusters.ZeroYearBefore | calculator-impl/src/main/java/income/tax/impl/calculation/IncomeAdjusters.java:98-99 | A zero automatic income dated in the year before the income's. |
| LegacyAdjusters.BeforeRegistration | calculator-impl/src/main/java/income/tax/impl/calculation/IncomeAdjusters.java:96-119 | Registered before the year, or with no income for the year before registration, the result is the zero income of the year before. Otherwise it runs from the 1st of January to just before the earlier of the income's start and the registration, with last year's twelfth times the months. It fails exactly when that twelfth does not terminate. |
| LegacyAdjusters.FillMonths | calculator-impl/src/main/java/income/tax/impl/calculation/IncomeAdjusters.java:66-68 | Filling months first to last fails exactly when that range is non-empty and the share does not terminate. It adds exactly those months and leaves every other month as it was. |
| LegacyAdjusters.FromBeforeRegistration | calculator-impl/src/main/java/income/tax/impl/calculation/IncomeAdjusters.java:63-69 | Nothing is added unless the income before registration falls in the income's year. January is set exactly then. |
| LegacyAdjusters.FromNewIncome | calculator-impl/src/main/java/income/tax/impl/calculation/IncomeAdjusters.java:71-75 | The months from the income's start month to its end month are added to the known ones, from the income scaled to the end of its year. |
| LegacyAdjusters.January | calculator-impl/src/main/java/income/tax/impl/calculation/IncomeAdjusters.java:77-84 | A missing January is set to January's share of last year's income when that income is known. Otherwise nothing changes. |
| LegacyAdjusters.FillGaps | calculator-impl/src/main/java/income/tax/impl/calculation/IncomeAdjusters.java:85-91 | Known months are kept and every month from m to 12 is filled. A missing month whose predecessor is missing fails on that month. |
| LegacyAdjusters.Complete | calculator-impl/src/main/java/income/tax/impl/calculation/IncomeAdjusters.java:77-91 | After January and the gaps, every month from February to December is present, and only months 1 to 12. |
| LegacyAdjusters.Gather | calculator-impl/src/main/java/income/tax/impl/calculation/IncomeAdjusters.java:71-91 | The same holds after the new income is added. |
| LegacyAdjusters.MonthlyIncomes | calculator-impl/src/main/java/income/tax/impl/calculation/IncomeAdjusters.java:53-91 | The monthly map holds only months 1 to 12, and every month from February to December. |
| LegacyAdjusters.InOrder | calculator-impl/src/main/java/income/tax/impl/calculation/IncomeAdjusters.java:93 | The incomes of the given months, in that order. |
| LegacyAdjusters.UpdateIncomes | calculator-impl/src/main/java/income/tax/impl/calculation/IncomeAdjusters.java:53-94 | The update fails exactly when the monthly gathering fails, with the same error. Otherwise it lists the monthly incomes in ascending month order. |
| LegacyAdjusters.Month | calculator-impl/src/main/java/income/tax/impl/calculation/IncomeAdjusters.java:38-47 | The update fails exactly when the incomes cannot be updated. Otherwise the current incomes become the updated list and the raw income is filed under its start year. Everything else is kept. |
| LegacyAdjusters.PreviousYear | calculator-impl/src/main/java/income/tax/impl/calculation/IncomeAdjusters.java:23-36 | The update fails exactly when rescaling the income to its year fails. Otherwise the rescaled income is filed under its start year and everything else is kept. |
| LegacyAdjusters.GapsCopyThePreviousMonth | calculator-impl/src/main/java/income/tax/impl/calculation/IncomeAdjusters.java:85-91 | Each month the gap filling adds is the share of the month before it, rescaled to its own month. |
| LegacyAdjusters.NewIncomeFillsItsMonths | calculator-impl/src/main/java/income/tax/impl/calculation/IncomeAdjusters.java:71-75 | Each month of the new income's span holds its share of the income scaled to the end of the year. |
| LegacyAdjusters.FillMonthsShares | calculator-impl/src/main/java/income/tax/impl/calculation/IncomeAdjusters.java:66-68 | Each month of the filled range holds its share of the source. |
| LegacyAdjusters.FillMonthsStep | calculator-impl/src/main/java/income/tax/impl/calculation/IncomeAdjusters.java:66-68 | Filling a range is setting its first month and filling the rest. |
| LegacyAdjusters.CompletionSteps | calculator-impl/src/main/java/income/tax/impl/calculation/IncomeAdjusters.java:77-91 | Completion is January followed by gap filling from February. |
| LegacyAdjusters.GatheringSteps | calculator-impl/src/main/java/income/tax/impl/calculation/IncomeAdjusters.java:71-91 | Gathering is the new income followed by completion. |
| LegacyAdjusters.MonthlySteps | calculator-impl/src/main/java/income/tax/impl/calculation/IncomeAdjusters.java:63-91 | The monthly gathering is the months before registration followed by the gathering, and fails with their error. |
| LegacyAdjusters.GapsLeaveJanuary | calculator-impl/src/main/java/income/tax/impl/calculation/IncomeAdjusters.java:86 | Gap filling starts at February, so it never adds January. |
| LegacyAdjusters.JanuaryAfterCompletion | calculator-impl/src/main/java/income/tax/impl/calculation/IncomeAdjusters.java:77-84 | After completion, January is present exactly when it was before or last year's income is known. |
| LegacyAdjusters.JanuaryAfterGathering | calculator-impl/src/main/java/income/tax/impl/calculation/IncomeAdjusters.java:71-84 | After gathering, January is present exactly when it was known, the income starts in January, or last year's income is known. |
| LegacyAdjusters.WhenJanuaryIsKnown | calculator-impl/src/main/java/income/tax/impl/calculation/IncomeAdjusters.java:53-91 | January is in the result exactly when the contributor registered within the year with last year known, the income starts in January, or last year's income is filed. |
| LegacyAdjusters.MissingJanuaryFails | calculator-impl/src/main/java/income/tax/impl/calculation/IncomeAdjusters.java:85-91 | With January unknown and the income starting after February, the update fails, and a missing-income failure names February. |
| LegacyAdjusters.KnownIncomesAreNotCopied | calculator-impl/src/main/java/income/tax/impl/calculation/IncomeAdjusters.java:57-61 | The state's current incomes play no part in the update: two states that agree on the registration date and the previous incomes update alike. |
| LegacyAdjusters.AscendingWithSameElements | calculator-impl/src/main/java/income/tax/impl/calculation/IncomeAdjusters.java:93 | Two strictly ascending lists with the same elements are equal. |
| LegacyAdjusters.MonthsFromJanuaryOrFebruary | calculator-impl/src/main/java/income/tax/impl/calculation/IncomeAdjusters.java:93 | A map holding every month from February lists its months as 1..12, or 2..12 without January. |
| LegacyAdjusters.UpdatedIncomesInMonthOrder | calculator-impl/src/main/java/income/tax/impl/calculation/IncomeAdjusters.java:93 | The updated list is the monthly incomes of January (when present) to December, in calendar order. |
| LegacyAdjusters.CompletedAreValid | calculator-impl/src/main/java/income/tax/impl/calculation/IncomeAdjusters.java:77-91 | Every completed month holds an income with real dates. |
| LegacyAdjusters.GatheredAreValid | calculator-impl/src/main/java/income/tax/impl/calculation/IncomeAdjusters.java:71-91 | Every gathered month holds an income with real dates. |
| LegacyAdjusters.MonthlyAreValid | calculator-impl/src/main/java/income/tax/impl/calculation/IncomeAdjusters.java:53-91 | Every monthly income has real dates. |
| LegacyAdjusters.UpdatedAreValid | calculator-impl/src/main/java/income/tax/impl/calculation/IncomeAdjusters.java:53-94 | Every listed income has real dates. |
| LegacyAdjusters.MonthKeepsTheStateValid | calculator-impl/src/main/java/income/tax/impl/calculation/IncomeAdjusters.java:38-47 | `month` keeps every date of the state real. |
| LegacyAdjusters.PreviousYearKeepsTheStateValid | calculator-impl/src/main/java/income/tax/impl/calculation/IncomeAdjusters.java:23-36 | `previousYear` keeps every date of the state real. |
| LegacyState.Code | calculator-impl/src/main/java/income/tax/impl/calculation/ContributionType.java:5-16 | Every contribution type has a non-empty rule code. |
| LegacyState.CodesAreDistinct | calculator-impl/src/main/java/income/tax/impl/calculation/ContributionType.java:5-16 | Two types share a code exactly when they are the same type. |
| LegacyState.Fresh | calculator-impl/src/main/java/income/tax/impl/IncomeTaxState.java:58-60 | The two-argument state keeps the id and date, takes the registration year as its contribution year, and has no incomes or contributions. |
| LegacyState.Empty | calculator-impl/src/main/java/income/tax/impl/IncomeTaxState.java:26 | The empty state is the fresh state of "nobody" at the given clock reading. |
| LegacyState.Registered | calculator-impl/src/main/java/income/tax/impl/IncomeTaxEntity.java:91-93 | A registration state is fresh, except that it holds the given previous income under the year before registration, and only that. |
| LegacyState.RegisteredExtendsFresh | calculator-impl/src/main/java/income/tax/impl/IncomeTaxEntity.java:91-93 | A registration state differs from the fresh one only by its previous incomes. |
| LegacyCommands.NewRegister | calculator-impl/src/main/java/income/tax/impl/IncomeTaxCommand.java:43-48 | The command is built exactly when the id, the date and the previous income are all given. Otherwise the first missing one is reported by name. |
| LegacyCommands.LastYearStart | calculator-impl/src/main/java/income/tax/impl/IncomeTaxCommand.java:54-55 | The 1st of January of the year before registration, at midnight, in the registration's offset. |
| LegacyCommands.PreviousYearAsWritten | calculator-impl/src/main/java/income/tax/impl/IncomeTaxCommand.java:54-57 | As written, the previous income both starts and ends at LastYearStart. |
| LegacyCommands.NewRegisterFromAmount | calculator-impl/src/main/java/income/tax/impl/IncomeTaxCommand.java:50-58 | The command is built exactly when the id, the date and the type are given. Otherwise "name", "registrationDate" or "incomeType" is reported, in that order. It carries PreviousYearAsWritten. |
| LegacyCommands.NewRegisterFromWholeYear | calculator-impl/src/main/java/income/tax/impl/IncomeTaxCommand.java:50-58 | The corrected form fails exactly where the as-written one does, with the same error. It carries an income over the whole year before registration. |
| LegacyCommands.NewApplyIncome | calculator-impl/src/main/java/income/tax/impl/IncomeTaxCommand.java:75-79 | The command is built exactly when the id and the income are given, and otherwise reports the first missing one. |
| LegacyCommands.AsWrittenCoversOneMonth | calculator-impl/src/main/java/income/tax/impl/IncomeTaxCommand.java:54-57 | The as-written previous income counts as a single month. |
| LegacyCommands.JanuaryComesFromTheRegisteredIncome | calculator-impl/src/main/java/income/tax/impl/calculation/IncomeAdjusters.java:63-84 | For an income of the registration year that starts after January and later in the day than a New Year's Day registration, nothing is known before registration, the new income leaves January unset, and the update's January step reads the income filed at registration. |
| LegacyCommands.AsWrittenJanuaryTakesTheWholeAmount | calculator-impl/src/main/java/income/tax/impl/calculation/IncomeAdjusters.java:78-83 | As written, the January step takes the whole registered amount (in hundredths, divided by one month), and fails only when that amount does not divide by 100. |
| LegacyCommands.WholeYearJanuaryTakesATwelfth | calculator-impl/src/main/java/income/tax/impl/calculation/IncomeAdjusters.java:78-83 | With the whole-year income, the January step takes a twelfth of the amount, and fails exactly when the amount does not divide by 1200. |
| LegacyCommands.AsWrittenJanuaryIsTwelveTimesTheShare | calculator-impl/src/main/java/income/tax/impl/calculation/IncomeAdjusters.java:78-83 | Registering at midnight UTC on 1 January 2019 with 1200, then applying an income from 10:00 on 5 March 2019: January gets 12 as written and 1 as intended. |
| LegacyEntity.CheckIncomeArguments | calculator-impl/src/main/java/income/tax/impl/IncomeTaxEntity.java:108-122 | On the month-widened span, a start after the end gives the illegal-period message, and otherwise two years give the single-year message. There is no error exactly when neither holds. |
| LegacyEntity.Handle | calculator-impl/src/main/java/income/tax/impl/IncomeTaxEntity.java:62-87 | Register always persists one registration under the entity's id. ApplyIncome is refused exactly when the check fails, with the text of the check's message. Otherwise it persists one income event stamped now, for the current year exactly when the income starts in the contribution year. |
| LegacyEntity.Apply | calculator-impl/src/main/java/income/tax/impl/IncomeTaxEntity.java:91-101 | A registration starts over from the registration state. A current-year income goes through `month` and a previous-year one through `previousYear`. Every state reached keeps its dates real. |
| LegacyEntity.Replay | calculator-impl/src/main/java/income/tax/impl/IncomeTaxEntity.java:91-101 | Folding events keeps the state's dates real, and no events leaves the state unchanged. |
| LegacyEntity.Initial | calculator-impl/src/main/java/income/tax/impl/IncomeTaxEntity.java:57 | The snapshot when there is one, and otherwise the empty state at the clock reading. |
| LegacyEntity.ReplayConcatenation | calculator-impl/src/main/java/income/tax/impl/IncomeTaxEntity.java:91-101 | Replaying two runs of events replays the second from where the first ended, and stops at the first failure. |
| LegacyEntity.RegistrationForgetsThePast | calculator-impl/src/main/java/income/tax/impl/IncomeTaxEntity.java:91-93 | A registration event gives the same state from any state, with the registration year as the contribution year. |
| LegacyEntity.RegisterIgnoresTheState | calculator-impl/src/main/java/income/tax/impl/IncomeTaxEntity.java:62-69 | Registering does not depend on the state, so a registered contributor can register again. |
| LegacyEntity.ReversedDaysWithinAMonthAreAccepted | calculator-impl/src/main/java/income/tax/impl/IncomeTaxEntity.java:108-122 | The check compares the month-widened span, so start and end days reversed within one month pass it. |
| LegacyEntity.RegistrationSetsTheCurrentYear | calculator-impl/src/main/java/income/tax/impl/IncomeTaxEntity.java:124-126 | After a registration, an income is applied to the current year exactly when it starts in the registration year. |
| LegacyEntity.IllegalPeriodIsReported | calculator-impl/src/main/java/income/tax/impl/IncomeTaxEntity.java:115-117 | An income whose widened start comes after its end is refused with a message headed by "TAX" and the code 1. |
| Messages.Name | calculator-impl/src/main/java/income/tax/impl/message/Message.java:7-9 | Every constant's name starts with "E_". |
| Messages.Constants | income-impl/src/main/java/income/tax/impl/message/Messages.java:7-14 | Each catalogue lists between one and eight constants, all distinct, in declaration order. |
| Messages.IndexOf | income-impl/src/main/java/income/tax/impl/message/Helper.java:18 | The position of the first occurrence of the constant. |
| Messages.Ordinal | income-impl/src/main/java/income/tax/impl/message/Helper.java:18 | The ordinal is the constant's position in its catalogue. |
| Messages.DigitChar | income-impl/src/main/java/income/tax/impl/message/Helper.java:20 | The decimal digit character of a value 0 to 9. |
| Messages.Digits | income-impl/src/main/java/income/tax/impl/message/Helper.java:20 | The decimal digits of a natural number, with no leading zero from 10 up. |
| Messages.Zeros | income-impl/src/main/java/income/tax/impl/message/Helper.java:20 | n zero characters. |
| Messages.ZeroPadded | income-impl/src/main/java/income/tax/impl/message/Helper.java:20 | The text ends with s, is padded with zeros on the left to at least the width, and is never longer than needed. |
| Messages.Format04 | income-impl/src/main/java/income/tax/impl/message/Helper.java:20 | `%04d` gives at least four characters: digits for a non-negative code, or a minus sign followed by digits. |
| Messages.GetMessage | income-impl/src/main/java/income/tax/impl/message/Helper.java:9-30 | The message starts with the header. The header is followed by the bundle's template for the name formatted with the arguments, or by the not-found text when the bundle has no such name. |
| Messages.DigitsReadBack | income-impl/src/main/java/income/tax/impl/message/Helper.java:20 | Reading back the digits of n gives n. |
| Messages.LeadingZeroReadsNothing | income-impl/src/main/java/income/tax/impl/message/Helper.java:20 | A leading zero does not change the value read. |
| Messages.LeadingZerosReadNothing | income-impl/src/main/java/income/tax/impl/message/Helper.java:20 | Leading zeros do not change the value read. |
| Messages.PaddingReadsNothing | income-impl/src/main/java/income/tax/impl/message/Helper.java:20 | Zero padding keeps the text all digits and its value unchanged. |
| Messages.NonNegativeReadsBack | income-impl/src/main/java/income/tax/impl/message/Helper.java:20 | A non-negative code is read back from its formatted text. |
| Messages.NegativeReadsBack | income-impl/src/main/java/income/tax/impl/message/Helper.java:20 | A negative code is read back from its formatted text. |
| Messages.SignedReading | income-impl/src/main/java/income/tax/impl/message/Helper.java:20 | A minus sign before digits reads as the negated value. |
| Messages.FormatReadsBack | income-impl/src/main/java/income/tax/impl/message/Helper.java:20 | Every code is read back from its formatted text. |
| Messages.FormatIsInjective | income-impl/src/main/java/income/tax/impl/message/Helper.java:20 | Two codes format alike exactly when they are equal. |
| Messages.DigitsBelow | income-impl/src/main/java/income/tax/impl/message/Helper.java:20 | A number below 10^k has at most k digits. |
| Messages.SmallCodesTakeFourCharacters | income-impl/src/main/java/income/tax/impl/message/Helper.java:20 | Codes from 0 to 9999 format to exactly four characters. |
| Messages.FrameLayout | income-impl/src/main/java/income/tax/impl/message/Helper.java:20-21 | The frame is "[", the component, the code, "] " and the name, in that order, followed by " - ". |
| Messages.FourDigitFrame | income-impl/src/main/java/income/tax/impl/message/Helper.java:20-21 | With a four-digit code, the code sits right after the component and reads back. |
| Messages.HeaderIdentifiesTheCode | income-impl/src/main/java/income/tax/impl/message/Helper.java:20-21 | For a code below 10000, the message gives back the component, the four-digit code and the name at fixed places. |
| Messages.HeaderIdentifiesTheConstant | calculator-impl/src/main/java/income/tax/impl/message/Message.java:15-17 | A catalogue message shows "TAX", then the constant's ordinal in four digits, then its name. |
| Messages.OrdinalsAreDistinct | income-impl/src/main/java/income/tax/impl/message/Messages.java:7-14 | Two constants of a catalogue share an ordinal exactly when they are the same constant. |
| Messages.IllegalPeriodWithoutTemplate | income-impl/src/main/java/income/tax/impl/message/Helper.java:26-28 | Without a template, the illegal-period message is its frame "[TAX0001] E_ILLEGAL_PERIOD - " followed by the not-found text. |
| Messages.FormatOfOne | income-impl/src/main/java/income/tax/impl/message/Helper.java:20 | Code 1 formats as "0001". |
| Messages.AlreadyRegisteredCodes | calculator-impl/src/main/java/income/tax/impl/message/Messages.java:7-11 | The already-registered constant has code 4 in the calculator service's catalogue and 5 in the income service's. |
| CalculationService.NormalizeIncome | income-impl/src/main/java/income/tax/impl/CalculationServiceImpl.java:205-215 | A start instant after the end is refused with the illegal-period error, and then two years with the single-year error; the income is accepted exactly when neither holds. An accepted income keeps its type and starts on the first day of its month. Without rescaling it keeps its amount and covers exactly the month it starts in. With rescaling it ends on the 31st of December and covers the months from its start month. |
| CalculationService.OrderedInstantsCloseDates | income-impl/src/main/java/income/tax/impl/CalculationServiceImpl.java:207 | An instant not after another has a date at most two days later, because offsets are within eighteen hours. |
| CalculationService.OrderedSpanCoversAMonth | income-impl/src/main/java/income/tax/impl/CalculationServiceImpl.java:207-214 | An ordered income within one year covers at least one month by the period count, so rescaling it never divides by zero. |
| CalculationService.MonthsApart | income-impl/src/main/java/income/tax/impl/CalculationServiceImpl.java:207-214 | A date in a later month is at most two days ahead only when it is in the very next month and on an earlier day. |
| CalculationService.MonthRequest | income-impl/src/main/java/income/tax/impl/CalculationServiceImpl.java:154-158 | The request carries the month's amount, the year, the month and no rounding. |
| CalculationService.GetContributions | income-impl/src/main/java/income/tax/impl/CalculationServiceImpl.java:151-167 | There is exactly one answer per month of the incomes, and it is the service's answer to that month's request. |
| CalculationService.DoRegister | income-impl/src/main/java/income/tax/impl/CalculationServiceImpl.java:99-120 | The command carries the id, the date and the previous income built from the amount. Its contributions cover exactly months 1 to 12. |
| CalculationService.DoApplyIncome | income-impl/src/main/java/income/tax/impl/CalculationServiceImpl.java:126-149 | The command fails exactly when normalisation fails, with the same error. Otherwise it carries the normalised income and the flags. Its contributions cover the start month alone, or with rescaling every month from the start month to December. |
| CalculationService.FilledMonths | income-impl/src/main/java/income/tax/impl/CalculationServiceImpl.java:219-223 | The months of the year that have lines, each once, in strictly ascending order. |
| CalculationService.Lines | income-impl/src/main/java/income/tax/impl/CalculationServiceImpl.java:229-230 | A line is listed exactly when it belongs to one of the listed months. |
| CalculationService.Codes | income-impl/src/main/java/income/tax/impl/CalculationServiceImpl.java:231-232 | The codes some line is filed under. |
| CalculationService.Totals | income-impl/src/main/java/income/tax/impl/CalculationServiceImpl.java:229-234 | Exactly the codes some line is filed under, each with its amounts added up. |
| CalculationService.ConvertToContributions | income-impl/src/main/java/income/tax/impl/CalculationServiceImpl.java:217-249 | The reply is NotFound exactly when no month of the year has a line. Otherwise it lists the filled months with their lines and totals the lines per code. Its income adds up each month's first-line income, and its span runs from the 1st of the first listed month to the last day of the last. |
| CalculationService.ListingIsOrderedAndComplete | income-impl/src/main/java/income/tax/impl/CalculationServiceImpl.java:219-223 | Every listed month has lines, and every month with lines is listed once, in ascending order. |
| CalculationService.ReplyListsFilledMonths | income-impl/src/main/java/income/tax/impl/CalculationServiceImpl.java:219-246 | The reply lists the months with lines each once, in order, and its span covers every listed month. |
| CalculationService.ReversedDaysRejectedByTheService | income-impl/src/main/java/income/tax/impl/CalculationServiceImpl.java:207-209 | An income from noon on 15 March 2019 to noon on 10 March 2019 is refused by the service, while the aggregate's whole-month checks would accept it. |
| CalculationService.NormalisedIncomePassesEntityChecks | income-impl/src/main/java/income/tax/impl/CalculationServiceImpl.java:205-215 | For a contributor registered in the income's year, every normalised income passes the aggregate's period checks. |
| CalculationService.ScaledSpanIsOrdered | income-impl/src/main/java/income/tax/impl/tools/IncomeUtils.java:34-38 | A span from the 1st of a month to the 31st of December of the same year is ordered after widening, whatever the offsets. |
| CalculationService.DaysApartAreOrdered | income-impl/src/main/java/income/tax/impl/CalculationServiceImpl.java:207 | Instants whose dates are at least three days apart are in the order of their dates. |
| CalculationService.RegistrationRequestsMonthlyShares | income-impl/src/main/java/income/tax/impl/CalculationServiceImpl.java:102-111 | Registration asks about every month of the registration year. Months 1 to 11 are asked about a twelfth of the amount, truncated, and December about the rest. |
| CalculationService.RegistrationRequestsAddUp | income-impl/src/main/java/income/tax/impl/CalculationServiceImpl.java:102-116 | The months registration asks about add up to the amount. The aggregate keeps that amount when it rescales the command's previous income to its year. |
| CalculationService.AppliedRequestsSpreadTheIncome | income-impl/src/main/java/income/tax/impl/CalculationServiceImpl.java:131-145 | Each month asked about is a share of the normalised income, dated in the income's start year. The shares add up to the normalised amount, which without rescaling is the amount given. |
| CalculationService.CodeSumOfConcatenation | income-impl/src/main/java/income/tax/impl/CalculationServiceImpl.java:229-234 | A code's sum over two runs of lines is the sum of its sums over each. |
| CalculationService.TotalIsSumOfMonthlyTotals | income-impl/src/main/java/income/tax/impl/CalculationServiceImpl.java:229-234 | A code's total over all listed lines is the sum of its monthly totals. |
| CalculationService.EmptyMonthIsIgnored | income-impl/src/main/java/income/tax/impl/CalculationServiceImpl.java:220 | A month without lines gives the same reply as no month at all. |
| CalculationService.LinesAgree | income-impl/src/main/java/income/tax/impl/CalculationServiceImpl.java:229-230 | Maps that agree on the listed months give the same lines. |
| CalculationService.FirstLineIncomesAgree | income-impl/src/main/java/income/tax/impl/CalculationServiceImpl.java:237-239 | Maps that agree on the listed months give the same income. |
| CalculationService.TotalIncomeOfComputedLines | income-impl/src/main/java/income/tax/impl/CalculationServiceImpl.java:237-239 | When each month's lines carry that month's income, the reply's income is the sum of the monthly incomes. |
| CalculationService.ConversionExample | income-impl/src/main/java/income/tax/impl/CalculationServiceImpl.java:217-249 | Lines in March and May, and none in April, give a reply listing March and May from 1 March to 31 May, with the totals CSG 276 and RDS 5 and an income of 3000. |
| CalculationService.ExampleLines | income-impl/src/main/java/income/tax/impl/CalculationServiceImpl.java:219-239 | For March and May, the lines and the listing are March's followed by May's. |
| CalculationService.ExampleTotals | income-impl/src/main/java/income/tax/impl/CalculationServiceImpl.java:229-234 | The example lines total 276 for CSG and 5 for RDS. |
| CalculationService.AscendingPair | income-impl/src/main/java/income/tax/impl/CalculationServiceImpl.java:219-223 | The only strictly ascending list holding exactly a < b is [a, b]. |

## Left out

- The Lagom and Akka runtime (behaviour builders, persist and reply contexts, service calls, `convertErrors`): command handling is a function from a state and a command to events or an error, and recovery is a fold of the event handlers.
- Topic publishing and the read sides (Cassandra repositories, stream services, event processors): I/O outside the core.
- The per-month `CompletableFuture` fan-out and `supplyAsync`: a plain map over the months.
- ServiceLoader and Guice discovery: the discovered calculators are an input list of (year, calculator) in discovery order, and the module bindings are not modelled.
- The 8-digit `MathContext` of the bracket calculators: contributions are exact reals, so results agree with the source up to that rounding.
- Java `long` overflow of income amounts: amounts are unbounded integers.
- `dryRun`: carried by the commands, but no handler reads it.
- The remote contribution service and the calculators the aggregate uses are function parameters; their network calls are not modelled.
- The clock (`OffsetDateTime.now`): a parameter wherever the source reads it (initial and empty states, event time stamps).
- `MessageFormat` and the resource bundle: the format function and the bundle map are inputs of `Messages.GetMessage`; `Utf8ResourceBundle` and bundle loading are not modelled.
- Constant-name lookup is case-insensitive over ASCII letters only: Java's `toUpperCase` on other characters is not modelled.
- Hash-map iteration orders: wherever the source iterates a hash map of months, the model takes calendar order, and the first calculator of an unsorted registry is the first one discovered.
- calculator-impl/src/main/java/income/tax/impl/contribution/Calculator2019.java is not part of this model: it extends a three-argument calculator base class that is not available.
- calculator-impl/src/main/java/income/tax/impl/domain/IncomeTaxEvent.java is not part of this model: the events are the closed datatypes of `DomainEntity`, including the schedule-start event the entity emits, which that file does not declare.
- `Income.ZERO` and `Income.ofYear` are not declared by the available `Income` class: `Zero` is taken as a zero income, and `ofYear` as the whole-year income `Incomes.YearIncome`.
- The positivity check of the `Income` constructor (calculator-api/src/main/java/income/tax/api/Income.java:27) is not enforced: the model's incomes may carry any amount, so its properties hold for zero and negative amounts too.
- LegacyState.Registered: the legacy event handler calls a three-argument state constructor that the legacy state does not declare; it is taken to file the previous income under the year before registration, as the next generation's constructor of the same shape does.
- LegacyEntity.Apply: the legacy current-year handler calls an adjuster the legacy adjusters do not declare; it is taken to be `month`.
- DomainAdjusters, DomainEntity: the middle generation's adjusters and entity are modelled on the merging state of the income service (`DomainState`, income-impl/src/main/java/income/tax/impl/domain/IncomeTaxState.java), not on the state class of their own package (calculator-impl/src/main/java/income/tax/impl/domain/IncomeTaxState.java), because they call `isRegistered`, `withNewContributionYear` and a `ContributionState`, which only the former declares. The latter replaces maps where the former merges them; it is modelled apart as `OlderDomainState`, and `OlderDomainState.ReplacingForgetsWhatMergingKeeps` shows where the two differ.
- DomainEntity.Apply: the registration handler calls a three-argument `of` the state does not declare; it is taken as the four-argument one with a zero previous income.
- OlderDomainState.Of: the new-year adjuster it applies (`newYear(Income)`) is not declared by any available file, so it is a parameter.
- LegacyAdjusters.UpdateIncomes: the known current incomes are never copied, because the source tests `contains(month)` on the list of incomes (element membership, not an index). The model keeps that behaviour as written (see `LegacyAdjusters.KnownIncomesAreNotCopied`), since the intended copying cannot be inferred from the code.
- The calculator-impl `CalculationModule` and `CalculationServiceImpl` are wiring around the modelled registry and aggregate, and are not modelled.

## Findings

| source | as written | input that shows it | evidently intended | confidence | as-written member | corrected member |
|---|---|---|---|---|---|---|
| calculator-impl/src/main/java/income/tax/impl/IncomeTaxCommand.java:54-57 | the amount form of `Register` builds the previous yearly income with `lastYearStart` as both start and end, so it counts as a single month where the update divides it by its month count | registration at 2019-01-01T00:00Z with 1200 as a real income, then an income of 2019 from 2019-03-05T10:00Z: the January fill of `updateIncomes` (calculation/IncomeAdjusters.java:78-83) gives January 12, twelve times the 1 a whole-year income gives | the income spans the whole previous year, from `lastYearStart` to the unused `lastYearEnd`, as the income service's amount form does | not executed | LegacyCommands.NewRegisterFromAmount, LegacyCommands.AsWrittenJanuaryTakesTheWholeAmount, LegacyCommands.AsWrittenJanuaryIsTwelveTimesTheShare | LegacyCommands.NewRegisterFromWholeYear, LegacyCommands.WholeYearJanuaryTakesATwelfth |
