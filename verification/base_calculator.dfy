/** The yearly calculator of the newest generation: a set of constants and a
  * rounding mode, from which it computes the ten tier contributions of a
  * yearly income, or of a monthly income by scaling to a year and back. */
module BaseCalculator {
  import opened Rounding
  import opened Incomes
  import opened BracketRules

  datatype Calculator = Calculator(year: int, mode: RoundingMode, constants: Constants)

  predicate ValidCalculator(calculator: Calculator)
  {
    ValidConstants(calculator.constants)
  }

  /** The calculator for 2019: PASS 40524, PRCI 37960, CSG base factor 1.35, half-even rounding. */
  const Calculator2019: Calculator := Calculator(2019, HalfEven, Constants(40524.0, 37960.0, 1.35))

  /** The tiers computed for a yearly income, in reporting order; the
    * composites are not among them. */
  const YearlyRules: seq<Rule> := [MLD1T1, MLD1T2, MAL2, RVBT1, RVBT2, RCIT1, RCIT2, RID, AF, CSGCRDS]

  /** One rule's result: income, retained base, informative rate and amount. */
  function ComputeRule(calculator: Calculator, rule: Rule, income: real): (r: Contribution)
    requires ValidCalculator(calculator)
    ensures r.code == Code(rule) && r.income == income
    ensures r.baseIncome == BaseIncome(calculator.constants, rule, income)
    ensures r.amount == ContributionOf(calculator.constants, rule, income)
    ensures r.baseIncome == 0.0 ==> r.rate == 0.0
    ensures r.baseIncome != 0.0 ==> r.amount / r.baseIncome * 100.0 <= r.rate < r.amount / r.baseIncome * 100.0 + 0.01
  {
    var base := BaseIncome(calculator.constants, rule, income);
    var amount := ContributionOf(calculator.constants, rule, income);
    Contribution(Code(rule), income, base, InformativeRate(amount, base), amount)
  }

  /** `computeFromYearlyIncome`: the ten tiers, keyed by code. */
  function ComputeFromYearlyIncome(calculator: Calculator, income: real): (r: map<string, Contribution>)
    requires ValidCalculator(calculator)
    ensures forall rule :: Code(rule) in r <==> rule in YearlyRules
    ensures forall rule :: rule in YearlyRules ==> r[Code(rule)] == ComputeRule(calculator, rule, income)
    ensures forall k :: k in r ==> r[k].income == income
  {
    forall a: Rule, b: Rule | Code(a) == Code(b) ensures a == b {
      CodesAreDistinct(a, b);
    }
    map rule | rule in YearlyRules :: Code(rule) := ComputeRule(calculator, rule, income)
  }

  /** `computeFromMonthlyIncome`: the yearly computation on twelve times the
    * income, with income, base and amount divided back by twelve. */
  function ComputeFromMonthlyIncome(calculator: Calculator, income: real): (r: map<string, Contribution>)
    requires ValidCalculator(calculator)
    ensures r.Keys == ComputeFromYearlyIncome(calculator, income * 12.0).Keys
    ensures forall k :: k in r ==> r[k].income == income
  {
    var yearly := ComputeFromYearlyIncome(calculator, income * 12.0);
    map k | k in yearly :: Contribution(yearly[k].code, yearly[k].income / 12.0, yearly[k].baseIncome / 12.0,
                                         yearly[k].rate, yearly[k].amount / 12.0)
  }

  /** `round`: to a whole number in the calculator's rounding mode. */
  function Round(calculator: Calculator, value: real): (r: int)
    ensures -1.0 < r as real - value < 1.0
    ensures calculator.mode == Floor ==> r as real <= value < r as real + 1.0
    ensures calculator.mode == Ceiling ==> value <= r as real < value + 1.0
    ensures calculator.mode == Down ==> AbsReal(r as real) <= AbsReal(value) < AbsReal(r as real) + 1.0
                                        && (r != 0 ==> (r < 0 <==> value < 0.0))
    ensures calculator.mode == HalfEven ==>
      -0.5 <= r as real - value <= 0.5 && (AbsReal(r as real - value) == 0.5 ==> r % 2 == 0)
    ensures RoundedTo(value, calculator.mode, r)
  {
    RoundToInteger(value, calculator.mode)
  }

  /** `getContributionTypes`: the codes of the computed tiers, in order. */
  function ContributionTypes(calculator: Calculator): (r: seq<string>)
    ensures |r| == |YearlyRules|
    ensures forall i :: 0 <= i < |r| ==> r[i] == Code(YearlyRules[i])
  {
    seq(|YearlyRules|, i requires 0 <= i < |YearlyRules| => Code(YearlyRules[i]))
  }

  function GetCalculationConstant(calculator: Calculator, name: string): real
  {
    ConstantNamed(calculator.constants, name)
  }

  // ---- properties ---------------------------------------------------------------

  lemma YearlyRulesAreTheTiers(rule: Rule)
    ensures rule in YearlyRules <==> !IsComposite(rule)
  {
  }

  /** The yearly map holds exactly the single tiers, no composite is
    * reported, and the reported types are exactly its keys. */
  /** Every line is filed under its own code, so grouping lines by their map
    * key is grouping them by their code. */
  lemma LinesAreFiledUnderTheirCode(calculator: Calculator, income: real)
    requires ValidCalculator(calculator)
    ensures forall k :: k in ComputeFromYearlyIncome(calculator, income) ==>
      ComputeFromYearlyIncome(calculator, income)[k].code == k
    ensures forall k :: k in ComputeFromMonthlyIncome(calculator, income) ==>
      ComputeFromMonthlyIncome(calculator, income)[k].code == k
  {
    forall y: real, k | k in ComputeFromYearlyIncome(calculator, y)
      ensures ComputeFromYearlyIncome(calculator, y)[k].code == k
    {
      var rule :| rule in YearlyRules && Code(rule) == k;
    }
  }

  lemma YearlyHoldsTheTiers(calculator: Calculator, income: real)
    requires ValidCalculator(calculator)
    ensures forall rule :: Code(rule) in ComputeFromYearlyIncome(calculator, income) <==> !IsComposite(rule)
    ensures forall rule :: Code(rule) in ComputeFromYearlyIncome(calculator, income) <==> Code(rule) in ContributionTypes(calculator)
  {
    var types := ContributionTypes(calculator);
    forall rule ensures rule in YearlyRules <==> !IsComposite(rule) {
      YearlyRulesAreTheTiers(rule);
    }
    forall rule ensures Code(rule) in types <==> rule in YearlyRules {
      if Code(rule) in types {
        var i :| 0 <= i < |types| && types[i] == Code(rule);
        CodesAreDistinct(YearlyRules[i], rule);
      }
      if rule in YearlyRules {
        var i :| 0 <= i < |YearlyRules| && YearlyRules[i] == rule;
        assert types[i] == Code(rule);
      }
    }
  }

  /** A monthly computation is a twelfth of the yearly computation of twelve
    * months of that income: amounts and bases times twelve give the yearly
    * ones back, and the informative rate is the yearly one. */
  lemma MonthlyIsTwelfthOfYearly(calculator: Calculator, income: real)
    requires ValidCalculator(calculator)
    ensures forall k :: k in ComputeFromMonthlyIncome(calculator, income) ==>
      var m := ComputeFromMonthlyIncome(calculator, income)[k];
      var y := ComputeFromYearlyIncome(calculator, income * 12.0)[k];
      m.amount * 12.0 == y.amount && m.baseIncome * 12.0 == y.baseIncome && m.rate == y.rate && m.code == y.code
  {
  }

  /** Constant names are matched regardless of case. */
  lemma ConstantsByName(calculator: Calculator)
    ensures GetCalculationConstant(calculator, "pass") == calculator.constants.pass
    ensures GetCalculationConstant(calculator, "Prci") == calculator.constants.prci
    ensures GetCalculationConstant(calculator, "CSG") == calculator.constants.csg
    ensures GetCalculationConstant(calculator, "SMIC") == 0.0
  {
    assert ToUpper("pass") == "PASS";
    assert ToUpper("Prci") == "PRCI";
    assert ToUpper("CSG") == "CSG";
    assert ToUpper("SMIC") == "SMIC";
  }

  /** The 2019 health figures for a yearly income of 240000: five PASS are
    * retained by the first tier and the excess by the second. */
  lemma Calculator2019Health()
    ensures ValidCalculator(Calculator2019)
    ensures ComputeFromYearlyIncome(Calculator2019, 240000.0)[Code(MLD1T2)].amount == 2429.7
    ensures ComputeFromYearlyIncome(Calculator2019, 240000.0)[Code(MLD1T1)].amount == 12866.37
    ensures ComputeFromYearlyIncome(Calculator2019, 240000.0)[Code(MAL2)].amount == 1722.27
  {
    var c := Calculator2019.constants;
    assert BaseIncome(c, MLD1T2, 240000.0) == 37380.0;
    assert BaseIncome(c, MLD1T1, 240000.0) == 202620.0;
    assert BaseIncome(c, MAL2, 240000.0) == 202620.0;
    assert Rate(c, MLD1T1, 240000.0) == 6.35;
    assert ContributionOf(c, MLD1T2, 240000.0) == 2429.7;
    assert ContributionOf(c, MLD1T1, 240000.0) == 12866.37;
    assert ContributionOf(c, MAL2, 240000.0) == 1722.27;
  }

  /** The 2019 basic-pension figures for a yearly income of 240000. */
  lemma Calculator2019Pension()
    ensures ValidCalculator(Calculator2019)
    ensures ComputeFromYearlyIncome(Calculator2019, 240000.0)[Code(RVBT1)].amount == 7193.01
    ensures ComputeFromYearlyIncome(Calculator2019, 240000.0)[Code(RVBT2)].amount == 1196.856
  {
    var c := Calculator2019.constants;
    assert BaseIncome(c, RVBT1, 240000.0) == 40524.0;
    assert BaseIncome(c, RVBT2, 240000.0) == 199476.0;
    assert ContributionOf(c, RVBT1, 240000.0) == 7193.01;
    assert ContributionOf(c, RVBT2, 240000.0) == 1196.856;
  }

  /** The 2019 calculator rounds half-even. */
  lemma Calculator2019Rounding()
    ensures Round(Calculator2019, 2429.7) == 2430
    ensures Round(Calculator2019, 1196.856) == 1197
    ensures Round(Calculator2019, 2.5) == 2 && Round(Calculator2019, 3.5) == 4
  {
  }
}
