/** The 2018 calculator of the middle generation: the same bracket rules,
  * reporting the composites instead of their tiers, and optionally flooring
  * each amount to a whole number before the informative rate is derived. */
module Calculator2018 {
  import opened Rounding
  import opened Incomes
  import opened BracketRules

  /** PASS 39732, PRCI 37846, CSG base factor 1.4. */
  const Constants2018: Constants := Constants(39732.0, 37846.0, 1.4)

  const Year: int := 2018

  /** The rules reported, in order: the three composites and the four single rules. */
  const ReportedRules: seq<Rule> := [MAL1, MAL2, RVB, RCI, RID, AF, CSGCRDS]

  /** `round`: floor to a whole number. */
  function Round(value: real): (r: int)
    ensures r as real <= value < r as real + 1.0
  {
    FloorOf(value)
  }

  /** One rule's result; with `round` the amount is floored first and the
    * informative rate derives from the floored amount. */
  function ComputeRule(rule: Rule, income: real, round: bool): (r: Contribution)
    ensures r.code == Code(rule) && r.income == income
    ensures r.baseIncome == BaseIncome(Constants2018, rule, income)
    ensures !round ==> r.amount == ContributionOf(Constants2018, rule, income)
    ensures round ==> r.amount <= ContributionOf(Constants2018, rule, income) < r.amount + 1.0
    ensures round ==> r.amount == r.amount.Floor as real
    ensures r.rate == InformativeRate(r.amount, r.baseIncome)
  {
    var base := BaseIncome(Constants2018, rule, income);
    var exact := ContributionOf(Constants2018, rule, income);
    var amount := if round then Round(exact) as real else exact;
    Contribution(Code(rule), income, base, InformativeRate(amount, base), amount)
  }

  /** `compute(income, round)`: the reported rules, keyed by code. */
  function Compute(income: real, round: bool): (r: map<string, Contribution>)
    ensures forall rule :: Code(rule) in r <==> rule in ReportedRules
    ensures forall rule :: rule in ReportedRules ==> r[Code(rule)] == ComputeRule(rule, income, round)
    ensures forall k :: k in r ==> r[k].income == income
  {
    forall a: Rule, b: Rule | Code(a) == Code(b) ensures a == b {
      CodesAreDistinct(a, b);
    }
    map rule | rule in ReportedRules :: Code(rule) := ComputeRule(rule, income, round)
  }

  /** `computeFromMonthlyIncome`: the yearly computation on twelve times the
    * income, with income, base and amount divided back by twelve. */
  function ComputeFromMonthlyIncome(income: real, round: bool): (r: map<string, Contribution>)
    ensures r.Keys == Compute(income * 12.0, round).Keys
    ensures forall k :: k in r ==> r[k].income == income
  {
    var yearly := Compute(income * 12.0, round);
    map k | k in yearly :: Contribution(yearly[k].code, yearly[k].income / 12.0, yearly[k].baseIncome / 12.0,
                                         yearly[k].rate, yearly[k].amount / 12.0)
  }

  function GetCalculationConstant(name: string): real
  {
    ConstantNamed(Constants2018, name)
  }

  // ---- properties ---------------------------------------------------------------

  /** Every line is filed under its own code, so grouping lines by their map
    * key is grouping them by their code. */
  lemma LinesAreFiledUnderTheirCode(income: real, round: bool)
    ensures forall k :: k in Compute(income, round) ==> Compute(income, round)[k].code == k
    ensures forall k :: k in ComputeFromMonthlyIncome(income, round) ==>
      ComputeFromMonthlyIncome(income, round)[k].code == k
  {
    forall y: real, k | k in Compute(y, round) ensures Compute(y, round)[k].code == k {
      var rule :| rule in ReportedRules && Code(rule) == k;
    }
  }

  /** No tier of a composite is reported on its own. */
  lemma ReportsNoTier(income: real, round: bool)
    ensures forall rule :: IsComposite(rule) ==> Code(rule) in Compute(income, round)
    ensures forall rule :: IsComposite(rule) ==>
      Code(Tiers(rule).0) !in Compute(income, round) && Code(Tiers(rule).1) !in Compute(income, round)
  {
    forall rule | IsComposite(rule)
      ensures Code(rule) in Compute(income, round)
      ensures Code(Tiers(rule).0) !in Compute(income, round) && Code(Tiers(rule).1) !in Compute(income, round)
    {
      assert rule in ReportedRules;
      assert Tiers(rule).0 !in ReportedRules && Tiers(rule).1 !in ReportedRules;
    }
  }

  /** A composite is reported at the sum of its tiers, rounded down as a whole
    * when asked: flooring never takes more than one unit off the exact sum. */
  lemma CompositeAmount(rule: Rule, income: real, round: bool)
    requires IsComposite(rule)
    ensures var exact := ContributionOf(Constants2018, Tiers(rule).0, income)
                       + ContributionOf(Constants2018, Tiers(rule).1, income);
      var a := Compute(income, round)[Code(rule)].amount;
      (!round ==> a == exact) && (round ==> a <= exact < a + 1.0)
  {
    assert ValidConstants(Constants2018);
    CompositeIsSumOfTiers(Constants2018, income);
    assert Tiers(rule).0 !in [MAL1, RVB, RCI] && Tiers(rule).1 !in [MAL1, RVB, RCI];
  }

  /** Month and year agree: a monthly amount is a twelfth of the yearly one
    * computed on twelve months, with the yearly informative rate. */
  lemma MonthlyIsTwelfthOfYearly(income: real, round: bool)
    ensures forall k :: k in ComputeFromMonthlyIncome(income, round) ==>
      var m := ComputeFromMonthlyIncome(income, round)[k];
      var y := Compute(income * 12.0, round)[k];
      m.amount * 12.0 == y.amount && m.baseIncome * 12.0 == y.baseIncome && m.rate == y.rate
  {
  }

  /** The 2018 health figures for a yearly income of 240000. */
  lemma HighIncomeHealth()
    ensures Compute(240000.0, false)[Code(MAL1)].amount == 15302.01
    ensures Compute(240000.0, true)[Code(MAL1)].amount == 15302.0
    ensures Compute(240000.0, false)[Code(MAL2)].amount == 1688.61
    ensures Compute(240000.0, true)[Code(MAL2)].amount == 1688.0
  {
    var c := Constants2018;
    assert BaseIncome(c, MLD1T2, 240000.0) == 41340.0;
    assert BaseIncome(c, MLD1T1, 240000.0) == 198660.0;
    assert BaseIncome(c, MAL2, 240000.0) == 198660.0;
    assert Rate(c, MLD1T1, 240000.0) == 6.35;
    assert ContributionOf(c, MLD1T2, 240000.0) == 2687.1;
    assert ContributionOf(c, MLD1T1, 240000.0) == 12614.91;
    assert ContributionOf(c, MAL1, 240000.0) == 15302.01;
    assert ContributionOf(c, MAL2, 240000.0) == 1688.61;
    assert Round(15302.01) == 15302;
    assert Round(1688.61) == 1688;
  }
}
