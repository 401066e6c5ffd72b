/** The 2018 rule configuration of the middle generation: whole-unit
  * incomes, each single rule's amount rounded up to the cent, composites
  * adding their rounded tiers. Its family-allowance slope is computed with an
  * exact decimal division that has no finite result, so the middle band of
  * that rule fails with an arithmetic error. */
module CalculatorConfig2018 {
  import opened Results
  import opened Rounding
  import opened BracketRules
  import opened Decimals
  import Calculator2018

  const Year: int := 2018

  function GetCalculationConstant(name: string): real
  {
    ConstantNamed(Calculator2018.Constants2018, name)
  }

  /** Whether the family allowance is in its sloped band, where the rate
    * needs 3.1 / (0.3 PASS). */
  predicate InFamilyAllowanceBand(income: int)
  {
    var p := Calculator2018.Constants2018.pass;
    1.1 * p <= income as real <= 1.4 * p
  }

  /** A single rule's rate; the family-allowance band fails. */
  function TierRate(rule: Rule, income: int): (r: Result<real, ArithError>)
    requires !IsComposite(rule)
    ensures r.Err? <==> rule == AF && InFamilyAllowanceBand(income)
    ensures r.Err? ==> r.error == NonTerminatingDecimal
    ensures r.Ok? ==> r.value == Rate(Calculator2018.Constants2018, rule, income as real)
  {
    if rule == AF && InFamilyAllowanceBand(income) then Err(NonTerminatingDecimal)
    else Ok(Rate(Calculator2018.Constants2018, rule, income as real))
  }

  /** A single rule's amount, base times rate rounded up to the cent. */
  function TierAmount(rule: Rule, income: int): (r: Result<real, ArithError>)
    requires !IsComposite(rule)
    ensures r.Err? <==> rule == AF && InFamilyAllowanceBand(income)
    ensures r.Ok? ==> var exact := TierContribution(Calculator2018.Constants2018, rule, income as real);
      exact <= r.value < exact + 0.01 && (r.value * 100.0).Floor as real == r.value * 100.0
  {
    if rule == AF && InFamilyAllowanceBand(income) then Err(NonTerminatingDecimal)
    else Ok(CeilingCents(TierContribution(Calculator2018.Constants2018, rule, income as real)))
  }

  /** Any rule's amount: a composite adds its two rounded tiers. Only the
    * family allowance in its sloped band fails, since no composite has it as
    * a tier; a composite's amount is within two cents above the exact one. */
  function ContributionOf(rule: Rule, income: int): (r: Result<real, ArithError>)
    ensures r.Err? <==> rule == AF && InFamilyAllowanceBand(income)
    ensures r.Err? ==> r.error == NonTerminatingDecimal
    ensures !IsComposite(rule) ==> r == TierAmount(rule, income)
    ensures r.Ok? ==> var exact := BracketRules.ContributionOf(Calculator2018.Constants2018, rule, income as real);
      exact <= r.value < exact + (if IsComposite(rule) then 0.02 else 0.01)
  {
    if IsComposite(rule) then
      match (TierAmount(Tiers(rule).0, income), TierAmount(Tiers(rule).1, income))
      case (Ok(a), Ok(b)) => Ok(a + b)
      case (Err(e), _) => Err(e)
      case (_, Err(e)) => Err(e)
    else TierAmount(rule, income)
  }

  /** Why the family-allowance band fails: 3.1 / (0.3 * 39732) is 31 / 119196,
    * and no power of ten times 31 is a multiple of 119196 (a multiple of 3),
    * so the quotient has no finite decimal expansion. */
  lemma FamilyAllowanceSlopeDoesNotTerminate(k: nat)
    ensures 0.3 * Calculator2018.Constants2018.pass == 11919.6
    ensures 3.1 / 11919.6 == 31.0 / 119196.0
    ensures (31 * Pow10(k)) % 119196 != 0
  {
    Pow10ModThree(k);
    var t := Pow10(k);
    var u := t / 3;
    assert t == 3 * u + 1;
    var q := (31 * t) / 119196;
    var rem := (31 * t) % 119196;
    assert 3 * (31 * u + 10) + 1 == 3 * (39732 * q) + rem;
  }

  /** The band boundaries in whole units: 43706 up to 55624 fail. */
  lemma FamilyAllowanceBandBounds(income: int)
    ensures InFamilyAllowanceBand(income) <==> 43706 <= income <= 55624
    ensures ContributionOf(AF, income).Err? <==> 43706 <= income <= 55624
  {
  }

  /** The 2018 health figures for a yearly income of 240000. */
  lemma HighIncomeHealth()
    ensures ContributionOf(MLD1T2, 240000) == Ok(2687.1)
    ensures ContributionOf(MLD1T1, 240000) == Ok(12614.91)
    ensures ContributionOf(MAL1, 240000) == Ok(15302.01)
  {
    var c := Calculator2018.Constants2018;
    assert TierContribution(c, MLD1T2, 240000.0) == 2687.1;
    assert Rate(c, MLD1T1, 240000.0) == 6.35;
    assert TierContribution(c, MLD1T1, 240000.0) == 12614.91;
  }

  /** The 2018 pension figures for a yearly income of 240000: the second basic
    * tier, 1201.608 exactly, is rounded up to 1201.61 before the sum. */
  lemma HighIncomePensions()
    ensures ContributionOf(RVB, 240000) == Ok(8254.04)
    ensures ContributionOf(RCI, 240000) == Ok(12335.78)
  {
    var c := Calculator2018.Constants2018;
    assert TierContribution(c, RVBT1, 240000.0) == 7052.43;
    assert TierContribution(c, RVBT2, 240000.0) == 1201.608;
    assert CeilingCents(1201.608) == 1201.61;
    assert TierContribution(c, RCIT1, 240000.0) == 2649.22;
    assert TierContribution(c, RCIT2, 240000.0) == 9686.56;
  }
}
