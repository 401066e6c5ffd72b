/** The bracket rules of the contribution calculators, over exact reals.
  * Each rule has a base-income function, a rate function (percent) and a
  * contribution `base * rate / 100`; the three composite rules add the
  * contributions of their two tiers. Thresholds are fractions and multiples
  * of PASS (the annual social-security ceiling) and PRCI (the supplementary
  * pension ceiling). */
module BracketRules {
  import opened Results
  import opened Rounding

  /** The yearly constants a calculator is built with. */
  datatype Constants = Constants(pass: real, prci: real, csg: real)

  predicate ValidConstants(c: Constants)
  {
    c.pass > 0.0 && 0.0 < c.prci <= 4.0 * c.pass && c.csg >= 0.0
  }

  datatype Rule =
    | MLD1T2 | MLD1T1 | MAL1 | MAL2
    | RVBT1 | RVBT2 | RVB
    | RCIT1 | RCIT2 | RCI
    | RID | AF | CSGCRDS

  /** The code under which a rule's result is reported. */
  function Code(rule: Rule): string
  {
    match rule
    case MLD1T2 => "MLD1T2"
    case MLD1T1 => "MLD1T1"
    case MAL1 => "MAL1"
    case MAL2 => "MAL2"
    case RVBT1 => "RVB T1"
    case RVBT2 => "RVB T2"
    case RVB => "RVB"
    case RCIT1 => "RCI T1"
    case RCIT2 => "RCI T2"
    case RCI => "RCI"
    case RID => "RID"
    case AF => "AF"
    case CSGCRDS => "CSG/CRDS"
  }

  /** The rule reported under a code, if any: the inverse of `Code`. */
  function RuleOfCode(code: string): (r: Option<Rule>)
    ensures r.Some? ==> Code(r.value) == code
  {
    if code == "MLD1T2" then Some(MLD1T2)
    else if code == "MLD1T1" then Some(MLD1T1)
    else if code == "MAL1" then Some(MAL1)
    else if code == "MAL2" then Some(MAL2)
    else if code == "RVB T1" then Some(RVBT1)
    else if code == "RVB T2" then Some(RVBT2)
    else if code == "RVB" then Some(RVB)
    else if code == "RCI T1" then Some(RCIT1)
    else if code == "RCI T2" then Some(RCIT2)
    else if code == "RCI" then Some(RCI)
    else if code == "RID" then Some(RID)
    else if code == "AF" then Some(AF)
    else if code == "CSG/CRDS" then Some(CSGCRDS)
    else None
  }

  /** Every rule is found again from its code, so no two rules share a code. */
  lemma CodeRoundTrip(rule: Rule)
    ensures RuleOfCode(Code(rule)) == Some(rule)
  {
  }

  lemma CodesAreDistinct(a: Rule, b: Rule)
    ensures Code(a) == Code(b) <==> a == b
  {
    if Code(a) == Code(b) {
      CodeRoundTrip(a);
      CodeRoundTrip(b);
    }
  }

  predicate IsComposite(rule: Rule)
  {
    rule == MAL1 || rule == RVB || rule == RCI
  }

  function Tiers(rule: Rule): (t: (Rule, Rule))
    requires IsComposite(rule)
    ensures !IsComposite(t.0) && !IsComposite(t.1)
  {
    match rule
    case MAL1 => (MLD1T1, MLD1T2)
    case RVB => (RVBT1, RVBT2)
    case RCI => (RCIT1, RCIT2)
  }

  function Min(a: real, b: real): real { if a <= b then a else b }
  function Max(a: real, b: real): real { if a >= b then a else b }

  /** The income retained by a rule: the income clamped into the rule's
    * bracket, the excess over a threshold for an upper tier, the whole
    * income for the family allowance and the composites, the CSG share of it
    * for CSG/CRDS. */
  function BaseIncome(c: Constants, rule: Rule, income: real): (r: real)
    ensures rule == MLD1T2 ==> r >= 0.0 && r >= income - 5.0 * c.pass && (r == 0.0 || r == income - 5.0 * c.pass)
    ensures ValidConstants(c) && (rule == MLD1T1 || rule == MAL2) ==>
      0.4 * c.pass <= r <= 5.0 * c.pass && (0.4 * c.pass <= income <= 5.0 * c.pass ==> r == income)
      && (income <= 0.4 * c.pass ==> r == 0.4 * c.pass) && (income >= 5.0 * c.pass ==> r == 5.0 * c.pass)
    ensures ValidConstants(c) && (rule == RVBT1 || rule == RID) ==>
      0.115 * c.pass <= r <= c.pass && (0.115 * c.pass <= income <= c.pass ==> r == income)
      && (income <= 0.115 * c.pass ==> r == 0.115 * c.pass) && (income >= c.pass ==> r == c.pass)
    ensures rule == RVBT2 ==> r >= 0.0 && (income >= c.pass ==> r == income - c.pass) && (income <= c.pass ==> r == 0.0)
    ensures rule == RCIT1 ==>
      r <= c.prci && r <= income && (r == income || r == c.prci) && (income >= c.prci ==> r == c.prci)
    ensures ValidConstants(c) && rule == RCIT2 ==>
      0.0 <= r <= 4.0 * c.pass - c.prci && (c.prci <= income <= 4.0 * c.pass ==> r == income - c.prci)
      && (income <= c.prci ==> r == 0.0) && (income >= 4.0 * c.pass ==> r == 4.0 * c.pass - c.prci)
    ensures rule == AF || IsComposite(rule) ==> r == income
    ensures rule == CSGCRDS ==> r == income * c.csg
  {
    match rule
    case MLD1T2 => if income > 5.0 * c.pass then income - 5.0 * c.pass else 0.0
    case MLD1T1 => Min(Max(income, 0.4 * c.pass), 5.0 * c.pass)
    case MAL2 =>
      if income < 0.4 * c.pass then 0.4 * c.pass
      else if income > 5.0 * c.pass then 5.0 * c.pass
      else income
    case RVBT1 =>
      if income >= c.pass then c.pass
      else if income > 0.115 * c.pass then income
      else 0.115 * c.pass
    case RVBT2 => if income >= c.pass then income - c.pass else 0.0
    case RCIT1 => if income < c.prci then income else c.prci
    case RCIT2 =>
      if income < c.prci then 0.0
      else if income >= 4.0 * c.pass then 4.0 * c.pass - c.prci
      else income - c.prci
    case RID =>
      if income < 0.115 * c.pass then 0.115 * c.pass
      else if income < c.pass then income
      else c.pass
    case AF => income
    case CSGCRDS => income * c.csg
    case MAL1 => income
    case RVB => income
    case RCI => income
  }

  /** The rate of a rule, in percent. The composite rules carry a placeholder
    * rate of 1; the health tier and the family allowance vary with the
    * income, the other rules are flat. */
  function Rate(c: Constants, rule: Rule, income: real): (r: real)
    requires c.pass != 0.0
  {
    match rule
    case MLD1T2 => 6.5
    case MLD1T1 =>
      if 0.0 <= income <= 0.4 * c.pass then (5.0 / 1.1 + 1.35 / 0.4) / c.pass * income
      else if 0.0 < income <= 1.1 * c.pass then 5.0 / 1.1 / c.pass * income + 1.35
      else 6.35
    case MAL2 => 0.85
    case RVBT1 => 17.75
    case RVBT2 => 0.6
    case RCIT1 => 7.0
    case RCIT2 => 8.0
    case RID => 1.3
    case AF =>
      if income < 1.1 * c.pass then 0.0
      else if income > 1.4 * c.pass then 3.1
      else 3.1 / (0.3 * c.pass) * (income - 1.1 * c.pass)
    case CSGCRDS => 9.7
    case MAL1 => 1.0
    case RVB => 1.0
    case RCI => 1.0
  }

  /** The contribution of a single (non-composite) rule: its base at its
    * rate, so nothing on an empty base, and for a non-negative income under
    * valid constants never negative. */
  function TierContribution(c: Constants, rule: Rule, income: real): (r: real)
    requires c.pass != 0.0
    ensures BaseIncome(c, rule, income) == 0.0 ==> r == 0.0
    ensures ValidConstants(c) && income >= 0.0 ==> 0.0 <= r
  {
    var base := BaseIncome(c, rule, income);
    var rate := Rate(c, rule, income);
    TierBounds(c, rule, income);
    ShareOfBase(base, rate);
    base * (rate / 100.0)
  }

  /** For a non-negative income under valid constants, a base is never
    * negative and a rate lies between 0 and 17.75 percent. */
  lemma TierBounds(c: Constants, rule: Rule, income: real)
    requires c.pass != 0.0
    ensures ValidConstants(c) && income >= 0.0 ==>
      BaseIncome(c, rule, income) >= 0.0 && 0.0 <= Rate(c, rule, income) <= 17.75
  {
    if ValidConstants(c) && income >= 0.0 {
      RateBounds(c, rule, income);
      if rule == CSGCRDS {
        ScaleMonotone(income, 0.0, c.csg);
      }
    }
  }

  lemma ShareOfBase(base: real, rate: real)
    ensures base >= 0.0 && rate >= 0.0 ==> 0.0 <= base * (rate / 100.0)
  {
    if base >= 0.0 && rate >= 0.0 {
      ScaleMonotone(base, 0.0, rate / 100.0);
    }
  }

  /** The contribution of any rule: a composite adds its two tiers; for a
    * non-negative income under valid constants it is never negative. */
  function ContributionOf(c: Constants, rule: Rule, income: real): (r: real)
    requires c.pass != 0.0
    ensures !IsComposite(rule) ==> r == TierContribution(c, rule, income)
    ensures ValidConstants(c) && income >= 0.0 ==> r >= 0.0
  {
    if IsComposite(rule) then
      TierContribution(c, Tiers(rule).0, income) + TierContribution(c, Tiers(rule).1, income)
    else TierContribution(c, rule, income)
  }

  /** The informative rate reported beside a contribution: zero for a zero
    * base, else the contribution as a percentage of the base rounded up to
    * the cent. */
  function InformativeRate(contribution: real, base: real): (r: real)
    ensures base == 0.0 ==> r == 0.0
    ensures base != 0.0 ==> contribution / base * 100.0 <= r < contribution / base * 100.0 + 0.01
  {
    if base == 0.0 then 0.0 else CeilingCents(contribution / base * 100.0)
  }

  /** ASCII upper-casing of one character. */
  function UpperChar(ch: char): (r: char)
    ensures 'a' <= ch <= 'z' ==> r as int == ch as int - 32 && 'A' <= r <= 'Z'
    ensures !('a' <= ch <= 'z') ==> r == ch
  {
    if 'a' <= ch <= 'z' then (ch as int - 32) as char else ch
  }

  /** ASCII upper-casing, the part of `String.toUpperCase` the constant names need. */
  function ToUpper(s: string): (r: string)
    ensures |r| == |s|
    ensures forall i :: 0 <= i < |s| ==> r[i] == UpperChar(s[i])
  {
    seq(|s|, i requires 0 <= i < |s| => UpperChar(s[i]))
  }

  /** `getCalculationConstant`: PASS, PRCI or CSG by case-insensitive name, else zero. */
  function ConstantNamed(c: Constants, name: string): (r: real)
    ensures ToUpper(name) == "PASS" ==> r == c.pass
    ensures ToUpper(name) == "PRCI" ==> r == c.prci
    ensures ToUpper(name) == "CSG" ==> r == c.csg
    ensures ToUpper(name) !in {"PASS", "PRCI", "CSG"} ==> r == 0.0
  {
    var upper := ToUpper(name);
    if upper == "PASS" then c.pass
    else if upper == "PRCI" then c.prci
    else if upper == "CSG" then c.csg
    else 0.0
  }

  // ---- properties of the rules -------------------------------------------------

  /** The base clamps of the single rules. */
  lemma BaseClamps(c: Constants, income: real)
    requires ValidConstants(c)
    ensures BaseIncome(c, MLD1T2, income) == Max(income - 5.0 * c.pass, 0.0)
    ensures BaseIncome(c, MLD1T1, income) == Min(Max(income, 0.4 * c.pass), 5.0 * c.pass)
    ensures BaseIncome(c, MAL2, income) == BaseIncome(c, MLD1T1, income)
    ensures 0.4 * c.pass <= BaseIncome(c, MAL2, income) <= 5.0 * c.pass
    ensures BaseIncome(c, RCIT1, income) == Min(income, c.prci)
    ensures 0.115 * c.pass <= BaseIncome(c, RID, income) <= c.pass
    ensures 0.115 * c.pass <= income <= c.pass ==> BaseIncome(c, RID, income) == income
  {
  }

  /** Basic pension: above 0.115 PASS the two tiers share the income exactly,
    * the first capped at PASS; below it, the first tier is the floor and the
    * second is empty. */
  lemma BasicPensionSplit(c: Constants, income: real)
    requires ValidConstants(c)
    ensures income >= 0.115 * c.pass ==>
      BaseIncome(c, RVBT1, income) + BaseIncome(c, RVBT2, income) == income
      && BaseIncome(c, RVBT1, income) <= c.pass
    ensures income < 0.115 * c.pass ==>
      BaseIncome(c, RVBT1, income) == 0.115 * c.pass && BaseIncome(c, RVBT2, income) == 0.0
  {
  }

  /** Supplementary pension: the second tier is empty below PRCI, follows the
    * income up to 4 PASS and is constant beyond; up to 4 PASS the two tiers
    * share the income exactly. */
  lemma SupplementaryPensionSplit(c: Constants, income: real)
    requires ValidConstants(c)
    ensures income < c.prci ==> BaseIncome(c, RCIT2, income) == 0.0
    ensures c.prci <= income < 4.0 * c.pass ==> BaseIncome(c, RCIT2, income) == income - c.prci
    ensures income >= 4.0 * c.pass ==> BaseIncome(c, RCIT2, income) == 4.0 * c.pass - c.prci
    ensures income < 4.0 * c.pass ==> BaseIncome(c, RCIT1, income) + BaseIncome(c, RCIT2, income) == income
  {
  }

  /** A factor over PASS times a multiple of PASS. */
  lemma CancelPass(a: real, p: real, x: real)
    requires p > 0.0
    ensures a / p * (x * p) == a * x
  {
    calc {
      a / p * (x * p);
      == (a / p * p) * x;
      == a * x;
    }
  }

  lemma ScaleMonotone(k: real, x: real, y: real)
    requires k >= 0.0 && x <= y
    ensures k * x <= k * y
  {
  }

  /** The first health tier's rate starts at zero, joins its middle segment
    * at 0.4 PASS, reaches 6.35 at 1.1 PASS and stays there. */
  lemma HealthRateContinuity(c: Constants, income: real)
    requires ValidConstants(c)
    ensures Rate(c, MLD1T1, 0.0) == 0.0
    ensures Rate(c, MLD1T1, 0.4 * c.pass) == 5.0 / 1.1 / c.pass * (0.4 * c.pass) + 1.35
    ensures Rate(c, MLD1T1, 1.1 * c.pass) == 6.35
    ensures income > 1.1 * c.pass ==> Rate(c, MLD1T1, income) == 6.35
    ensures 0.0 <= income <= 1.1 * c.pass ==> 0.0 <= Rate(c, MLD1T1, income) <= 6.35
  {
    var p := c.pass;
    var low := 5.0 / 1.1 + 1.35 / 0.4;
    CancelPass(low, p, 0.4);
    CancelPass(5.0 / 1.1, p, 0.4);
    CancelPass(5.0 / 1.1, p, 1.1);
    assert low * 0.4 == 5.0 / 1.1 * 0.4 + 1.35;
    assert 5.0 / 1.1 * 1.1 == 5.0;
    if 0.0 <= income <= 0.4 * p {
      ScaleMonotone(low / p, 0.0, income);
      ScaleMonotone(low / p, income, 0.4 * p);
    } else if 0.0 < income <= 1.1 * p {
      ScaleMonotone(5.0 / 1.1 / p, 0.0, income);
      ScaleMonotone(5.0 / 1.1 / p, income, 1.1 * p);
    }
  }

  /** The family allowance rate is zero below 1.1 PASS, 3.1 above 1.4 PASS, and
    * rises linearly and continuously from 0 to 3.1 in between. */
  lemma FamilyAllowanceRate(c: Constants, income: real)
    requires ValidConstants(c)
    ensures income < 1.1 * c.pass ==> Rate(c, AF, income) == 0.0
    ensures income > 1.4 * c.pass ==> Rate(c, AF, income) == 3.1
    ensures Rate(c, AF, 1.1 * c.pass) == 0.0 && Rate(c, AF, 1.4 * c.pass) == 3.1
    ensures 1.1 * c.pass <= income <= 1.4 * c.pass ==> 0.0 <= Rate(c, AF, income) <= 3.1
  {
    var p := c.pass;
    var k := 3.1 / (0.3 * p);
    assert 1.4 * p - 1.1 * p == 0.3 * p;
    assert k * (0.3 * p) == 3.1;
    if 1.1 * p <= income <= 1.4 * p {
      ScaleMonotone(k, 0.0, income - 1.1 * p);
      ScaleMonotone(k, income - 1.1 * p, 0.3 * p);
    }
  }

  /** Every rate lies between 0 and 17.75 percent, the basic pension's first
    * tier being the highest. */
  lemma RateBounds(c: Constants, rule: Rule, income: real)
    requires ValidConstants(c)
    ensures 0.0 <= Rate(c, rule, income) <= 17.75
  {
    if rule == MLD1T1 {
      HealthRateContinuity(c, income);
    } else if rule == AF {
      FamilyAllowanceRate(c, income);
    }
  }

  /** A composite's contribution is exactly the sum of its two tiers'. */
  lemma CompositeIsSumOfTiers(c: Constants, income: real)
    requires ValidConstants(c)
    ensures ContributionOf(c, MAL1, income) == ContributionOf(c, MLD1T1, income) + ContributionOf(c, MLD1T2, income)
    ensures ContributionOf(c, RVB, income) == ContributionOf(c, RVBT1, income) + ContributionOf(c, RVBT2, income)
    ensures ContributionOf(c, RCI, income) == ContributionOf(c, RCIT1, income) + ContributionOf(c, RCIT2, income)
  {
  }

}
