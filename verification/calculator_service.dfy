/** The newest contribution service: picks the calculator for the request
  * year, computes the month's contributions and, when asked, rounds each
  * amount with that calculator's rounding. */
module CalculatorService {
  import opened Results
  import opened Rounding
  import opened Incomes
  import opened BracketRules
  import opened BaseCalculator
  import opened Registry

  /** A monthly income request; the month and the free-form additional
    * arguments do not influence the result. */
  datatype MonthlyIncomeRequest = MonthlyIncomeRequest(income: real, year: int, month: int, round: bool)

  predicate ValidRegistry(registry: seq<(int, Calculator)>)
  {
    forall i :: 0 <= i < |registry| ==> ValidCalculator(registry[i].1)
  }

  /** `convertInternalContribution`: the same keys, with type, income, base
    * and rate copied, and the amount rounded exactly when the request asks. */
  function ConvertInternalContribution(internal: map<string, Contribution>, round: bool, roundWith: real -> int)
    : (r: map<string, Contribution>)
    ensures r.Keys == internal.Keys
    ensures forall k :: k in r ==>
      r[k].code == internal[k].code && r[k].income == internal[k].income
      && r[k].baseIncome == internal[k].baseIncome && r[k].rate == internal[k].rate
    ensures forall k :: k in r ==> r[k].amount == if round then roundWith(internal[k].amount) as real else internal[k].amount
  {
    map k | k in internal ::
      var c := internal[k];
      Contribution(c.code, c.income, c.baseIncome, c.rate, if round then roundWith(c.amount) as real else c.amount)
  }

  /** `compute`: select the calculator, compute the month, convert. */
  function Compute(registry: seq<(int, Calculator)>, request: MonthlyIncomeRequest)
    : (r: Result<map<string, Contribution>, RegistryError>)
    requires ValidRegistry(registry)
    ensures r.Err? <==> registry == []
    ensures r.Ok? ==> var calculator := Select(registry, request.year).value;
      r.value.Keys == ComputeFromMonthlyIncome(calculator, request.income).Keys
      && forall k :: k in r.value ==> r.value[k].income == request.income
    ensures r.Ok? ==> var calculator := Select(registry, request.year).value;
      var computed := ComputeFromMonthlyIncome(calculator, request.income);
      forall k :: k in r.value ==>
        && r.value[k].code == computed[k].code
        && r.value[k].baseIncome == computed[k].baseIncome
        && r.value[k].rate == computed[k].rate
        && r.value[k].amount == if request.round then Round(calculator, computed[k].amount) as real
                                else computed[k].amount
  {
    match Select(registry, request.year)
    case Err(e) => Err(e)
    case Ok(calculator) =>
      assert ValidCalculator(calculator) by {
        if request.year in Years(registry) {
          var i :| 0 <= i < |registry| && registry[i].0 == request.year && calculator == registry[i].1;
        }
      }
      Ok(ConvertInternalContribution(ComputeFromMonthlyIncome(calculator, request.income), request.round,
                                     x => Round(calculator, x)))
  }

  // ---- properties ---------------------------------------------------------------

  /** Without rounding the conversion is the identity. */
  lemma UnroundedConversionIsIdentity(internal: map<string, Contribution>, roundWith: real -> int)
    ensures ConvertInternalContribution(internal, false, roundWith) == internal
  {
    var r := ConvertInternalContribution(internal, false, roundWith);
    assert forall k :: k in r ==> r[k] == internal[k];
  }

  /** Unrounded, the service answers exactly what the selected calculator
    * computes for the month. */
  lemma UnroundedComputeIsTheCalculator(registry: seq<(int, Calculator)>, request: MonthlyIncomeRequest)
    requires ValidRegistry(registry) && registry != [] && !request.round
    ensures Compute(registry, request)
            == Ok(ComputeFromMonthlyIncome(Select(registry, request.year).value, request.income))
  {
    var calculator := Select(registry, request.year).value;
    UnroundedConversionIsIdentity(ComputeFromMonthlyIncome(calculator, request.income), x => Round(calculator, x));
  }

  /** Rounded amounts are whole and within one unit of the computed ones; for
    * the 2019 calculator, within half a unit. */
  lemma RoundedAmounts(registry: seq<(int, Calculator)>, request: MonthlyIncomeRequest)
    requires ValidRegistry(registry) && registry != [] && request.round
    ensures var r := Compute(registry, request).value;
      var calculator := Select(registry, request.year).value;
      var raw := ComputeFromMonthlyIncome(calculator, request.income);
      forall k :: k in r ==>
        (r[k].amount == r[k].amount.Floor as real
         && -1.0 < r[k].amount - raw[k].amount < 1.0
         && (calculator.mode == HalfEven ==> -0.5 <= r[k].amount - raw[k].amount <= 0.5))
  {
    var calculator := Select(registry, request.year).value;
    assert ValidCalculator(calculator) by {
      if request.year in Years(registry) {
        var i :| 0 <= i < |registry| && registry[i].0 == request.year && calculator == registry[i].1;
      }
    }
  }

  /** A request for 2019 against the registry loaded from the 2019 calculator
    * is computed by it, half-even. */
  lemma Request2019(income: real)
    ensures var registry := LoadCalculators([(2019, Calculator2019)]);
      Select(registry, 2019) == Ok(Calculator2019) && Select(registry, 2031) == Ok(Calculator2019)
  {
    var d := [(2019, Calculator2019)];
    assert Years(d)[0] == 2019;
    assert LastForYear(d, 0);
    SelectFromLoaded(d, 2019);
    SelectFromLoaded(d, 2031);
  }
}
