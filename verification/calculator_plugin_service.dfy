/** The plug-in contribution service: the same calculator choice, but the
  * round flag is handed to the calculator, and the conversion copies every
  * field. The plug-in calculators are not part of this model, so a
  * calculator is any function from (income, round) to contributions. */
module CalculatorPluginService {
  import opened Results
  import opened Incomes
  import opened Registry

  type PluginCalculator = (real, bool) -> map<string, Contribution>

  /** `convertInternalContribution`: a field-by-field copy. */
  function ConvertInternalContribution(internal: map<string, Contribution>): (r: map<string, Contribution>)
    ensures r.Keys == internal.Keys
    ensures forall k :: k in r ==> r[k] == internal[k]
  {
    map k | k in internal ::
      var c := internal[k];
      Contribution(c.code, c.income, c.baseIncome, c.rate, c.amount)
  }

  /** The copy is the identity. */
  lemma ConversionIsIdentity(internal: map<string, Contribution>)
    ensures ConvertInternalContribution(internal) == internal
  {
    var r := ConvertInternalContribution(internal);
    assert r.Keys == internal.Keys;
  }

  /** `doCompute` followed by the conversion. */
  function Compute(registry: seq<(int, PluginCalculator)>, year: int, income: real, round: bool)
    : (r: Result<map<string, Contribution>, RegistryError>)
    ensures r.Err? <==> registry == []
    ensures year in Years(registry) ==>
      exists i :: 0 <= i < |registry| && registry[i].0 == year && r == Ok(registry[i].1(income, round))
    ensures year !in Years(registry) && registry != [] ==> r == Ok(registry[0].1(income, round))
  {
    match Select(registry, year)
    case Err(e) => Err(e)
    case Ok(calculator) =>
      ConversionIsIdentity(calculator(income, round));
      Ok(ConvertInternalContribution(calculator(income, round)))
  }

  /** An empty discovery loads without error here, and every request then fails. */
  lemma EmptyDiscovery(year: int, income: real, round: bool)
    ensures LoadCalculators<PluginCalculator>([]) == []
    ensures Compute(LoadCalculators<PluginCalculator>([]), year, income, round).Err?
  {
  }
}
