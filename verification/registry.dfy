/** The calculator registry: calculators discovered in some order, each
  * reporting its year, collected into a year-keyed registry iterated from
  * the most recent year down, and the lookup that picks a calculator for a
  * year. The registry is an ordered sequence of (year, calculator) entries,
  * which is what the insertion-ordered map of the source amounts to. */
module Registry {
  import opened Results
  import opened SortedKeys

  datatype RegistryError = NoCalculatorDefined

  /** The years of a sequence of entries, in order. */
  function Years<C>(entries: seq<(int, C)>): (r: seq<int>)
    ensures |r| == |entries|
    ensures forall i :: 0 <= i < |r| ==> r[i] == entries[i].0
  {
    seq(|entries|, i requires 0 <= i < |entries| => entries[i].0)
  }

  /** Entry i is the last one discovered for its year. */
  predicate LastForYear<C>(discovered: seq<(int, C)>, i: int)
    requires 0 <= i < |discovered|
  {
    forall j :: i < j < |discovered| ==> discovered[j].0 != discovered[i].0
  }

  /** The discovery loop: each calculator is put under its year, so a later
    * calculator for a year replaces an earlier one. */
  function Collect<C>(discovered: seq<(int, C)>): (m: map<int, C>)
    ensures forall y :: y in m <==> y in Years(discovered)
    ensures forall i :: 0 <= i < |discovered| && LastForYear(discovered, i) ==> m[discovered[i].0] == discovered[i].1
  {
    if discovered == [] then map[]
    else
      var n := |discovered| - 1;
      var prefix := discovered[..n];
      assert discovered == prefix + [discovered[n]];
      YearsOfSnoc(prefix, discovered[n]);
      assert forall i :: 0 <= i < n && LastForYear(discovered, i) ==> LastForYear(prefix, i);
      Collect(prefix)[discovered[n].0 := discovered[n].1]
  }

  lemma YearsOfSnoc<C>(prefix: seq<(int, C)>, last: (int, C))
    ensures Years(prefix + [last]) == Years(prefix) + [last.0]
  {
  }

  /** `loadCalculators` without the emptiness check: one entry per distinct
    * discovered year, the most recent first, each holding the calculator
    * discovered last for that year. */
  function LoadCalculators<C>(discovered: seq<(int, C)>): (r: seq<(int, C)>)
    ensures StrictlyDescending(Years(r))
    ensures forall y :: y in Years(r) <==> y in Years(discovered)
    ensures forall i :: 0 <= i < |r| ==> r[i].0 in Collect(discovered) && r[i].1 == Collect(discovered)[r[i].0]
  {
    var m := Collect(discovered);
    var years := DescendingDistinct(Years(discovered));
    var r := seq(|years|, i requires 0 <= i < |years| => (years[i], m[years[i]]));
    assert Years(r) == years;
    r
  }

  /** `loadCalculators` with the emptiness check of the newest service. */
  function LoadCalculatorsFailFast<C>(discovered: seq<(int, C)>): (r: Result<seq<(int, C)>, RegistryError>)
    ensures r.Err? <==> discovered == []
    ensures r.Ok? ==> r.value == LoadCalculators(discovered) && |r.value| > 0
  {
    if discovered == [] then Err(NoCalculatorDefined)
    else
      assert discovered[0].0 == Years(discovered)[0];
      assert discovered[0].0 in Years(LoadCalculators(discovered));
      Ok(LoadCalculators(discovered))
  }

  /** The position of the first entry for a year, if any. */
  function IndexOf<C>(registry: seq<(int, C)>, year: int): (r: Option<nat>)
    ensures r.None? <==> year !in Years(registry)
    ensures r.Some? ==> r.value < |registry| && registry[r.value].0 == year
    ensures r.Some? ==> forall j :: 0 <= j < r.value ==> registry[j].0 != year
  {
    if registry == [] then None
    else if registry[0].0 == year then
      assert Years(registry)[0] == year;
      Some(0)
    else
      var rest := IndexOf(registry[1..], year);
      assert forall y :: y in Years(registry) <==> y == registry[0].0 || y in Years(registry[1..]) by {
        forall y | y in Years(registry) ensures y == registry[0].0 || y in Years(registry[1..]) {
          var i :| 0 <= i < |registry| && Years(registry)[i] == y;
          if i > 0 { assert Years(registry[1..])[i - 1] == y; }
        }
        forall y | y in Years(registry[1..]) ensures y in Years(registry) {
          var i :| 0 <= i < |registry| - 1 && Years(registry[1..])[i] == y;
          assert Years(registry)[i + 1] == y;
        }
        assert Years(registry)[0] == registry[0].0;
      }
      if rest.Some? then Some(rest.value + 1) else None
  }

  /** The registry's `get(year)`: the calculator of the first entry for that year. */
  function Lookup<C>(registry: seq<(int, C)>, year: int): (r: Option<C>)
    ensures r.None? <==> year !in Years(registry)
    ensures r.Some? ==> exists i :: 0 <= i < |registry| && registry[i].0 == year && r.value == registry[i].1
  {
    match IndexOf(registry, year)
    case Some(i) => Some(registry[i].1)
    case None => None
  }

  /** The service's calculator choice: the one registered for the year, else
    * the first entry; an empty registry is an illegal state. */
  function Select<C>(registry: seq<(int, C)>, year: int): (r: Result<C, RegistryError>)
    ensures r.Err? <==> registry == []
    ensures year in Years(registry) ==> r.Ok? && Lookup(registry, year) == Some(r.value)
    ensures year !in Years(registry) && registry != [] ==> r == Ok(registry[0].1)
  {
    match Lookup(registry, year)
    case Some(c) => Ok(c)
    case None => if registry == [] then Err(NoCalculatorDefined) else Ok(registry[0].1)
  }

  // ---- properties ---------------------------------------------------------------

  /** Years in a strictly descending sequence identify their entry. */
  lemma DescendingYearsAreKeys<C>(registry: seq<(int, C)>, i: int, year: int)
    requires StrictlyDescending(Years(registry))
    requires 0 <= i < |registry| && registry[i].0 == year
    ensures Lookup(registry, year) == Some(registry[i].1)
  {
    var j := IndexOf(registry, year).value;
    assert Years(registry)[i] == Years(registry)[j];
  }

  /** Selecting from a loaded registry gives the calculator discovered last
    * for the year; for an unknown year it gives the one of the most recent
    * discovered year; it fails only when nothing was discovered. */
  lemma SelectFromLoaded<C>(discovered: seq<(int, C)>, year: int)
    ensures var r := Select(LoadCalculators(discovered), year);
      (year in Years(discovered) ==> r == Ok(Collect(discovered)[year]))
      && (year !in Years(discovered) && discovered != [] ==>
            exists latest :: latest in Years(discovered) && r == Ok(Collect(discovered)[latest])
              && forall y :: y in Years(discovered) ==> y <= latest)
      && (r.Err? <==> discovered == [])
  {
    var registry := LoadCalculators(discovered);
    var years := Years(registry);
    if year in Years(discovered) {
      var i :| 0 <= i < |years| && years[i] == year;
      DescendingYearsAreKeys(registry, i, year);
    } else if discovered != [] {
      assert Years(discovered)[0] in years;
      var latest := registry[0].0;
      assert years[0] == latest;
      forall y | y in Years(discovered) ensures y <= latest {
        var k :| 0 <= k < |years| && years[k] == y;
      }
    }
    assert registry != [] ==> years[0] in Years(discovered);
  }

  /** A later discovery for the same year replaces the earlier one. */
  lemma LaterDiscoveryWins<C>(discovered: seq<(int, C)>, year: int, first: C, second: C)
    ensures Collect(discovered + [(year, first), (year, second)])[year] == second
  {
    var d := discovered + [(year, first), (year, second)];
    assert LastForYear(d, |d| - 1);
  }
}
