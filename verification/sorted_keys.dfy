/** Integer keys (months, years) listed in order: the model of sorting the
  * key set of a map, as the services do before they answer. */
module SortedKeys {

  predicate StrictlyAscending(s: seq<int>)
  {
    forall i, j :: 0 <= i < j < |s| ==> s[i] < s[j]
  }

  predicate StrictlyDescending(s: seq<int>)
  {
    forall i, j :: 0 <= i < j < |s| ==> s[i] > s[j]
  }

  /** Places `x` in a strictly decreasing list, unless it is already there. */
  function InsertDescending(x: int, s: seq<int>): (r: seq<int>)
    requires StrictlyDescending(s)
    ensures StrictlyDescending(r)
    ensures forall k :: k in r <==> k == x || k in s
  {
    if s == [] then [x]
    else if x == s[0] then s
    else if x > s[0] then
      ConsDescending(x, s);
      [x] + s
    else
      var rest := InsertDescending(x, s[1..]);
      ConsDescending(s[0], rest);
      [s[0]] + rest
  }

  /** A head above every element of a strictly decreasing tail keeps it strictly decreasing. */
  lemma ConsDescending(h: int, t: seq<int>)
    requires StrictlyDescending(t)
    requires forall k :: k in t ==> k < h
    ensures StrictlyDescending([h] + t)
  {
    forall i, j | 0 <= i < j < |[h] + t|
      ensures ([h] + t)[i] > ([h] + t)[j]
    {
      assert t[j - 1] in t;
    }
  }

  lemma ConsAscending(h: int, t: seq<int>)
    requires StrictlyAscending(t)
    requires forall k :: k in t ==> h < k
    ensures StrictlyAscending([h] + t)
  {
    forall i, j | 0 <= i < j < |[h] + t|
      ensures ([h] + t)[i] < ([h] + t)[j]
    {
      assert t[j - 1] in t;
    }
  }

  /** The distinct elements of `xs`, largest first. */
  function DescendingDistinct(xs: seq<int>): (r: seq<int>)
    ensures StrictlyDescending(r)
    ensures forall k :: k in r <==> k in xs
  {
    if xs == [] then []
    else InsertDescending(xs[|xs| - 1], DescendingDistinct(xs[..|xs| - 1]))
  }

  /** The integers `lo`, `lo + 1`, ..., `hi`. */
  function Range(lo: int, hi: int): (r: seq<int>)
    ensures StrictlyAscending(r)
    ensures |r| == if lo <= hi then hi - lo + 1 else 0
    ensures forall i :: 0 <= i < |r| ==> r[i] == lo + i
    decreases hi - lo
  {
    if lo > hi then [] else [lo] + Range(lo + 1, hi)
  }

  /** The listed keys, each paired with its value in `m`, in the order given. */
  function Entries<V>(m: map<int, V>, keys: seq<int>): (r: seq<(int, V)>)
    requires forall i :: 0 <= i < |keys| ==> keys[i] in m
    ensures |r| == |keys|
    ensures forall i :: 0 <= i < |r| ==> r[i] == (keys[i], m[keys[i]])
  {
    if keys == [] then [] else [(keys[0], m[keys[0]])] + Entries(m, keys[1..])
  }

  function Filter(s: seq<int>, keys: set<int>): (r: seq<int>)
    ensures forall k :: k in r <==> k in s && k in keys
    ensures StrictlyAscending(s) ==> StrictlyAscending(r)
  {
    if s == [] then []
    else
      var rest := Filter(s[1..], keys);
      if s[0] in keys then
        if StrictlyAscending(s) then
          assert forall k :: k in s[1..] ==> s[0] < k by {
            forall k | k in s[1..]
              ensures s[0] < k
            {
              var j :| 0 <= j < |s[1..]| && s[1..][j] == k;
              assert s[j + 1] == k;
            }
          }
          ConsAscending(s[0], rest);
          [s[0]] + rest
        else
          [s[0]] + rest
      else rest
  }

  /** The months of a month-keyed map, in calendar order. */
  function MonthsAscending(keys: set<int>): (r: seq<int>)
    ensures StrictlyAscending(r)
    ensures forall k :: k in r <==> 1 <= k <= 12 && k in keys
  {
    Filter(Range(1, 12), keys)
  }

}
