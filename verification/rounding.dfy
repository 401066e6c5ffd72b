/** Integer division as Java performs it, and the java.math.RoundingMode
  * variants the calculators use, over exact integers and reals. */
module Rounding {

  function Abs(x: int): nat
  {
    if x < 0 then -x else x
  }

  function AbsReal(x: real): real
  {
    if x < 0.0 then -x else x
  }

  /** Java's `/` on integral types: the quotient is truncated toward zero
    * (Dafny's own `/` is Euclidean). */
  function TruncDiv(a: int, b: int): (q: int)
    requires b != 0
    ensures Abs(q) == Abs(a) / Abs(b)
    ensures q < 0 ==> (a < 0) != (b < 0)
    ensures q > 0 ==> (a < 0) == (b < 0)
  {
    NaturalDivision(Abs(a), Abs(b));
    var m := Abs(a) / Abs(b);
    if (a < 0) == (b < 0) then m else -m
  }

  /** The facts of Euclidean division on naturals the proofs below rely on. */
  lemma NaturalDivision(x: nat, y: nat)
    requires y > 0
    ensures x / y >= 0
    ensures x == (x / y) * y + x % y
    ensures 0 <= x % y < y
  {
  }

  /** Java's `%` on integral types: the remainder takes the sign of the dividend. */
  function TruncRem(a: int, b: int): (r: int)
    requires b != 0
    ensures a == TruncDiv(a, b) * b + r
    ensures Abs(r) < Abs(b)
    ensures r != 0 ==> (r < 0 <==> a < 0)
  {
    TruncRemFacts(a, b);
    a - TruncDiv(a, b) * b
  }

  lemma TruncRemFacts(a: int, b: int)
    requires b != 0
    ensures var r := a - TruncDiv(a, b) * b;
      Abs(r) == Abs(a) % Abs(b) && (r != 0 ==> (r < 0 <==> a < 0))
  {
    NaturalDivision(Abs(a), Abs(b));
    TruncDivTimesDivisor(a, b);
  }

  /** The truncated quotient times the divisor is the largest multiple of the
    * divisor not exceeding the dividend in magnitude, with the dividend's sign. */
  lemma TruncDivTimesDivisor(a: int, b: int)
    requires b != 0
    ensures TruncDiv(a, b) * b == if a < 0 then -(Abs(a) / Abs(b) * Abs(b)) else Abs(a) / Abs(b) * Abs(b)
  {
    var m := Abs(a) / Abs(b);
    var q := TruncDiv(a, b);
    if b < 0 {
      NegateFactor(m, b);
      if a < 0 {
        assert q == m;
      } else {
        assert q == -m;
        NegateFactor(m, b);
        NegateFactor(b, m);
      }
    } else {
      if a < 0 {
        assert q == -m;
        NegateFactor(b, m);
      } else {
        assert q == m;
      }
    }
  }

  lemma NegateFactor(x: int, y: int)
    ensures x * -y == -(x * y) && -x * y == -(x * y)
  {
  }

  /** The rounding modes of java.math.RoundingMode that the modelled code uses. */
  datatype RoundingMode = Floor | Ceiling | Down | HalfEven

  function FloorOf(x: real): (r: int)
    ensures r as real <= x < r as real + 1.0
  {
    x.Floor
  }

  function CeilingOf(x: real): (r: int)
    ensures x <= r as real < x + 1.0
  {
    -((-x).Floor)
  }

  /** Rounding toward zero. */
  function DownOf(x: real): (r: int)
    ensures AbsReal(r as real) <= AbsReal(x) < AbsReal(r as real) + 1.0
    ensures r != 0 ==> (r < 0 <==> x < 0.0)
  {
    if x < 0.0 then CeilingOf(x) else FloorOf(x)
  }

  /** Rounding to the nearest integer, a tie going to the even neighbour. */
  function HalfEvenOf(x: real): (r: int)
    ensures AbsReal(r as real - x) <= 0.5
    ensures AbsReal(r as real - x) == 0.5 ==> r % 2 == 0
  {
    var f := x.Floor;
    var frac := x - f as real;
    if frac < 0.5 then f
    else if frac > 0.5 then f + 1
    else if f % 2 == 0 then f
    else f + 1
  }

  /** What `setScale(0, mode)` promises of a whole number `k` standing for
    * the exact value `x`, mode by mode as java.math.RoundingMode defines it. */
  predicate RoundedTo(x: real, mode: RoundingMode, k: int)
  {
    match mode
    case Floor => k as real <= x < k as real + 1.0
    case Ceiling => x <= k as real < x + 1.0
    case Down => AbsReal(k as real) <= AbsReal(x) < AbsReal(k as real) + 1.0 && (k != 0 ==> (k < 0 <==> x < 0.0))
    case HalfEven => AbsReal(k as real - x) <= 0.5 && (AbsReal(k as real - x) == 0.5 ==> k % 2 == 0)
  }

  /** `setScale(0, mode)` on an exact value. */
  function RoundToInteger(x: real, mode: RoundingMode): (r: int)
    ensures AbsReal(r as real - x) < 1.0
    ensures mode == Floor ==> r as real <= x < r as real + 1.0
    ensures mode == Ceiling ==> x <= r as real < x + 1.0
    ensures mode == Down ==> AbsReal(r as real) <= AbsReal(x) < AbsReal(r as real) + 1.0
                             && (r != 0 ==> (r < 0 <==> x < 0.0))
    ensures mode == HalfEven ==> AbsReal(r as real - x) <= 0.5 && (AbsReal(r as real - x) == 0.5 ==> r % 2 == 0)
    ensures RoundedTo(x, mode, r)
  {
    match mode
    case Floor => FloorOf(x)
    case Ceiling => CeilingOf(x)
    case Down => DownOf(x)
    case HalfEven => HalfEvenOf(x)
  }

  /** Each mode's promise leaves one whole number only: the one `RoundToInteger` gives. */
  lemma RoundedToIsUnique(x: real, mode: RoundingMode, k: int)
    requires RoundedTo(x, mode, k)
    ensures k == RoundToInteger(x, mode)
  {
    var r := RoundToInteger(x, mode);
    match mode
    case Floor => WithinOneIsEqual(k, r);
    case Ceiling => WithinOneIsEqual(k, r);
    case Down =>
      if x < 0.0 {
        assert k <= 0 && r <= 0;
      } else {
        assert k >= 0 && r >= 0;
      }
      WithinOneIsEqual(k, r);
    case HalfEven =>
  }

  /** Two whole numbers less than one apart are equal. */
  lemma WithinOneIsEqual(a: int, b: int)
    requires -1.0 < a as real - b as real < 1.0
    ensures a == b
  {
  }

  /** `setScale(2, CEILING)`: the least whole number of hundredths not below `x`. */
  function CeilingCents(x: real): (r: real)
    ensures x <= r < x + 0.01
    ensures (r * 100.0).Floor as real == r * 100.0
  {
    CeilingOf(x * 100.0) as real / 100.0
  }

}
