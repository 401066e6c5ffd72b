/** Exact decimal division (`BigDecimal.divide` without a math context): the
  * quotient of two integers is representable only when it has a finite
  * decimal expansion, that is when the divisor, once the common factors are
  * removed, has no prime factor other than 2 and 5. */
module Decimals {
  import opened Results
  import opened Rounding

  /** 10 to the power k. */
  function Pow10(k: nat): (r: nat)
    ensures r > 0
  {
    if k == 0 then 1 else 10 * Pow10(k - 1)
  }

  lemma {:induction false} Pow10ModThree(k: nat)
    ensures Pow10(k) % 3 == 1
  {
    if k > 0 {
      Pow10ModThree(k - 1);
      var q := Pow10(k - 1) / 3;
      assert Pow10(k - 1) == 3 * q + 1;
      assert Pow10(k) == 3 * (10 * q + 3) + 1;
      OneMoreThanAMultipleOfThree(10 * q + 3);
    }
  }

  lemma OneMoreThanAMultipleOfThree(n: int)
    ensures (3 * n + 1) % 3 == 1
  {
  }

  /** Greatest common divisor, by Euclid's algorithm. */
  function Gcd(a: nat, b: nat): nat
    decreases b
  {
    if b == 0 then a else Gcd(b, a % b)
  }

  /** Whether `d` is a product of twos and fives only. */
  predicate OnlyTwosAndFives(d: nat)
    decreases d
  {
    d == 1
    || (d >= 2 && d % 2 == 0 && OnlyTwosAndFives(d / 2))
    || (d >= 5 && d % 5 == 0 && OnlyTwosAndFives(d / 5))
  }

  /** Whether `numerator / denominator` has a finite decimal expansion. */
  predicate Terminates(numerator: int, denominator: int)
  {
    denominator != 0
    && Gcd(Abs(numerator), Abs(denominator)) > 0
    && OnlyTwosAndFives(Abs(denominator) / Gcd(Abs(numerator), Abs(denominator)))
  }

  /** The outcome of an exact division: by zero, without finite expansion, or the quotient. */
  function ExactDivide(numerator: int, denominator: int): (r: Result<real, ArithError>)
    ensures r.Err? <==> !Terminates(numerator, denominator)
    ensures r.Err? && denominator == 0 ==> r.error == DivisionByZero
    ensures r.Err? && denominator != 0 ==> r.error == NonTerminatingDecimal
    ensures r.Ok? ==> r.value * denominator as real == numerator as real
  {
    if denominator == 0 then Err(DivisionByZero)
    else if !Terminates(numerator, denominator) then Err(NonTerminatingDecimal)
    else Ok(numerator as real / denominator as real)
  }

  // ---- properties ------------------------------------------------------------

  lemma ProductSigns(a: int, b: int)
    ensures (a >= 0 && b >= 0) || (a <= 0 && b <= 0) ==> a * b >= 0
    ensures (a >= 0 && b <= 0) || (a <= 0 && b >= 0) ==> a * b <= 0
  {
  }

  /** Every multiple of `d` leaves no remainder. */
  lemma MultipleHasNoRemainder(d: int, q: int)
    requires d != 0
    ensures (d * q) % d == 0
  {
    var k, r := (d * q) / d, (d * q) % d;
    assert d * q == d * k + r;
    var t := q - k;
    assert r == d * t;
    assert d * t == d + d * (t - 1) == -d + d * (t + 1);
    ProductSigns(d, t - 1);
    ProductSigns(d, t + 1);
  }

  /** A number without remainder is the divisor times the quotient. */
  lemma NoRemainderIsMultiple(x: int, d: int)
    requires d != 0 && x % d == 0
    ensures x == d * (x / d)
  {
  }

  /** The greatest common divisor divides both arguments. */
  lemma {:induction false} GcdDivides(a: nat, b: nat)
    ensures a > 0 || b > 0 ==> Gcd(a, b) > 0
    ensures Gcd(a, b) > 0 ==> a % Gcd(a, b) == 0 && b % Gcd(a, b) == 0
    decreases b
  {
    if b > 0 {
      GcdDivides(b, a % b);
      var g := Gcd(b, a % b);
      NoRemainderIsMultiple(b, g);
      NoRemainderIsMultiple(a % b, g);
      var x, y := b / g, (a % b) / g;
      assert a == b * (a / b) + a % b;
      assert a == g * (x * (a / b) + y) by {
        assert b * (a / b) == g * (x * (a / b));
      }
      MultipleHasNoRemainder(g, x * (a / b) + y);
    }
  }

  /** A product of twos and fives divides some power of ten. */
  lemma {:induction false} TwosAndFivesDividePowerOfTen(d: nat)
    requires OnlyTwosAndFives(d)
    ensures exists k: nat :: Pow10(k) % d == 0
    decreases d
  {
    if d == 1 {
      assert Pow10(0) % d == 0;
    } else {
      var p: nat := if d % 2 == 0 && OnlyTwosAndFives(d / 2) then 2 else 5;
      assert d % p == 0 && OnlyTwosAndFives(d / p);
      var e := d / p;
      NoRemainderIsMultiple(d, p);
      TwosAndFivesDividePowerOfTen(e);
      var k: nat :| Pow10(k) % e == 0;
      NoRemainderIsMultiple(Pow10(k), e);
      var c := Pow10(k) / e;
      TenfoldStep(p, e, c);
      assert Pow10(k + 1) == d * ((10 / p) * c);
      MultipleHasNoRemainder(d, (10 / p) * c);
    }
  }

  /** Ten times `e * c` is `p * e` times the other factor of ten. */
  lemma TenfoldStep(p: nat, e: int, c: int)
    requires p == 2 || p == 5
    ensures 10 * (e * c) == (p * e) * ((10 / p) * c)
  {
    if p == 2 {
      assert (2 * e) * (5 * c) == 10 * (e * c);
    } else {
      assert (5 * e) * (2 * c) == 10 * (e * c);
    }
  }

  /** A terminating quotient has a finite decimal expansion: some power of
    * ten times the numerator is a multiple of the denominator. */
  lemma TerminatingQuotientIsDecimal(numerator: int, denominator: int)
    requires Terminates(numerator, denominator)
    ensures exists k: nat :: (numerator * Pow10(k)) % denominator == 0
  {
    var a, b := Abs(numerator), Abs(denominator);
    var g := Gcd(a, b);
    GcdDivides(a, b);
    NoRemainderIsMultiple(a, g);
    NoRemainderIsMultiple(b, g);
    var d, n := b / g, a / g;
    TwosAndFivesDividePowerOfTen(d);
    var k: nat :| Pow10(k) % d == 0;
    NoRemainderIsMultiple(Pow10(k), d);
    var c := Pow10(k) / d;
    Regroup(g, n, d, c);
    AbsOfProduct(numerator, Pow10(k));
    MultipleOfAbs(numerator * Pow10(k), denominator, n * c);
  }

  /** Conversely, a quotient some power of ten turns into a whole number
    * terminates: the divisor, reduced by the common factors, divides that
    * power of ten, so it has no prime factor but 2 and 5. */
  lemma DecimalQuotientTerminates(numerator: int, denominator: int, k: nat)
    requires denominator != 0 && (numerator * Pow10(k)) % denominator == 0
    ensures Terminates(numerator, denominator)
  {
    var a, b, p := Abs(numerator), Abs(denominator), Pow10(k);
    var g := Gcd(a, b);
    GcdDivides(a, b);
    NoRemainderIsMultiple(b, g);
    var d := b / g;
    assert b == g * d && d > 0;
    AbsOfProduct(numerator, p);
    AbsOfMultiple(numerator * p, denominator);
    ReducedDivisorDividesPower(a, b, g, d, p);
    PowerOfTenDivisorIsTwosAndFives(d, k);
  }

  /** If `b = g * d` divides `a * p`, where `g` is the greatest common divisor
    * of `a` and `b`, then `d` divides `p`. */
  lemma ReducedDivisorDividesPower(a: nat, b: nat, g: nat, d: nat, p: int)
    requires g == Gcd(a, b) && g > 0 && b == g * d && d > 0 && (a * p) % b == 0
    ensures p % d == 0
  {
    NoRemainderIsMultiple(a * p, b);
    var t := (a * p) / b;
    var x, y := Bezout(a, b);
    var c := t * x + p * y;
    assert g * p == g * (d * c) by {
      MulDistrib(a * x, b * y, p);
      assert g * p == (a * x) * p + (b * y) * p;
      MulSwap(a, x, p);
      MulSwap(b, y, p);
      assert (a * x) * p == (a * p) * x == (b * t) * x;
      MulAssoc(g, d, t);
      MulAssoc(g, d, p);
      MulAssoc(g * d, t, x);
      MulAssoc(g * d, p, y);
      MulAssoc(g, d * t, x);
      MulAssoc(g, d * p, y);
      MulAssoc(d, t, x);
      MulAssoc(d, p, y);
      MulDistrib(d * (t * x), d * (p * y), g);
      MulDistrib(t * x, p * y, d);
    }
    CancelFactor(g, p, d * c);
    MultipleHasNoRemainder(d, c);
  }

  lemma MulAssoc(a: int, b: int, c: int)
    ensures (a * b) * c == a * (b * c)
  {
  }

  lemma MulSwap(a: int, b: int, c: int)
    ensures (a * b) * c == (a * c) * b
  {
  }

  lemma MulDistrib(a: int, b: int, c: int)
    ensures (a + b) * c == a * c + b * c && c * (a + b) == c * a + c * b
  {
  }

  lemma TimesOne(e: int, m: int)
    requires e == 1
    ensures e * m == m
  {
  }

  lemma CancelFactor(g: int, x: int, y: int)
    requires g != 0 && g * x == g * y
    ensures x == y
  {
  }

  /** Both directions: a quotient terminates exactly when some power of ten
    * times its numerator is a multiple of its denominator. */
  lemma TerminatesIffDecimal(numerator: int, denominator: int)
    requires denominator != 0
    ensures Terminates(numerator, denominator) <==> exists k: nat :: (numerator * Pow10(k)) % denominator == 0
  {
    if Terminates(numerator, denominator) {
      TerminatingQuotientIsDecimal(numerator, denominator);
    }
    if exists k: nat :: (numerator * Pow10(k)) % denominator == 0 {
      var k: nat :| (numerator * Pow10(k)) % denominator == 0;
      DecimalQuotientTerminates(numerator, denominator, k);
    }
  }

  /** Euclid's algorithm, extended: the greatest common divisor as a
    * combination of the two arguments. */
  lemma {:induction false} Bezout(a: nat, b: nat) returns (x: int, y: int)
    ensures a * x + b * y == Gcd(a, b)
    decreases b
  {
    if b == 0 {
      x, y := 1, 0;
    } else {
      var x', y' := Bezout(b, a % b);
      var q := a / b;
      x, y := y', x' - q * y';
      BezoutStep(a, b, q, a % b, x', y');
    }
  }

  /** One step of the extended algorithm: a combination for `b` and the
    * remainder `rem` of `a = b * q + rem` gives one for `a` and `b`. */
  lemma BezoutStep(a: int, b: int, q: int, rem: int, x': int, y': int)
    requires a == b * q + rem
    ensures a * y' + b * (x' - q * y') == b * x' + rem * y'
  {
    MulDistrib(b * q, rem, y');
    MulAssoc(b, q, y');
    assert b * (x' - q * y') == b * x' - b * (q * y');
  }

  /** A divisor with no factor in common with `c` that divides `c * m` divides `m`. */
  lemma CoprimeFactor(d: nat, c: nat, m: int)
    requires d > 0 && Gcd(d, c) == 1
    ensures (c * m) % d == 0 ==> m % d == 0
  {
    if (c * m) % d == 0 {
      var x, y := Bezout(d, c);
      NoRemainderIsMultiple(c * m, d);
      var t := (c * m) / d;
      assert m == d * (x * m + t * y) by {
        var dx, cy := d * x, c * y;
        MulDistrib(dx, cy, m);
        TimesOne(dx + cy, m);
        MulAssoc(d, x, m);
        MulSwap(c, y, m);
        assert (c * m) * y == (d * t) * y;
        MulAssoc(d, t, y);
        MulDistrib(x * m, t * y, d);
      }
      MultipleHasNoRemainder(d, x * m + t * y);
    }
  }

  /** A number that neither 2 nor 5 divides has no factor in common with ten. */
  lemma GcdWithTen(d: nat)
    ensures d % 2 != 0 && d % 5 != 0 ==> Gcd(d, 10) == 1
  {
    if d % 2 != 0 && d % 5 != 0 {
      var r := d % 10;
      LastDigit(d);
      assert r == 1 || r == 3 || r == 7 || r == 9;
      assert Gcd(d, 10) == Gcd(10, r);
      if r == 1 {
        assert Gcd(10, 1) == Gcd(1, 0) == 1;
      } else if r == 3 {
        assert Gcd(10, 3) == Gcd(3, 1) == Gcd(1, 0) == 1;
      } else if r == 7 {
        assert Gcd(10, 7) == Gcd(7, 3) == Gcd(3, 1) == Gcd(1, 0) == 1;
      } else {
        assert Gcd(10, 9) == Gcd(9, 1) == Gcd(1, 0) == 1;
      }
    }
  }

  /** Divisibility by 2 and by 5 is decided by the last decimal digit. */
  lemma LastDigit(d: nat)
    ensures d % 2 == (d % 10) % 2 && d % 5 == (d % 10) % 5
  {
    var q, r := d / 10, d % 10;
    assert d == 2 * (5 * q) + r;
    assert d == 5 * (2 * q) + r;
  }

  /** No number above one that neither 2 nor 5 divides divides a power of ten. */
  lemma {:induction false} OtherFactorsDivideNoPowerOfTen(d: nat, k: nat)
    requires d > 1 && d % 2 != 0 && d % 5 != 0
    ensures Pow10(k) % d != 0
  {
    if k > 0 {
      OtherFactorsDivideNoPowerOfTen(d, k - 1);
      GcdWithTen(d);
      CoprimeFactor(d, 10, Pow10(k - 1));
    }
  }

  /** Every divisor of a power of ten is a product of twos and fives. */
  lemma {:induction false} PowerOfTenDivisorIsTwosAndFives(d: nat, k: nat)
    requires d > 0 && Pow10(k) % d == 0
    ensures OnlyTwosAndFives(d)
    decreases d
  {
    if d > 1 {
      NoRemainderIsMultiple(Pow10(k), d);
      var t := Pow10(k) / d;
      if d % 2 == 0 {
        assert Pow10(k) == (d / 2) * (2 * t);
        MultipleHasNoRemainder(d / 2, 2 * t);
        PowerOfTenDivisorIsTwosAndFives(d / 2, k);
      } else if d % 5 == 0 {
        assert Pow10(k) == (d / 5) * (5 * t);
        MultipleHasNoRemainder(d / 5, 5 * t);
        PowerOfTenDivisorIsTwosAndFives(d / 5, k);
      } else {
        OtherFactorsDivideNoPowerOfTen(d, k);
        assert false;
      }
    }
  }

  /** A multiple of `d` has a magnitude that is a multiple of |d|. */
  lemma AbsOfMultiple(x: int, d: int)
    requires d != 0 && x % d == 0
    ensures Abs(x) % Abs(d) == 0
  {
    NoRemainderIsMultiple(x, d);
    var q := x / d;
    assert Abs(x) == Abs(d) * Abs(q) by {
      ProductSigns(d, q);
      if d < 0 { assert x == -((-d) * q); }
      if q < 0 { assert d * q == -(d * (-q)); }
    }
    MultipleHasNoRemainder(Abs(d), Abs(q));
  }

  lemma Regroup(g: int, n: int, d: int, c: int)
    ensures (g * n) * (d * c) == (g * d) * (n * c)
  {
  }

  lemma AbsOfProduct(x: int, p: nat)
    ensures Abs(x * p) == Abs(x) * p
  {
    ProductSigns(x, p);
    if x < 0 {
      assert x * p == -((-x) * p);
    }
  }

  /** A multiple of |d| stays a multiple of d whatever the signs. */
  lemma MultipleOfAbs(x: int, d: int, q: int)
    requires d != 0 && Abs(x) == Abs(d) * q
    ensures x % d == 0
  {
    var s := if (x >= 0) == (d > 0) then q else -q;
    assert x == d * s;
    MultipleHasNoRemainder(d, s);
  }

  /** A quarter, a fifth or an eighth terminate. */
  lemma TerminatingExamples()
    ensures Terminates(1, 4) && Terminates(1, 5) && Terminates(1, 8) && Terminates(300, 12)
  {
    SmallGcds();
    SmallTwosAndFives();
    assert Abs(1) == 1 && Abs(4) == 4 && Abs(5) == 5 && Abs(8) == 8;
    assert Abs(300) == 300 && Abs(12) == 12 && 12 / 12 == 1 && 4 / 1 == 4;
  }

  lemma SmallGcds()
    ensures Gcd(1, 4) == 1 && Gcd(1, 5) == 1 && Gcd(1, 8) == 1 && Gcd(300, 12) == 12
  {
    assert Gcd(1, 4) == Gcd(4, 1) == Gcd(1, 0) == 1;
    assert Gcd(1, 5) == Gcd(5, 1) == Gcd(1, 0) == 1;
    assert Gcd(1, 8) == Gcd(8, 1) == Gcd(1, 0) == 1;
    assert Gcd(300, 12) == Gcd(12, 0) == 12;
  }

  lemma SmallTwosAndFives()
    ensures OnlyTwosAndFives(1) && OnlyTwosAndFives(4) && OnlyTwosAndFives(5) && OnlyTwosAndFives(8)
  {
    assert OnlyTwosAndFives(1);
    assert OnlyTwosAndFives(2);
    assert OnlyTwosAndFives(4);
    assert OnlyTwosAndFives(5);
  }

  /** A third does not terminate, and neither does a twelfth of a number
    * that three does not divide. */
  lemma NonTerminatingExamples()
    ensures !Terminates(1, 3) && !Terminates(1000, 1200)
  {
    assert Gcd(1, 3) == Gcd(3, 1) == Gcd(1, 0) == 1;
    assert Gcd(1000, 1200) == Gcd(1200, 1000) == Gcd(1000, 200) == Gcd(200, 0) == 200;
    assert !OnlyTwosAndFives(3);
    assert !OnlyTwosAndFives(6);
  }
}
