/** The message texts of the services (`message.Helper` and the message
  * enumerations): a header of component, four-digit code and message name,
  * then the template of the resource bundle formatted with the arguments,
  * or a fixed notice when the bundle has no such template. */
module Messages {
  import opened Results

  // ---- the message enumerations -------------------------------------------------

  /** Every message name any of the enumerations declares. */
  datatype Key =
    | OopsError | IllegalPeriod | NotSingleYearPeriod | NotCurrentContributionYear
    | NotRegisteredYet | AlreadyRegistered | NoContributions | CassandraNoKeyspace

  /** The enumeration constant's name, which is both its `toString` and its
    * key in the resource bundle. */
  function Name(k: Key): (r: string)
    ensures |r| > 2 && r[..2] == "E_"
  {
    match k
    case OopsError => "E_OOPS_ERROR"
    case IllegalPeriod => "E_ILLEGAL_PERIOD"
    case NotSingleYearPeriod => "E_NOT_SINGLE_YEAR_PERIOD"
    case NotCurrentContributionYear => "E_NOT_CURRENT_CONTRIBUTION_YEAR"
    case NotRegisteredYet => "E_NOT_REGISTERED_YET"
    case AlreadyRegistered => "E_ALREADY_REGISTERED"
    case NoContributions => "E_NO_CONTRIBUTIONS"
    case CassandraNoKeyspace => "E_CASSANDRA_NO_KEYSPACE"
  }

  /** The three enumerations: `Messages` of the income service, and `Message`
    * and `Messages` of the calculator service. */
  datatype Catalog = IncomeServiceMessages | CalculatorMessage | CalculatorMessages

  /** The constants of an enumeration in declaration order, no name twice. */
  function Constants(c: Catalog): (r: seq<Key>)
    ensures 0 < |r| <= 8
    ensures forall i, j :: 0 <= i < j < |r| ==> r[i] != r[j]
  {
    match c
    case IncomeServiceMessages =>
      [OopsError, IllegalPeriod, NotSingleYearPeriod, NotCurrentContributionYear,
       NotRegisteredYet, AlreadyRegistered, NoContributions, CassandraNoKeyspace]
    case CalculatorMessage => [OopsError, IllegalPeriod, NotSingleYearPeriod]
    case CalculatorMessages =>
      [OopsError, IllegalPeriod, NotSingleYearPeriod, NotCurrentContributionYear, AlreadyRegistered]
  }

  /** The position of `k` in `s`. */
  function IndexOf(s: seq<Key>, k: Key): (r: nat)
    requires k in s
    ensures r < |s| && s[r] == k
    ensures forall i :: 0 <= i < r ==> s[i] != k
  {
    if s[0] == k then 0 else 1 + IndexOf(s[1..], k)
  }

  /** `ordinal()`: the constant's position in its enumeration. */
  function Ordinal(c: Catalog, k: Key): (r: nat)
    requires k in Constants(c)
    ensures r < |Constants(c)| && Constants(c)[r] == k
  {
    IndexOf(Constants(c), k)
  }

  // ---- `String.format("%04d", code)` -------------------------------------------

  predicate IsDigit(ch: char)
  {
    '0' <= ch <= '9'
  }

  predicate AllDigits(s: string)
  {
    forall i :: 0 <= i < |s| ==> IsDigit(s[i])
  }

  function DigitChar(d: int): (ch: char)
    requires 0 <= d < 10
    ensures IsDigit(ch) && ch as int - '0' as int == d
  {
    ('0' as int + d) as char
  }

  /** The decimal value of a string of digits, most significant first. */
  function ValueOf(s: string): nat
    requires AllDigits(s)
  {
    if s == [] then 0 else 10 * ValueOf(s[..|s| - 1]) + (s[|s| - 1] as int - '0' as int)
  }

  /** The decimal digits of `n` without leading zeros ("0" for zero). */
  function Digits(n: nat): (r: string)
    ensures |r| >= 1 && AllDigits(r)
    ensures n >= 10 ==> r[0] != '0'
  {
    if n < 10 then [DigitChar(n)] else Digits(n / 10) + [DigitChar(n % 10)]
  }

  /** `n` zeros. */
  function Zeros(n: nat): (r: string)
    ensures |r| == n && forall i :: 0 <= i < n ==> r[i] == '0'
  {
    if n == 0 then [] else "0" + Zeros(n - 1)
  }

  /** `s` preceded by as many zeros as it takes to reach `width` characters. */
  function ZeroPadded(s: string, width: nat): (r: string)
    ensures |r| >= width && |r| >= |s| && (|r| == width || |r| == |s|)
    ensures r[|r| - |s|..] == s
    ensures forall i :: 0 <= i < |r| - |s| ==> r[i] == '0'
  {
    Zeros(if width > |s| then width - |s| else 0) + s
  }

  /** `String.format("%04d", code)`: at least four characters, zero-padded
    * after the sign of a negative number. */
  function Format04(code: int): (r: string)
    ensures |r| >= 4
    ensures code >= 0 ==> AllDigits(r)
    ensures code < 0 ==> r[0] == '-' && AllDigits(r[1..])
  {
    if code < 0 then "-" + ZeroPadded(Digits(-code), 3) else ZeroPadded(Digits(code), 4)
  }

  /** Reads a code back from its formatted text. */
  function ReadCode(s: string): int
    requires (|s| > 0 && s[0] == '-' && AllDigits(s[1..])) || AllDigits(s)
  {
    if |s| > 0 && s[0] == '-' then 0 - ValueOf(s[1..]) as int else ValueOf(s)
  }

  // ---- `Helper.getMessage` ------------------------------------------------------

  /** An enumeration constant as the helper sees it: its name, its ordinal,
    * and the code it supplies when its enumeration implements `CodeSupplier`. */
  datatype MessageCode = MessageCode(name: string, ordinal: nat, supplied: Option<int>)

  /** The supplied code, or else the ordinal. */
  function CodeOf(m: MessageCode): (r: int)
    ensures m.supplied.Some? ==> r == m.supplied.value
    ensures m.supplied.None? ==> r == m.ordinal
  {
    match m.supplied
    case Some(code) => code
    case None => m.ordinal
  }

  const NotFound: string := "!! message not found in the resource bundle !!"

  /** "[", the component, the code, "] ", the name and " - ". */
  function Frame(component: string, code: string, name: string): string
  {
    "[" + component + code + "] " + name + " - "
  }

  /** The header of a message: its code formatted to four digits. */
  function Header(component: string, m: MessageCode): string
  {
    Frame(component, Format04(CodeOf(m)), m.name)
  }

  /** `getMessage(resource, component, code, args)`. The resource bundle is a
    * map from message names to templates, and `MessageFormat.format` is the
    * parameter `format`. The text is the header, then the formatted template
    * of the message's name, or the not-found notice when the bundle has none. */
  function GetMessage(bundle: map<string, string>, format: (string, seq<string>) -> string,
                      component: string, m: MessageCode, args: seq<string>): (r: string)
    ensures var header := Header(component, m);
      && |r| >= |header| && r[..|header|] == header
      && (m.name in bundle ==> r[|header|..] == format(bundle[m.name], args))
      && (m.name !in bundle ==> r[|header|..] == NotFound)
  {
    var header := Header(component, m);
    if m.name in bundle then header + format(bundle[m.name], args) else header + NotFound
  }

  /** `get(args)` of a constant of an enumeration: the component is "TAX"
    * and no constant supplies its own code, so the code is the ordinal. */
  function Get(c: Catalog, k: Key, bundle: map<string, string>, format: (string, seq<string>) -> string,
               args: seq<string>): (r: string)
    requires k in Constants(c)
  {
    GetMessage(bundle, format, "TAX", MessageCode(Name(k), Ordinal(c, k), None), args)
  }

  // ---- properties ---------------------------------------------------------------

  /** Digits read back as the number they were made from. */
  lemma {:induction false} DigitsReadBack(n: nat)
    ensures ValueOf(Digits(n)) == n
    decreases n
  {
    if n >= 10 {
      var prefix := Digits(n / 10);
      DigitsReadBack(n / 10);
      assert (prefix + [DigitChar(n % 10)])[..|prefix|] == prefix;
    }
  }

  /** A zero in front does not change the value. */
  lemma {:induction false} LeadingZeroReadsNothing(s: string)
    requires AllDigits(s)
    ensures AllDigits("0" + s) && ValueOf("0" + s) == ValueOf(s)
    decreases |s|
  {
    if s != [] {
      var init := s[..|s| - 1];
      LeadingZeroReadsNothing(init);
      assert ("0" + s)[..|"0" + s| - 1] == "0" + init;
    }
  }

  /** Any number of zeros in front do not change the value. */
  lemma {:induction false} LeadingZerosReadNothing(n: nat, s: string)
    requires AllDigits(s)
    ensures AllDigits(Zeros(n) + s) && ValueOf(Zeros(n) + s) == ValueOf(s)
    decreases n
  {
    if n > 0 {
      var rest := Zeros(n - 1) + s;
      LeadingZerosReadNothing(n - 1, s);
      LeadingZeroReadsNothing(rest);
      assert Zeros(n) + s == "0" + rest;
    } else {
      assert Zeros(n) + s == s;
    }
  }

  /** Padding with zeros does not change the value. */
  lemma PaddingReadsNothing(s: string, width: nat)
    requires AllDigits(s)
    ensures AllDigits(ZeroPadded(s, width)) && ValueOf(ZeroPadded(s, width)) == ValueOf(s)
  {
    LeadingZerosReadNothing(if width > |s| then width - |s| else 0, s);
  }

  /** A non-negative code reads back from its formatted text. */
  lemma NonNegativeReadsBack(code: nat)
    ensures ReadCode(Format04(code)) == code
  {
    DigitsReadBack(code);
    PaddingReadsNothing(Digits(code), 4);
  }

  /** A negative code reads back from its formatted text, sign included. */
  lemma NegativeReadsBack(code: int)
    requires code < 0
    ensures ReadCode(Format04(code)) == code
  {
    var padded := ZeroPadded(Digits(-code), 3);
    DigitsReadBack(-code);
    PaddingReadsNothing(Digits(-code), 3);
    assert Format04(code) == "-" + padded;
    SignedReading(padded);
  }

  lemma SignedReading(digits: string)
    requires AllDigits(digits)
    ensures ReadCode("-" + digits) == 0 - ValueOf(digits) as int
  {
    assert ("-" + digits)[1..] == digits;
  }

  /** The formatted code reads back as the code, negative codes included. */
  lemma FormatReadsBack(code: int)
    ensures ReadCode(Format04(code)) == code
  {
    if code < 0 {
      NegativeReadsBack(code);
    } else {
      NonNegativeReadsBack(code);
    }
  }

  /** Different codes are formatted differently. */
  lemma FormatIsInjective(a: int, b: int)
    ensures Format04(a) == Format04(b) <==> a == b
  {
    FormatReadsBack(a);
    FormatReadsBack(b);
  }

  function Pow10(k: nat): (r: nat)
    ensures r >= 1
  {
    if k == 0 then 1 else 10 * Pow10(k - 1)
  }

  /** A number below the `k`-th power of ten has at most `k` digits. */
  lemma {:induction false} DigitsBelow(n: nat, k: nat)
    requires 1 <= k && n < Pow10(k)
    ensures |Digits(n)| <= k
    decreases k
  {
    if n >= 10 {
      DigitsBelow(n / 10, k - 1);
    }
  }

  /** A code of at most four digits takes exactly four characters. */
  lemma SmallCodesTakeFourCharacters(code: nat)
    requires code < 10000
    ensures |Format04(code)| == 4
  {
    assert Pow10(4) == 10000;
    DigitsBelow(code, 4);
  }

  /** Where each part of a concatenation lands. */
  lemma SevenParts(a: string, b: string, c: string, d: string, e: string, f: string, g: string)
    ensures var s := a + b + c + d + e + f + g;
      && |s| == |a| + |b| + |c| + |d| + |e| + |f| + |g|
      && s[..|a|] == a && s[|a|..|a| + |b|] == b
      && s[|a| + |b|..|a| + |b| + |c|] == c
      && s[|a| + |b| + |c|..|a| + |b| + |c| + |d|] == d
      && s[|a| + |b| + |c| + |d|..|a| + |b| + |c| + |d| + |e|] == e
  {
  }

  /** Where a framed text puts the code and the name, whatever follows. */
  lemma FrameLayout(component: string, code: string, name: string, tail: string)
    ensures var r := Frame(component, code, name) + tail;
      var at := 1 + |component|;
      && |r| >= at + |code| + 2 + |name| + 3
      && r[0] == '[' && r[1..at] == component
      && r[at..at + |code|] == code
      && r[at + |code|..at + |code| + 2] == "] "
      && r[at + |code| + 2..at + |code| + 2 + |name|] == name
  {
    SevenParts("[", component, code, "] ", name, " - ", tail);
  }

  /** A framed text with a four-digit code: the code reads back from the
    * four characters after the component. */
  lemma FourDigitFrame(component: string, code: string, name: string, tail: string, value: int)
    requires |code| == 4 && AllDigits(code) && ReadCode(code) == value
    ensures var r := Frame(component, code, name) + tail;
      var at := 1 + |component|;
      && |r| >= at + 6 + |name| && r[0] == '[' && r[1..at] == component && r[at + 4..at + 6] == "] "
      && AllDigits(r[at..at + 4]) && ReadCode(r[at..at + 4]) == value
      && r[at + 6..at + 6 + |name|] == name
  {
    FrameLayout(component, code, name, tail);
  }

  /** A message names its code and its name in the header: the four
    * characters after the component read back as the code, and the name
    * follows "] ". */
  lemma HeaderIdentifiesTheCode(bundle: map<string, string>, format: (string, seq<string>) -> string,
                                component: string, m: MessageCode, args: seq<string>)
    requires 0 <= CodeOf(m) < 10000
    ensures var r := GetMessage(bundle, format, component, m, args);
      var at := 1 + |component|;
      && |r| >= at + 6 + |m.name| && r[0] == '[' && r[1..at] == component && r[at + 4..at + 6] == "] "
      && AllDigits(r[at..at + 4]) && ReadCode(r[at..at + 4]) == CodeOf(m)
      && r[at + 6..at + 6 + |m.name|] == m.name
  {
    var code := Format04(CodeOf(m));
    var tail := if m.name in bundle then format(bundle[m.name], args) else NotFound;
    SmallCodesTakeFourCharacters(CodeOf(m));
    FormatReadsBack(CodeOf(m));
    FourDigitFrame(component, code, m.name, tail, CodeOf(m));
  }

  /** The message of a constant of an enumeration: "[TAX", then its position
    * in the enumeration in four digits, then "] " and its name. */
  lemma HeaderIdentifiesTheConstant(c: Catalog, k: Key, bundle: map<string, string>,
                                    format: (string, seq<string>) -> string, args: seq<string>)
    requires k in Constants(c)
    ensures var r := Get(c, k, bundle, format, args);
      && |r| >= 10 + |Name(k)| && r[0] == '[' && r[1..4] == "TAX" && r[8..10] == "] "
      && AllDigits(r[4..8]) && ReadCode(r[4..8]) == Ordinal(c, k)
      && r[10..10 + |Name(k)|] == Name(k)
  {
    HeaderIdentifiesTheCode(bundle, format, "TAX", MessageCode(Name(k), Ordinal(c, k), None), args);
  }

  /** Two constants of one enumeration have different codes. */
  lemma OrdinalsAreDistinct(c: Catalog, a: Key, b: Key)
    requires a in Constants(c) && b in Constants(c)
    ensures Ordinal(c, a) == Ordinal(c, b) <==> a == b
  {
  }

  /** The illegal-period message of the calculator service, with a bundle
    * that has no template for it: "[TAX0001] E_ILLEGAL_PERIOD - " and the
    * not-found notice. */
  lemma IllegalPeriodWithoutTemplate(format: (string, seq<string>) -> string)
    ensures Get(CalculatorMessage, IllegalPeriod, map[], format, []) == Frame("TAX", "0001", "E_ILLEGAL_PERIOD") + NotFound
  {
    assert Ordinal(CalculatorMessage, IllegalPeriod) == 1;
    FormatOfOne();
  }

  lemma FormatOfOne()
    ensures Format04(1) == "0001"
  {
    assert Digits(1) == "1";
    assert Zeros(3) == "000";
  }

  /** The two services number their messages independently: "already
    * registered" is code 4 in the calculator service and 5 in the income
    * service. */
  lemma AlreadyRegisteredCodes()
    ensures Ordinal(CalculatorMessages, AlreadyRegistered) == 4
    ensures Ordinal(IncomeServiceMessages, AlreadyRegistered) == 5
  {
  }
}
