/**
 * Money amounts as exact integer cents.  The format is the one the receipt
 * schema states for `price` and `total`: one or more digits, a point, and
 * exactly two digits (`\d+\.\d{2}`).  A leading minus sign is modelled as
 * well, because the validators accept what Python's `float` accepts and then
 * judge the sign.
 */
module Money {
  import opened Wrappers
  import opened Text

  /** The text matches `\d+\.\d{2}`. */
  predicate IsMoneyText(s: string) {
    |s| >= 4 && s[|s| - 3] == '.' && AllDigits(s[..|s| - 3]) && AllDigits(s[|s| - 2..])
  }

  /** The whole-currency-unit digits of a money text. */
  function WholePart(s: string): string
    requires IsMoneyText(s)
  {
    s[..|s| - 3]
  }

  /** The two fractional digits of a money text. */
  function CentsPart(s: string): string
    requires IsMoneyText(s)
  {
    s[|s| - 2..]
  }

  /** Cents denoted by an unsigned money text, or None when the text is
      not of the form `\d+\.\d{2}`. */
  function ParseCents(s: string): (r: Option<nat>)
    ensures r.Some? <==> IsMoneyText(s)
    ensures r.Some? ==> r.value / 100 == DigitsValue(WholePart(s))
    ensures r.Some? ==> r.value % 100 == DigitsValue(CentsPart(s))
  {
    if IsMoneyText(s) then
      var c := DigitsValue(CentsPart(s));
      assert c < 100 by { assert Pow10(2) == 100; }
      Some(100 * DigitsValue(WholePart(s)) + c)
    else None
  }

  /** Cents denoted by a money text with an optional leading minus sign. */
  function ParseSignedCents(s: string): (r: Option<int>)
    ensures r.Some? <==> IsMoneyText(s) || (|s| >= 1 && s[0] == '-' && IsMoneyText(s[1..]))
    ensures r.Some? && r.value < 0 ==> s[0] == '-'
    ensures IsMoneyText(s) ==> r == Some(ParseCents(s).value)
    ensures |s| >= 1 && s[0] == '-' && IsMoneyText(s[1..]) ==> r == Some(0 - ParseCents(s[1..]).value as int)
  {
    if |s| >= 1 && s[0] == '-' then
      match ParseCents(s[1..])
      case Some(c) => Some(0 - c as int)
      case None => None
    else
      match ParseCents(s)
      case Some(c) => Some(c)
      case None => None
  }

  /** The canonical text of an amount of cents: shortest whole part, two
      fractional digits. */
  function FormatCents(c: nat): (s: string)
    ensures IsMoneyText(s)
  {
    var s := NatToDigits(c / 100) + "." + Pad2(c % 100);
    assert s[..|s| - 3] == NatToDigits(c / 100);
    assert s[|s| - 2..] == Pad2(c % 100);
    s
  }

  /** Printing an amount and parsing it back gives the same amount. */
  lemma ParseFormatCents(c: nat)
    ensures ParseCents(FormatCents(c)) == Some(c)
  {
    var s := FormatCents(c);
    assert WholePart(s) == NatToDigits(c / 100);
    assert CentsPart(s) == Pad2(c % 100);
  }

  /** Parsing a money text whose whole part has no superfluous leading
      zero and printing the amount gives the text back. */
  lemma FormatParseCents(s: string)
    requires IsMoneyText(s) && IsCanonicalDigits(WholePart(s))
    ensures FormatCents(ParseCents(s).value) == s
  {
    var c := ParseCents(s).value;
    CanonicalDigitsRoundTrip(WholePart(s));
    Pad2OfValue(CentsPart(s));
    assert s == WholePart(s) + "." + CentsPart(s);
  }

  /** `ceil(price * 0.2)` for a price of `cents` cents: the least integer
      whose 500-fold is at least `cents`, since price * 0.2 = cents / 500. */
  function CeilFifthOfPrice(cents: int): (r: int)
    ensures 500 * (r - 1) < cents <= 500 * r
  {
    -((-cents) / 500)
  }

  /** A non-negative price earns a non-negative ceiling, and a zero price
      earns nothing. */
  lemma CeilFifthOfPriceSign(cents: int)
    ensures cents >= 0 ==> CeilFifthOfPrice(cents) >= 0
    ensures cents == 0 ==> CeilFifthOfPrice(cents) == 0
    ensures cents > 0 ==> CeilFifthOfPrice(cents) >= 1
  {
  }
}
