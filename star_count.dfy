/**
 * `formatNumber` of repos-feed.js: a star count as "N.Dm" from a million on,
 * "N.Dk" from a thousand on, and the plain integer below that. The one-decimal
 * value that `toFixed(1)` prints is modelled as the exact quotient rounded to
 * the nearest tenth, halves upwards.
 */
module StarCount {
  import opened Wrappers
  import opened Strings

  const Thousand: int := 1000
  const Million: int := 1000000

  /** `num / unit` in tenths, to the nearest tenth. */
  function RoundedTenths(num: nat, unit: nat): (tenths: nat)
    requires unit > 0
    ensures -(unit as int) < 2 * (tenths * unit - 10 * num) <= unit
  {
    var q := (20 * num + unit) / (2 * unit);
    DivBounds(20 * num + unit, 2 * unit);
    q
  }

  lemma DivBounds(a: nat, b: nat)
    requires b > 0
    ensures (a / b) * b <= a < (a / b) * b + b
  {
  }

  /** `x.toFixed(1)` for a non-negative `x` given in tenths. */
  function OneDecimal(tenths: nat): string {
    NatToString(tenths / 10) + "." + [DigitChar(tenths % 10)]
  }

  /** Reads back a one-decimal number "W.D" as a count of tenths. */
  function ParseOneDecimal(s: string): Option<int> {
    if |s| >= 3 && s[|s| - 2] == '.' && IsDigit(s[|s| - 1]) then
      match ParseInt(s[..|s| - 2])
      case Some(whole) => Some(whole * 10 + DigitValue(s[|s| - 1]))
      case None => None
    else None
  }

  lemma ParseOneDecimalOfOneDecimal(tenths: nat)
    ensures ParseOneDecimal(OneDecimal(tenths)) == Some(tenths)
  {
    var s := OneDecimal(tenths);
    var w := NatToString(tenths / 10);
    assert s[..|s| - 2] == w;
    assert w == IntToString(tenths / 10);
    ParseIntToString(tenths / 10);
  }

  function FormatNumber(num: int): (s: string)
    ensures |s| >= 1
  {
    if num >= Million then OneDecimal(RoundedTenths(num, Million)) + "m"
    else if num >= Thousand then OneDecimal(RoundedTenths(num, Thousand)) + "k"
    else IntToString(num)
  }

  /** The last character tells the branch: "m", "k", or a digit of the plain count. */
  lemma FormatNumberSuffix(num: int)
    ensures var s := FormatNumber(num);
      && (s[|s| - 1] == 'm' <==> num >= Million)
      && (s[|s| - 1] == 'k' <==> Thousand <= num < Million)
      && (IsDigit(s[|s| - 1]) <==> num < Thousand)
  {
  }

  /** Below a thousand the text is the count itself. */
  lemma FormatNumberPlain(num: int)
    requires num < Thousand
    ensures ParseInt(FormatNumber(num)) == Some(num)
  {
    ParseIntToString(num);
  }

  /** From a thousand on, the number before the suffix is the count in thousands or millions to the nearest tenth. */
  lemma FormatNumberAbbreviated(num: int)
    requires num >= Thousand
    ensures var s := FormatNumber(num);
      var unit := if num >= Million then Million else Thousand;
      match ParseOneDecimal(s[..|s| - 1])
      case Some(tenths) => -unit < 2 * (tenths * unit - 10 * num) <= unit
      case None => false
  {
    var unit := if num >= Million then Million else Thousand;
    var t := RoundedTenths(num, unit);
    var s := FormatNumber(num);
    assert s[..|s| - 1] == OneDecimal(t);
    ParseOneDecimalOfOneDecimal(t);
  }

  /** In the thousands branch the shown value lies between 1.0 and 1000.0. */
  lemma ThousandsRange(num: int)
    requires Thousand <= num < Million
    ensures 10 <= RoundedTenths(num, Thousand) <= 10000
  {
  }

  /** 999,999 takes the "k" branch yet rounds up to "1000.0k". */
  lemma ThousandsBoundary()
    ensures FormatNumber(999999) == "1000.0k"
  {
  }

  lemma FormatNumberExamples()
    ensures FormatNumber(999) == "999"
    ensures FormatNumber(1500) == "1.5k"
    ensures FormatNumber(2300000) == "2.3m"
  {
  }
}
