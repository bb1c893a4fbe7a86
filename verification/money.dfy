/**
  Rupee amounts as the order pages store, print and re-read them.

  A stored amount is a whole number of paise (two decimals, exactly), so
  formatting it with two decimals is exact.  The pages print an amount as the
  rupee sign followed by that two-decimal text, and later recover the number
  by deleting the rupee sign and parsing what is left.
 */
module Money {
  import opened Wrappers

  /** The rupee sign U+20B9. */
  const Rupee: char := '\U{20B9}'

  predicate IsDigit(c: char) {
    '0' <= c <= '9'
  }

  predicate AllDigits(s: string) {
    forall i :: 0 <= i < |s| ==> IsDigit(s[i])
  }

  function DigitChar(d: nat): (c: char)
    requires d < 10
    ensures IsDigit(c) && c as int - '0' as int == d
  {
    ('0' as int + d) as char
  }

  /** Decimal notation of `n` without leading zeros. */
  function NatToDecimal(n: nat): (s: string)
    ensures s != [] && AllDigits(s)
    ensures n >= 10 ==> s[0] != '0'
  {
    if n < 10 then [DigitChar(n)] else NatToDecimal(n / 10) + [DigitChar(n % 10)]
  }

  /** The number a string of decimal digits denotes (leading zeros allowed). */
  function DigitsValue(s: string): nat
    requires AllDigits(s)
  {
    if s == [] then 0
    else 10 * DigitsValue(s[..|s| - 1]) + (s[|s| - 1] as int - '0' as int)
  }

  function Pow10(k: nat): (r: nat)
    ensures r >= 1
  {
    if k == 0 then 1 else 10 * Pow10(k - 1)
  }

  /** Reading back the decimal notation of `n` gives `n`. */
  lemma {:induction false} NatToDecimalRoundTrip(n: nat)
    ensures DigitsValue(NatToDecimal(n)) == n
  {
    if n >= 10 {
      NatToDecimalRoundTrip(n / 10);
      var s := NatToDecimal(n);
      assert s[..|s| - 1] == NatToDecimal(n / 10);
    }
  }

  /** Two-decimal text of an amount in paise: whole rupees, a dot, exactly two digits of paise. */
  function Fixed2(paise: nat): (s: string)
    ensures |s| >= 4 && s[|s| - 3] == '.'
    ensures AllDigits(s[..|s| - 3]) && AllDigits(s[|s| - 2..])
    ensures s[..|s| - 3] == NatToDecimal(paise / 100)
    ensures |s| > 4 ==> s[0] != '0'
  {
    NatToDecimal(paise / 100) + "." + [DigitChar(paise % 100 / 10), DigitChar(paise % 10)]
  }

  /** The displayed form: the rupee sign in front of the amount text. */
  function WithRupee(amount: string): (s: string)
    ensures |s| == |amount| + 1 && s[0] == Rupee && s[1..] == amount
  {
    [Rupee] + amount
  }

  /** Index of the first occurrence of `c` in `s`. */
  function FirstIndex(s: string, c: char): (r: Option<nat>)
    ensures r.None? <==> c !in s
    ensures r.Some? ==> r.value < |s| && s[r.value] == c && c !in s[..r.value]
  {
    if s == [] then None
    else if s[0] == c then Some(0)
    else
      var r := FirstIndex(s[1..], c);
      if r.Some? then
        assert s[..r.value + 1] == [s[0]] + s[1..][..r.value];
        Some(r.value + 1)
      else
        None
  }

  /** String replacement of a one-character pattern by nothing: only the FIRST occurrence goes. */
  function RemoveFirst(s: string, c: char): (r: string)
    ensures c !in s ==> r == s
    ensures c in s ==> exists i :: 0 <= i < |s| && s[i] == c && c !in s[..i] && r == s[..i] + s[i + 1..]
  {
    match FirstIndex(s, c)
    case None => s
    case Some(i) => s[..i] + s[i + 1..]
  }

  /** Stripping the rupee sign from a displayed amount recovers the amount text. */
  lemma StripRupeeRoundTrip(amount: string)
    requires Rupee !in amount
    ensures RemoveFirst(WithRupee(amount), Rupee) == amount
  {
    assert FirstIndex(WithRupee(amount), Rupee) == Some(0);
  }

  /**
    Floating-point parsing of plain decimal text (digits, optionally a dot and
    more digits); any other text is `None`, standing for NaN.
   */
  function ParseDecimal(s: string): (r: Option<real>)
    ensures r.Some? ==> r.value >= 0.0
    ensures s == [] ==> r.None?
  {
    match FirstIndex(s, '.')
    case None =>
      if s != [] && AllDigits(s) then Some(DigitsValue(s) as real) else None
    case Some(i) =>
      var whole, frac := s[..i], s[i + 1..];
      if whole != [] && AllDigits(whole) && AllDigits(frac)
      then Some(DigitsValue(whole) as real + DigitsValue(frac) as real / Pow10(|frac|) as real)
      else None
  }

  /** The value shown for `paise`, in rupees. */
  function Rupees(paise: nat): real {
    paise as real / 100.0
  }

  /** Parsing the two-decimal text of an amount gives back exactly that amount. */
  lemma Fixed2RoundTrip(paise: nat)
    ensures ParseDecimal(Fixed2(paise)) == Some(Rupees(paise))
  {
    var q, tens, units := paise / 100, paise % 100 / 10, paise % 10;
    var whole := NatToDecimal(q);
    var frac := [DigitChar(tens), DigitChar(units)];
    var s := Fixed2(paise);
    assert s == whole + "." + frac;
    DotSplits(whole, frac);
    NatToDecimalRoundTrip(q);
    TwoDigitsValue(tens, units);
    var cents := 10 * tens + units;
    RupeesSplit(paise, q, cents);
    assert ParseDecimal(s) == Some(DigitsValue(whole) as real + DigitsValue(frac) as real / Pow10(|frac|) as real);
    assert DigitsValue(whole) as real + DigitsValue(frac) as real / Pow10(|frac|) as real
        == q as real + cents as real / 100.0;
  }

  /** In `whole.frac` with an all-digit `whole`, the first dot separates the two parts. */
  lemma DotSplits(whole: string, frac: string)
    requires AllDigits(whole)
    ensures FirstIndex(whole + "." + frac, '.') == Some(|whole|)
    ensures (whole + "." + frac)[..|whole|] == whole
    ensures (whole + "." + frac)[|whole| + 1..] == frac
  {
    var s := whole + "." + frac;
    assert s[..|whole|] == whole;
    assert s[|whole| + 1..] == frac;
    assert '.' !in whole;
    FirstIndexAfter(whole, "." + frac, '.');
    assert whole + ("." + frac) == s;
  }

  /** Searching `a + b` for a character absent from `a` finds it where `b` has it, shifted by `|a|`. */
  lemma {:induction false} FirstIndexAfter(a: string, b: string, c: char)
    requires c !in a
    ensures FirstIndex(a + b, c) == (if FirstIndex(b, c).Some? then Some(|a| + FirstIndex(b, c).value) else None)
  {
    if a == [] {
      assert a + b == b;
    } else {
      assert (a + b)[0] == a[0] != c;
      assert (a + b)[1..] == a[1..] + b;
      assert c !in a[1..];
      FirstIndexAfter(a[1..], b, c);
    }
  }

  lemma TwoDigitsValue(tens: nat, units: nat)
    requires tens < 10 && units < 10
    ensures DigitsValue([DigitChar(tens), DigitChar(units)]) == 10 * tens + units
    ensures Pow10(|[DigitChar(tens), DigitChar(units)]|) == 100
  {
    var frac := [DigitChar(tens), DigitChar(units)];
    assert frac[..1] == [DigitChar(tens)];
    assert frac[..1][..0] == [];
    assert DigitsValue(frac[..1]) == tens;
  }

  lemma RupeesSplit(paise: nat, q: nat, cents: nat)
    requires q == paise / 100 && cents == paise % 100
    ensures q as real + cents as real / 100.0 == Rupees(paise)
  {
    assert paise == 100 * q + cents;
  }

  /**
    The number a displayed amount stands for: the first rupee sign removed,
    the rest parsed as a decimal; `None` stands for NaN.
   */
  function ReadAmount(text: string): (r: Option<real>)
    ensures r.Some? ==> r.value >= 0.0
    ensures Rupee !in text ==> r == ParseDecimal(text)
  {
    ParseDecimal(RemoveFirst(text, Rupee))
  }

  /** A displayed amount, once the rupee sign is stripped, parses back to the stored amount. */
  lemma DisplayedAmountRoundTrip(paise: nat)
    ensures ReadAmount(WithRupee(Fixed2(paise))) == Some(Rupees(paise))
  {
    var t := Fixed2(paise);
    assert Rupee !in t by {
      assert forall i :: 0 <= i < |t| ==> t[i] == '.' || IsDigit(t[i]);
    }
    StripRupeeRoundTrip(t);
    Fixed2RoundTrip(paise);
  }
}
