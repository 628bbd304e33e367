/** Human amounts to base units and back (src/commands/treasury.ts). */
module Amounts {
  import opened Wrappers
  import opened Decimals
  import Text

  datatype AmountError = NotANumeral | TooManyPlaces | NotPositive

  function DotAt(s: string): (i: nat)
    ensures i <= |s| && (i < |s| ==> s[i] == '.') && forall k :: 0 <= k < i ==> s[k] != '.'
  {
    if s == "" || s[0] == '.' then 0 else 1 + DotAt(s[1..])
  }

  function Whole(s: string): string {
    s[..DotAt(s)]
  }

  function Frac(s: string): string {
    if DotAt(s) < |s| then s[DotAt(s) + 1..] else ""
  }

  /** Digits, and after a dot more digits. */
  predicate IsNumeral(s: string) {
    && Whole(s) != "" && AllDigits(Whole(s))
    && (DotAt(s) < |s| ==> Frac(s) != "") && AllDigits(Frac(s))
  }

  function ParseDecimalAmount(amount: string, decimals: nat): Result<nat, AmountError> {
    var raw := Text.Trim(amount);
    if !IsNumeral(raw) then Err(NotANumeral)
    else if |Frac(raw)| > decimals then Err(TooManyPlaces)
    else
      var units := Units(raw, decimals);
      if units <= 0 then Err(NotPositive) else Ok(units)
  }

  /** The digits after the dot: padded to the decimals, then without idle zeros. */
  function FracText(rest: nat, decimals: nat): string {
    var trimmed := TrimZeros(PadStart(Decimal(rest), decimals));
    if trimmed == "" then "0" else trimmed
  }

  function FormatUnits(units: int, decimals: nat): string {
    var abs: nat := if units < 0 then -units else units;
    (if units < 0 then "-" else "")
    + (Decimal(Quot(abs, Pow10(decimals))) + "." + FracText(Rem(abs, Pow10(decimals)), decimals))
  }

  /** The number a numeral denotes, as an integer over ten to its number of places. */
  function Denotes(raw: string): nat
    requires IsNumeral(raw)
  {
    Value(Whole(raw)) * Pow10(|Frac(raw)|) + Value(Frac(raw))
  }

  /** The units before the sign check: whole part and padded fraction side by side. */
  function Units(raw: string, decimals: nat): nat
    requires IsNumeral(raw) && |Frac(raw)| <= decimals
  {
    PadEndValue(Frac(raw), decimals);
    NatProduct(Value(Whole(raw)), Pow10(decimals));
    Value(Whole(raw)) * Pow10(decimals) + Value(PadEnd(Frac(raw), decimals))
  }

  lemma NatProduct(a: nat, b: nat)
    ensures a * b >= 0
  {
  }

  lemma UnitsScale(raw: string, decimals: nat)
    requires IsNumeral(raw) && |Frac(raw)| <= decimals
    ensures Units(raw, decimals) == Denotes(raw) * Pow10(decimals - |Frac(raw)|)
  {
    var w, f, k := Value(Whole(raw)), Value(Frac(raw)), decimals - |Frac(raw)|;
    PadEndValue(Frac(raw), decimals);
    Pow10Sum(|Frac(raw)|, k);
    Distribute(w, f, Pow10(|Frac(raw)|), Pow10(k));
  }

  lemma Distribute(w: nat, f: nat, a: nat, b: nat)
    ensures w * (a * b) + f * b == (w * a + f) * b
  {
    assert w * (a * b) == (w * a) * b;
  }

  lemma Rescale(n: nat, a: nat, b: nat, c: nat)
    requires c == a * b && b >= 1
    ensures n * b * a == n * c && (n * b > 0 <==> n > 0)
  {
    assert n * b * a == n * (a * b);
    assert n > 0 ==> n * b >= b;
  }

  lemma UnitsExact(raw: string, decimals: nat, places: nat)
    requires IsNumeral(raw) && |Frac(raw)| == places <= decimals
    ensures Units(raw, decimals) * Pow10(places) == Denotes(raw) * Pow10(decimals)
    ensures Units(raw, decimals) > 0 <==> Denotes(raw) > 0
  {
    UnitsScale(raw, decimals);
    Pow10Sum(places, decimals - places);
    Rescale(Denotes(raw), Pow10(places), Pow10(decimals - places), Pow10(decimals));
  }

  /** Accepted amounts are exact: the units are the numeral's value times ten to the decimals, nothing rounded. */
  lemma ParseIsExact(amount: string, decimals: nat)
    ensures
      var raw, r := Text.Trim(amount), ParseDecimalAmount(amount, decimals);
      && (r.Ok? <==> IsNumeral(raw) && |Frac(raw)| <= decimals && Denotes(raw) > 0)
      && (r.Ok? ==> r.value * Pow10(|Frac(raw)|) == Denotes(raw) * Pow10(decimals))
  {
    var raw := Text.Trim(amount);
    if IsNumeral(raw) && |Frac(raw)| <= decimals {
      var places := |Frac(raw)|;
      UnitsExact(raw, decimals, places);
    }
  }

  /** The one way to write a number of units: no idle zeros, and always a fraction. */
  predicate IsCanonical(s: string) {
    && IsNumeral(s) && IsPlain(Whole(s))
    && Frac(s) != "" && (Frac(s)[|Frac(s)| - 1] == '0' ==> Frac(s) == "0")
  }

  lemma NumeralParts(whole: string, frac: string)
    requires whole != "" && AllDigits(whole) && frac != "" && AllDigits(frac)
    ensures
      var s := whole + "." + frac;
      && IsNumeral(s) && Whole(s) == whole && Frac(s) == frac && Text.Trim(s) == s
  {
    var s := whole + "." + frac;
    assert s[|whole|] == '.';
    assert forall k :: 0 <= k < |whole| ==> s[k] == whole[k] && IsDigit(whole[k]);
    assert DotAt(s) == |whole|;
    assert s[|whole| + 1..] == frac && s[..|whole|] == whole;
    assert s[0] == whole[0] && s[|s| - 1] == frac[|frac| - 1];
    Text.TrimIdle(s);
  }

  lemma FracTextDigits(rest: nat, decimals: nat)
    ensures
      var t := FracText(rest, decimals);
      t != "" && AllDigits(t) && (t[|t| - 1] == '0' ==> t == "0")
  {
    var padded := PadStart(Decimal(rest), decimals);
    DecimalIsPlain(rest);
    PadStartValue(Decimal(rest), decimals);
    TrimmedDigits(padded);
    TrimZerosRest(padded);
  }

  lemma FracTextPads(rest: nat, decimals: nat)
    requires rest < Pow10(decimals) && decimals >= 1
    ensures |FracText(rest, decimals)| <= decimals
    ensures PadEnd(FracText(rest, decimals), decimals) == PadStart(Decimal(rest), decimals)
  {
    DecimalShort(rest, decimals);
    TrimThenPad(PadStart(Decimal(rest), decimals));
    TrimZerosRest(PadStart(Decimal(rest), decimals));
  }

  lemma FracTextOfNone()
    ensures FracText(0, 0) == "0"
  {
    assert Decimal(0) == "0" && TrimZeros("0") == TrimZeros("");
  }

  /** Printing is always canonical, whatever the decimals. */
  lemma FormatIsCanonical(units: nat, decimals: nat)
    ensures
      var s := FormatUnits(units, decimals);
      && IsCanonical(s) && Text.Trim(s) == s
      && Whole(s) == Decimal(Quot(units, Pow10(decimals))) && Frac(s) == FracText(Rem(units, Pow10(decimals)), decimals)
  {
    var whole, frac := Decimal(Quot(units, Pow10(decimals))), FracText(Rem(units, Pow10(decimals)), decimals);
    DecimalIsPlain(Quot(units, Pow10(decimals)));
    FracTextDigits(Rem(units, Pow10(decimals)), decimals);
    NumeralParts(whole, frac);
    Prefixless(whole + "." + frac);
  }

  lemma LastIsDigit(t: string)
    requires IsNumeral(t) && Frac(t) != ""
    ensures t != "" && !Text.IsSpace(t[|t| - 1])
  {
    assert t[|t| - 1] == Frac(t)[|Frac(t)| - 1];
  }

  lemma MinusIsNoNumeral(t: string, decimals: nat)
    requires t != "" && !Text.IsSpace(t[|t| - 1])
    ensures ParseDecimalAmount("-" + t, decimals) == Err(NotANumeral)
  {
    var s := "-" + t;
    Text.TrimIdle(s);
    assert Whole(s) != "" ==> Whole(s)[0] == '-';
  }

  lemma FormatMinus(units: int, decimals: nat)
    requires units < 0
    ensures FormatUnits(units, decimals) == "-" + FormatUnits(-units, decimals)
  {
    var p := Pow10(decimals);
    Prefixless(Decimal(Quot(-units, p)) + "." + FracText(Rem(-units, p), decimals));
  }

  /** A negative amount prints as its absolute value behind a minus sign, and is no numeral. */
  lemma NegativeFormat(units: int, decimals: nat)
    requires units < 0
    ensures FormatUnits(units, decimals) == "-" + FormatUnits(-units, decimals)
    ensures ParseDecimalAmount(FormatUnits(units, decimals), decimals) == Err(NotANumeral)
  {
    FormatMinus(units, decimals);
    FormatIsCanonical(-units, decimals);
    LastIsDigit(FormatUnits(-units, decimals));
    MinusIsNoNumeral(FormatUnits(-units, decimals), decimals);
  }

  /** Of all amounts, what is printed reads back as itself exactly for positive ones with at least one decimal. */
  lemma RoundTripIff(units: int, decimals: nat)
    ensures
      var r := ParseDecimalAmount(FormatUnits(units, decimals), decimals);
      r.Ok? && r.value == units <==> units > 0 && decimals >= 1
  {
    if units > 0 {
      PositiveRoundTrip(units, decimals);
    } else if units < 0 {
      NegativeFormat(units, decimals);
    } else {
      ParseIsExact(FormatUnits(0, decimals), decimals);
    }
  }

  lemma PositiveRoundTrip(units: nat, decimals: nat)
    requires units > 0
    ensures ParseDecimalAmount(FormatUnits(units, decimals), decimals) == Ok(units) <==> decimals >= 1
  {
    var p := Pow10(decimals);
    FormatIsCanonical(units, decimals);
    if decimals >= 1 {
      FracTextPads(Rem(units, p), decimals);
      DecimalIsPlain(Quot(units, p));
      DecimalIsPlain(Rem(units, p));
      PadStartValue(Decimal(Rem(units, p)), decimals);
      QuotRem(units, p);
    }
  }

  /** With no decimals the printed form is refused: five units print as `5.0`. */
  lemma NoDecimalsNoRoundTrip()
    ensures FormatUnits(5, 0) == "5.0" && ParseDecimalAmount("5.0", 0) == Err(TooManyPlaces)
  {
    DivideBack(5, 5, 0, 1);
    FracTextOfNone();
    NumeralParts("5", "0");
  }

  /** Padding a number's digits gives the digits of that width with its value. */
  lemma PadsTo(padded: string)
    requires padded != "" && AllDigits(padded)
    ensures Value(padded) < Pow10(|padded|) && PadStart(Decimal(Value(padded)), |padded|) == padded
  {
    var v := Value(padded);
    ValueBound(padded);
    DecimalIsPlain(v);
    DecimalShort(v, |padded|);
    PadStartValue(Decimal(v), |padded|);
    ValueInjective(PadStart(Decimal(v), |padded|), padded);
  }

  lemma TrimPadded(frac: string, decimals: nat)
    requires |frac| <= decimals
    ensures TrimZeros(PadEnd(frac, decimals)) == TrimZeros(frac)
  {
    var padded := PadEnd(frac, decimals);
    if |frac| < decimals {
      var k := decimals - |frac|;
      assert padded == frac + Zeros(k);
      TrimZerosOfPadded(frac, k);
    } else {
      assert padded == frac;
    }
  }

  /** A canonical fraction is what gets printed for its own remainder. */
  lemma CanonicalFrac(frac: string, decimals: nat)
    requires frac != "" && AllDigits(frac) && |frac| <= decimals && (frac[|frac| - 1] == '0' ==> frac == "0")
    ensures AllDigits(PadEnd(frac, decimals)) && Value(PadEnd(frac, decimals)) < Pow10(decimals)
    ensures FracText(Value(PadEnd(frac, decimals)), decimals) == frac
  {
    PadEndValue(frac, decimals);
    PadsTo(PadEnd(frac, decimals));
    TrimPadded(frac, decimals);
    if frac == "0" {
      assert TrimZeros("0") == TrimZeros("");
    }
  }

  lemma Reassembled(s: string)
    requires IsNumeral(s) && Frac(s) != ""
    ensures s == Whole(s) + "." + Frac(s)
  {
  }

  /** Every accepted amount prints as the unique canonical numeral of its value. */
  lemma CanonicalUnique(s: string, decimals: nat)
    requires IsCanonical(s) && Text.Trim(s) == s && ParseDecimalAmount(s, decimals).Ok?
    ensures FormatUnits(ParseDecimalAmount(s, decimals).value, decimals) == s
  {
    CanonicalFrac(Frac(s), decimals);
    PlainIsDecimal(Whole(s));
    Reassembled(s);
    FormatOf(Units(s, decimals), Value(Whole(s)), Value(PadEnd(Frac(s), decimals)), decimals);
  }

  lemma FormatOf(units: nat, w: nat, v: nat, decimals: nat)
    requires units == w * Pow10(decimals) + v && v < Pow10(decimals)
    ensures FormatUnits(units, decimals) == Decimal(w) + "." + FracText(v, decimals)
  {
    DivideBack(units, w, v, Pow10(decimals));
    Prefixless(Decimal(w) + "." + FracText(v, decimals));
  }

  lemma Prefixless(s: string)
    ensures "" + s == s
  {
  }

  /** Printing what was parsed gives the one canonical numeral of the same value. */
  lemma PrintAfterParse(amount: string, decimals: nat)
    requires ParseDecimalAmount(amount, decimals).Ok? && decimals >= 1
    ensures
      var s := FormatUnits(ParseDecimalAmount(amount, decimals).value, decimals);
      && IsCanonical(s) && ParseDecimalAmount(s, decimals) == ParseDecimalAmount(amount, decimals)
      && forall t | IsCanonical(t) && Text.Trim(t) == t
           && ParseDecimalAmount(t, decimals) == ParseDecimalAmount(amount, decimals) :: t == s
  {
    var units := ParseDecimalAmount(amount, decimals).value;
    FormatIsCanonical(units, decimals);
    RoundTripIff(units, decimals);
    forall t | IsCanonical(t) && Text.Trim(t) == t
               && ParseDecimalAmount(t, decimals) == ParseDecimalAmount(amount, decimals)
      ensures t == FormatUnits(units, decimals)
    {
      CanonicalUnique(t, decimals);
    }
  }

  // ---------- over digit strings ----------

  /** Digits, or digits, a dot and digits. */
  ghost predicate IsWritten(s: string, whole: string, frac: string) {
    && whole != "" && AllDigits(whole) && AllDigits(frac)
    && s == if frac == "" then whole else whole + "." + frac
  }

  lemma WrittenParts(s: string, whole: string, frac: string)
    requires IsWritten(s, whole, frac)
    ensures IsNumeral(s) && Whole(s) == whole && Frac(s) == frac && Text.Trim(s) == s
  {
    if frac == "" {
      assert forall k :: 0 <= k < |s| ==> IsDigit(s[k]);
      assert DotAt(s) == |s|;
      Text.TrimIdle(s);
    } else {
      NumeralParts(whole, frac);
    }
  }

  /** Nothing else is a numeral. */
  lemma NumeralIff(amount: string, decimals: nat)
    ensures ParseDecimalAmount(amount, decimals) == Err(NotANumeral)
            <==> forall whole, frac :: !IsWritten(Text.Trim(amount), whole, frac)
  {
    var raw := Text.Trim(amount);
    if IsNumeral(raw) {
      if DotAt(raw) < |raw| { Reassembled(raw); }
      assert IsWritten(raw, Whole(raw), Frac(raw));
    }
    forall whole, frac | IsWritten(raw, whole, frac) ensures IsNumeral(raw) {
      WrittenParts(raw, whole, frac);
    }
  }

  /** The digits side by side are the units, as far as decimals are left over followed by that many zeros. */
  lemma DigitsAccepted(amount: string, whole: string, frac: string, decimals: nat)
    requires IsWritten(Text.Trim(amount), whole, frac)
    ensures AllDigits(whole + frac)
    ensures ParseDecimalAmount(amount, decimals)
            == if |frac| > decimals then Err(TooManyPlaces)
               else if Value(whole + frac) == 0 then Err(NotPositive)
               else Ok(Value(whole + frac) * Pow10(decimals - |frac|))
  {
    var raw := Text.Trim(amount);
    WrittenParts(raw, whole, frac);
    ValueConcat(whole, frac);
    if |frac| <= decimals {
      UnitsScale(raw, decimals);
      UnitsExact(raw, decimals, |frac|);
    }
  }

  /** Without decimals a whole number is printed with a zero behind the dot. */
  lemma FormatWhole(units: nat)
    ensures FormatUnits(units, 0) == Decimal(units) + "." + "0"
  {
    FormatOf(units, units, 0, 0);
    FracTextOfNone();
  }
}
