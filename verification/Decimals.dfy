/** Decimal digits and the numbers they stand for. */
module Decimals {

  predicate IsDigit(c: char) {
    '0' <= c <= '9'
  }

  predicate AllDigits(s: string) {
    forall i :: 0 <= i < |s| ==> IsDigit(s[i])
  }

  function Pow10(n: nat): (r: nat)
    ensures r >= 1
  {
    if n == 0 then 1 else 10 * Pow10(n - 1)
  }

  function Quot(n: nat, p: nat): (q: nat)
    requires p >= 1
  {
    n / p
  }

  function Rem(n: nat, p: nat): (r: nat)
    requires p >= 1
    ensures r < p
  {
    n % p
  }

  lemma QuotRem(n: nat, p: nat)
    requires p >= 1
    ensures n == Quot(n, p) * p + Rem(n, p)
  {
  }

  lemma Spread(a: int, b: int, p: nat)
    requires a > b
    ensures a * p >= b * p + p
  {
    assert a * p == b * p + (a - b) * p;
    assert (a - b - 1) * p >= 0;
  }

  lemma Between(a: int, b: int, p: nat, r: int, s: int)
    requires a * p + r == b * p + s && 0 <= r < p && 0 <= s < p
    ensures a == b && r == s
  {
    if a > b { Spread(a, b, p); }
    if a < b { Spread(b, a, p); }
  }

  /** Division is unique. */
  lemma DivideBack(n: nat, q: nat, r: nat, p: nat)
    requires n == q * p + r && r < p
    ensures Quot(n, p) == q && Rem(n, p) == r
  {
    QuotRem(n, p);
    Between(q, Quot(n, p), p, r, Rem(n, p));
  }

  lemma {:induction false} Pow10Sum(a: nat, b: nat)
    ensures Pow10(a + b) == Pow10(a) * Pow10(b)
  {
    if a > 0 {
      Pow10Sum(a - 1, b);
      assert 10 * (Pow10(a - 1) * Pow10(b)) == 10 * Pow10(a - 1) * Pow10(b);
    }
  }

  /** What `BigInt` reads. */
  function Value(s: string): nat
    requires AllDigits(s)
  {
    if s == "" then 0 else 10 * Value(s[..|s| - 1]) + (s[|s| - 1] as int - '0' as int)
  }

  /** What `toString` prints. */
  function Decimal(n: nat): (s: string) {
    if n < 10 then [('0' as int + n) as char] else Decimal(n / 10) + [('0' as int + n % 10) as char]
  }

  /** Without leading zeros. */
  predicate IsPlain(s: string) {
    s != "" && AllDigits(s) && (s[0] == '0' ==> |s| == 1)
  }

  lemma {:induction false} DecimalIsPlain(n: nat)
    ensures IsPlain(Decimal(n)) && Value(Decimal(n)) == n
    ensures Decimal(n)[0] == '0' ==> n == 0
  {
    if n >= 10 {
      var init := Decimal(n / 10);
      DecimalIsPlain(n / 10);
      assert Decimal(n)[..|init|] == init;
    } else {
      assert Decimal(n)[..0] == "";
    }
  }

  lemma {:induction false} ValueBound(s: string)
    requires AllDigits(s)
    ensures Value(s) < Pow10(|s|)
  {
    if s != "" { ValueBound(s[..|s| - 1]); }
  }

  lemma {:induction false} ValueConcat(a: string, b: string)
    requires AllDigits(a) && AllDigits(b)
    ensures AllDigits(a + b) && Value(a + b) == Value(a) * Pow10(|b|) + Value(b)
  {
    if b == "" {
      assert a + b == a;
    } else {
      var n := |b| - 1;
      ValueConcat(a, b[..n]);
      assert (a + b)[..|a + b| - 1] == a + b[..n];
      assert 10 * (Value(a) * Pow10(n)) == Value(a) * (10 * Pow10(n));
    }
  }

  /** Digits of one length are told apart by their value. */
  lemma {:induction false} ValueInjective(a: string, b: string)
    requires AllDigits(a) && AllDigits(b) && |a| == |b| && Value(a) == Value(b)
    ensures a == b
  {
    if a != "" {
      var n := |a| - 1;
      ValueInjective(a[..n], b[..n]);
      assert a == a[..n] + [a[n]] && b == b[..n] + [b[n]];
    }
  }

  lemma {:induction false} PlainIsDecimal(s: string)
    requires IsPlain(s)
    ensures s == Decimal(Value(s)) && (s[0] != '0' ==> Value(s) > 0)
  {
    var n := |s| - 1;
    assert s == s[..n] + [s[n]];
    if n > 0 {
      PlainIsDecimal(s[..n]);
    } else {
      assert s[..n] == "";
    }
  }

  lemma {:induction false} DecimalShort(n: nat, width: nat)
    requires n < Pow10(width) && width >= 1
    ensures |Decimal(n)| <= width
  {
    if n >= 10 {
      assert Pow10(width) == 10 * Pow10(width - 1);
      assert width > 1;
      DecimalShort(n / 10, width - 1);
    }
  }

  function Zeros(k: nat): (s: string)
    ensures |s| == k && forall i :: 0 <= i < k ==> s[i] == '0'
  {
    if k == 0 then "" else Zeros(k - 1) + "0"
  }

  lemma {:induction false} ZerosValue(k: nat)
    ensures AllDigits(Zeros(k)) && Value(Zeros(k)) == 0
  {
    if k > 0 {
      ZerosValue(k - 1);
      assert Zeros(k)[..k - 1] == Zeros(k - 1);
    }
  }

  function PadStart(s: string, width: nat): string {
    if |s| >= width then s else Zeros(width - |s|) + s
  }

  function PadEnd(s: string, width: nat): string {
    if |s| >= width then s else s + Zeros(width - |s|)
  }

  lemma PadStartValue(s: string, width: nat)
    requires AllDigits(s)
    ensures AllDigits(PadStart(s, width)) && Value(PadStart(s, width)) == Value(s)
  {
    if |s| < width {
      ZerosValue(width - |s|);
      ValueConcat(Zeros(width - |s|), s);
    }
  }

  lemma PadEndValue(s: string, width: nat)
    requires AllDigits(s) && |s| <= width
    ensures AllDigits(PadEnd(s, width)) && |PadEnd(s, width)| == width
    ensures Value(PadEnd(s, width)) == Value(s) * Pow10(width - |s|)
  {
    if |s| < width {
      ZerosValue(width - |s|);
      ValueConcat(s, Zeros(width - |s|));
    }
  }

  function TrimZeros(s: string): string {
    if s != "" && s[|s| - 1] == '0' then TrimZeros(s[..|s| - 1]) else s
  }

  lemma {:induction false} TrimZerosOfPadded(s: string, k: nat)
    ensures TrimZeros(s + Zeros(k)) == TrimZeros(s)
  {
    if k == 0 {
      assert s + Zeros(k) == s;
    } else {
      var p := s + Zeros(k);
      assert p[|p| - 1] == '0' && p[..|p| - 1] == s + Zeros(k - 1);
      TrimZerosOfPadded(s, k - 1);
    }
  }

  /** What is trimmed off is zeros. */
  lemma {:induction false} TrimZerosRest(s: string)
    ensures |TrimZeros(s)| <= |s| && s == TrimZeros(s) + Zeros(|s| - |TrimZeros(s)|)
    ensures TrimZeros(s) != "" ==> TrimZeros(s)[|TrimZeros(s)| - 1] != '0'
  {
    if s != "" && s[|s| - 1] == '0' {
      TrimZerosRest(s[..|s| - 1]);
      assert s == s[..|s| - 1] + "0";
    }
  }

  lemma ZeroThenZeros(k: nat)
    requires k >= 1
    ensures PadEnd("0", k) == Zeros(k)
  {
    if k == 1 {
      assert Zeros(1) == Zeros(0) + "0";
    } else {
      var a, b := "0" + Zeros(k - 1), Zeros(k);
      assert forall i :: 0 <= i < k ==> a[i] == '0' == b[i];
    }
  }

  /** Trimming and padding again gives the same digits. */
  lemma TrimThenPad(s: string)
    requires s != ""
    ensures PadEnd(TrimZeros(s), |s|) == s
    ensures TrimZeros(s) == "" ==> PadEnd("0", |s|) == s
  {
    var cut := TrimZeros(s);
    TrimZerosRest(s);
    assert |cut| == |s| ==> cut + Zeros(0) == cut;
    if cut == "" {
      assert "" + Zeros(|s|) == Zeros(|s|);
      ZeroThenZeros(|s|);
    }
  }

  lemma TrimmedDigits(s: string)
    requires AllDigits(s)
    ensures AllDigits(TrimZeros(s)) && |TrimZeros(s)| <= |s|
  {
    TrimZerosRest(s);
    assert forall i :: 0 <= i < |TrimZeros(s)| ==> TrimZeros(s)[i] == s[i];
  }
}
