/** Decimal and hexadecimal numerals: what printing and parsing an integer mean. */
module Numerals {

  type Base = b: nat | b == 10 || b == 16 witness 10

  function DigitChar(d: nat): char
    requires d < 16
  {
    if d < 10 then '0' + d as char else 'a' + (d - 10) as char
  }

  predicate IsDigit(c: char, base: Base) {
    || ('0' <= c <= '9' && (c - '0') as nat < base)
    || ('a' <= c <= 'f' && (c - 'a') as nat + 10 < base)
    || ('A' <= c <= 'F' && (c - 'A') as nat + 10 < base)
  }

  function DigitValue(c: char, base: Base): (d: nat)
    requires IsDigit(c, base)
    ensures d < base
  {
    if '0' <= c <= '9' then (c - '0') as nat
    else if 'a' <= c <= 'f' then (c - 'a') as nat + 10
    else (c - 'A') as nat + 10
  }

  predicate IsNumeral(s: string, base: Base) {
    forall i :: 0 <= i < |s| ==> IsDigit(s[i], base)
  }

  // The worth of a numeral `v` followed by one worth `w`, of `p` possible values.
  function Place(v: nat, p: nat, w: nat): nat {
    v * p + w
  }

  function Value(s: string, base: Base): nat
    requires IsNumeral(s, base)
  {
    if s == "" then 0
    else Place(Value(s[..|s| - 1], base), base, DigitValue(s[|s| - 1], base))
  }

  function Quotient(n: nat, base: Base): (q: nat)
    ensures base <= n ==> q < n
  {
    if base == 10 then n / 10 else n / 16
  }

  function Remainder(n: nat, base: Base): (r: nat)
    ensures r < base
  {
    if base == 10 then n % 10 else n % 16
  }

  function Print(n: nat, base: Base): string
    decreases n
  {
    if n < base then [DigitChar(n)] else Print(Quotient(n, base), base) + [DigitChar(Remainder(n, base))]
  }

  function Pow(base: Base, k: nat): (p: nat)
    ensures p > 0
  {
    if k == 0 then 1 else base * Pow(base, k - 1)
  }

  lemma DigitRoundTrip(d: nat, base: Base)
    requires d < base
    ensures IsDigit(DigitChar(d), base) && DigitValue(DigitChar(d), base) == d
  {
  }

  lemma ValueSnoc(s: string, c: char, base: Base)
    requires IsNumeral(s, base) && IsDigit(c, base)
    ensures IsNumeral(s + [c], base)
    ensures Value(s + [c], base) == Place(Value(s, base), base, DigitValue(c, base))
  {
    assert (s + [c])[..|s + [c]| - 1] == s;
  }

  lemma QuotientRemainder(n: nat, base: Base)
    ensures n == Place(Quotient(n, base), base, Remainder(n, base))
  {
  }

  lemma {:induction false} PrintParses(n: nat, base: Base)
    ensures IsNumeral(Print(n, base), base) && Print(n, base) != ""
    ensures Value(Print(n, base), base) == n
    decreases n
  {
    if n < base {
      DigitRoundTrip(n, base);
      ValueSnoc("", DigitChar(n), base);
      assert "" + [DigitChar(n)] == [DigitChar(n)];
    } else {
      var q, r := Quotient(n, base), Remainder(n, base);
      PrintParses(q, base);
      DigitRoundTrip(r, base);
      ValueSnoc(Print(q, base), DigitChar(r), base);
      QuotientRemainder(n, base);
    }
  }

  lemma Distribute(v: nat, p: nat, w: nat, d: nat, base: Base)
    ensures Place(Place(v, p, w), base, d) == Place(v, base * p, Place(w, base, d))
  {
  }

  lemma {:induction false} ValueConcat(a: string, b: string, base: Base)
    requires IsNumeral(a, base) && IsNumeral(b, base)
    ensures IsNumeral(a + b, base)
    ensures Value(a + b, base) == Place(Value(a, base), Pow(base, |b|), Value(b, base))
  {
    if b == "" {
      assert a + b == a;
    } else {
      var b', c := b[..|b| - 1], b[|b| - 1];
      assert b == b' + [c];
      ValueConcat(a, b', base);
      assert a + b == (a + b') + [c];
      ValueSnoc(a + b', c, base);
      ValueSnoc(b', c, base);
      Distribute(Value(a, base), Pow(base, |b'|), Value(b', base), DigitValue(c, base), base);
    }
  }

  lemma BelowTimes(v: nat, p: nat, d: nat, base: Base)
    requires v < p && d < base
    ensures Place(v, base, d) < base * p
  {
    assert (v + 1) * base <= p * base;
  }

  lemma {:induction false} ValueBelowPow(s: string, base: Base)
    requires IsNumeral(s, base)
    ensures Value(s, base) < Pow(base, |s|)
  {
    if s != "" {
      var s', c := s[..|s| - 1], s[|s| - 1];
      assert s == s' + [c];
      ValueBelowPow(s', base);
      ValueSnoc(s', c, base);
      BelowTimes(Value(s', base), Pow(base, |s'|), DigitValue(c, base), base);
    }
  }

  function Zeros(k: nat): string {
    if k == 0 then "" else Zeros(k - 1) + "0"
  }

  lemma {:induction false} ZerosShape(k: nat)
    ensures |Zeros(k)| == k && forall i :: 0 <= i < k ==> Zeros(k)[i] == '0'
  {
    if k > 0 { ZerosShape(k - 1); }
  }

  lemma {:induction false} ZerosValue(k: nat, base: Base)
    ensures IsNumeral(Zeros(k), base) && Value(Zeros(k), base) == 0
  {
    ZerosShape(k);
    if k > 0 {
      ZerosValue(k - 1, base);
      assert Zeros(k)[..k - 1] == Zeros(k - 1);
    }
  }

  lemma LeadingZeros(k: nat, s: string, base: Base)
    requires IsNumeral(s, base)
    ensures var t := Zeros(k) + s;
            |t| == k + |s| && IsNumeral(t, base) && Value(t, base) == Value(s, base)
  {
    ZerosShape(k);
    ZerosValue(k, base);
    ValueConcat(Zeros(k), s, base);
    assert 0 * Pow(base, |s|) == 0;
  }

  // Printing with leading zeros up to `width`.
  function PrintPadded(n: nat, base: Base, width: nat): string
  {
    PadLeft(Print(n, base), width)
  }

  function PadLeft(s: string, width: nat): string {
    if |s| < width then Zeros(width - |s|) + s else s
  }

  lemma PadLeftParses(s: string, base: Base, width: nat)
    requires IsNumeral(s, base) && |s| <= width
    ensures var t := PadLeft(s, width);
            |t| == width && IsNumeral(t, base) && Value(t, base) == Value(s, base)
  {
    if |s| < width {
      LeadingZeros(width - |s|, s, base);
    }
  }

  lemma QuotientBelow(n: nat, base: Base, p: nat)
    requires n < base * p
    ensures Quotient(n, base) < p
  {
    if base == 10 {
      assert n < 10 * p;
    } else {
      assert n < 16 * p;
    }
  }

  lemma {:induction false} PrintLength(n: nat, base: Base, width: nat)
    requires 1 <= width && n < Pow(base, width)
    ensures |Print(n, base)| <= width
    decreases width
  {
    if n >= base {
      assert Pow(base, 0) == 1 && Pow(base, 1) == base;
      QuotientBelow(n, base, Pow(base, width - 1));
      PrintLength(Quotient(n, base), base, width - 1);
    }
  }

  lemma PrintPaddedParses(n: nat, base: Base, width: nat)
    requires 1 <= width && n < Pow(base, width)
    ensures var s := PrintPadded(n, base, width);
            |s| == width && IsNumeral(s, base) && Value(s, base) == n
  {
    PrintLength(n, base, width);
    PrintParses(n, base);
    PadLeftParses(Print(n, base), base, width);
  }
}
