/**
 Decimal gwei strings, wei amounts and the time estimate built on them. The
 conversion is exact rounding to the nearest wei; everything else follows from
 that and from the printer being its right inverse.
 */
module GasFees {
  import opened Prelude
  import opened Numerals

  const WEI_PER_GWEI: nat := 1_000_000_000

  // ---------- Decimal strings ----------

  // The text before the first '.', as `split('.')[0]`.
  function Whole(s: string): (r: string)
    ensures |r| <= |s| && r == s[..|r|] && '.' !in r
    ensures |r| < |s| ==> s[|r|] == '.'
  {
    if s == "" || s[0] == '.' then "" else [s[0]] + Whole(s[1..])
  }

  // The text between the first and the second '.', or "", as `split('.')[1] || ''`.
  function Fraction(s: string): string {
    var w := Whole(s);
    if |w| == |s| then "" else Whole(s[|w| + 1..])
  }

  predicate IsDecimal(s: string) {
    IsNumeral(Whole(s), 10) && IsNumeral(Fraction(s), 10)
  }

  function Ratio(n: nat, d: nat): (r: real)
    requires d > 0
    ensures 0.0 <= r
  {
    n as real / d as real
  }

  // The number a decimal string denotes.
  function Amount(s: string): (r: real)
    requires IsDecimal(s)
    ensures 0.0 <= r
  {
    Value(Whole(s), 10) as real + Ratio(Value(Fraction(s), 10), Pow(10, |Fraction(s)|))
  }

  predicate IsNegative(s: string) {
    s != "" && s[0] == '-'
  }

  function Magnitude(s: string): string {
    if IsNegative(s) then s[1..] else s
  }

  // A decimal string, possibly negative; a minus sign alone is not one.
  predicate IsSigned(s: string) {
    && IsDecimal(Magnitude(s))
    && (IsNegative(s) ==> Whole(Magnitude(s)) != "" || Fraction(Magnitude(s)) != "")
  }

  function SignedAmount(s: string): real
    requires IsSigned(s)
  {
    if IsNegative(s) then -Amount(Magnitude(s)) else Amount(s)
  }

  // ---------- The unit library's contract ----------

  function PadRight(s: string, width: nat): string {
    if |s| < width then s + Zeros(width - |s|) else s
  }

  function ToWei(whole: string, fraction: string): nat
    requires IsNumeral(whole, 10) && IsNumeral(fraction, 10) && |fraction| <= 9
  {
    PadRightValue(fraction, 9);
    Value(whole, 10) * WEI_PER_GWEI + Value(PadRight(fraction, 9), 10)
  }

  // The library reads digits on both sides and a minus sign, though not by itself.
  predicate IsReadable(whole: string, fraction: string) {
    && IsNumeral(Magnitude(whole), 10) && IsNumeral(fraction, 10) && |fraction| <= 9
    && (IsNegative(whole) ==> Magnitude(whole) != "" || fraction != "")
  }

  // It throws at anything else. The sign is taken off the whole part first.
  function ToWeiSigned(whole: string, fraction: string): Option<int> {
    if !IsReadable(whole, fraction) then None
    else
      var wei: int := ToWei(Magnitude(whole), fraction);
      Some(if IsNegative(whole) then -wei else wei)
  }

  function StripZeros(s: string): string {
    if s != "" && s[|s| - 1] == '0' then StripZeros(s[..|s| - 1]) else s
  }

  function FromWei(wei: nat): string {
    var fraction := StripZeros(PrintPadded(wei % WEI_PER_GWEI, 10, 9));
    Print(wei / WEI_PER_GWEI, 10) + (if fraction == "" then "" else "." + fraction)
  }

  function FromWeiSigned(wei: int): string {
    if wei < 0 then "-" + FromWei(-wei) else FromWei(wei)
  }

  // ---------- The conversion ----------

  // The whole wei nearest to an amount of gwei, halves rounded up.
  function Rounded(gwei: real): nat
    requires 0.0 <= gwei
  {
    (gwei * WEI_PER_GWEI as real + 0.5).Floor
  }

  /** The wei amount nearest to a decimal gwei amount. */
  function Nearest(s: string): nat
    requires IsDecimal(s)
  {
    Rounded(Amount(s))
  }

  // The same for negative amounts too, halves still rounded up.
  function NearestWei(s: string): int
    requires IsSigned(s)
  {
    (SignedAmount(s) * WEI_PER_GWEI as real + 0.5).Floor
  }

  // The fractional characters given to the library.
  function Kept(s: string): string {
    if |Fraction(s)| <= 9 then Fraction(s) else Fraction(s)[..9]
  }

  // Characters are dropped, and the first one dropped is a digit from five on.
  predicate RoundsUp(s: string) {
    |Fraction(s)| > 9 && '5' <= Fraction(s)[9] <= '9'
  }

  // What the conversion reads. The rest of the fraction may be anything.
  predicate Accepted(s: string) {
    IsReadable(Whole(s), Kept(s))
  }

  // What it gives: it adds one after dropping digits whatever the sign.
  function Converted(s: string): int
    requires Accepted(s)
  {
    ToWeiSigned(Whole(s), Kept(s)).value + if RoundsUp(s) then 1 else 0
  }

  lemma PadRightValue(s: string, width: nat)
    requires IsNumeral(s, 10) && |s| <= width
    ensures var t := PadRight(s, width);
            |t| == width && IsNumeral(t, 10) && Value(t, 10) == Value(s, 10) * Pow(10, width - |s|)
  {
    var k := width - |s|;
    PadRightIs(s, k);
    ZerosShape(k);
    ZerosValue(k, 10);
    ValueConcat(s, Zeros(k), 10);
    PlaceZero(Value(s, 10), Pow(10, k));
  }

  lemma PadRightIs(s: string, k: nat)
    ensures PadRight(s, |s| + k) == s + Zeros(k)
  {
    if k == 0 {
      assert s + Zeros(0) == s;
    }
  }

  lemma PlaceZero(v: nat, p: nat)
    ensures Place(v, p, 0) == v * p
  {
  }

  lemma {:induction false} PowAdd(a: nat, b: nat)
    ensures Pow(10, a + b) == Pow(10, a) * Pow(10, b)
  {
    if a > 0 {
      PowAdd(a - 1, b);
      TenTimes(Pow(10, a - 1), Pow(10, b));
    }
  }

  lemma TenTimes(p: nat, q: nat)
    ensures 10 * (p * q) == (10 * p) * q
  {
  }

  lemma PowNine()
    ensures Pow(10, 9) == WEI_PER_GWEI
  {
    assert Pow(10, 3) == 1000;
    PowAdd(3, 3);
    PowAdd(6, 3);
  }

  // The scaled fraction, when no digit is dropped.
  lemma ShortFractionExact(f: nat, scale: nat, p: nat)
    requires p > 0 && scale * p == WEI_PER_GWEI
    ensures f as real / p as real * WEI_PER_GWEI as real == (f * scale) as real
  {
    var r := f as real / p as real;
    assert r * p as real == f as real;
    assert WEI_PER_GWEI as real == scale as real * p as real;
    assert r * (scale as real * p as real) == (r * p as real) * scale as real;
    assert (f * scale) as real == f as real * scale as real;
  }

  // The scaled fraction, when nine digits worth `head` are kept, the next is
  // `digit`, and those after it are worth `tail` out of `q`.
  lemma LongFractionRounds(head: nat, digit: nat, tail: nat, q: nat)
    requires digit < 10 && tail < q
    ensures var f := head * (10 * q) + (digit * q + tail);
            var x := f as real / (WEI_PER_GWEI * (10 * q)) as real * WEI_PER_GWEI as real;
            && (5 <= digit ==> head as real + 0.5 <= x < head as real + 1.0)
            && (digit < 5 ==> head as real <= x < head as real + 0.5)
  {
    var n := 10 * q;
    var f := head * n + (digit * q + tail);
    var g := WEI_PER_GWEI as real;
    var x := f as real / (WEI_PER_GWEI * n) as real * g;
    assert (WEI_PER_GWEI * n) as real == g * n as real;
    assert x == f as real / n as real by {
      var y := f as real / (g * n as real);
      assert y * (g * n as real) == f as real;
      assert (y * g) * n as real == f as real;
    }
    assert x * n as real == f as real;
    var rest := digit * q + tail;
    assert f as real == head as real * n as real + rest as real;
    var t := x - head as real;
    assert t * n as real == rest as real;
    if 5 <= digit {
      assert 5 * q <= digit * q && digit * q <= 9 * q;
    } else {
      assert digit * q <= 4 * q;
    }
    FractionBounds(t, n as real, rest as real);
    FractionHalf(t, n as real, rest as real);
  }

  lemma FractionBounds(t: real, n: real, rest: real)
    requires 0.0 < n && t * n == rest && 0.0 <= rest < n
    ensures 0.0 <= t < 1.0
  {
    assert 0.0 * n == 0.0 && 1.0 * n == n;
    if t < 0.0 { MulReal(t, 0.0, n); }
    if 1.0 <= t { MulReal(1.0, t, n); }
  }

  lemma FractionHalf(t: real, n: real, rest: real)
    requires 0.0 < n && t * n == rest
    ensures n <= 2.0 * rest <==> 0.5 <= t
  {
    var half, p := 0.5 * n, t * n;
    assert half + half == n;
    if t < 0.5 { MulReal(t, 0.5, n); } else { MulReal(0.5, t, n); }
  }

  lemma MulReal(a: real, b: real, r: real)
    requires a <= b && 0.0 < r
    ensures a * r <= b * r
    ensures a < b ==> a * r < b * r
  {
  }

  /** `n` is absent where the caller passes the number NaN; otherwise it is its text.
      `None` is returned where the library throws. */
  method GweiDecToWEIBN(n: Option<string>) returns (result: Option<int>)
    ensures n.None? ==> result == Some(0)
    ensures n.Some? ==> result == if Accepted(n.value) then Some(Converted(n.value)) else None
    ensures n.Some? && IsSigned(n.value) ==>
              Accepted(n.value) && (result == Some(NearestWei(n.value)) <==>
                  !(IsNegative(n.value) && RoundsUp(n.value)))
  {
    if n.None? {
      return Some(0);
    }
    if IsSigned(n.value) {
      ConversionIsNearestIff(n.value);
    }
    var wholePart := Whole(n.value);
    var decimalPart := Fraction(n.value);
    if decimalPart == "" {
      result := ToWeiSigned(wholePart, "");
      return;
    }
    if |decimalPart| <= 9 {
      result := ToWeiSigned(wholePart, decimalPart);
      return;
    }
    var decimalPartToRemove := decimalPart[9..];
    var decimalRoundingDigit := decimalPartToRemove[0];
    decimalPart := decimalPart[..9];
    result := ToWeiSigned(wholePart, decimalPart);
    if result.Some? && '5' <= decimalRoundingDigit <= '9' {
      result := Some(result.value + 1);
    }
  }

  /** Beyond the whole part only the first ten fractional characters matter. */
  lemma TenCharactersMatter(s: string, t: string)
    requires Whole(s) == Whole(t)
    requires Kept(s) == Kept(t) && (|Fraction(s)| > 9 <==> |Fraction(t)| > 9)
    requires |Fraction(s)| > 9 ==> Fraction(s)[9] == Fraction(t)[9]
    ensures Accepted(s) <==> Accepted(t)
    ensures Accepted(s) ==> Converted(s) == Converted(t)
  {
  }

  // Splitting at the point leaves the sign with the whole part.
  lemma SplitSigned(s: string)
    requires IsSigned(s)
    ensures Magnitude(Whole(s)) == Whole(Magnitude(s)) && IsNegative(Whole(s)) == IsNegative(s)
    ensures Fraction(s) == Fraction(Magnitude(s))
  {
    if IsNegative(s) {
      var w := Whole(s[1..]);
      assert Whole(s) == [s[0]] + w;
      assert s[|Whole(s)|..] == s[1..][|w|..];
      if |w| < |s[1..]| {
        assert s[|Whole(s)| + 1..] == s[1..][|w| + 1..];
      }
    } else if Whole(s) != "" {
      assert Whole(s)[0] == s[0];
    }
  }

  lemma DigitIsFive(c: char)
    requires IsDigit(c, 10)
    ensures DigitValue(c, 10) >= 5 <==> '5' <= c <= '9'
  {
  }

  // A plain decimal is read, and its magnitude comes out as the nearest or one less.
  lemma ConvertedMagnitude(s: string)
    requires IsSigned(s)
    ensures Accepted(s)
    ensures Converted(s) == (if IsNegative(s) then -1 else 1) * Nearest(Magnitude(s))
                            + if IsNegative(s) && RoundsUp(s) then 2 else 0
  {
    SplitSigned(s);
    var t := Magnitude(s);
    if |Fraction(t)| <= 9 {
      ShortFraction(t);
    } else {
      LongFraction(t);
      DigitIsFive(Fraction(t)[9]);
    }
  }

  /** A decimal text is converted to the nearest whole wei, ties up, exactly unless the
      amount is negative and the first digit dropped is five or more: then one is
      added that should have been taken away. */
  lemma ConversionIsNearestIff(s: string)
    requires IsSigned(s)
    ensures Accepted(s)
    ensures Converted(s) == NearestWei(s) <==> !(IsNegative(s) && RoundsUp(s))
    ensures IsNegative(s) && RoundsUp(s) ==> NearestWei(s) < Converted(s) <= NearestWei(s) + 2
  {
    ConvertedMagnitude(s);
    if IsNegative(s) {
      SplitSigned(s);
      var t := Magnitude(s);
      var x := Amount(t) * WEI_PER_GWEI as real;
      if |Fraction(t)| <= 9 {
        ShortFraction(t);
        NearestOfNegative(x, Nearest(t), false, true);
      } else {
        LongFraction(t);
        DigitIsFive(Fraction(t)[9]);
        NearestOfNegative(x, if RoundsUp(s) then Nearest(t) - 1 else Nearest(t), RoundsUp(s), false);
      }
      assert SignedAmount(s) * WEI_PER_GWEI as real == -x;
    }
  }

  // Where the exact number of wei lies when `head` whole ones are kept.
  predicate Sits(x: real, head: int, up: bool) {
    head as real <= x < (head + 1) as real && (up <==> head as real + 0.5 <= x)
  }

  lemma NearestOfNegative(x: real, head: int, up: bool, whole: bool)
    requires if whole then x == head as real && !up else Sits(x, head, up)
    ensures if up then -head - 1 <= (-x + 0.5).Floor <= -head else (-x + 0.5).Floor == -head
  {
  }

  lemma ShortFraction(s: string)
    requires IsDecimal(s) && |Fraction(s)| <= 9
    ensures ToWei(Whole(s), Fraction(s)) == Nearest(s)
    ensures Amount(s) * WEI_PER_GWEI as real == Nearest(s) as real
  {
    var f := Fraction(s);
    ShortParts(Whole(s), f);
    ShortSum(Value(Whole(s), 10), Value(f, 10), Pow(10, 9 - |f|), Pow(10, |f|));
  }

  lemma ShortParts(whole: string, f: string)
    requires IsNumeral(whole, 10) && IsNumeral(f, 10) && |f| <= 9
    ensures ToWei(whole, f) == Value(whole, 10) * WEI_PER_GWEI + Value(f, 10) * Pow(10, 9 - |f|)
    ensures Pow(10, 9 - |f|) * Pow(10, |f|) == WEI_PER_GWEI
  {
    PadRightValue(f, 9);
    PowNine();
    PowAdd(9 - |f|, |f|);
  }

  lemma ShortSum(w: nat, f: nat, scale: nat, p: nat)
    requires p > 0 && scale * p == WEI_PER_GWEI
    ensures var x := (w as real + Ratio(f, p)) * WEI_PER_GWEI as real;
            x == (w * WEI_PER_GWEI + f * scale) as real && (x + 0.5).Floor == w * WEI_PER_GWEI + f * scale
  {
    ShortFractionExact(f, scale, p);
    WholePlus(w, Ratio(f, p));
  }

  lemma LongFraction(s: string)
    requires IsDecimal(s) && |Fraction(s)| > 9
    ensures var f := Fraction(s);
            && IsNumeral(f[..9], 10) && IsDigit(f[9], 10)
            && Nearest(s) == ToWei(Whole(s), f[..9]) + (if DigitValue(f[9], 10) >= 5 then 1 else 0)
            && Sits(Amount(s) * WEI_PER_GWEI as real, ToWei(Whole(s), f[..9]), DigitValue(f[9], 10) >= 5)
  {
    var f := Fraction(s);
    LongFractionValue(Value(Whole(s), 10), f);
    assert PadRight(f[..9], 9) == f[..9];
  }

  lemma LongFractionValue(w: nat, f: string)
    requires IsNumeral(f, 10) && |f| > 9
    ensures var x := (w as real + Ratio(Value(f, 10), Pow(10, |f|))) * WEI_PER_GWEI as real;
            && (x + 0.5).Floor == w * WEI_PER_GWEI + Value(f[..9], 10) + (if DigitValue(f[9], 10) >= 5 then 1 else 0)
            && Sits(x, w * WEI_PER_GWEI + Value(f[..9], 10), DigitValue(f[9], 10) >= 5)
  {
    var head, digit, tail := f[..9], f[9], f[10..];
    var q := Pow(10, |tail|);
    SplitValue(head, digit, tail);
    assert f == (head + [digit]) + tail;
    LongPow(|tail|);
    assert |f| == 10 + |tail|;
    ValueBelowPow(tail, 10);
    RoundedSum(w, Value(f, 10), Pow(10, |f|), Value(head, 10), DigitValue(digit, 10), Value(tail, 10), q);
  }

  lemma LongPow(k: nat)
    ensures Pow(10, 10 + k) == WEI_PER_GWEI * (10 * Pow(10, k))
  {
    PowNine();
    PowAdd(9, k + 1);
  }

  lemma RoundedSum(w: nat, f: nat, p: nat, head: nat, digit: nat, tail: nat, q: nat)
    requires digit < 10 && tail < q
    requires f == Place(Place(head, 10, digit), q, tail) && p == WEI_PER_GWEI * (10 * q)
    ensures var x := (w as real + Ratio(f, p)) * WEI_PER_GWEI as real;
            && (x + 0.5).Floor == w * WEI_PER_GWEI + head + (if 5 <= digit then 1 else 0)
            && Sits(x, w * WEI_PER_GWEI + head, 5 <= digit)
  {
    Regroup(head, digit, q, tail);
    LongFractionRounds(head, digit, tail, q);
    WholePlus(w, Ratio(f, p));
  }

  lemma SplitValue(head: string, digit: char, tail: string)
    requires IsNumeral(head, 10) && IsDigit(digit, 10) && IsNumeral(tail, 10)
    ensures IsNumeral((head + [digit]) + tail, 10)
    ensures Value((head + [digit]) + tail, 10)
         == Place(Place(Value(head, 10), 10, DigitValue(digit, 10)), Pow(10, |tail|), Value(tail, 10))
  {
    ValueSnoc(head, digit, 10);
    ValueConcat(head + [digit], tail, 10);
  }

  lemma Regroup(h: nat, d: nat, q: nat, t: nat)
    ensures Place(Place(h, 10, d), q, t) == h * (10 * q) + (d * q + t)
  {
    assert (h * 10 + d) * q == h * (10 * q) + d * q;
  }

  lemma WholePlus(w: nat, x: real)
    ensures (w as real + x) * WEI_PER_GWEI as real == (w * WEI_PER_GWEI) as real + x * WEI_PER_GWEI as real
  {
  }

  // ---------- Printing back ----------

  predicate StartsWith0x(s: string) {
    |s| >= 2 && s[0] == '0' && s[1] == 'x'
  }

  function Remove0x(hex: string): string {
    if StartsWith0x(hex) then hex[2..] else hex
  }

  // The integer a big-number string of hexadecimal digits stands for.
  predicate IsHex(s: string) {
    IsNumeral(Magnitude(s), 16)
  }

  function HexValue(s: string): int
    requires IsHex(s)
  {
    var value: int := Value(Magnitude(s), 16);
    if IsNegative(s) then -value else value
  }

  function PrintHex(n: int): string {
    if n < 0 then "-" + Print(-n, 16) else Print(n, 16)
  }

  function WeiHexToGweiDec(hex: string): string
    requires IsHex(Remove0x(hex))
  {
    FromWeiSigned(HexValue(Remove0x(hex)))
  }

  lemma {:induction false} WholeOfConcat(a: string, b: string)
    requires '.' !in a && (b == "" || b[0] == '.')
    ensures Whole(a + b) == a
  {
    if a == "" {
      assert a + b == b;
    } else {
      assert (a + b)[1..] == a[1..] + b;
      WholeOfConcat(a[1..], b);
    }
  }

  lemma {:induction false} PadStrip(s: string)
    requires IsNumeral(s, 10)
    ensures var t := StripZeros(s);
            |t| <= |s| && IsNumeral(t, 10) && PadRight(t, |s|) == s && (t != "" ==> t[|t| - 1] != '0')
  {
    if s != "" && s[|s| - 1] == '0' {
      PadStrip(s[..|s| - 1]);
      assert s == s[..|s| - 1] + "0";
    }
  }

  // Text made of a whole part and a fraction comes apart into them.
  lemma PointParts(whole: string, fraction: string)
    requires IsNumeral(whole, 10) && IsNumeral(fraction, 10)
    ensures var s := whole + (if fraction == "" then "" else "." + fraction);
            Whole(s) == whole && Fraction(s) == fraction
  {
    var rest := if fraction == "" then "" else "." + fraction;
    WholeOfConcat(whole, rest);
    if fraction != "" {
      assert (whole + rest)[|whole| + 1..] == fraction;
      WholeOfConcat(fraction, "");
      assert fraction + "" == fraction;
    }
  }

  lemma FromWeiParts(wei: nat)
    ensures var fraction := StripZeros(PrintPadded(wei % WEI_PER_GWEI, 10, 9));
            var s := FromWei(wei);
            && Whole(s) == Print(wei / WEI_PER_GWEI, 10) && Fraction(s) == fraction
            && IsDecimal(s) && |fraction| <= 9
            && PadRight(fraction, 9) == PrintPadded(wei % WEI_PER_GWEI, 10, 9)
  {
    PowNine();
    PrintPaddedParses(wei % WEI_PER_GWEI, 10, 9);
    PadStrip(PrintPadded(wei % WEI_PER_GWEI, 10, 9));
    PrintParses(wei / WEI_PER_GWEI, 10);
    PointParts(Print(wei / WEI_PER_GWEI, 10), StripZeros(PrintPadded(wei % WEI_PER_GWEI, 10, 9)));
  }

  /** Printing any wei amount and parsing it back gives that amount. */
  lemma PrintThenParse(wei: nat)
    ensures IsDecimal(FromWei(wei)) && Nearest(FromWei(wei)) == wei
  {
    FromWeiParts(wei);
    ShortFraction(FromWei(wei));
    PowNine();
    PrintPaddedParses(wei % WEI_PER_GWEI, 10, 9);
    PrintParses(wei / WEI_PER_GWEI, 10);
  }

  /** For negative amounts as well: what is printed has no digit to drop. */
  lemma PrintSignedThenConvert(wei: int)
    ensures IsSigned(FromWeiSigned(wei)) && Accepted(FromWeiSigned(wei))
    ensures Converted(FromWeiSigned(wei)) == NearestWei(FromWeiSigned(wei)) == wei
  {
    var s, m := FromWeiSigned(wei), if wei < 0 then -wei else wei;
    FromWeiParts(m);
    PrintThenParse(m);
    PrintParses(m / WEI_PER_GWEI, 10);
    assert Whole(FromWei(m))[0] == FromWei(m)[0];
    assert IsDigit(FromWei(m)[0], 10);
    if wei < 0 {
      assert s[0] == '-' && s[1..] == FromWei(m);
    }
    SplitSigned(s);
    ConvertedMagnitude(s);
    ConversionIsNearestIff(s);
  }

  lemma HexReads(n: int)
    ensures IsHex(PrintHex(n)) && HexValue(PrintHex(n)) == n && Remove0x(PrintHex(n)) == PrintHex(n)
    ensures n >= 0 ==> Remove0x("0x" + PrintHex(n)) == PrintHex(n)
  {
    var m := if n < 0 then -n else n;
    PrintParses(m, 16);
    assert IsDigit(Print(m, 16)[0], 16);
    if n < 0 {
      assert PrintHex(n)[0] == '-' && PrintHex(n)[1..] == Print(m, 16);
    } else if |PrintHex(n)| >= 2 {
      assert IsDigit(PrintHex(n)[1], 16);
    }
    assert ("0x" + PrintHex(n))[2..] == PrintHex(n);
  }

  /** Wei to hexadecimal, to gwei, to wei gives the amount back; a hexadecimal prefix changes nothing. */
  lemma HexThenGweiThenWei(wei: int)
    ensures IsHex(Remove0x(PrintHex(wei))) && Accepted(WeiHexToGweiDec(PrintHex(wei)))
    ensures Converted(WeiHexToGweiDec(PrintHex(wei))) == wei
    ensures wei >= 0 ==>
              && IsHex(Remove0x("0x" + PrintHex(wei)))
              && WeiHexToGweiDec("0x" + PrintHex(wei)) == WeiHexToGweiDec(PrintHex(wei))
  {
    HexReads(wei);
    PrintSignedThenConvert(wei);
  }

  function Normalize(s: string): string
    requires Accepted(s)
  {
    HexReads(Converted(s));
    WeiHexToGweiDec(PrintHex(Converted(s)))
  }

  method NormalizeGWEIDecimalNumbers(n: Option<string>) returns (numberAsGWEI: Option<string>)
    ensures n.None? ==> numberAsGWEI == Some("0")
    ensures n.Some? ==> numberAsGWEI == if Accepted(n.value) then Some(Normalize(n.value)) else None
  {
    var wei := GweiDecToWEIBN(n);
    if wei.None? {
      return None;
    }
    var numberAsWEIHex := PrintHex(wei.value);
    HexReads(wei.value);
    numberAsGWEI := Some(WeiHexToGweiDec(numberAsWEIHex));
    if n.None? {
      ZeroPrints();
    }
  }

  lemma ZeroPrints()
    ensures FromWeiSigned(0) == "0"
  {
    var f := PrintPadded(0, 10, 9);
    PowNine();
    PrintPaddedParses(0, 10, 9);
    assert Print(0, 10) == "0";
    ZerosShape(8);
    assert f == Zeros(8) + "0" == Zeros(9);
    ZerosStrip(9);
  }

  lemma {:induction false} ZerosStrip(k: nat)
    ensures StripZeros(Zeros(k)) == ""
  {
    if k > 0 {
      ZerosStrip(k - 1);
      assert Zeros(k)[..|Zeros(k)| - 1] == Zeros(k - 1);
    }
  }

  /** Normalizing keeps the wei value, and doing it twice changes nothing more. */
  lemma NormalizeIsIdempotent(s: string)
    requires Accepted(s)
    ensures Accepted(Normalize(s)) && Converted(Normalize(s)) == Converted(s)
    ensures Normalize(Normalize(s)) == Normalize(s)
  {
    HexThenGweiThenWei(Converted(s));
  }

  // ---------- Order ----------

  lemma RoundedIsMonotone(x: real, y: real)
    requires x <= y
    ensures (x + 0.5).Floor <= (y + 0.5).Floor
  {
  }

  // Rounding to wei keeps the order of amounts.
  lemma NearestIsMonotone(a: string, b: string)
    requires IsSigned(a) && IsSigned(b) && SignedAmount(a) <= SignedAmount(b)
    ensures NearestWei(a) <= NearestWei(b)
  {
    RoundedIsMonotone(SignedAmount(a) * WEI_PER_GWEI as real, SignedAmount(b) * WEI_PER_GWEI as real);
  }

  // The whole wei kept of an amount, its sign apart.
  function KeptWei(s: string): nat
    requires IsSigned(s)
  {
    ConvertedMagnitude(s);
    SplitSigned(s);
    ToWei(Magnitude(Whole(s)), Kept(s))
  }

  // The smaller amount is one rounded the wrong way, the larger is not, and it lies
  // less than half a wei above the digits kept of the smaller.
  predicate OutOfOrder(a: string, b: string)
    requires IsSigned(a) && IsSigned(b)
  {
    && IsNegative(a) && RoundsUp(a) && !(IsNegative(b) && RoundsUp(b))
    && SignedAmount(b) * WEI_PER_GWEI as real < 0.5 - KeptWei(a) as real
  }

  /** The conversion keeps the order of two amounts exactly unless they are out of order so. */
  lemma ConversionIsMonotoneIff(a: string, b: string)
    requires IsSigned(a) && IsSigned(b) && SignedAmount(a) <= SignedAmount(b)
    ensures Accepted(a) && Accepted(b)
    ensures Converted(a) <= Converted(b) <==> !OutOfOrder(a, b)
  {
    ConversionIsNearestIff(a);
    ConversionIsNearestIff(b);
    NearestIsMonotone(a, b);
    if IsNegative(a) && RoundsUp(a) {
      WrongIsAboveKept(a);
      if IsNegative(b) && RoundsUp(b) {
        WrongIsAboveKept(b);
      }
    }
  }

  // An amount rounded the wrong way ends one above the digits kept, which are half a
  // wei or more above it.
  lemma WrongIsAboveKept(s: string)
    requires IsSigned(s) && IsNegative(s) && RoundsUp(s)
    ensures Accepted(s) && Converted(s) == 1 - KeptWei(s)
    ensures -(KeptWei(s) as real) - 1.0 < SignedAmount(s) * WEI_PER_GWEI as real <= -(KeptWei(s) as real) - 0.5
  {
    ConvertedMagnitude(s);
    SplitSigned(s);
    var t := Magnitude(s);
    LongFraction(t);
    DigitIsFive(Fraction(t)[9]);
    assert SignedAmount(s) * WEI_PER_GWEI as real == -(Amount(t) * WEI_PER_GWEI as real);
  }

  // ---------- Texts with an exponent ----------

  // How JavaScript prints very large and very small numbers: a digit, a point and more
  // digits if there are any, and an exponent.
  function Mantissa(negative: bool, first: char, more: string): string {
    (if negative then "-" else "") + [first] + (if more == "" then "" else "." + more)
  }

  function Exponent(small: bool, exponent: nat): string {
    "e" + (if small then "-" else "+") + Print(exponent, 10)
  }

  function NearestTo(gwei: real): int {
    (gwei * WEI_PER_GWEI as real + 0.5).Floor
  }

  function Scaled(amount: real, small: bool, p: nat): real
    requires p > 0
  {
    if small then amount / p as real else amount * p as real
  }

  // The nearest whole wei to the number such a text stands for.
  function NearestWithExponent(mantissa: string, small: bool, exponent: nat): int
    requires IsSigned(mantissa)
  {
    NearestTo(Scaled(SignedAmount(mantissa), small, Pow(10, exponent)))
  }

  lemma MantissaParts(negative: bool, first: char, more: string)
    requires '1' <= first <= '9' && IsNumeral(more, 10)
    ensures var s := Mantissa(negative, first, more);
            && IsSigned(s) && IsNegative(s) == negative
            && Whole(s) == (if negative then "-" else "") + [first] && Fraction(s) == more
  {
    var s, whole := Mantissa(negative, first, more), (if negative then "-" else "") + [first];
    var rest := if more == "" then "" else "." + more;
    assert s == whole + rest;
    WholeOfConcat(whole, rest);
    FractionAfter(whole, more);
    var m := [first] + rest;
    assert Magnitude(s) == m;
    WholeOfConcat([first], rest);
    FractionAfter([first], more);
  }

  lemma FractionAfter(whole: string, more: string)
    requires '.' !in whole && '.' !in more
    ensures Fraction(whole + (if more == "" then "" else "." + more)) == more
  {
    var rest := if more == "" then "" else "." + more;
    WholeOfConcat(whole, rest);
    if more != "" {
      assert (whole + rest)[|whole| + 1..] == more;
      WholeOfConcat(more, "");
      assert more + "" == more;
    }
  }

  lemma ExponentHasNoPoint(small: bool, exponent: nat)
    ensures '.' !in Exponent(small, exponent) && |Exponent(small, exponent)| >= 3
  {
    PrintParses(exponent, 10);
    var p := Print(exponent, 10);
    forall i | 0 <= i < |p| ensures p[i] != '.' {
      assert IsDigit(p[i], 10);
    }
  }

  // The exponent ends up in the fraction, if there is one, and else in the whole part.
  lemma ExponentParts(negative: bool, first: char, more: string, small: bool, exponent: nat)
    requires '1' <= first <= '9' && IsNumeral(more, 10)
    ensures var s := Mantissa(negative, first, more) + Exponent(small, exponent);
            var whole := (if negative then "-" else "") + [first];
            if more == "" then Whole(s) == whole + Exponent(small, exponent)
            else Whole(s) == whole && Fraction(s) == more + Exponent(small, exponent)
  {
    var whole, e := (if negative then "-" else "") + [first], Exponent(small, exponent);
    var s := Mantissa(negative, first, more) + e;
    ExponentHasNoPoint(small, exponent);
    if more == "" {
      assert s == (whole + e) + "";
      WholeOfConcat(whole + e, "");
    } else {
      assert s == whole + ("." + (more + e));
      WholeOfConcat(whole, "." + (more + e));
      FractionAfter(whole, more + e);
    }
  }

  /** A text with an exponent is refused exactly if its mantissa has fewer than nine
      fractional digits; otherwise it is converted as if the exponent were not there. */
  lemma ExponentIsIgnored(negative: bool, first: char, more: string, small: bool, exponent: nat)
    requires '1' <= first <= '9' && IsNumeral(more, 10)
    ensures var mantissa := Mantissa(negative, first, more);
            && (Accepted(mantissa + Exponent(small, exponent)) <==> |more| >= 9)
            && Accepted(mantissa)
            && (|more| >= 9 ==> Converted(mantissa + Exponent(small, exponent)) == Converted(mantissa))
  {
    var mantissa, e := Mantissa(negative, first, more), Exponent(small, exponent);
    var s := mantissa + e;
    MantissaParts(negative, first, more);
    ConvertedMagnitude(mantissa);
    ExponentParts(negative, first, more, small, exponent);
    ExponentHasNoPoint(small, exponent);
    var whole := (if negative then "-" else "") + [first];
    if more == "" {
      assert Magnitude(whole + e)[1] == 'e' && !IsDigit('e', 10);
    } else if |more| < 9 {
      var kept := Kept(s);
      assert kept[|more|] == 'e' && !IsDigit('e', 10);
    } else {
      assert Kept(s) == Kept(mantissa);
      assert |more| == 9 ==> Fraction(s)[9] == 'e';
      assert |more| > 9 ==> Fraction(s)[9] == more[9];
    }
  }

  // Within the rounding of an amount, and the wei too much of the wrong way.
  predicate IsClose(amount: real, converted: int) {
    var x := amount * WEI_PER_GWEI as real;
    x - 0.5 < converted as real <= x + 2.5
  }

  lemma ConvertedIsClose(s: string)
    requires IsSigned(s)
    ensures Accepted(s) && IsClose(SignedAmount(s), Converted(s))
  {
    ConversionIsNearestIff(s);
  }

  lemma {:induction false} PowIsLarge(exponent: nat)
    requires exponent >= 1
    ensures Pow(10, exponent) >= 10
  {
    assert Pow(10, exponent - 1) >= 1;
  }

  // Scaling a large number by ten or more takes it out of reach.
  lemma ScaledIsFar(x: real, p: real, small: bool)
    requires 1000000000.0 <= x && 10.0 <= p
    ensures var y := if small then x / p else x * p;
            if small then 0.0 <= y && y <= x / 10.0 else 10.0 * x <= y
  {
    if small {
      var y := x / p;
      assert y * p == x;
      if y > x / 10.0 {
        MulReal(x / 10.0, y, p);
        MulReal(10.0, p, x / 10.0);
        assert (x / 10.0) * 10.0 == x;
      }
    } else {
      MulReal(10.0, p, x);
    }
  }

  lemma MantissaIsLarge(first: char, more: string)
    requires '1' <= first <= '9' && IsNumeral(more, 10)
    ensures IsDecimal(Mantissa(false, first, more)) && Amount(Mantissa(false, first, more)) >= 1.0
  {
    MantissaParts(false, first, more);
    ValueSnoc("", first, 10);
    assert "" + [first] == [first];
  }

  /** And then, but for the exponent zero, the result is not the nearest whole wei to
      what the text stands for. */
  lemma ExponentGoesWrong(negative: bool, first: char, more: string, small: bool, exponent: nat)
    requires '1' <= first <= '9' && IsNumeral(more, 10) && |more| >= 9 && exponent >= 1
    ensures var mantissa := Mantissa(negative, first, more);
            && IsSigned(mantissa) && Accepted(mantissa + Exponent(small, exponent))
            && Converted(mantissa + Exponent(small, exponent)) != NearestWithExponent(mantissa, small, exponent)
  {
    var mantissa := Mantissa(negative, first, more);
    ExponentIsIgnored(negative, first, more, small, exponent);
    ConvertedIsNotScaled(negative, first, more, small, exponent);
  }

  lemma MantissaAmount(negative: bool, first: char, more: string)
    requires '1' <= first <= '9' && IsNumeral(more, 10)
    ensures IsDecimal(Mantissa(false, first, more)) && IsSigned(Mantissa(negative, first, more))
    ensures var m := Amount(Mantissa(false, first, more));
            1.0 <= m && SignedAmount(Mantissa(negative, first, more)) == if negative then -m else m
  {
    MantissaParts(negative, first, more);
    MantissaIsLarge(first, more);
    assert Magnitude(Mantissa(negative, first, more)) == Mantissa(false, first, more);
  }

  lemma ConvertedIsNotScaled(negative: bool, first: char, more: string, small: bool, exponent: nat)
    requires '1' <= first <= '9' && IsNumeral(more, 10) && exponent >= 1
    ensures var mantissa := Mantissa(negative, first, more);
            && IsSigned(mantissa) && Accepted(mantissa)
            && Converted(mantissa) != NearestWithExponent(mantissa, small, exponent)
  {
    MantissaAmount(negative, first, more);
    PowIsLarge(exponent);
    NotScaled(Mantissa(negative, first, more), Amount(Mantissa(false, first, more)), negative, small,
        Pow(10, exponent));
  }

  lemma NotScaled(s: string, m: real, negative: bool, small: bool, p: nat)
    requires IsSigned(s) && SignedAmount(s) == (if negative then -m else m) && 1.0 <= m && 10 <= p
    ensures Accepted(s) && Converted(s) != NearestTo(Scaled(SignedAmount(s), small, p))
  {
    ConvertedIsClose(s);
    ScaledGoesWrong(m, p, small, negative, Converted(s));
  }

  lemma ScaledGoesWrong(m: real, p: nat, small: bool, negative: bool, converted: int)
    requires m >= 1.0 && p >= 10 && IsClose(if negative then -m else m, converted)
    ensures converted != NearestTo(Scaled(if negative then -m else m, small, p))
  {
    var g := WEI_PER_GWEI as real;
    var q := p as real;
    var x := m * g;
    ScaledIsFar(x, q, small);
    if small {
      QuotientTimes(m, q, g);
    } else {
      assert (m * q) * g == x * q && (-m * q) * g == -(x * q);
    }
  }

  lemma QuotientTimes(m: real, p: real, g: real)
    requires p > 0.0
    ensures (m / p) * g == (m * g) / p && (-m / p) * g == -((m * g) / p)
  {
    var q := m / p;
    assert q * p == m;
    assert (q * g) * p == m * g;
    assert -m / p == -q;
  }
}
