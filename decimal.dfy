/**
 * Decimal numerals as the providers read them (`^\d+(\.\d+)?$`), compared
 * with ten exactly, and printed back the way a JavaScript number prints.
 */
module Decimal {
  import opened JsString

  /** The split of a string into its leading digits and the rest. */
  function WholePart(s: string): string { TakeWhile(s, IsDigit) }

  /** The digits after the point of a decimal, or nothing when it has no point. */
  function FractionPart(s: string): string
  {
    var whole := WholePart(s);
    if |whole| + 1 < |s| then s[|whole| + 1..] else []
  }

  /** `^\d+(\.\d+)?$` */
  predicate IsDecimal(s: string) {
    var whole := WholePart(s);
    && whole != []
    && (whole == s || (|whole| + 1 < |s| && s[|whole|] == '.' && AllDigits(s[|whole| + 1..])))
  }

  /**
   * `parseFloat(value) <= 10` for a decimal, compared exactly: a whole part
   * below ten, or ten with only zeros after the point.
   */
  predicate AtMostTen(m: string)
  {
    var whole := WholePart(m);
    var frac := FractionPart(m);
    && AllDigits(whole)
    && (DigitsValue(whole) < 10 || (DigitsValue(whole) == 10 && forall i :: 0 <= i < |frac| ==> frac[i] == '0'))
  }

  /** The exact comparison agrees with the number the decimal denotes, `Scaled(m) / 10^|frac|`. */
  lemma AtMostTenIsNumeric(m: string)
    requires IsDecimal(m)
    ensures AtMostTen(m) <==> Scaled(m) <= 10 * Pow10(|FractionPart(m)|)
  {
    var whole := WholePart(m);
    var frac := FractionPart(m);
    assert AllDigits(whole);
    assert AllDigits(frac);
    DigitsValueBound(frac);
    DigitsValueZero(frac);
    TenBound(DigitsValue(whole), DigitsValue(frac), Pow10(|frac|));
  }

  /** `w + f / p <= 10` for a fraction `f / p` below one. */
  lemma TenBound(w: nat, f: nat, p: nat)
    requires f < p
    ensures (w < 10 || (w == 10 && f == 0)) <==> w * p + f <= 10 * p
  {
    if w < 10 {
      MulMonotone(w + 1, 10, p);
    } else if w > 10 {
      MulMonotone(11, w, p);
    }
  }

  lemma MulMonotone(a: nat, b: nat, c: nat)
    requires a <= b
    ensures a * c <= b * c
  {
  }

  /** The decimal scaled by ten to the number of its fraction digits: `whole * 10^|frac| + frac`. */
  function Scaled(d: string): nat
    requires IsDecimal(d)
  {
    DigitsValue(WholePart(d)) * Pow10(|FractionPart(d)|) + DigitsValue(FractionPart(d))
  }

  /** Digits without their leading zeros, keeping a single `0` for zero. */
  function StripLeadingZeros(w: string): string
    requires AllDigits(w)
  {
    if |w| > 1 && w[0] == '0' then StripLeadingZeros(w[1..]) else w
  }

  /** Fraction digits without their trailing zeros. */
  function StripTrailingZeros(f: string): string
  {
    if f != [] && f[|f| - 1] == '0' then StripTrailingZeros(f[..|f| - 1]) else f
  }

  /**
   * A decimal printed back in plain notation: the shortest numeral of the
   * same number, with no leading zero, no trailing zero after the point and
   * no point when nothing follows it. This is `${parseFloat(d)}` for numerals
   * of at most 15 significant digits whose value is 0 or at least 10^-6.
   */
  function NumberText(d: string): string
    requires IsDecimal(d)
  {
    var whole := StripLeadingZeros(WholePart(d));
    var frac := StripTrailingZeros(FractionPart(d));
    if frac == [] then whole else whole + "." + frac
  }

  /** The printed numeral is a decimal denoting the same number: the two scaled values differ by the dropped zeros. */
  lemma NumberTextValue(d: string)
    requires IsDecimal(d)
    ensures IsDecimal(NumberText(d))
    ensures |FractionPart(NumberText(d))| <= |FractionPart(d)|
    ensures Scaled(d) == Scaled(NumberText(d)) * Pow10(|FractionPart(d)| - |FractionPart(NumberText(d))|)
  {
    var w := WholePart(d);
    var f := FractionPart(d);
    var t := NumberText(d);
    NumberTextParts(d);
    LeadingZerosValue(w);
    TrailingZerosValue(f);
    var f2 := StripTrailingZeros(f);
    var z := |f| - |f2|;
    var W := DigitsValue(w);
    var F := DigitsValue(f2);
    assert Scaled(t) == W * Pow10(|f2|) + F;
    assert Scaled(d) == W * Pow10(|f|) + F * Pow10(z);
    Pow10Add(|f2|, z);
    assert |f2| + z == |f|;
    NumberTextScaled(W, F, Pow10(|f2|), Pow10(z));
  }

  lemma NumberTextScaled(w: nat, f: nat, p: nat, q: nat)
    ensures w * (p * q) + f * q == (w * p + f) * q
  {
  }

  /** Printing a decimal does not change whether it is at most ten. */
  lemma AtMostTenPrinted(d: string)
    requires IsDecimal(d)
    ensures IsDecimal(NumberText(d)) && (AtMostTen(NumberText(d)) <==> AtMostTen(d))
  {
    var t := NumberText(d);
    NumberTextValue(d);
    AtMostTenIsNumeric(d);
    AtMostTenIsNumeric(t);
    var ft := |FractionPart(t)|;
    var z := |FractionPart(d)| - ft;
    Pow10Add(ft, z);
    ScaledCompare(Scaled(d), Scaled(t), Pow10(|FractionPart(d)|), Pow10(ft), Pow10(z));
  }

  /** Two fractions with the same factor in numerator and denominator compare the same way with ten. */
  lemma ScaledCompare(sd: nat, st: nat, pd: nat, pt: nat, q: nat)
    requires q >= 1 && sd == st * q && pd == pt * q
    ensures sd <= 10 * pd <==> st <= 10 * pt
  {
    assert 10 * pd == (10 * pt) * q;
    if st <= 10 * pt {
      MulMonotone(st, 10 * pt, q);
    } else {
      MulMonotone(10 * pt + 1, st, q);
    }
  }

  /** Printing is idempotent: the printed numeral prints as itself. */
  lemma NumberTextIdempotent(d: string)
    requires IsDecimal(d)
    ensures IsDecimal(NumberText(d)) && NumberText(NumberText(d)) == NumberText(d)
  {
    NumberTextParts(d);
    LeadingZerosValue(WholePart(d));
    TrailingZerosValue(FractionPart(d));
    LeadingZerosFixed(StripLeadingZeros(WholePart(d)));
    TrailingZerosFixed(StripTrailingZeros(FractionPart(d)));
  }

  /** The whole and fraction parts of the printed numeral. */
  lemma NumberTextParts(d: string)
    requires IsDecimal(d)
    ensures IsDecimal(NumberText(d))
    ensures WholePart(NumberText(d)) == StripLeadingZeros(WholePart(d))
    ensures FractionPart(NumberText(d)) == StripTrailingZeros(FractionPart(d))
  {
    var w := StripLeadingZeros(WholePart(d));
    var f := StripTrailingZeros(FractionPart(d));
    LeadingZerosValue(WholePart(d));
    TrailingZerosValue(FractionPart(d));
    TakeAllDigits(w);
    if f != [] {
      var t := w + "." + f;
      assert t == w + ("." + f);
      TakeDigitsStop(w, "." + f);
      assert t[|w| + 1..] == f;
    }
  }

  lemma {:induction false} LeadingZerosValue(w: string)
    requires AllDigits(w)
    ensures var r := StripLeadingZeros(w);
      && AllDigits(r) && |r| <= |w| && (w != [] ==> r != [])
      && (|r| > 1 ==> r[0] != '0')
      && DigitsValue(r) == DigitsValue(w)
  {
    if |w| > 1 && w[0] == '0' {
      LeadingZerosValue(w[1..]);
      DigitsValueConcat(w[..1], w[1..]);
      assert w[..1] + w[1..] == w;
      assert DigitsValue(w[..1]) == 0 by { assert w[..1][..0] == []; }
    }
  }

  lemma {:induction false} TrailingZerosValue(f: string)
    requires AllDigits(f)
    ensures var r := StripTrailingZeros(f);
      && AllDigits(r) && |r| <= |f| && r == f[..|r|]
      && (r != [] ==> r[|r| - 1] != '0')
      && DigitsValue(f) == DigitsValue(r) * Pow10(|f| - |r|)
  {
    TrailingZerosShape(f);
    TrailingZerosScale(f);
  }

  lemma {:induction false} TrailingZerosShape(f: string)
    ensures var r := StripTrailingZeros(f);
      && |r| <= |f| && r == f[..|r|]
      && (r != [] ==> r[|r| - 1] != '0')
  {
    if f != [] && f[|f| - 1] == '0' {
      var init := f[..|f| - 1];
      TrailingZerosShape(init);
      assert init[..|StripTrailingZeros(init)|] == f[..|StripTrailingZeros(init)|];
    }
  }

  lemma {:induction false} TrailingZerosScale(f: string)
    requires AllDigits(f)
    ensures |StripTrailingZeros(f)| <= |f| && AllDigits(StripTrailingZeros(f))
    ensures DigitsValue(f) == DigitsValue(StripTrailingZeros(f)) * Pow10(|f| - |StripTrailingZeros(f)|)
  {
    if f != [] && f[|f| - 1] == '0' {
      var init := f[..|f| - 1];
      TrailingZerosScale(init);
      var r := StripTrailingZeros(init);
      assert StripTrailingZeros(f) == r;
      LastZeroValue(f);
      var n := |init| - |r|;
      assert |f| - |r| == n + 1;
      ScaleByTen(DigitsValue(r), Pow10(n));
    }
  }

  /** A trailing zero multiplies the value by ten. */
  lemma LastZeroValue(f: string)
    requires AllDigits(f) && f != [] && f[|f| - 1] == '0'
    ensures DigitsValue(f) == DigitsValue(f[..|f| - 1]) * 10
  {
  }

  lemma ScaleByTen(a: nat, p: nat)
    ensures a * p * 10 == a * (p * 10)
  {
  }

  lemma {:induction false} LeadingZerosFixed(w: string)
    requires AllDigits(w) && (|w| > 1 ==> w[0] != '0')
    ensures StripLeadingZeros(w) == w
  {
  }

  lemma {:induction false} TrailingZerosFixed(f: string)
    requires f == [] || f[|f| - 1] != '0'
    ensures StripTrailingZeros(f) == f
  {
  }

  /** Digits read left to right: the value of a concatenation. */
  lemma {:induction false} DigitsValueConcat(a: string, b: string)
    requires AllDigits(a) && AllDigits(b)
    ensures AllDigits(a + b)
    ensures DigitsValue(a + b) == DigitsValue(a) * Pow10(|b|) + DigitsValue(b)
  {
    var c := a + b;
    assert AllDigits(c) by {
      forall i | 0 <= i < |c| ensures IsDigit(c[i]) {
        if i < |a| { assert c[i] == a[i]; } else { assert c[i] == b[i - |a|]; }
      }
    }
    if b == [] {
      assert c == a;
    } else {
      var init := b[..|b| - 1];
      var last := DigitValue(b[|b| - 1]);
      DigitsValueConcat(a, init);
      assert c[..|c| - 1] == a + init;
      assert c[|c| - 1] == b[|b| - 1];
      assert DigitsValue(c) == DigitsValue(a + init) * 10 + last;
      assert DigitsValue(b) == DigitsValue(init) * 10 + last;
      ShiftDigit(DigitsValue(a), Pow10(|init|), DigitsValue(init));
    }
  }

  lemma ShiftDigit(x: nat, p: nat, y: nat)
    ensures (x * p + y) * 10 == x * (10 * p) + y * 10
  {
  }

  lemma {:induction false} Pow10Add(a: nat, b: nat)
    ensures Pow10(a + b) == Pow10(a) * Pow10(b)
  {
    if b > 0 {
      Pow10Add(a, b - 1);
      assert Pow10(a) * (10 * Pow10(b - 1)) == 10 * (Pow10(a) * Pow10(b - 1));
    }
  }
}
