/** Reading a printed number gives it back (context_response.go, section 6 of RFC 8259). */
module JsonNumbers {
  import opened Wrappers
  import opened Utf8
  import opened Numbers
  import opened Json

  predicate NoDigit(rest: Bytes) {
    rest == [] || !IsDigit(rest[0])
  }

  /** Nothing that could be part of a number. */
  predicate Ends(rest: Bytes) {
    NoDigit(rest) && !StartsWith(rest, DOT) && !StartsWith(rest, EXPONENT) && !StartsWith(rest, 0x45)
  }

  // ---------------------------------------------------------------- digits

  lemma {:induction false} LeadingZero(ds: Bytes)
    requires AllDigits(ds)
    ensures AllDigits([ZERO] + ds) && Number([ZERO] + ds) == Number(ds)
  {
    var zs := [ZERO] + ds;
    if ds == [] {
      assert zs[..0] == [];
    } else {
      LeadingZero(ds[..|ds| - 1]);
      assert zs[..|zs| - 1] == [ZERO] + ds[..|ds| - 1];
    }
  }

  lemma {:induction false} LeadingZeros(n: nat, ds: Bytes)
    requires AllDigits(ds)
    ensures AllDigits(Zeros(n) + ds) && Number(Zeros(n) + ds) == Number(ds)
  {
    if n == 0 {
      assert Zeros(0) + ds == ds;
    } else {
      LeadingZeros(n - 1, ds);
      LeadingZero(Zeros(n - 1) + ds);
      assert Zeros(n) + ds == [ZERO] + (Zeros(n - 1) + ds);
    }
  }

  lemma PaddedAre(m: nat, n: nat)
    ensures AllDigits(Padded(m, n)) && Number(Padded(m, n)) == m
    ensures |Padded(m, n)| > 0 && (|Padded(m, n)| > n && |Padded(m, n)| > 1 ==> Padded(m, n)[0] != ZERO)
  {
    DigitsAre(m);
    if |Digits(m)| < n {
      LeadingZeros(n - |Digits(m)|, Digits(m));
    }
  }

  lemma {:induction false} TakesAll(ds: Bytes, rest: Bytes)
    requires AllDigits(ds) && NoDigit(rest)
    ensures TakeDigits(ds + rest) == |ds|
    ensures (ds + rest)[..|ds|] == ds && (ds + rest)[|ds|..] == rest
  {
    if ds == [] {
      assert ds + rest == rest;
    } else {
      assert (ds + rest)[1..] == ds[1..] + rest;
      TakesAll(ds[1..], rest);
    }
  }

  // ---------------------------------------------------------------- parts of a number

  /** The digits before and behind the point. */
  lemma PartsAre(d: Decimal)
    ensures AllDigits(Whole(d)) && AllDigits(Fraction(d)) && Whole(d) != []
    ensures Number(Whole(d) + Fraction(d)) == d.digits
    ensures |Whole(d)| > 1 ==> Whole(d)[0] != ZERO
  {
    var ds := Padded(d.digits, d.scale + 1);
    PaddedAre(d.digits, d.scale + 1);
    assert Whole(d) + Fraction(d) == ds;
  }

  lemma FractionBack(d: Decimal, rest: Bytes)
    requires NoDigit(rest) && !StartsWith(rest, DOT)
    ensures ParseFraction(FractionText(d) + rest) == Some((Fraction(d), rest))
  {
    PartsAre(d);
    if d.scale == 0 {
      assert [] + rest == rest && Fraction(d) == [];
    } else {
      Assoc([DOT], Fraction(d), rest);
      ReadsFraction(Fraction(d), rest);
    }
  }

  lemma ReadsFraction(ds: Bytes, rest: Bytes)
    requires AllDigits(ds) && ds != [] && NoDigit(rest)
    ensures ParseFraction([DOT] + (ds + rest)) == Some((ds, rest))
  {
    assert ([DOT] + (ds + rest))[1..] == ds + rest;
    TakesAll(ds, rest);
  }

  lemma ExponentBack(x: Option<int>, rest: Bytes)
    requires Ends(rest)
    ensures var e := if x.None? then [] else ShortExponent(x.value);
      ParseExponent(e + rest) == Some((x, rest)) && NoDigit(e + rest) && !StartsWith(e + rest, DOT)
  {
    if x.None? {
      assert [] + rest == rest;
    } else {
      SomeExponentBack(x.value, rest);
    }
  }

  lemma SomeExponentBack(x: int, rest: Bytes)
    requires Ends(rest)
    ensures ParseExponent(ShortExponent(x) + rest) == Some((Some(x), rest))
    ensures StartsWith(ShortExponent(x) + rest, EXPONENT)
  {
    var ds := if x < 0 then Digits(-x) else Padded(x, 2);
    DigitsAre(if x < 0 then -x else x);
    if x >= 0 {
      PaddedAre(x, 2);
    }
    Assoc([EXPONENT, if x < 0 then MINUS else PLUS], ds, rest);
    ReadsExponent(x < 0, ds, rest);
  }

  lemma ReadsExponent(neg: bool, ds: Bytes, rest: Bytes)
    requires AllDigits(ds) && ds != [] && NoDigit(rest)
    ensures var s := [EXPONENT, if neg then MINUS else PLUS] + (ds + rest);
      && StartsWith(s, EXPONENT)
      && ParseExponent(s) == Some((Some(if neg then 0 - Number(ds) else Number(ds)), rest))
  {
    var s := [EXPONENT, if neg then MINUS else PLUS] + (ds + rest);
    assert s[1..] == [if neg then MINUS else PLUS] + (ds + rest);
    assert s[1..][1..] == ds + rest;
    TakesAll(ds, rest);
  }

  // ---------------------------------------------------------------- numbers

  lemma UnsignedBack(d: Decimal, rest: Bytes)
    requires Ends(rest)
    ensures ParseUnsigned(Whole(d) + (FractionText(d) + (ExponentText(d) + rest))) == Some((d.(neg := false), rest))
  {
    var e := ExponentText(d) + rest;
    var f := FractionText(d) + e;
    PartsAre(d);
    ExponentBack(d.exp, rest);
    FractionBack(d, e);
    assert NoDigit(f) by {
      assert d.scale == 0 ==> f == e;
      assert d.scale > 0 ==> f[0] == DOT;
    }
    TakesAll(Whole(d), f);
    assert (Whole(d) + f)[0] == Whole(d)[0];
  }

  lemma TextParts(d: Decimal, rest: Bytes)
    ensures DecimalText(d) + rest == Sign(d.neg) + (Whole(d) + (FractionText(d) + (ExponentText(d) + rest)))
  {
    var n := Whole(d) + FractionText(d);
    Assoc(Mantissa(d), ExponentText(d), rest);
    Assoc(Sign(d.neg), n, ExponentText(d) + rest);
    Assoc(Whole(d), FractionText(d), ExponentText(d) + rest);
  }

  lemma NumberBack(d: Decimal, rest: Bytes)
    requires Ends(rest)
    ensures ParseNumber(DecimalText(d) + rest) == Some((d, rest))
  {
    var u := Whole(d) + (FractionText(d) + (ExponentText(d) + rest));
    TextParts(d, rest);
    UnsignedBack(d, rest);
    PartsAre(d);
    assert u[0] == Whole(d)[0];
    assert ([MINUS] + u)[1..] == u && [] + u == u;
  }

  /** What a printed number starts with. */
  lemma NumberStarts(d: Decimal)
    ensures DecimalText(d) != [] && (DecimalText(d)[0] == MINUS || IsDigit(DecimalText(d)[0]))
  {
    PartsAre(d);
    var n := Whole(d) + FractionText(d);
    assert n[0] == Whole(d)[0] && (Sign(d.neg) + n)[0] == if d.neg then MINUS else n[0];
  }

  /** An integer is printed without point and exponent. */
  lemma IntText(n: int)
    ensures DecimalText(IntOf(n)) == if n < 0 then [MINUS] + Digits(-n) else Digits(n)
  {
    var d := IntOf(n);
    DigitsAre(d.digits);
    assert Whole(d) == Digits(d.digits) && Whole(d) + [] == Whole(d);
    assert [] + Digits(d.digits) == Digits(d.digits);
  }
}
