/** Numbers as the encoders write them (strconv.AppendInt and AppendFloat). */
module Numbers {
  import opened Wrappers
  import opened Utf8

  const MINUS: Byte := 0x2D
  const PLUS: Byte := 0x2B
  const DOT: Byte := 0x2E
  const ZERO: Byte := 0x30
  const EXPONENT: Byte := 0x65

  function Digits(n: nat): (s: Bytes) {
    if n < 10 then [0x30 + n] else Digits(n / 10) + [0x30 + n % 10]
  }

  function Zeros(n: nat): (s: Bytes)
    ensures |s| == n
  {
    seq(n, _ => ZERO)
  }

  /** At least n digits. */
  function Padded(m: nat, n: nat): (s: Bytes)
    ensures |s| >= n && |s| >= |Digits(m)|
  {
    var ds := Digits(m);
    if |ds| < n then Zeros(n - |ds|) + ds else ds
  }

  /** A number as it is printed: the digits, how many of them are behind the point, and the
      exponent if it has one. */
  datatype Decimal = Decimal(neg: bool, digits: nat, scale: nat, exp: Option<int>)

  function IntOf(n: int): (d: Decimal) {
    Decimal(n < 0, if n < 0 then -n else n, 0, None)
  }

  function Whole(d: Decimal): (s: Bytes) {
    var ds := Padded(d.digits, d.scale + 1);
    ds[..|ds| - d.scale]
  }

  function Fraction(d: Decimal): (s: Bytes)
    ensures |s| == d.scale
  {
    var ds := Padded(d.digits, d.scale + 1);
    ds[|ds| - d.scale..]
  }

  function FractionText(d: Decimal): (s: Bytes) {
    if d.scale == 0 then [] else [DOT] + Fraction(d)
  }

  /** The exponent as strconv prints it, in two digits at least. */
  function LongExponent(x: int): (s: Bytes) {
    if x < 0 then [EXPONENT, MINUS] + Padded(-x, 2) else [EXPONENT, PLUS] + Padded(x, 2)
  }

  /** The exponent as encoding/json prints it: a negative one without its leading zero. */
  function ShortExponent(x: int): (s: Bytes) {
    if x < 0 then [EXPONENT, MINUS] + Digits(-x) else [EXPONENT, PLUS] + Padded(x, 2)
  }

  function ExponentText(d: Decimal): (s: Bytes) {
    if d.exp.None? then [] else ShortExponent(d.exp.value)
  }

  function Sign(neg: bool): (s: Bytes) {
    if neg then [MINUS] else []
  }

  function Mantissa(d: Decimal): (s: Bytes) {
    Sign(d.neg) + (Whole(d) + FractionText(d))
  }

  function DecimalText(d: Decimal): (s: Bytes) {
    Mantissa(d) + ExponentText(d)
  }

  // ---------------------------------------------------------------- reading digits

  predicate IsDigit(b: Byte) {
    0x30 <= b < 0x3A
  }

  function DigitOf(b: Byte): (d: nat)
    requires IsDigit(b)
  {
    b - 0x30
  }

  predicate AllDigits(ds: Bytes) {
    forall i :: 0 <= i < |ds| ==> IsDigit(ds[i])
  }

  function Number(ds: Bytes): (n: nat)
    requires AllDigits(ds)
  {
    if ds == [] then 0 else Number(ds[..|ds| - 1]) * 10 + DigitOf(ds[|ds| - 1])
  }

  lemma {:induction false} DigitsAre(n: nat)
    ensures |Digits(n)| > 0 && AllDigits(Digits(n)) && Number(Digits(n)) == n
    ensures |Digits(n)| > 1 ==> Digits(n)[0] != ZERO
    ensures |Digits(n)| > 1 <==> n >= 10
  {
    if n >= 10 {
      DigitsAre(n / 10);
      var ds := Digits(n);
      assert ds[..|ds| - 1] == Digits(n / 10);
    } else {
      assert Digits(n)[..0] == [];
    }
  }
}
