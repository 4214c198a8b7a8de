/** The reflection-free JSON encoder (context_response.go) and a parser for the grammar of
    RFC 8259 that undoes it. */
module Json {
  import opened Wrappers
  import opened Utf8
  import opened Numbers
  import opened JsonStrings
  import opened JsonKeys

  /** A value of the fast path. Null is nil or a nil slice, Arr any slice, Obj any map with
      string keys; integers of every width and finite floats are the number strconv prints. */
  datatype Value =
    | Null
    | Bool(b: bool)
    | Num(d: Decimal)
    | Str(s: Bytes)
    | Arr(elems: seq<Value>)
    | Obj(fields: map<Bytes, Value>)

  const MAX_KEYS := 16

  const NULL: Bytes := [0x6E, 0x75, 0x6C, 0x6C]
  const TRUE: Bytes := [0x74, 0x72, 0x75, 0x65]
  const FALSE: Bytes := [0x66, 0x61, 0x6C, 0x73, 0x65]
  const COMMA: Byte := 0x2C
  const COLON: Byte := 0x3A
  const OPEN_ARRAY: Byte := 0x5B
  const CLOSE_ARRAY: Byte := 0x5D
  const OPEN_OBJECT: Byte := 0x7B
  const CLOSE_OBJECT: Byte := 0x7D

  /** The string is written as it is, between quotes. */
  predicate SafeKey(s: Bytes) {
    Valid(s) && EscapeBytes(s) == s
  }

  /** jsonSafeValue: strings are UTF-8, keys need no escape, maps have at most 16 entries. */
  predicate Safe(v: Value)
    decreases v
  {
    match v
    case Str(s) => Valid(s)
    case Arr(es) => forall i :: 0 <= i < |es| ==> Safe(es[i])
    case Obj(m) => |m| <= MAX_KEYS && forall k {:trigger m[k]} :: k in m ==> SafeKey(k) && Safe(m[k])
    case _ => true
  }

  // ---------------------------------------------------------------- encoder

  function Quoted(s: Bytes): (e: Bytes) {
    [QUOTE] + s + [QUOTE]
  }

  ghost function Text(v: Value): (e: Bytes)
    decreases v
  {
    match v
    case Null => NULL
    case Bool(b) => if b then TRUE else FALSE
    case Num(d) => DecimalText(d)
    case Str(s) => Quoted(EscapeBytes(s))
    case Arr(es) => [OPEN_ARRAY] + Elems(es) + [CLOSE_ARRAY]
    case Obj(m) => [OPEN_OBJECT] + Members(v, InOrder(m.Keys)) + [CLOSE_OBJECT]
  }

  /** The bytes of ASCII text. */
  function Ascii(s: string): (b: Bytes)
    requires forall i :: 0 <= i < |s| ==> s[i] < 128 as char
  {
    seq(|s|, i requires 0 <= i < |s| => s[i] as int)
  }

  /** Elements with a comma between them. */
  ghost function Elems(es: seq<Value>): (e: Bytes)
    decreases es
  {
    if es == [] then []
    else Text(es[0]) + (if |es| == 1 then [] else [COMMA]) + Elems(es[1..])
  }

  ghost function Member(v: Value, k: Bytes): (e: Bytes)
    requires v.Obj? && k in v.fields
    decreases v, 0
  {
    Quoted(k) + [COLON] + Text(v.fields[k])
  }

  ghost function Members(v: Value, ks: seq<Bytes>): (e: Bytes)
    requires v.Obj? && forall k :: k in ks ==> k in v.fields
    decreases v, 1, |ks|
  {
    if ks == [] then []
    else Member(v, ks[0]) + (if |ks| == 1 then [] else [COMMA]) + Members(v, ks[1..])
  }

  // ---------------------------------------------------------------- parser

  predicate Blank(b: Byte) {
    b == 0x20 || b == 0x09 || b == 0x0A || b == 0x0D
  }

  function SkipBlanks(s: Bytes): (t: Bytes)
    ensures |t| <= |s|
  {
    if s != [] && Blank(s[0]) then SkipBlanks(s[1..]) else s
  }

  predicate StartsWith(s: Bytes, b: Byte) {
    s != [] && s[0] == b
  }

  /** The digits at the start of s. */
  function TakeDigits(s: Bytes): (n: nat)
    ensures n <= |s|
  {
    if s != [] && IsDigit(s[0]) then 1 + TakeDigits(s[1..]) else 0
  }

  lemma {:induction false} TakeDigitsAre(s: Bytes)
    ensures forall i :: 0 <= i < TakeDigits(s) ==> IsDigit(s[i])
  {
    if s != [] && IsDigit(s[0]) {
      TakeDigitsAre(s[1..]);
      assert forall i :: 0 < i < TakeDigits(s) ==> s[i] == s[1..][i - 1];
    }
  }

  /** The digits behind a point, if there is one. */
  function ParseFraction(s: Bytes): (r: Option<(Bytes, Bytes)>)
    ensures r.Some? ==> |r.value.1| <= |s| && forall i :: 0 <= i < |r.value.0| ==> IsDigit(r.value.0[i])
  {
    if !StartsWith(s, DOT) then Some(([], s))
    else
      var t := s[1..];
      var n := TakeDigits(t);
      TakeDigitsAre(t);
      if n == 0 then None else Some((t[..n], t[n..]))
  }

  /** The exponent, if there is one. */
  function ParseExponent(s: Bytes): (r: Option<(Option<int>, Bytes)>)
    ensures r.Some? ==> |r.value.1| <= |s|
  {
    if !StartsWith(s, EXPONENT) && !StartsWith(s, 0x45) then Some((None, s))
    else
      var t := s[1..];
      var neg := StartsWith(t, MINUS);
      var u := if neg || StartsWith(t, PLUS) then t[1..] else t;
      var n := TakeDigits(u);
      TakeDigitsAre(u);
      if n == 0 then None
      else Some((Some(if neg then 0 - Number(u[..n]) else Number(u[..n])), u[n..]))
  }

  /** A number without sign: 0 or digits that do not start with 0, then a fraction and an
      exponent. */
  function ParseUnsigned(s: Bytes): (r: Option<(Decimal, Bytes)>)
    ensures r.Some? ==> |r.value.1| < |s|
  {
    var n := TakeDigits(s);
    TakeDigitsAre(s);
    if n == 0 || (n > 1 && s[0] == ZERO) then None
    else
      var f := ParseFraction(s[n..]);
      if f.None? then None
      else
        var x := ParseExponent(f.value.1);
        if x.None? then None
        else Some((Decimal(false, Number(s[..n] + f.value.0), |f.value.0|, x.value.0), x.value.1))
  }

  function ParseNumber(s: Bytes): (r: Option<(Decimal, Bytes)>)
    ensures r.Some? ==> |r.value.1| < |s|
  {
    if StartsWith(s, MINUS) then
      var r := ParseUnsigned(s[1..]);
      if r.None? then None else Some((r.value.0.(neg := true), r.value.1))
    else ParseUnsigned(s)
  }

  function HexValue(b: Byte): (d: Option<int>)
    ensures d.Some? ==> 0 <= d.value < 16
  {
    if IsDigit(b) then Some(b - 0x30)
    else if 0x61 <= b < 0x67 then Some(b - 0x61 + 10)
    else if 0x41 <= b < 0x47 then Some(b - 0x41 + 10)
    else None
  }

  /** \uXXXX at the start of s. */
  function ParseUnit(s: Bytes): (c: Option<int>)
    ensures c.Some? ==> |s| >= 6 && 0 <= c.value < 0x10000
  {
    if |s| < 6 || s[0] != BACKSLASH || s[1] != 0x75 then None
    else
      var a, b, c, d := HexValue(s[2]), HexValue(s[3]), HexValue(s[4]), HexValue(s[5]);
      if a.None? || b.None? || c.None? || d.None? then None
      else Some(a.value * 4096 + b.value * 256 + c.value * 16 + d.value)
  }

  /** The character an escape stands for, and the escape's length. */
  function ParseEscape(s: Bytes): (r: Option<(Rune, nat)>)
    ensures r.Some? ==> 0 < r.value.1 <= |s|
  {
    if |s| < 2 || s[0] != BACKSLASH then None
    else if s[1] == QUOTE || s[1] == BACKSLASH || s[1] == 0x2F then Some((s[1], 2))
    else if s[1] == 0x62 then Some((0x08, 2))
    else if s[1] == 0x66 then Some((0x0C, 2))
    else if s[1] == 0x6E then Some((0x0A, 2))
    else if s[1] == 0x72 then Some((0x0D, 2))
    else if s[1] == 0x74 then Some((0x09, 2))
    else
      var c := ParseUnit(s);
      if c.None? then None
      else if c.value < 0xD800 || 0xE000 <= c.value then Some((c.value, 6))
      else
        var d := ParseUnit(s[6..]);
        if c.value < 0xDC00 && d.Some? && 0xDC00 <= d.value < 0xE000 then
          Some((0x10000 + (c.value - 0xD800) * 1024 + d.value - 0xDC00, 12))
        else None
  }

  /** The characters up to the closing quote, and what follows it. */
  function ParseChars(s: Bytes): (r: Option<(seq<Rune>, Bytes)>)
    ensures r.Some? ==> |r.value.1| < |s|
    decreases |s|
  {
    if s == [] || s[0] < 0x20 then None
    else if s[0] == QUOTE then Some(([], s[1..]))
    else
      var c := if s[0] == BACKSLASH then ParseEscape(s) else ParsePlain(s);
      if c.None? then None
      else
        var rest := ParseChars(s[c.value.1..]);
        if rest.None? then None else Some(([c.value.0] + rest.value.0, rest.value.1))
  }

  function ParsePlain(s: Bytes): (r: Option<(Rune, nat)>)
    ensures r.Some? ==> 0 < r.value.1 <= |s|
  {
    var r := DecodeRune(s);
    if r.None? then None
    else
      EncodeDecoded(s);
      Some((r.value, |EncodeRune(r.value)|))
  }

  /** null, true, false, a string or a number. */
  function ParseAtom(s: Bytes): (r: Option<(Value, Bytes)>)
    ensures r.Some? ==> |r.value.1| < |s|
  {
    if s == [] then None
    else if NULL <= s then Some((Null, s[4..]))
    else if TRUE <= s then Some((Bool(true), s[4..]))
    else if FALSE <= s then Some((Bool(false), s[5..]))
    else if s[0] == QUOTE then
      var r := ParseChars(s[1..]);
      if r.None? then None else Some((Str(Utf8.Encode(r.value.0)), r.value.1))
    else
      var r := ParseNumber(s);
      if r.None? then None else Some((Num(r.value.0), r.value.1))
  }

  function ParseValue(text: Bytes): (r: Option<(Value, Bytes)>)
    ensures r.Some? ==> |r.value.1| < |text|
    decreases |text|, 2
  {
    var s := SkipBlanks(text);
    if StartsWith(s, OPEN_ARRAY) then ParseArray(s)
    else if StartsWith(s, OPEN_OBJECT) then ParseObject(s)
    else ParseAtom(s)
  }

  function ParseArray(s: Bytes): (r: Option<(Value, Bytes)>)
    requires StartsWith(s, OPEN_ARRAY)
    ensures r.Some? ==> |r.value.1| < |s|
    decreases |s|, 1
  {
    var t := SkipBlanks(s[1..]);
    if StartsWith(t, CLOSE_ARRAY) then Some((Arr([]), t[1..]))
    else
      var r := ParseElems(s[1..]);
      if r.None? then None else Some((Arr(r.value.0), r.value.1))
  }

  function ParseObject(s: Bytes): (r: Option<(Value, Bytes)>)
    requires StartsWith(s, OPEN_OBJECT)
    ensures r.Some? ==> |r.value.1| < |s|
    decreases |s|, 1
  {
    var t := SkipBlanks(s[1..]);
    if StartsWith(t, CLOSE_OBJECT) then Some((Obj(map[]), t[1..]))
    else
      var r := ParseMembers(s[1..]);
      if r.None? then None else Some((Obj(r.value.0), r.value.1))
  }

  function ParseElems(s: Bytes): (r: Option<(seq<Value>, Bytes)>)
    ensures r.Some? ==> |r.value.1| < |s|
    decreases |s|, 3
  {
    var v := ParseValue(s);
    if v.None? then None
    else
      var t := SkipBlanks(v.value.1);
      if StartsWith(t, CLOSE_ARRAY) then Some(([v.value.0], t[1..]))
      else if StartsWith(t, COMMA) then
        var rest := ParseElems(t[1..]);
        if rest.None? then None else Some(([v.value.0] + rest.value.0, rest.value.1))
      else None
  }

  /** A key and the colon after it. */
  function ParseKey(text: Bytes): (r: Option<(Bytes, Bytes)>)
    ensures r.Some? ==> |r.value.1| < |text|
  {
    var s := SkipBlanks(text);
    if !StartsWith(s, QUOTE) then None
    else
      var key := ParseChars(s[1..]);
      if key.None? then None
      else
        var c := SkipBlanks(key.value.1);
        if StartsWith(c, COLON) then Some((Utf8.Encode(key.value.0), c[1..])) else None
  }

  /** The members of an object; of two with the same key the later one counts. */
  function ParseMembers(s: Bytes): (r: Option<(map<Bytes, Value>, Bytes)>)
    ensures r.Some? ==> |r.value.1| < |s|
    decreases |s|, 3
  {
    var key := ParseKey(s);
    if key.None? then None
    else
      var v := ParseValue(key.value.1);
      if v.None? then None
      else
        var first := map[key.value.0 := v.value.0];
        var t := SkipBlanks(v.value.1);
        if StartsWith(t, CLOSE_OBJECT) then Some((first, t[1..]))
        else if StartsWith(t, COMMA) then
          var rest := ParseMembers(t[1..]);
          if rest.None? then None else Some((first + rest.value.0, rest.value.1))
        else None
  }

  /** A JSON text: one value, and nothing but blanks after it. */
  function Parse(text: Bytes): (r: Option<Value>) {
    var v := ParseValue(text);
    if v.Some? && SkipBlanks(v.value.1) == [] then Some(v.value.0) else None
  }
}
