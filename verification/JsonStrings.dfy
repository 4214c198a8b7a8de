/** JSON string escaping by bytes, as the encoder does it, and by characters, as section 7
    of RFC 8259 speaks of it (context_response.go). */
module JsonStrings {
  import opened Wrappers
  import opened Utf8

  const QUOTE: Byte := 0x22
  const BACKSLASH: Byte := 0x5C

  predicate NeedsEscape(b: int) {
    b < 0x20 || b == QUOTE || b == BACKSLASH
  }

  function Hex(d: int): (b: Byte)
    requires 0 <= d < 16
  {
    if d < 10 then 0x30 + d else 0x61 + d - 10
  }

  /** appendJSONEscapeByte: the two-character forms where there is one, \u00XX otherwise. */
  function EscapeByte(b: Byte): (s: Bytes)
    requires NeedsEscape(b)
  {
    if b == QUOTE || b == BACKSLASH then [BACKSLASH, b]
    else if b == 0x0A then [BACKSLASH, 0x6E]
    else if b == 0x0D then [BACKSLASH, 0x72]
    else if b == 0x09 then [BACKSLASH, 0x74]
    else if b == 0x08 then [BACKSLASH, 0x62]
    else if b == 0x0C then [BACKSLASH, 0x66]
    else [BACKSLASH, 0x75, 0x30, 0x30, Hex(b / 16), Hex(b % 16)]
  }

  /** The three bytes of U+2028 or U+2029. */
  predicate Separator(s: Bytes) {
    |s| > 2 && s[0] == 0xE2 && s[1] == 0x80 && (s[2] == 0xA8 || s[2] == 0xA9)
  }

  /** The \uXXXX form of a separator. */
  function EscapeSeparator(last: Byte): (s: Bytes)
    requires last == 0xA8 || last == 0xA9
  {
    [BACKSLASH, 0x75, 0x32, 0x30, 0x32, if last == 0xA8 then 0x38 else 0x39]
  }

  /** What the byte scanner emits between the quotes, on any bytes. */
  function EscapeBytes(s: Bytes): (e: Bytes) {
    if s == [] then []
    else if NeedsEscape(s[0]) then EscapeByte(s[0]) + EscapeBytes(s[1..])
    else if Separator(s) then EscapeSeparator(s[2]) + EscapeBytes(s[3..])
    else [s[0]] + EscapeBytes(s[1..])
  }

  /** appendJSONString: spans of bytes that need no escape are copied at once. */
  method AppendString(dst: Bytes, s: Bytes) returns (r: Bytes)
    ensures r == dst + [QUOTE] + EscapeBytes(s) + [QUOTE]
  {
    r := dst + [QUOTE];
    ghost var done: Bytes := [];
    var start, i := 0, 0;
    while i < |s|
      invariant 0 <= start <= i <= |s|
      invariant r + s[start..i] == dst + [QUOTE] + done
      invariant done + EscapeBytes(s[i..]) == EscapeBytes(s)
    {
      var b := s[i];
      if b < 0x80 {
        if NeedsEscape(b) {
          r := r + s[start..i];
          r := r + EscapeByte(b);
          done := Step(dst, done, EscapeByte(b), s, i, i + 1);
          i := i + 1;
          start := i;
          NoSpan(r, s, i);
          continue;
        }
        LongerSpan(r, s, start, i);
        done := Step(dst, done, [b], s, i, i + 1);
        i := i + 1;
        continue;
      }
      if b == 0xE2 && i + 2 < |s| && s[i + 1] == 0x80 && (s[i + 2] == 0xA8 || s[i + 2] == 0xA9) {
        r := r + s[start..i];
        r := r + EscapeSeparator(s[i + 2]);
        done := Step(dst, done, EscapeSeparator(s[i + 2]), s, i, i + 3);
        i := i + 3;
        start := i;
        NoSpan(r, s, i);
        continue;
      }
      LongerSpan(r, s, start, i);
      done := Step(dst, done, [b], s, i, i + 1);
      i := i + 1;
    }
    LastSpan(r, dst, done, s, start);
    r := r + s[start..];
    r := r + [QUOTE];
  }

  lemma LastSpan(r: Bytes, dst: Bytes, done: Bytes, s: Bytes, start: nat)
    requires start <= |s| && r + s[start..|s|] == dst + [QUOTE] + done
    requires done + EscapeBytes(s[|s|..]) == EscapeBytes(s)
    ensures r + s[start..] == dst + [QUOTE] + EscapeBytes(s)
  {
    assert s[start..|s|] == s[start..] && s[|s|..] == [];
    assert done + [] == done;
  }

  lemma NoSpan(r: Bytes, s: Bytes, i: nat)
    requires i <= |s|
    ensures r + s[i..i] == r
  {
  }

  lemma LongerSpan(r: Bytes, s: Bytes, start: nat, i: nat)
    requires start <= i < |s|
    ensures r + s[start..i + 1] == r + s[start..i] + [s[i]]
  {
  }

  /** One step of the scanner: e is what the bytes from i to j become. */
  lemma Step(dst: Bytes, was: Bytes, e: Bytes, s: Bytes, i: nat, j: nat) returns (done: Bytes)
    requires i < j <= |s|
    requires if NeedsEscape(s[i]) then j == i + 1 && e == EscapeByte(s[i])
             else if Separator(s[i..]) then j == i + 3 && e == EscapeSeparator(s[i + 2])
             else j == i + 1 && e == [s[i]]
    ensures done + EscapeBytes(s[j..]) == was + EscapeBytes(s[i..])
    ensures dst + [QUOTE] + done == dst + [QUOTE] + was + e
  {
    done := was + e;
    assert s[i..][j - i..] == s[j..];
    assert (was + e) + EscapeBytes(s[j..]) == was + (e + EscapeBytes(s[j..]));
  }

  // ---------------------------------------------------------------- by characters

  predicate Special(r: Rune) {
    NeedsEscape(r) || r == 0x2028 || r == 0x2029
  }

  function EscapeRune(r: Rune): (e: Bytes) {
    if NeedsEscape(r) then EscapeByte(r)
    else if r == 0x2028 then EscapeSeparator(0xA8)
    else if r == 0x2029 then EscapeSeparator(0xA9)
    else EncodeRune(r)
  }

  /** The escapes of encoding/json: quote, backslash, the control characters and the two line
      separators, in their short forms where they have one; nothing else is escaped. */
  lemma EscapesAre(r: Rune)
    ensures Special(r) <==> r < 0x20 || r == 0x22 || r == 0x5C || r == 0x2028 || r == 0x2029
    ensures r == 0x22 || r == 0x5C ==> EscapeRune(r) == [0x5C, r]
    ensures EscapeRune(0x08) == [0x5C, 0x62] && EscapeRune(0x0C) == [0x5C, 0x66]
    ensures EscapeRune(0x0A) == [0x5C, 0x6E] && EscapeRune(0x0D) == [0x5C, 0x72] && EscapeRune(0x09) == [0x5C, 0x74]
    ensures r < 0x20 && r !in {0x08, 0x09, 0x0A, 0x0C, 0x0D} ==>
      EscapeRune(r) == [0x5C, 0x75, 0x30, 0x30, 0x30 + r / 16, if r % 16 < 10 then 0x30 + r % 16 else 0x57 + r % 16]
    ensures !Special(r) ==> EscapeRune(r) == EncodeRune(r)
  {
  }

  function Escape(rs: seq<Rune>): (e: Bytes) {
    if rs == [] then [] else EscapeRune(rs[0]) + Escape(rs[1..])
  }

  /** Bytes that are neither special nor the start of a separator are copied. */
  lemma {:induction false} Copied(p: Bytes, rest: Bytes)
    requires forall i :: 0 <= i < |p| ==> !NeedsEscape(p[i]) && p[i] != 0xE2
    ensures EscapeBytes(p + rest) == p + EscapeBytes(rest)
  {
    if p == [] {
      assert p + rest == rest;
    } else {
      assert (p + rest)[1..] == p[1..] + rest;
      Copied(p[1..], rest);
      assert p == [p[0]] + p[1..];
    }
  }

  lemma ScanRune(r: Rune, rest: Bytes)
    ensures EscapeBytes(EncodeRune(r) + rest) == EscapeRune(r) + EscapeBytes(rest)
  {
    var p := EncodeRune(r);
    var s := p + rest;
    if r < 0x80 {
      assert s[1..] == rest;
    } else if p[0] == 0xE2 {
      assert |p| == 3 && s[0] == p[0] && s[1] == p[1] && s[2] == p[2];
      if Special(r) {
        assert s[3..] == rest;
      } else {
        assert s[1..] == p[1..] + rest;
        Copied(p[1..], rest);
        assert p == [p[0]] + p[1..];
      }
    } else {
      Copied(p, rest);
    }
  }

  /** On UTF-8 the byte scanner escapes exactly the characters the reference does. */
  lemma {:induction false} ScannerMatchesRunes(rs: seq<Rune>)
    ensures EscapeBytes(Encode(rs)) == Escape(rs)
  {
    if rs != [] {
      ScanRune(rs[0], Encode(rs[1..]));
      ScannerMatchesRunes(rs[1..]);
    }
  }

  // ---------------------------------------------------------------- classification

  datatype Class = Verbatim | Escaped | Bail

  /** No character is escaped. */
  predicate Plain(rs: seq<Rune>) {
    rs == [] || (!Special(rs[0]) && Plain(rs[1..]))
  }

  lemma {:induction false} EscapeGrows(rs: seq<Rune>)
    ensures |Escape(rs)| >= |Encode(rs)|
    ensures Plain(rs) ==> Escape(rs) == Encode(rs)
    ensures !Plain(rs) ==> |Escape(rs)| > |Encode(rs)|
  {
    if rs != [] {
      EscapeGrows(rs[1..]);
    }
  }

  /** The string is copied as it is exactly when no character of it is special. */
  lemma VerbatimWhenPlain(s: Bytes)
    requires Valid(s)
    ensures EscapeBytes(s) == s <==> Plain(Runes(s))
  {
    EncodeRunes(s);
    ScannerMatchesRunes(Runes(s));
    EscapeGrows(Runes(s));
  }

  /** Valid, and no character is special. */
  predicate PlainBytes(s: Bytes) {
    s == [] ||
    (DecodeRune(s).Some? && !Special(DecodeRune(s).value) &&
     var n := |EncodeRune(DecodeRune(s).value)|; n <= |s| && PlainBytes(s[n..]))
  }

  lemma {:induction false} PlainBytesArePlain(s: Bytes)
    ensures PlainBytes(s) <==> Valid(s) && Plain(Runes(s))
  {
    if s != [] && DecodeRune(s).Some? {
      EncodeDecoded(s);
      var rest := s[|EncodeRune(DecodeRune(s).value)|..];
      PlainBytesArePlain(rest);
      if Valid(s) {
        assert Runes(s)[1..] == Runes(rest);
      }
    }
  }

  /** jsonClassifyString. */
  method Classify(s: Bytes) returns (kind: Class)
    ensures kind == Bail <==> !Valid(s)
    ensures kind == Verbatim <==> Valid(s) && EscapeBytes(s) == s
  {
    kind := Verbatim;
    var i := 0;
    while i < |s|
      invariant 0 <= i <= |s| && kind != Bail
      invariant Valid(s) <==> Valid(s[i..])
      invariant PlainBytes(s) <==> kind == Verbatim && PlainBytes(s[i..])
    {
      var b := s[i];
      ghost var tail := s[i..];
      if NeedsEscape(b) {
        kind := Escaped;
        i := i + 1;
        assert tail[1..] == s[i..];
        continue;
      }
      if b < 0x80 {
        i := i + 1;
        assert tail[1..] == s[i..];
        continue;
      }
      var r := DecodeRune(s[i..]);
      if r.None? {
        return Bail;
      }
      EncodeDecoded(tail);
      var size := |EncodeRune(r.value)|;
      if r.value == 0x2028 || r.value == 0x2029 {
        kind := Escaped;
      }
      i := i + size;
      assert tail[size..] == s[i..];
    }
    assert s[i..] == [];
    PlainBytesArePlain(s);
    if Valid(s) {
      VerbatimWhenPlain(s);
    }
  }
}
