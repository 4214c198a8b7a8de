/** UTF-8 as sections 3 and 4 of RFC 3629 define it. */
module Utf8 {
  import opened Wrappers

  type Byte = b: int | 0 <= b < 256
  type Bytes = seq<Byte>

  /** A Unicode scalar value: any code point but the surrogates. */
  type Rune = r: int | 0 <= r < 0xD800 || 0xE000 <= r < 0x110000

  function EncodeRune(r: Rune): (s: Bytes)
    ensures 1 <= |s| <= 4
  {
    if r < 0x80 then [r]
    else if r < 0x800 then [0xC0 + r / 64, 0x80 + r % 64]
    else if r < 0x10000 then [0xE0 + r / 64 / 64, 0x80 + r / 64 % 64, 0x80 + r % 64]
    else [0xF0 + r / 64 / 64 / 64, 0x80 + r / 64 / 64 % 64, 0x80 + r / 64 % 64, 0x80 + r % 64]
  }

  function Encode(rs: seq<Rune>): (s: Bytes) {
    if rs == [] then [] else EncodeRune(rs[0]) + Encode(rs[1..])
  }

  /** UTF8-tail. */
  predicate Tail(s: Bytes, i: nat) {
    i < |s| && 0x80 <= s[i] < 0xC0
  }

  predicate Two(s: Bytes) {
    |s| > 0 && 0xC2 <= s[0] < 0xE0 && Tail(s, 1)
  }

  predicate Three(s: Bytes) {
    |s| > 0 && 0xE0 <= s[0] < 0xF0 && Tail(s, 1) && Tail(s, 2)
    && (s[0] == 0xE0 ==> s[1] >= 0xA0) && (s[0] == 0xED ==> s[1] < 0xA0)
  }

  predicate Four(s: Bytes) {
    |s| > 0 && 0xF0 <= s[0] < 0xF5 && Tail(s, 1) && Tail(s, 2) && Tail(s, 3)
    && (s[0] == 0xF0 ==> s[1] >= 0x90) && (s[0] == 0xF4 ==> s[1] < 0x90)
  }

  function Join(high: int, low: int): (n: int) {
    high * 64 + low - 0x80
  }

  /** The character at the start of s, by the syntax of section 4; None if there is none. */
  function DecodeRune(s: Bytes): (r: Option<Rune>) {
    if s == [] then None
    else if s[0] < 0x80 then Some(s[0])
    else if Two(s) then Some(Join(s[0] - 0xC0, s[1]))
    else if Three(s) then Some(Join(Join(s[0] - 0xE0, s[1]), s[2]))
    else if Four(s) then Some(Join(Join(Join(s[0] - 0xF0, s[1]), s[2]), s[3]))
    else None
  }

  lemma DecodeEncoded(r: Rune, rest: Bytes)
    ensures DecodeRune(EncodeRune(r) + rest) == Some(r)
  {
    var s := EncodeRune(r) + rest;
    if r >= 0x10000 {
      assert s[0] == 0xF0 + r / 64 / 64 / 64 && s[1] == 0x80 + r / 64 / 64 % 64
             && s[2] == 0x80 + r / 64 % 64 && s[3] == 0x80 + r % 64;
    }
  }

  lemma EncodeDecoded(s: Bytes)
    requires DecodeRune(s).Some?
    ensures EncodeRune(DecodeRune(s).value) <= s
  {
    if Four(s) {
      var a, b, c := s[0] - 0xF0, Join(s[0] - 0xF0, s[1]), Join(Join(s[0] - 0xF0, s[1]), s[2]);
      var r := DecodeRune(s).value;
      assert r / 64 == c && c / 64 == b && b / 64 == a;
    } else if Three(s) {
      var a, b := s[0] - 0xE0, Join(s[0] - 0xE0, s[1]);
      var r := DecodeRune(s).value;
      assert r / 64 == b && b / 64 == a;
    }
  }

  /** s is a sequence of UTF-8 characters. */
  predicate Valid(s: Bytes) {
    s == [] || (DecodeRune(s).Some? && var n := |EncodeRune(DecodeRune(s).value)|; n <= |s| && Valid(s[n..]))
  }

  function Runes(s: Bytes): (rs: seq<Rune>)
    requires Valid(s)
  {
    if s == [] then [] else var r := DecodeRune(s).value; [r] + Runes(s[|EncodeRune(r)|..])
  }

  lemma {:induction false} EncodeRunes(s: Bytes)
    requires Valid(s)
    ensures Encode(Runes(s)) == s
  {
    if s != [] {
      EncodeDecoded(s);
      var n := |EncodeRune(DecodeRune(s).value)|;
      EncodeRunes(s[n..]);
      assert Runes(s)[1..] == Runes(s[n..]);
    }
  }

  lemma {:induction false} RunesEncoded(rs: seq<Rune>)
    ensures Valid(Encode(rs)) && Runes(Encode(rs)) == rs
  {
    if rs != [] {
      var s := Encode(rs);
      DecodeEncoded(rs[0], Encode(rs[1..]));
      assert s[|EncodeRune(rs[0])|..] == Encode(rs[1..]);
      RunesEncoded(rs[1..]);
    }
  }

  lemma Assoc(a: Bytes, b: Bytes, c: Bytes)
    ensures (a + b) + c == a + (b + c)
  {
  }
}
