/** Parsing what the encoder wrote gives back the value (context_response.go, RFC 8259). */
module JsonRoundTrip {
  import opened Wrappers
  import opened Utf8
  import opened Numbers
  import opened JsonStrings
  import opened JsonKeys
  import opened Json
  import opened JsonNumbers

  // ---------------------------------------------------------------- strings

  lemma HexBack(d: int)
    requires 0 <= d < 16
    ensures HexValue(Hex(d)) == Some(d)
  {
  }

  lemma EscapeBack(r: Rune, rest: Bytes)
    requires Special(r)
    ensures ParseEscape(EscapeRune(r) + rest) == Some((r, |EscapeRune(r)|))
    ensures EscapeRune(r)[0] == BACKSLASH
  {
    var e := EscapeRune(r);
    var s := e + rest;
    assert forall i :: 0 <= i < |e| ==> s[i] == e[i];
    if |e| == 6 && r < 0x20 {
      HexBack(r / 16);
      HexBack(r % 16);
    }
  }

  /** One step of ParseChars: the character r, written as e. */
  lemma CharsStep(r: Rune, rest: Bytes, rs: seq<Rune>, end: Bytes)
    requires ParseChars(rest) == Some((rs, end))
    ensures ParseChars(EscapeRune(r) + rest) == Some(([r] + rs, end))
  {
    var e := EscapeRune(r);
    var s := e + rest;
    assert s[|e|..] == rest && s[0] == e[0];
    if Special(r) {
      EscapeBack(r, rest);
    } else {
      assert !NeedsEscape(e[0]);
      DecodeEncoded(r, rest);
    }
  }

  lemma {:induction false} CharsBack(rs: seq<Rune>, rest: Bytes)
    ensures ParseChars(Escape(rs) + ([QUOTE] + rest)) == Some((rs, rest))
  {
    if rs == [] {
      assert ([QUOTE] + rest)[1..] == rest;
      assert Escape(rs) + ([QUOTE] + rest) == [QUOTE] + rest;
    } else {
      Assoc(EscapeRune(rs[0]), Escape(rs[1..]), [QUOTE] + rest);
      CharsBack(rs[1..], rest);
      CharsStep(rs[0], Escape(rs[1..]) + ([QUOTE] + rest), rs[1..], rest);
      assert [rs[0]] + rs[1..] == rs;
    }
  }

  lemma StringBack(s: Bytes, rest: Bytes)
    requires Valid(s)
    ensures var p := ParseChars(EscapeBytes(s) + ([QUOTE] + rest));
      p.Some? && Utf8.Encode(p.value.0) == s && p.value.1 == rest
  {
    EncodeRunes(s);
    ScannerMatchesRunes(Runes(s));
    CharsBack(Runes(s), rest);
  }

  // ---------------------------------------------------------------- values

  /** What an encoded value starts with: never a blank or a closing bracket. */
  lemma Starts(v: Value)
    ensures var e := Text(v); |e| > 0 && !Blank(e[0]) && e[0] != CLOSE_ARRAY && e[0] != CLOSE_OBJECT
    ensures !v.Arr? ==> Text(v)[0] != OPEN_ARRAY
    ensures !v.Obj? ==> Text(v)[0] != OPEN_OBJECT
  {
    if v.Num? {
      NumberStarts(v.d);
    }
  }

  lemma {:induction false} ValueBack(v: Value, rest: Bytes)
    requires Safe(v) && Ends(rest)
    ensures ParseValue(Text(v) + rest) == Some((v, rest))
    decreases v
  {
    var s := Text(v) + rest;
    Starts(v);
    assert s[0] == Text(v)[0];
    match v
    case Arr(es) => ArrayBack(es, rest);
    case Obj(m) => ObjectBack(v, rest);
    case _ => AtomBack(v, rest);
  }

  lemma AtomBack(v: Value, rest: Bytes)
    requires !v.Arr? && !v.Obj? && Safe(v) && Ends(rest)
    ensures ParseAtom(Text(v) + rest) == Some((v, rest))
  {
    match v
    case Num(d) => NumBack(d, rest);
    case Str(t) => StrBack(t, rest);
    case _ => LiteralBack(v, rest);
  }

  lemma NumBack(d: Decimal, rest: Bytes)
    requires Ends(rest)
    ensures ParseAtom(DecimalText(d) + rest) == Some((Num(d), rest))
  {
    var s := DecimalText(d) + rest;
    NumberBack(d, rest);
    NumberStarts(d);
    assert s[0] == DecimalText(d)[0];
    NumberStep(s);
  }

  lemma StrBack(t: Bytes, rest: Bytes)
    requires Valid(t)
    ensures ParseAtom(Quoted(EscapeBytes(t)) + rest) == Some((Str(t), rest))
  {
    QuotedParts(EscapeBytes(t), rest);
    StrStep(EscapeBytes(t) + ([QUOTE] + rest));
    StringBack(t, rest);
  }

  lemma QuotedParts(x: Bytes, rest: Bytes)
    ensures Quoted(x) + rest == [QUOTE] + (x + ([QUOTE] + rest))
  {
    Assoc([QUOTE] + x, [QUOTE], rest);
    Assoc([QUOTE], x, [QUOTE] + rest);
  }

  lemma StrStep(u: Bytes)
    ensures ParseAtom([QUOTE] + u) ==
      var r := ParseChars(u);
      if r.None? then None else Some((Str(Utf8.Encode(r.value.0)), r.value.1))
  {
    assert ([QUOTE] + u)[1..] == u;
  }

  lemma LiteralBack(v: Value, rest: Bytes)
    requires v.Null? || v.Bool?
    ensures ParseAtom(Text(v) + rest) == Some((v, rest))
  {
    var e := Text(v);
    var s := e + rest;
    assert e <= s && s[|e|..] == rest;
    assert s[0] == e[0] && s[1] == e[1];
  }

  lemma NumberStep(s: Bytes)
    requires s != [] && (IsDigit(s[0]) || s[0] == MINUS)
    ensures !(NULL <= s) && !(TRUE <= s) && !(FALSE <= s) && s[0] != QUOTE
  {
  }

  lemma {:induction false} ArrayBack(es: seq<Value>, rest: Bytes)
    requires forall i :: 0 <= i < |es| ==> Safe(es[i])
    ensures StartsWith(Text(Arr(es)) + rest, OPEN_ARRAY)
    ensures ParseArray(Text(Arr(es)) + rest) == Some((Arr(es), rest))
    decreases es, 1
  {
    var s := Text(Arr(es)) + rest;
    var t := Elems(es) + [CLOSE_ARRAY] + rest;
    assert s[0] == OPEN_ARRAY && s[1..] == t;
    if es == [] {
      assert t[0] == CLOSE_ARRAY && t[1..] == rest;
    } else {
      ElemsBack(es, rest);
      Starts(es[0]);
      assert t[0] == Text(es[0])[0];
    }
  }

  /** What follows an element or a member: the comma and the rest of them, or the bracket. */
  function Then(last: bool, close: Byte, more: Bytes, rest: Bytes): (t: Bytes) {
    if last then [close] + rest else [COMMA] + (more + [close] + rest)
  }

  lemma ThenIs(last: bool, close: Byte, more: Bytes, rest: Bytes)
    requires close == CLOSE_ARRAY || close == CLOSE_OBJECT
    ensures var t := Then(last, close, more, rest);
      && t != [] && Ends(t)
      && if last then t == [close] + rest else t[0] == COMMA && t[1..] == more + [close] + rest
  {
    assert ([COMMA] + (more + [close] + rest))[1..] == more + [close] + rest;
  }

  lemma ElemsFirst(es: seq<Value>, rest: Bytes)
    requires es != []
    ensures Elems(es) + [CLOSE_ARRAY] + rest
         == Text(es[0]) + Then(|es| == 1, CLOSE_ARRAY, Elems(es[1..]), rest)
  {
    ElemsAre(es);
    ThenFirst(Elems(es), Text(es[0]), |es| == 1, CLOSE_ARRAY, Elems(es[1..]), rest);
  }

  lemma ElemsAre(es: seq<Value>)
    requires es != []
    ensures Elems(es) == if |es| == 1 then Text(es[0]) else Text(es[0]) + [COMMA] + Elems(es[1..])
  {
    if |es| == 1 {
      assert Text(es[0]) + [] == Text(es[0]);
    }
  }

  lemma ThenFirst(all: Bytes, e: Bytes, last: bool, close: Byte, more: Bytes, rest: Bytes)
    requires all == if last then e else e + [COMMA] + more
    ensures all + [close] + rest == e + Then(last, close, more, rest)
  {
    if last {
      Assoc(e, [close], rest);
    } else {
      ThenMore(e, close, more, rest);
    }
  }

  lemma ThenMore(e: Bytes, close: Byte, more: Bytes, rest: Bytes)
    ensures e + [COMMA] + more + [close] + rest == e + Then(false, close, more, rest)
  {
    Assoc(e + [COMMA], more, [close]);
    Assoc(e + [COMMA], more + [close], rest);
    Assoc(e, [COMMA], more + [close] + rest);
  }

  /** One step of ParseElems. */
  lemma ElemsStep(s: Bytes, v: Value, t: Bytes, vs: seq<Value>, rest: Bytes)
    requires ParseValue(s) == Some((v, t)) && t != []
    requires if vs == [] then t == [CLOSE_ARRAY] + rest
             else t[0] == COMMA && ParseElems(t[1..]) == Some((vs, rest))
    ensures ParseElems(s) == Some(([v] + vs, rest))
  {
    assert vs == [] ==> t[1..] == rest && [v] + vs == [v];
  }

  lemma ElemsJoin(es: seq<Value>, t: Bytes, rest: Bytes)
    requires es != [] && t == Then(|es| == 1, CLOSE_ARRAY, Elems(es[1..]), rest)
    requires ParseValue(Text(es[0]) + t) == Some((es[0], t))
    requires |es| > 1 ==> ParseElems(Elems(es[1..]) + [CLOSE_ARRAY] + rest) == Some((es[1..], rest))
    ensures ParseElems(Text(es[0]) + t) == Some((es, rest))
  {
    ThenIs(|es| == 1, CLOSE_ARRAY, Elems(es[1..]), rest);
    var v, vs := es[0], es[1..];
    assert es == [v] + vs;
    ElemsStep(Text(v) + t, v, t, vs, rest);
  }

  lemma {:induction false} ElemsBack(es: seq<Value>, rest: Bytes)
    requires es != [] && forall i :: 0 <= i < |es| ==> Safe(es[i])
    ensures ParseElems(Elems(es) + [CLOSE_ARRAY] + rest) == Some((es, rest))
    decreases es, 0
  {
    var t := Then(|es| == 1, CLOSE_ARRAY, Elems(es[1..]), rest);
    ThenIs(|es| == 1, CLOSE_ARRAY, Elems(es[1..]), rest);
    ValueBack(es[0], t);
    if |es| > 1 {
      ElemsBack(es[1..], rest);
    }
    ElemsJoin(es, t, rest);
    ElemsFirst(es, rest);
  }

  lemma {:induction false} ObjectBack(v: Value, rest: Bytes)
    requires v.Obj? && Safe(v)
    ensures StartsWith(Text(v) + rest, OPEN_OBJECT)
    ensures ParseObject(Text(v) + rest) == Some((v, rest))
    decreases v, 1
  {
    var ks := InOrder(v.fields.Keys);
    var t := Members(v, ks) + [CLOSE_OBJECT] + rest;
    PickedAll(v);
    if ks == [] {
      assert t == [CLOSE_OBJECT] + rest;
    } else {
      MembersBack(v, ks, rest);
      MembersFirst(v, ks, rest);
    }
    ObjectStep(t, v.fields, rest);
    Assoc([OPEN_OBJECT], Members(v, ks), [CLOSE_OBJECT]);
    Assoc([OPEN_OBJECT], Members(v, ks) + [CLOSE_OBJECT], rest);
  }

  lemma ObjectStep(t: Bytes, m: map<Bytes, Value>, rest: Bytes)
    requires if m == map[] then t == [CLOSE_OBJECT] + rest
             else StartsWith(t, QUOTE) && ParseMembers(t) == Some((m, rest))
    ensures ParseObject([OPEN_OBJECT] + t) == Some((Obj(m), rest))
  {
    assert ([OPEN_OBJECT] + t)[1..] == t;
    assert m == map[] ==> t[1..] == rest;
  }

  lemma PickedAll(v: Value)
    requires v.Obj?
    ensures Picked(v, InOrder(v.fields.Keys)) == v.fields
    ensures InOrder(v.fields.Keys) == [] <==> v.fields == map[]
  {
    assert |v.fields| == |v.fields.Keys|;
  }

  /** The fields of v with the given keys. */
  ghost function Picked(v: Value, ks: seq<Bytes>): (m: map<Bytes, Value>)
    requires v.Obj? && forall k :: k in ks ==> k in v.fields
  {
    map k | k in ks :: v.fields[k]
  }

  lemma KeyBack(k: Bytes, t: Bytes)
    requires SafeKey(k)
    ensures ParseKey(Quoted(k) + [COLON] + t) == Some((k, t))
  {
    var s := Quoted(k) + [COLON] + t;
    assert s[0] == QUOTE && s[1..] == k + ([QUOTE] + ([COLON] + t));
    StringBack(k, [COLON] + t);
    assert ([COLON] + t)[1..] == t;
  }

  lemma MembersFirst(v: Value, ks: seq<Bytes>, rest: Bytes)
    requires v.Obj? && ks != [] && forall k :: k in ks ==> k in v.fields
    ensures Members(v, ks) + [CLOSE_OBJECT] + rest
         == Quoted(ks[0]) + [COLON] +
            (Text(v.fields[ks[0]]) + Then(|ks| == 1, CLOSE_OBJECT, Members(v, ks[1..]), rest))
  {
    var q, e, more := Quoted(ks[0]) + [COLON], Text(v.fields[ks[0]]), Members(v, ks[1..]);
    if |ks| == 1 {
      assert Members(v, ks) == q + e;
      Assoc(q + e, [CLOSE_OBJECT], rest);
      Assoc(q, e, [CLOSE_OBJECT] + rest);
    } else {
      var x := q + e + [COMMA];
      Assoc(x, more, [CLOSE_OBJECT]);
      Assoc(x, more + [CLOSE_OBJECT], rest);
      Assoc(q + e, [COMMA], more + [CLOSE_OBJECT] + rest);
      Assoc(q, e, [COMMA] + (more + [CLOSE_OBJECT] + rest));
    }
  }

  /** One step of ParseMembers. */
  lemma MembersStep(s: Bytes, k: Bytes, u: Bytes, v: Value, t: Bytes, m: map<Bytes, Value>, last: bool, rest: Bytes)
    requires ParseKey(s) == Some((k, u)) && ParseValue(u) == Some((v, t)) && t != []
    requires if last then t == [CLOSE_OBJECT] + rest && m == map[]
             else t[0] == COMMA && ParseMembers(t[1..]) == Some((m, rest))
    ensures ParseMembers(s) == Some((map[k := v] + m, rest))
  {
    assert last ==> t[1..] == rest && map[k := v] + m == map[k := v];
  }

  lemma {:induction false} MembersBack(v: Value, ks: seq<Bytes>, rest: Bytes)
    requires v.Obj? && Safe(v) && ks != [] && forall k :: k in ks ==> k in v.fields
    ensures ParseMembers(Members(v, ks) + [CLOSE_OBJECT] + rest) == Some((Picked(v, ks), rest))
    decreases v, 0, |ks|
  {
    var k := ks[0];
    var t := Then(|ks| == 1, CLOSE_OBJECT, Members(v, ks[1..]), rest);
    var u := Text(v.fields[k]) + t;
    ThenIs(|ks| == 1, CLOSE_OBJECT, Members(v, ks[1..]), rest);
    MembersFirst(v, ks, rest);
    KeyBack(k, u);
    ValueBack(v.fields[k], t);
    if |ks| > 1 {
      MembersBack(v, ks[1..], rest);
    }
    MembersStep(Quoted(k) + [COLON] + u, k, u, v.fields[k], t, Picked(v, ks[1..]), |ks| == 1, rest);
    PickedStep(v, ks);
  }

  lemma PickedStep(v: Value, ks: seq<Bytes>)
    requires v.Obj? && ks != [] && forall k :: k in ks ==> k in v.fields
    ensures Picked(v, ks) == map[ks[0] := v.fields[ks[0]]] + Picked(v, ks[1..])
    ensures |ks| == 1 ==> Picked(v, ks[1..]) == map[]
  {
  }

  /** The literals and brackets of JSON. */
  lemma LiteralsAre()
    ensures Text(Null) == Ascii("null") && Text(Bool(true)) == Ascii("true") && Text(Bool(false)) == Ascii("false")
    ensures Text(Arr([Null, Null])) == Ascii("[null,null]") && Text(Obj(map[])) == Ascii("{}")
    ensures Text(Str([])) == Ascii("\"\"")
  {
    var es := [Null, Null];
    var none: seq<Value> := [];
    assert es[1..] == [Null] && [Null][1..] == none;
    assert Elems([Null]) == NULL && Elems(es) == NULL + [COMMA] + NULL;
    var m: map<Bytes, Value> := map[];
    assert m.Keys == {};
  }

  /** A string comes back if and only if it is UTF-8, which is why others are refused. */
  lemma OnlyValidBack(s: Bytes)
    ensures Parse(Text(Str(s))) == Some(Str(s)) <==> Valid(s)
  {
    if Valid(s) {
      RoundTrip(Str(s));
    } else {
      ReadsValid(EscapeBytes(s));
    }
  }

  /** What is read as a string is UTF-8. */
  lemma ReadsValid(x: Bytes)
    ensures var r := Parse(Quoted(x)); r.Some? && r.value.Str? ==> Valid(r.value.s)
  {
    QuotedParts(x, []);
    assert Quoted(x) + [] == Quoted(x);
    var u := x + ([QUOTE] + []);
    StrStep(u);
    assert ([QUOTE] + u)[0] == QUOTE;
    var p := ParseChars(u);
    if p.Some? {
      RunesEncoded(p.value.0);
    }
  }

  /** Every value of the fast path comes back whole, with nothing left over. */
  lemma RoundTrip(v: Value)
    requires Safe(v)
    ensures Parse(Text(v)) == Some(v)
  {
    assert Text(v) + [] == Text(v);
    ValueBack(v, []);
  }
}
