/** appendJSONValue, proved to write the text of the value (context_response.go). */
module JsonEncoder {
  import opened Utf8
  import opened Numbers
  import opened JsonStrings
  import opened Lexical
  import opened JsonKeys
  import opened Json
  import opened JsonNumbers

  lemma Twice(s: seq<Bytes>, i: nat, j: nat)
    requires i < j < |s| && s[i] == s[j]
    ensures multiset(s)[s[i]] >= 2
  {
    assert s == s[..j] + [s[j]] + s[j + 1..];
    assert s[i] == s[..j][i];
  }

  /** Sorted and with each key of the set once: the keys in order. */
  lemma SortedOnce(s: seq<Bytes>, ks: set<Bytes>)
    requires Sorted(s) && multiset(s) == multiset(ks)
    ensures s == InOrder(ks)
  {
    forall i, j | 0 <= i < j < |s| ensures Less(s[i], s[j]) {
      if s[i] == s[j] {
        Twice(s, i, j);
      }
      LessTotal(s[i], s[j]);
    }
    forall k ensures k in s <==> k in InOrder(ks) {
      assert k in s <==> k in multiset(s);
    }
    OneOrder(s, InOrder(ks));
  }

  /** The keys of a map, in the arbitrary order of ranging over it. */
  method CollectKeys(m: map<Bytes, Value>) returns (keys: seq<Bytes>)
    ensures multiset(keys) == multiset(m.Keys)
  {
    keys := [];
    var left := m.Keys;
    ghost var done: set<Bytes> := {};
    while left != {}
      invariant done !! left && done + left == m.Keys
      invariant multiset(keys) == multiset(done)
    {
      var k :| k in left;
      keys, left := keys + [k], left - {k};
      done := done + {k};
    }
  }

  method AppendValue(dst: Bytes, v: Value) returns (r: Bytes)
    ensures r == dst + Text(v)
    decreases v
  {
    match v {
      case Null => r := dst + NULL;
      case Bool(b) => r := dst + if b then TRUE else FALSE;
      case Num(d) => r := AppendNumber(dst, d);
      case Str(s) => r := AppendString(dst, s);
      case Arr(es) => r := AppendArray(dst, es);
      case Obj(m) => r := AppendObject(dst, v);
    }
  }

  /** strconv's integers and floats; appendJSONFloat shortens a float's exponent after it. */
  method AppendNumber(dst: Bytes, d: Decimal) returns (r: Bytes)
    ensures r == dst + DecimalText(d)
  {
    r := dst + Mantissa(d);
    if d.exp.None? {
      assert ExponentText(d) == [] && DecimalText(d) == Mantissa(d);
      return;
    }
    ghost var before := r;
    r := r + LongExponent(d.exp.value);
    r := ShortenExponent(|dst|, before, d.exp.value, r);
    Assoc(dst, Mantissa(d), ExponentText(d));
  }

  /** The cleanup of appendJSONFloat: e-0d becomes e-d, and nothing else changes. */
  method ShortenExponent(start: nat, ghost before: Bytes, ghost x: int, dst: Bytes) returns (r: Bytes)
    requires start <= |before| && dst == before + LongExponent(x)
    ensures r == before + ShortExponent(x)
  {
    r := dst;
    LongIs(before, x);
    var n := |dst|;
    if n - start >= 4 && dst[n - 4] == EXPONENT && dst[n - 3] == MINUS && dst[n - 2] == ZERO {
      r := dst[..n - 2] + [dst[n - 1]];
    }
  }

  /** The last four bytes are e-0d exactly for a negative exponent of one digit. */
  lemma LongIs(before: Bytes, x: int)
    ensures var dst := before + LongExponent(x);
      var n := |dst|;
      && n >= |before| + 4
      && (dst[n - 4] == EXPONENT && dst[n - 3] == MINUS && dst[n - 2] == ZERO <==> -10 < x < 0)
      && if -10 < x < 0 then dst[..n - 2] + [dst[n - 1]] == before + ShortExponent(x)
         else dst == before + ShortExponent(x)
  {
    var sign, m := if x < 0 then MINUS else PLUS, if x < 0 then -x else x;
    var ds := Padded(m, 2);
    PaddedAre(m, 2);
    DigitsAre(m);
    LastFour(before, sign, ds);
    if -10 < x < 0 {
      assert ds == [ZERO] + Digits(m) && Zeros(1) == [ZERO];
      ShortIs(before, Digits(m));
    }
  }

  lemma LastFour(before: Bytes, sign: Byte, ds: Bytes)
    requires |ds| >= 2
    ensures var dst := before + ([EXPONENT, sign] + ds);
      var n := |dst|;
      && n >= |before| + 4 && dst[n - 2] == ds[|ds| - 2]
      && dst[n - 3] == (if |ds| == 2 then sign else ds[|ds| - 3])
      && dst[n - 4] == (if |ds| == 2 then EXPONENT else if |ds| == 3 then sign else ds[|ds| - 4])
  {
  }

  lemma ShortIs(before: Bytes, d: Bytes)
    requires |d| == 1
    ensures var dst := before + ([EXPONENT, MINUS] + ([ZERO] + d));
      dst[..|dst| - 2] + [dst[|dst| - 1]] == before + ([EXPONENT, MINUS] + d)
  {
  }

  /** What is still to be written, with or without a comma before it. */
  ghost function Rest(comma: bool, more: Bytes): (t: Bytes) {
    if comma then [COMMA] + more else more
  }

  /** One turn of the loop: the comma, then the element, then the others. */
  lemma Moves(was: Bytes, r: Bytes, first: bool, e: Bytes, last: bool, more: Bytes, s: Bytes)
    requires r == (if first then was else was + [COMMA])
    requires s == e + (if last then [] else [COMMA]) + more
    ensures was + Rest(!first, s) == r + e + Rest(!last, more)
  {
    Parts(e, last, more);
    Assoc(r, e, Rest(!last, more));
    if !first {
      Assoc(was, [COMMA], s);
    }
  }

  lemma Parts(e: Bytes, last: bool, more: Bytes)
    ensures e + (if last then [] else [COMMA]) + more == e + Rest(!last, more)
  {
    Assoc(e, if last then [] else [COMMA], more);
    assert [] + more == more;
  }

  /** The end of the loop, and the closing bracket. */
  lemma Closes(dst: Bytes, open: Byte, body: Bytes, close: Byte, r: Bytes)
    requires r + [] == dst + [open] + body
    ensures r + [close] == dst + ([open] + body + [close])
  {
    assert r + [] == r;
  }

  method AppendArray(dst: Bytes, es: seq<Value>) returns (r: Bytes)
    ensures r == dst + Text(Arr(es))
    decreases es
  {
    r := dst + [OPEN_ARRAY];
    for i := 0 to |es|
      invariant r + Rest(0 < i < |es|, Elems(es[i..])) == dst + [OPEN_ARRAY] + Elems(es)
    {
      ghost var was := r;
      if i > 0 {
        r := r + [COMMA];
      }
      var e := AppendValue(r, es[i]);
      assert es[i..][1..] == es[i + 1..];
      Moves(was, r, i == 0, Text(es[i]), i + 1 == |es|, Elems(es[i + 1..]), Elems(es[i..]));
      r := e;
    }
    Closes(dst, OPEN_ARRAY, Elems(es), CLOSE_ARRAY, r);
    r := r + [CLOSE_ARRAY];
  }

  method AppendObject(dst: Bytes, v: Value) returns (r: Bytes)
    requires v.Obj?
    ensures r == dst + Text(v)
    decreases v, 2
  {
    var ks := SortedKeys(v.fields);
    r := AppendMembers(dst + [OPEN_OBJECT], v, ks);
    Closes(dst, OPEN_OBJECT, Members(v, ks), CLOSE_OBJECT, r);
    r := r + [CLOSE_OBJECT];
  }

  /** The keys, collected into a buffer and sorted there. */
  method SortedKeys(m: map<Bytes, Value>) returns (sorted: seq<Bytes>)
    ensures sorted == InOrder(m.Keys)
  {
    var ks := CollectKeys(m);
    var keys := new Bytes[|ks|](i requires 0 <= i < |ks| => ks[i]);
    assert keys[..] == ks;
    SortKeys(keys);
    SortedOnce(keys[..], m.Keys);
    return keys[..];
  }

  method AppendMembers(dst: Bytes, v: Value, ks: seq<Bytes>) returns (r: Bytes)
    requires v.Obj? && forall k :: k in ks ==> k in v.fields
    ensures r == dst + Members(v, ks)
    decreases v, 1
  {
    r := dst;
    for i := 0 to |ks|
      invariant r + Rest(0 < i < |ks|, Members(v, ks[i..])) == dst + Members(v, ks)
    {
      ghost var was := r;
      if i > 0 {
        r := r + [COMMA];
      }
      var e := AppendMember(r, v, ks[i]);
      NextKey(v, ks, i);
      Moves(was, r, i == 0, Member(v, ks[i]), i + 1 == |ks|, Members(v, ks[i + 1..]), Members(v, ks[i..]));
      r := e;
    }
    assert r + [] == r;
  }

  lemma NextKey(v: Value, ks: seq<Bytes>, i: nat)
    requires v.Obj? && i < |ks| && forall k :: k in ks ==> k in v.fields
    ensures Members(v, ks[i..]) == Member(v, ks[i]) + (if i + 1 == |ks| then [] else [COMMA]) + Members(v, ks[i + 1..])
  {
    assert ks[i..][1..] == ks[i + 1..] && ks[i..][0] == ks[i];
  }

  method AppendMember(dst: Bytes, v: Value, k: Bytes) returns (r: Bytes)
    requires v.Obj? && k in v.fields
    ensures r == dst + Member(v, k)
    decreases v, 0
  {
    r := dst + [QUOTE];
    r := r + k;
    r := r + [QUOTE, COLON];
    MemberHead(dst, k);
    r := AppendValue(r, v.fields[k]);
    Assoc(dst, Quoted(k) + [COLON], Text(v.fields[k]));
  }

  lemma MemberHead(dst: Bytes, k: Bytes)
    ensures dst + [QUOTE] + k + [QUOTE, COLON] == dst + (Quoted(k) + [COLON])
  {
    assert [QUOTE, COLON] == [QUOTE] + [COLON];
    Assoc(dst, [QUOTE], k);
    Assoc(dst, [QUOTE] + k, [QUOTE] + [COLON]);
    Assoc([QUOTE] + k, [QUOTE], [COLON]);
  }
}
