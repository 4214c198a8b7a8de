/** Reverse routing: buildURL and Server.URL (server.go). */
module Urls {
  import opened Wrappers
  import opened Patterns
  import opened Trees
  import opened Lookup

  function Last(s: string): (c: char)
    requires s != ""
  {
    s[|s| - 1]
  }

  /** A catch-all value joined to the URL built so far. */
  function Join(buf: string, val: string): (u: string) {
    if val == "" then (if buf != "" && Last(buf) == '/' then buf[..|buf| - 1] else buf)
    else if buf != "" && Last(buf) == '/' && val[0] == '/' then buf + val[1..]
    else buf + val
  }

  /** The URL of the pattern text s, appended to buf, and the values left over. */
  function Fill(s: string, vals: seq<string>, buf: string): (r: Option<(string, seq<string>)>)
    decreases |s|
  {
    if s == "" then Some((buf, vals))
    else if s[0] == ':' then
      if vals == [] then None else Fill(s[SegmentEnd(s)..], vals[1..], buf + vals[0])
    else if s[0] == '*' then
      if vals == [] then None else Some((Join(buf, vals[0]), vals[1..]))
    else Fill(s[1..], vals, buf + [s[0]])
  }

  /** buildURL with positional values: the loop over the pattern. */
  method BuildURL(pattern: string, params: seq<string>) returns (url: Option<string>, used: nat)
    ensures match Fill(pattern, params, "")
            case None => url == None
            case Some(r) => url == Some(r.0) && used <= |params| && params[used..] == r.1
  {
    var buf, i := "", 0;
    used := 0;
    while i < |pattern|
      invariant i <= |pattern| && used <= |params|
      invariant Fill(pattern, params, "") == Fill(pattern[i..], params[used..], buf)
      decreases |pattern| - i
    {
      var c := pattern[i];
      if c == ':' {
        ghost var at := i;
        while i < |pattern| && pattern[i] != '/'
          invariant at <= i <= |pattern|
          invariant SegmentEnd(pattern[at..]) == i - at + SegmentEnd(pattern[i..])
        {
          assert pattern[i..][1..] == pattern[i + 1..];
          i := i + 1;
        }
        if used == |params| {
          return None, used;
        }
        assert pattern[at..][i - at..] == pattern[i..];
        buf := buf + params[used];
        used := used + 1;
      } else if c == '*' {
        if used == |params| {
          return None, used;
        }
        var val := params[used];
        if val == "" {
          if buf != "" && buf[|buf| - 1] == '/' {
            buf := buf[..|buf| - 1];
          }
          assert buf + val == buf;
        } else if buf != "" && buf[|buf| - 1] == '/' && val[0] == '/' {
          val := val[1..];
        }
        return Some(buf + val), used + 1;
      } else {
        assert pattern[i..][1..] == pattern[i + 1..];
        buf := buf + [c];
        i := i + 1;
      }
    }
    return Some(buf), used;
  }

  /** Server.URL, past the lookup of the route's name: every value must be used. */
  method URL(pattern: string, params: seq<string>) returns (url: Option<string>)
    ensures url == UrlOf(pattern, params)
  {
    var u, used := BuildURL(pattern, params);
    if u.None? || used != |params| {
      return None;
    }
    return u;
  }

  function UrlOf(pattern: string, vals: seq<string>): (url: Option<string>) {
    match Fill(pattern, vals, "")
    case None => None
    case Some(r) => if r.1 == [] then Some(r.0) else None
  }

  function Values(binds: seq<Binding>): (vals: seq<string>)
    ensures |vals| == |binds|
  {
    seq(|binds|, i requires 0 <= i < |binds| => binds[i].value)
  }

  /** What the catch-all matched. */
  ghost function Tail(binds: seq<Binding>): (s: string) {
    if binds == [] || binds[|binds| - 1].value == "" then "" else binds[|binds| - 1].value[1..]
  }

  /** The URL built from buf on is buf and the path again: always without a
      catch-all; with one, exactly when it follows a '/' and matched something, or
      follows something else and matched nothing. */
  ghost predicate Rebuilds(key: Key, path: string, binds: seq<Binding>, buf: string) {
    EndsWild(key) ==>
      var n := |path| - |Tail(binds)|;
      && 0 <= n && buf + path[..n] != ""
      && (Last(buf + path[..n]) == '/' <==> Tail(binds) != "")
  }

  /** Filling the pattern text s after buf uses up the bound values, and gives buf
      and the path exactly when it should. */
  ghost predicate FillsTo(s: string, k: Key, path: string, binds: seq<Binding>, buf: string) {
    var r := Fill(s, Values(binds), buf);
    && r.Some? && r.value.1 == []
    && (r.value.0 == buf + path <==> Rebuilds(k, path, binds, buf))
  }

  lemma {:induction false} FillMatched(s: string, path: string, binds: seq<Binding>, buf: string)
    requires Matches(Tokens(s), path, binds) && buf != ""
    ensures FillsTo(s, Tokens(s), path, binds, buf)
    decreases |s|, 1
  {
    if s == "" {
      assert buf + path == buf && Values(binds) == [];
    } else if s[0] == ':' {
      MatchedParam(s, path, binds, buf);
    } else if s[0] == '*' {
      FillWild(s, path, binds, buf);
    } else {
      MatchedByte(s, path, binds, buf);
    }
  }

  lemma {:induction false} MatchedParam(s: string, path: string, binds: seq<Binding>, buf: string)
    requires Matches(Tokens(s), path, binds) && buf != "" && s != "" && s[0] == ':'
    ensures FillsTo(s, Tokens(s), path, binds, buf)
    decreases |s|, 0
  {
    var e, f := SegmentEnd(s), SegmentEnd(path);
    assert Tokens(s)[1..] == Tokens(s[e..]);
    FillMatched(s[e..], path[f..], binds[1..], buf + path[..f]);
    if EndsWild(Tokens(s)) { TailFits(Tokens(s[e..]), path[f..], binds[1..]); }
    FillParam(s, Tokens(s), path, binds, buf);
  }

  lemma {:induction false} MatchedByte(s: string, path: string, binds: seq<Binding>, buf: string)
    requires Matches(Tokens(s), path, binds) && buf != "" && s != "" && s[0] != ':' && s[0] != '*'
    ensures FillsTo(s, Tokens(s), path, binds, buf)
    decreases |s|, 0
  {
    assert Tokens(s)[1..] == Tokens(s[1..]);
    FillMatched(s[1..], path[1..], binds, buf + path[..1]);
    if EndsWild(Tokens(s)) { TailFits(Tokens(s[1..]), path[1..], binds); }
    FillByte(s, Tokens(s), path, binds, buf);
  }

  /** One step of Fill, which moves the first n characters of the path to the URL. */
  lemma FillStep(s: string, next: string, k: Key, path: string, n: nat, binds: seq<Binding>, rest: seq<Binding>,
                 buf: string)
    requires n <= |path| && k != [] && buf != ""
    requires EndsWild(k) ==> |k| > 1 && Tail(rest) == Tail(binds) && |Tail(rest)| <= |path| - n
    requires Fill(s, Values(binds), buf) == Fill(next, Values(rest), buf + path[..n])
    requires FillsTo(next, k[1..], path[n..], rest, buf + path[..n])
    ensures FillsTo(s, k, path, binds, buf)
  {
    Shift(k, path, binds, buf, n, rest);
  }

  lemma FillByte(s: string, k: Key, path: string, binds: seq<Binding>, buf: string)
    requires s != "" && s[0] != ':' && s[0] != '*' && path != "" && path[0] == s[0] && buf != "" && k != []
    requires EndsWild(k) ==> |k| > 1 && |Tail(binds)| <= |path| - 1
    requires FillsTo(s[1..], k[1..], path[1..], binds, buf + path[..1])
    ensures FillsTo(s, k, path, binds, buf)
  {
    assert path[..1] == [s[0]];
    FillStep(s, s[1..], k, path, 1, binds, binds, buf);
  }

  lemma FillParam(s: string, k: Key, path: string, binds: seq<Binding>, buf: string)
    requires s != "" && s[0] == ':' && buf != "" && binds != [] && k != []
    requires binds[0].value == path[..SegmentEnd(path)]
    requires EndsWild(k) ==> |k| > 1 && |binds| > 1 && |Tail(binds)| <= |path| - SegmentEnd(path)
    requires FillsTo(s[SegmentEnd(s)..], k[1..], path[SegmentEnd(path)..], binds[1..], buf + path[..SegmentEnd(path)])
    ensures FillsTo(s, k, path, binds, buf)
  {
    var e, f := SegmentEnd(s), SegmentEnd(path);
    assert Values(binds)[0] == path[..f] && Values(binds)[1..] == Values(binds[1..]);
    FillStep(s, s[e..], k, path, f, binds, binds[1..], buf);
  }

  lemma FillWild(s: string, path: string, binds: seq<Binding>, buf: string)
    requires s != "" && s[0] == '*' && buf != "" && |binds| == 1
    requires binds[0].value == if path == "" then "" else "/" + path
    ensures FillsTo(s, Tokens(s), path, binds, buf)
  {
    assert Values(binds)[1..] == [] && Values(binds)[0] == binds[0].value;
    if path != "" { assert Tail(binds) == path; }
    assert path[..|path| - |Tail(binds)|] == "" && buf + "" == buf;
  }

  lemma {:induction false} TailFits(key: Key, path: string, binds: seq<Binding>)
    requires Matches(key, path, binds) && EndsWild(key)
    ensures binds != [] && |Tail(binds)| <= |path|
  {
    if |key| > 1 {
      match key[0]
      case Byte(_) => TailFits(key[1..], path[1..], binds);
      case Param(_) => TailFits(key[1..], path[SegmentEnd(path)..], binds[1..]);
    }
  }

  lemma ShiftText(buf: string, path: string, n: nat, m: nat)
    requires n <= m <= |path|
    ensures buf + path[..n] + path[n..][..m - n] == buf + path[..m]
  {
  }

  /** Moving the first n characters of the path over to the URL changes nothing. */
  lemma Shift(k: Key, path: string, binds: seq<Binding>, buf: string, n: nat, rest: seq<Binding>)
    requires n <= |path| && k != [] && buf != ""
    requires EndsWild(k) ==> |k| > 1 && Tail(rest) == Tail(binds) && |Tail(rest)| <= |path| - n
    ensures buf + path[..n] + path[n..] == buf + path
    ensures Rebuilds(k[1..], path[n..], rest, buf + path[..n]) <==> Rebuilds(k, path, binds, buf)
  {
    ShiftText(buf, path, n, |path|);
    assert path[n..][..|path| - n] == path[n..] && path[..|path|] == path;
    if EndsWild(k) { ShiftText(buf, path, n, |path| - |Tail(binds)|); }
  }

  /** Search is invertible: the URL of the route found and the values bound is the
      path searched for, exactly when the catch-all (if any) allows it. */
  lemma SearchInverts(t: Tree, path: string)
    requires ValidTree(t) && Registered(t) && path != ""
    ensures var r := Resolve(t, [], path);
            r.Some? ==>
              && r.value.key in RouteKeys(t)
              && (UrlOf(t[r.value.key].fullPath, Values(r.value.binds)) == Some("/" + path) <==>
                  Rebuilds(r.value.key, path, r.value.binds, "/"))
  {
    RegisteredServes(t);
    ResolveSound(t, [], path);
    var r := Resolve(t, [], path);
    if r.Some? {
      var key, pattern := r.value.key, t[r.value.key].fullPath;
      assert key in RouteKeys(t) && key[0..] == key;
      FillMatched(pattern[1..], path, r.value.binds, "/");
      assert "" + [pattern[0]] == "/";
    }
  }

  // ---------------------------------------------------------------- what a URL is

  /** A catch-all's value follows the URL so far, less the slash that would be doubled or left
      trailing. */
  lemma JoinIs(buf: string, val: string)
    ensures Join(buf, val) ==
      (if buf != "" && Last(buf) == '/' && (val == "" || val[0] == '/') then buf[..|buf| - 1] else buf) + val
  {
    if val != "" && buf != "" && Last(buf) == '/' && val[0] == '/' {
      assert buf == buf[..|buf| - 1] + ['/'] && val == ['/'] + val[1..];
      assert buf + val[1..] == buf[..|buf| - 1] + val;
    } else if val == "" {
      assert buf[..|buf|] + val == buf;
      if buf != "" {
        assert buf[..|buf| - 1] + val == buf[..|buf| - 1];
      }
    }
  }

  ghost predicate PlainText(s: string) {
    forall i :: 0 <= i < |s| ==> s[i] != ':' && s[i] != '*'
  }

  lemma {:induction false} FillPlain(s: string, rest: string, vals: seq<string>, buf: string)
    requires PlainText(s)
    ensures Fill(s + rest, vals, buf) == Fill(rest, vals, buf + s)
  {
    if s == "" {
      assert s + rest == rest && buf + s == buf;
    } else {
      assert (s + rest)[1..] == s[1..] + rest;
      FillPlain(s[1..], rest, vals, buf + [s[0]]);
      assert buf + [s[0]] + s[1..] == buf + s;
    }
  }

  /** The URL of text with a catch-all behind it, for every value. */
  lemma UrlOfTail(s: string, name: string, val: string)
    requires PlainText(s)
    ensures UrlOf(s + (['*'] + name), [val]) ==
      Some((if s != "" && Last(s) == '/' && (val == "" || val[0] == '/') then s[..|s| - 1] else s) + val)
  {
    FillPlain(s, ['*'] + name, [val], "");
    assert "" + s == s && [val][1..] == [];
    JoinIs(s, val);
  }

  /** Values each of which is one segment. */
  ghost predicate SegmentValues(vals: seq<string>) {
    forall i :: 0 <= i < |vals| ==> vals[i] != "" && SegmentEnd(vals[i]) == |vals[i]|
  }

  /** The parameters of a pattern without a catch-all. */
  ghost function ParamCount(k: Key): (n: nat) {
    if k == [] then 0 else (if k[0].Param? then 1 else 0) + ParamCount(k[1..])
  }

  lemma {:induction false} WholeSegment(v: string, rest: string)
    requires SegmentEnd(v) == |v| && (rest == "" || rest[0] == '/')
    ensures SegmentEnd(v + rest) == |v| && (v + rest)[..|v|] == v && (v + rest)[|v|..] == rest
  {
    if v == "" {
      assert v + rest == rest;
    } else {
      assert (v + rest)[1..] == v[1..] + rest;
      WholeSegment(v[1..], rest);
    }
  }

  /** The other way round: for a pattern without a catch-all and as many values as it has
      parameters, each of them one segment, the URL is a path that matches the pattern and
      binds exactly these values. */
  lemma {:induction false} UrlMatches(s: string, vals: seq<string>, buf: string)
    returns (path: string, binds: seq<Binding>)
    requires !EndsWild(Tokens(s)) && SegmentValues(vals) && |vals| == ParamCount(Tokens(s))
    ensures Fill(s, vals, buf) == Some((buf + path, []))
    ensures Matches(Tokens(s), path, binds) && Values(binds) == vals
    ensures s != "" && s[0] == '/' ==> path != "" && path[0] == '/'
    ensures s == "" ==> path == ""
    decreases |s|
  {
    if s == "" {
      path, binds := "", [];
      assert buf + path == buf;
    } else if s[0] == ':' {
      path, binds := UrlParam(s, vals, buf);
    } else if s[0] == '*' {
      assert false;
    } else {
      assert Tokens(s)[1..] == Tokens(s[1..]) && Tokens(s)[0] == Byte(s[0]);
      NotWildOn(Tokens(s));
      var p;
      p, binds := UrlMatches(s[1..], vals, buf + [s[0]]);
      path := [s[0]] + p;
      MatchByte(s[0], Tokens(s[1..]), p, binds);
      assert buf + [s[0]] + p == buf + path && Tokens(s) == [Byte(s[0])] + Tokens(s[1..]);
    }
  }

  lemma NotWildOn(k: Key)
    requires k != [] && !EndsWild(k)
    ensures !EndsWild(k[1..])
  {
    if k[1..] != [] {
      assert k[1..][|k| - 2] == k[|k| - 1];
    }
  }

  lemma {:induction false} UrlParam(s: string, vals: seq<string>, buf: string)
    returns (path: string, binds: seq<Binding>)
    requires s != "" && s[0] == ':'
    requires !EndsWild(Tokens(s)) && SegmentValues(vals) && |vals| == ParamCount(Tokens(s))
    ensures Fill(s, vals, buf) == Some((buf + path, []))
    ensures Matches(Tokens(s), path, binds) && Values(binds) == vals
    decreases |s|, 0
  {
    var e := SegmentEnd(s);
    var name := s[1..e];
    ParamTail(s, vals);
    var p, b := UrlMatches(s[e..], vals[1..], buf + vals[0]);
    WholeSegment(vals[0], p);
    path := vals[0] + p;
    MatchParam(name, Tokens(s[e..]), path, b);
    binds := [Binding(name, vals[0])] + b;
    assert buf + vals[0] + p == buf + path;
    ValuesCons(Binding(name, vals[0]), b);
    assert [vals[0]] + vals[1..] == vals;
  }

  /** What is left of a pattern and its values behind the first parameter. */
  lemma ParamTail(s: string, vals: seq<string>)
    requires s != "" && s[0] == ':'
    requires !EndsWild(Tokens(s)) && SegmentValues(vals) && |vals| == ParamCount(Tokens(s))
    ensures var e := SegmentEnd(s);
      && e > 0 && Tokens(s) == [Param(s[1..e])] + Tokens(s[e..]) && vals != []
      && !EndsWild(Tokens(s[e..])) && SegmentValues(vals[1..]) && |vals| - 1 == ParamCount(Tokens(s[e..]))
  {
    var e := SegmentEnd(s);
    assert Tokens(s) == [Param(s[1..e])] + Tokens(s[e..]);
    assert Tokens(s)[1..] == Tokens(s[e..]) && Tokens(s)[0] == Param(s[1..e]);
    NotWildOn(Tokens(s));
  }

  lemma ValuesCons(b: Binding, bs: seq<Binding>)
    ensures Values([b] + bs) == [b.value] + Values(bs)
  {
  }

  // ---------------------------------------------------------------- how many values

  /** The parameters of a pattern, its catch-all included. */
  ghost function Holes(k: Key): (n: nat) {
    if k == [] then 0 else (if k[0].Byte? then 0 else 1) + Holes(k[1..])
  }

  lemma {:induction false} FillUses(s: string, vals: seq<string>, buf: string)
    ensures var n, r := Holes(Tokens(s)), Fill(s, vals, buf);
      (r.Some? <==> |vals| >= n) && (r.Some? ==> r.value.1 == vals[n..])
    decreases |s|
  {
    if s == "" {
      assert vals[0..] == vals;
    } else if s[0] == ':' {
      var e := SegmentEnd(s);
      assert Tokens(s)[1..] == Tokens(s[e..]) && Tokens(s)[0].Param?;
      if vals != [] {
        FillUses(s[e..], vals[1..], buf + vals[0]);
      }
    } else if s[0] == '*' {
      var none: Key := [];
      assert Tokens(s)[1..] == none;
    } else {
      assert Tokens(s)[1..] == Tokens(s[1..]) && Tokens(s)[0].Byte?;
      FillUses(s[1..], vals, buf + [s[0]]);
    }
  }

  /** A URL is built if and only if there are as many values as the pattern has parameters. */
  lemma UrlNeeds(pattern: string, vals: seq<string>)
    ensures UrlOf(pattern, vals).Some? <==> |vals| == Holes(Tokens(pattern))
  {
    FillUses(pattern, vals, "");
  }
}
