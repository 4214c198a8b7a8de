/** Cleaning request paths and validating patterns (router_tree.go, router.go). */
module Paths {
  import opened Patterns

  predicate NoDouble(s: string) {
    forall i :: 1 <= i < |s| ==> !(s[i] == '/' && s[i - 1] == '/')
  }

  /** s without every '/' that follows another. */
  function Collapse(s: string): (r: string) {
    if |s| <= 1 then s
    else
      var n := |s| - 1;
      if s[n] == '/' && s[n - 1] == '/' then Collapse(s[..n]) else Collapse(s[..n]) + [s[n]]
  }

  function Clean(path: string): (r: string) {
    if path == "" then "/"
    else if NoDouble(path) then path
    else
      var c := Collapse(path);
      if |c| > 1 && c[|c| - 1] == '/' then c[..|c| - 1] else c
  }

  lemma {:induction false} CollapseNoDouble(s: string)
    ensures NoDouble(Collapse(s))
    ensures s != "" ==> Collapse(s) != "" && Collapse(s)[|Collapse(s)| - 1] == s[|s| - 1]
    ensures s != "" ==> Collapse(s)[0] == s[0]
  {
    if |s| > 1 { CollapseNoDouble(s[..|s| - 1]); }
  }

  /** A cleaned path is never empty, has no double slash, and cleaning it again
      changes nothing. */
  lemma CleanIsClean(path: string)
    ensures Clean(path) != "" && NoDouble(Clean(path)) && Clean(Clean(path)) == Clean(path)
    ensures path != "" ==> Clean(path)[0] == path[0]
    ensures path != "" && NoDouble(path) ==> Clean(path) == path
    ensures !NoDouble(path) ==> Clean(path)[|Clean(path)| - 1] != '/' || Clean(path) == "/"
  {
    CollapseNoDouble(path);
  }

  /** The segments of a path, without the empty ones. */
  function Parts(s: string): (ps: seq<string>)
    ensures s != "" && s[|s| - 1] != '/' ==> ps != []
  {
    if s == "" then []
    else
      var n := |s| - 1;
      var ps := Parts(s[..n]);
      if s[n] == '/' then ps
      else if n == 0 || s[n - 1] == '/' then ps + [[s[n]]]
      else ps[..|ps| - 1] + [ps[|ps| - 1] + [s[n]]]
  }

  lemma {:induction false} CollapseParts(s: string)
    ensures Parts(Collapse(s)) == Parts(s)
  {
    if |s| > 1 {
      var n := |s| - 1;
      var c := Collapse(s[..n]);
      CollapseParts(s[..n]);
      CollapseNoDouble(s[..n]);
      assert (c + [s[n]])[..|c|] == c;
    }
  }

  /** Cleaning keeps every segment, in order. */
  lemma CleanParts(path: string)
    ensures Parts(Clean(path)) == Parts(path)
  {
    CollapseParts(path);
    if path == "" {
      DropSlash("/");
    } else if !NoDouble(path) {
      CollapseNoDouble(path);
      var c := Collapse(path);
      if |c| > 1 && c[|c| - 1] == '/' {
        DropSlash(c);
      }
    }
  }

  lemma DropSlash(c: string)
    requires c != "" && c[|c| - 1] == '/'
    ensures Parts(c[..|c| - 1]) == Parts(c)
  {
  }

  method CleanPath(path: string) returns (r: string)
    ensures r == Clean(path)
  {
    if path == "" {
      return "/";
    }
    var hasDouble := false;
    for i := 1 to |path|
      invariant !hasDouble && NoDouble(path[..i])
    {
      if path[i] == '/' && path[i - 1] == '/' {
        hasDouble := true;
        break;
      }
    }
    if !hasDouble {
      assert path[..|path|] == path;
      return path;
    }
    var buf := [path[0]];
    for i := 1 to |path|
      invariant buf == Collapse(path[..i])
    {
      assert path[..i + 1][..i] == path[..i];
      if path[i] == '/' && path[i - 1] == '/' {
        continue;
      }
      buf := buf + [path[i]];
    }
    assert path[..|path|] == path;
    if |buf| > 1 && buf[|buf| - 1] == '/' {
      buf := buf[..|buf| - 1];
    }
    return buf;
  }

  // -------------------------------------------------------------- validation

  /** No '*' before index n. */
  ghost predicate NoStar(path: string, n: nat)
    requires n <= |path|
  {
    forall i :: 0 <= i < n ==> path[i] != '*'
  }

  /** Before any '*', every ':' starts a name; the first '*' starts one that runs
      to the end of the path. */
  ghost predicate ValidPattern(path: string) {
    && (forall i :: 0 <= i < |path| && NoStar(path, i) && path[i] == ':' ==>
          i + 1 < |path| && path[i + 1] != '/')
    && (forall i :: 0 <= i < |path| && NoStar(path, i) && path[i] == '*' ==>
          i + 1 < |path| && forall j :: i < j < |path| ==> path[j] != '/')
  }

  /** validatePath: false stands for its panics. */
  method ValidatePath(path: string) returns (ok: bool)
    ensures ok <==> ValidPattern(path)
  {
    for i := 0 to |path|
      invariant NoStar(path, i)
      invariant forall j :: 0 <= j < i && path[j] == ':' ==> j + 1 < |path| && path[j + 1] != '/'
    {
      if path[i] == ':' {
        var end := i + 1;
        while end < |path| && path[end] != '/'
          invariant i < end <= |path|
          invariant end > i + 1 ==> path[i + 1] != '/'
        {
          end := end + 1;
        }
        if end == i + 1 {
          return false;
        }
      } else if path[i] == '*' {
        if i + 1 >= |path| {
          return false;
        }
        for j := i + 1 to |path|
          invariant forall k :: i < k < j ==> path[k] != '/'
        {
          if path[j] == '/' {
            return false;
          }
        }
        assert forall k :: 0 <= k < |path| && NoStar(path, k) ==> k <= i;
        return true;
      }
    }
    return true;
  }

  lemma SuffixValid(s: string, n: nat)
    requires ValidPattern(s) && n <= |s| && NoStar(s, n)
    ensures ValidPattern(s[n..])
  {
    forall i | 0 <= i < |s[n..]| && NoStar(s[n..], i)
      ensures s[n..][i] == s[n + i] && NoStar(s, n + i)
    {
      forall j | 0 <= j < n + i ensures s[j] != '*' {
        if j >= n { assert s[n..][j - n] == s[j]; }
      }
    }
    assert forall j :: 0 <= j < |s| - n ==> s[n..][j] == s[n + j];
  }

  lemma FirstStar(s: string, e: nat) returns (i: nat)
    requires e <= |s| && !NoStar(s, e)
    ensures i < e && NoStar(s, i) && s[i] == '*'
  {
    i := e - 1;
    if !NoStar(s, i) {
      i := FirstStar(s, i);
    }
  }

  /** All parameters are named. */
  ghost predicate Named(k: Key) {
    forall i :: 0 <= i < |k| && k[i].Param? ==> k[i].key != ""
  }

  lemma NamedCons(k: Key)
    requires k != [] && Named(k[1..]) && (k[0].Param? ==> k[0].key != "")
    ensures Named(k)
  {
    forall i | 0 <= i < |k| && k[i].Param? ensures k[i].key != "" {
      assert i > 0 ==> k[i] == k[1..][i - 1];
    }
  }

  /** A parameter has a name, and what follows it is valid, or nothing. */
  lemma ParamNamed(s: string)
    requires ValidPattern(s) && s != "" && s[0] == ':'
    ensures var e := SegmentEnd(s); s[1..e] != "" && (s[e..] == "" || ValidPattern(s[e..]))
  {
    var e := SegmentEnd(s);
    assert NoStar(s, 0);
    if NoStar(s, e) {
      SuffixValid(s, e);
    } else {
      var i := FirstStar(s, e);
    }
  }

  /** A valid pattern names all its parameters and its catch-all. */
  lemma {:induction false} ValidNames(s: string)
    requires ValidPattern(s)
    ensures Named(Tokens(s))
    ensures EndsWild(Tokens(s)) ==> CatchName(s) != ""
    decreases |s|
  {
    if s != "" && s[0] == ':' {
      var e := SegmentEnd(s);
      ParamNamed(s);
      if s[e..] != "" {
        ValidNames(s[e..]);
      }
      assert Tokens(s)[1..] == Tokens(s[e..]);
      NamedCons(Tokens(s));
    } else if s != "" && s[0] == '*' {
      assert NoStar(s, 0);
    } else if s != "" {
      SuffixValid(s, 1);
      ValidNames(s[1..]);
      assert Tokens(s)[1..] == Tokens(s[1..]);
      NamedCons(Tokens(s));
    }
  }

  ghost predicate IsStatic(path: string) {
    forall i :: 0 <= i < |path| ==> path[i] != ':' && path[i] != '*'
  }

  method IsStaticPath(path: string) returns (b: bool)
    ensures b <==> IsStatic(path)
  {
    for i := 0 to |path|
      invariant IsStatic(path[..i])
    {
      if path[i] == ':' || path[i] == '*' {
        return false;
      }
    }
    assert path[..|path|] == path;
    return true;
  }

  /** A static path is its own key, and a key of bytes only is one of a static path. */
  lemma StaticKey(s: string)
    ensures IsStatic(s) ==> Tokens(s) == Bytes(s)
    ensures (forall i :: 0 <= i < |Tokens(s)| ==> Tokens(s)[i].Byte?) ==> IsStatic(s)
  {
    if IsStatic(s) {
      StaticBytes(s);
    }
    if forall i :: 0 <= i < |Tokens(s)| ==> Tokens(s)[i].Byte? {
      BytesStatic(s);
    }
  }

  lemma {:induction false} StaticBytes(s: string)
    requires IsStatic(s)
    ensures Tokens(s) == Bytes(s)
    decreases |s|
  {
    if s != "" {
      StaticBytes(s[1..]);
      assert Bytes(s) == [Byte(s[0])] + Bytes(s[1..]);
    }
  }

  lemma {:induction false} BytesStatic(s: string)
    requires forall i :: 0 <= i < |Tokens(s)| ==> Tokens(s)[i].Byte?
    ensures IsStatic(s)
    decreases |s|
  {
    if s != "" && s[0] == ':' {
      assert !Tokens(s)[0].Byte?;
      assert false;
    } else if s != "" && s[0] == '*' {
      assert !Tokens(s)[0].Byte?;
      assert false;
    } else if s != "" {
      forall i | 0 <= i < |Tokens(s[1..])| ensures Tokens(s[1..])[i].Byte? {
        assert Tokens(s)[i + 1] == Tokens(s[1..])[i];
      }
      BytesStatic(s[1..]);
      assert s == [s[0]] + s[1..];
    }
  }
}
