/** Search on the tree as a value: what the backtracking walk of router_tree.go
    returns, stated without the order of static children, and what that means. */
module Lookup {
  import opened Wrappers
  import opened Patterns
  import opened Trees

  datatype Binding = Binding(key: string, value: string)

  /** The position a walk ends on and the parameters it binds on the way. */
  datatype Hit = Hit(key: Key, binds: seq<Binding>)

  /** The shortest non-empty prefix of path that leads from q to a position, at
      least n long; 0 if there is none. */
  function FirstStatic(t: Tree, q: Key, path: string, n: nat): (m: nat)
    requires n > 0
    ensures m == 0 || (n <= m <= |path| && q + Bytes(path[..m]) in t)
    ensures forall i :: n <= i <= |path| && (m == 0 || i < m) ==> q + Bytes(path[..i]) !in t
    decreases |path| - n
  {
    if n > |path| then 0
    else if q + Bytes(path[..n]) in t then n
    else FirstStatic(t, q, path, n + 1)
  }

  function Resolve(t: Tree, q: Key, path: string): (r: Option<Hit>)
    requires q in t && path != ""
    decreases |path|, 1, 0
  {
    var n := FirstStatic(t, q, path, 1);
    var c := q + Bytes(path[..n]);
    if n == |path| then
      if t[c].handlers.Some? then Some(Hit(c, []))
      else if c + [CatchAll] in t then Some(Hit(c + [CatchAll], [Binding(t[c + [CatchAll]].catchKey, "")]))
      else None
    else
      var r := if n > 0 then Resolve(t, c, path[n..]) else None;
      if r.Some? then r else ResolveWild(t, q, t[q].kids, path)
  }

  /** The parameter and catch-all children among kids, in order. */
  function ResolveWild(t: Tree, q: Key, kids: seq<Key>, path: string): (r: Option<Hit>)
    requires q in t && path != ""
    decreases |path|, 0, |kids|
  {
    if kids == [] then None
    else
      var k := kids[0];
      if !(q < k && k in t) || k[|q|].Byte? then ResolveWild(t, q, kids[1..], path)
      else if k[|q|].CatchAll? then Some(Hit(k, [Binding(t[k].catchKey, "/" + path)]))
      else
        var e := SegmentEnd(path);
        if e == 0 then ResolveWild(t, q, kids[1..], path)
        else
          var r := if e < |path| then Resolve(t, k, path[e..])
                   else if t[k].handlers.Some? then Some(Hit(k, []))
                   else None;
          if r.Some? then Some(Hit(r.value.key, [Binding(k[|q|].key, path[..e])] + r.value.binds))
          else ResolveWild(t, q, kids[1..], path)
  }

  /** What the walk finds at k with rest still to go. */
  ghost function Beyond(t: Tree, k: Key, rest: string): (r: Option<Hit>)
    requires k in t
  {
    if rest != "" then Resolve(t, k, rest) else if t[k].handlers.Some? then Some(Hit(k, [])) else None
  }

  /** A parameter child that leads nowhere is passed over; otherwise it adds its binding. */
  lemma ParamStep(t: Tree, q: Key, kids: seq<Key>, path: string)
    requires q in t && path != "" && kids != [] && q < kids[0] && kids[0] in t && kids[0][|q|].Param?
    ensures var e := SegmentEnd(path);
      var r := if e == 0 then None else Beyond(t, kids[0], path[e..]);
      ResolveWild(t, q, kids, path) ==
        if r.Some? then Some(Hit(r.value.key, [Binding(kids[0][|q|].key, path[..e])] + r.value.binds))
        else ResolveWild(t, q, kids[1..], path)
  {
  }

  // ----------------------------------------------- the static child of a walk

  /** A static child whose text starts path is where the walk goes. */
  lemma StaticHit(t: Tree, q: Key, j: nat, path: string, m: nat)
    requires ValidTree(t) && q in t && j < |t[q].kids|
    requires 0 < m <= |path| && t[q].kids[j] == q + Bytes(path[..m])
    ensures FirstStatic(t, q, path, 1) == m
  {
    var n := FirstStatic(t, q, path, 1);
    var c, p := t[q].kids[j], q + Bytes(path[..n]);
    assert c in t by { assert GoodKids(t, q, t[q].kids); }
    if n < m {
      assert n > 0;
      assert p == c[..|p|] && p[|q|] == c[|q|];
      EdgeIsBare(t, q, j, p, p);
    }
  }

  /** A position that starts path is reached through a static child that does. */
  lemma StaticKid(t: Tree, q: Key, path: string) returns (j: nat, m: nat)
    requires ValidTree(t) && q in t && FirstStatic(t, q, path, 1) > 0
    ensures j < |t[q].kids| && 0 < m <= |path| && t[q].kids[j] == q + Bytes(path[..m])
  {
    var p := q + Bytes(path[..FirstStatic(t, q, path, 1)]);
    assert Leads(t[q].kids, p);
    j :| 0 <= j < |t[q].kids| && t[q].kids[j] <= p;
    assert GoodKids(t, q, t[q].kids);
    m := |t[q].kids[j]| - |q|;
    assert t[q].kids[j] == q + Bytes(path[..m]);
  }

  // ------------------------------------------------------------------ meaning

  /** The request path (without its leading '/') that a key and its bound values
      stand for; None if they do not fit together. */
  ghost predicate Matches(key: Key, path: string, binds: seq<Binding>)
  {
    if key == [] then path == "" && binds == []
    else match key[0]
      case Byte(c) => path != "" && path[0] == c && Matches(key[1..], path[1..], binds)
      case Param(name) =>
        && binds != [] && binds[0].key == name
        && var e := SegmentEnd(path);
           && e > 0 && binds[0].value == path[..e]
           && Matches(key[1..], path[e..], binds[1..])
      case CatchAll =>
        && |key| == 1 && |binds| == 1
        && binds[0].value == if path == "" then "" else "/" + path
  }

  lemma MatchByte(c: char, key: Key, path: string, binds: seq<Binding>)
    requires Matches(key, path, binds)
    ensures Matches([Byte(c)] + key, [c] + path, binds)
  {
    assert ([Byte(c)] + key)[1..] == key && ([c] + path)[1..] == path;
  }

  lemma MatchParam(name: string, key: Key, path: string, binds: seq<Binding>)
    requires SegmentEnd(path) > 0 && Matches(key, path[SegmentEnd(path)..], binds)
    ensures Matches([Param(name)] + key, path, [Binding(name, path[..SegmentEnd(path)])] + binds)
  {
    var b := [Binding(name, path[..SegmentEnd(path)])] + binds;
    assert ([Param(name)] + key)[1..] == key && b[1..] == binds;
  }

  lemma {:induction false} MatchBytes(s: string, key: Key, path: string, binds: seq<Binding>)
    requires Matches(key, path, binds)
    ensures Matches(Bytes(s) + key, s + path, binds)
  {
    if s == "" {
      assert Bytes(s) + key == key && s + path == path;
    } else {
      MatchBytes(s[1..], key, path, binds);
      MatchByte(s[0], Bytes(s[1..]) + key, s[1..] + path, binds);
      assert Bytes(s) + key == [Byte(s[0])] + (Bytes(s[1..]) + key);
      assert s + path == [s[0]] + (s[1..] + path);
    }
  }

  /** What a walk from q over path may return: a registered route below q that
      matches the path with exactly these bindings. */
  ghost predicate SoundHit(t: Tree, q: Key, path: string, hit: Hit) {
    && hit.key in t && t[hit.key].handlers.Some?
    && q < hit.key && Matches(hit.key[|q|..], path, hit.binds)
    && (EndsWild(hit.key) ==> hit.binds != [] && hit.binds[|hit.binds| - 1].key == t[hit.key].catchKey)
  }

  lemma {:induction false} ResolveSound(t: Tree, q: Key, path: string)
    requires ValidTree(t) && WildServed(t) && q in t && path != ""
    ensures var r := Resolve(t, q, path); r.Some? ==> SoundHit(t, q, path, r.value)
    decreases |path|, 1, 0
  {
    var n := FirstStatic(t, q, path, 1);
    var c := q + Bytes(path[..n]);
    if n == |path| {
      assert path[..n] == path;
      ExactSound(t, q, path);
    } else if n > 0 && Resolve(t, c, path[n..]).Some? {
      ResolveSound(t, c, path[n..]);
      StaticSound(t, q, path, n, Resolve(t, c, path[n..]).value);
    } else {
      assert GoodKids(t, q, t[q].kids);
      WildSound(t, q, t[q].kids, path);
    }
  }

  lemma ExactSound(t: Tree, q: Key, path: string)
    requires WildServed(t) && path != "" && q + Bytes(path) in t
    ensures var c := q + Bytes(path);
            && (t[c].handlers.Some? ==> SoundHit(t, q, path, Hit(c, [])))
            && (c + [CatchAll] in t ==>
                  SoundHit(t, q, path, Hit(c + [CatchAll], [Binding(t[c + [CatchAll]].catchKey, "")])))
  {
    var c := q + Bytes(path);
    MatchBytes(path, [], "", []);
    assert Bytes(path) + [] == Bytes(path) == c[|q|..] && path + "" == path;
    if c + [CatchAll] in t {
      var w := [Binding(t[c + [CatchAll]].catchKey, "")];
      assert Matches([CatchAll], "", w);
      MatchBytes(path, [CatchAll], "", w);
      assert (c + [CatchAll])[|q|..] == Bytes(path) + [CatchAll];
    }
  }

  lemma StaticSound(t: Tree, q: Key, path: string, n: nat, hit: Hit)
    requires 0 < n < |path| && SoundHit(t, q + Bytes(path[..n]), path[n..], hit)
    ensures SoundHit(t, q, path, hit)
  {
    var c := q + Bytes(path[..n]);
    MatchBytes(path[..n], hit.key[|c|..], path[n..], hit.binds);
    assert path[..n] + path[n..] == path;
    assert hit.key[|q|..] == Bytes(path[..n]) + hit.key[|c|..];
  }

  lemma {:induction false} WildSound(t: Tree, q: Key, kids: seq<Key>, path: string)
    requires ValidTree(t) && WildServed(t) && q in t && path != ""
    requires forall i :: 0 <= i < |kids| ==> q < kids[i] && IsLabel(kids[i][|q|..])
    ensures var r := ResolveWild(t, q, kids, path); r.Some? ==> SoundHit(t, q, path, r.value)
    decreases |path|, 0, |kids|
  {
    if kids != [] {
      WildSound(t, q, kids[1..], path);
      var k, e := kids[0], SegmentEnd(path);
      if k in t && !k[|q|].Byte? {
        assert k[|q|..][0] == k[|q|];
        assert k == q + [k[|q|]];
        if k[|q|].CatchAll? {
          assert Matches([CatchAll], path, [Binding(t[k].catchKey, "/" + path)]);
        } else if 0 < e < |path| {
          ResolveSound(t, k, path[e..]);
          var r := Resolve(t, k, path[e..]);
          if r.Some? { ParamSound(t, q, k, path, r.value); }
        } else if e == |path| {
          assert path[e..] == "" && Matches([], "", []);
        }
      }
    }
  }

  lemma ParamSound(t: Tree, q: Key, k: Key, path: string, hit: Hit)
    requires q < k && |k| == |q| + 1 && k[|q|].Param?
    requires var e := SegmentEnd(path); 0 < e < |path| && SoundHit(t, k, path[e..], hit)
    ensures SoundHit(t, q, path, Hit(hit.key, [Binding(k[|q|].key, path[..SegmentEnd(path)])] + hit.binds))
  {
    MatchParam(k[|q|].key, hit.key[|k|..], path, hit.binds);
    FromParent(q, k, hit.key);
    if hit.binds != [] {
      LastBinding(Binding(k[|q|].key, path[..SegmentEnd(path)]), hit.binds);
    }
  }

  lemma FromParent(q: Key, k: Key, h: Key)
    requires q < k <= h && |k| == |q| + 1
    ensures q < h && h[|q|..] == [k[|q|]] + h[|k|..]
  {
    assert h[|q|] == k[|q|];
  }

  lemma LastBinding(b: Binding, bs: seq<Binding>)
    requires bs != []
    ensures ([b] + bs)[|[b] + bs| - 1] == bs[|bs| - 1]
  {
  }

  // ------------------------------------------------------- static precedence

  /** A registered static path is answered by its own route, whatever else matches. */
  lemma {:induction false} StaticWins(t: Tree, q: Key, path: string)
    requires ValidTree(t) && q in t && path != ""
    requires q + Bytes(path) in t && t[q + Bytes(path)].handlers.Some?
    ensures Resolve(t, q, path) == Some(Hit(q + Bytes(path), []))
    decreases |path|
  {
    assert path[..|path|] == path;
    var n := FirstStatic(t, q, path, 1);
    if n < |path| {
      var c := q + Bytes(path[..n]);
      assert c + Bytes(path[n..]) == q + Bytes(path);
      StaticWins(t, c, path[n..]);
    }
  }

  // ---------------------------------------------- what a walk finds, exactly

  /** The walk stands at q, the path ends exactly on a static child, and nothing
      is registered there: search gives up without trying q's other children. */
  ghost predicate Stuck(t: Tree, q: Key, path: string) {
    var c := q + Bytes(path);
    && path != "" && FirstStatic(t, q, path, 1) == |path|
    && !(c in t && t[c].handlers.Some?) && c + [CatchAll] !in t
  }

  /** Following rest from q over path never leaves static text where the walk is stuck. */
  ghost predicate Clear(t: Tree, q: Key, rest: Key, path: string)
    decreases |rest|
  {
    if rest == [] then true
    else match rest[0]
      case Byte(_) => path != "" && Clear(t, q + [rest[0]], rest[1..], path[1..])
      case Param(_) => !Stuck(t, q, path) && Clear(t, q + [rest[0]], rest[1..], path[SegmentEnd(path)..])
      case CatchAll => !Stuck(t, q, path)
  }

  lemma {:induction false} ClearBytes(t: Tree, q: Key, s: string, rest: Key, path: string)
    ensures Clear(t, q, Bytes(s) + rest, s + path) <==> Clear(t, q + Bytes(s), rest, path)
    decreases |s|
  {
    if s == "" {
      assert Bytes(s) + rest == rest && s + path == path && q + Bytes(s) == q;
    } else {
      ClearBytes(t, q + [Byte(s[0])], s[1..], rest, path);
      assert (Bytes(s) + rest)[1..] == Bytes(s[1..]) + rest && (s + path)[1..] == s[1..] + path;
      assert q + [Byte(s[0])] + Bytes(s[1..]) == q + Bytes(s);
    }
  }

  lemma {:induction false} UnmatchBytes(s: string, key: Key, path: string, binds: seq<Binding>)
    requires Matches(Bytes(s) + key, path, binds)
    ensures s <= path && Matches(key, path[|s|..], binds)
  {
    if s == "" {
      assert Bytes(s) + key == key && path[0..] == path;
    } else {
      assert Bytes(s) + key == [Byte(s[0])] + (Bytes(s[1..]) + key);
      UnmatchByte(s[0], Bytes(s[1..]) + key, path, binds);
      UnmatchBytes(s[1..], key, path[1..], binds);
      PrefixCons(s, path);
    }
  }

  lemma UnmatchByte(c: char, key: Key, path: string, binds: seq<Binding>)
    requires Matches([Byte(c)] + key, path, binds)
    ensures path != "" && path[0] == c && Matches(key, path[1..], binds)
  {
    assert ([Byte(c)] + key)[1..] == key;
  }

  lemma PrefixCons(s: string, path: string)
    requires s != "" && path != "" && s[0] == path[0] && s[1..] <= path[1..]
    ensures s <= path && path[|s|..] == path[1..][|s| - 1..]
  {
    assert s == [s[0]] + s[1..] && path == [path[0]] + path[1..];
  }

  /** The route k, seen from q, is one the walk over path can find. */
  ghost predicate Findable(t: Tree, q: Key, path: string, k: Key, binds: seq<Binding>) {
    && k in t && t[k].handlers.Some? && q < k
    && Matches(k[|q|..], path, binds) && Clear(t, q, k[|q|..], path)
  }

  /** A findable route keeps the walk from coming back empty-handed. */
  lemma {:induction false} ResolveFinds(t: Tree, q: Key, path: string, k: Key, binds: seq<Binding>)
    requires ValidTree(t) && q in t && path != "" && WellFormed(k)
    requires Findable(t, q, path, k, binds)
    ensures Resolve(t, q, path).Some?
    decreases |path|, 1, 0
  {
    if k[|q|].Byte? {
      FindsThroughStatic(t, q, path, k, binds);
    } else {
      var j := WildKid(t, q, k);
      WildFinds(t, q, t[q].kids, j, path, k, binds);
      assert k[|q|..][0] == k[|q|] && path[..|path|] == path;
    }
  }

  /** A child on the way to k, when k goes on with a parameter or catch-all. */
  lemma WildKid(t: Tree, q: Key, k: Key) returns (j: nat)
    requires ValidTree(t) && q in t && k in t && q < k && !k[|q|].Byte?
    ensures j < |t[q].kids| && t[q].kids[j] == q + [k[|q|]]
    ensures forall i :: 0 <= i < |t[q].kids| ==> q < t[q].kids[i] && t[q].kids[i] in t
  {
    assert Leads(t[q].kids, k);
    j :| 0 <= j < |t[q].kids| && t[q].kids[j] <= k;
    assert GoodKids(t, q, t[q].kids);
    var c := t[q].kids[j];
    assert c[|q|..][0] == k[|q|];
    assert c == q + [k[|q|]];
  }

  lemma {:induction false} FindsThroughStatic(t: Tree, q: Key, path: string, k: Key, binds: seq<Binding>)
    requires ValidTree(t) && q in t && path != "" && WellFormed(k)
    requires Findable(t, q, path, k, binds) && k[|q|].Byte?
    ensures Resolve(t, q, path).Some?
    decreases |path|, 0, 0
  {
    var j, s := KidTowards(t, q, k);
    var c := t[q].kids[j];
    UnmatchBytes(s, k[|c|..], path, binds);
    assert path == s + path[|s|..];
    ClearBytes(t, q, s, k[|c|..], path[|s|..]);
    assert s == path[..|s|];
    StaticHit(t, q, j, path, |s|);
    if |s| < |path| {
      assert c < k;
      ResolveFinds(t, c, path[|s|..], k, binds);
    } else {
      assert path[..|path|] == path && c == q + Bytes(path);
      assert path[|s|..] == "";
      MatchesNothing(c, k, binds);
    }
  }

  /** The static child on the way to k. */
  lemma KidTowards(t: Tree, q: Key, k: Key) returns (j: nat, s: string)
    requires ValidTree(t) && q in t && k in t && q < k && k[|q|].Byte?
    ensures j < |t[q].kids| && t[q].kids[j] == q + Bytes(s) && t[q].kids[j] <= k && s != ""
    ensures k[|q|..] == Bytes(s) + k[|t[q].kids[j]|..]
  {
    assert Leads(t[q].kids, k);
    j :| 0 <= j < |t[q].kids| && t[q].kids[j] <= k;
    var c := t[q].kids[j];
    assert GoodKids(t, q, t[q].kids);
    assert c[|q|..][0] == k[|q|];
    s := Text(c[|q|..]);
    assert c == q + Bytes(s) && c == k[..|c|];
    assert k[|q|..] == c[|q|..] + k[|c|..];
  }

  /** Only a catch-all matches the empty rest of a path. */
  lemma MatchesNothing(c: Key, k: Key, binds: seq<Binding>)
    requires c <= k && WellFormed(k) && Matches(k[|c|..], "", binds)
    ensures k == c || k == c + [CatchAll]
  {
    if c < k {
      assert k[|c|..] == [CatchAll];
      assert k == c + [CatchAll];
    }
  }

  ghost function Text(l: Key): (s: string)
    requires forall i :: 0 <= i < |l| ==> l[i].Byte?
    ensures Bytes(s) == l
  {
    seq(|l|, i requires 0 <= i < |l| => l[i].c)
  }

  lemma {:induction false} WildFinds(t: Tree, q: Key, kids: seq<Key>, j: nat, path: string, k: Key, binds: seq<Binding>)
    requires ValidTree(t) && q in t && path != "" && WellFormed(k)
    requires Findable(t, q, path, k, binds) && !k[|q|].Byte?
    requires j < |kids| && kids[j] == q + [k[|q|]]
    requires forall i :: 0 <= i < |kids| ==> q < kids[i] && kids[i] in t
    ensures ResolveWild(t, q, kids, path).Some?
    decreases |path|, 0, j
  {
    if j > 0 {
      WildFinds(t, q, kids[1..], j - 1, path, k, binds);
    } else if k[|q|].Param? {
      var c, e := kids[0], SegmentEnd(path);
      assert k[|q|..][0] == k[|q|] && k[|q|..][1..] == k[|c|..];
      assert Matches(k[|c|..], path[e..], binds[1..]) && Clear(t, c, k[|c|..], path[e..]);
      if c < k {
        assert k[|c| - 1].Param? && k[|c|..][0] == Byte('/');
        ResolveFinds(t, c, path[e..], k, binds[1..]);
      } else {
        assert k == c;
      }
    }
  }

  /** What the walk finds is findable: it never leaves a stuck position sideways. */
  lemma {:induction false} ResolveClear(t: Tree, q: Key, path: string)
    requires ValidTree(t) && WildServed(t) && q in t && path != ""
    ensures var r := Resolve(t, q, path);
            r.Some? ==> q < r.value.key && Clear(t, q, r.value.key[|q|..], path)
    decreases |path|, 1, 0
  {
    ResolveSound(t, q, path);
    var n := FirstStatic(t, q, path, 1);
    var c := q + Bytes(path[..n]);
    if n == |path| {
      assert path[..n] == path;
      ExactClear(t, q, path);
    } else if n > 0 && Resolve(t, c, path[n..]).Some? {
      var key := Resolve(t, c, path[n..]).value.key;
      ResolveClear(t, c, path[n..]);
      ClearBytes(t, q, path[..n], key[|c|..], path[n..]);
      assert path == path[..n] + path[n..] && key[|q|..] == Bytes(path[..n]) + key[|c|..];
    } else {
      assert GoodKids(t, q, t[q].kids);
      WildClear(t, q, t[q].kids, path);
    }
  }

  lemma ExactClear(t: Tree, q: Key, path: string)
    ensures var c := q + Bytes(path);
      Clear(t, q, c[|q|..], path) && Clear(t, q, (c + [CatchAll])[|q|..], path)
  {
    var c := q + Bytes(path);
    ClearBytes(t, q, path, [], "");
    ClearBytes(t, q, path, [CatchAll], "");
    assert path + "" == path && c[|q|..] == Bytes(path) + [];
    assert (c + [CatchAll])[|q|..] == Bytes(path) + [CatchAll];
  }

  lemma {:induction false} WildClear(t: Tree, q: Key, kids: seq<Key>, path: string)
    requires ValidTree(t) && WildServed(t) && q in t && path != "" && !Stuck(t, q, path)
    requires forall i :: 0 <= i < |kids| ==> q < kids[i] && IsLabel(kids[i][|q|..])
    ensures var r := ResolveWild(t, q, kids, path);
            r.Some? ==> q < r.value.key && Clear(t, q, r.value.key[|q|..], path)
    decreases |path|, 0, |kids|
  {
    if kids != [] {
      WildClear(t, q, kids[1..], path);
      var k, e := kids[0], SegmentEnd(path);
      if k in t && !k[|q|].Byte? {
        assert k[|q|..][0] == k[|q|];
        assert k == q + [k[|q|]];
        if k[|q|].Param? && 0 < e < |path| {
          ResolveClear(t, k, path[e..]);
          var r := Resolve(t, k, path[e..]);
          if r.Some? {
            var rest := r.value.key[|q|..];
            assert rest[0] == k[|q|] && rest[1..] == r.value.key[|k|..];
          }
        }
      }
    }
  }

  /** Search finds a route exactly when some registered route matches the path and
      can be reached without leaving a stuck position. */
  lemma SearchComplete(t: Tree, q: Key, path: string)
    requires ValidTree(t) && Registered(t) && q in t && path != ""
    ensures Resolve(t, q, path).Some? <==> exists k, binds :: Findable(t, q, path, k, binds)
  {
    RegisteredServes(t);
    ResolveSound(t, q, path);
    ResolveClear(t, q, path);
    if Resolve(t, q, path).Some? {
      var hit := Resolve(t, q, path).value;
      assert Findable(t, q, path, hit.key, hit.binds);
    }
    if k, binds :| Findable(t, q, path, k, binds) {
      assert k in RouteKeys(t);
      TokensWellFormed(t[k].fullPath[1..]);
      ResolveFinds(t, q, path, k, binds);
    }
  }

  lemma ThreeKeys()
    ensures KeyOf("/al") == [Byte('a'), Byte('l')] && KeyOf("/am") == [Byte('a'), Byte('m')]
    ensures KeyOf("/:x") == [Param("x")]
  {
    assert "/al"[1..] == "al" && "al"[1..] == "l" && "l"[1..] == "";
    assert "/am"[1..] == "am" && "am"[1..] == "m" && "m"[1..] == "";
    assert Tokens("l") == [Byte('l')] && Tokens("m") == [Byte('m')];
    assert "/:x"[1..] == ":x" && ":x"[1..] == "x" && "x"[1..] == "" && ":x"[2..] == "" && ":x"[1..2] == "x";
    assert SegmentEnd("x") == 1 && SegmentEnd(":x") == 2;
  }

  /** Giving up loses a match: with /al, /am and /:x registered, the path a is not
      found, although /:x matches it. */
  lemma GivesUp(t: Tree)
    requires Registered(t) && [] in t
    requires RouteKeys(t) == {KeyOf("/al"), KeyOf("/am"), KeyOf("/:x")}
    ensures Resolve(t, [], "a") == None
    ensures Matches(KeyOf("/:x"), "a", [Binding("x", "a")])
  {
    var a, w := [Byte('a')], [Byte('a'), CatchAll];
    BranchAt(RouteKeys(t));
    assert a in t && a !in RouteKeys(t) && w !in t;
    assert "a"[..1] == "a" && [] + Bytes("a") == a && a + [CatchAll] == w;
    assert FirstStatic(t, [], "a", 1) == 1;
    LostMatch();
  }

  /** The routes branch after the byte a, where there is no catch-all. */
  lemma BranchAt(K: set<Key>)
    requires K == {KeyOf("/al"), KeyOf("/am"), KeyOf("/:x")}
    ensures IsPosition(K, [Byte('a')]) && [Byte('a')] !in K && !IsPosition(K, [Byte('a'), CatchAll])
  {
    ThreeKeys();
    assert Diverge([Byte('a')], KeyOf("/al"), KeyOf("/am"));
  }

  lemma LostMatch()
    ensures Matches(KeyOf("/:x"), "a", [Binding("x", "a")])
  {
    ThreeKeys();
    assert "a"[1..] == "" && SegmentEnd("a") == 1 && "a"[..1] == "a";
    MatchParam("x", [], "a", []);
    assert [Param("x")] + [] == [Param("x")];
  }
}
