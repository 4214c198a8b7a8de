/** Route tables, built by registering, on which a promise of the router does not hold. */
module Witnesses {
  import opened Wrappers
  import opened Patterns
  import opened Segments
  import opened Trees
  import opened Lookup
  import opened Order
  import opened Tries
  import opened Paths
  import opened Routers
  import opened Urls

  // ------------------------------------------------------ two names at one place

  /** The pattern /:a. */
  function ParamPattern(a: string): (p: string)
    ensures IsPattern(p)
  {
    ['/', ':'] + a
  }

  /** A name that a parameter of a registered pattern can have. */
  ghost predicate ParamName(a: string) {
    SegmentEnd(a) == |a| && ValidPattern(ParamPattern(a))
  }

  lemma ParamKey(a: string)
    requires SegmentEnd(a) == |a|
    ensures KeyOf(ParamPattern(a)) == [Param(a)]
  {
    var s := [':'] + a;
    assert ParamPattern(a)[1..] == s && s[1..] == a;
    assert SegmentEnd(s) == 1 + SegmentEnd(a);
    assert s[1..|s|] == a && s[|s|..] == "";
    assert Tokens(s) == [Param(a)] + Tokens("");
  }

  lemma NotAPosition(K: set<Key>, p: Key)
    requires p != [] && forall k :: k in K ==> !(p <= k)
    ensures !IsPosition(K, p)
  {
    if IsPosition(K, p) {
      var k := PositionBelowKey(K, p);
    }
  }

  lemma NotBelow(p: Key, k: Key, i: nat)
    requires i < |p| && i < |k| && p[i] != k[i]
    ensures !(p <= k)
  {
  }

  /** No route starts with text. */
  ghost predicate NoText(t: Tree) {
    forall k: Key :: k in RouteKeys(t) ==> k != [] && !k[0].Byte?
  }

  lemma NothingStatic(t: Tree, text: string)
    requires Registered(t) && NoText(t)
    ensures FirstStatic(t, [], text, 1) == 0
  {
    forall i | 1 <= i <= |text| ensures [] + Bytes(text[..i]) !in t {
      var p := [] + Bytes(text[..i]);
      assert p[0] == Byte(text[0]);
      forall k | k in RouteKeys(t) ensures !(p <= k) {
        NotBelow(p, k, 0);
      }
      NotAPosition(RouteKeys(t), p);
    }
  }

  lemma FirstAnswers(t: Tree, a: string, text: string)
    requires ValidTree(t) && Registered(t) && NoText(t) && text != "" && SegmentEnd(text) == |text|
    requires [Param(a)] in RouteKeys(t) && FirstNames(t, [Param(a)])
    ensures Resolve(t, [], text) == Some(Hit([Param(a)], [Binding(a, text)]))
  {
    NothingStatic(t, text);
    KidsAre(t, []);
    var x, none: seq<Binding> := [] + [Param(a)], [];
    assert x[0].Param? && x[..0] == [] && x[..1] == x && x == [Param(a)];
    assert text[..|text|] == text && text[|text|..] == "";
    assert Beyond(t, x, "") == Some(Hit(x, none));
    assert Takes(t, [], text, a);
    assert FirstParam([], t[[]].kids, x);
    var i: nat :| FirstAt([], t[[]].kids, x, i);
    FirstTaker(t, [], t[[]].kids, text, a, i);
    assert [Binding(a, text)] + none == [Binding(a, text)];
  }

  /** The route table of /:a and /:b. */
  function TwoRoutes(a: string, c: Chain, b: string, d: Chain): (m: map<Key, Route>) {
    map[[Param(a)] := Route(c, ParamPattern(a)), [Param(b)] := Route(d, ParamPattern(b))]
  }

  lemma SecondKeeps(t: Tree, u: Tree, a: string, c: Chain, b: string, d: Chain, text: string)
    requires ValidTree(t) && Registered(t) && Routes(t) == map[[Param(a)] := Route(c, ParamPattern(a))]
    requires ValidTree(u) && Registered(u) && OrderKept(t, u) && Routes(u) == TwoRoutes(a, c, b, d)
    requires text != "" && SegmentEnd(text) == |text|
    ensures Resolve(u, [], text) == Some(Hit([Param(a)], [Binding(a, text)]))
  {
    assert RouteKeys(t) == Routes(t).Keys == {[Param(a)]};
    assert RouteKeys(u) == Routes(u).Keys == {[Param(a)], [Param(b)]};
    OneRoute(t, [Param(a)]);
    FirstNamesKept(t, u, [Param(a)]);
    FirstAnswers(u, a, text);
  }

  /** Registering /:a and then /:b: the walk binds a. */
  method RegisterTwo(a: string, c: Chain, b: string, d: Chain, ghost text: string) returns (m: MethodTable)
    requires a != b && ParamName(a) && ParamName(b) && text != "" && SegmentEnd(text) == |text|
    ensures m.Valid() && Routes(m.trie.tree) == TwoRoutes(a, c, b, d)
    ensures Resolve(m.trie.tree, [], text) == Some(Hit([Param(a)], [Binding(a, text)]))
  {
    ParamKey(a);
    ParamKey(b);
    m := new MethodTable();
    var ok := m.AddRoute(ParamPattern(a), c);
    ghost var t := m.trie.tree;
    ok := m.AddRoute(ParamPattern(b), d);
    SecondKeeps(t, m.trie.tree, a, c, b, d, text);
  }

  lemma SameTwo(a: string, c: Chain, b: string, d: Chain)
    requires a != b
    ensures TwoRoutes(a, c, b, d) == TwoRoutes(b, d, a, c)
  {
    assert [Param(a)][0] != [Param(b)][0];
  }

  /** Whichever of two names is registered first answers, for all names and every segment of
      text, although the routes are the same. */
  method FirstNameWins(a: string, c: Chain, b: string, d: Chain, ghost text: string)
    returns (m: MethodTable, n: MethodTable)
    requires a != b && ParamName(a) && ParamName(b) && text != "" && SegmentEnd(text) == |text|
    ensures Routes(m.trie.tree) == Routes(n.trie.tree) && [] in m.trie.tree && [] in n.trie.tree
    ensures Resolve(m.trie.tree, [], text) == Some(Hit([Param(a)], [Binding(a, text)]))
    ensures Resolve(n.trie.tree, [], text) == Some(Hit([Param(b)], [Binding(b, text)]))
  {
    SameTwo(a, c, b, d);
    m := RegisterTwo(a, c, b, d, text);
    n := RegisterTwo(b, d, a, c, text);
  }

  // ------------------------------------------------------ a static path with a double slash

  lemma WalkMisses(t: Tree, path: string)
    requires IsPattern(path) && IsStatic(path) && Clean(path) != path
    requires ValidTree(t) && Registered(t) && RouteKeys(t) == {KeyOf(path)}
    ensures t[KeyOf(path)].fullPath == path ==> Walk(t, path) == None
  {
    StaticRouteKey(t, path);
    CleanIsClean(path);
    var s, r := path[1..], Walk(t, path);
    assert s != "" && [] !in RouteKeys(t);
    if Clean(path) != "/" && r.Some? && t[KeyOf(path)].fullPath == path {
      OnlyFind(t, path);
      WalkIsClean(t, path);
    }
  }

  /** With a static route only, the walk finds that one, and binds nothing. */
  lemma OnlyFind(t: Tree, path: string)
    requires IsPattern(path) && IsStatic(path) && Clean(path) != "/"
    requires ValidTree(t) && Registered(t) && RouteKeys(t) == {KeyOf(path)} && t[KeyOf(path)].fullPath == path
    requires Walk(t, path).Some?
    ensures Walk(t, path).value.fullPath == path && Walk(t, path).value.binds == []
  {
    StaticRouteKey(t, path);
    WalkFinds(t, path);
    var f := Walk(t, path).value;
    assert KeyOf(f.fullPath) in RouteKeys(t) && Routes(t)[KeyOf(path)].fullPath == path;
    assert Bytes(path[1..]) + [] == Bytes(path[1..]);
    UnmatchBytes(path[1..], [], Strip(Clean(path)), f.binds);
  }

  /** A static pattern that cleaning changes, registered alone: the static map answers its
      path, and the trie does not. */
  method OnlyInTheMap(path: string, c: Chain) returns (m: MethodTable)
    requires IsPattern(path) && IsStatic(path) && Clean(path) != path
    ensures m.Valid() && [] in m.trie.tree
    ensures LookUp(m.Value(), path) == Some(Found(c, path, [])) && Walk(m.trie.tree, path) == None
  {
    m := new MethodTable();
    var ok := m.AddRoute(path, c);
    ghost var t := m.trie.tree;
    assert Routes(t).Keys == RouteKeys(t) && Routes(t)[KeyOf(path)] == Route(c, path);
    WalkMisses(t, path);
  }

  /** Such as /a//b. */
  lemma DoubleSlash()
    ensures IsPattern("/a//b") && IsStatic("/a//b") && Clean("/a//b") != "/a//b"
  {
    CleanIsClean("/a//b");
    assert "/a//b"[3] == '/' && "/a//b"[2] == '/';
  }

  // ------------------------------------------------------ a catch-all that is not joined back

  ghost predicate Plain(s: string) {
    forall i :: 0 <= i < |s| ==> !Special(s[i])
  }

  lemma TailKey(s: string, name: string)
    requires Plain(s)
    ensures KeyOf(TailPattern(s, name)) == Bytes(s) + [CatchAll]
    ensures CatchName(TailPattern(s, name)[1..]) == name
  {
    var star := ['*'] + name;
    StaticTokens(s, star);
    assert TailPattern(s, name)[1..] == s + star;
    assert star[1..] == name;
  }

  /** What a catch-all binds. */
  function TailValue(x: string): (v: string) {
    if x == "" then "" else "/" + x
  }

  lemma TailFound(t: Tree, s: string, x: string)
    requires ValidTree(t) && Registered(t) && RouteKeys(t) == {Bytes(s) + [CatchAll]} && s + x != ""
    ensures var k := Bytes(s) + [CatchAll];
      k in t && Resolve(t, [], s + x) == Some(Hit(k, [Binding(t[k].catchKey, TailValue(x))]))
  {
    var k, b := Bytes(s) + [CatchAll], [Binding("", TailValue(x))];
    assert k in RouteKeys(t) && k[0..] == k;
    assert Matches([CatchAll], x, b);
    MatchBytes(s, [CatchAll], x, b);
    TailClear(t, s, x);
    assert Findable(t, [], s + x, k, b);
    SearchComplete(t, [], s + x);
    RegisteredServes(t);
    ResolveSound(t, [], s + x);
    var hit := Resolve(t, [], s + x).value;
    assert hit.key in RouteKeys(t);
    UnmatchBytes(s, [CatchAll], s + x, hit.binds);
    assert (s + x)[|s|..] == x && EndsWild(k);
    assert hit.binds == [hit.binds[0]] && hit.binds[0] == Binding(t[k].catchKey, TailValue(x));
  }

  lemma TailClear(t: Tree, s: string, x: string)
    requires Registered(t) && RouteKeys(t) == {Bytes(s) + [CatchAll]}
    ensures Clear(t, [], Bytes(s) + [CatchAll], s + x)
  {
    ClearBytes(t, [], s, [CatchAll], x);
    var q := [] + Bytes(s);
    assert q == Bytes(s);
    if x != "" {
      var p := q + Bytes(x);
      NotBelow(p, Bytes(s) + [CatchAll], |s|);
      NotAPosition(RouteKeys(t), p);
      assert x[..|x|] == x && p !in t;
    }
  }

  /** The pattern with text, and a catch-all behind it. */
  function TailPattern(s: string, name: string): (p: string)
    ensures IsPattern(p)
  {
    ['/'] + s + ['*'] + name
  }

  /** A catch-all behind text that does not end in a slash and matched something, or behind a
      slash and matched nothing: the URL built from what was found is another one. */
  method TailNotRebuilt(s: string, name: string, x: string, c: Chain) returns (t: Trie)
    requires Plain(s) && s != "" && (Last(s) == '/' <==> x == "")
    ensures t.Valid() && Registered(t.tree)
    ensures Resolve(t.tree, [], s + x) == Some(Hit(Bytes(s) + [CatchAll], [Binding(name, TailValue(x))]))
    ensures UrlOf(TailPattern(s, name), [TailValue(x)]) != Some("/" + (s + x))
  {
    t := Build([Entry(TailPattern(s, name), c)]);
    TailResolved(s, name, x, c, t.tree);
  }

  lemma TailResolved(s: string, name: string, x: string, c: Chain, t: Tree)
    requires Plain(s) && s != "" && (Last(s) == '/' <==> x == "") && BuiltFrom([Entry(TailPattern(s, name), c)], t)
    ensures Resolve(t, [], s + x) == Some(Hit(Bytes(s) + [CatchAll], [Binding(name, TailValue(x))]))
    ensures UrlOf(TailPattern(s, name), [TailValue(x)]) != Some("/" + (s + x))
  {
    TailKey(s, name);
    OnlyEntry(Entry(TailPattern(s, name), c), t, Bytes(s) + [CatchAll], name);
    TailFound(t, s, x);
    SearchInverts(t, s + x);
    NotRebuilt(s, name, x);
    assert Values([Binding(name, TailValue(x))]) == [TailValue(x)];
  }

  lemma OnlyEntry(e: Entry, t: Tree, k: Key, name: string)
    requires IsPattern(e.path) && KeyOf(e.path) == k && CatchName(e.path[1..]) == name && EndsWild(k)
    requires BuiltFrom([e], t)
    ensures RouteKeys(t) == {k} && t[k].fullPath == e.path && t[k].catchKey == name
  {
    var none: seq<Entry> := [];
    assert [e][..0] == none;
    assert TableOf([e]) == map[k := Route(e.chain, e.path)] && BindersOf([e]) == map[k := name];
    assert Routes(t).Keys == RouteKeys(t);
    assert k in Routes(t) && Binders(t)[k] == t[k].catchKey;
  }

  lemma NotRebuilt(s: string, name: string, x: string)
    requires s != "" && (Last(s) == '/' <==> x == "")
    ensures !Rebuilds(Bytes(s) + [CatchAll], s + x, [Binding(name, TailValue(x))], "/")
  {
    var b := [Binding(name, TailValue(x))];
    assert Tail(b) == x;
    assert (s + x)[..|s|] == s && Last("/" + s) == Last(s);
  }
}
