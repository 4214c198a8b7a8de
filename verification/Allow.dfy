/** Which methods a path answers: allowedMethods (router.go) against the dispatch
    decision of HandleStream and handleUnmatched (handler.go). */
module Allow {
  import opened Wrappers
  import opened Lexical
  import opened Trees
  import opened Routers

  const METHODS: seq<string> := ["GET", "POST", "PUT", "DELETE", "PATCH", "HEAD", "OPTIONS"]

  datatype Router = Router(tables: map<string, Table>, noAutoHEAD: bool, noAutoOPTIONS: bool)

  ghost predicate Rooted(r: Router) {
    forall m :: m in r.tables ==> [] in r.tables[m].tree
  }

  function Find(r: Router, verb: string, path: string): (f: Option<Found>)
    requires Rooted(r)
  {
    if verb in r.tables then LookUp(r.tables[verb], path) else None
  }

  predicate Has(r: Router, verb: string, path: string)
    requires Rooted(r)
  {
    Find(r, verb, path).Some?
  }

  ghost predicate Routed(r: Router, path: string)
    requires Rooted(r)
  {
    exists m :: m in r.tables && Has(r, m, path)
  }

  /** A request is served: by a route, by the GET route for HEAD, or by the automatic
      OPTIONS answer. */
  ghost predicate Serves(r: Router, verb: string, path: string)
    requires Rooted(r)
  {
    || Has(r, verb, path)
    || (verb == "HEAD" && !r.noAutoHEAD && Has(r, "GET", path))
    || (verb == "OPTIONS" && !r.noAutoOPTIONS && Routed(r, path))
  }

  /** The allow list: the standard methods, then the others. */
  datatype AllowList = AllowList(standard: seq<string>, custom: seq<string>) {
    predicate Empty() { standard == [] && custom == [] }
    predicate Lists(m: string) { m in standard || m in custom }

    /** The standard methods in their fixed order, the others in alphabetical order, none
        twice. */
    ghost predicate Ordered() { InOrder(standard) && Alphabetical(custom) }
  }

  function Codes(s: string): (c: seq<int>)
    ensures |c| == |s| && forall i :: 0 <= i < |s| ==> c[i] == s[i] as int
  {
    seq(|s|, i requires 0 <= i < |s| => s[i] as int)
  }

  predicate Ahead(a: string, b: string) { Less(Codes(a), Codes(b)) }

  lemma AheadTotal(a: string, b: string)
    ensures a == b || Ahead(a, b) || Ahead(b, a)
  {
    LessTotal(Codes(a), Codes(b));
    if Codes(a) == Codes(b) {
      assert forall i :: 0 <= i < |a| ==> Codes(a)[i] as char == Codes(b)[i] as char;
      assert a == b;
    }
  }

  ghost predicate Alphabetical(l: seq<string>) {
    forall i, j :: 0 <= i < j < |l| ==> Ahead(l[i], l[j])
  }

  /** The list with one more method, at its place. */
  method Place(l: seq<string>, m: string) returns (r: seq<string>)
    requires Alphabetical(l) && m !in l
    ensures Alphabetical(r) && forall x :: x in r <==> x in l || x == m
  {
    var k := 0;
    while k < |l| && Ahead(l[k], m)
      invariant 0 <= k <= |l| && forall i :: 0 <= i < k ==> Ahead(l[i], m)
    {
      k := k + 1;
    }
    forall i | k <= i < |l| ensures Ahead(m, l[i]) {
      AheadTotal(l[k], m);
      if i > k {
        LessTransitive(Codes(m), Codes(l[k]), Codes(l[i]));
      }
    }
    r := l[..k] + [m] + l[k..];
    assert l == l[..k] + l[k..];
  }

  method SortMethods(ms: set<string>) returns (l: seq<string>)
    ensures Alphabetical(l) && forall m :: m in l <==> m in ms
  {
    l := [];
    var left := ms;
    while left != {}
      invariant left <= ms && Alphabetical(l) && forall m :: m in l <==> m in ms - left
    {
      var m :| m in left;
      left := left - {m};
      l := Place(l, m);
    }
  }

  ghost predicate InOrder(l: seq<string>) {
    exists idx: seq<nat> ::
      && |idx| == |l|
      && (forall i :: 0 <= i < |l| ==> idx[i] < |METHODS| && l[i] == METHODS[idx[i]])
      && (forall i, j :: 0 <= i < j < |l| ==> idx[i] < idx[j])
  }

  /** The standard methods that are found and not excepted, in order. */
  method ListStandard(found: seq<bool>, except: string) returns (standard: seq<string>)
    requires |found| == |METHODS|
    ensures forall m :: m in standard <==> m != except && exists k :: 0 <= k < |METHODS| && found[k] && METHODS[k] == m
    ensures InOrder(standard)
  {
    standard := [];
    ghost var idx: seq<nat> := [];
    for i := 0 to |METHODS|
      invariant |idx| == |standard|
      invariant forall k :: 0 <= k < |idx| ==> idx[k] < i && standard[k] == METHODS[idx[k]]
      invariant forall j, k :: 0 <= j < k < |idx| ==> idx[j] < idx[k]
      invariant forall m :: m in standard <==> m != except && exists k :: 0 <= k < i && found[k] && METHODS[k] == m
    {
      if found[i] && METHODS[i] != except {
        standard := standard + [METHODS[i]];
        idx := idx + [i];
      }
    }
  }

  method AllowedMethods(r: Router, path: string, except: string) returns (l: AllowList)
    requires Rooted(r)
    ensures forall m :: l.Lists(m) <==> m != except && Serves(r, m, path)
    ensures l.Ordered()
  {
    var found := seq(|METHODS|, i requires 0 <= i < |METHODS| => Has(r, METHODS[i], path));
    var custom := set m | m in r.tables && m !in METHODS && Has(r, m, path);
    var routed := custom != {} || true in found;
    RoutedWhere(r, path, found, custom);
    if !routed {
      ghost var none: seq<nat> := [];
      assert InOrder([]) by { assert |none| == 0; }
      return AllowList([], []);
    }
    var auto := found[5 := found[5] || (found[0] && !r.noAutoHEAD)];
    auto := auto[6 := auto[6] || !r.noAutoOPTIONS];
    var standard := ListStandard(auto, except);
    var others := SortMethods(custom - {except});
    l := AllowList(standard, others);
    forall m ensures l.Lists(m) <==> m != except && Serves(r, m, path) {
      StandardServes(r, path, found, auto, m);
    }
  }

  lemma StandardServes(r: Router, path: string, found: seq<bool>, auto: seq<bool>, m: string)
    requires Rooted(r) && Routed(r, path) && |found| == |auto| == |METHODS|
    requires forall i :: 0 <= i < |METHODS| ==> found[i] == Has(r, METHODS[i], path)
    requires auto == found[5 := found[5] || (found[0] && !r.noAutoHEAD)][6 := found[6] || !r.noAutoOPTIONS]
    ensures Serves(r, m, path) <==>
            if m in METHODS then exists k :: 0 <= k < |METHODS| && auto[k] && METHODS[k] == m else Has(r, m, path)
  {
    assert METHODS[0] == "GET" && METHODS[5] == "HEAD" && METHODS[6] == "OPTIONS";
    assert "HEAD" in METHODS && "OPTIONS" in METHODS;
    if m in METHODS {
      var k :| 0 <= k < |METHODS| && METHODS[k] == m;
      assert forall i :: 0 <= i < |METHODS| && METHODS[i] == m ==> i == k;
      assert auto[k] <==> Serves(r, m, path);
    }
  }

  lemma RoutedWhere(r: Router, path: string, found: seq<bool>, custom: set<string>)
    requires Rooted(r) && |found| == |METHODS|
    requires forall i :: 0 <= i < |METHODS| ==> found[i] == Has(r, METHODS[i], path)
    requires forall m :: m in custom <==> m in r.tables && m !in METHODS && Has(r, m, path)
    ensures custom != {} || true in found <==> Routed(r, path)
  {
    if Routed(r, path) {
      var m :| m in r.tables && Has(r, m, path);
      if m in METHODS {
        var i :| 0 <= i < |METHODS| && METHODS[i] == m;
        assert found[i];
      } else {
        assert m in custom;
      }
    }
    if true in found {
      var i :| 0 <= i < |found| && found[i];
      assert METHODS[i] in r.tables && Has(r, METHODS[i], path);
    }
  }

  lemma ServesRouted(r: Router, verb: string, path: string)
    requires Rooted(r) && Serves(r, verb, path)
    ensures Routed(r, path)
  {
    if Has(r, verb, path) { assert verb in r.tables; }
    if Has(r, "GET", path) { assert "GET" in r.tables; }
  }

  lemma OnlyRouted(r: Router, path: string, except: string, l: AllowList)
    requires Rooted(r) && forall m :: l.Lists(m) <==> m != except && Serves(r, m, path)
    requires !l.Empty()
    ensures Routed(r, path)
  {
    if l.standard != [] {
      assert l.Lists(l.standard[0]);
      ServesRouted(r, l.standard[0], path);
    } else {
      assert l.Lists(l.custom[0]);
      ServesRouted(r, l.custom[0], path);
    }
  }

  /** A list that leaves out a method not served is empty only for a path without routes. */
  lemma EmptyList(r: Router, path: string, except: string, l: AllowList)
    requires Rooted(r) && forall m :: l.Lists(m) <==> m != except && Serves(r, m, path)
    requires !Serves(r, except, path)
    ensures l.Empty() <==> !Routed(r, path)
  {
    if Routed(r, path) {
      var m :| m in r.tables && Has(r, m, path);
      assert l.Lists(m);
    }
    if !l.Empty() { OnlyRouted(r, path, except, l); }
  }

  datatype Decision =
    | Run(route: Found)
    | AutoOptions(allow: AllowList)
    | MethodNotAllowed(allow: AllowList)
    | NotFound

  /** The decision for one request. It is served exactly when the method is one the
      path answers, unmatched exactly when the path has no route at all, and the
      Allow header of the other two answers lists what is served. */
  method Dispatch(r: Router, verb: string, path: string) returns (d: Decision)
    requires Rooted(r)
    ensures d.Run? || d.AutoOptions? <==> Serves(r, verb, path)
    ensures d.NotFound? <==> !Routed(r, path)
    ensures d.Run? ==> Some(d.route) == if Has(r, verb, path) then Find(r, verb, path) else Find(r, "GET", path)
    ensures d.MethodNotAllowed? || d.AutoOptions? ==> d.allow.Ordered()
    ensures d.MethodNotAllowed? ==> forall m :: d.allow.Lists(m) <==> Serves(r, m, path)
    ensures d.AutoOptions? ==> verb == "OPTIONS" && forall m :: d.allow.Lists(m) <==> m != "" && Serves(r, m, path)
  {
    var f := Find(r, verb, path);
    if f.None? && verb == "HEAD" && !r.noAutoHEAD {
      f := Find(r, "GET", path);
    }
    if f.Some? {
      return Run(f.value);
    }
    if verb == "OPTIONS" && !r.noAutoOPTIONS {
      var l := AllowedMethods(r, path, "");
      assert Routed(r, path) ==> l.Lists("OPTIONS");
      if !l.Empty() {
        OnlyRouted(r, path, "", l);
        return AutoOptions(l);
      }
      return NotFound;
    }
    var l := AllowedMethods(r, path, verb);
    EmptyList(r, path, verb, l);
    if !l.Empty() {
      return MethodNotAllowed(l);
    }
    return NotFound;
  }
}
