/** Registration order: when it matters for the answer to a path, and that otherwise it does
    not. The route table depends on the set of registrations only; the order decides which of
    several parameter names at one place is tried first. */
module Order {
  import opened Wrappers
  import opened Patterns
  import opened Trees
  import opened Lookup

  /** t and u have the same positions, holding the same. */
  ghost predicate SameTable(t: Tree, u: Tree) {
    && t.Keys == u.Keys
    && forall q :: q in t ==>
         && t[q].handlers == u[q].handlers && (t[q].handlers.Some? ==> t[q].fullPath == u[q].fullPath)
         && (EndsWild(q) ==> t[q].catchKey == u[q].catchKey)
  }

  lemma {:induction false} SameFirstStatic(t: Tree, u: Tree, q: Key, path: string, n: nat)
    requires t.Keys == u.Keys && n > 0
    ensures FirstStatic(t, q, path, n) == FirstStatic(u, q, path, n)
    decreases |path| - n
  {
    if n <= |path| { SameFirstStatic(t, u, q, path, n + 1); }
  }

  // ---------------------------------------------------- the wild part of a walk

  /** The parameter a at q takes the next segment, and the walk finds something behind it. */
  ghost predicate Takes(t: Tree, q: Key, path: string, a: string) {
    var e := SegmentEnd(path);
    e > 0 && q + [Param(a)] in t && Beyond(t, q + [Param(a)], path[e..]).Some?
  }

  /** What the walk then answers. */
  ghost function Bound(t: Tree, q: Key, path: string, a: string): (h: Hit)
    requires Takes(t, q, path, a)
  {
    var e := SegmentEnd(path);
    var r := Beyond(t, q + [Param(a)], path[e..]).value;
    Hit(r.key, [Binding(a, path[..e])] + r.binds)
  }

  /** The children a walk at q may be given. */
  ghost predicate KidsOf(t: Tree, q: Key, kids: seq<Key>) {
    forall i :: 0 <= i < |kids| ==>
      && kids[i] in t && q < kids[i]
      && (!kids[i][|q|].Byte? ==> kids[i] == q + [kids[i][|q|]])
  }

  lemma KidsAre(t: Tree, q: Key)
    requires ValidTree(t) && q in t
    ensures KidsOf(t, q, t[q].kids) && Sorted(q, t[q].kids)
    ensures forall tok: Token :: !tok.Byte? ==> (q + [tok] in t <==> q + [tok] in t[q].kids)
  {
    var kids := t[q].kids;
    assert GoodKids(t, q, kids);
    forall i | 0 <= i < |kids| && !kids[i][|q|].Byte? ensures kids[i] == q + [kids[i][|q|]] {
      assert kids[i][|q|..][0] == kids[i][|q|];
    }
    forall tok: Token | !tok.Byte? && q + [tok] in t ensures q + [tok] in kids {
      var j := WildKid(t, q, q + [tok]);
    }
  }

  /** The first parameter is tried first. */
  lemma {:induction false} FirstTaker(t: Tree, q: Key, kids: seq<Key>, path: string, a: string, i: nat)
    requires q in t && path != "" && KidsOf(t, q, kids)
    requires FirstAt(q, kids, q + [Param(a)], i) && Takes(t, q, path, a)
    ensures ResolveWild(t, q, kids, path) == Some(Bound(t, q, path, a))
    decreases |kids|
  {
    if i > 0 {
      assert kids[0][|q|].Byte?;
      FirstTaker(t, q, kids[1..], path, a, i - 1);
    } else {
      ParamStep(t, q, kids, path);
    }
  }

  /** The only parameter that takes the segment is found, wherever it stands. */
  lemma {:induction false} OnlyTaker(t: Tree, q: Key, kids: seq<Key>, path: string, a: string)
    requires q in t && path != "" && KidsOf(t, q, kids) && Sorted(q, kids) && q + [Param(a)] in kids
    requires Takes(t, q, path, a) && forall b :: Takes(t, q, path, b) ==> b == a
    ensures ResolveWild(t, q, kids, path) == Some(Bound(t, q, path, a))
    decreases |kids|
  {
    var x := q + [Param(a)];
    var i :| 0 <= i < |kids| && kids[i] == x;
    if i > 0 {
      assert kids[1..][i - 1] == x;
      OnlyTaker(t, q, kids[1..], path, a);
      PassedOver(t, q, kids, path);
    } else {
      ParamStep(t, q, kids, path);
    }
  }

  /** A first child that does not take the segment is passed over. */
  lemma PassedOver(t: Tree, q: Key, kids: seq<Key>, path: string)
    requires q in t && path != "" && KidsOf(t, q, kids) && kids != [] && !kids[0][|q|].CatchAll?
    requires kids[0][|q|].Param? ==> !Takes(t, q, path, kids[0][|q|].key)
    ensures ResolveWild(t, q, kids, path) == ResolveWild(t, q, kids[1..], path)
  {
    if kids[0][|q|].Param? {
      ParamStep(t, q, kids, path);
    }
  }

  /** If no parameter takes the segment, the catch-all answers, if there is one. */
  lemma {:induction false} NoTaker(t: Tree, q: Key, kids: seq<Key>, path: string)
    requires q in t && path != "" && KidsOf(t, q, kids) && forall b :: !Takes(t, q, path, b)
    ensures ResolveWild(t, q, kids, path) ==
      var w := q + [CatchAll];
      if w in kids then Some(Hit(w, [Binding(t[w].catchKey, "/" + path)])) else None
    decreases |kids|
  {
    if kids != [] {
      NoTaker(t, q, kids[1..], path);
      assert q + [CatchAll] in kids <==> kids[0] == q + [CatchAll] || q + [CatchAll] in kids[1..];
      if !kids[0][|q|].CatchAll? {
        PassedOver(t, q, kids, path);
      }
    }
  }

  /** The wild part succeeds if a parameter takes the segment or there is a catch-all. */
  lemma {:induction false} WildSome(t: Tree, q: Key, kids: seq<Key>, path: string, a: string)
    requires q in t && path != "" && KidsOf(t, q, kids) && q + [Param(a)] in kids && Takes(t, q, path, a)
    ensures ResolveWild(t, q, kids, path).Some?
    decreases |kids|
  {
    var i :| 0 <= i < |kids| && kids[i] == q + [Param(a)];
    if i > 0 {
      assert kids[1..][i - 1] == q + [Param(a)];
      WildSome(t, q, kids[1..], path, a);
    }
    if !kids[0][|q|].Byte? && !kids[0][|q|].CatchAll? {
      ParamStep(t, q, kids, path);
    }
  }

  lemma WildAnswers(t: Tree, q: Key, path: string)
    requires ValidTree(t) && q in t && path != ""
    ensures ResolveWild(t, q, t[q].kids, path).Some? <==>
      q + [CatchAll] in t || exists a :: Takes(t, q, path, a)
  {
    KidsAre(t, q);
    if a :| Takes(t, q, path, a) {
      WildSome(t, q, t[q].kids, path, a);
    } else {
      NoTaker(t, q, t[q].kids, path);
    }
  }

  // ------------------------------------------------ success does not depend on order

  /** Whether the walk finds something depends on the route table only. */
  lemma {:induction false} SameSuccess(t: Tree, u: Tree, q: Key, path: string)
    requires ValidTree(t) && ValidTree(u) && SameTable(t, u) && q in t && path != ""
    ensures Resolve(t, q, path).Some? <==> Resolve(u, q, path).Some?
    decreases |path|, 1
  {
    SameFirstStatic(t, u, q, path, 1);
    var n := FirstStatic(t, q, path, 1);
    if 0 < n < |path| {
      SameSuccess(t, u, q + Bytes(path[..n]), path[n..]);
    }
    WildAnswers(t, q, path);
    WildAnswers(u, q, path);
    forall a ensures Takes(t, q, path, a) <==> Takes(u, q, path, a) {
      SameTakes(t, u, q, path, a);
    }
  }

  lemma {:induction false} SameTakes(t: Tree, u: Tree, q: Key, path: string, a: string)
    requires ValidTree(t) && ValidTree(u) && SameTable(t, u) && q in t && path != ""
    ensures Takes(t, q, path, a) <==> Takes(u, q, path, a)
    decreases |path|, 0
  {
    var e, k := SegmentEnd(path), q + [Param(a)];
    if e > 0 && k in t && path[e..] != "" {
      SameSuccess(t, u, k, path[e..]);
    }
  }

  // ------------------------------------------------------- where order decides

  /** Two parameters at q take the next segment. */
  ghost predicate Forked(t: Tree, q: Key, path: string) {
    exists a, b :: a != b && Takes(t, q, path, a) && Takes(t, q, path, b)
  }

  /** The walk is over, or goes on along static text, so that no parameter is asked. */
  ghost predicate Static(t: Tree, q: Key, path: string)
    requires q in t && path != ""
  {
    var n := FirstStatic(t, q, path, 1);
    n == |path| || (n > 0 && Resolve(t, q + Bytes(path[..n]), path[n..]).Some?)
  }

  /** A parameter that takes the segment comes before a catch-all. */
  lemma {:induction false} ParamFirst(t: Tree, q: Key, kids: seq<Key>, path: string, a: string)
    requires ValidTree(t) && WildServed(t) && q in t && path != "" && KidsOf(t, q, kids) && Sorted(q, kids)
    requires q + [Param(a)] in kids && Takes(t, q, path, a)
    ensures var r := ResolveWild(t, q, kids, path); r.Some? && |q| < |r.value.key| && r.value.key[|q|].Param?
    decreases |kids|
  {
    var x, e := q + [Param(a)], SegmentEnd(path);
    var i :| 0 <= i < |kids| && kids[i] == x;
    if kids[0][|q|].Param? {
      ParamStep(t, q, kids, path);
      if path[e..] != "" {
        ResolveSound(t, kids[0], path[e..]);
      }
    }
    if i > 0 {
      assert kids[1..][i - 1] == x;
      ParamFirst(t, q, kids[1..], path, a);
    }
  }

  /** Static text before a parameter before a catch-all: the answer goes on from q along
      static text exactly if that succeeds, through a parameter exactly if static text does
      not and some parameter takes the segment, and through a catch-all otherwise. */
  lemma Precedence(t: Tree, q: Key, path: string)
    requires ValidTree(t) && WildServed(t) && q in t && path != "" && Resolve(t, q, path).Some?
    ensures var k := Resolve(t, q, path).value.key;
      && q < k && (k[|q|].Byte? <==> Static(t, q, path))
      && (k[|q|].Param? <==> !Static(t, q, path) && exists a :: Takes(t, q, path, a))
  {
    ResolveSound(t, q, path);
    var n := FirstStatic(t, q, path, 1);
    var c := q + Bytes(path[..n]);
    if Static(t, q, path) {
      if n < |path| {
        ResolveSound(t, c, path[n..]);
      }
      assert c[|q|] == Byte(path[0]);
    } else {
      KidsAre(t, q);
      if a :| Takes(t, q, path, a) {
        ParamFirst(t, q, t[q].kids, path, a);
      } else {
        NoTaker(t, q, t[q].kids, path);
      }
    }
  }

  /** On its way over path the walk comes to a place where routes under two parameter names
      are found: it goes on along static text if that succeeds, and behind the one parameter
      that takes the segment otherwise. */
  ghost predicate Ambiguous(t: Tree, q: Key, path: string)
    requires q in t && path != ""
    decreases |path|
  {
    var n, e := FirstStatic(t, q, path, 1), SegmentEnd(path);
    if Static(t, q, path) then n < |path| && Ambiguous(t, q + Bytes(path[..n]), path[n..])
    else Forked(t, q, path) ||
         (0 < e < |path| && exists a :: Takes(t, q, path, a) && Ambiguous(t, q + [Param(a)], path[e..]))
  }

  /** Where there is no such place, the answer depends on the route table only. */
  lemma {:induction false} SameAnswer(t: Tree, u: Tree, q: Key, path: string)
    requires ValidTree(t) && ValidTree(u) && SameTable(t, u) && q in t && path != "" && !Ambiguous(t, q, path)
    ensures Resolve(t, q, path) == Resolve(u, q, path)
    decreases |path|, 1
  {
    SameFirstStatic(t, u, q, path, 1);
    var n := FirstStatic(t, q, path, 1);
    var c := q + Bytes(path[..n]);
    if n < |path| {
      if n > 0 {
        SameSuccess(t, u, c, path[n..]);
      }
      if Static(t, q, path) {
        SameAnswer(t, u, c, path[n..]);
      } else {
        SameWildAnswer(t, u, q, path);
      }
    }
  }

  lemma {:induction false} SameWildAnswer(t: Tree, u: Tree, q: Key, path: string)
    requires ValidTree(t) && ValidTree(u) && SameTable(t, u) && q in t && path != ""
    requires !Static(t, q, path) && !Ambiguous(t, q, path)
    ensures ResolveWild(t, q, t[q].kids, path) == ResolveWild(u, q, u[q].kids, path)
    decreases |path|, 0
  {
    KidsAre(t, q);
    KidsAre(u, q);
    forall b ensures Takes(t, q, path, b) <==> Takes(u, q, path, b) {
      SameTakes(t, u, q, path, b);
    }
    if a :| Takes(t, q, path, a) {
      OnlyTaker(t, q, t[q].kids, path, a);
      OnlyTaker(u, q, u[q].kids, path, a);
      var e := SegmentEnd(path);
      if e < |path| {
        SameAnswer(t, u, q + [Param(a)], path[e..]);
      }
    } else {
      NoTaker(t, q, t[q].kids, path);
      NoTaker(u, q, u[q].kids, path);
      assert EndsWild(q + [CatchAll]);
    }
  }

  /** The place where the routes part, and two names there. */
  datatype Fork = Fork(at: Key, one: string, other: string)

  ghost function ForkOf(t: Tree, q: Key, path: string): (f: Fork)
    requires q in t && path != "" && Ambiguous(t, q, path)
    ensures f.one != f.other && f.at + [Param(f.one)] in t && f.at + [Param(f.other)] in t
    decreases |path|
  {
    var n, e := FirstStatic(t, q, path, 1), SegmentEnd(path);
    if Static(t, q, path) then ForkOf(t, q + Bytes(path[..n]), path[n..])
    else if Forked(t, q, path) then
      var a, b :| a != b && Takes(t, q, path, a) && Takes(t, q, path, b);
      Fork(q, a, b)
    else
      var a :| Takes(t, q, path, a) && Ambiguous(t, q + [Param(a)], path[e..]);
      ForkOf(t, q + [Param(a)], path[e..])
  }

  /** Where there is one, the first of the two names at the fork is the one that answers. */
  lemma {:induction false} ForkDecides(t: Tree, u: Tree, q: Key, path: string, a: string)
    requires ValidTree(t) && ValidTree(u) && SameTable(t, u) && WildServed(u)
    requires q in t && path != "" && Ambiguous(t, q, path)
    requires var f := ForkOf(t, q, path);
      (a == f.one || a == f.other) && f.at in u && FirstParam(f.at, u[f.at].kids, f.at + [Param(a)])
    ensures Resolve(u, q, path).Some? && ForkOf(t, q, path).at + [Param(a)] <= Resolve(u, q, path).value.key
    decreases |path|
  {
    SameFirstStatic(t, u, q, path, 1);
    var n, e := FirstStatic(t, q, path, 1), SegmentEnd(path);
    var c := q + Bytes(path[..n]);
    if 0 < n < |path| {
      SameSuccess(t, u, c, path[n..]);
    }
    if Static(t, q, path) {
      ForkDecides(t, u, c, path[n..], a);
    } else if Forked(t, q, path) {
      SameTakes(t, u, q, path, a);
      ForkHere(u, q, path, a);
    } else {
      var b :| Takes(t, q, path, b) && Ambiguous(t, q + [Param(b)], path[e..])
             && ForkOf(t, q, path) == ForkOf(t, q + [Param(b)], path[e..]);
      ForkDecides(t, u, q + [Param(b)], path[e..], a);
      TakerAnswers(t, u, q, path, b);
    }
  }

  lemma ForkHere(u: Tree, q: Key, path: string, a: string)
    requires ValidTree(u) && WildServed(u) && q in u && path != "" && Takes(u, q, path, a)
    requires FirstParam(q, u[q].kids, q + [Param(a)])
    ensures var r := ResolveWild(u, q, u[q].kids, path); r.Some? && q + [Param(a)] <= r.value.key
  {
    KidsAre(u, q);
    var i: nat :| FirstAt(q, u[q].kids, q + [Param(a)], i);
    FirstTaker(u, q, u[q].kids, path, a, i);
    var e := SegmentEnd(path);
    if path[e..] != "" {
      ResolveSound(u, q + [Param(a)], path[e..]);
    }
  }

  lemma TakerAnswers(t: Tree, u: Tree, q: Key, path: string, b: string)
    requires ValidTree(t) && ValidTree(u) && SameTable(t, u) && q in t && path != ""
    requires Takes(t, q, path, b) && !Forked(t, q, path)
    ensures Takes(u, q, path, b) && ResolveWild(u, q, u[q].kids, path) == Some(Bound(u, q, path, b))
  {
    KidsAre(u, q);
    forall x ensures Takes(t, q, path, x) <==> Takes(u, q, path, x) {
      SameTakes(t, u, q, path, x);
    }
    OnlyTaker(u, q, u[q].kids, path, b);
  }

  // ----------------------------------------------------- lists of registrations

  datatype Entry = Entry(path: string, chain: Chain)

  ghost predicate Proper(es: seq<Entry>) {
    forall i :: 0 <= i < |es| ==> IsPattern(es[i].path)
  }

  /** The route table after registering es in order. */
  ghost function TableOf(es: seq<Entry>): (m: map<Key, Route>)
    requires Proper(es)
  {
    if es == [] then map[]
    else
      var e := es[|es| - 1];
      TableOf(es[..|es| - 1])[KeyOf(e.path) := Route(e.chain, e.path)]
  }

  /** The catch-all names after registering es in order. */
  ghost function BindersOf(es: seq<Entry>): (m: map<Key, string>)
    requires Proper(es)
  {
    if es == [] then map[]
    else
      var e := es[|es| - 1];
      BindersWith(BindersOf(es[..|es| - 1]), KeyOf(e.path), CatchName(e.path[1..]))
  }

  lemma OneMore(es: seq<Entry>, i: nat)
    requires Proper(es) && i < |es|
    ensures var e, before := es[i], es[..i];
      && TableOf(es[..i + 1]) == TableOf(before)[KeyOf(e.path) := Route(e.chain, e.path)]
      && BindersOf(es[..i + 1]) == BindersWith(BindersOf(before), KeyOf(e.path), CatchName(e.path[1..]))
  {
    assert es[..i + 1][..i] == es[..i];
  }

  /** No two registrations share a key. */
  ghost predicate Distinct(es: seq<Entry>)
    requires Proper(es)
  {
    forall i, j :: 0 <= i < j < |es| ==> KeyOf(es[i].path) != KeyOf(es[j].path)
  }

  lemma {:induction false} TableEntries(es: seq<Entry>, k: Key)
    requires Proper(es) && Distinct(es)
    ensures k in TableOf(es) <==> exists i :: 0 <= i < |es| && KeyOf(es[i].path) == k
    ensures k in BindersOf(es) <==> k in TableOf(es) && EndsWild(k)
    ensures forall i :: 0 <= i < |es| && KeyOf(es[i].path) == k ==>
              && TableOf(es)[k] == Route(es[i].chain, es[i].path)
              && (EndsWild(k) ==> BindersOf(es)[k] == CatchName(es[i].path[1..]))
  {
    if es != [] {
      var init, e := es[..|es| - 1], es[|es| - 1];
      TableEntries(init, k);
      if KeyOf(e.path) == k {
        assert es[|es| - 1].path == e.path;
        assert forall i :: 0 <= i < |init| ==> KeyOf(es[i].path) != KeyOf(es[|es| - 1].path);
      } else {
        assert forall i :: 0 <= i < |init| ==> init[i] == es[i];
      }
    }
  }

  lemma SameElements(es: seq<Entry>, fs: seq<Entry>)
    requires multiset(es) == multiset(fs)
    ensures forall e :: e in es <==> e in fs
  {
    forall e ensures e in es <==> e in fs {
      assert e in es <==> e in multiset(es);
      assert e in fs <==> e in multiset(fs);
    }
  }

  /** Distinct registrations give the same table and names in any order. */
  lemma SameRegistrations(es: seq<Entry>, fs: seq<Entry>)
    requires Proper(es) && Proper(fs) && Distinct(es) && Distinct(fs)
    requires multiset(es) == multiset(fs)
    ensures TableOf(es) == TableOf(fs) && BindersOf(es) == BindersOf(fs)
  {
    SameElements(es, fs);
    forall k
      ensures k in TableOf(es) <==> k in TableOf(fs)
      ensures k in BindersOf(es) <==> k in BindersOf(fs)
      ensures k in TableOf(es) ==> TableOf(es)[k] == TableOf(fs)[k]
      ensures k in BindersOf(es) ==> BindersOf(es)[k] == BindersOf(fs)[k]
    {
      TableEntries(es, k);
      TableEntries(fs, k);
      if i :| 0 <= i < |es| && KeyOf(es[i].path) == k {
        assert es[i] in fs;
        var j :| 0 <= j < |fs| && fs[j] == es[i];
      }
      if i :| 0 <= i < |fs| && KeyOf(fs[i].path) == k {
        assert fs[i] in es;
        var j :| 0 <= j < |es| && es[j] == fs[i];
      }
    }
  }

  lemma TableGivesTree(t: Tree, u: Tree)
    requires Registered(t) && Registered(u)
    requires Routes(t) == Routes(u) && Binders(t) == Binders(u)
    ensures SameTable(t, u)
  {
    assert RouteKeys(t) == RouteKeys(u);
    forall q ensures q in t <==> q in u {
      assert q in t <==> IsPosition(RouteKeys(t), q);
      assert q in u <==> IsPosition(RouteKeys(u), q);
    }
    assert t.Keys == u.Keys;
    forall q | q in t
      ensures t[q].handlers == u[q].handlers && (t[q].handlers.Some? ==> t[q].fullPath == u[q].fullPath)
      ensures EndsWild(q) ==> t[q].catchKey == u[q].catchKey
    {
      if q in RouteKeys(t) { assert Routes(t)[q] == Routes(u)[q]; } else { assert q !in RouteKeys(u); }
      if EndsWild(q) { assert q in Binders(t) && Binders(t)[q] == Binders(u)[q]; }
    }
  }

  // ------------------------------------------------------- orders of registration

  /** Every parameter of the key k is the first at its place. */
  ghost predicate FirstNames(t: Tree, k: Key) {
    forall i {:trigger k[i]} :: 0 <= i < |k| && k[i].Param? ==>
      k[..i] in t && FirstParam(k[..i], t[k[..i]].kids, k[..i + 1])
  }

  /** A tree that registering es in order leaves. */
  ghost predicate BuiltFrom(es: seq<Entry>, t: Tree)
    requires Proper(es)
  {
    && ValidTree(t) && Registered(t) && Routes(t) == TableOf(es) && Binders(t) == BindersOf(es)
    && (es != [] ==> FirstNames(t, KeyOf(es[0].path)))
  }

  /** With one route only, its parameters have no rivals. */
  lemma OneRoute(t: Tree, k: Key)
    requires ValidTree(t) && Registered(t) && RouteKeys(t) == {k}
    ensures FirstNames(t, k)
  {
    forall i | 0 <= i < |k| && k[i].Param?
      ensures k[..i] in t && FirstParam(k[..i], t[k[..i]].kids, k[..i + 1])
    {
      NoRival(t, k, i);
    }
  }

  lemma NoRival(t: Tree, k: Key, i: nat)
    requires ValidTree(t) && Registered(t) && RouteKeys(t) == {k} && i < |k| && k[i].Param?
    ensures k[..i] in t && FirstParam(k[..i], t[k[..i]].kids, k[..i + 1])
  {
    var q, x := k[..i], k[..i + 1];
    assert IsPosition({k}, q) && IsPosition({k}, x) by {
      assert Boundary(k, |q|) && Boundary(k, |x|);
    }
    assert q in t && x in t && x == q + [k[i]];
    var j := WildKid(t, q, x);
    OnlyWay(t, k, q, 0);
    assert GoodKids(t, q, t[q].kids);
    assert j == 0;
    assert FirstAt(q, t[q].kids, x, 0);
  }

  lemma OnlyWay(t: Tree, k: Key, q: Key, m: nat)
    requires ValidTree(t) && Registered(t) && RouteKeys(t) == {k} && q in t && q < k && m < |t[q].kids|
    ensures |q| < |t[q].kids[m]| && t[q].kids[m][|q|] == k[|q|]
  {
    assert GoodKids(t, q, t[q].kids);
    assert IsPosition({k}, t[q].kids[m]);
    var l := PositionBelowKey({k}, t[q].kids[m]);
  }

  lemma FirstNamesKept(t: Tree, u: Tree, k: Key)
    requires FirstNames(t, k) && OrderKept(t, u)
    ensures FirstNames(u, k)
  {
    forall i | 0 <= i < |k| && k[i].Param?
      ensures k[..i] in u && FirstParam(k[..i], u[k[..i]].kids, k[..i + 1])
    {
      assert FirstParam(k[..i], t[k[..i]].kids, k[..i + 1]);
    }
  }

  /** One more registration. */
  lemma BuiltOneMore(es: seq<Entry>, i: nat, t: Tree, u: Tree)
    requires Proper(es) && i < |es| && BuiltFrom(es[..i], t) && ValidTree(u) && Registered(u)
    requires Routes(u) == Routes(t)[KeyOf(es[i].path) := Route(es[i].chain, es[i].path)]
    requires Binders(u) == BindersWith(Binders(t), KeyOf(es[i].path), CatchName(es[i].path[1..]))
    requires OrderKept(t, u)
    ensures BuiltFrom(es[..i + 1], u)
  {
    OneMore(es, i);
    if i == 0 {
      assert Routes(u).Keys == RouteKeys(u) && Routes(t) == map[];
      OneRoute(u, KeyOf(es[0].path));
    } else {
      FirstNamesKept(t, u, KeyOf(es[0].path));
    }
  }

  lemma SameRoutesSameTable(es: seq<Entry>, fs: seq<Entry>, t: Tree, u: Tree)
    requires Proper(es) && Proper(fs) && Distinct(es) && Distinct(fs) && multiset(es) == multiset(fs)
    requires BuiltFrom(es, t) && BuiltFrom(fs, u)
    ensures SameTable(t, u)
  {
    SameRegistrations(es, fs);
    TableGivesTree(t, u);
  }

  /** Two tries with the same registrations, in whatever order they were made, answer a path
      alike unless routes under two names of one place are found on it. */
  lemma OrderIrrelevant(es: seq<Entry>, fs: seq<Entry>, t: Tree, u: Tree, path: string)
    requires Proper(es) && Proper(fs) && Distinct(es) && Distinct(fs) && multiset(es) == multiset(fs)
    requires BuiltFrom(es, t) && BuiltFrom(fs, u) && path != "" && !Ambiguous(t, [], path)
    ensures Resolve(t, [], path) == Resolve(u, [], path)
  {
    SameRoutesSameTable(es, fs, t, u);
    SameAnswer(t, u, [], path);
  }

  /** The registrations with number i made first. */
  ghost function Front(es: seq<Entry>, i: nat): (fs: seq<Entry>)
    requires i < |es|
    ensures |fs| == |es| && fs[0] == es[i]
  {
    [es[i]] + es[..i] + es[i + 1..]
  }

  lemma FrontIs(es: seq<Entry>, i: nat)
    requires i < |es| && Proper(es) && Distinct(es)
    ensures Proper(Front(es, i)) && Distinct(Front(es, i)) && multiset(Front(es, i)) == multiset(es)
  {
    var fs := Front(es, i);
    forall k | 0 <= k < |es| ensures fs[k] == es[if k == 0 then i else if k <= i then k - 1 else k] {
    }
    assert es == es[..i] + [es[i]] + es[i + 1..];
  }

  /** A name at a fork is a name in some registration. */
  lemma NameFrom(es: seq<Entry>, t: Tree, q: Key, a: string) returns (i: nat)
    requires Proper(es) && Distinct(es) && BuiltFrom(es, t) && q + [Param(a)] in t
    ensures i < |es| && q + [Param(a)] <= KeyOf(es[i].path)
  {
    assert IsPosition(RouteKeys(t), q + [Param(a)]);
    var k := PositionBelowKey(RouteKeys(t), q + [Param(a)]);
    assert k in TableOf(es);
    TableEntries(es, k);
    i :| 0 <= i < |es| && KeyOf(es[i].path) == k;
  }

  /** A name that some registration has comes first when that registration does. */
  lemma FrontFirst(es: seq<Entry>, i: nat, u: Tree, q: Key, a: string)
    requires Proper(es) && Distinct(es) && i < |es| && q + [Param(a)] <= KeyOf(es[i].path)
    requires Proper(Front(es, i)) && BuiltFrom(Front(es, i), u)
    ensures q in u && FirstParam(q, u[q].kids, q + [Param(a)])
  {
    var k := KeyOf(es[i].path);
    assert k[|q|] == Param(a) && k[..|q|] == q && k[..|q| + 1] == q + [Param(a)];
  }

  /** What a tree answers to a path. */
  ghost function AnswerOf(t: Tree, path: string): (h: Option<Hit>) {
    if [] in t && path != "" then Resolve(t, [], path) else None
  }

  lemma KeysDiffer(f: Fork, k: Key, l: Key)
    requires f.one != f.other && f.at + [Param(f.one)] <= k && f.at + [Param(f.other)] <= l
    ensures k != l
  {
    assert k[|f.at|] == Param(f.one) && l[|f.at|] == Param(f.other);
  }

  /** Order matters exactly there: of the tries that make each registration first in turn, two
      answer the path differently if and only if routes under two names of one place are
      found on it. */
  lemma OrderMatters(es: seq<Entry>, t: Tree, us: seq<Tree>, path: string)
    requires Proper(es) && Distinct(es) && BuiltFrom(es, t) && path != "" && |us| == |es|
    requires forall i :: 0 <= i < |es| ==> Proper(Front(es, i)) && BuiltFrom(Front(es, i), us[i])
    ensures Ambiguous(t, [], path) <==>
      exists i, j :: 0 <= i < |es| && 0 <= j < |es| && AnswerOf(us[i], path) != AnswerOf(us[j], path)
  {
    if Ambiguous(t, [], path) {
      var f := ForkOf(t, [], path);
      var i := NameFrom(es, t, f.at, f.one);
      var j := NameFrom(es, t, f.at, f.other);
      FrontAnswers(es, t, i, us[i], path, f.one);
      FrontAnswers(es, t, j, us[j], path, f.other);
      KeysDiffer(f, AnswerOf(us[i], path).value.key, AnswerOf(us[j], path).value.key);
    } else {
      forall i | 0 <= i < |es| ensures AnswerOf(us[i], path) == AnswerOf(t, path) {
        FrontIs(es, i);
        OrderIrrelevant(es, Front(es, i), t, us[i], path);
      }
    }
  }

  lemma FrontAnswers(es: seq<Entry>, t: Tree, i: nat, u: Tree, path: string, a: string)
    requires Proper(es) && Distinct(es) && BuiltFrom(es, t) && path != "" && Ambiguous(t, [], path) && i < |es|
    requires Proper(Front(es, i)) && BuiltFrom(Front(es, i), u)
    requires var f := ForkOf(t, [], path);
      (a == f.one || a == f.other) && f.at + [Param(a)] <= KeyOf(es[i].path)
    ensures Resolve(u, [], path).Some? && ForkOf(t, [], path).at + [Param(a)] <= Resolve(u, [], path).value.key
  {
    FrontIs(es, i);
    SameRoutesSameTable(es, Front(es, i), t, u);
    RegisteredServes(u);
    FrontFirst(es, i, u, ForkOf(t, [], path).at, a);
    ForkDecides(t, u, [], path, a);
  }

  // ---------------------------------------------------------- one name per place

  /** At most one parameter name at each place of the keys K. */
  ghost predicate OneNamePerPlace(K: set<Key>) {
    forall k: Key, l: Key, i :: k in K && l in K && 0 <= i < |k| && i < |l| && k[..i] == l[..i] ==>
      k[i].Param? && l[i].Param? ==> k[i] == l[i]
  }

  ghost predicate OneName(A: set<Key>) {
    forall q, a, b :: q + [Param(a)] in A && q + [Param(b)] in A ==> a == b
  }

  lemma OneNameEverywhere(t: Tree)
    requires Registered(t) && OneNamePerPlace(RouteKeys(t))
    ensures OneName(t.Keys)
  {
    forall q, a, b | q + [Param(a)] in t.Keys && q + [Param(b)] in t.Keys ensures a == b {
      assert IsPosition(RouteKeys(t), q + [Param(a)]) && IsPosition(RouteKeys(t), q + [Param(b)]);
      var k := PositionBelowKey(RouteKeys(t), q + [Param(a)]);
      var l := PositionBelowKey(RouteKeys(t), q + [Param(b)]);
      assert k[..|q|] == q == l[..|q|] && k[|q|] == Param(a) && l[|q|] == Param(b);
    }
  }

  lemma {:induction false} OneNameClear(t: Tree, q: Key, path: string)
    requires OneName(t.Keys) && q in t && path != ""
    ensures !Ambiguous(t, q, path)
    decreases |path|
  {
    var n, e := FirstStatic(t, q, path, 1), SegmentEnd(path);
    if 0 < n < |path| {
      OneNameClear(t, q + Bytes(path[..n]), path[n..]);
    }
    if 0 < e < |path| {
      forall a | q + [Param(a)] in t ensures !Ambiguous(t, q + [Param(a)], path[e..]) {
        OneNameClear(t, q + [Param(a)], path[e..]);
      }
    }
  }

  /** With one name at each place order never matters. */
  lemma OneNameSuffices(es: seq<Entry>, fs: seq<Entry>, t: Tree, u: Tree, path: string)
    requires Proper(es) && Proper(fs) && Distinct(es) && Distinct(fs) && multiset(es) == multiset(fs)
    requires BuiltFrom(es, t) && BuiltFrom(fs, u) && path != "" && OneNamePerPlace(RouteKeys(t))
    ensures Resolve(t, [], path) == Resolve(u, [], path)
  {
    OneNameEverywhere(t);
    OneNameClear(t, [], path);
    OrderIrrelevant(es, fs, t, u, path);
  }
}
