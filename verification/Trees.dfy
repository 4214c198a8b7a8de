/** The radix trie as a value: rows by position. Registration steps (a new leaf, a
    split) keep a tree valid; the heap trie is proved to follow them. */
module Trees {
  import opened Wrappers
  import opened Patterns

  /** A composed handler chain, known by the identities of its handlers. */
  type Chain = seq<nat>

  /** One node: what its edge spells, the positions of its children in search order,
      what is registered there, and the name a catch-all binds. */
  datatype Row = Row(edge: Key, kids: seq<Key>, handlers: Option<Chain>, fullPath: string, catchKey: string)
  type Tree = map<Key, Row>

  const ROOT_ROW := Row([Byte('/')], [], None, "", "")

  function Rank(t: Token): nat {
    match t case Byte(_) => 0 case Param(_) => 1 case CatchAll => 2
  }

  /** What a single edge can spell: static text, one parameter or one catch-all. */
  ghost predicate IsLabel(l: Key) {
    && l != []
    && (|l| > 1 ==> forall i :: 0 <= i < |l| ==> l[i].Byte?)
  }

  ghost predicate Sorted(q: Key, kids: seq<Key>)
    requires forall i :: 0 <= i < |kids| ==> |q| < |kids[i]|
  {
    forall i, j :: 0 <= i < j < |kids| ==>
      Rank(kids[i][|q|]) <= Rank(kids[j][|q|]) && kids[i][|q|] != kids[j][|q|]
  }

  /** The children of q exist, are one edge away and start with different tokens,
      in the order static, parameter, catch-all. */
  ghost predicate GoodKids(t: Tree, q: Key, kids: seq<Key>) {
    && (forall i :: 0 <= i < |kids| ==>
          kids[i] in t && q < kids[i] && t[kids[i]].edge == kids[i][|q|..] && IsLabel(kids[i][|q|..]))
    && Sorted(q, kids)
  }

  /** Some child is on the way to r. */
  ghost predicate Leads(kids: seq<Key>, r: Key) {
    exists i :: 0 <= i < |kids| && kids[i] <= r
  }

  lemma LeadsOn(kids: seq<Key>, r: Key, s: Key)
    requires Leads(kids, r) && r <= s
    ensures Leads(kids, s)
  {
    var i :| 0 <= i < |kids| && kids[i] <= r;
    assert kids[i] <= s;
  }

  ghost predicate WellLinked(t: Tree) {
    forall q {:trigger GoodKids(t, q, t[q].kids)} :: q in t ==> GoodKids(t, q, t[q].kids)
  }

  ghost predicate Navigable(t: Tree) {
    forall q, r {:trigger Leads(t[q].kids, r)} :: q in t && r in t && q < r ==> Leads(t[q].kids, r)
  }

  ghost predicate ValidTree(t: Tree) {
    [] in t && WellLinked(t) && Navigable(t) && BranchClosed(t.Keys)
  }

  /** Where insertSorted puts x among the children of q. */
  ghost predicate SortedSpot(q: Key, kids: seq<Key>, x: Key, i: nat)
    requires forall j :: 0 <= j < |kids| ==> |q| < |kids[j]|
    requires |q| < |x|
  {
    && i <= |kids|
    && (forall j :: 0 <= j < i ==> Rank(kids[j][|q|]) <= Rank(x[|q|]))
    && (forall j :: i <= j < |kids| ==> Rank(kids[j][|q|]) > Rank(x[|q|]))
  }

  ghost function InsertAt(kids: seq<Key>, i: nat, x: Key): (r: seq<Key>)
    requires i <= |kids|
  {
    kids[..i] + [x] + kids[i..]
  }

  /** The tree with a new leaf x under q, the i-th child. */
  ghost function WithLeaf(t: Tree, q: Key, x: Key, i: nat, catchKey: string): (t': Tree)
    requires q in t && i <= |t[q].kids| && |q| <= |x|
    ensures t'.Keys == t.Keys + {x}
  {
    t[q := t[q].(kids := InsertAt(t[q].kids, i, x))][x := Row(x[|q|..], [], None, "", catchKey)]
  }

  /** No child of q starts like x. */
  ghost predicate FreeSpot(t: Tree, q: Key, x: Key)
    requires q in t
  {
    && q < x && IsLabel(x[|q|..])
    && forall i :: 0 <= i < |t[q].kids| ==> |q| < |t[q].kids[i]| && t[q].kids[i][|q|] != x[|q|]
  }

  /** Nothing in the tree goes on from q the way x does. */
  lemma NothingBeyond(t: Tree, q: Key, x: Key, r: Key)
    requires Navigable(t) && q in t && FreeSpot(t, q, x) && r in t && q < r
    ensures r[|q|] != x[|q|]
  {
    assert Leads(t[q].kids, r);
    var i :| 0 <= i < |t[q].kids| && t[q].kids[i] <= r;
    assert t[q].kids[i][|q|] == r[|q|];
  }

  lemma LeafIsNew(t: Tree, q: Key, x: Key)
    requires Navigable(t) && q in t && FreeSpot(t, q, x)
    ensures x !in t
  {
    if x in t { NothingBeyond(t, q, x, x); }
  }

  /** A free leaf has no branch points that are not positions already. */
  lemma LeafBranch(t: Tree, q: Key, x: Key, p: Key, a: Key)
    requires Navigable(t) && BranchClosed(t.Keys) && q in t && FreeSpot(t, q, x)
    requires a in t && Diverge(p, x, a)
    ensures p in t
  {
    PrefixTrichotomy(p, q, x);
    if |p| < |q| {
      assert q[|p|] == x[|p|];
      assert Diverge(p, q, a);
    } else if |q| < |p| {
      NothingBeyond(t, q, x, a);
    }
  }

  lemma LeafKeys(t: Tree, q: Key, x: Key)
    requires Navigable(t) && BranchClosed(t.Keys) && q in t && FreeSpot(t, q, x)
    ensures forall p :: Inserted(t.Keys, x, p) <==> p in t.Keys + {x}
    ensures BranchClosed(t.Keys + {x})
  {
    forall p ensures Inserted(t.Keys, x, p) <==> p in t.Keys + {x} {
      if a :| a in t.Keys && Diverge(p, x, a) { LeafBranch(t, q, x, p, a); }
    }
    InsertionClosed(t.Keys, t.Keys + {x}, x);
  }

  lemma InsertKeepsSorted(q: Key, kids: seq<Key>, x: Key, i: nat)
    requires |q| < |x|
    requires forall j :: 0 <= j < |kids| ==> |q| < |kids[j]| && kids[j][|q|] != x[|q|]
    requires Sorted(q, kids) && SortedSpot(q, kids, x, i)
    ensures Sorted(q, InsertAt(kids, i, x))
  {
  }

  lemma LeafGoodKids(t: Tree, q: Key, x: Key, i: nat, catchKey: string)
    requires WellLinked(t) && q in t && x !in t && FreeSpot(t, q, x) && SortedSpot(q, t[q].kids, x, i)
    ensures GoodKids(WithLeaf(t, q, x, i, catchKey), q, InsertAt(t[q].kids, i, x))
  {
    var t', kids := WithLeaf(t, q, x, i, catchKey), InsertAt(t[q].kids, i, x);
    assert GoodKids(t, q, t[q].kids);
    InsertKeepsSorted(q, t[q].kids, x, i);
    forall k | 0 <= k < |kids|
      ensures kids[k] in t' && q < kids[k] && t'[kids[k]].edge == kids[k][|q|..] && IsLabel(kids[k][|q|..])
    {
      if k != i {
        var m := if k < i then k else k - 1;
        assert kids[k] == t[q].kids[m];
      }
    }
  }

  lemma LeafLinked(t: Tree, q: Key, x: Key, i: nat, catchKey: string)
    requires WellLinked(t) && q in t && x !in t && FreeSpot(t, q, x) && SortedSpot(q, t[q].kids, x, i)
    ensures WellLinked(WithLeaf(t, q, x, i, catchKey))
  {
    var t' := WithLeaf(t, q, x, i, catchKey);
    forall p | p in t'
      ensures GoodKids(t', p, t'[p].kids)
    {
      if p == q {
        LeafGoodKids(t, q, x, i, catchKey);
      } else if p != x {
        assert GoodKids(t, p, t[p].kids);
      }
    }
  }

  lemma LeafLeads(t: Tree, q: Key, x: Key, i: nat, p: Key, r: Key)
    requires Navigable(t) && q in t && FreeSpot(t, q, x) && i <= |t[q].kids|
    requires p in t && (r in t || r == x) && p < r
    ensures Leads(if p == q then InsertAt(t[q].kids, i, x) else t[p].kids, r)
  {
    var kids := InsertAt(t[q].kids, i, x);
    if r == x && p == q {
      assert kids[i] == x;
    } else if r == x {
      PrefixTrichotomy(p, q, x);
      if q < p { NothingBeyond(t, q, x, p); }
      LeadsOn(t[p].kids, q, x);
    } else if p == q {
      assert Leads(t[p].kids, r);
      var j :| 0 <= j < |t[p].kids| && t[p].kids[j] <= r;
      assert kids[if j < i then j else j + 1] == t[p].kids[j];
    }
  }

  lemma LeafNavigable(t: Tree, q: Key, x: Key, i: nat, catchKey: string)
    requires Navigable(t) && q in t && FreeSpot(t, q, x) && i <= |t[q].kids|
    ensures Navigable(WithLeaf(t, q, x, i, catchKey))
  {
    var t' := WithLeaf(t, q, x, i, catchKey);
    LeafIsNew(t, q, x);
    forall p, r | p in t' && r in t' && p < r
      ensures Leads(t'[p].kids, r)
    {
      if p == x {
        assert q < r;
        NothingBeyond(t, q, x, r);
      } else {
        LeafLeads(t, q, x, i, p, r);
      }
    }
  }

  lemma LeafValid(t: Tree, q: Key, x: Key, i: nat, catchKey: string)
    requires ValidTree(t) && q in t && FreeSpot(t, q, x) && SortedSpot(q, t[q].kids, x, i)
    ensures ValidTree(WithLeaf(t, q, x, i, catchKey))
    ensures x !in t
  {
    LeafIsNew(t, q, x);
    LeafKeys(t, q, x);
    LeafLinked(t, q, x, i, catchKey);
    LeafNavigable(t, q, x, i, catchKey);
  }

  // -------------------------------------------------------------- splitting

  ghost predicate Cuts(t: Tree, q: Key, j: nat, b: Key) {
    && q in t && j < |t[q].kids| && t[q].kids[j] in t
    && q < b < t[q].kids[j]
  }

  /** The tree with the edge from q to its j-th child cut at b: the child's row
      moves below a new, empty row at b. */
  ghost function WithSplit(t: Tree, q: Key, j: nat, b: Key): (t': Tree)
    requires Cuts(t, q, j, b)
    ensures t'.Keys == t.Keys + {b}
  {
    var c := t[q].kids[j];
    t[q := t[q].(kids := t[q].kids[j := b])]
     [b := Row(b[|q|..], [c], None, "", "")]
     [c := t[c].(edge := c[|b|..])]
  }

  lemma OneKidPerToken(q: Key, kids: seq<Key>, j: nat, b: Key, r: Key)
    requires forall i :: 0 <= i < |kids| ==> q < kids[i]
    requires Sorted(q, kids) && Leads(kids, r)
    requires j < |kids| && q < b < kids[j] && q < r && r[|q|] == b[|q|]
    ensures kids[j] <= r
  {
    var i :| 0 <= i < |kids| && kids[i] <= r;
    assert kids[i][|q|] == r[|q|];
    assert kids[j][|q|] == b[|q|];
    assert i == j;
  }

  /** What lies beyond the start of a cut edge lies below its end. */
  lemma EdgeIsBare(t: Tree, q: Key, j: nat, b: Key, r: Key)
    requires WellLinked(t) && Navigable(t) && Cuts(t, q, j, b) && r in t
    requires q < r && r[|q|] == b[|q|]
    ensures t[q].kids[j] <= r
  {
    assert GoodKids(t, q, t[q].kids);
    OneKidPerToken(q, t[q].kids, j, b, r);
  }

  lemma {:induction false} UniqueParent(t: Tree, q: Key, i: nat, p: Key, j: nat)
    requires WellLinked(t) && Navigable(t)
    requires q in t && p in t && i < |t[q].kids| && j < |t[p].kids|
    ensures t[q].kids[i] == t[p].kids[j] ==> q == p && i == j
  {
    if t[q].kids[i] == t[p].kids[j] {
      var c := t[q].kids[i];
      assert GoodKids(t, q, t[q].kids) && GoodKids(t, p, t[p].kids);
      PrefixTrichotomy(q, p, c);
      if q < p {
        EdgeIsBare(t, q, i, p, p);
      } else if p < q {
        EdgeIsBare(t, p, j, q, q);
      }
    }
  }

  lemma CutIsNew(t: Tree, q: Key, j: nat, b: Key)
    requires WellLinked(t) && Navigable(t) && Cuts(t, q, j, b)
    ensures b !in t
  {
    if b in t { EdgeIsBare(t, q, j, b, b); }
  }

  lemma SplitKeys(t: Tree, q: Key, j: nat, b: Key)
    requires WellLinked(t) && BranchClosed(t.Keys) && Cuts(t, q, j, b)
    ensures forall p :: Inserted(t.Keys, b, p) <==> p in t.Keys + {b}
    ensures BranchClosed(t.Keys + {b})
  {
    var c := t[q].kids[j];
    assert c in t by { assert GoodKids(t, q, t[q].kids); }
    forall p ensures Inserted(t.Keys, b, p) <==> p in t.Keys + {b} {
      if a :| a in t.Keys && Diverge(p, b, a) {
        DivergeOnPrefix(p, a, b, c);
        assert Diverge(p, c, a);
      }
    }
    InsertionClosed(t.Keys, t.Keys + {b}, b);
  }

  /** Both halves of a cut edge are edges. */
  lemma HalfLabels(q: Key, b: Key, c: Key)
    requires q < b < c && IsLabel(c[|q|..])
    ensures IsLabel(b[|q|..]) && IsLabel(c[|b|..])
  {
    assert forall i :: 0 <= i < |c| - |q| ==> c[|q|..][i].Byte?;
    assert b[|q|..] == c[|q|..][..|b| - |q|] && c[|b|..] == c[|q|..][|b| - |q|..];
  }

  lemma SplitLinked(t: Tree, q: Key, j: nat, b: Key)
    requires WellLinked(t) && Navigable(t) && Cuts(t, q, j, b) && b !in t
    ensures WellLinked(WithSplit(t, q, j, b))
  {
    var t' := WithSplit(t, q, j, b);
    assert GoodKids(t, q, t[q].kids);
    HalfLabels(q, b, t[q].kids[j]);
    forall p | p in t'
      ensures GoodKids(t', p, t'[p].kids)
    {
      if p != b && p != q {
        assert GoodKids(t, p, t[p].kids);
        forall i | 0 <= i < |t[p].kids|
          ensures t[p].kids[i] != t[q].kids[j]
        {
          UniqueParent(t, q, j, p, i);
        }
      }
    }
  }

  /** A position above a cut is at or above the start of the edge. */
  lemma BeforeCut(t: Tree, q: Key, j: nat, b: Key, p: Key)
    requires WellLinked(t) && Navigable(t) && Cuts(t, q, j, b)
    requires p in t && p < b
    ensures p <= q
  {
    PrefixTrichotomy(p, q, b);
    if q < p { EdgeIsBare(t, q, j, b, p); }
  }

  lemma SplitLeads(t: Tree, q: Key, j: nat, b: Key, p: Key, r: Key)
    requires WellLinked(t) && Navigable(t) && Cuts(t, q, j, b) && b !in t
    requires p in t && (r in t || r == b) && p < r
    ensures Leads(if p == q then t[q].kids[j := b] else t[p].kids, r)
  {
    var kids := t[q].kids[j := b];
    if r == b && p == q {
      assert kids[j] <= r;
    } else if r == b {
      BeforeCut(t, q, j, b, p);
      LeadsOn(t[p].kids, q, b);
    } else if p == q {
      assert Leads(t[p].kids, r);
      var i :| 0 <= i < |t[p].kids| && t[p].kids[i] <= r;
      assert kids[i] <= r;
    }
  }

  lemma SplitNavigable(t: Tree, q: Key, j: nat, b: Key)
    requires WellLinked(t) && Navigable(t) && Cuts(t, q, j, b) && b !in t
    ensures Navigable(WithSplit(t, q, j, b))
  {
    var t' := WithSplit(t, q, j, b);
    forall p, r | p in t' && r in t' && p < r
      ensures Leads(t'[p].kids, r)
    {
      if p == b {
        EdgeIsBare(t, q, j, b, r);
        assert t'[p].kids[0] <= r;
      } else {
        SplitLeads(t, q, j, b, p, r);
      }
    }
  }

  lemma SplitValid(t: Tree, q: Key, j: nat, b: Key)
    requires ValidTree(t) && Cuts(t, q, j, b)
    ensures ValidTree(WithSplit(t, q, j, b))
    ensures b !in t
  {
    CutIsNew(t, q, j, b);
    SplitKeys(t, q, j, b);
    SplitLinked(t, q, j, b);
    SplitNavigable(t, q, j, b);
  }

  // ------------------------------------------------- the order of parameters

  /** x is the first parameter among the children of q. */
  ghost predicate FirstParam(q: Key, kids: seq<Key>, x: Key) {
    exists i :: FirstAt(q, kids, x, i)
  }

  ghost predicate FirstAt(q: Key, kids: seq<Key>, x: Key, i: nat) {
    && i < |kids| && kids[i] == x && |q| < |x| && x[|q|].Param?
    && forall j :: 0 <= j < i ==> |q| < |kids[j]| && kids[j][|q|].Byte?
  }

  /** The first parameter at a position stays the first. */
  ghost predicate OrderKept(t: Tree, t': Tree) {
    && t.Keys <= t'.Keys
    && forall p, x {:trigger FirstParam(p, t'[p].kids, x)} ::
         p in t && FirstParam(p, t[p].kids, x) ==> FirstParam(p, t'[p].kids, x)
  }

  lemma OrderKeptTwice(t: Tree, u: Tree, v: Tree)
    requires OrderKept(t, u) && OrderKept(u, v)
    ensures OrderKept(t, v)
  {
    forall p, x | p in t && FirstParam(p, t[p].kids, x) ensures FirstParam(p, v[p].kids, x) {
      assert FirstParam(p, u[p].kids, x);
    }
  }

  /** A new child comes after those of its own kind. */
  lemma LeafOrder(t: Tree, q: Key, x: Key, i: nat, catchKey: string)
    requires q in t && FreeSpot(t, q, x) && SortedSpot(q, t[q].kids, x, i) && x !in t
    ensures OrderKept(t, WithLeaf(t, q, x, i, catchKey))
  {
    var t' := WithLeaf(t, q, x, i, catchKey);
    forall p, y | p in t && FirstParam(p, t[p].kids, y) ensures FirstParam(p, t'[p].kids, y) {
      if p == q {
        var k: nat :| FirstAt(q, t[q].kids, y, k);
        assert FirstAt(q, t'[q].kids, y, if k < i then k else k + 1);
      }
    }
  }

  lemma SplitOrder(t: Tree, q: Key, j: nat, b: Key)
    requires ValidTree(t) && Cuts(t, q, j, b)
    ensures OrderKept(t, WithSplit(t, q, j, b))
  {
    var t', c := WithSplit(t, q, j, b), t[q].kids[j];
    assert GoodKids(t, q, t[q].kids);
    assert c[|q|] == b[|q|] && c[|q|..][0] == c[|q|] && c[|q|].Byte?;
    SplitValid(t, q, j, b);
    forall p, y | p in t && FirstParam(p, t[p].kids, y) ensures FirstParam(p, t'[p].kids, y) {
      if p == q {
        var k: nat :| FirstAt(q, t[q].kids, y, k);
        assert FirstAt(q, t'[q].kids, y, k);
      }
    }
  }

  // ------------------------------------------------------------ registration

  /** t' is t with the position x (and its branch point) added: old rows keep what
      is registered there, new rows hold nothing, and parameters keep their order. */
  ghost predicate Grown(t: Tree, x: Key, t': Tree) {
    && (forall p {:trigger Inserted(t.Keys, x, p)} :: p in t' <==> Inserted(t.Keys, x, p))
    && OrderKept(t, t')
    && (forall p {:trigger SameContent(t[p], t'[p])} :: p in t ==> SameContent(t[p], t'[p]))
    && (forall p {:trigger Blank(t'[p])} :: p in t' && p !in t ==> Blank(t'[p]))
  }

  ghost predicate Blank(r: Row) { r.handlers == None && r.fullPath == "" }

  ghost predicate SameContent(r: Row, r': Row) {
    r.handlers == r'.handlers && r.fullPath == r'.fullPath && r.catchKey == r'.catchKey
  }

  lemma GrownSame(t: Tree, x: Key)
    requires BranchClosed(t.Keys) && x in t
    ensures Grown(t, x, t)
  {
  }

  lemma GrownSplit(t: Tree, q: Key, j: nat, b: Key)
    requires ValidTree(t) && Cuts(t, q, j, b)
    ensures Grown(t, b, WithSplit(t, q, j, b))
  {
    SplitValid(t, q, j, b);
    SplitKeys(t, q, j, b);
    SplitOrder(t, q, j, b);
  }

  /** A split on the way to x, then growing by x, grows the original tree by x. */
  lemma SplitThenGrow(t: Tree, q: Key, j: nat, b: Key, x: Key, t': Tree)
    requires ValidTree(t) && Cuts(t, q, j, b) && Diverge(b, x, t[q].kids[j])
    requires Grown(WithSplit(t, q, j, b), x, t')
    ensures Grown(t, x, t')
  {
    SplitValid(t, q, j, b);
    var s := WithSplit(t, q, j, b);
    var c := t[q].kids[j];
    assert c in t.Keys by { assert GoodKids(t, q, t[q].kids); }
    forall p ensures p in t' <==> Inserted(t.Keys, x, p) {
      assert p in t' <==> Inserted(s.Keys, x, p);
      assert !Diverge(p, x, b);
      assert p == b ==> Diverge(p, x, c);
    }
    forall p | p in t ensures SameContent(t[p], t'[p]) {
      assert p in s && SameContent(s[p], t'[p]);
    }
    forall p | p in t' && p !in t ensures Blank(t'[p]) {
      if p == b { assert SameContent(s[p], t'[p]); }
    }
    SplitOrder(t, q, j, b);
    OrderKeptTwice(t, s, t');
  }

  // ------------------------------------------------------------ route tables

  datatype Route = Route(chain: Chain, fullPath: string)

  ghost function RouteKeys(t: Tree): (K: set<Key>) {
    set q | q in t && t[q].handlers.Some?
  }

  /** The route table a tree implements. */
  ghost function Routes(t: Tree): (m: map<Key, Route>)
    ensures m.Keys == RouteKeys(t)
  {
    map q | q in RouteKeys(t) :: Route(t[q].handlers.value, t[q].fullPath)
  }

  /** The nodes of t are exactly those its routes call for. */
  ghost predicate Shaped(t: Tree) {
    forall p {:trigger IsPosition(RouteKeys(t), p)} :: p in t <==> IsPosition(RouteKeys(t), p)
  }

  /** The invariant of a tree between registrations: exactly the nodes its routes
      call for, and every route at the key of its own pattern. */
  ghost predicate Registered(t: Tree) {
    && Shaped(t)
    && forall k :: k in RouteKeys(t) ==> IsPattern(t[k].fullPath) && KeyOf(t[k].fullPath) == k
  }

  ghost predicate IsPattern(path: string) { path != "" && path[0] == '/' }

  /** The name each catch-all node binds. */
  ghost function Binders(t: Tree): (m: map<Key, string>) {
    map q | q in t && EndsWild(q) :: t[q].catchKey
  }

  /** Every catch-all node is a registered route. */
  ghost predicate WildServed(t: Tree) {
    forall q :: q in t && EndsWild(q) ==> t[q].handlers.Some?
  }

  lemma RegisteredServes(t: Tree)
    requires Registered(t)
    ensures WildServed(t)
  {
    forall q | q in t && EndsWild(q) ensures t[q].handlers.Some? {
      assert IsPosition(RouteKeys(t), q);
      var k := PositionBelowKey(RouteKeys(t), q);
      TokensWellFormed(t[k].fullPath[1..]);
      assert WellFormed(k) && k[|q| - 1] == q[|q| - 1];
      assert q == k;
    }
  }

  /** t' holds what t holds and nothing more. */
  ghost predicate Kept(t: Tree, t': Tree) {
    && OrderKept(t, t')
    && (forall p {:trigger SameContent(t[p], t'[p])} :: p in t ==> SameContent(t[p], t'[p]))
    && (forall p {:trigger Blank(t'[p])} :: p in t' && p !in t ==> Blank(t'[p]))
  }

  lemma KeptStep(t: Tree, u: Tree, x: Key, v: Tree)
    requires Kept(t, u) && Grown(u, x, v)
    ensures Kept(t, v)
  {
    OrderKeptTwice(t, u, v);
    forall p | p in t ensures p in v && SameContent(t[p], v[p]) {
      assert p in u && p in v;
      assert SameContent(t[p], u[p]) && SameContent(u[p], v[p]);
    }
    forall p | p in v && p !in t ensures Blank(v[p]) {
      if p in u { assert Blank(u[p]) && SameContent(u[p], v[p]); }
    }
  }

  /** What growing by x adds lies on the way to x. */
  lemma GrownOnTheWay(t: Tree, u: Tree, q: Key, x: Key, v: Tree)
    requires q <= x && Grown(u, x, v)
    requires forall p :: p in u ==> p in t || p <= q
    ensures forall p :: p in v ==> p in t || p <= x
  {
    forall p | p in v ensures p in t || p <= x {
      assert Inserted(u.Keys, x, p);
    }
  }

  /** Registering under the key x, with the catch-all name given if it has one: the
      first name at a place stays. */
  ghost function BindersWith(m: map<Key, string>, x: Key, name: string): (m': map<Key, string>) {
    if EndsWild(x) && x !in m then m[x := name] else m
  }

  lemma NotWildYet(x: Key, p: Key)
    requires WellFormed(x) && p < x
    ensures !EndsWild(p)
  {
    if p != [] { assert p[|p| - 1] == x[|p| - 1]; }
  }

  lemma KeptBinders(t: Tree, u: Tree, x: Key, name: string)
    requires Kept(t, u) && x in u && WellFormed(x)
    requires forall p :: p in u ==> p in t || p <= x
    requires EndsWild(x) && x !in t ==> u[x].catchKey == name
    ensures Binders(u) == BindersWith(Binders(t), x, name)
  {
    forall p | p in u && EndsWild(p) ensures p in t || p == x {
      if p < x { NotWildYet(x, p); }
    }
    forall p | p in t && EndsWild(p) ensures p in u && u[p].catchKey == t[p].catchKey {
      assert p in u && SameContent(t[p], u[p]);
    }
  }

  lemma KeptRoutes(t: Tree, u: Tree)
    requires Kept(t, u)
    ensures RouteKeys(u) == RouteKeys(t) && Routes(u) == Routes(t)
  {
    forall p ensures p in RouteKeys(u) <==> p in RouteKeys(t) {
      if p in t { assert p in u && SameContent(t[p], u[p]); } else if p in u { assert Blank(u[p]); }
    }
    forall p | p in RouteKeys(t) ensures Routes(u)[p] == Routes(t)[p] {
      assert SameContent(t[p], u[p]);
    }
  }

  ghost function WithRoute(t: Tree, x: Key, r: Route): (t': Tree)
    requires x in t
  {
    t[x := t[x].(handlers := Some(r.chain), fullPath := r.fullPath)]
  }

  /** Storing a route at an existing position is an update of the route table. */
  lemma RouteUpdates(t: Tree, x: Key, r: Route)
    requires x in t
    ensures Routes(WithRoute(t, x, r)) == Routes(t)[x := r]
  {
    var t' := WithRoute(t, x, r);
    assert RouteKeys(t') == RouteKeys(t) + {x};
  }

  /** It completes a tree that has the nodes its routes and x call for. */
  lemma RouteShaped(t: Tree, x: Key, r: Route)
    requires x in t
    requires var K := RouteKeys(t) + {x};
             forall p {:trigger IsPosition(K, p)} :: p in t <==> IsPosition(K, p)
    ensures Shaped(WithRoute(t, x, r)) && Binders(WithRoute(t, x, r)) == Binders(t)
    ensures OrderKept(t, WithRoute(t, x, r))
  {
    var t' := WithRoute(t, x, r);
    assert RouteKeys(t') == RouteKeys(t) + {x} && t'.Keys == t.Keys;
    assert forall p :: p in t ==> t'[p].kids == t[p].kids;
  }

  lemma RegisteredAfter(t: Tree, u: Tree, path: string, chain: Chain)
    requires Registered(t) && Shaped(u) && IsPattern(path)
    requires Routes(u) == Routes(t)[KeyOf(path) := Route(chain, path)]
    ensures Registered(u)
  {
    forall k | k in RouteKeys(u) ensures IsPattern(u[k].fullPath) && KeyOf(u[k].fullPath) == k {
      assert k in Routes(u) && Routes(u)[k].fullPath == u[k].fullPath;
      if k != KeyOf(path) { assert k in RouteKeys(t); }
    }
  }

  lemma RouteStored(t: Tree, x: Key, r: Route)
    requires ValidTree(t) && x in t
    ensures ValidTree(WithRoute(t, x, r))
  {
    var t' := WithRoute(t, x, r);
    assert t'.Keys == t.Keys;
    forall q | q in t' ensures GoodKids(t', q, t'[q].kids) {
      assert GoodKids(t, q, t[q].kids);
    }
    forall p, q | p in t' && q in t' && p < q ensures Leads(t'[p].kids, q) {
      assert Leads(t[p].kids, q);
    }
  }

  /** Growing by the next segment of a key keeps the positions those of the routes
      K and the key so far. */
  lemma GrownPositions(K: set<Key>, q: Key, x: Key, t: Tree, t': Tree)
    requires SegmentStep(q, x) && Grown(t, x, t')
    requires forall p {:trigger IsPosition(K + {q}, p)} :: p in t <==> IsPosition(K + {q}, p)
    ensures forall p {:trigger IsPosition(K + {x}, p)} :: p in t' <==> IsPosition(K + {x}, p)
  {
    forall p ensures p in t' <==> IsPosition(K + {x}, p) {
      forall r ensures r in t.Keys <==> IsPosition(K + {q}, r) { }
      StepPositions(K, q, x, t.Keys, p);
      assert p in t' <==> Inserted(t.Keys, x, p);
    }
  }

  /** From the tree t0, registration has come as far as the segments of q. */
  ghost predicate Progress(t0: Tree, t: Tree, q: Key) {
    && Kept(t0, t)
    && (forall p :: p in t ==> p in t0 || p <= q)
    && var K := RouteKeys(t0) + {q};
       forall p {:trigger IsPosition(K, p)} :: p in t <==> IsPosition(K, p)
  }

  lemma ProgressStep(t0: Tree, t: Tree, q: Key, x: Key, t': Tree)
    requires Progress(t0, t, q) && SegmentStep(q, x) && Grown(t, x, t')
    ensures Progress(t0, t', x)
    ensures x in t ==> x in t0
  {
    KeptStep(t0, t, x, t');
    GrownOnTheWay(t0, t, q, x, t');
    GrownPositions(RouteKeys(t0), q, x, t, t');
  }

  lemma ShapedStart(t: Tree)
    requires Shaped(t)
    ensures Progress(t, t, [])
  {
    forall p ensures p in t <==> IsPosition(RouteKeys(t) + {[]}, p) {
      NoSegments(RouteKeys(t), p);
      assert p in t <==> IsPosition(RouteKeys(t), p);
    }
  }
}
