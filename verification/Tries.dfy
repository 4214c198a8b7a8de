/** The radix trie of router_tree.go on the heap: nodes rewritten in place by
    registration and walked with backtracking by search. A ghost map from positions
    to nodes keeps the invariant flat: each node agrees with its row of the tree. */
module Tries {
  import opened Wrappers
  import opened Patterns
  import opened Segments
  import opened Trees
  import opened Lookup
  import opened Order

  class Node {
    const kind: Kind
    const paramKey: string
    var path: string
    var children: seq<Node>
    var handlers: Option<Chain>
    var fullPath: string
    /** The position of the node: the key spelled from the root down to it. */
    ghost var prefix: Key

    constructor (kind: Kind, paramKey: string, path: string, children: seq<Node>,
                 handlers: Option<Chain>, fullPath: string, ghost prefix: Key)
      ensures this.kind == kind && this.paramKey == paramKey && this.path == path
      ensures this.children == children && this.handlers == handlers
      ensures this.fullPath == fullPath && this.prefix == prefix
    {
      this.kind, this.paramKey, this.path := kind, paramKey, path;
      this.children, this.handlers, this.fullPath := children, handlers, fullPath;
      this.prefix := prefix;
    }

    ghost function Label(): (k: Key)
      reads this
    {
      LabelOf(kind, paramKey, path)
    }
  }

  ghost function LabelOf(kind: Kind, paramKey: string, path: string): (k: Key) {
    match kind
    case Static => Bytes(path)
    case ParamKind => [Param(paramKey)]
    case CatchAllKind => [CatchAll]
  }

  /** The node n carries what the row says, its children being the nodes that at
      has at the row's child positions. */
  ghost predicate NodeAgrees(n: Node, q: Key, row: Row, at: map<Key, Node>)
    reads n
  {
    && n.prefix == q && n.Label() == row.edge
    && n.handlers == row.handlers && n.fullPath == row.fullPath
    && (n.kind.CatchAllKind? ==> n.paramKey == row.catchKey)
    && |n.children| == |row.kids|
    && forall i :: 0 <= i < |row.kids| ==> row.kids[i] in at && n.children[i] == at[row.kids[i]]
  }

  /** The node ch cut after cp bytes: it keeps only the first half of its text. */
  method Halve(ch: Node, cp: nat, ghost b: Key) returns (split: Node)
    requires 0 < cp < |ch.path|
    modifies ch
    ensures fresh(split) && split.kind == ch.kind && split.paramKey == ch.paramKey
    ensures split.path == old(ch.path)[cp..] && split.children == old(ch.children)
    ensures split.handlers == old(ch.handlers) && split.fullPath == old(ch.fullPath)
    ensures split.prefix == old(ch.prefix)
    ensures ch.path == old(ch.path)[..cp] && ch.children == [split] && ch.handlers == None
    ensures ch.fullPath == "" && ch.prefix == b
  {
    split := new Node(ch.kind, ch.paramKey, ch.path[cp..], ch.children, ch.handlers, ch.fullPath, ch.prefix);
    ch.path, ch.children, ch.handlers, ch.fullPath := ch.path[..cp], [split], None, "";
    ch.prefix := b;
  }

  function KindRank(k: Kind): nat {
    match k case Static => 0 case ParamKind => 1 case CatchAllKind => 2
  }

  method LongestPrefix(a: string, b: string) returns (n: nat)
    ensures n <= |a| && n <= |b| && a[..n] == b[..n]
    ensures n < |a| && n < |b| ==> a[n] != b[n]
  {
    n := 0;
    while n < |a| && n < |b| && a[n] == b[n]
      invariant n <= |a| && n <= |b| && a[..n] == b[..n]
    {
      n := n + 1;
    }
  }

  /** A catch-all that seg put at x in t, where t0 had none, binds the name in seg. */
  ghost predicate CatchNamed(t0: Tree, t: Tree, x: Key, seg: Segment) {
    seg.kind.CatchAllKind? && seg.text != "" && x !in t0 ==> x in t && t[x].catchKey == seg.text[1..]
  }

  /** The parameters of a request, shared by the whole walk. */
  class Params {
    var list: seq<Binding>

    constructor ()
      ensures list == []
    {
      list := [];
    }
  }

  class Trie {
    const root: Node
    ghost var at: map<Key, Node>
    ghost var tree: Tree
    ghost var nodes: set<Node>

    /** The node at q and its row say the same. */
    ghost predicate Agrees(q: Key)
      requires q in at && q in tree && at[q] in nodes
      reads this, nodes
    {
      NodeAgrees(at[q], q, tree[q], at)
    }

    ghost predicate Valid()
      reads this, nodes
    {
      && at.Keys == tree.Keys
      && [] in at && at[[]] == root
      && (forall q :: q in at ==> at[q] in nodes)
      && (forall q {:trigger Agrees(q)} :: q in at ==> Agrees(q))
      && ValidTree(tree)
    }

    ghost predicate Holds(n: Node)
      reads this, n
    {
      n.prefix in at && at[n.prefix] == n
    }

    constructor ()
      ensures Valid() && fresh(nodes) && Registered(tree) && Routes(tree) == map[] && Binders(tree) == map[]
    {
      root := new Node(Static, "", "/", [], None, "", []);
      at := map[[] := root];
      nodes := {root};
      tree := map[[] := ROOT_ROW];
    }

    lemma RootAgrees()
      requires Valid()
      ensures Holds(root) && root.prefix == [] && [] in tree
      ensures root.handlers == tree[[]].handlers && root.fullPath == tree[[]].fullPath
    {
      assert Agrees([]);
    }

    /** insertSorted: after the last child of no greater kind. */
    method InsertSorted(parent: Node, kind: Kind) returns (i: nat)
      requires Valid() && Holds(parent)
      ensures i <= |parent.children|
      ensures forall j :: 0 <= j < i ==> KindRank(parent.children[j].kind) <= KindRank(kind)
      ensures forall j :: i <= j < |parent.children| ==> KindRank(parent.children[j].kind) > KindRank(kind)
    {
      assert Agrees(parent.prefix);
      assert GoodKids(tree, parent.prefix, tree[parent.prefix].kids);
      i := 0;
      while i < |parent.children| && KindRank(parent.children[i].kind) <= KindRank(kind)
        invariant i <= |parent.children|
        invariant forall j :: 0 <= j < i ==> KindRank(parent.children[j].kind) <= KindRank(kind)
      {
        i := i + 1;
      }
      forall j | i <= j < |parent.children|
        ensures KindRank(parent.children[j].kind) > KindRank(kind)
      {
        RankOfChild(parent, i);
        RankOfChild(parent, j);
      }
    }

    lemma RankOfChild(n: Node, i: nat)
      requires Valid() && Holds(n) && i < |n.children|
      ensures var kids := tree[n.prefix].kids;
              i < |kids| && |n.prefix| < |kids[i]| && KindRank(n.children[i].kind) == Rank(kids[i][|n.prefix|])
    {
      assert Agrees(n.prefix);
      var kids := tree[n.prefix].kids;
      assert GoodKids(tree, n.prefix, kids);
      assert Agrees(kids[i]);
      assert kids[i][|n.prefix|..][0] == kids[i][|n.prefix|];
    }

    lemma SpotOfRank(q: Key, x: Key, kind: Kind, i: nat)
      requires Valid() && q in at && q < x && Rank(x[|q|]) == KindRank(kind)
      requires var cs := at[q].children;
               && i <= |cs|
               && (forall j :: 0 <= j < i ==> KindRank(cs[j].kind) <= KindRank(kind))
               && (forall j :: i <= j < |cs| ==> KindRank(cs[j].kind) > KindRank(kind))
      ensures forall j :: 0 <= j < |tree[q].kids| ==> |q| < |tree[q].kids[j]|
      ensures |tree[q].kids| == |at[q].children| && SortedSpot(q, tree[q].kids, x, i)
    {
      assert Agrees(q);
      forall j | 0 <= j < |tree[q].kids|
        ensures |q| < |tree[q].kids[j]|
        ensures KindRank(at[q].children[j].kind) == Rank(tree[q].kids[j][|q|])
      {
        RankOfChild(at[q], j);
      }
    }

    /** Links the fresh, empty node n as the i-th child of parent. */
    method Attach(parent: Node, n: Node, i: nat)
      requires Valid() && Holds(parent) && n !in nodes
      requires FreeSpot(tree, parent.prefix, n.prefix)
      requires |tree[parent.prefix].kids| == |parent.children|
      requires SortedSpot(parent.prefix, tree[parent.prefix].kids, n.prefix, i)
      requires n.children == [] && n.handlers == None && n.fullPath == ""
      requires n.Label() == n.prefix[|parent.prefix|..]
      modifies this, parent
      ensures Valid() && at == old(at)[n.prefix := n] && n.prefix !in old(tree) && nodes == old(nodes) + {n}
      ensures tree == old(WithLeaf(tree, parent.prefix, n.prefix, i, n.paramKey))
    {
      ghost var q, x, t, was := parent.prefix, n.prefix, tree, at;
      LeafValid(tree, q, x, i, n.paramKey);
      assert Agrees(q);
      parent.children := parent.children[..i] + [n] + parent.children[i..];
      at := at[x := n];
      nodes := nodes + {n};
      tree := WithLeaf(tree, q, x, i, n.paramKey);
      forall p | p in at ensures Agrees(p) {
        if p != x && p != q {
          assert old(Agrees(p));
          assert NodeAgrees(was[p], p, t[p], was);
          assert GoodKids(t, p, t[p].kids);
        }
      }
    }

    /** A new, empty child of parent. */
    method AddChild(parent: Node, kind: Kind, paramKey: string, path: string) returns (n: Node)
      requires Valid() && Holds(parent)
      requires FreeSpot(tree, parent.prefix, parent.prefix + LabelOf(kind, paramKey, path))
      modifies this, parent
      ensures Valid() && fresh(n) && nodes == old(nodes) + {n}
      ensures var x := old(parent.prefix) + LabelOf(kind, paramKey, path);
              && x in at && at[x] == n
              && Grown(old(tree), x, tree) && x !in old(tree)
              && (kind.CatchAllKind? ==> tree[x].catchKey == paramKey)
    {
      ghost var q, edge := parent.prefix, LabelOf(kind, paramKey, path);
      ghost var x := q + edge;
      assert x[|q|..] == edge;
      assert Rank(x[|q|]) == KindRank(kind);
      n := new Node(kind, paramKey, path, [], None, "", x);
      var i := InsertSorted(parent, kind);
      SpotOfRank(q, x, kind, i);
      LeafValid(tree, q, x, i, paramKey);
      LeafOrder(tree, q, x, i, paramKey);
      Attach(parent, n, i);
    }

    /** The i-th child of n, seen from the tree. */
    lemma ChildAt(n: Node, i: nat)
      requires Valid() && Holds(n) && i < |n.children|
      ensures var q, ch := n.prefix, n.children[i]; var kids := tree[q].kids;
              && |kids| == |n.children| && kids[i] == ch.prefix && Holds(ch) && q < ch.prefix
              && ch.Label() == ch.prefix[|q|..] && ch.Label() != []
    {
      assert Agrees(n.prefix);
      var kids := tree[n.prefix].kids;
      assert GoodKids(tree, n.prefix, kids);
      assert Agrees(kids[i]);
    }

    /** Cuts the edge to parent's j-th child after cp bytes: the child keeps the
        first half, a new node below it takes the rest and everything it held. */
    method Split(parent: Node, j: nat, cp: nat, ghost b: Key) returns (split: Node)
      requires Valid() && Holds(parent) && j < |parent.children|
      requires parent.children[j].kind.Static? && 0 < cp < |parent.children[j].path|
      requires b == parent.prefix + Bytes(parent.children[j].path[..cp])
      requires Cuts(tree, parent.prefix, j, b) && tree[parent.prefix].kids[j] == parent.children[j].prefix
      requires Holds(parent.children[j])
      requires parent.children[j].Label() == parent.children[j].prefix[|parent.prefix|..]
      modifies this, parent.children[j]
      ensures Valid() && parent != parent.children[j]
      ensures b in at && at[b] == parent.children[j] && parent.children[j].prefix == b
      ensures tree == WithSplit(old(tree), parent.prefix, j, b)
      ensures fresh(split) && nodes == old(nodes) + {split}
    {
      var ch := parent.children[j];
      ghost var q, whole := parent.prefix, ch.prefix;
      SplitValid(tree, q, j, b);
      assert Agrees(whole);
      assert whole[|b|..] == Bytes(ch.path[cp..]);
      assert b[|q|..] == Bytes(ch.path[..cp]);
      split := Halve(ch, cp, b);
      forall p | p in at && p != whole ensures Agrees(p) {
        assert old(Agrees(p));
      }
      Relink(q, j, b, ch, split);
    }

    /** The nodes are cut; the map and the tree follow. */
    ghost method Relink(q: Key, j: nat, b: Key, ch: Node, split: Node)
      requires at.Keys == tree.Keys && [] in at && at[[]] == root && ValidTree(tree)
      requires Cuts(tree, q, j, b) && b !in tree && ValidTree(WithSplit(tree, q, j, b))
      requires forall p :: p in at ==> at[p] in nodes
      requires forall p {:trigger Agrees(p)} :: p in at && p != tree[q].kids[j] ==> Agrees(p)
      requires var c := tree[q].kids[j];
        && at[c] == ch && NodeAgrees(split, c, tree[c].(edge := c[|b|..]), at)
        && NodeAgrees(ch, b, WithSplit(tree, q, j, b)[b], at[b := ch][c := split])
      modifies this`at, this`tree, this`nodes
      ensures Valid() && tree == WithSplit(old(tree), q, j, b)
      ensures at == old(at)[b := ch][old(tree)[q].kids[j] := split] && nodes == old(nodes) + {split}
    {
      ghost var t, was := tree, at;
      at := at[b := ch][tree[q].kids[j] := split];
      tree := WithSplit(tree, q, j, b);
      nodes := nodes + {split};
      forall p | p in at ensures Agrees(p) {
        if p != b {
          assert p != t[q].kids[j] ==> old(Agrees(p));
          SplitAgrees(t, was, q, j, b, ch, split, p);
        }
      }
    }

    /** What a split leaves alone still agrees: the parent, the lower half and the rest. */
    lemma SplitAgrees(t: Tree, was: map<Key, Node>, q: Key, j: nat, b: Key, ch: Node, split: Node, p: Key)
      requires WellLinked(t) && Navigable(t) && Cuts(t, q, j, b) && b !in t
      requires was.Keys == t.Keys && tree == WithSplit(t, q, j, b)
      requires var c := t[q].kids[j]; at == was[b := ch][c := split] && was[c] == ch
      requires p in was && (forall k :: k in at ==> at[k] in nodes)
      requires p != t[q].kids[j] ==> NodeAgrees(was[p], p, t[p], was)
      requires var c := t[q].kids[j]; NodeAgrees(split, c, t[c].(edge := c[|b|..]), was)
      ensures Agrees(p)
    {
      var c := t[q].kids[j];
      assert GoodKids(t, p, t[p].kids);
      forall i | 0 <= i < |t[p].kids|
        ensures t[p].kids[i] == c ==> p == q && i == j
      {
        UniqueParent(t, q, j, p, i);
      }
    }

    /** The first static child that shares a prefix with text, and its length; the
        number of children if there is none. */
    method MatchChild(parent: Node, text: string) returns (i: nat, cp: nat)
      requires Valid() && Holds(parent) && text != ""
      ensures i <= |parent.children|
      ensures i < |parent.children| ==>
                var ch := parent.children[i];
                && ch.kind.Static? && 0 < cp <= |text| && cp <= |ch.path| && text[..cp] == ch.path[..cp]
                && (cp < |text| && cp < |ch.path| ==> text[cp] != ch.path[cp])
      ensures i == |parent.children| ==> FreeSpot(tree, parent.prefix, parent.prefix + Bytes(text))
    {
      ghost var q, x := parent.prefix, parent.prefix + Bytes(text);
      for j := 0 to |parent.children|
        invariant forall k :: 0 <= k < j ==>
                    parent.children[k].Label() != [] && parent.children[k].Label()[0] != Byte(text[0])
      {
        var ch := parent.children[j];
        ChildAt(parent, j);
        if ch.kind.Static? {
          cp := LongestPrefix(text, ch.path);
          if cp != 0 {
            return j, cp;
          }
        }
      }
      i, cp := |parent.children|, 0;
      assert x[|q|..] == Bytes(text);
      assert Agrees(q);
      forall k | 0 <= k < |tree[q].kids|
        ensures |q| < |tree[q].kids[k]| && tree[q].kids[k][|q|] != x[|q|]
      {
        ChildAt(parent, k);
      }
    }

    /** Finds or makes the node that static text leads to from parent. */
    method InsertStatic(parent: Node, text: string) returns (n: Node)
      requires Valid() && Holds(parent) && text != ""
      modifies this, nodes
      ensures Valid() && (forall m :: m in nodes ==> m in old(nodes) || fresh(m))
      ensures var x := old(parent.prefix) + Bytes(text);
              x in at && at[x] == n && Grown(old(tree), x, tree)
      decreases |text|
    {
      ghost var q, x := parent.prefix, parent.prefix + Bytes(text);
      var i, cp := MatchChild(parent, text);
      if i == |parent.children| {
        n := AddChild(parent, Static, "", text);
        return;
      }
      var ch := parent.children[i];
      ChildAt(parent, i);
      ghost var b := q + Bytes(text[..cp]);
      CommonPrefix(q, text, ch.path, cp, ch.prefix);
      if cp == |ch.path| && cp == |text| {
        GrownSame(tree, x);
        return ch;
      }
      ghost var mid := OpenChild(parent, i, cp, b);
      if cp == |text| {
        return ch;
      }
      n := InsertStatic(ch, text[cp..]);
      if mid != old(tree) { SplitThenGrow(old(tree), q, i, b, x, tree); }
    }

    /** Makes the i-th child end at b, splitting it if its text goes on. */
    method OpenChild(parent: Node, i: nat, cp: nat, ghost b: Key) returns (ghost mid: Tree)
      requires Valid() && Holds(parent) && i < |parent.children|
      requires parent.children[i].kind.Static? && 0 < cp <= |parent.children[i].path|
      requires b == parent.prefix + Bytes(parent.children[i].path[..cp])
      requires cp == |parent.children[i].path| ==> parent.children[i].prefix == b
      requires cp < |parent.children[i].path| ==> parent.prefix < b < parent.children[i].prefix
      modifies this, parent.children[i]
      ensures Valid() && (forall m :: m in nodes ==> m in old(nodes) || fresh(m))
      ensures old(parent.children[i]).prefix == b && Holds(old(parent.children[i]))
      ensures tree == mid && Grown(old(tree), b, mid)
      ensures mid != old(tree) ==>
                && cp < |old(parent.children[i].path)|
                && Cuts(old(tree), old(parent.prefix), i, b)
                && mid == WithSplit(old(tree), old(parent.prefix), i, b)
                && old(tree)[old(parent.prefix)].kids[i] == old(parent.children[i].prefix)
    {
      ChildAt(parent, i);
      if cp < |parent.children[i].path| {
        GrownSplit(tree, parent.prefix, i, b);
        var lower := Split(parent, i, cp, b);
      } else {
        GrownSame(tree, b);
      }
      mid := tree;
    }

    /** The common prefix of text and an edge, as positions. */
    lemma CommonPrefix(q: Key, text: string, path: string, cp: nat, whole: Key)
      requires 0 < cp <= |text| && cp <= |path| && text[..cp] == path[..cp]
      requires cp < |text| && cp < |path| ==> text[cp] != path[cp]
      requires q < whole && whole[|q|..] == Bytes(path)
      ensures var b, x := q + Bytes(text[..cp]), q + Bytes(text);
              && b == q + Bytes(path[..cp]) && q < b <= whole && b <= x
              && (cp == |path| ==> b == whole) && (cp == |text| ==> b == x)
              && (cp < |path| ==> b < whole)
              && x == b + Bytes(text[cp..])
              && (cp < |text| && cp < |path| ==> Diverge(b, x, whole))
    {
      var b, x := q + Bytes(text[..cp]), q + Bytes(text);
      assert whole == q + Bytes(path);
      assert b == whole[..|b|] && b == x[..|b|];
      assert x == b + Bytes(text[cp..]);
    }

    /** Finds or makes the child of parent that seg names. */
    method InsertChild(parent: Node, seg: Segment) returns (n: Node)
      requires Valid() && Holds(parent) && seg.text != ""
      modifies this, nodes
      ensures Valid() && (forall m :: m in nodes ==> m in old(nodes) || fresh(m))
      ensures var x := old(parent.prefix) + Spell(seg);
              && x in at && at[x] == n && Grown(old(tree), x, tree)
              && (seg.kind.CatchAllKind? && x !in old(tree) ==> tree[x].catchKey == seg.text[1..])
    {
      if seg.kind.Static? {
        n := InsertStatic(parent, seg.text);
        return;
      }
      var i := FindWild(parent, seg.kind, seg.text[1..]);
      if i < |parent.children| {
        ChildAt(parent, i);
        assert parent.children[i].prefix == parent.prefix + Spell(seg);
        GrownSame(tree, parent.prefix + Spell(seg));
        return parent.children[i];
      }
      n := AddChild(parent, seg.kind, seg.text[1..], "");
    }

    /** The parameter child called key, or the catch-all child whatever its name. */
    method FindWild(parent: Node, kind: Kind, key: string) returns (i: nat)
      requires Valid() && Holds(parent) && !kind.Static?
      ensures i <= |parent.children|
      ensures i < |parent.children| ==>
        parent.children[i].kind == kind && parent.children[i].Label() == LabelOf(kind, key, "")
      ensures i == |parent.children| ==> FreeSpot(tree, parent.prefix, parent.prefix + LabelOf(kind, key, ""))
    {
      ghost var q, x := parent.prefix, parent.prefix + LabelOf(kind, key, "");
      for j := 0 to |parent.children|
        invariant forall k :: 0 <= k < j ==>
                    parent.children[k].Label() != [] && parent.children[k].Label()[0] != x[|q|]
      {
        ChildAt(parent, j);
        if parent.children[j].kind == kind && (kind.CatchAllKind? || parent.children[j].paramKey == key) {
          return j;
        }
      }
      i := |parent.children|;
      assert x[|q|..] == LabelOf(kind, key, "");
      assert Agrees(q);
      forall k | 0 <= k < |tree[q].kids|
        ensures |q| < |tree[q].kids[k]| && tree[q].kids[k][|q|] != x[|q|]
      {
        ChildAt(parent, k);
      }
    }

    /** Registers chain under the pattern path (addRouteWithAsync, past validation).
        The route table is updated at the pattern's key and nowhere else, and the
        trie has exactly the nodes the new table calls for. */
    method Register(path: string, chain: Chain)
      requires Valid() && Registered(tree) && IsPattern(path)
      modifies this, nodes
      ensures Valid() && Registered(tree) && (forall m :: m in nodes ==> m in old(nodes) || fresh(m))
      ensures Routes(tree) == old(Routes(tree))[KeyOf(path) := Route(chain, path)]
      ensures Binders(tree) == BindersWith(old(Binders(tree)), KeyOf(path), CatchName(path[1..]))
      ensures OrderKept(old(tree), tree)
    {
      TokensWellFormed(path[1..]);
      var current := Descend(path);
      ghost var grown := tree;
      KeptRoutes(old(tree), tree);
      KeptBinders(old(tree), tree, KeyOf(path), CatchName(path[1..]));
      Store(current, path, chain);
      OrderKeptTwice(old(tree), grown, tree);
      RegisteredAfter(old(tree), tree, path, chain);
    }

    /** Finds or makes the node of the pattern path, one segment after another. */
    method Descend(path: string) returns (current: Node)
      requires Valid() && Shaped(tree) && path != ""
      modifies this, nodes
      ensures Valid() && (forall m :: m in nodes ==> m in old(nodes) || fresh(m))
      ensures Holds(current) && current.prefix == KeyOf(path)
      ensures Progress(old(tree), tree, KeyOf(path))
      ensures EndsWild(KeyOf(path)) && KeyOf(path) !in old(tree) ==>
                tree[KeyOf(path)].catchKey == CatchName(path[1..])
    {
      var segs := SplitPath(path);
      current := Walk(segs);
      if segs != [] { CutAt(segs, |segs| - 1); }
    }

    /** Finds or makes the nodes of the segments. */
    method Walk(segs: seq<Segment>) returns (current: Node)
      requires Valid() && Shaped(tree) && WellCut(segs)
      modifies this, nodes
      ensures Valid() && (forall m :: m in nodes ==> m in old(nodes) || fresh(m))
      ensures Holds(current) && current.prefix == SpellAll(segs) && Progress(old(tree), tree, current.prefix)
      ensures segs != [] ==> CatchNamed(old(tree), tree, current.prefix, segs[|segs| - 1])
    {
      current := root;
      ShapedStart(tree);
      assert Agrees([]);
      for i := 0 to |segs|
        invariant Valid() && (forall m :: m in nodes ==> m in old(nodes) || fresh(m))
        invariant Holds(current) && current.prefix == SpellAll(segs[..i])
        invariant Progress(old(tree), tree, current.prefix)
        invariant i > 0 ==> CatchNamed(old(tree), tree, current.prefix, segs[i - 1])
      {
        current := Down(current, segs, i, old(tree));
      }
      assert segs[..|segs|] == segs;
    }

    /** One segment further down. */
    method Down(n: Node, segs: seq<Segment>, i: nat, ghost t0: Tree) returns (child: Node)
      requires Valid() && Holds(n) && WellCut(segs) && i < |segs|
      requires n.prefix == SpellAll(segs[..i]) && Progress(t0, tree, n.prefix)
      modifies this, nodes
      ensures Valid() && (forall m :: m in nodes ==> m in old(nodes) || fresh(m))
      ensures Holds(child) && child.prefix == SpellAll(segs[..i + 1])
      ensures Progress(t0, tree, child.prefix) && CatchNamed(t0, tree, child.prefix, segs[i])
    {
      CutAt(segs, i);
      ghost var t, q, x := tree, n.prefix, SpellAll(segs[..i + 1]);
      child := InsertChild(n, segs[i]);
      assert Agrees(x);
      ProgressStep(t0, t, q, x, tree);
    }

    method Store(n: Node, path: string, chain: Chain)
      requires Valid() && Holds(n)
      requires var K := RouteKeys(tree) + {n.prefix};
               forall p {:trigger IsPosition(K, p)} :: p in tree <==> IsPosition(K, p)
      modifies this, n
      ensures Valid() && Shaped(tree) && nodes == old(nodes)
      ensures Routes(tree) == old(Routes(tree))[old(n.prefix) := Route(chain, path)]
      ensures Binders(tree) == old(Binders(tree)) && OrderKept(old(tree), tree)
    {
      ghost var x := n.prefix;
      RouteStored(tree, x, Route(chain, path));
      RouteUpdates(tree, x, Route(chain, path));
      RouteShaped(tree, x, Route(chain, path));
      assert Agrees(x);
      n.handlers, n.fullPath := Some(chain), path;
      tree := WithRoute(tree, x, Route(chain, path));
      forall p | p in at ensures Agrees(p) {
        if p != x { assert old(Agrees(p)); }
      }
    }

    /** The static child i of n starts path. */
    ghost predicate Starts(n: Node, i: nat, path: string)
      reads n, n.children
    {
      && i < |n.children| && n.children[i].kind.Static?
      && |n.children[i].path| <= |path| && path[..|n.children[i].path|] == n.children[i].path
    }

    /** The result of a walk that was to find hit: the route's handlers and pattern
        and its parameters pushed, or nothing and the parameters as they were. */
    ghost predicate Answers(hit: Option<Hit>, before: seq<Binding>, after: seq<Binding>,
                            handlers: Option<Chain>, fullPath: string)
      reads this
    {
      match hit
      case None => handlers == None && fullPath == "" && after == before
      case Some(h) =>
        && h.key in tree && handlers == tree[h.key].handlers && handlers.Some?
        && fullPath == tree[h.key].fullPath && after == before + h.binds
    }

    /** Walks path down from n, pushing the parameters it binds onto params and
        popping those of branches that fail. */
    method Search(n: Node, path: string, params: Params) returns (handlers: Option<Chain>, fullPath: string)
      requires Valid() && WildServed(tree) && Holds(n) && path != ""
      modifies params
      ensures Answers(Resolve(tree, n.prefix, path), old(params.list), params.list, handlers, fullPath)
      decreases |path|, 1
    {
      ghost var q, kids := n.prefix, tree[n.prefix].kids;
      assert Agrees(q);
      assert kids[0..] == kids;
      for i := 0 to |n.children|
        invariant params.list == old(params.list)
        invariant ResolveWild(tree, q, kids, path) == ResolveWild(tree, q, kids[i..], path)
        invariant Passed(n, i, path)
      {
        if !n.children[i].kind.Static? {
          BeforeWild(n, i, path);
        }
        var done;
        done, handlers, fullPath := TryChild(n, i, path, params);
        if done {
          return;
        }
        PassedOne(n, i, path);
      }
      BeforeWild(n, |n.children|, path);
      return None, "";
    }

    /** None of the first i children starts path, or the one that does leads nowhere. */
    ghost predicate Passed(n: Node, i: nat, path: string)
      requires n.prefix in tree && path != ""
      reads this, n, n.children
    {
      (forall j :: 0 <= j < i ==> !Starts(n, j, path)) || FailedStatic(n.prefix, path)
    }

    lemma PassedOne(n: Node, i: nat, path: string)
      requires n.prefix in tree && path != "" && Passed(n, i, path)
      requires Starts(n, i, path) ==> FailedStatic(n.prefix, path)
      ensures Passed(n, i + 1, path)
    {
    }

    /** One child of n: the walk is over, or goes on with the next child. */
    method TryChild(n: Node, i: nat, path: string, params: Params)
      returns (done: bool, handlers: Option<Chain>, fullPath: string)
      requires Valid() && WildServed(tree) && Holds(n) && path != ""
      requires i < |n.children| && |tree[n.prefix].kids| == |n.children|
      modifies params
      ensures done ==>
        var r := if n.children[i].kind.Static? then Resolve(tree, n.prefix, path)
                 else ResolveWild(tree, n.prefix, tree[n.prefix].kids[i..], path);
        Answers(r, old(params.list), params.list, handlers, fullPath)
      ensures !done ==>
        && params.list == old(params.list)
        && ResolveWild(tree, n.prefix, tree[n.prefix].kids[i..], path) ==
           ResolveWild(tree, n.prefix, tree[n.prefix].kids[i + 1..], path)
        && (Starts(n, i, path) ==> FailedStatic(n.prefix, path))
      decreases |path|, 0, 1
    {
      var ch := n.children[i];
      match ch.kind {
        case Static =>
          WildStep(n, i, path);
          if |ch.path| <= |path| && path[..|ch.path|] == ch.path {
            done, handlers, fullPath := TryStatic(n, i, path, params);
          } else {
            done, handlers, fullPath := false, None, "";
          }
        case ParamKind =>
          done, handlers, fullPath := TryParam(n, i, path, params);
        case CatchAllKind =>
          WildStep(n, i, path);
          params.list := params.list + [Binding(ch.paramKey, "/" + path)];
          return true, ch.handlers, ch.fullPath;
      }
    }

    method TryStatic(n: Node, i: nat, path: string, params: Params)
      returns (done: bool, handlers: Option<Chain>, fullPath: string)
      requires Valid() && WildServed(tree) && Holds(n) && path != "" && Starts(n, i, path)
      modifies params
      ensures done ==> Answers(Resolve(tree, n.prefix, path), old(params.list), params.list, handlers, fullPath)
      ensures !done ==> params.list == old(params.list) && FailedStatic(n.prefix, path)
      decreases |path|, 0, 0
    {
      var ch := n.children[i];
      ChildAt(n, i);
      assert ch.prefix == n.prefix + Bytes(path[..|ch.path|]);
      StaticHit(tree, n.prefix, i, path, |ch.path|);
      var remaining := path[|ch.path|..];
      if remaining == "" {
        handlers, fullPath := EndOnStatic(ch, params);
        return true, handlers, fullPath;
      }
      handlers, fullPath := Search(ch, remaining, params);
      return handlers.Some?, handlers, fullPath;
    }

    method TryParam(n: Node, i: nat, path: string, params: Params)
      returns (done: bool, handlers: Option<Chain>, fullPath: string)
      requires Valid() && WildServed(tree) && Holds(n) && path != ""
      requires i < |n.children| && n.children[i].kind.ParamKind? && |tree[n.prefix].kids| == |n.children|
      modifies params
      ensures done ==> Answers(ResolveWild(tree, n.prefix, tree[n.prefix].kids[i..], path),
                               old(params.list), params.list, handlers, fullPath)
      ensures !done ==> && params.list == old(params.list)
                        && ResolveWild(tree, n.prefix, tree[n.prefix].kids[i..], path) ==
                           ResolveWild(tree, n.prefix, tree[n.prefix].kids[i + 1..], path)
      decreases |path|, 0, 0
    {
      var ch := n.children[i];
      ghost var q, kids := n.prefix, tree[n.prefix].kids[i..];
      WildStep(n, i, path);
      ParamStep(tree, q, kids, path);
      var end := FindSegmentEnd(path);
      if end == 0 {
        return false, None, "";
      }
      params.list := params.list + [Binding(ch.paramKey, path[..end])];
      handlers, fullPath := Follow(ch, path[end..], params);
      if handlers.Some? {
        WithBinding(Beyond(tree, ch.prefix, path[end..]), old(params.list), Binding(ch.paramKey, path[..end]),
                    params.list, handlers, fullPath);
        return true, handlers, fullPath;
      }
      params.list := params.list[..|params.list| - 1];
      return false, None, "";
    }

    /** The binding pushed before the walk went on belongs to what it found. */
    lemma WithBinding(hit: Option<Hit>, before: seq<Binding>, b: Binding, after: seq<Binding>,
                      handlers: Option<Chain>, fullPath: string)
      requires hit.Some? && Answers(hit, before + [b], after, handlers, fullPath)
      ensures Answers(Some(Hit(hit.value.key, [b] + hit.value.binds)), before, after, handlers, fullPath)
    {
      assert before + [b] + hit.value.binds == before + ([b] + hit.value.binds);
    }

    /** Goes on at ch, or ends there. */
    method Follow(ch: Node, rest: string, params: Params) returns (handlers: Option<Chain>, fullPath: string)
      requires Valid() && WildServed(tree) && Holds(ch)
      modifies params
      ensures var r := Beyond(tree, ch.prefix, rest);
        if r.Some? then Answers(r, old(params.list), params.list, handlers, fullPath)
        else handlers == None && params.list == old(params.list)
      decreases |rest|, 2
    {
      if rest == "" {
        assert Agrees(ch.prefix);
        return ch.handlers, ch.fullPath;
      }
      handlers, fullPath := Search(ch, rest, params);
    }

    /** What a walk answers when the path ends on the static node ch. */
    method EndOnStatic(ch: Node, params: Params) returns (handlers: Option<Chain>, fullPath: string)
      requires Valid() && WildServed(tree) && Holds(ch)
      modifies params
      ensures var c := ch.prefix; var w := c + [CatchAll];
              if tree[c].handlers.Some? then
                handlers == tree[c].handlers && fullPath == tree[c].fullPath && params.list == old(params.list)
              else if w in tree then
                && handlers == tree[w].handlers && fullPath == tree[w].fullPath && handlers.Some?
                && params.list == old(params.list) + [Binding(tree[w].catchKey, "")]
              else
                handlers == None && fullPath == "" && params.list == old(params.list)
    {
      assert Agrees(ch.prefix);
      if ch.handlers.Some? {
        return ch.handlers, ch.fullPath;
      }
      var i := FindWild(ch, CatchAllKind, "");
      if i < |ch.children| {
        var gc := ch.children[i];
        ChildAt(ch, i);
        assert gc.prefix == ch.prefix + [CatchAll];
        assert Agrees(gc.prefix);
        assert gc.paramKey == tree[gc.prefix].catchKey;
        params.list := params.list + [Binding(gc.paramKey, "")];
        return gc.handlers, gc.fullPath;
      }
      LeafIsNew(tree, ch.prefix, ch.prefix + [CatchAll]);
      return None, "";
    }

    /** The child i of n as the next kid of the wild part of the walk. */
    lemma WildStep(n: Node, i: nat, path: string)
      requires Valid() && Holds(n) && path != "" && i < |n.children|
      ensures var q, ch := n.prefix, n.children[i]; var kids := tree[q].kids;
              && |kids| == |n.children| && kids[i] == ch.prefix && Holds(ch) && q < kids[i]
              && NodeAgrees(ch, ch.prefix, tree[ch.prefix], at)
              && kids[i][|q|..] == ch.Label() && kids[i][|q|] == ch.Label()[0]
              && kids[i..][0] == kids[i] && kids[i..][1..] == kids[i + 1..]
              && (ch.kind.Static? ==>
                    ResolveWild(tree, q, kids[i..], path) == ResolveWild(tree, q, kids[i + 1..], path))
    {
      var q, ch := n.prefix, n.children[i];
      var kids := tree[q].kids;
      ChildAt(n, i);
      assert Agrees(ch.prefix);
      assert kids[i..][1..] == kids[i + 1..];
    }

    lemma StartingChild(n: Node, path: string) returns (j: nat)
      requires Valid() && Holds(n) && FirstStatic(tree, n.prefix, path, 1) > 0
      ensures Starts(n, j, path)
    {
      var m;
      j, m := StaticKid(tree, n.prefix, path);
      assert Agrees(n.prefix);
      ChildAt(n, j);
      var ch := n.children[j];
      assert ch.Label() == Bytes(path[..m]);
      assert ch.kind.Static? by { assert ch.Label()[0] == Byte(path[0]); }
      assert |ch.path| == m;
      forall i | 0 <= i < m ensures ch.path[i] == path[i] {
        assert Bytes(ch.path)[i] == Bytes(path[..m])[i];
      }
    }

    lemma NoStaticAfter(n: Node, i: nat, j: nat)
      requires Valid() && Holds(n) && i <= j < |n.children| && !n.children[i].kind.Static?
      ensures !n.children[j].kind.Static?
    {
      RankOfChild(n, i);
      RankOfChild(n, j);
      assert GoodKids(tree, n.prefix, tree[n.prefix].kids);
    }

    /** Once the walk is past the static children, what is left decides. */
    lemma BeforeWild(n: Node, i: nat, path: string)
      requires Valid() && Holds(n) && path != "" && i <= |n.children|
      requires i < |n.children| ==> !n.children[i].kind.Static?
      requires Passed(n, i, path)
      ensures Resolve(tree, n.prefix, path) == ResolveWild(tree, n.prefix, tree[n.prefix].kids, path)
    {
      var q := n.prefix;
      if !FailedStatic(q, path) && FirstStatic(tree, q, path, 1) > 0 {
        var j := StartingChild(n, path);
        if i <= j { NoStaticAfter(n, i, j); }
      }
    }

    /** The walk has a static child to go to, and nothing is found there. */
    ghost predicate FailedStatic(q: Key, path: string)
      requires q in tree && path != ""
      reads this
    {
      var m := FirstStatic(tree, q, path, 1);
      0 < m < |path| && Resolve(tree, q + Bytes(path[..m]), path[m..]).None?
    }
  }

  /** A trie with the registrations es, made in that order. */
  method Build(es: seq<Entry>) returns (t: Trie)
    requires Proper(es)
    ensures fresh(t) && t.Valid() && BuiltFrom(es, t.tree)
  {
    t := new Trie();
    for i := 0 to |es|
      invariant t.Valid() && fresh(t) && fresh(t.nodes) && BuiltFrom(es[..i], t.tree)
    {
      ghost var was := t.tree;
      t.Register(es[i].path, es[i].chain);
      BuiltOneMore(es, i, was, t.tree);
    }
    assert es[..|es|] == es;
  }
}
