/** Route patterns as keys, the segments they are registered in, and the set of
    trie positions a set of keys gives rise to (router_tree.go, without the heap). */
module Patterns {

  datatype Kind = Static | ParamKind | CatchAllKind

  /** One piece of a registered pattern, as splitPath cuts it. */
  datatype Segment = Segment(kind: Kind, text: string)

  /** A pattern, read token by token. A catch-all is nameless: two catch-alls at
      one place share one trie node, whatever they are called. */
  datatype Token = Byte(c: char) | Param(key: string) | CatchAll
  type Key = seq<Token>

  function Bytes(s: string): (k: Key)
    ensures |k| == |s|
    ensures forall i :: 0 <= i < |s| ==> k[i] == Byte(s[i])
  {
    seq(|s|, i requires 0 <= i < |s| => Byte(s[i]))
  }

  /** Index of the first '/' of s, or its length. */
  function SegmentEnd(s: string): (e: nat)
    ensures e <= |s|
    ensures e < |s| ==> s[e] == '/'
    ensures forall i :: 0 <= i < e ==> s[i] != '/'
  {
    if s == "" || s[0] == '/' then 0 else 1 + SegmentEnd(s[1..])
  }

  /** The key of a pattern whose leading '/' has been dropped. */
  function Tokens(s: string): (k: Key)
    decreases |s|
  {
    if s == "" then []
    else if s[0] == ':' then
      var e := SegmentEnd(s);
      [Param(s[1..e])] + Tokens(s[e..])
    else if s[0] == '*' then [CatchAll]
    else [Byte(s[0])] + Tokens(s[1..])
  }

  /** The name of the catch-all of a pattern whose leading '/' has been dropped; ""
      if it has none. */
  function CatchName(s: string): (name: string)
    decreases |s|
  {
    if s == "" then ""
    else if s[0] == ':' then CatchName(s[SegmentEnd(s)..])
    else if s[0] == '*' then s[1..]
    else CatchName(s[1..])
  }

  ghost predicate EndsWild(k: Key) { k != [] && k[|k| - 1].CatchAll? }

  /** Keys that patterns spell: a catch-all only at the end, and after a parameter
      either nothing or a '/'. */
  ghost predicate WellFormed(k: Key) {
    && (forall i :: 0 <= i < |k| - 1 ==> !k[i].CatchAll?)
    && (forall i :: 0 <= i < |k| - 1 && k[i].Param? ==> k[i + 1] == Byte('/'))
  }

  lemma {:induction false} TokensWellFormed(s: string)
    ensures WellFormed(Tokens(s))
    decreases |s|
  {
    if s != "" && s[0] == ':' {
      var e := SegmentEnd(s);
      TokensWellFormed(s[e..]);
      assert s[e..] != "" ==> Tokens(s[e..])[0] == Byte('/');
    } else if s != "" && s[0] != '*' {
      TokensWellFormed(s[1..]);
    }
  }

  function KeyOf(path: string): (k: Key)
    requires path != ""
  {
    Tokens(path[1..])
  }

  function Spell(seg: Segment): (k: Key)
    requires seg.text != ""
    ensures k != []
  {
    match seg.kind
    case Static => Bytes(seg.text)
    case ParamKind => [Param(seg.text[1..])]
    case CatchAllKind => [CatchAll]
  }

  ghost predicate NonEmptyTexts(segs: seq<Segment>) {
    forall i :: 0 <= i < |segs| ==> segs[i].text != ""
  }

  function SpellAll(segs: seq<Segment>): (k: Key)
    requires NonEmptyTexts(segs)
  {
    if segs == [] then [] else SpellAll(segs[..|segs| - 1]) + Spell(segs[|segs| - 1])
  }

  // ---------------------------------------------------------------- positions

  /** x and a both go on after b, with different tokens. */
  ghost predicate Diverge(b: Key, x: Key, a: Key) {
    b < x && b < a && x[|b|] != a[|b|]
  }

  /** A segment of k ends (or starts) after i tokens: around every parameter and
      catch-all, and after the '/' that follows a parameter. */
  ghost predicate Boundary(k: Key, i: nat)
    requires i <= |k|
  {
    || i == 0 || i == |k|
    || !k[i].Byte? || !k[i - 1].Byte?
    || (i >= 2 && k[i - 2].Param?)
  }

  /** The trie of the keys K has a node at p. */
  ghost predicate IsPosition(K: set<Key>, p: Key) {
    || p == []
    || (exists k :: k in K && p <= k && Boundary(k, |p|))
    || (exists k, l :: k in K && l in K && Diverge(p, k, l))
  }

  /** Positions are closed under branching. */
  ghost predicate BranchClosed(A: set<Key>) {
    forall b, x, a :: x in A && a in A && Diverge(b, x, a) ==> b in A
  }

  /** q is a position once x has been added to the positions A. */
  ghost predicate Inserted(A: set<Key>, x: Key, q: Key) {
    q in A || q == x || exists a :: a in A && Diverge(q, x, a)
  }

  lemma PrefixTrichotomy(a: Key, b: Key, c: Key)
    requires a <= c && b <= c
    ensures a <= b || b <= a
    ensures a == c[..|a|] && b == c[..|b|]
  {
    if |a| <= |b| { assert a == b[..|a|]; } else { assert b == a[..|b|]; }
  }

  lemma DivergeOnPrefix(b: Key, x: Key, a: Key, k: Key)
    requires Diverge(b, x, a) && a <= k
    ensures Diverge(b, x, k)
  {
    assert b <= a <= k;
  }

  /** Inserting a position and its branch points keeps the set branch-closed. */
  lemma InsertionClosed(A: set<Key>, B: set<Key>, x: Key)
    requires BranchClosed(A)
    requires forall q :: q in B <==> Inserted(A, x, q)
    ensures BranchClosed(B)
  {
    forall b, y, a | y in B && a in B && Diverge(b, y, a)
      ensures b in B
    {
      var y' := Extend(A, x, y);
      var a' := Extend(A, x, a);
      DivergeOnPrefix(b, y, a, a');
      DivergeOnPrefix(b, a', y, y');
      if y' != x && a' != x {
        assert b in A;
      } else if y' == x && a' != x {
        assert Diverge(b, x, a');
      } else {
        assert Diverge(b, x, y');
      }
    }
  }

  /** Every inserted position lies below x or below an old position. */
  lemma Extend(A: set<Key>, x: Key, q: Key) returns (k: Key)
    requires Inserted(A, x, q)
    ensures q <= k && (k in A || k == x)
  {
    if q in A { k := q; } else { k := x; }
  }

  // -------------------------------------------------- one segment at a time

  /** x is q followed by one whole segment. */
  ghost predicate SegmentStep(q: Key, x: Key) {
    && q < x
    && Boundary(x, |q|)
    && forall i :: |q| < i < |x| ==> !Boundary(x, i)
  }

  lemma StepBoundaries(q: Key, x: Key, p: Key)
    requires SegmentStep(q, x) && p <= x
    ensures Boundary(x, |p|) <==> p == x || (p <= q && Boundary(q, |p|))
  {
    if |p| <= |q| {
      assert p <= q by { PrefixTrichotomy(p, q, x); }
      assert q == x[..|q|];
    }
  }

  /** Inserting the next segment of a key turns the positions of K and the key's
      earlier segments into the positions of K and one segment more. */
  lemma StepPositions(K: set<Key>, q: Key, x: Key, A: set<Key>, p: Key)
    requires SegmentStep(q, x)
    requires forall r :: r in A <==> IsPosition(K + {q}, r)
    ensures Inserted(A, x, p) <==> IsPosition(K + {x}, p)
  {
    if Inserted(A, x, p) { InsertedIsPosition(K, q, x, A, p); }
    if IsPosition(K + {x}, p) { PositionIsInserted(K, q, x, A, p); }
  }

  lemma InsertedIsPosition(K: set<Key>, q: Key, x: Key, A: set<Key>, p: Key)
    requires SegmentStep(q, x)
    requires forall r :: r in A <==> IsPosition(K + {q}, r)
    requires Inserted(A, x, p)
    ensures IsPosition(K + {x}, p)
  {
    var K' := K + {x};
    if p == [] || p == x {
      assert x in K' && p <= x && Boundary(x, |p|);
    } else if p in A {
      if k :| k in K + {q} && p <= k && Boundary(k, |p|) {
        if k in K {
          assert k in K';
        } else {
          StepBoundaries(q, x, p);
          assert x in K' && p <= x && Boundary(x, |p|);
        }
      } else {
        var k, l :| k in K + {q} && l in K + {q} && Diverge(p, k, l);
        var k' := if k in K then k else x;
        var l' := if l in K then l else x;
        DivergeOnPrefix(p, k, l, l');
        DivergeOnPrefix(p, l', k, k');
        assert k' in K' && l' in K' && Diverge(p, k', l');
      }
    } else {
      var a :| a in A && Diverge(p, x, a);
      var k := PositionBelowKey(K + {q}, a);
      DivergeOnPrefix(p, x, a, k);
      assert k in K';
      assert x in K';
    }
  }

  lemma PositionBelowKey(K: set<Key>, p: Key) returns (k: Key)
    requires IsPosition(K, p) && p != []
    ensures k in K && p <= k
  {
    if l :| l in K && p <= l && Boundary(l, |p|) {
      k := l;
    } else {
      var m, l :| m in K && l in K && Diverge(p, m, l);
      k := m;
    }
  }

  lemma PositionIsInserted(K: set<Key>, q: Key, x: Key, A: set<Key>, p: Key)
    requires SegmentStep(q, x)
    requires forall r :: r in A <==> IsPosition(K + {q}, r)
    requires IsPosition(K + {x}, p)
    ensures Inserted(A, x, p)
  {
    var Q := K + {q};
    if p == [] {
      assert IsPosition(Q, p);
    } else if k :| k in K + {x} && p <= k && Boundary(k, |p|) {
      if k in K {
        assert k in Q;
        assert IsPosition(Q, p);
      } else {
        StepBoundaries(q, x, p);
        assert q in Q;
        assert p == x || IsPosition(Q, p);
      }
    } else {
      var k, l :| k in K + {x} && l in K + {x} && Diverge(p, k, l);
      if k in K && l in K {
        assert k in Q && l in Q;
        assert IsPosition(Q, p);
      } else {
        var m := if k in K then k else l;
        assert m in K && Diverge(p, x, m);
        assert m in Q && m <= m && Boundary(m, |m|);
        assert IsPosition(Q, m);
        assert m in A;
      }
    }
  }

  /** The empty key adds nothing: positions of K before the first segment. */
  lemma NoSegments(K: set<Key>, p: Key)
    ensures IsPosition(K + {[]}, p) <==> IsPosition(K, p)
  {
    var Q := K + {[]};
    if IsPosition(K, p) && p != [] {
      if k :| k in K && p <= k && Boundary(k, |p|) {
        assert k in Q;
      } else {
        var k, l :| k in K && l in K && Diverge(p, k, l);
        assert k in Q && l in Q;
      }
    }
  }
}
