/** The order of object keys and the in-place sort that puts them in it
    (context_response.go). */
module JsonKeys {
  import opened Utf8
  import opened Lexical

  /** Strictly increasing: sorted and without repetition. */
  ghost predicate Increasing(ks: seq<Bytes>) {
    forall i, j :: 0 <= i < j < |ks| ==> Less(ks[i], ks[j])
  }

  ghost predicate Sorted(ks: seq<Bytes>) {
    forall i, j :: 0 <= i < j < |ks| ==> !Less(ks[j], ks[i])
  }

  ghost function Least(ks: set<Bytes>): (k: Bytes)
    requires ks != {}
    ensures k in ks && forall j :: j in ks && j != k ==> Less(k, j)
  {
    var x :| x in ks;
    if ks == {x} then x
    else
      var m := Least(ks - {x});
      LessTotal(x, m);
      LeastOf(ks, x, m);
      if Less(x, m) then x else m
  }

  lemma LeastOf(ks: set<Bytes>, x: Bytes, m: Bytes)
    requires x in ks && m in ks && m != x && forall j :: j in ks && j != x && j != m ==> Less(m, j)
    ensures Less(x, m) ==> forall j :: j in ks && j != x ==> Less(x, j)
  {
    if Less(x, m) {
      forall j | j in ks && j != x ensures Less(x, j) {
        if j != m {
          LessTransitive(x, m, j);
        }
      }
    }
  }

  /** The keys of a set, in order. */
  ghost function InOrder(ks: set<Bytes>): (s: seq<Bytes>)
    ensures forall k :: k in s <==> k in ks
    ensures Increasing(s) && |s| == |ks|
  {
    if ks == {} then [] else var k := Least(ks); [k] + InOrder(ks - {k})
  }

  /** There is only one way to put them in order. */
  lemma {:induction false} OneOrder(a: seq<Bytes>, b: seq<Bytes>)
    requires Increasing(a) && Increasing(b) && forall k :: k in a <==> k in b
    ensures a == b
  {
    assert b != [] ==> b[0] in a;
    if a != [] {
      assert a[0] in b;
      LessTotal(a[0], b[0]);
      assert a[0] == b[0];
      forall k ensures k in a[1..] <==> k in b[1..] {
        LessTotal(a[0], a[0]);
        if k in a[1..] {
          assert Less(a[0], k) && k in a;
        }
        if k in b[1..] {
          assert Less(b[0], k) && k in b;
        }
      }
      OneOrder(a[1..], b[1..]);
    }
  }

  /** sortJSONKeys: insertion sort by swaps. */
  method SortKeys(keys: array<Bytes>)
    modifies keys
    ensures Sorted(keys[..]) && multiset(keys[..]) == multiset(old(keys[..]))
  {
    var i := 1;
    while i < keys.Length
      invariant 1 <= i
      invariant Sorted(keys[..if i < keys.Length then i else keys.Length])
      invariant multiset(keys[..]) == multiset(old(keys[..]))
    {
      Sink(keys, i);
      i := i + 1;
    }
  }

  /** The inner loop: keys[i] sinks to its place among the sorted keys before it. */
  method Sink(keys: array<Bytes>, i: nat)
    requires i < keys.Length && Sorted(keys[..i])
    modifies keys
    ensures Sorted(keys[..i + 1])
    ensures multiset(keys[..]) == multiset(old(keys[..]))
  {
    var j := i;
    while j > 0 && Less(keys[j], keys[j - 1])
      invariant 0 <= j <= i
      invariant forall p, q :: 0 <= p < q <= i && q != j ==> !Less(keys[q], keys[p])
      invariant multiset(keys[..]) == multiset(old(keys[..]))
    {
      LessTotal(keys[j - 1], keys[j]);
      keys[j - 1], keys[j] := keys[j], keys[j - 1];
      j := j - 1;
    }
    forall p | 0 <= p < j ensures !Less(keys[j], keys[p]) {
      if p < j - 1 {
        NotLessTransitive(keys[p], keys[j - 1], keys[j]);
      }
    }
  }
}
