/** The prepared-statement cache: a linked list and a map kept together
    (driver/postgres/lru.go). The list is a sequence of its elements, front first. */
module Lru {
  import opened Wrappers
  import opened Recency

  class Element {
    const key: string
    var val: Statement

    constructor (key: string, val: Statement)
      ensures this.key == key && this.val == val
    {
      this.key, this.val := key, val;
    }
  }

  ghost function View(ll: seq<Element>): (s: List)
    reads ll
    ensures |s| == |ll| && forall i :: 0 <= i < |ll| ==> s[i] == Item(ll[i].key, ll[i].val)
  {
    seq(|ll|, i requires 0 <= i < |ll| reads ll => Item(ll[i].key, ll[i].val))
  }

  ghost predicate OneEach(ll: seq<Element>) {
    forall i, j :: 0 <= i < j < |ll| ==> ll[i].key != ll[j].key
  }

  /** The map holds exactly the elements of the list, under their keys. */
  ghost predicate Indexes(items: map<string, Element>, ll: seq<Element>) {
    && (forall k :: k in items ==> items[k] in ll && items[k].key == k)
    && (forall e :: e in ll ==> e.key in items && items[e.key] == e)
  }

  /** An element is where the recency list has its key. */
  lemma Place(ll: seq<Element>, i: nat)
    requires OneEach(ll) && i < |ll|
    ensures Has(View(ll), ll[i].key) && At(View(ll), ll[i].key) == i
  {
    assert View(ll)[i].key == ll[i].key;
  }

  /** The list with its element i moved to the front. */
  function Moved(ll: seq<Element>, i: nat): (m: seq<Element>)
    requires i < |ll|
    ensures |m| == |ll|
  {
    [ll[i]] + Cut(ll, i)
  }

  /** Where an element of the moved list stood before. */
  function Before(i: nat, j: nat): (p: nat) {
    if j == 0 then i else if j <= i then j - 1 else j
  }

  lemma MovedIs(ll: seq<Element>, i: nat)
    requires i < |ll|
    ensures forall j :: 0 <= j < |ll| ==> Moved(ll, i)[j] == ll[Before(i, j)]
  {
    CutIs(ll, i);
    forall j | 0 <= j < |ll| ensures Moved(ll, i)[j] == ll[Before(i, j)] {
      assert j > 0 ==> Moved(ll, i)[j] == Cut(ll, i)[j - 1];
    }
  }

  lemma MovedOnce(ll: seq<Element>, i: nat)
    requires i < |ll| && OneEach(ll)
    ensures OneEach(Moved(ll, i))
  {
    MovedIs(ll, i);
  }

  lemma MovedSame(ll: seq<Element>, i: nat)
    requires i < |ll|
    ensures forall e :: e in Moved(ll, i) <==> e in ll
  {
    MovedIs(ll, i);
    forall e | e in ll ensures e in Moved(ll, i) {
      var j :| 0 <= j < |ll| && ll[j] == e;
      assert Moved(ll, i)[if j == i then 0 else if j < i then j + 1 else j] == e;
    }
  }

  lemma MovedIndexes(ll: seq<Element>, items: map<string, Element>, i: nat)
    requires i < |ll| && Indexes(items, ll)
    ensures Indexes(items, Moved(ll, i))
  {
    MovedSame(ll, i);
  }

  lemma MovedView(ll: seq<Element>, i: nat)
    requires i < |ll| && OneEach(ll)
    ensures View(Moved(ll, i)) == [Item(ll[i].key, ll[i].val)] + Without(View(ll), ll[i].key)
  {
    Place(ll, i);
    MovedIs(ll, i);
    WithoutIs(View(ll), ll[i].key);
  }

  class Cache {
    const capacity: int
    var ll: seq<Element>
    var items: map<string, Element>

    ghost predicate Valid()
      reads this
    {
      && OneEach(ll) && Indexes(items, ll)
      && |ll| <= if capacity > 0 then capacity else 0
    }

    ghost function Contents(): (s: List)
      reads this, ll
    {
      View(ll)
    }

    constructor (capacity: int)
      ensures Valid() && this.capacity == capacity && Contents() == []
    {
      this.capacity := capacity;
      ll, items := [], map[];
    }

    /** The place of an element in the list. */
    function Index(l: seq<Element>, e: Element): (i: nat)
      requires e in l
      ensures i < |l| && l[i] == e
    {
      if l[0] == e then 0 else 1 + Index(l[1..], e)
    }

    /** A key is in the map exactly when the recency list has it. */
    lemma Known(k: string)
      requires Valid()
      ensures k in items <==> Has(Contents(), k)
    {
      if Has(Contents(), k) {
        var i := At(Contents(), k);
        assert ll[i] in ll;
      }
      if k in items {
        Place(ll, Index(ll, items[k]));
      }
    }

    method MoveToFront(e: Element)
      requires Valid() && e in ll
      modifies this`ll
      ensures Valid() && forall x :: x in ll <==> x in old(ll)
      ensures Contents() == [Item(e.key, e.val)] + Without(old(Contents()), e.key)
    {
      var i := Index(ll, e);
      MovedOnce(ll, i);
      MovedIndexes(ll, items, i);
      MovedSame(ll, i);
      MovedView(ll, i);
      ll := Moved(ll, i);
    }

    method Get(k: string) returns (r: Option<Statement>)
      requires Valid()
      modifies this`ll
      ensures Valid()
      ensures r == if capacity > 0 then Find(old(Contents()), k) else None
      ensures Contents() == Step(capacity, old(Contents()), Op.Get(k))
    {
      if capacity <= 0 {
        return None;
      }
      Known(k);
      if k !in items {
        return None;
      }
      var e := items[k];
      Place(ll, Index(ll, e));
      MoveToFront(e);
      return Some(e.val);
    }

    method Put(k: string, v: Statement) returns (evicted: seq<Statement>)
      requires Valid()
      modifies this, ll
      ensures Valid() && forall e :: e in ll ==> e in old(ll) || fresh(e)
      ensures evicted == Evicted(capacity, old(Contents()), Op.Put(k, v))
      ensures Contents() == Step(capacity, old(Contents()), Op.Put(k, v))
    {
      if capacity <= 0 {
        return [];
      }
      Known(k);
      if k in items {
        Overwrite(items[k], v);
        return [];
      }
      evicted := Insert(k, v);
    }

    method Overwrite(e: Element, v: Statement)
      requires Valid() && e in ll
      modifies this`ll, e
      ensures Valid() && forall x :: x in ll <==> x in old(ll)
      ensures Contents() == [Item(e.key, v)] + Without(old(Contents()), e.key)
    {
      ghost var i, was := Index(ll, e), Contents();
      Place(ll, i);
      e.val := v;
      Place(ll, i);
      WithoutSame(was, Contents(), e.key);
      MoveToFront(e);
    }

    /** PushFront, and the entry in the map. */
    method Push(k: string, v: Statement)
      requires Valid() && k !in items
      modifies this`ll, this`items
      ensures OneEach(ll) && Indexes(items, ll)
      ensures forall e :: e in ll ==> e in old(ll) || fresh(e)
      ensures Contents() == [Item(k, v)] + old(Contents())
    {
      var e := new Element(k, v);
      assert View(ll) == old(View(ll));
      Pushed(ll, items, e);
      ll := [e] + ll;
      items := items[k := e];
    }

    /** Removes the last element and its entry. */
    method PopBack() returns (v: Statement)
      requires ll != [] && OneEach(ll) && Indexes(items, ll)
      modifies this`ll, this`items
      ensures OneEach(ll) && Indexes(items, ll)
      ensures |ll| == |old(ll)| - 1 && ll <= old(ll)
      ensures v == old(ll)[|ll|].val
    {
      var back := ll[|ll| - 1];
      Popped(ll, items);
      items := items - {back.key};
      ll := ll[..|ll| - 1];
      return back.val;
    }

    method Trim() returns (evicted: seq<Statement>)
      requires capacity > 0 && OneEach(ll) && Indexes(items, ll)
      modifies this`ll, this`items
      ensures Valid() && ll <= old(ll)
      ensures |ll| == if |old(ll)| > capacity then capacity else |old(ll)|
      ensures evicted == Backwards(old(Contents())[|ll|..])
    {
      ghost var was := Contents();
      evicted := [];
      while |ll| > capacity
        invariant |ll| >= capacity || ll == old(ll)
        invariant OneEach(ll) && Indexes(items, ll) && ll <= old(ll)
        invariant evicted == Backwards(was[|ll|..])
      {
        evicted := EvictLast(old(ll), evicted);
      }
    }

    /** One turn of the eviction loop. */
    method EvictLast(ghost all: seq<Element>, evicted: seq<Statement>) returns (more: seq<Statement>)
      requires ll != [] && OneEach(ll) && Indexes(items, ll)
      requires ll <= all && evicted == Backwards(View(all)[|ll|..])
      modifies this`ll, this`items
      ensures OneEach(ll) && Indexes(items, ll)
      ensures |ll| == |old(ll)| - 1 && ll <= all
      ensures more == Backwards(View(all)[|ll|..])
    {
      LastFirst(View(all), |ll| - 1);
      var v := PopBack();
      assert v == View(all)[|ll|].val;
      more := evicted + [v];
    }

    method Insert(k: string, v: Statement) returns (evicted: seq<Statement>)
      requires Valid() && capacity > 0 && k !in items
      modifies this`ll, this`items
      ensures Valid() && forall e :: e in ll ==> e in old(ll) || fresh(e)
      ensures var all := [Item(k, v)] + old(Contents());
              var n := if |all| > capacity then capacity else |all|;
              Contents() == all[..n] && evicted == Backwards(all[n..])
    {
      Push(k, v);
      ghost var l, all := ll, Contents();
      evicted := Trim();
      assert |ll| == if |all| > capacity then capacity else |all|;
      assert l[..|ll|] == ll && View(l) == all;
      ViewPrefix(l, |ll|);
    }

    method Remove(k: string) returns (found: bool)
      requires Valid()
      modifies this`ll, this`items
      ensures Valid() && forall e :: e in ll ==> e in old(ll)
      ensures found == (capacity > 0 && Has(old(Contents()), k))
      ensures Contents() == Step(capacity, old(Contents()), Op.Remove(k))
    {
      if capacity <= 0 {
        return false;
      }
      Known(k);
      if k !in items {
        return false;
      }
      var i := Index(ll, items[k]);
      CutView(ll, i);
      CutIndexes(ll, items, i);
      items := items - {k};
      ll := Cut(ll, i);
      return true;
    }

    method Reset()
      modifies this`ll, this`items
      ensures Valid() && Contents() == Step(capacity, old(Contents()), Op.Reset)
    {
      ll, items := [], map[];
    }
  }

  lemma ViewPrefix(ll: seq<Element>, n: nat)
    requires n <= |ll|
    ensures View(ll[..n]) == View(ll)[..n]
  {
  }

  /** The list without its element i. */
  function Cut(ll: seq<Element>, i: nat): (m: seq<Element>)
    requires i < |ll|
    ensures |m| == |ll| - 1
  {
    ll[..i] + ll[i + 1..]
  }

  lemma CutIs(ll: seq<Element>, i: nat)
    requires i < |ll|
    ensures forall j :: 0 <= j < |ll| - 1 ==> Cut(ll, i)[j] == ll[Skip(i, j)]
  {
    CutAt(ll, i);
  }

  lemma CutView(ll: seq<Element>, i: nat)
    requires i < |ll| && OneEach(ll)
    ensures OneEach(Cut(ll, i)) && View(Cut(ll, i)) == Without(View(ll), ll[i].key)
  {
    CutIs(ll, i);
    Place(ll, i);
    WithoutIs(View(ll), ll[i].key);
  }

  lemma CutIndexes(ll: seq<Element>, items: map<string, Element>, i: nat)
    requires i < |ll| && OneEach(ll) && Indexes(items, ll)
    ensures Indexes(items - {ll[i].key}, Cut(ll, i))
    ensures forall e :: e in Cut(ll, i) ==> e in ll
  {
    forall e ensures e in Cut(ll, i) <==> e in ll && e.key != ll[i].key {
      CutHas(ll, i, e);
    }
  }

  lemma CutHas(ll: seq<Element>, i: nat, e: Element)
    requires i < |ll| && OneEach(ll)
    ensures e in Cut(ll, i) <==> e in ll && e.key != ll[i].key
  {
    var m := Cut(ll, i);
    CutIs(ll, i);
    if e in m {
      var j :| 0 <= j < |m| && m[j] == e;
    }
    if e in ll && e.key != ll[i].key {
      var j :| 0 <= j < |ll| && ll[j] == e;
      assert m[if j < i then j else j - 1] == e;
    }
  }

  lemma Pushed(ll: seq<Element>, items: map<string, Element>, e: Element)
    requires OneEach(ll) && Indexes(items, ll) && e.key !in items
    ensures OneEach([e] + ll) && Indexes(items[e.key := e], [e] + ll)
    ensures View([e] + ll) == [Item(e.key, e.val)] + View(ll)
  {
    var m := [e] + ll;
    forall i, j | 0 <= i < j < |m| ensures m[i].key != m[j].key {
      assert m[j] == ll[j - 1] && ll[j - 1] in ll;
    }
    assert m[1..] == ll;
  }

  lemma Popped(ll: seq<Element>, items: map<string, Element>)
    requires ll != [] && OneEach(ll) && Indexes(items, ll)
    ensures var m := ll[..|ll| - 1]; OneEach(m) && Indexes(items - {ll[|ll| - 1].key}, m)
  {
    var m := ll[..|ll| - 1];
    forall e | e in m ensures e.key != ll[|ll| - 1].key {
      var i :| 0 <= i < |m| && m[i] == e;
    }
    forall e | e in ll && e != ll[|ll| - 1] ensures e in m {
      var i :| 0 <= i < |ll| && ll[i] == e;
      assert m[i] == e;
    }
  }

  lemma LastFirst(s: List, n: nat)
    requires n < |s|
    ensures Backwards(s[n..]) == Backwards(s[n + 1..]) + [s[n].val]
  {
    assert s[n..][1..] == s[n + 1..];
  }
}
