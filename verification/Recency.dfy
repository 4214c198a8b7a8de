/** A recency list: the specification of the prepared-statement cache
    (driver/postgres/lru.go), and what it keeps over every run. */
module Recency {
  import opened Wrappers

  /** A prepared statement, by its identity. */
  type Statement = nat

  datatype Item = Item(key: string, val: Statement)

  /** From the most to the least recently used. */
  type List = seq<Item>

  predicate Has(s: List, k: string) {
    exists i :: 0 <= i < |s| && s[i].key == k
  }

  ghost predicate Distinct(s: List) {
    forall i, j :: 0 <= i < j < |s| ==> s[i].key != s[j].key
  }

  /** The place of a key. */
  function At(s: List, k: string): (i: nat)
    requires Has(s, k)
    ensures i < |s| && s[i].key == k
  {
    if s[0].key == k then 0
    else
      assert forall i :: 0 < i < |s| ==> s[i] == s[1..][i - 1];
      1 + At(s[1..], k)
  }

  function Find(s: List, k: string): (v: Option<Statement>) {
    if Has(s, k) then Some(s[At(s, k)].val) else None
  }

  function Without(s: List, k: string): (t: List) {
    if Has(s, k) then s[..At(s, k)] + s[At(s, k) + 1..] else s
  }

  datatype Op = Get(k: string) | Put(k: string, v: Statement) | Remove(k: string) | Reset

  function Step(capacity: int, s: List, op: Op): (t: List) {
    if capacity <= 0 && !op.Reset? then s
    else
      match op
      case Get(k) => if Has(s, k) then [s[At(s, k)]] + Without(s, k) else s
      case Put(k, v) =>
        if Has(s, k) then [Item(k, v)] + Without(s, k)
        else if |s| + 1 > capacity then ([Item(k, v)] + s)[..capacity]
        else [Item(k, v)] + s
      case Remove(k) => Without(s, k)
      case Reset => []
  }

  /** What a put returns: the values pushed out at the back, the last one first. */
  function Evicted(capacity: int, s: List, op: Op): (vs: seq<Statement>) {
    if capacity > 0 && op.Put? && !Has(s, op.k) && |s| + 1 > capacity
    then Backwards(([Item(op.k, op.v)] + s)[capacity..])
    else []
  }

  function Backwards(s: List): (vs: seq<Statement>) {
    if s == [] then [] else Backwards(s[1..]) + [s[0].val]
  }

  /** The values of a list. */
  function Bag(s: List): (b: multiset<Statement>) {
    if s == [] then multiset{} else multiset{s[0].val} + Bag(s[1..])
  }

  /** The values that leave the cache: evicted, overwritten, removed or reset. */
  function Gone(capacity: int, s: List, op: Op): (b: multiset<Statement>) {
    if op.Reset? then Bag(s)
    else if capacity <= 0 then multiset{}
    else if (op.Put? || op.Remove?) && Has(s, op.k) then multiset{s[At(s, op.k)].val}
    else multiset(Evicted(capacity, s, op))
  }

  function Entered(capacity: int, op: Op): (b: multiset<Statement>) {
    if capacity > 0 && op.Put? then multiset{op.v} else multiset{}
  }

  // ---------------------------------------------------------------- runs

  function Run(capacity: int, ops: seq<Op>): (s: List) {
    if ops == [] then [] else Step(capacity, Run(capacity, ops[..|ops| - 1]), ops[|ops| - 1])
  }

  /** Where an item of the list without one stood before. */
  function Skip(i: nat, j: nat): (p: nat) {
    if j < i then j else j + 1
  }

  lemma CutAt<T>(s: seq<T>, i: nat)
    requires i < |s|
    ensures forall j :: 0 <= j < |s| - 1 ==> (s[..i] + s[i + 1..])[j] == s[Skip(i, j)]
  {
    var t := s[..i] + s[i + 1..];
    forall j | 0 <= j < |s| - 1 ensures t[j] == s[Skip(i, j)] {
      if j < i {
        assert t[j] == s[..i][j];
      } else {
        assert t[j] == s[i + 1..][j - i];
      }
    }
  }

  lemma WithoutIs(s: List, k: string)
    requires Has(s, k)
    ensures |Without(s, k)| == |s| - 1
    ensures forall j :: 0 <= j < |s| - 1 ==> Without(s, k)[j] == s[Skip(At(s, k), j)]
  {
    CutAt(s, At(s, k));
  }

  lemma WithoutDistinct(s: List, k: string)
    requires Distinct(s)
    ensures Distinct(Without(s, k)) && !Has(Without(s, k), k)
  {
    if Has(s, k) {
      WithoutIs(s, k);
    }
  }

  /** Another value under the same key makes no difference to the others. */
  lemma WithoutSame(s: List, t: List, k: string)
    requires Has(s, k) && Has(t, k) && At(s, k) == At(t, k) && |s| == |t|
    requires forall j :: 0 <= j < |s| && j != At(s, k) ==> s[j] == t[j]
    ensures Without(s, k) == Without(t, k)
  {
    WithoutIs(s, k);
    WithoutIs(t, k);
  }

  lemma WithoutLength(s: List, k: string)
    ensures |Without(s, k)| == |s| - (if Has(s, k) then 1 else 0)
  {
  }

  /** Each key is cached once, and at most `capacity` of them. */
  lemma {:induction false} RunBounded(capacity: int, ops: seq<Op>)
    ensures Distinct(Run(capacity, ops))
    ensures |Run(capacity, ops)| <= if capacity > 0 then capacity else 0
  {
    if ops != [] {
      var s, op := Run(capacity, ops[..|ops| - 1]), ops[|ops| - 1];
      RunBounded(capacity, ops[..|ops| - 1]);
      if !op.Reset? {
        WithoutDistinct(s, op.k);
        WithoutLength(s, op.k);
      }
    }
  }

  /** The last operation of the run that used the key: a put, or a get that found it. */
  function LastUse(capacity: int, ops: seq<Op>, k: string): (t: int)
    ensures -1 <= t < |ops|
  {
    if ops == [] then -1
    else
      var before, op := ops[..|ops| - 1], ops[|ops| - 1];
      if op == Get(k) && Has(Run(capacity, before), k) then |ops| - 1
      else if op.Put? && op.k == k then |ops| - 1
      else LastUse(capacity, before, k)
  }

  /** The list is ordered by last use. */
  ghost predicate ByUse(capacity: int, ops: seq<Op>, s: List) {
    forall i, j :: 0 <= i < j < |s| ==> LastUse(capacity, ops, s[i].key) > LastUse(capacity, ops, s[j].key)
  }

  /** An operation on k moves only k forward in time. */
  lemma UseStep(capacity: int, ops: seq<Op>, k: string)
    requires ops != [] && (ops[|ops| - 1].Reset? || ops[|ops| - 1].k != k || ops[|ops| - 1].Remove?)
    ensures LastUse(capacity, ops, k) == LastUse(capacity, ops[..|ops| - 1], k)
  {
  }

  lemma ByUseWithout(capacity: int, ops: seq<Op>, s: List, k: string)
    requires Distinct(s) && ByUse(capacity, ops, s)
    ensures ByUse(capacity, ops, Without(s, k))
  {
    if Has(s, k) {
      WithoutIs(s, k);
    }
  }

  /** Order by last use survives an operation on a key that is not in the list. */
  lemma ByUseLater(capacity: int, ops: seq<Op>, s: List)
    requires ops != [] && ByUse(capacity, ops[..|ops| - 1], s)
    requires var op := ops[|ops| - 1]; op.Reset? || op.Remove? || !Has(s, op.k)
    ensures ByUse(capacity, ops, s)
  {
    forall i | 0 <= i < |s|
      ensures LastUse(capacity, ops, s[i].key) == LastUse(capacity, ops[..|ops| - 1], s[i].key)
    {
      UseStep(capacity, ops, s[i].key);
    }
  }

  lemma UsedNow(capacity: int, ops: seq<Op>)
    requires ops != []
    requires var op := ops[|ops| - 1];
             op.Put? || (op.Get? && Has(Run(capacity, ops[..|ops| - 1]), op.k))
    ensures LastUse(capacity, ops, ops[|ops| - 1].k) == |ops| - 1
  {
  }

  /** A used key goes to the front. */
  lemma ByUseFront(capacity: int, ops: seq<Op>, x: Item, s: List)
    requires ops != [] && ByUse(capacity, ops[..|ops| - 1], s)
    requires !ops[|ops| - 1].Reset? && x.key == ops[|ops| - 1].k && !Has(s, x.key)
    requires LastUse(capacity, ops, x.key) == |ops| - 1
    ensures ByUse(capacity, ops, [x] + s)
  {
    ByUseLater(capacity, ops, s);
    var t := [x] + s;
    forall i, j | 0 <= i < j < |t|
      ensures LastUse(capacity, ops, t[i].key) > LastUse(capacity, ops, t[j].key)
    {
      assert t[j] == s[j - 1];
      UseStep(capacity, ops, s[j - 1].key);
    }
  }

  /** In every run the list stands in the order of last use. */
  lemma {:induction false} RunByUse(capacity: int, ops: seq<Op>)
    ensures ByUse(capacity, ops, Run(capacity, ops))
  {
    if ops != [] && capacity > 0 {
      var before, op := ops[..|ops| - 1], ops[|ops| - 1];
      var s := Run(capacity, before);
      RunByUse(capacity, before);
      RunBounded(capacity, before);
      if !op.Reset? {
        WithoutDistinct(s, op.k);
        ByUseWithout(capacity, before, s, op.k);
        if op.Remove? || (op.Get? && !Has(s, op.k)) {
          ByUseLater(capacity, ops, Without(s, op.k));
        } else {
          UsedNow(capacity, ops);
          var x := if op.Put? then Item(op.k, op.v) else s[At(s, op.k)];
          ByUseFront(capacity, ops, x, Without(s, op.k));
        }
      }
    } else if ops != [] {
      RunBounded(capacity, ops);
    }
  }

  /** A put on a full cache evicts one value: that of the key whose last use is oldest. */
  lemma EvictsLeastRecent(capacity: int, ops: seq<Op>, k: string, v: Statement)
    requires !Has(Run(capacity, ops), k) && |Run(capacity, ops)| == capacity > 0
    ensures var s := Run(capacity, ops);
      && Evicted(capacity, s, Put(k, v)) == [s[capacity - 1].val]
      && Step(capacity, s, Put(k, v)) == [Item(k, v)] + s[..capacity - 1]
      && forall i :: 0 <= i < capacity - 1 ==>
           LastUse(capacity, ops, s[i].key) > LastUse(capacity, ops, s[capacity - 1].key)
  {
    var s := Run(capacity, ops);
    RunByUse(capacity, ops);
    FullPut(capacity, s, k, v);
  }

  lemma FullPut(capacity: int, s: List, k: string, v: Statement)
    requires !Has(s, k) && |s| == capacity > 0
    ensures Evicted(capacity, s, Put(k, v)) == [s[capacity - 1].val]
    ensures Step(capacity, s, Put(k, v)) == [Item(k, v)] + s[..capacity - 1]
  {
    var t := [Item(k, v)] + s;
    assert t[..capacity] == [Item(k, v)] + s[..capacity - 1];
    assert t[capacity..] == [s[capacity - 1]];
    assert t[capacity..][1..] == [] && Backwards([]) + [s[capacity - 1].val] == [s[capacity - 1].val];
  }

  // ---------------------------------------------------------------- conservation

  lemma {:induction false} BagAdd(s: List, t: List)
    ensures Bag(s + t) == Bag(s) + Bag(t)
  {
    if s == [] {
      assert s + t == t;
    } else {
      assert (s + t)[1..] == s[1..] + t;
      BagAdd(s[1..], t);
    }
  }

  lemma {:induction false} BagBackwards(s: List)
    ensures multiset(Backwards(s)) == Bag(s)
  {
    if s != [] {
      BagBackwards(s[1..]);
    }
  }

  lemma BagFront(x: Item, s: List)
    ensures Bag([x] + s) == multiset{x.val} + Bag(s)
  {
    assert ([x] + s)[1..] == s;
  }

  lemma BagWithout(s: List, k: string)
    requires Has(s, k)
    ensures Bag(s) == Bag(Without(s, k)) + multiset{s[At(s, k)].val}
  {
    var i := At(s, k);
    assert s == s[..i] + ([s[i]] + s[i + 1..]);
    BagAdd(s[..i], [s[i]] + s[i + 1..]);
    BagAdd(s[..i], s[i + 1..]);
    BagFront(s[i], s[i + 1..]);
  }

  lemma PutConserves(capacity: int, s: List, k: string, v: Statement)
    requires capacity > 0 && !Has(s, k)
    ensures Bag(s) + multiset{v} == Bag(Step(capacity, s, Put(k, v))) + multiset(Evicted(capacity, s, Put(k, v)))
  {
    var t := [Item(k, v)] + s;
    BagFront(Item(k, v), s);
    if |t| > capacity {
      assert t == t[..capacity] + t[capacity..];
      BagAdd(t[..capacity], t[capacity..]);
      BagBackwards(t[capacity..]);
    }
  }

  /** One operation loses no value and duplicates none. */
  lemma StepConserves(capacity: int, s: List, op: Op)
    ensures Bag(s) + Entered(capacity, op) == Bag(Step(capacity, s, op)) + Gone(capacity, s, op)
  {
    if capacity > 0 && !op.Reset? {
      if Has(s, op.k) {
        BagWithout(s, op.k);
        BagFront(if op.Put? then Item(op.k, op.v) else s[At(s, op.k)], Without(s, op.k));
      } else if op.Put? {
        PutConserves(capacity, s, op.k, op.v);
      }
    }
  }

  function AllEntered(capacity: int, ops: seq<Op>): (b: multiset<Statement>) {
    if ops == [] then multiset{}
    else AllEntered(capacity, ops[..|ops| - 1]) + Entered(capacity, ops[|ops| - 1])
  }

  function AllGone(capacity: int, ops: seq<Op>): (b: multiset<Statement>) {
    if ops == [] then multiset{}
    else
      var before := ops[..|ops| - 1];
      AllGone(capacity, before) + Gone(capacity, Run(capacity, before), ops[|ops| - 1])
  }

  lemma Exchange(all: multiset<Statement>, more: multiset<Statement>, had: multiset<Statement>,
                 gone: multiset<Statement>, has: multiset<Statement>, goes: multiset<Statement>)
    requires all == had + gone && had + more == has + goes
    ensures all + more == has + (gone + goes)
  {
    assert all + more == (had + more) + gone;
  }

  /** Over a run, every value put in is still cached or has gone once: evicted,
      overwritten, removed or reset. */
  lemma {:induction false} RunConserves(capacity: int, ops: seq<Op>)
    ensures AllEntered(capacity, ops) == Bag(Run(capacity, ops)) + AllGone(capacity, ops)
  {
    if ops != [] {
      var before, op := ops[..|ops| - 1], ops[|ops| - 1];
      var s := Run(capacity, before);
      RunConserves(capacity, before);
      StepConserves(capacity, s, op);
      Exchange(AllEntered(capacity, before), Entered(capacity, op), Bag(s), AllGone(capacity, before),
               Bag(Run(capacity, ops)), Gone(capacity, s, op));
    }
  }

  // ---------------------------------------------------------------- contents

  /** The value last put under k, if it was not removed or reset since. */
  function Latest(ops: seq<Op>, k: string): (v: Option<Statement>) {
    if ops == [] then None
    else
      var op := ops[|ops| - 1];
      if op == Reset then None
      else if op == Remove(k) then None
      else if op.Put? && op.k == k then Some(op.v)
      else Latest(ops[..|ops| - 1], k)
  }

  lemma FindIs(s: List, i: nat)
    requires Distinct(s) && i < |s|
    ensures Has(s, s[i].key) && Find(s, s[i].key) == Some(s[i].val)
  {
  }

  lemma FindWithout(s: List, k: string, j: string)
    requires Distinct(s)
    ensures Find(Without(s, k), j) == if j == k then None else Find(s, j)
  {
    WithoutDistinct(s, k);
    if Has(s, k) && j != k {
      WithoutIs(s, k);
      var t, a := Without(s, k), At(s, k);
      if Has(s, j) {
        var i := At(s, j);
        var m := if i < a then i else i - 1;
        assert t[m] == s[i];
        FindIs(t, m);
      } else {
        assert forall m :: 0 <= m < |t| ==> t[m] == s[Skip(a, m)];
      }
    }
  }

  lemma FindFront(x: Item, s: List, j: string)
    requires Distinct([x] + s)
    ensures Find([x] + s, j) == if j == x.key then Some(x.val) else Find(s, j)
  {
    var t := [x] + s;
    if j == x.key {
      FindIs(t, 0);
    } else if Has(s, j) {
      assert t[At(s, j) + 1] == s[At(s, j)];
      FindIs(t, At(s, j) + 1);
    } else {
      assert forall i :: 0 < i < |t| ==> t[i] == s[i - 1];
    }
  }

  lemma FindCut(s: List, n: nat, j: string)
    requires Distinct(s) && n <= |s|
    ensures Find(s[..n], j) == if Has(s, j) && At(s, j) < n then Find(s, j) else None
  {
    var t := s[..n];
    if Has(s, j) && At(s, j) < n {
      assert t[At(s, j)] == s[At(s, j)];
      FindIs(t, At(s, j));
    } else {
      assert forall i :: 0 <= i < n ==> t[i] == s[i];
    }
  }

  lemma FrontDistinct(x: Item, s: List)
    requires Distinct(s) && !Has(s, x.key)
    ensures Distinct([x] + s)
  {
  }

  /** What an operation does to the value under any key: a put sets its own, a removal clears
      its own, and a put on a full cache drops the last; every other value stays. */
  lemma StepFinds(capacity: int, s: List, op: Op, j: string)
    requires capacity > 0 && Distinct(s) && |s| <= capacity
    ensures Find(Step(capacity, s, op), j) ==
      match op
      case Get(_) => Find(s, j)
      case Put(k, v) =>
        if j == k then Some(v)
        else if !Has(s, k) && |s| == capacity && j == s[|s| - 1].key then None
        else Find(s, j)
      case Remove(k) => if j == k then None else Find(s, j)
      case Reset => None
  {
    match op
    case Get(k) =>
      if Has(s, k) {
        WithoutDistinct(s, k);
        FrontDistinct(s[At(s, k)], Without(s, k));
        FindFront(s[At(s, k)], Without(s, k), j);
        FindWithout(s, k, j);
      }
    case Put(k, v) => PutFinds(capacity, s, k, v, j);
    case Remove(k) => FindWithout(s, k, j);
    case Reset =>
  }

  lemma PutFinds(capacity: int, s: List, k: string, v: Statement, j: string)
    requires capacity > 0 && Distinct(s) && |s| <= capacity
    ensures Find(Step(capacity, s, Put(k, v)), j) ==
      if j == k then Some(v)
      else if !Has(s, k) && |s| == capacity && j == s[|s| - 1].key then None
      else Find(s, j)
  {
    var x := Item(k, v);
    if Has(s, k) {
      WithoutDistinct(s, k);
      FrontDistinct(x, Without(s, k));
      FindFront(x, Without(s, k), j);
      FindWithout(s, k, j);
    } else {
      FrontDistinct(x, s);
      FindFront(x, s, j);
      if |s| == capacity {
        FindCut([x] + s, capacity, j);
        FullFinds(capacity, s, x, j);
      }
    }
  }

  /** On a full list only the last key falls off. */
  lemma FullFinds(capacity: int, s: List, x: Item, j: string)
    requires capacity > 0 && |s| == capacity && Distinct([x] + s)
    ensures Has([x] + s, j) ==> (At([x] + s, j) < capacity <==> j != s[|s| - 1].key)
  {
    var t := [x] + s;
    assert t[|t| - 1] == s[|s| - 1];
    FindIs(t, |t| - 1);
  }

  /** Over every run a cached value is the one last put under its key. */
  lemma {:induction false} RunLatest(capacity: int, ops: seq<Op>, k: string)
    requires capacity > 0
    ensures Find(Run(capacity, ops), k).Some? ==> Find(Run(capacity, ops), k) == Latest(ops, k)
  {
    if ops != [] {
      var before := ops[..|ops| - 1];
      RunLatest(capacity, before, k);
      RunBounded(capacity, before);
      StepFinds(capacity, Run(capacity, before), ops[|ops| - 1], k);
    }
  }
}
