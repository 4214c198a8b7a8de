/** The ketama ring (driver/memcached/cluster.go). MD5 stays a function of the key: `words`
    gives the four little-endian 32-bit words of a digest. */
module Ring {
  import opened Wrappers

  datatype Words = Words(w0: nat, w1: nat, w2: nat, w3: nat)
  type Digest = string -> Words

  /** A node of the configuration: who it is, its address and its weight. Two nodes may share
      an address. */
  datatype Member = Member(id: nat, addr: string, weight: nat)

  datatype Point = Point(hash: nat, id: nat)

  const POINTS_PER_WEIGHT: nat := 160
  const DIGESTS_PER_WEIGHT: nat := 40
  const MAX_POINTS: nat := 65536

  // ---------------------------------------------------------------- budget

  function Total(ws: seq<nat>): (n: nat) {
    if ws == [] then 0 else Total(ws[..|ws| - 1]) + ws[|ws| - 1]
  }

  /** What NewClusterClient demands of the weights up to n. */
  ghost predicate Affordable(ws: seq<nat>, n: nat)
    requires n <= |ws|
  {
    (forall i :: 0 <= i < n ==> ws[i] > 0) && 160 * Total(ws[..n]) <= 65536
  }

  lemma {:induction false} TotalGrows(ws: seq<nat>, m: nat)
    requires m <= |ws|
    ensures Total(ws[..m]) <= Total(ws)
    decreases |ws|
  {
    if m < |ws| {
      assert ws[..|ws| - 1][..m] == ws[..m];
      TotalGrows(ws[..|ws| - 1], m);
    } else {
      assert ws[..m] == ws;
    }
  }

  /** The weight checks of NewClusterClient: the first weight that is zero or would take the
      ring over its budget is refused, and with it the configuration. */
  method CheckWeights(ws: seq<nat>) returns (bad: Option<nat>)
    ensures bad.None? <==> Affordable(ws, |ws|)
    ensures bad.Some? ==> bad.value < |ws| && Affordable(ws, bad.value) && !Affordable(ws, bad.value + 1)
  {
    var points := 0;
    for i := 0 to |ws|
      invariant points == POINTS_PER_WEIGHT * Total(ws[..i]) && Affordable(ws, i)
    {
      assert ws[..i + 1][..i] == ws[..i];
      if ws[i] == 0 || points + ws[i] * POINTS_PER_WEIGHT > MAX_POINTS {
        Refused(ws, i);
        return Some(i);
      }
      points := points + ws[i] * POINTS_PER_WEIGHT;
    }
    assert ws[..|ws|] == ws;
    return None;
  }

  lemma Refused(ws: seq<nat>, i: nat)
    requires i < |ws|
    requires ws[i] == 0 || POINTS_PER_WEIGHT * (Total(ws[..i]) + ws[i]) > MAX_POINTS
    ensures !Affordable(ws, i + 1) && !Affordable(ws, |ws|)
  {
    assert ws[..i + 1][..i] == ws[..i] && ws[..|ws|] == ws;
    TotalGrows(ws, i + 1);
  }

  // ---------------------------------------------------------------- points

  function Decimal(n: nat): (s: string) {
    if n < 10 then ['0' + n as char] else Decimal(n / 10) + ['0' + (n % 10) as char]
  }

  /** The four points of one digest. */
  function Quad(words: Digest, m: Member, i: nat): (ps: seq<Point>)
    ensures |ps| == 4
  {
    var w := words(m.addr + "-" + Decimal(i));
    [Point(w.w0, m.id), Point(w.w1, m.id), Point(w.w2, m.id), Point(w.w3, m.id)]
  }

  /** The points of the first n digests of a node. */
  function Quads(words: Digest, m: Member, n: nat): (ps: seq<Point>)
    ensures |ps| == 4 * n
  {
    if n == 0 then [] else Quads(words, m, n - 1) + Quad(words, m, n - 1)
  }

  function PointsOf(words: Digest, m: Member): (ps: seq<Point>)
    ensures |ps| == POINTS_PER_WEIGHT * m.weight
  {
    Quads(words, m, DIGESTS_PER_WEIGHT * m.weight)
  }

  /** All points, in the order they are made. */
  function Points(words: Digest, ms: seq<Member>): (ps: seq<Point>) {
    if ms == [] then [] else Points(words, ms[..|ms| - 1]) + PointsOf(words, ms[|ms| - 1])
  }

  function Weights(ms: seq<Member>): (ws: seq<nat>)
    ensures |ws| == |ms|
  {
    if ms == [] then [] else Weights(ms[..|ms| - 1]) + [ms[|ms| - 1].weight]
  }

  /** 160 points for each unit of weight. */
  lemma {:induction false} PointsCount(words: Digest, ms: seq<Member>)
    ensures |Points(words, ms)| == 160 * Total(Weights(ms))
  {
    if ms != [] {
      PointsCount(words, ms[..|ms| - 1]);
      assert Weights(ms)[..|ms| - 1] == Weights(ms[..|ms| - 1]);
    }
  }

  // ---------------------------------------------------------------- where points come from

  /** What a decimal text says. */
  function ValueOf(s: string): (n: nat)
    requires forall i :: 0 <= i < |s| ==> '0' <= s[i] <= '9'
  {
    if s == "" then 0 else ValueOf(s[..|s| - 1]) * 10 + (s[|s| - 1] as int - '0' as int)
  }

  lemma {:induction false} DecimalIs(n: nat)
    ensures var s := Decimal(n);
      s != "" && (forall i :: 0 <= i < |s| ==> '0' <= s[i] <= '9') && ValueOf(s) == n && (|s| > 1 ==> s[0] != '0')
  {
    var s := Decimal(n);
    if n >= 10 {
      DecimalIs(n / 10);
      assert s[..|s| - 1] == Decimal(n / 10);
    } else {
      assert s[..0] == "";
    }
  }

  /** h is one of the four words of the digest number i of an address. */
  predicate Gives(words: Digest, addr: string, i: nat, h: nat) {
    var w := words(addr + "-" + Decimal(i));
    h == w.w0 || h == w.w1 || h == w.w2 || h == w.w3
  }

  lemma {:induction false} QuadsHave(words: Digest, m: Member, n: nat, h: nat, id: nat)
    ensures Point(h, id) in Quads(words, m, n) <==> id == m.id && exists i :: 0 <= i < n && Gives(words, m.addr, i, h)
  {
    if n > 0 {
      QuadsHave(words, m, n - 1, h, id);
      assert Point(h, id) in Quad(words, m, n - 1) <==> id == m.id && Gives(words, m.addr, n - 1, h);
    }
  }

  /** A node gives a hash if it is a word of one of its 40 digests for each unit of weight. */
  ghost predicate NodeGives(words: Digest, m: Member, h: nat) {
    exists i :: 0 <= i < 40 * m.weight && Gives(words, m.addr, i, h)
  }

  lemma PointsHave(words: Digest, ms: seq<Member>, h: nat, id: nat)
    ensures Point(h, id) in Points(words, ms) <==>
      exists k :: 0 <= k < |ms| && ms[k].id == id && NodeGives(words, ms[k], h)
  {
    if Point(h, id) in Points(words, ms) {
      var k := Maker(words, ms, Point(h, id));
      QuadsHave(words, ms[k], DIGESTS_PER_WEIGHT * ms[k].weight, h, id);
    }
    if k :| 0 <= k < |ms| && ms[k].id == id && NodeGives(words, ms[k], h) {
      QuadsHave(words, ms[k], DIGESTS_PER_WEIGHT * ms[k].weight, h, id);
      Makes(words, ms, k, Point(h, id));
    }
  }

  /** A hash is on the ring for a node if and only if it is one of the four words of the
      digest of addr-i, for some i below 40 times the node's weight. */
  lemma RingHas(words: Digest, ms: seq<Member>, ring: seq<Point>, h: nat, id: nat)
    requires IsRing(words, ms, ring)
    ensures Point(h, id) in ring <==> exists k :: 0 <= k < |ms| && ms[k].id == id && NodeGives(words, ms[k], h)
  {
    PointsHave(words, ms, h, id);
    assert Point(h, id) in ring <==> Point(h, id) in multiset(ring);
    assert Point(h, id) in Points(words, ms) <==> Point(h, id) in multiset(Points(words, ms));
  }

  ghost predicate Sorted(ring: seq<Point>) {
    forall i, j :: 0 <= i < j < |ring| ==> ring[i].hash <= ring[j].hash
  }

  /** The points of the members, sorted by hash. */
  ghost predicate IsRing(words: Digest, ms: seq<Member>, ring: seq<Point>) {
    Sorted(ring) && multiset(ring) == multiset(Points(words, ms))
  }

  /** buildRing. */
  method BuildRing(words: Digest, ms: seq<Member>) returns (ring: seq<Point>)
    ensures IsRing(words, ms, ring) && |ring| == POINTS_PER_WEIGHT * Total(Weights(ms))
  {
    ring := [];
    for k := 0 to |ms|
      invariant ring == Points(words, ms[..k])
    {
      ghost var was := ring;
      var m := ms[k];
      for i := 0 to m.weight * DIGESTS_PER_WEIGHT
        invariant ring == was + Quads(words, m, i)
      {
        assert was + Quads(words, m, i) + Quad(words, m, i) == was + Quads(words, m, i + 1);
        ring := ring + Quad(words, m, i);
      }
      assert ms[..k + 1][..k] == ms[..k];
    }
    assert ms[..|ms|] == ms;
    PointsCount(words, ms);
    ring := SortByHash(ring);
    SameLength(ring, Points(words, ms));
  }

  lemma SameLength(a: seq<Point>, b: seq<Point>)
    requires multiset(a) == multiset(b)
    ensures |a| == |b|
  {
    assert |multiset(a)| == |a| && |multiset(b)| == |b|;
  }

  /** Some sort by hash; the order of equal hashes does not matter to what follows. */
  method SortByHash(s: seq<Point>) returns (r: seq<Point>)
    ensures Sorted(r) && multiset(r) == multiset(s)
  {
    r := [];
    for i := 0 to |s|
      invariant Sorted(r) && multiset(r) == multiset(s[..i])
    {
      var k := Search(r, s[i].hash);
      assert s[..i + 1] == s[..i] + [s[i]];
      InsertSorted(r, k, s[i]);
      InsertSame(r, k, s[i]);
      r := Insert(r, k, s[i]);
    }
    assert s[..|s|] == s;
  }

  function Insert(r: seq<Point>, k: nat, p: Point): (t: seq<Point>)
    requires k <= |r|
    ensures |t| == |r| + 1
    ensures forall j :: 0 <= j < |t| ==> t[j] == if j < k then r[j] else if j == k then p else r[j - 1]
  {
    r[..k] + [p] + r[k..]
  }

  lemma InsertSorted(r: seq<Point>, k: nat, p: Point)
    requires Sorted(r) && k <= |r| && (k < |r| ==> r[k].hash >= p.hash)
    requires forall j :: 0 <= j < k ==> r[j].hash < p.hash
    ensures Sorted(Insert(r, k, p))
  {
  }

  lemma InsertSame(r: seq<Point>, k: nat, p: Point)
    requires k <= |r|
    ensures multiset(Insert(r, k, p)) == multiset(r) + multiset{p}
  {
    assert r == r[..k] + r[k..];
  }

  /** sort.Search for the first point at or after a hash. */
  method Search(ring: seq<Point>, h: nat) returns (i: nat)
    requires Sorted(ring)
    ensures i <= |ring| && (i < |ring| ==> ring[i].hash >= h)
    ensures forall j :: 0 <= j < i ==> ring[j].hash < h
  {
    i := 0;
    var n := |ring|;
    while i < n
      invariant 0 <= i <= n <= |ring|
      invariant forall j :: 0 <= j < i ==> ring[j].hash < h
      invariant forall j :: n <= j < |ring| ==> ring[j].hash >= h
    {
      var mid := (i + n) / 2;
      if ring[mid].hash >= h {
        n := mid;
      } else {
        i := mid + 1;
      }
    }
  }

  // ---------------------------------------------------------------- owners

  /** The owner of a hash, without reference to a sorted ring: of the points at or after it
      the nearest, or if there are none the first point of all. */
  ghost predicate Owns(ps: seq<Point>, h: nat, p: Point) {
    && p in ps
    && if exists q :: q in ps && q.hash >= h
       then p.hash >= h && forall q :: q in ps && q.hash >= h ==> p.hash <= q.hash
       else forall q :: q in ps ==> p.hash <= q.hash
  }

  ghost predicate DistinctHashes(ps: seq<Point>) {
    forall p, q :: p in ps && q in ps && p.hash == q.hash ==> p == q
  }

  lemma OwnerUnique(ps: seq<Point>, h: nat, p: Point, q: Point)
    requires DistinctHashes(ps) && Owns(ps, h, p) && Owns(ps, h, q)
    ensures p == q
  {
  }

  /** The lookup: binary search with wrap-around finds the owner. */
  method Lookup(ring: seq<Point>, h: nat) returns (p: Point)
    requires ring != [] && Sorted(ring)
    ensures Owns(ring, h, p)
  {
    var i := Search(ring, h);
    if i == |ring| {
      i := 0;
    }
    p := ring[i];
  }

  lemma OwnsPermuted(a: seq<Point>, b: seq<Point>, h: nat, p: Point)
    requires multiset(a) == multiset(b) && Owns(a, h, p)
    ensures Owns(b, h, p)
  {
    assert forall q :: q in a <==> q in multiset(a);
    assert forall q :: q in b <==> q in multiset(b);
  }

  function Without(ms: seq<Member>, r: nat): (t: seq<Member>)
    requires r < |ms|
  {
    ms[..r] + ms[r + 1..]
  }

  lemma {:induction false} Maker(words: Digest, ms: seq<Member>, p: Point) returns (k: nat)
    requires p in Points(words, ms)
    ensures k < |ms| && p in PointsOf(words, ms[k])
  {
    k := |ms| - 1;
    if p !in PointsOf(words, ms[k]) {
      var n := k;
      k := Maker(words, ms[..n], p);
      assert ms[..n][k] == ms[k];
    }
  }

  lemma {:induction false} Makes(words: Digest, ms: seq<Member>, k: nat, p: Point)
    requires k < |ms| && p in PointsOf(words, ms[k])
    ensures p in Points(words, ms)
  {
    if k < |ms| - 1 {
      assert ms[..|ms| - 1][k] == ms[k];
      Makes(words, ms[..|ms| - 1], k, p);
    }
  }

  lemma {:induction false} IdOf(words: Digest, m: Member, n: nat, p: Point)
    requires p in Quads(words, m, n)
    ensures p.id == m.id
  {
    if p !in Quad(words, m, n - 1) {
      IdOf(words, m, n - 1, p);
    }
  }

  lemma FewerPoints(words: Digest, ms: seq<Member>, r: nat, p: Point)
    requires r < |ms| && p in Points(words, Without(ms, r))
    ensures p in Points(words, ms)
  {
    var k := Maker(words, Without(ms, r), p);
    var j := if k < r then k else k + 1;
    assert Without(ms, r)[k] == ms[j];
    Makes(words, ms, j, p);
  }

  lemma StillThere(ms: seq<Member>, r: nat, k: nat) returns (j: nat)
    requires r < |ms| && k < |ms| && k != r
    ensures j < |Without(ms, r)| && Without(ms, r)[j] == ms[k]
  {
    j := if k < r then k else k - 1;
  }

  lemma OthersPoints(words: Digest, ms: seq<Member>, r: nat, p: Point)
    requires r < |ms| && p in Points(words, ms) && p.id != ms[r].id
    ensures p in Points(words, Without(ms, r))
  {
    var k := Maker(words, ms, p);
    IdOf(words, ms[k], DIGESTS_PER_WEIGHT * ms[k].weight, p);
    var j := StillThere(ms, r, k);
    Makes(words, Without(ms, r), j, p);
  }

  /** Removing a node moves only its own keys: every hash that another node owned keeps its
      owner, whatever the order of the sort among equal hashes was. */
  lemma RemovalKeepsOwners(words: Digest, ms: seq<Member>, r: nat, before: seq<Point>, after: seq<Point>, h: nat,
                           p: Point, q: Point)
    requires r < |ms| && IsRing(words, ms, before) && IsRing(words, Without(ms, r), after)
    requires DistinctHashes(Points(words, ms))
    requires Owns(before, h, p) && Owns(after, h, q) && p.id != ms[r].id
    ensures q == p
  {
    var all, rest := Points(words, ms), Points(words, Without(ms, r));
    OwnsPermuted(before, all, h, p);
    OwnsPermuted(after, rest, h, q);
    forall x | x in rest ensures x in all {
      FewerPoints(words, ms, r, x);
    }
    OthersPoints(words, ms, r, p);
    OwnerAmongFewer(all, rest, h, p, q);
  }

  lemma OwnerAmongFewer(all: seq<Point>, rest: seq<Point>, h: nat, p: Point, q: Point)
    requires forall x :: x in rest ==> x in all
    requires DistinctHashes(all) && Owns(all, h, p) && p in rest && Owns(rest, h, q)
    ensures q == p
  {
    assert Owns(rest, h, p);
  }
}
