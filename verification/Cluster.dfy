/** Node health, failover and multi-key reads of the memcached cluster client
    (driver/memcached/cluster.go). */
module Cluster {
  import opened Wrappers
  import opened Ring

  /** The failures at the end of a history: true is an infrastructure failure. */
  function Trailing(history: seq<bool>): (n: nat) {
    if history == [] || !history[|history| - 1] then 0 else 1 + Trailing(history[..|history| - 1])
  }

  class Node {
    const addr: string
    var failing: bool
    var fails: nat
    ghost var history: seq<bool>

    constructor (addr: string)
      ensures this.addr == addr && history == [] && forall t: nat :: t > 0 ==> Valid(t)
    {
      this.addr, failing, fails, history := addr, false, 0, [];
    }

    /** A node is failing exactly while its last `threshold` results all were
        infrastructure failures. */
    ghost predicate Valid(threshold: nat)
      reads this
    {
      fails == Trailing(history) && (failing <==> Trailing(history) >= threshold)
    }

    /** recordResult. A protocol error is a coherent answer and counts as success. */
    method RecordResult(infra: bool, threshold: nat)
      requires Valid(threshold) && threshold > 0
      modifies this
      ensures Valid(threshold) && history == old(history) + [infra]
    {
      history := history + [infra];
      assert history[..|history| - 1] == old(history);
      if !infra {
        fails, failing := 0, false;
        return;
      }
      fails := fails + 1;
      if fails >= threshold {
        failing := true;
      }
    }
  }

  class Client {
    const nodes: seq<Node>
    const ring: seq<Point>
    const maxHops: nat

    constructor (nodes: seq<Node>, ring: seq<Point>, hops: int)
      ensures this.nodes == nodes && this.ring == ring
      ensures maxHops == if 0 < hops <= |nodes| then hops else |nodes|
    {
      this.nodes, this.ring := nodes, ring;
      maxHops := if hops <= 0 || hops > |nodes| then |nodes| else hops;
    }

    /** The ring is sorted, and its points belong to the nodes, by their place in the list. */
    ghost predicate Valid() {
      Sorted(ring) && maxHops <= |nodes| && forall j :: 0 <= j < |ring| ==> ring[j].id < |nodes|
    }

    /** The node `hop` places after `start`, around the list. */
    function After(start: nat, hop: nat): (i: nat)
      requires start < |nodes| && hop <= |nodes|
      ensures i < |nodes| && (i == start + hop || i == start + hop - |nodes|)
    {
      if start + hop < |nodes| then start + hop else start + hop - |nodes|
    }

    /** n is the first healthy node at or after `start` within maxHops, or `start` itself if
        they all are failing. */
    ghost predicate FailsOver(start: nat, n: nat)
      requires start < |nodes| && maxHops <= |nodes|
      reads nodes
    {
      (exists hop :: 0 <= hop <= maxHops && n == After(start, hop) && !nodes[After(start, hop)].failing
         && forall h :: 0 <= h < hop ==> nodes[After(start, h)].failing)
      || (n == start && forall h :: 0 <= h <= maxHops ==> nodes[After(start, h)].failing)
    }

    /** All keys of a failing node go to the same stand-in. */
    lemma OneStandIn(start: nat, n: nat, m: nat)
      requires start < |nodes| && maxHops <= |nodes| && FailsOver(start, n) && FailsOver(start, m)
      ensures n == m
    {
    }

    /** pickNode: the ring owner of the first word of the key's digest, or its stand-in. */
    method PickNode(words: Digest, key: string) returns (n: Option<nat>)
      requires Valid()
      ensures n.None? <==> ring == []
      ensures n.Some? ==> n.value < |nodes|
      ensures n.Some? ==> exists p :: Owns(ring, words(key).w0, p) && p.id < |nodes| && FailsOver(p.id, n.value)
      ensures n.Some? && maxHops == |nodes| && (exists i :: 0 <= i < |nodes| && !nodes[i].failing)
              ==> !nodes[n.value].failing
    {
      if ring == [] {
        return None;
      }
      var p := Lookup(ring, words(key).w0);
      var i := StandIn(p.id);
      return Some(i);
    }

    /** The owner if it is healthy, or the walk along the nodes after it. */
    method StandIn(start: nat) returns (n: nat)
      requires start < |nodes| && maxHops <= |nodes|
      ensures n < |nodes| && FailsOver(start, n)
      ensures maxHops == |nodes| && (exists i :: 0 <= i < |nodes| && !nodes[i].failing) ==> !nodes[n].failing
    {
      assert After(start, 0) == start;
      if !nodes[start].failing {
        return start;
      }
      var hop := 1;
      while hop <= maxHops
        invariant 1 <= hop <= maxHops + 1
        invariant forall h :: 0 <= h < hop ==> nodes[After(start, h)].failing
      {
        var cand := After(start, hop);
        if !nodes[cand].failing {
          return cand;
        }
        hop := hop + 1;
      }
      if maxHops == |nodes| {
        AllTried(start);
      }
      return start;
    }

    /** As many hops as nodes reach every node. */
    lemma AllTried(start: nat)
      requires start < |nodes| && forall h :: 0 <= h <= |nodes| ==> nodes[After(start, h)].failing
      ensures forall i :: 0 <= i < |nodes| ==> nodes[i].failing
    {
      forall i | 0 <= i < |nodes| ensures nodes[i].failing {
        var h := if i >= start then i - start else i - start + |nodes|;
        assert nodes[After(start, h)].failing;
      }
    }
  }

  // ---------------------------------------------------------------- GetMulti

  datatype Reply = Values(m: map<string, string>) | Failure(err: string)

  /** What GetMulti returns: the values, the error of a ring without nodes, or the error of a
      node. */
  datatype Result = Found(m: map<string, string>) | NoNodes | Failed(err: string)

  type Pick = string -> Option<nat>
  type Serve = (nat, seq<string>) -> Reply

  /** The keys that go to a node, in order. */
  function Share(keys: seq<string>, pick: Pick, n: nat): (ks: seq<string>) {
    if keys == [] then []
    else
      var k := keys[|keys| - 1];
      Share(keys[..|keys| - 1], pick, n) + if pick(k) == Some(n) then [k] else []
  }

  lemma {:induction false} ShareHas(keys: seq<string>, pick: Pick, n: nat, k: string)
    ensures k in Share(keys, pick, n) <==> k in keys && pick(k) == Some(n)
  {
    if keys != [] {
      var before := keys[..|keys| - 1];
      ShareHas(before, pick, n, k);
      assert keys == before + [keys[|keys| - 1]];
    }
  }

  /** The partition of the keys by their nodes. */
  ghost predicate Partitions(keys: seq<string>, pick: Pick, buckets: map<nat, seq<string>>) {
    forall n {:trigger Share(keys, pick, n)} ::
      if n in buckets then buckets[n] == Share(keys, pick, n) && buckets[n] != [] else Share(keys, pick, n) == []
  }

  /** None if some key has no node. */
  method Partition(keys: seq<string>, pick: Pick) returns (buckets: Option<map<nat, seq<string>>>)
    ensures buckets.None? <==> exists k :: k in keys && pick(k).None?
    ensures buckets.Some? ==> Partitions(keys, pick, buckets.value)
  {
    var parts: map<nat, seq<string>> := map[];
    for i := 0 to |keys|
      invariant Partitions(keys[..i], pick, parts)
      invariant forall k :: k in keys[..i] ==> pick(k).Some?
    {
      if pick(keys[i]).None? {
        return None;
      }
      var n := pick(keys[i]).value;
      assert keys[..i + 1][..i] == keys[..i];
      ghost var s := Share(keys[..i], pick, n);
      assert n in parts ==> parts[n] == s;
      parts := parts[n := (if n in parts then parts[n] else []) + [keys[i]]];
      forall m ensures
        if m in parts then parts[m] == Share(keys[..i + 1], pick, m) && parts[m] != []
        else Share(keys[..i + 1], pick, m) == []
      {
        ghost var t := Share(keys[..i], pick, m);
      }
    }
    assert keys[..|keys|] == keys;
    return Some(parts);
  }

  /** The reply of a key's own node to its share of the keys. */
  function Asked(keys: seq<string>, pick: Pick, serve: Serve, k: string): (r: Option<Reply>) {
    if pick(k).None? then None else Some(serve(pick(k).value, Share(keys, pick, pick(k).value)))
  }

  ghost predicate Within(r: Reply, ks: seq<string>) {
    r.Values? ==> forall k :: k in r.m ==> k in ks
  }

  /** What the nodes answer is confined to what they were asked. */
  ghost predicate Confined(keys: seq<string>, pick: Pick, serve: Serve) {
    forall n {:trigger Share(keys, pick, n)} :: Within(serve(n, Share(keys, pick, n)), Share(keys, pick, n))
  }

  function In(m: map<string, string>, k: string): (v: Option<string>) {
    if k in m then Some(m[k]) else None
  }

  /** What a key's own node answers for it. */
  function Answer(keys: seq<string>, pick: Pick, serve: Serve, k: string): (v: Option<string>) {
    var r := Asked(keys, pick, serve, k);
    if k in keys && r.Some? && r.value.Values? then In(r.value.m, k) else None
  }

  /** The merge so far: the answers of the nodes that are done. */
  ghost predicate Merged(keys: seq<string>, pick: Pick, serve: Serve, done: set<nat>, all: map<string, string>) {
    forall k :: In(all, k) ==
      if pick(k).Some? && pick(k).value in done then Answer(keys, pick, serve, k) else None
  }

  lemma MergeOne(keys: seq<string>, pick: Pick, serve: Serve, done: set<nat>, all: map<string, string>, n: nat)
    requires Merged(keys, pick, serve, done, all) && n !in done
    requires serve(n, Share(keys, pick, n)).Values? && Within(serve(n, Share(keys, pick, n)), Share(keys, pick, n))
    ensures Merged(keys, pick, serve, done + {n}, all + serve(n, Share(keys, pick, n)).m)
  {
    var sub := serve(n, Share(keys, pick, n)).m;
    forall k ensures In(all + sub, k) ==
      if pick(k).Some? && pick(k).value in done + {n} then Answer(keys, pick, serve, k) else None
    {
      ShareHas(keys, pick, n, k);
      assert In(all, k) == if pick(k).Some? && pick(k).value in done then Answer(keys, pick, serve, k) else None;
    }
  }

  /** A bucket belongs to some key. */
  lemma KeyOf(keys: seq<string>, pick: Pick, buckets: map<nat, seq<string>>, n: nat) returns (k: string)
    requires Partitions(keys, pick, buckets) && n in buckets
    ensures k in keys && pick(k) == Some(n) && buckets[n] == Share(keys, pick, n)
  {
    assert buckets[n] == Share(keys, pick, n);
    k := buckets[n][0];
    ShareHas(keys, pick, n, k);
  }

  /** GetMulti: every key is asked of its own node; the answer holds what the nodes answered,
      unless one of them failed, whose error it then is. The nodes answer in any order. */
  method GetMulti(keys: seq<string>, pick: Pick, serve: Serve) returns (out: Result)
    ensures out.NoNodes? <==> exists k :: k in keys && pick(k).None?
    ensures !out.NoNodes? ==> (out.Failed? <==> exists k :: k in keys && Refused(keys, pick, serve, k))
    ensures out.Failed? ==> exists k :: k in keys && Asked(keys, pick, serve, k) == Some(Failure(out.err))
    ensures out.Found? && Confined(keys, pick, serve) ==> forall k :: In(out.m, k) == Answer(keys, pick, serve, k)
  {
    var buckets := Partition(keys, pick);
    if buckets.None? {
      return NoNodes;
    }
    out := Merge(keys, pick, serve, buckets.value);
  }

  predicate Refused(keys: seq<string>, pick: Pick, serve: Serve, k: string) {
    Asked(keys, pick, serve, k).Some? && Asked(keys, pick, serve, k).value.Failure?
  }

  /** The fan-out: the first error wins and the others' values are dropped. */
  method Merge(keys: seq<string>, pick: Pick, serve: Serve, parts: map<nat, seq<string>>) returns (out: Result)
    requires Partitions(keys, pick, parts) && forall k :: k in keys ==> pick(k).Some?
    ensures !out.NoNodes? && (out.Failed? <==> exists k :: k in keys && Refused(keys, pick, serve, k))
    ensures out.Failed? ==> exists k :: k in keys && Asked(keys, pick, serve, k) == Some(Failure(out.err))
    ensures out.Found? && Confined(keys, pick, serve) ==> forall k :: In(out.m, k) == Answer(keys, pick, serve, k)
  {
    var left, all: map<string, string> := parts.Keys, map[];
    var first: Option<string> := None;
    while left != {}
      invariant left <= parts.Keys
      invariant first.None? ==> forall n :: n in parts.Keys - left ==> serve(n, parts[n]).Values?
      invariant first.Some? ==> exists k :: k in keys && Asked(keys, pick, serve, k) == Some(Failure(first.value))
      invariant first.None? && Confined(keys, pick, serve) ==> Merged(keys, pick, serve, parts.Keys - left, all)
      decreases |left|
    {
      var n :| n in left;
      ghost var done := parts.Keys - left;
      ghost var k := KeyOf(keys, pick, parts, n);
      left := left - {n};
      assert parts.Keys - left == done + {n};
      var sub := serve(n, parts[n]);
      assert Asked(keys, pick, serve, k) == Some(sub);
      if sub.Failure? {
        first := if first.None? then Some(sub.err) else first;
      } else {
        if first.None? && Confined(keys, pick, serve) {
          MergeOne(keys, pick, serve, done, all, n);
        }
        all := all + sub.m;
      }
    }
    if first.Some? {
      return Failed(first.value);
    }
    AllAnswered(keys, pick, serve, parts, all);
    return Found(all);
  }

  /** With every bucket served, no key was refused, and every key has its answer. */
  lemma AllAnswered(keys: seq<string>, pick: Pick, serve: Serve, parts: map<nat, seq<string>>, all: map<string, string>)
    requires Partitions(keys, pick, parts) && forall n :: n in parts ==> serve(n, parts[n]).Values?
    ensures forall k :: k in keys ==> !Refused(keys, pick, serve, k)
    ensures Merged(keys, pick, serve, parts.Keys, all) ==> forall k :: In(all, k) == Answer(keys, pick, serve, k)
  {
    forall k | k in keys ensures !Refused(keys, pick, serve, k) {
      if pick(k).Some? {
        ShareHas(keys, pick, pick(k).value, k);
      }
    }
    if Merged(keys, pick, serve, parts.Keys, all) {
      forall k ensures In(all, k) == Answer(keys, pick, serve, k) {
        if pick(k).Some? {
          ShareHas(keys, pick, pick(k).value, k);
        }
      }
    }
  }
}
