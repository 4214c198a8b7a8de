/** Matching binary memcached packets to requests (driver/memcached/state.go): a queue in the
    order the requests were sent, and a stream of packets of any kind. */
module BinaryReplies {
  import opened Wrappers
  import opened Replies

  const OK: nat := 0

  function ItemOf(p: Packet): (i: Item) {
    Item(p.key, p.flags, p.cas, p.value)
  }

  function FailureIn(p: Packet): (f: Failure) {
    Failure("", p.code, p.value)
  }

  /** The values in a run of packets, in order. */
  function Hits(ps: seq<Packet>): (s: seq<Item>) {
    if ps == [] then []
    else
      var p := ps[|ps| - 1];
      Hits(ps[..|ps| - 1]) + if p.code == OK && !p.isStat then [ItemOf(p)] else []
  }

  function StatsIn(ps: seq<Packet>): (s: seq<Stat>) {
    if ps == [] then []
    else
      var p := ps[|ps| - 1];
      StatsIn(ps[..|ps| - 1]) + if p.code == OK && p.isStat then [Stat(p.key, p.value)] else []
  }

  /** The first error in a run of packets. */
  function FirstFailure(ps: seq<Packet>): (f: Option<Failure>) {
    if ps == [] then None
    else if ps[0].code != OK then Some(FailureIn(ps[0]))
    else FirstFailure(ps[1..])
  }

  lemma {:induction false} FirstFailureStep(ps: seq<Packet>, p: Packet)
    ensures FirstFailure(ps + [p]) ==
      if FirstFailure(ps).Some? then FirstFailure(ps) else if p.code != OK then Some(FailureIn(p)) else None
  {
    if ps == [] {
      assert ps + [p] == [p] && [p][1..] == [];
    } else {
      assert (ps + [p])[1..] == ps[1..] + [p];
      FirstFailureStep(ps[1..], p);
    }
  }

  /** The packets in which a server sends items, and statistics. */
  function ItemPackets(id: nat, items: seq<Item>): (ps: seq<Packet>)
    ensures |ps| == |items|
  {
    if items == [] then []
    else
      var i := items[|items| - 1];
      ItemPackets(id, items[..|items| - 1]) + [Packet(id, OK, false, i.key, i.flags, i.data, i.cas)]
  }

  function StatPackets(id: nat, stats: seq<Stat>): (ps: seq<Packet>)
    ensures |ps| == |stats|
  {
    if stats == [] then []
    else
      var s := stats[|stats| - 1];
      StatPackets(id, stats[..|stats| - 1]) + [Packet(id, OK, true, s.name, 0, s.value, 0)]
  }

  /** A request holds exactly the items that a server sent to it, in order. */
  lemma {:induction false} ItemsBack(id: nat, items: seq<Item>)
    ensures var ps := ItemPackets(id, items); Hits(ps) == items && StatsIn(ps) == [] && FirstFailure(ps) == None
  {
    if items != [] {
      var before, ps := items[..|items| - 1], ItemPackets(id, items);
      ItemsBack(id, before);
      assert ps[..|ps| - 1] == ItemPackets(id, before);
      FirstFailureStep(ItemPackets(id, before), ps[|ps| - 1]);
      assert items == before + [items[|items| - 1]];
    }
  }

  lemma {:induction false} StatsBack(id: nat, stats: seq<Stat>)
    ensures var ps := StatPackets(id, stats); StatsIn(ps) == stats && Hits(ps) == [] && FirstFailure(ps) == None
  {
    if stats != [] {
      var before, ps := stats[..|stats| - 1], StatPackets(id, stats);
      StatsBack(id, before);
      assert ps[..|ps| - 1] == StatPackets(id, before);
      FirstFailureStep(StatPackets(id, before), ps[|ps| - 1]);
      assert stats == before + [stats[|stats| - 1]];
    }
  }

  /** A queued request of the binary protocol: a single-reply one has nothing yet, a
      multi-packet one has what its packets so far brought, none of them a terminator. */
  ghost predicate Ready(r: Request)
    reads r
  {
    if !r.multi then r.Unanswered()
    else
      && r.Waiting() && r.values == Hits(r.got) && r.stats == StatsIn(r.got)
      && r.failure == FirstFailure(r.got)
      && forall i :: 0 <= i < |r.got| ==> !r.terminator(r.got[i])
  }

  /** A request completed once: by one packet with its own id, or by a terminator after
      packets whose contents it holds, the first error among all of them included. */
  ghost predicate Complete(r: Request)
    reads r
  {
    && r.finished && r.signals == 1 && r.got != []
    && var n := |r.got| - 1;
       var last := r.got[n];
       && r.binStatus == last.code
       && if r.multi then
            && r.terminator(last) && (forall i :: 0 <= i < n ==> !r.terminator(r.got[i]))
            && r.values == Hits(r.got[..n]) && r.stats == StatsIn(r.got[..n])
            && r.failure == FirstFailure(r.got)
          else
            && n == 0 && last.id == r.id && r.stats == []
            && r.values == (if last.code == OK && last.value != "" then [ItemOf(last)] else [])
            && r.number == (if last.code == OK && last.value == "" then last.cas else 0)
            && r.failure == FirstFailure(r.got)
  }

  lemma CollectedStep(ps: seq<Packet>, p: Packet)
    ensures Hits(ps + [p]) == Hits(ps) + if p.code == OK && !p.isStat then [ItemOf(p)] else []
    ensures StatsIn(ps + [p]) == StatsIn(ps) + if p.code == OK && p.isStat then [Stat(p.key, p.value)] else []
    ensures FirstFailure(ps + [p]) ==
      if FirstFailure(ps).Some? then FirstFailure(ps) else if p.code != OK then Some(FailureIn(p)) else None
  {
    FirstFailureStep(ps, p);
    assert (ps + [p])[..|ps|] == ps;
  }

  /** The packet completes the request it is handed to. */
  predicate Ends(r: Request, p: Packet) {
    r.multi ==> r.terminator(p)
  }

  /** Who got which packets: the shares of the requests that are done, in the order they were
      sent, and what the head has so far. */
  datatype Ledger = Ledger(shares: seq<seq<Packet>>, head: seq<Packet>)

  function Flat(shares: seq<seq<Packet>>): (ps: seq<Packet>) {
    if shares == [] then [] else Flat(shares[..|shares| - 1]) + shares[|shares| - 1]
  }

  /** All packets handed out, in order. */
  function Handed(l: Ledger): (ps: seq<Packet>) {
    Flat(l.shares) + l.head
  }

  /** One more packet for the head, which ends its share or not. */
  function Given(l: Ledger, p: Packet, ends: bool): (m: Ledger) {
    if ends then Ledger(l.shares + [l.head + [p]], []) else Ledger(l.shares, l.head + [p])
  }

  lemma GivenInOrder(l: Ledger, p: Packet, ends: bool)
    ensures Handed(Given(l, p, ends)) == Handed(l) + [p]
  {
    var shares := l.shares + [l.head + [p]];
    assert shares[..|shares| - 1] == l.shares;
  }

  /** What request number i has when n are done: its share, if it is done; its packets so far,
      if it is the head; nothing, if it comes later. */
  ghost predicate Holds(r: Request, i: nat, n: nat, l: Ledger)
    requires |l.shares| == n
    reads r
  {
    if i < n then Complete(r) && r.got == l.shares[i]
    else Ready(r) && r.got == if i == n then l.head else []
  }

  class Queue {
    var queue: seq<Request>
    // history: all requests sent, how many are done, and who got which packets
    ghost var sent: seq<Request>
    ghost var count: nat
    ghost var ledger: Ledger

    constructor ()
      ensures InStep() && sent == [] && Handed(ledger) == []
    {
      queue, sent, count, ledger := [], [], 0, Ledger([], []);
    }

    ghost predicate Placed()
      reads this
    {
      && count <= |sent| && queue == sent[count..] && |ledger.shares| == count
      && (forall i, j :: 0 <= i < j < |sent| ==> sent[i] != sent[j])
      && (count == |sent| ==> ledger.head == [])
    }

    ghost predicate InStep()
      reads this, sent
    {
      Placed() && forall i :: 0 <= i < |sent| ==> Holds(sent[i], i, count, ledger)
    }

    method Enqueue(r: Request)
      requires InStep() && Ready(r) && r.got == [] && r !in sent
      modifies this`queue, this`sent
      ensures InStep() && sent == old(sent) + [r]
    {
      queue := queue + [r];
      sent := sent + [r];
    }

    /** The packet fits nobody: none is waiting, or the head waits for another one. */
    predicate Misfit(p: Packet)
      reads this
    {
      queue == [] || (!queue[0].multi && p.id != queue[0].id)
    }

    /** dispatchBinary: on any packet whatever, a single-reply request is completed only by one
        that echoes its id, a multi-packet request by its terminator. */
    method Dispatch(p: Packet) returns (ok: bool)
      requires InStep()
      modifies this, queue[..if queue == [] then 0 else 1]
      ensures InStep() && sent == old(sent) && ok == !old(Misfit(p))
      ensures Handed(ledger) == Handed(old(ledger)) + (if ok then [p] else [])
      ensures count == old(count) + (if ok && Ends(old(queue)[0], p) then 1 else 0)
    {
      if queue == [] {
        return false;
      }
      if !queue[0].multi && p.id != queue[0].id {
        return false;
      }
      HandOver(p);
      return true;
    }

    method HandOver(p: Packet)
      requires InStep() && !Misfit(p)
      modifies this, queue[0]
      ensures InStep() && sent == old(sent) && Handed(ledger) == Handed(old(ledger)) + [p]
      ensures count == old(count) + (if Ends(old(queue)[0], p) then 1 else 0)
    {
      var r := queue[0];
      assert r == sent[count] && Holds(r, count, count, ledger);
      assert forall i :: 0 <= i < |sent| && i != count ==> sent[i] != r;
      assert sent[count..][1..] == sent[count + 1..];
      var over := Give(r, p);
      if over {
        queue := queue[1..];
      }
      Record(p, over);
    }

    /** Hands the packet to a request that waits for it; says whether it is done. */
    method Give(r: Request, p: Packet) returns (over: bool)
      requires Ready(r) && (!r.multi ==> p.id == r.id)
      modifies r
      ensures over == Ends(r, p) && r.got == old(r.got) + [p]
      ensures if over then Complete(r) else Ready(r)
    {
      if r.multi {
        over := Collect(r, p);
      } else {
        Take(r, p);
        over := true;
      }
    }

    ghost method Record(p: Packet, over: bool)
      requires count < |sent| && |ledger.shares| == count
      requires queue == sent[if over then count + 1 else count..]
      requires forall i, j :: 0 <= i < j < |sent| ==> sent[i] != sent[j]
      requires sent[count].got == ledger.head + [p] && if over then Complete(sent[count]) else Ready(sent[count])
      requires forall i :: 0 <= i < |sent| && i != count ==> Holds(sent[i], i, count, ledger)
      modifies this`ledger, this`count
      ensures InStep() && Handed(ledger) == Handed(old(ledger)) + [p]
      ensures count == old(count) + (if over then 1 else 0)
    {
      GivenInOrder(ledger, p, over);
      ledger := Given(ledger, p, over);
      count := if over then count + 1 else count;
    }

    /** processBinary: whatever the packets are, they are handed out in order, each to the
        request that waits for it, up to the first one that fits nobody; requests are
        completed in order, each once and by its own packets. */
    method Process(ps: seq<Packet>) returns (ok: bool, ghost n: nat)
      requires InStep()
      modifies this, queue
      ensures InStep() && sent == old(sent) && count >= old(count)
      ensures n <= |ps| && Handed(ledger) == Handed(old(ledger)) + ps[..n]
      ensures ok <==> n == |ps|
      ensures !ok ==> Misfit(ps[n])
    {
      ok, n := true, 0;
      for m := 0 to |ps|
        invariant ok && n == m && InStep() && sent == old(sent) && count >= old(count)
        invariant Handed(ledger) == Handed(old(ledger)) + ps[..n]
      {
        assert queue != [] ==> queue[0] == sent[old(count)..][count - old(count)];
        ok := Dispatch(ps[m]);
        if !ok {
          return;
        }
        n := m + 1;
        assert ps[..n] == ps[..m] + [ps[m]];
      }
    }

    /** A single reply. */
    method Take(r: Request, p: Packet)
      requires Ready(r) && !r.multi && p.id == r.id
      modifies r
      ensures Complete(r) && r.got == old(r.got) + [p]
    {
      r.binStatus := p.code;
      if p.code == OK {
        if p.value != "" {
          r.values := r.values + [ItemOf(p)];
        } else if p.cas != 0 {
          r.number := p.cas;
        }
      } else {
        r.failure := Some(FailureIn(p));
      }
      r.Finish();
      FirstFailureStep(r.got, p);
      r.got := r.got + [p];
    }

    /** dispatchBinaryMulti: says whether p ended the reply. */
    method Collect(r: Request, p: Packet) returns (over: bool)
      requires Ready(r) && r.multi
      modifies r
      ensures over == r.terminator(p) && r.got == old(r.got) + [p]
      ensures if over then Complete(r) else Ready(r)
    {
      over := r.terminator(p);
      if over {
        Terminate(r, p);
      } else {
        Accumulate(r, p);
      }
    }

    method Accumulate(r: Request, p: Packet)
      requires Ready(r) && r.multi && !r.terminator(p)
      modifies r`stats, r`values, r`failure, r`got
      ensures Ready(r) && r.got == old(r.got) + [p]
    {
      CollectedStep(r.got, p);
      if p.code == OK {
        if p.isStat {
          r.stats := r.stats + [Stat(p.key, p.value)];
        } else {
          r.values := r.values + [ItemOf(p)];
        }
      } else if r.failure.None? {
        r.failure := Some(FailureIn(p));
      }
      r.got := r.got + [p];
    }

    method Terminate(r: Request, p: Packet)
      requires Ready(r) && r.multi && r.terminator(p)
      modifies r`binStatus, r`failure, r`finished, r`signals, r`got
      ensures Complete(r) && r.got == old(r.got) + [p]
    {
      FirstFailureStep(r.got, p);
      assert (r.got + [p])[..|r.got|] == r.got;
      r.binStatus := p.code;
      if p.code != OK && r.failure.None? {
        r.failure := Some(FailureIn(p));
      }
      r.Finish();
      r.got := r.got + [p];
    }
  }
}
