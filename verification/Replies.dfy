/** Matching memcached replies to requests (driver/memcached/state.go). Requests wait in a
    queue in the order they were sent; the connection's worker feeds it parsed replies. */
module Replies {
  import opened Wrappers

  datatype Item = Item(key: string, flags: nat, cas: nat, data: string)
  datatype Stat = Stat(name: string, value: string)
  datatype Failure = Failure(kind: string, code: nat, msg: string)

  /** A parsed text reply: one VALUE block or one line. */
  datatype Reply =
    | ValueReply(item: Item)
    | StatReply(stat: Stat)
    | EndReply
    | NumberReply(n: nat)
    | VersionReply(v: string)
    | ErrorReply(kind: string, msg: string)
    | StatusReply(tag: string)

  /** What finish records of the reply that completed a text request. */
  datatype Status = NotYet | AtEnd | AtLine(reply: Reply)

  /** A binary packet: opaque, status code, whether its opcode is STAT, and its body. The
      flags are those of the extras, 0 when there are fewer than four bytes of them. */
  datatype Packet = Packet(id: nat, code: nat, isStat: bool, key: string, flags: nat, value: string, cas: nat)

  class Request {
    const id: nat                    // the binary protocol's opaque
    const multi: bool
    const terminator: Packet -> bool // ends a multi-packet reply
    var values: seq<Item>
    var stats: seq<Stat>
    var status: Status
    var binStatus: nat
    var number: nat
    var failure: Option<Failure>
    var finished: bool
    var signals: nat                 // sends to doneCh
    ghost var got: seq<Packet>       // the binary packets it was given

    constructor (id: nat, multi: bool, terminator: Packet -> bool)
      ensures this.id == id && this.multi == multi && this.terminator == terminator
      ensures Unanswered()
    {
      this.id, this.multi, this.terminator := id, multi, terminator;
      values, stats, status, binStatus, number := [], [], NotYet, 0, 0;
      failure, finished, signals, got := None, false, 0, [];
    }

    ghost predicate Unanswered()
      reads this
    {
      values == [] && stats == [] && status == NotYet && number == 0 && failure == None && got == [] && Waiting()
    }

    ghost predicate Waiting()
      reads this
    {
      !finished && signals == 0
    }

    /** finish: the waiter is woken exactly once. */
    method Finish()
      modifies this`finished, this`signals
      ensures finished && signals == old(signals) + (if old(finished) then 0 else 1)
    {
      if !finished {
        finished := true;
        signals := signals + 1;
      }
    }
  }

  // ---------------------------------------------------------------- what a server sends

  /** The server's answer to one text request: the items or statistics before an END, or
      one line, which may be an error. */
  datatype Answer = Items(items: seq<Item>) | Stats(stats: seq<Stat>) | Line(reply: Reply)

  predicate OneLine(r: Reply) {
    !r.ValueReply? && !r.StatReply? && !r.EndReply?
  }

  predicate WellFormed(a: Answer) {
    a.Line? ==> OneLine(a.reply)
  }

  /** How many replies an answer takes. */
  function Length(a: Answer): (n: nat)
    ensures n > 0
  {
    match a
    case Items(items) => |items| + 1
    case Stats(stats) => |stats| + 1
    case Line(_) => 1
  }

  /** The reply number i of an answer. */
  function Nth(a: Answer, i: nat): (r: Reply)
    requires i < Length(a)
  {
    match a
    case Items(items) => if i < |items| then ValueReply(items[i]) else EndReply
    case Stats(stats) => if i < |stats| then StatReply(stats[i]) else EndReply
    case Line(r) => r
  }

  /** The error a reply stands for. */
  function FailureOf(r: Reply): (f: Option<Failure>) {
    if r.ErrorReply? then Some(Failure(r.kind, 0, r.msg)) else None
  }

  /** What a request holds after i replies of its answer, while it waits. */
  ghost predicate Partly(r: Request, a: Answer, i: nat)
    requires i < Length(a)
    reads r
  {
    && r.Waiting() && r.status == NotYet && r.number == 0 && r.failure == None
    && r.values == (if a.Items? then a.items[..i] else [])
    && r.stats == (if a.Stats? then a.stats[..i] else [])
  }

  /** A request that was completed once, with exactly the contents of its answer. */
  ghost predicate Answered(r: Request, a: Answer)
    reads r
  {
    && r.finished && r.signals == 1
    && r.values == (if a.Items? then a.items else [])
    && r.stats == (if a.Stats? then a.stats else [])
    && r.status == (if a.Line? then AtLine(a.reply) else AtEnd)
    && r.failure == (if a.Line? && a.reply.ErrorReply? then Some(Failure(a.reply.kind, 0, a.reply.msg)) else None)
    && r.number == (if a.Line? && a.reply.NumberReply? then a.reply.n else 0)
  }

  class Connection {
    var queue: seq<Request>
    var pendingGet: Request?
    var pendingStats: Request?
    // the answers owed to the queue, and how many replies of the first have come
    ghost var owed: seq<Answer>
    ghost var seen: nat

    constructor ()
      ensures InStep() && queue == [] && pendingGet == null && pendingStats == null
    {
      queue, pendingGet, pendingStats := [], null, null;
      owed, seen := [], 0;
    }

    ghost predicate OneEach()
      reads this
    {
      forall i, j :: 0 <= i < j < |queue| ==> queue[i] != queue[j]
    }

    /** The requests a reply can touch. */
    ghost function Front(): (s: set<Request>)
      reads this
    {
      (if queue == [] then {} else {queue[0]}) +
      (if pendingGet == null then {} else {pendingGet}) +
      (if pendingStats == null then {} else {pendingStats})
    }

    /** The connection is in step with a server that answers in order: pendingGet and
        pendingStats are nil or the head, and only the head has received anything. */
    ghost predicate InStep()
      reads this, queue
    {
      && OneEach() && |owed| == |queue|
      && (forall i :: 0 <= i < |owed| ==> WellFormed(owed[i]))
      && (queue == [] ==> seen == 0 && pendingGet == null && pendingStats == null)
      && (queue != [] ==>
            && seen < Length(owed[0]) && Partly(queue[0], owed[0], seen)
            && pendingGet == (if owed[0].Items? && seen > 0 then queue[0] else null)
            && pendingStats == (if owed[0].Stats? && seen > 0 then queue[0] else null))
      && (forall i :: 1 <= i < |queue| ==> queue[i].Unanswered())
    }

    /** The reply an in-order server sends next. */
    ghost predicate Next(v: Reply)
      reads this, queue
    {
      InStep() && queue != [] && v == Nth(owed[0], seen)
    }

    method Enqueue(r: Request, ghost a: Answer)
      requires InStep() && r.Unanswered() && r !in queue && WellFormed(a)
      modifies this`queue, this`owed
      ensures InStep() && queue == old(queue) + [r] && owed == old(owed) + [a]
    {
      queue := queue + [r];
      owed := owed + [a];
    }

    /** The request a VALUE or STAT line goes to: the pending one, or else the head. */
    function Target(pending: Request?): (r: Request?)
      reads this
    {
      if pending != null then pending else if queue != [] then queue[0] else null
    }

    /** The answer owed to the head is over. */
    ghost method Advance(over: bool)
      requires over ==> owed != []
      modifies this`owed, this`seen
      ensures over ==> owed == old(owed)[1..] && seen == 0
      ensures !over ==> owed == old(owed) && seen == old(seen)
    {
      if over {
        owed, seen := owed[1..], 0;
      }
    }

    method OnValue(item: Item) returns (ok: bool)
      modifies this`pendingGet, this`seen, Front()`values
      ensures old(Next(ValueReply(item))) ==> ok && InStep() && Stepped(old(queue), old(owed), old(seen))
      ensures pendingGet == old(Target(pendingGet)) && ok == (pendingGet != null)
      ensures forall r :: r in Front() ==> r.values == old(r.values) + (if r == pendingGet then [item] else [])
    {
      seen := if Next(ValueReply(item)) then seen + 1 else seen;
      pendingGet := Target(pendingGet);
      if pendingGet == null {
        return false;
      }
      pendingGet.values := pendingGet.values + [item];
      return true;
    }

    method OnStat(stat: Stat) returns (ok: bool)
      modifies this`pendingStats, this`seen, Front()`stats
      ensures old(Next(StatReply(stat))) ==> ok && InStep() && Stepped(old(queue), old(owed), old(seen))
      ensures pendingStats == old(Target(pendingStats)) && ok == (pendingStats != null)
      ensures forall r :: r in Front() ==> r.stats == old(r.stats) + (if r == pendingStats then [stat] else [])
    {
      seen := if Next(StatReply(stat)) then seen + 1 else seen;
      pendingStats := Target(pendingStats);
      if pendingStats == null {
        return false;
      }
      pendingStats.stats := pendingStats.stats + [stat];
      return true;
    }

    /** END: completes the pending request, which must be the head, or else the head. */
    method OnEnd() returns (ok: bool)
      modifies this, Front()`status, Front()`finished, Front()`signals
      ensures old(Next(EndReply)) ==> ok && InStep() && Stepped(old(queue), old(owed), old(seen))
      ensures ok == (old(queue) != [] && (old(pendingGet) != null ==> old(pendingGet) == old(queue)[0])
                     && (old(pendingGet) == null && old(pendingStats) != null ==> old(pendingStats) == old(queue)[0]))
      ensures old(queue) != [] ==> queue == old(queue)[1..]
      ensures pendingGet == null
      ensures pendingStats == if old(pendingGet) == null then null else old(pendingStats)
      ensures ok ==> Completed(old(queue)[0], AtEnd)
      ensures !ok ==> forall r :: r in old(Front()) ==> r.status == old(r.status) && r.finished == old(r.finished)
                                                        && r.signals == old(r.signals)
    {
      Advance(Next(EndReply));
      var want := if pendingGet != null then pendingGet else pendingStats;
      if pendingGet != null {
        pendingGet := null;
      } else {
        pendingStats := null;
      }
      if queue == [] {
        return false;
      }
      var head := queue[0];
      queue := queue[1..];
      if want != null && want != head {
        return false;
      }
      head.status := AtEnd;
      head.Finish();
      return true;
    }

    /** r was completed with this status, and woken unless it had been before. */
    twostate predicate Completed(r: Request, status: Status)
      reads r
    {
      r.status == status && r.finished && r.signals == old(r.signals) + (if old(r.finished) then 0 else 1)
    }

    /** Any other line completes the head. */
    method OnLine(v: Reply) returns (ok: bool)
      requires OneLine(v)
      modifies this`queue, this`owed, this`seen, queue[..if queue == [] then 0 else 1]
      ensures old(Next(v)) ==> ok && InStep() && Stepped(old(queue), old(owed), old(seen))
      ensures ok == (old(queue) != [])
      ensures ok ==> queue == old(queue)[1..] && Completed(old(queue)[0], AtLine(v))
      ensures ok ==> var head := old(queue)[0];
        && head.values == old(head.values) && head.stats == old(head.stats) && head.binStatus == old(head.binStatus)
        && head.number == (if v.NumberReply? then v.n else old(head.number))
        && head.failure == (if v.ErrorReply? then FailureOf(v) else old(head.failure))
      ensures !ok ==> queue == []
    {
      Advance(Next(v));
      if queue == [] {
        return false;
      }
      var head := queue[0];
      queue := queue[1..];
      head.status := AtLine(v);
      if v.NumberReply? {
        head.number := v.n;
      } else if v.ErrorReply? {
        head.failure := FailureOf(v);
      }
      head.Finish();
      return true;
    }

    /** dispatchText. In step with the server, a reply either goes into the head or
        completes it with exactly its own answer; nobody else is touched. */
    method Dispatch(v: Reply) returns (ok: bool)
      modifies this, Front()
      ensures old(Next(v)) ==> ok && InStep() && Stepped(old(queue), old(owed), old(seen))
    {
      match v {
        case ValueReply(item) => ok := OnValue(item);
        case StatReply(stat) => ok := OnStat(stat);
        case EndReply => ok := OnEnd();
        case _ => ok := OnLine(v);
      }
    }

    /** One reply later than the queue q, owed o with n replies of the first. */
    ghost predicate Stepped(q: seq<Request>, o: seq<Answer>, n: nat)
      requires q != [] && |o| == |q|
      reads this, q
    {
      if n + 1 < Length(o[0]) then queue == q && owed == o && seen == n + 1
      else queue == q[1..] && owed == o[1..] && seen == 0 && Answered(q[0], o[0])
    }

    /** Since the queue was q, owed o, its first k requests were answered, each with exactly
        its own answer, and the others wait. */
    ghost predicate Served(q: seq<Request>, o: seq<Answer>, k: nat)
      requires k <= |q| == |o|
      reads this, q
    {
      queue == q[k..] && owed == o[k..] && forall i :: 0 <= i < k ==> Answered(q[i], o[i])
    }

    ghost predicate Apart(q: seq<Request>) {
      forall i, j :: 0 <= i < j < |q| ==> q[i] != q[j]
    }

    method DispatchNext(v: Reply, ghost q: seq<Request>, ghost o: seq<Answer>, ghost k: nat)
      returns (ok: bool, ghost n: nat)
      requires Next(v) && Apart(q) && k < |q| == |o| && Served(q, o, k)
      modifies this, queue[0]
      ensures ok && InStep() && n <= |q| && Served(q, o, n)
      ensures Stream(owed, seen) == old(Stream(owed, seen))[1..]
    {
      ghost var head := queue[0];
      assert head == q[k] && owed[0] == o[k];
      StreamStep(owed, seen);
      n := if seen + 1 < Length(owed[0]) then k else k + 1;
      assert forall i :: 0 <= i < k ==> q[i] != head;
      ok := Dispatch(v);
    }

    /** processText: any part of what an in-order server sends completes the first requests
        of the queue, each once and with exactly its own answer, and leaves the others
        waiting. */
    method Process(lines: seq<Reply>) returns (ok: bool, ghost k: nat)
      requires InStep() && lines <= Stream(owed, seen)
      modifies this, queue
      ensures ok && InStep() && k <= |old(queue)| == |old(owed)| && Served(old(queue), old(owed), k)
      ensures Stream(owed, seen) == old(Stream(owed, seen))[|lines|..]
    {
      ghost var q, o, all := queue, owed, Stream(owed, seen);
      k := 0;
      for n := 0 to |lines|
        invariant InStep() && k <= |q| && Served(q, o, k) && Stream(owed, seen) == all[n..]
      {
        assert all[n..][0] == lines[n] && all[n..][1..] == all[n + 1..];
        ok, k := DispatchNext(lines[n], q, o, k);
      }
      ok := true;
    }

    twostate predicate Drained(r: Request, err: Failure)
      reads r
    {
      && r.failure == Some(err) && r.finished
      && r.signals == old(r.signals) + (if old(r.finished) then 0 else 1)
    }

    /** drainWithError: every queued request fails with err, and is woken once. */
    method DrainWithError(err: Failure)
      requires OneEach()
      modifies this`queue, queue
      ensures queue == []
      ensures forall r :: r in old(queue) ==> Drained(r, err)
    {
      ghost var q := queue;
      while queue != []
        invariant |queue| <= |q| && queue == q[|q| - |queue|..]
        invariant forall i :: 0 <= i < |q| - |queue| ==> Drained(q[i], err)
        invariant forall i :: |q| - |queue| <= i < |q| ==> unchanged(q[i])
        decreases |queue|
      {
        var r := queue[0];
        assert r == q[|q| - |queue|];
        queue := queue[1..];
        r.failure := Some(err);
        r.Finish();
      }
    }
  }

  /** The replies an in-order server still sends: n of the first answer have come. */
  function Stream(owed: seq<Answer>, n: nat): (s: seq<Reply>)
    requires owed != [] ==> n < Length(owed[0])
    decreases |owed|, if owed == [] then 0 else Length(owed[0]) - n
  {
    if owed == [] then []
    else [Nth(owed[0], n)] +
         if n + 1 < Length(owed[0]) then Stream(owed, n + 1) else Stream(owed[1..], 0)
  }

  lemma StreamStep(owed: seq<Answer>, n: nat)
    requires owed != [] && n < Length(owed[0])
    ensures Stream(owed, n)[1..] ==
      if n + 1 < Length(owed[0]) then Stream(owed, n + 1) else Stream(owed[1..], 0)
  {
  }

  /** In step holds only for servers that send an error line before any VALUE. Whatever line
      follows some items of the head's answer, it completes the head, which stays the pending
      get: it takes all items that come for the request behind it, although it is no longer
      waiting, and the END that follows drops that request unanswered with an error. */
  method LineAfterItems(c: Connection, v: Reply, xs: seq<Item>) returns (ok: bool)
    requires c.InStep() && |c.queue| >= 2 && c.owed[0].Items? && c.seen > 0 && OneLine(v)
    modifies c, c.queue
    ensures !ok && c.queue == old(c.queue)[2..]
    ensures var first := old(c.queue)[0]; first.finished && first.values == old(first.values) + xs
    ensures old(c.queue)[1].Waiting() && old(c.queue)[1].values == []
  {
    var first, second := c.queue[0], c.queue[1];
    assert second.Unanswered() && c.pendingGet == first && c.pendingStats == null;
    ok := c.OnLine(v);
    for i := 0 to |xs|
      invariant c.queue == old(c.queue)[1..] && c.pendingGet == first && c.pendingStats == null
      invariant first.finished && first.values == old(first.values) + xs[..i]
      invariant second.Unanswered()
    {
      ok := Misdeliver(c, first, second, xs[i]);
      assert xs[..i + 1] == xs[..i] + [xs[i]];
    }
    assert xs[..|xs|] == xs;
    ok := c.OnEnd();
  }

  /** A VALUE goes to the pending get, not to the head. */
  method Misdeliver(c: Connection, first: Request, second: Request, x: Item) returns (ok: bool)
    requires c.queue != [] && c.queue[0] == second && c.pendingGet == first && c.pendingStats == null
    requires first != second && second.Unanswered()
    modifies c, first, second
    ensures ok && c.queue == old(c.queue) && c.pendingGet == first && c.pendingStats == null
    ensures first.values == old(first.values) + [x] && first.finished == old(first.finished)
    ensures second.Unanswered()
  {
    ok := c.OnValue(x);
  }
}
