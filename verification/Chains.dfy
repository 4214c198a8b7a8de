/** The handler chain of one request, as a value (context.go). Handlers are arbitrary scripts
    of Context operations; a log keeps what happened to the chain. */
module Chains {
  import opened Responses

  /** What a handler may do with its Context. Respond stands for every full response (Blob,
      NoContent and all that end in them). */
  datatype Op =
    | Respond
    | Buffer
    | Flush
    | Discard
    | TakeStream
    | UseStream
    | Hijack(engineAgrees: bool)
    | Detach
    | Abort
    | Next(recovers: bool)

  datatype Outcome = Nil | Failed | Panicked

  /** One execution of a handler: what it does, in order, and how it ends. Errors of its
      calls of Next are its own affair; a panic goes through it unless it recovers. */
  datatype Handler = Handler(ops: seq<Op>, end: Outcome)

  const ABORT_INDEX: int := 16383

  /** A chain that the abort index lies beyond. */
  type Chain = hs: seq<Handler> | |hs| <= ABORT_INDEX

  /** How far the answer is when a handler returns: none, captured by a buffering
      middleware, or out of its hands (written or detached). */
  datatype Answer = NoAnswer | Held | Given

  function AnswerOf(r: Response): (a: Answer) {
    if r.written || r.detached then Given else if r.buffered then Held else NoAnswer
  }

  datatype Event =
    | Called
    | Started(i: int)
    | Returned(i: int, outcome: Outcome, answer: Answer)
    | Aborted

  datatype State = State(chain: Chain, index: int, aborted: bool, log: seq<Event>, resp: Response)

  datatype Ran = Ran(s: State, outcome: Outcome)

  function Noted(s: State, v: Event): (t: State) {
    s.(log := s.log + [v])
  }

  /** Handlers the chain can still start. */
  function Left(s: State): (n: nat) {
    if s.index < |s.chain| then (if s.index < 0 then |s.chain| + 1 else |s.chain| - s.index) else 0
  }

  /** One operation other than Next. */
  function Performed(e: Engine, op: Op, s: State): (t: State)
    requires !op.Next?
    ensures t.chain == s.chain && Left(t) <= Left(s)
  {
    match op
    case Respond => s.(resp := Responded(e, s.resp))
    case Buffer => s.(resp := s.resp.(depth := s.resp.depth + 1))
    case Flush => s.(resp := Flushed(e, s.resp))
    case Discard => s.(resp := Discarded(s.resp))
    case TakeStream => s.(resp := StreamTaken(e, s.resp))
    case UseStream => s.(resp := StreamUsed(s.resp))
    case Hijack(agrees) => s.(resp := Hijacked(e, s.resp, agrees))
    case Detach => s.(resp := Detached(s.resp))
    case Abort => Noted(s, Aborted).(index := ABORT_INDEX, aborted := true)
  }

  /** Context.Next. */
  function NextOf(e: Engine, s: State): (n: Ran)
    requires s.index >= -1
    ensures n.s.chain == s.chain && n.s.index >= -1 && Left(n.s) <= Left(s)
    decreases Left(s), 1
  {
    var t := Noted(s, Called).(index := s.index + 1);
    if t.index < |t.chain| then Loop(e, t) else Ran(t, Nil)
  }

  /** The handler at the index, from its start to its return. */
  function Back(e: Engine, s: State): (n: Ran)
    requires 0 <= s.index < |s.chain|
    ensures n.s.chain == s.chain && n.s.index >= -1 && Left(n.s) <= Left(s)
    decreases Left(s), 3
  {
    var h := s.chain[s.index];
    var ran := Run(e, Noted(s, Started(s.index)), h.ops, h.end);
    Ran(Noted(ran.s, Returned(s.index, ran.outcome, AnswerOf(ran.s.resp))), ran.outcome)
  }

  /** The loop of Next, from a handler that is there to start. */
  function Loop(e: Engine, s: State): (n: Ran)
    requires 0 <= s.index < |s.chain|
    ensures n.s.chain == s.chain && n.s.index >= -1 && Left(n.s) <= Left(s)
    decreases Left(s), 4
  {
    Onward(e, Back(e, s))
  }

  /** What the loop does once a handler is back. */
  function Onward(e: Engine, b: Ran): (n: Ran)
    requires b.s.index >= -1
    ensures n.s.chain == b.s.chain && n.s.index >= -1 && Left(n.s) <= Left(b.s)
    decreases Left(b.s), 0
  {
    if b.outcome != Nil then b
    else if Answered(b.s.resp) then Ran(b.s.(index := ABORT_INDEX), Nil)
    else
      var u := b.s.(index := b.s.index + 1);
      if u.index < |u.chain| then Loop(e, u) else Ran(u, Nil)
  }

  /** A handler's script. */
  function Run(e: Engine, s: State, ops: seq<Op>, end: Outcome): (n: Ran)
    requires s.index >= -1
    ensures n.s.chain == s.chain && n.s.index >= -1 && Left(n.s) <= Left(s)
    decreases Left(s), 2, |ops|
  {
    if ops == [] then Ran(s, end)
    else if ops[0].Next? then
      var n := NextOf(e, s);
      if n.outcome == Panicked && !ops[0].recovers then n else Run(e, n.s, ops[1..], end)
    else Run(e, Performed(e, ops[0], s), ops[1..], end)
  }

  // ---------------------------------------------------------------- the discipline of a log

  /** An event after which no handler may start: an Abort, or the return without error of a
      handler when the request is answered. */
  predicate Stops(v: Event) {
    v.Aborted? || (v.Returned? && v.outcome == Nil && v.answer != NoAnswer)
  }

  /** An event after which the next handler starts, if there is one and nothing stopped the
      chain: a call of Next, or the return without error and without an answer. */
  predicate Goes(v: Event) {
    v.Called? || (v.Returned? && v.outcome == Nil && v.answer == NoAnswer)
  }

  predicate Stopped(log: seq<Event>) {
    log != [] && (Stops(log[|log| - 1]) || Stopped(log[..|log| - 1]))
  }

  /** Handlers started. */
  function Begun(log: seq<Event>): (n: nat) {
    if log == [] then 0 else Begun(log[..|log| - 1]) + if log[|log| - 1].Started? then 1 else 0
  }

  /** A handler of a chain of n is left to start, and may. */
  predicate Open(log: seq<Event>, n: nat) {
    !Stopped(log) && Begun(log) < n
  }

  predicate Due(log: seq<Event>, n: nat) {
    log != [] && Open(log, n) && Goes(log[|log| - 1])
  }

  /** Handlers start in the order of the chain, one after the other, and exactly when due. */
  predicate Disciplined(log: seq<Event>, n: nat) {
    log == [] ||
    (var before := log[..|log| - 1];
     Disciplined(before, n) &&
     if Due(before, n) then log[|log| - 1] == Started(Begun(before)) else !log[|log| - 1].Started?)
  }

  /** Once the answer is given it stays given. */
  predicate Lasting(log: seq<Event>) {
    forall j, k :: 0 <= j < k < |log| && log[j].Returned? && log[j].answer == Given && log[k].Returned? ==>
      log[k].answer == Given
  }

  ghost predicate Inv(e: Engine, s: State) {
    Owned(e, s.resp) && -1 <= s.index && Disciplined(s.log, |s.chain|) && Placed(s)
  }

  /** The answers in the log are lasting, and what they gave is given now. */
  ghost predicate Lasts(log: seq<Event>, r: Response) {
    Lasting(log) && (AnyGiven(log) ==> AnswerOf(r) == Given)
  }

  ghost predicate AnyGiven(log: seq<Event>) {
    exists j :: 0 <= j < |log| && log[j].Returned? && log[j].answer == Given
  }

  /** Where the index stands: at the last handler started, or beyond the chain. */
  predicate Placed(s: State) {
    if Stopped(s.log) then s.index >= |s.chain|
    else !s.aborted && Begun(s.log) == if s.index < |s.chain| then s.index + 1 else |s.chain|
  }

  lemma NotedIs(s: State, v: Event)
    ensures var l := Noted(s, v).log;
      && l[..|l| - 1] == s.log && l[|l| - 1] == v
      && Stopped(l) == (Stops(v) || Stopped(s.log))
      && Begun(l) == Begun(s.log) + (if v.Started? then 1 else 0)
  {
    var l := Noted(s, v).log;
    assert l[..|l| - 1] == s.log;
  }

  /** An event that is in its place keeps the discipline. */
  lemma NotedKeeps(s: State, v: Event, n: nat)
    requires Disciplined(s.log, n)
    requires if Due(s.log, n) then v == Started(Begun(s.log)) else !v.Started?
    ensures Disciplined(Noted(s, v).log, n)
  {
    NotedIs(s, v);
  }

  lemma NotedLasts(s: State, v: Event)
    requires Lasts(s.log, s.resp)
    requires v.Returned? ==> v.answer == AnswerOf(s.resp)
    ensures Lasts(Noted(s, v).log, s.resp)
  {
    var l := Noted(s, v).log;
    forall j, k | 0 <= j < k < |l| && l[j].Returned? && l[j].answer == Given && l[k].Returned?
      ensures l[k].answer == Given
    {
      assert l[j] == s.log[j];
      assert k < |s.log| ==> l[k] == s.log[k];
    }
    if AnyGiven(l) {
      var j :| 0 <= j < |l| && l[j].Returned? && l[j].answer == Given;
      assert j < |s.log| ==> l[j] == s.log[j];
    }
  }

  lemma GivenStays(e: Engine, op: Op, s: State)
    requires !op.Next? && AnswerOf(s.resp) == Given
    ensures AnswerOf(Performed(e, op, s).resp) == Given
  {
  }

  lemma AbortKeeps(e: Engine, s: State)
    requires Inv(e, s) && !Due(s.log, |s.chain|)
    ensures var t := Performed(e, Abort, s);
      Inv(e, t) && !Due(t.log, |t.chain|) && (Lasts(s.log, s.resp) ==> Lasts(t.log, t.resp))
  {
    NotedIs(s, Aborted);
    NotedKeeps(s, Aborted, |s.chain|);
    if Lasts(s.log, s.resp) {
      NotedLasts(s, Aborted);
    }
  }

  lemma PerformedKeeps(e: Engine, op: Op, s: State)
    requires Inv(e, s) && !Due(s.log, |s.chain|) && !op.Next?
    ensures var t := Performed(e, op, s);
      Inv(e, t) && !Due(t.log, |t.chain|) && (Lasts(s.log, s.resp) ==> Lasts(t.log, t.resp))
  {
    if op.Abort? {
      AbortKeeps(e, s);
    } else {
      RespondsOnly(e, op, s);
      if AnswerOf(s.resp) == Given {
        GivenStays(e, op, s);
      }
      ResponseKeeps(e, s, Performed(e, op, s).resp);
    }
  }

  /** The other operations work on the response. */
  lemma RespondsOnly(e: Engine, op: Op, s: State)
    requires !op.Next? && !op.Abort? && Owned(e, s.resp)
    ensures var r := Performed(e, op, s).resp; Owned(e, r) && Performed(e, op, s) == s.(resp := r)
  {
    OperationsKeep(e, s.resp, if op.Hijack? then op.engineAgrees else false);
  }

  lemma ResponseKeeps(e: Engine, s: State, r: Response)
    requires Inv(e, s) && !Due(s.log, |s.chain|)
    requires Owned(e, r) && (AnswerOf(s.resp) == Given ==> AnswerOf(r) == Given)
    ensures var t := s.(resp := r);
      Inv(e, t) && !Due(t.log, |t.chain|) && (Lasts(s.log, s.resp) ==> Lasts(t.log, t.resp))
  {
  }

  /** Whatever the handlers do, what they leave is disciplined, and no handler is due. */
  lemma {:induction false} NextKeeps(e: Engine, s: State)
    requires Inv(e, s) && !Due(s.log, |s.chain|)
    ensures var n := NextOf(e, s);
      && Inv(e, n.s) && !Due(n.s.log, |n.s.chain|) && (Lasts(s.log, s.resp) ==> Lasts(n.s.log, n.s.resp))
      && (n.outcome == Nil ==> Stopped(n.s.log) || Begun(n.s.log) == |s.chain|)
    decreases Left(s), 1
  {
    CallKeeps(e, s);
    var t := Noted(s, Called).(index := s.index + 1);
    if t.index < |t.chain| {
      LoopKeeps(e, t);
    }
  }

  /** The chain stands at a handler that is due. */
  ghost predicate AtDue(e: Engine, s: State) {
    && 0 <= s.index < |s.chain| && Owned(e, s.resp)
    && Disciplined(s.log, |s.chain|) && Due(s.log, |s.chain|) && Begun(s.log) == s.index && !s.aborted
  }

  /** The start of a handler. */
  lemma StartKeeps(e: Engine, s: State)
    requires AtDue(e, s)
    ensures var b := Noted(s, Started(s.index));
      && Inv(e, b) && !Due(b.log, |b.chain|) && (Lasts(s.log, s.resp) ==> Lasts(b.log, b.resp))
  {
    NotedIs(s, Started(s.index));
    NotedKeeps(s, Started(s.index), |s.chain|);
    if Lasts(s.log, s.resp) {
      NotedLasts(s, Started(s.index));
    }
  }

  /** The call of Next. */
  lemma CallKeeps(e: Engine, s: State)
    requires Inv(e, s) && !Due(s.log, |s.chain|)
    ensures var t := Noted(s, Called).(index := s.index + 1);
      && (Lasts(s.log, s.resp) ==> Lasts(t.log, t.resp))
      && if t.index < |t.chain| then AtDue(e, t)
         else Inv(e, t) && !Due(t.log, |t.chain|) && (Stopped(t.log) || Begun(t.log) == |t.chain|)
  {
    NotedIs(s, Called);
    NotedKeeps(s, Called, |s.chain|);
    if Lasts(s.log, s.resp) {
      NotedLasts(s, Called);
    }
  }

  /** A handler has just returned. */
  ghost predicate AtReturn(e: Engine, b: Ran) {
    && b.s.index >= -1 && Owned(e, b.s.resp) && Disciplined(b.s.log, |b.s.chain|)
    && b.s.log != []
    && var v := b.s.log[|b.s.log| - 1];
       && v.Returned? && v.outcome == b.outcome && v.answer == AnswerOf(b.s.resp)
       && (Stops(v) || Placed(b.s))
  }

  lemma {:induction false} LoopKeeps(e: Engine, s: State)
    requires AtDue(e, s)
    ensures var n := Loop(e, s);
      && Inv(e, n.s) && !Due(n.s.log, |n.s.chain|) && (Lasts(s.log, s.resp) ==> Lasts(n.s.log, n.s.resp))
      && (n.outcome == Nil ==> Stopped(n.s.log) || Begun(n.s.log) == |s.chain|)
    decreases Left(s), 4
  {
    BackKeeps(e, s);
    OnwardKeeps(e, Back(e, s));
  }

  lemma {:induction false} BackKeeps(e: Engine, s: State)
    requires AtDue(e, s)
    ensures var b := Back(e, s); AtReturn(e, b) && (Lasts(s.log, s.resp) ==> Lasts(b.s.log, b.s.resp))
    decreases Left(s), 3
  {
    var b, h := Noted(s, Started(s.index)), s.chain[s.index];
    StartKeeps(e, s);
    RunKeeps(e, b, h.ops, h.end);
    var ran := Run(e, b, h.ops, h.end);
    var v := Returned(s.index, ran.outcome, AnswerOf(ran.s.resp));
    NotedIs(ran.s, v);
    NotedKeeps(ran.s, v, |s.chain|);
    if Lasts(ran.s.log, ran.s.resp) {
      NotedLasts(ran.s, v);
    }
  }

  lemma {:induction false} OnwardKeeps(e: Engine, b: Ran)
    requires AtReturn(e, b)
    ensures var n := Onward(e, b);
      && Inv(e, n.s) && !Due(n.s.log, |n.s.chain|) && (Lasts(b.s.log, b.s.resp) ==> Lasts(n.s.log, n.s.resp))
      && (n.outcome == Nil ==> Stopped(n.s.log) || Begun(n.s.log) == |n.s.chain|)
    decreases Left(b.s), 0
  {
    if b.outcome == Nil && !Answered(b.s.resp) && b.s.index + 1 < |b.s.chain| {
      LoopKeeps(e, b.s.(index := b.s.index + 1));
    }
  }

  lemma {:induction false} RunKeeps(e: Engine, s: State, ops: seq<Op>, end: Outcome)
    requires Inv(e, s) && !Due(s.log, |s.chain|)
    ensures var n := Run(e, s, ops, end);
      Inv(e, n.s) && !Due(n.s.log, |n.s.chain|) && (Lasts(s.log, s.resp) ==> Lasts(n.s.log, n.s.resp))
    decreases Left(s), 2, |ops|
  {
    if ops != [] {
      if ops[0].Next? {
        NextKeeps(e, s);
        var n := NextOf(e, s);
        if n.outcome != Panicked || ops[0].recovers {
          RunKeeps(e, n.s, ops[1..], end);
        }
      } else {
        PerformedKeeps(e, ops[0], s);
        RunKeeps(e, Performed(e, ops[0], s), ops[1..], end);
      }
    }
  }

  // ---------------------------------------------------------------- what the discipline means

  lemma {:induction false} DisciplinedAt(log: seq<Event>, n: nat, k: nat)
    requires Disciplined(log, n) && k < |log|
    ensures if Due(log[..k], n) then log[k] == Started(Begun(log[..k])) else !log[k].Started?
    decreases |log|
  {
    var before := log[..|log| - 1];
    if k < |log| - 1 {
      assert before[..k] == log[..k] && before[k] == log[k];
      DisciplinedAt(before, n, k);
    }
  }

  lemma {:induction false} BegunGrows(log: seq<Event>, j: nat)
    requires j < |log|
    ensures Begun(log[..j]) + (if log[j].Started? then 1 else 0) <= Begun(log)
    ensures Stops(log[j]) ==> Stopped(log)
    decreases |log|
  {
    var before := log[..|log| - 1];
    if j < |log| - 1 {
      assert before[..j] == log[..j] && before[j] == log[j];
      BegunGrows(before, j);
    }
  }

  /** Starts strictly increase, and none follows an event that stops the chain. */
  ghost predicate InOrder(log: seq<Event>) {
    forall j, k :: 0 <= j < k < |log| && log[k].Started? ==>
      !Stops(log[j]) && (log[j].Started? ==> log[j].i < log[k].i)
  }

  lemma DisciplinedInOrder(log: seq<Event>, n: nat)
    requires Disciplined(log, n)
    ensures InOrder(log)
  {
    forall j, k | 0 <= j < k < |log| && log[k].Started?
      ensures !Stops(log[j]) && (log[j].Started? ==> log[j].i < log[k].i)
    {
      DisciplinedAt(log, n, k);
      DisciplinedAt(log, n, j);
      assert log[..k][..j] == log[..j] && log[..k][j] == log[j];
      BegunGrows(log[..k], j);
    }
  }

  /** A chain put on a Context, with nothing started. */
  function Loaded(chain: Chain, r: Response): (s: State) {
    State(chain, -1, false, [], r)
  }

  /** Every run of every chain: handlers start in order, each once, none after an Abort or
      after a handler returned without error on an answered request; and when Next returns
      without error all were started or the chain was so stopped. */
  lemma ChainInOrder(e: Engine, chain: Chain, r: Response)
    requires Owned(e, r)
    ensures var n := NextOf(e, Loaded(chain, r));
      && InOrder(n.s.log) && Lasting(n.s.log)
      && (n.outcome == Nil ==> Stopped(n.s.log) || Begun(n.s.log) == |chain|)
  {
    NextKeeps(e, Loaded(chain, r));
    DisciplinedInOrder(NextOf(e, Loaded(chain, r)).s.log, |chain|);
  }

  ghost predicate StartsAfter(log: seq<Event>, j: nat) {
    exists k :: j < k < |log| && log[k].Started?
  }

  /** From the event j on, a handler is due at some point: Next is called, or a handler
      returns without error and without an answer, while the chain is open. */
  ghost predicate DueAfter(log: seq<Event>, n: nat, j: nat) {
    exists k :: j <= k < |log| && Goes(log[k]) && Open(log[..k + 1], n)
  }

  /** Next is called, after the event j, while the chain is open. */
  ghost predicate CalledAgain(log: seq<Event>, n: nat, j: nat) {
    exists k :: j < k < |log| && log[k].Called? && Open(log[..k + 1], n)
  }

  lemma DueStarts(log: seq<Event>, n: nat, k: nat)
    requires Disciplined(log, n) && !Due(log, n)
    requires k < |log| && Goes(log[k]) && Open(log[..k + 1], n)
    ensures k + 1 < |log| && log[k + 1].Started?
  {
    assert log[..k + 1][|log[..k + 1]| - 1] == log[k];
    assert log[..|log|] == log;
    if k + 1 < |log| {
      DisciplinedAt(log, n, k + 1);
    }
  }

  lemma StartWasDue(log: seq<Event>, n: nat, k: nat)
    requires Disciplined(log, n) && k < |log| && log[k].Started?
    ensures k > 0 && Goes(log[k - 1]) && Open(log[..(k - 1) + 1], n)
  {
    DisciplinedAt(log, n, k);
    var before := log[..k];
    assert before[|before| - 1] == log[k - 1];
    assert log[..(k - 1) + 1] == before;
  }

  /** In every run a handler starts after an event if and only if one is due from there on. */
  lemma StartsWhenDue(e: Engine, chain: Chain, r: Response, j: nat)
    requires Owned(e, r) && j < |NextOf(e, Loaded(chain, r)).s.log|
    ensures var log := NextOf(e, Loaded(chain, r)).s.log;
      StartsAfter(log, j) <==> DueAfter(log, |chain|, j)
  {
    NextKeeps(e, Loaded(chain, r));
    var log := NextOf(e, Loaded(chain, r)).s.log;
    if StartsAfter(log, j) {
      var k :| j < k < |log| && log[k].Started?;
      StartWasDue(log, |chain|, k);
    }
    if DueAfter(log, |chain|, j) {
      var k :| j <= k < |log| && Goes(log[k]) && Open(log[..k + 1], |chain|);
      DueStarts(log, |chain|, k);
    }
  }

  /** When an answer stops the chain: after a handler returned on a request whose answer is
      given, another one starts if and only if Next is called again while the chain is open,
      which it is not if the handler returned nil. So an answer stops the chain unless its
      handler fails and an enclosing one swallows the error and calls Next again. */
  lemma AnswerStops(e: Engine, chain: Chain, r: Response, j: nat)
    requires Owned(e, r)
    requires var log := NextOf(e, Loaded(chain, r)).s.log;
             j < |log| && log[j].Returned? && log[j].answer == Given
    ensures var log := NextOf(e, Loaded(chain, r)).s.log;
      && (StartsAfter(log, j) <==> CalledAgain(log, |chain|, j))
      && (log[j].outcome == Nil ==> !StartsAfter(log, j))
  {
    NextKeeps(e, Loaded(chain, r));
    var log := NextOf(e, Loaded(chain, r)).s.log;
    DisciplinedInOrder(log, |chain|);
    StartsWhenDue(e, chain, r, j);
    if DueAfter(log, |chain|, j) {
      var k :| j <= k < |log| && Goes(log[k]) && Open(log[..k + 1], |chain|);
      assert k > j && log[k].Called?;
    }
  }

  /** After an Abort no handler starts, whatever the aborting handler still does. */
  lemma AbortStops(e: Engine, s: State, ops: seq<Op>, end: Outcome)
    requires Inv(e, s) && !Due(s.log, |s.chain|)
    ensures var log := Run(e, Performed(e, Abort, s), ops, end).s.log;
      && s.log + [Aborted] <= log
      && forall k :: |s.log| < k < |log| ==> !log[k].Started?
  {
    var t := Performed(e, Abort, s);
    AbortKeeps(e, s);
    RunKeeps(e, t, ops, end);
    RunAdds(e, t, ops, end);
    var log := Run(e, t, ops, end).s.log;
    DisciplinedInOrder(log, |s.chain|);
    assert log[|s.log|] == t.log[|s.log|];
  }

  lemma {:induction false} NextAdds(e: Engine, s: State)
    requires s.index >= -1
    ensures s.log <= NextOf(e, s).s.log
    decreases Left(s), 1
  {
    var t := Noted(s, Called).(index := s.index + 1);
    if t.index < |t.chain| {
      LoopAdds(e, t);
    }
  }

  lemma {:induction false} LoopAdds(e: Engine, s: State)
    requires 0 <= s.index < |s.chain|
    ensures s.log + [Started(s.index)] <= Loop(e, s).s.log
    decreases Left(s), 4
  {
    var b, h := Noted(s, Started(s.index)), s.chain[s.index];
    RunAdds(e, b, h.ops, h.end);
    OnwardAdds(e, Back(e, s));
  }

  lemma {:induction false} OnwardAdds(e: Engine, b: Ran)
    requires b.s.index >= -1
    ensures b.s.log <= Onward(e, b).s.log
    decreases Left(b.s), 0
  {
    if b.outcome == Nil && !Answered(b.s.resp) && b.s.index + 1 < |b.s.chain| {
      LoopAdds(e, b.s.(index := b.s.index + 1));
    }
  }

  lemma {:induction false} RunAdds(e: Engine, s: State, ops: seq<Op>, end: Outcome)
    requires s.index >= -1
    ensures s.log <= Run(e, s, ops, end).s.log
    decreases Left(s), 2, |ops|
  {
    if ops != [] {
      if ops[0].Next? {
        NextAdds(e, s);
        var n := NextOf(e, s);
        if n.outcome != Panicked || ops[0].recovers {
          RunAdds(e, n.s, ops[1..], end);
        }
      } else {
        RunAdds(e, Performed(e, ops[0], s), ops[1..], end);
      }
    }
  }

  /** A call of Next on an open chain starts the next handler. */
  lemma NextStarts(e: Engine, s: State)
    requires Inv(e, s) && Open(s.log, |s.chain|)
    ensures s.log + [Called, Started(Begun(s.log))] <= NextOf(e, s).s.log
  {
    var c := Noted(s, Called).(index := s.index + 1);
    LoopAdds(e, c);
    assert c.log + [Started(c.index)] == s.log + [Called, Started(Begun(s.log))];
  }

  /** Calls Next, and when that returned calls it again. */
  function CallsTwice(): (h: Handler) {
    Handler([Next(false), Next(false)], Nil)
  }

  function AnswersAndFails(): (h: Handler) {
    Handler([Respond], Failed)
  }

  /** A chain in which the first handler swallows the error of the second. */
  function Swallowing(last: Handler): (c: Chain) {
    [CallsTwice(), AnswersAndFails(), last]
  }

  /** The first handler's first call of Next: the second one answers and fails. */
  lemma SecondFails(e: Engine, last: Handler)
    ensures var s := State(Swallowing(last), 0, false, [Called, Started(0)], Unanswered());
      NextOf(e, s) == Ran(State(Swallowing(last), 1, false,
                                [Called, Started(0), Called, Started(1), Returned(1, Failed, Given)],
                                Sent(e, Unanswered())),
                          Failed)
  {
    var s := State(Swallowing(last), 0, false, [Called, Started(0)], Unanswered());
    var c := Noted(s, Called).(index := 1);
    var b := Noted(c, Started(1));
    var ops := AnswersAndFails().ops;
    assert ops[1..] == [];
    assert Run(e, b.(resp := Sent(e, Unanswered())), [], Failed).outcome == Failed;
    assert Run(e, b, ops, Failed) == Ran(b.(resp := Sent(e, Unanswered())), Failed);
    var ran := Ran(b.(resp := Sent(e, Unanswered())), Failed);
    assert Back(e, c) == Ran(Noted(ran.s, Returned(1, Failed, Given)), Failed);
    assert Loop(e, c) == Back(e, c);
    assert Noted(ran.s, Returned(1, Failed, Given)).log
        == [Called, Started(0), Called, Started(1), Returned(1, Failed, Given)];
    assert NextOf(e, s) == Loop(e, c);
  }

  /** The first handler runs: its second call of Next starts the last handler. */
  lemma FirstGoesOn(e: Engine, last: Handler)
    requires Sensible(e)
    ensures var b := State(Swallowing(last), 0, false, [Called, Started(0)], Unanswered());
      [Called, Started(0), Called, Started(1), Returned(1, Failed, Given), Called, Started(2)]
        <= Run(e, b, CallsTwice().ops, Nil).s.log
  {
    var b := State(Swallowing(last), 0, false, [Called, Started(0)], Unanswered());
    FirstStarts(e, last);
    NextKeeps(e, b);
    SecondFails(e, last);
    var f := NextOf(e, b).s;
    StillOpen(f.log);
    NextStarts(e, f);
    CallInRun(e, b, CallsTwice().ops, Nil);
    CallInRun(e, f, CallsTwice().ops[1..], Nil);
  }

  /** The state the first handler starts in. */
  lemma FirstStarts(e: Engine, last: Handler)
    requires Sensible(e)
    ensures var b := State(Swallowing(last), 0, false, [Called, Started(0)], Unanswered());
      Inv(e, b) && !Due(b.log, |b.chain|)
  {
    var s := Loaded(Swallowing(last), Unanswered());
    var c := Noted(s, Called).(index := 0);
    assert Noted(c, Started(0)) == State(Swallowing(last), 0, false, [Called, Started(0)], Unanswered());
    CallKeeps(e, s);
    StartKeeps(e, c);
  }

  lemma StillOpen(log: seq<Event>)
    requires log == [Called, Started(0), Called, Started(1), Returned(1, Failed, Given)]
    ensures !Stopped(log) && Begun(log) == 2
  {
    var a: seq<Event> := [Called];
    var b: seq<Event> := [Called, Started(0), Called];
    assert a[..0] == [] && !Stopped(a) && Begun(a) == 0;
    assert [Called, Started(0)][..1] == a && b[..2] == [Called, Started(0)];
    assert !Stopped(b) && Begun(b) == 1;
    assert log[..4][..3] == b;
  }

  /** What a script that starts with a call of Next has in its log. */
  lemma CallInRun(e: Engine, s: State, ops: seq<Op>, end: Outcome)
    requires s.index >= -1 && ops != [] && ops[0] == Next(false)
    ensures var n := NextOf(e, s);
      && (n.outcome != Panicked ==> Run(e, s, ops, end) == Run(e, n.s, ops[1..], end))
      && n.s.log <= Run(e, s, ops, end).s.log
  {
    var n := NextOf(e, s);
    if n.outcome != Panicked {
      RunAdds(e, n.s, ops[1..], end);
    }
  }

  /** So an answer with an error does not stop the chain if an outer handler swallows the
      error and calls Next again: whatever the last handler is, it starts after the second
      one answered and returned. */
  lemma AnswerSwallowed(e: Engine, last: Handler)
    requires Sensible(e)
    ensures [Called, Started(0), Called, Started(1), Returned(1, Failed, Given), Called, Started(2)]
         <= NextOf(e, Loaded(Swallowing(last), Unanswered())).s.log
  {
    var s := Loaded(Swallowing(last), Unanswered());
    var c := Noted(s, Called).(index := 0);
    var b := Noted(c, Started(0));
    assert b.log == [Called, Started(0)];
    FirstGoesOn(e, last);
    OnwardAdds(e, Back(e, c));
  }

  // ---------------------------------------------------------------- what scripts undo

  function Times(op: Op, n: nat): (ops: seq<Op>)
    ensures |ops| == n
  {
    if n == 0 then [] else [op] + Times(op, n - 1)
  }

  /** One operation of a script other than Next. */
  lemma RunFirst(e: Engine, s: State, op: Op, rest: seq<Op>, end: Outcome)
    requires s.index >= -1 && !op.Next? && !op.Abort?
    ensures var t := Performed(e, op, s); t.index >= -1 && Run(e, s, [op] + rest, end) == Run(e, t, rest, end)
  {
    assert ([op] + rest)[1..] == rest;
  }

  lemma {:induction false} RunBuffers(e: Engine, s: State, n: nat, rest: seq<Op>, end: Outcome)
    requires s.index >= -1
    ensures Run(e, s, Times(Buffer, n) + rest, end)
         == Run(e, s.(resp := s.resp.(depth := s.resp.depth + n)), rest, end)
    decreases n
  {
    if n == 0 {
      assert [] + rest == rest;
      assert s.(resp := s.resp.(depth := s.resp.depth + 0)) == s;
    } else {
      var t := Performed(e, Buffer, s);
      assert Times(Buffer, n) + rest == [Buffer] + (Times(Buffer, n - 1) + rest);
      RunFirst(e, s, Buffer, Times(Buffer, n - 1) + rest, end);
      RunBuffers(e, t, n - 1, rest, end);
    }
  }

  lemma {:induction false} RunFlushes(e: Engine, s: State, n: nat, rest: seq<Op>, end: Outcome)
    requires s.index >= -1
    ensures Run(e, s, Times(Flush, n) + rest, end) == Run(e, s.(resp := Flushes(e, s.resp, n)), rest, end)
    decreases n
  {
    if n == 0 {
      assert [] + rest == rest;
    } else {
      assert Times(Flush, n) + rest == [Flush] + (Times(Flush, n - 1) + rest);
      RunFirst(e, s, Flush, Times(Flush, n - 1) + rest, end);
      RunFlushes(e, Performed(e, Flush, s), n - 1, rest, end);
    }
  }

  /** A handler that responds under any number of layers of its own and flushes them is one
      that just responds. */
  lemma BufferedScript(e: Engine, s: State, n: nat, rest: seq<Op>, end: Outcome)
    requires s.index >= -1 && !s.resp.written && !s.resp.detached && !s.resp.buffered
    ensures Run(e, s, Times(Buffer, n) + ([Respond] + (Times(Flush, n) + rest)), end)
         == Run(e, s, [Respond] + rest, end)
  {
    var flushed := Times(Flush, n) + rest;
    var b := s.(resp := s.resp.(depth := s.resp.depth + n));
    RunBuffers(e, s, n, [Respond] + flushed, end);
    RunFirst(e, b, Respond, flushed, end);
    RunFlushes(e, Performed(e, Respond, b), n, rest, end);
    BufferedThrough(e, s.resp, n);
    RunFirst(e, s, Respond, rest, end);
  }

  /** One that discards the response it made under a layer of its own made none. */
  lemma DiscardedScript(e: Engine, s: State, rest: seq<Op>, end: Outcome)
    requires s.index >= -1 && !s.resp.buffered
    ensures Run(e, s, [Buffer] + ([Respond] + ([Discard] + rest)), end) == Run(e, s, rest, end)
  {
    var b := Performed(e, Buffer, s);
    RunFirst(e, s, Buffer, [Respond] + ([Discard] + rest), end);
    RunFirst(e, b, Respond, [Discard] + rest, end);
    RunFirst(e, Performed(e, Respond, b), Discard, rest, end);
    DiscardUndoes(e, s.resp);
  }

  /** A hijack that the engine refuses does nothing. */
  lemma RefusedScript(e: Engine, s: State, rest: seq<Op>, end: Outcome)
    requires s.index >= -1
    ensures Run(e, s, [Hijack(false)] + rest, end) == Run(e, s, rest, end)
  {
    RunFirst(e, s, Hijack(false), rest, end);
  }

  /** After a hijack a handler's responses, flushes and hijacks do nothing, and no full
      response was sent. */
  lemma HijackedScript(e: Engine, s: State, op: Op, rest: seq<Op>, end: Outcome)
    requires s.index >= -1 && Owned(e, s.resp) && e.hasWriter && !s.resp.written && !s.resp.detached
    requires op.Respond? || op.Flush? || op.Hijack?
    ensures Run(e, s, [Hijack(true)] + ([op] + rest), end) == Run(e, s, [Hijack(true)] + rest, end)
    ensures Run(e, s, [Hijack(true)], end).s.resp.hijacked && Run(e, s, [Hijack(true)], end).s.resp.writes == 0
  {
    var h := Performed(e, Hijack(true), s);
    OperationsKeep(e, s.resp, true);
    HijackAlone(e, h.resp, if op.Hijack? then op.engineAgrees else false);
    RunFirst(e, s, Hijack(true), [op] + rest, end);
    RunFirst(e, h, op, rest, end);
    RunFirst(e, s, Hijack(true), rest, end);
    RunFirst(e, s, Hijack(true), [], end);
    assert [Hijack(true)] + [] == [Hijack(true)];
  }

  /** After a detach a handler's responses and hijacks do nothing. */
  lemma DetachedScript(e: Engine, s: State, op: Op, rest: seq<Op>, end: Outcome)
    requires s.index >= -1 && (op.Respond? || op.Hijack? || op.Detach?)
    ensures Run(e, s, [Detach] + ([op] + rest), end) == Run(e, s, [Detach] + rest, end)
    ensures Run(e, s, [Detach], end).s.resp.detached
  {
    var d := Performed(e, Detach, s);
    RunFirst(e, s, Detach, [op] + rest, end);
    RunFirst(e, d, op, rest, end);
    RunFirst(e, s, Detach, rest, end);
    RunFirst(e, s, Detach, [], end);
    assert [Detach] + [] == [Detach];
  }

  /** A StreamWriter taken on an open response and used answers the request, once. */
  lemma StreamedScript(e: Engine, s: State, end: Outcome)
    requires s.index >= -1 && Owned(e, s.resp) && e.streams && !s.resp.written && s.resp.depth == 0 && !s.resp.used
    ensures var r := Run(e, s, [TakeStream] + [UseStream], end).s.resp;
      Out(r) && Answers(r) == 1 && r.writes == 0 && r.stray == NoStray
  {
    var t := Performed(e, TakeStream, s);
    RunFirst(e, s, TakeStream, [UseStream], end);
    RunFirst(e, t, UseStream, [], end);
    assert [UseStream] + [] == [UseStream];
  }

  // ---------------------------------------------------------------- how Next returns

  /** An error or a panic that Next returns is that of the handler that returned last. */
  lemma FailureIsLast(e: Engine, s: State)
    requires s.index >= -1 && NextOf(e, s).outcome != Nil
    ensures var n := NextOf(e, s);
      n.s.log != [] && var v := n.s.log[|n.s.log| - 1]; v.Returned? && v.outcome == n.outcome
  {
    var t := Noted(s, Called).(index := s.index + 1);
    LoopFailure(e, t);
  }

  lemma {:induction false} LoopFailure(e: Engine, s: State)
    requires 0 <= s.index < |s.chain| && Loop(e, s).outcome != Nil
    ensures var n := Loop(e, s);
      n.s.log != [] && var v := n.s.log[|n.s.log| - 1]; v.Returned? && v.outcome == n.outcome
    decreases Left(s)
  {
    var b := Back(e, s);
    if b.outcome == Nil && !Answered(b.s.resp) && b.s.index + 1 < |b.s.chain| {
      LoopFailure(e, b.s.(index := b.s.index + 1));
    }
  }

  /** A panic below goes through a handler that does not recover, and not through one that
      does, whose own result then counts. */
  lemma PanicBelow(e: Engine, recovers: bool, end: Outcome)
    ensures NextOf(e, Loaded([Handler([Next(recovers)], end), Handler([], Panicked)], Unanswered())).outcome
         == if recovers then end else Panicked
  {
    var chain: Chain := [Handler([Next(recovers)], end), Handler([], Panicked)];
    var s := Loaded(chain, Unanswered());
    var c := Noted(s, Called).(index := 0);
    var b := Noted(c, Started(0));
    SecondPanics(e, chain, b);
    var ops := [Next(recovers)];
    assert ops[1..] == [];
    var n := NextOf(e, b);
    assert Run(e, n.s, [], end) == Ran(n.s, end);
    var ran := if recovers then Ran(n.s, end) else n;
    assert Run(e, b, ops, end) == ran;
    assert c.chain[c.index] == Handler(ops, end);
    assert Back(e, c) == Ran(Noted(ran.s, Returned(0, ran.outcome, AnswerOf(ran.s.resp))), ran.outcome);
    OnwardEnds(e, Back(e, c));
    assert NextOf(e, s) == Loop(e, c);
  }

  lemma SecondPanics(e: Engine, chain: Chain, b: State)
    requires |chain| == 2 && chain[1] == Handler([], Panicked) && b.chain == chain && b.index == 0
    ensures var n := NextOf(e, b); n.outcome == Panicked && n.s.index == 1
  {
    var c := Noted(b, Called).(index := 1);
    var ran := Ran(Noted(c, Started(1)), Panicked);
    assert c.chain[c.index] == Handler([], Panicked);
    assert Run(e, Noted(c, Started(1)), [], Panicked) == ran;
    assert Back(e, c) == Ran(Noted(ran.s, Returned(1, Panicked, AnswerOf(ran.s.resp))), Panicked);
    assert Loop(e, c) == Back(e, c);
    assert NextOf(e, b) == Loop(e, c);
  }

  /** With no handler left the loop returns what the last one did. */
  lemma OnwardEnds(e: Engine, b: Ran)
    requires b.s.index >= -1 && b.s.index + 1 >= |b.s.chain|
    ensures Onward(e, b).outcome == b.outcome
  {
  }
}
