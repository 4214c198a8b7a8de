/** HandleStream and its error, panic and unmatched paths, as a value (handler.go), and what
    it promises for every handler script. */
module Serving {
  import opened Wrappers
  import opened Responses
  import opened Chains

  /** What the router found for the request, with the chain that serves it. */
  datatype Route = Matched(chain: Chain) | Unmatched(chain: Chain)

  /** Where HandleStream left off: in pre-middleware, after a panic, or at its end. */
  datatype Exit = AtPre | AtPanic | AtEnd

  datatype Done = Done(s: State, exit: Exit)

  /** handleError: a failed chain's response, unless one is under way. The error handler is
      asked first, and may panic. */
  function ErrorHandled(e: Engine, s: State, onError: Option<Handler>): (n: Ran)
    requires s.index >= -1
    ensures n.s.index >= -1
  {
    if s.resp.written && !Reclaimable(s.resp) then Ran(s, Nil)
    else
      var t := s.(resp := if s.resp.written then Reclaimed(s.resp) else s.resp);
      var n := if onError.Some? then Run(e, t, onError.value.ops, onError.value.end) else Ran(t, Nil);
      if n.outcome == Panicked then n
      else if n.s.resp.written || n.s.resp.detached || !e.hasWriter then Ran(n.s, Nil)
      else Ran(n.s.(resp := Sent(e, n.s.resp)), Nil)
  }

  /** What follows a chain: the error handler if it failed, and the flush. */
  function ChainEnded(e: Engine, n: Ran, onError: Option<Handler>): (m: Ran)
    requires n.s.index >= -1
    ensures m.s.index >= -1
  {
    if n.outcome == Panicked then n
    else
      var h := if n.outcome == Failed then ErrorHandled(e, n.s, onError) else Ran(n.s, Nil);
      if h.outcome == Panicked then h
      else Ran(h.s.(resp := CapturedFlushed(e, h.s.resp)), n.outcome)
  }

  /** A chain, the error handler if it failed, and the flush that follows. */
  function ChainServed(e: Engine, r: Response, chain: Chain, onError: Option<Handler>): (n: Ran)
    ensures n.s.index >= -1
  {
    ChainEnded(e, NextOf(e, Loaded(chain, r)), onError)
  }

  /** The route's part of HandleStream. */
  function RouteServed(e: Engine, r: Response, route: Route, onError: Option<Handler>): (d: Done) {
    var n := ChainServed(e, r, route.chain, onError);
    if n.outcome == Panicked then Done(n.s.(resp := AfterPanic(e, n.s.resp)), AtPanic)
    else if route.Matched? then Done(n.s.(resp := EmptyAnswered(e, n.s.resp)), AtEnd)
    else Done(n.s.(resp := UnmatchedAnswered(e, n.s.resp)), AtEnd)
  }

  /** HandleStream: pre-middleware, then the route unless it failed, aborted or answered. */
  function Served(e: Engine, pre: Chain, route: Route, onError: Option<Handler>): (d: Done) {
    if pre == [] then RouteServed(e, Unanswered(), route, onError)
    else
      var n := ChainServed(e, Unanswered(), pre, onError);
      if n.outcome == Panicked then Done(n.s.(resp := AfterPanic(e, n.s.resp)), AtPanic)
      else if n.outcome == Failed || n.s.aborted || Answered(n.s.resp) then Done(n.s, AtPre)
      else RouteServed(e, n.s.resp, route, onError)
  }

  // ---------------------------------------------------------------- what it promises

  lemma ErrorHandledKeeps(e: Engine, s: State, onError: Option<Handler>)
    requires Inv(e, s) && !Due(s.log, |s.chain|)
    ensures var n := ErrorHandled(e, s, onError);
      && Inv(e, n.s) && (n.outcome != Panicked && e.hasWriter && !n.s.resp.detached ==> n.s.resp.written)
      && (onError.None? && e.hasWriter && !s.resp.detached ==> Out(n.s.resp))
  {
    EndsKeep(e, s.resp);
    var t := s.(resp := if s.resp.written then Reclaimed(s.resp) else s.resp);
    if onError.Some? {
      RunKeeps(e, t, onError.value.ops, onError.value.end);
    }
  }

  lemma ChainServedKeeps(e: Engine, r: Response, chain: Chain, onError: Option<Handler>)
    requires Owned(e, r)
    ensures var n := ChainServed(e, r, chain, onError);
      && Inv(e, n.s)
      && (n.outcome != Panicked && !n.s.resp.detached ==> n.s.resp.written || !n.s.resp.buffered)
      && (n.outcome == Failed && e.hasWriter && !n.s.resp.detached ==> n.s.resp.written)
  {
    var n := NextOf(e, Loaded(chain, r));
    NextKeeps(e, Loaded(chain, r));
    if n.outcome == Failed {
      ErrorHandledKeeps(e, n.s, onError);
    }
    if n.outcome != Panicked {
      var h := if n.outcome == Failed then ErrorHandled(e, n.s, onError) else Ran(n.s, Nil);
      EndsKeep(e, h.s.resp);
    }
  }

  /** When a request with a writer that is not detached has been answered: after a panic; at
      the end of a matched route exactly if it is written, which it is if the engine asks for
      it; at the end of an unmatched one unless a StreamWriter was only taken; and if
      pre-middleware ended it, exactly if it is written and not only by a taken StreamWriter,
      an unwritten one having been aborted. */
  ghost predicate Answer(e: Engine, d: Done, matched: bool) {
    var r := d.s.resp;
    match d.exit
    case AtPanic => Out(r)
    case AtEnd => if matched then AnsweredEmpty(e, r) else UnlessTaken(r)
    case AtPre => (Out(r) <==> r.written && !Reclaimable(r)) && (r.written || d.s.aborted)
  }

  /** The promise of HandleStream:
      - never two full responses, and none after Detach;
      - as many answers as Answer says, one or none, and one more exactly for a StreamWriter
        used while it did not own the response;
      - a captured response is not left behind. */
  ghost predicate Promise(e: Engine, d: Done, matched: bool) {
    var r := d.s.resp;
    && r.writes <= 1 && (r.detached ==> r.writes == r.writesAtDetach)
    && (e.hasWriter ==> Answers(r) == (if Out(r) then 1 else 0) + (if r.stray == Loose then 1 else 0))
    && (e.hasWriter && !r.detached ==> Answer(e, d, matched))
    && (d.exit != AtPanic && !r.detached ==> r.written || !r.buffered)
  }

  lemma RouteServedKeeps(e: Engine, r: Response, route: Route, onError: Option<Handler>)
    requires Owned(e, r)
    ensures var d := RouteServed(e, r, route, onError);
      && Owned(e, d.s.resp) && d.exit != AtPre && d.s.chain == route.chain
      && Promise(e, d, route.Matched?)
  {
    var n := ChainServed(e, r, route.chain, onError);
    ChainServedKeeps(e, r, route.chain, onError);
    EndsKeep(e, n.s.resp);
    if n.outcome == Panicked {
      PromiseAt(e, Done(n.s.(resp := AfterPanic(e, n.s.resp)), AtPanic), route.Matched?);
    } else if route.Matched? {
      PromiseAt(e, Done(n.s.(resp := EmptyAnswered(e, n.s.resp)), AtEnd), true);
    } else {
      PromiseAt(e, Done(n.s.(resp := UnmatchedAnswered(e, n.s.resp)), AtEnd), false);
    }
  }

  /** The promise, from the owner and the answer of where HandleStream left off. */
  lemma PromiseAt(e: Engine, d: Done, matched: bool)
    requires Owned(e, d.s.resp) && (e.hasWriter && !d.s.resp.detached ==> Answer(e, d, matched))
    requires d.exit != AtPanic && !d.s.resp.detached ==> d.s.resp.written || !d.s.resp.buffered
    ensures Promise(e, d, matched)
  {
    if e.hasWriter {
      CountAnswers(e, d.s.resp);
    }
  }

  /** For every script of pre-middleware, handlers and error handler the promise holds.
      HandleStream ends in pre-middleware with what that chain left; a route is served only
      after pre-middleware that neither failed nor aborted nor answered. */
  lemma OneAnswer(e: Engine, pre: Chain, route: Route, onError: Option<Handler>)
    requires Sensible(e)
    ensures var d := Served(e, pre, route, onError);
      var n := ChainServed(e, Unanswered(), pre, onError);
      && Promise(e, d, route.Matched?)
      && (d.exit == AtPre ==> pre != [] && d.s == n.s && n.outcome != Panicked)
      && (d.exit == AtEnd && pre != [] ==> n.outcome == Nil && !n.s.aborted && !Answered(n.s.resp))
  {
    if pre == [] {
      RouteServedKeeps(e, Unanswered(), route, onError);
    } else {
      ChainServedKeeps(e, Unanswered(), pre, onError);
      var n := ChainServed(e, Unanswered(), pre, onError);
      EndsKeep(e, n.s.resp);
      if n.outcome == Panicked {
        PromiseAt(e, Done(n.s.(resp := AfterPanic(e, n.s.resp)), AtPanic), route.Matched?);
      } else if n.outcome == Failed || n.s.aborted || Answered(n.s.resp) {
        PromiseAt(e, Done(n.s, AtPre), route.Matched?);
      } else {
        RouteServedKeeps(e, n.s.resp, route, onError);
      }
    }
  }

  // ---------------------------------------------------------------- whose handlers run

  /** Pre-middleware that lets the request through. */
  ghost predicate Passes(e: Engine, pre: Chain, onError: Option<Handler>) {
    pre == [] ||
    var n := ChainServed(e, Unanswered(), pre, onError);
    n.outcome == Nil && !n.s.aborted && !Answered(n.s.resp)
  }

  lemma {:induction false} RunKeepsLog(e: Engine, s: State, onError: Option<Handler>)
    requires s.index >= -1
    ensures s.log <= ErrorHandled(e, s, onError).s.log && ErrorHandled(e, s, onError).s.chain == s.chain
  {
    var t := s.(resp := if s.resp.written then Reclaimed(s.resp) else s.resp);
    if onError.Some? {
      RunAdds(e, t, onError.value.ops, onError.value.end);
    }
  }

  /** A chain that has a handler starts with it. */
  lemma ChainStarts(e: Engine, r: Response, chain: Chain, onError: Option<Handler>)
    ensures var n := ChainServed(e, r, chain, onError);
      && n.s.chain == chain
      && (chain != [] ==> [Called, Started(0)] <= n.s.log)
  {
    var s := Loaded(chain, r);
    var n := NextOf(e, s);
    var c := Noted(s, Called).(index := 0);
    if chain != [] {
      LoopAdds(e, c);
      assert c.log + [Started(0)] == [Called, Started(0)];
    }
    RunKeepsLog(e, n.s, onError);
  }

  /** Past pre-middleware it is the route's own chain that runs, from its first handler on. */
  lemma RouteRuns(e: Engine, pre: Chain, route: Route, onError: Option<Handler>)
    requires Passes(e, pre, onError)
    ensures var d := Served(e, pre, route, onError);
      && d.exit != AtPre && d.s.chain == route.chain
      && (route.chain != [] ==> [Called, Started(0)] <= d.s.log)
  {
    var r := if pre == [] then Unanswered() else ChainServed(e, Unanswered(), pre, onError).s.resp;
    ChainStarts(e, r, route.chain, onError);
  }

  /** It runs only then: a request that comes to the end of HandleStream was let through. */
  lemma OnlyPassed(e: Engine, pre: Chain, route: Route, onError: Option<Handler>)
    ensures Served(e, pre, route, onError).exit == AtEnd ==> Passes(e, pre, onError)
  {
  }

  /** Pre-middleware that lets the request through and leaves the response as it found it
      makes no difference. */
  lemma PreInvisible(e: Engine, pre: Chain, route: Route, onError: Option<Handler>)
    requires pre != [] && Passes(e, pre, onError)
    requires ChainServed(e, Unanswered(), pre, onError).s.resp == Unanswered()
    ensures Served(e, pre, route, onError) == Served(e, [], route, onError)
  {
  }

  /** The response of a failed chain is nobody's: not written, or only by a StreamWriter that
      was taken and not used, which is taken back. */
  predicate Nobodys(r: Response) {
    !r.written || Reclaimable(r)
  }

  /** What is taken back is open again. */
  function Reopened(s: State): (t: State) {
    s.(resp := if s.resp.written then s.resp.(takenOnly := false, written := false) else s.resp)
  }

  /** A chain that fails on a response that is nobody's runs the error handler's script, on
      what the chain left; a panic of it is returned. */
  lemma ScriptRuns(e: Engine, r: Response, chain: Chain, h: Handler)
    requires var n := NextOf(e, Loaded(chain, r)); n.outcome == Failed && Nobodys(n.s.resp)
    ensures var m := Run(e, Reopened(NextOf(e, Loaded(chain, r)).s), h.ops, h.end);
      var c := ChainServed(e, r, chain, Some(h));
      && c.s.log == m.s.log && c.s.aborted == m.s.aborted
      && c.outcome == (if m.outcome == Panicked then Panicked else Failed)
      && (m.outcome == Panicked ==> c.s.resp == m.s.resp)
      && (m.s.resp.detached ==> c.s.resp.detached && c.s.resp.writes == m.s.resp.writes)
      && (m.s.resp.hijacked ==> c.s.resp.hijacked)
  {
  }

  /** So does a route's chain in HandleStream; a panic of the script is the request's. */
  lemma ErrorScriptRuns(e: Engine, pre: Chain, route: Route, h: Handler)
    requires Passes(e, pre, Some(h))
    requires var r := if pre == [] then Unanswered() else ChainServed(e, Unanswered(), pre, Some(h)).s.resp;
      var n := NextOf(e, Loaded(route.chain, r));
      n.outcome == Failed && Nobodys(n.s.resp)
    ensures var r := if pre == [] then Unanswered() else ChainServed(e, Unanswered(), pre, Some(h)).s.resp;
      var m := Run(e, Reopened(NextOf(e, Loaded(route.chain, r)).s), h.ops, h.end);
      var d := Served(e, pre, route, Some(h));
      && d.s.log == m.s.log && d.s.aborted == m.s.aborted
      && d.exit == (if m.outcome == Panicked then AtPanic else AtEnd)
  {
    var r := if pre == [] then Unanswered() else ChainServed(e, Unanswered(), pre, Some(h)).s.resp;
    ScriptRuns(e, r, route.chain, h);
  }

  /** And pre-middleware, after which the route is not served. */
  lemma PreErrorScriptRuns(e: Engine, pre: Chain, route: Route, h: Handler)
    requires pre != []
    requires var n := NextOf(e, Loaded(pre, Unanswered())); n.outcome == Failed && Nobodys(n.s.resp)
    ensures var m := Run(e, Reopened(NextOf(e, Loaded(pre, Unanswered())).s), h.ops, h.end);
      var d := Served(e, pre, route, Some(h));
      && d.s.chain == pre && d.s.log == m.s.log && d.s.aborted == m.s.aborted
      && d.exit == (if m.outcome == Panicked then AtPanic else AtPre)
  {
    ScriptRuns(e, Unanswered(), pre, h);
  }

  /** Without an error handler the framework answers a failed request, even one whose
      StreamWriter was taken and not used. */
  lemma ErrorAnswered(e: Engine, pre: Chain, route: Route)
    requires Sensible(e) && e.hasWriter && pre != []
    requires NextOf(e, Loaded(pre, Unanswered())).outcome == Failed
    ensures var d := Served(e, pre, route, None); d.exit == AtPre && (!d.s.resp.detached ==> Out(d.s.resp))
  {
    var n := NextOf(e, Loaded(pre, Unanswered()));
    NextKeeps(e, Loaded(pre, Unanswered()));
    ErrorHandledKeeps(e, n.s, None);
  }

  // ---------------------------------------------------------------- where the promise ends

  /** An engine that streams and asks for empty answers. */
  function Full(): (e: Engine) {
    Engine(true, true, true)
  }

  /** A chain of one handler that performs its operations and returns nil. */
  lemma OneHandler(e: Engine, ops: seq<Op>, end: State)
    requires Run(e, State([Handler(ops, Nil)], 0, false, [Called, Started(0)], Unanswered()), ops, Nil) == Ran(end, Nil)
    requires end.index == 0 && end.chain == [Handler(ops, Nil)] && Answered(end.resp)
    ensures var n := NextOf(e, Loaded([Handler(ops, Nil)], Unanswered())); n.outcome == Nil && n.s.resp == end.resp
  {
    var chain: Chain := [Handler(ops, Nil)];
    var c := Noted(Loaded(chain, Unanswered()), Called).(index := 0);
    var b := State(chain, 0, false, [Called, Started(0)], Unanswered());
    assert Noted(c, Started(0)) == b;
    assert Back(e, c) == Ran(Noted(end, Returned(0, Nil, AnswerOf(end.resp))), Nil);
    assert NextOf(e, Loaded(chain, Unanswered())) == Onward(e, Back(e, c));
  }

  /** One answer per request fails for a StreamWriter that does not own the response: taken
      after a full response and then used, it makes a second one. */
  lemma AnsweredTwice()
    ensures var d := Served(Full(), [], Matched([Handler([Respond, TakeStream, UseStream], Nil)]), None);
      d.exit == AtEnd && d.s.resp.writes == 1 && d.s.resp.stray == Loose && Answers(d.s.resp) == 2
  {
    var ops := [Respond, TakeStream, UseStream];
    var s0 := State([Handler(ops, Nil)], 0, false, [Called, Started(0)], Unanswered());
    var s1 := Performed(Full(), Respond, s0);
    var s2 := Performed(Full(), TakeStream, s1);
    var s3 := Performed(Full(), UseStream, s2);
    assert ops[1..] == [TakeStream, UseStream] && ops[1..][1..] == [UseStream] && ops[1..][1..][1..] == [];
    assert Run(Full(), s3, [], Nil) == Ran(s3, Nil);
    assert Run(Full(), s2, [UseStream], Nil) == Ran(s3, Nil);
    assert Run(Full(), s1, ops[1..], Nil) == Ran(s3, Nil);
    OneHandler(Full(), ops, s3);
  }

  /** An unmatched request whose chain takes a StreamWriter and does not use it gets no answer
      at all. */
  lemma NeverAnswered()
    ensures var d := Served(Full(), [], Unmatched([Handler([TakeStream], Nil)]), None);
      d.exit == AtEnd && Reclaimable(d.s.resp) && Answers(d.s.resp) == 0
  {
    var ops := [TakeStream];
    var s0 := State([Handler(ops, Nil)], 0, false, [Called, Started(0)], Unanswered());
    var s1 := Performed(Full(), TakeStream, s0);
    assert ops[1..] == [];
    assert Run(Full(), s1, [], Nil) == Ran(s1, Nil);
    OneHandler(Full(), ops, s1);
  }

  /** Pre-middleware that takes a StreamWriter and does not use it ends the request without an
      answer, whatever the route would do. */
  lemma PreNeverAnswers(route: Route)
    ensures var d := Served(Full(), [Handler([TakeStream], Nil)], route, None);
      d.exit == AtPre && !d.s.aborted && d.s.resp.stray == NoStray && Answers(d.s.resp) == 0
  {
    var ops := [TakeStream];
    var s0 := State([Handler(ops, Nil)], 0, false, [Called, Started(0)], Unanswered());
    var s1 := Performed(Full(), TakeStream, s0);
    assert ops[1..] == [];
    assert Run(Full(), s1, [], Nil) == Ran(s1, Nil);
    OneHandler(Full(), ops, s1);
  }

  /** So does an error handler of pre-middleware that only takes one. */
  lemma ErrorNeverAnswers(route: Route)
    ensures var d := Served(Full(), [Handler([], Failed)], route, Some(Handler([TakeStream], Nil)));
      d.exit == AtPre && !d.s.aborted && d.s.resp.stray == NoStray && Answers(d.s.resp) == 0
  {
    var pre: Chain := [Handler([], Failed)];
    var c := Noted(Loaded(pre, Unanswered()), Called).(index := 0);
    assert Run(Full(), Noted(c, Started(0)), [], Failed) == Ran(Noted(c, Started(0)), Failed);
    var s := Noted(Noted(c, Started(0)), Returned(0, Failed, NoAnswer));
    assert NextOf(Full(), Loaded(pre, Unanswered())) == Ran(s, Failed);
    var ops := [TakeStream];
    var t := Performed(Full(), TakeStream, s);
    assert ops[1..] == [];
    assert Run(Full(), t, [], Nil) == Ran(t, Nil);
    assert Run(Full(), s, ops, Nil) == Ran(t, Nil);
    assert ErrorHandled(Full(), s, Some(Handler(ops, Nil))) == Ran(t, Nil);
  }
}
