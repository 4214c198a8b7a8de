/** The Context of one request and the adapter around it, updated in place (context.go,
    context_response.go, handler.go), proved against their value-level meaning. */
module Answering {
  import opened Wrappers
  import opened Responses
  import opened Chains
  import opened Serving

  class Context {
    const engine: Engine
    // chain
    var handlers: Chain
    var index: int
    var aborted: bool
    // response
    var written: bool
    var buffered: bool
    var detached: bool
    var hijacked: bool
    var bufferDepth: nat
    var streamTakenOnly: bool
    var streamUsed: bool
    var streamTaken: bool
    // the wire
    var writes: nat
    // history
    ghost var writesAtDetach: nat
    ghost var stray: Stray
    ghost var log: seq<Event>

    ghost function Resp(): (r: Response)
      reads this
    {
      Response(written, buffered, detached, hijacked, bufferDepth, streamTakenOnly, streamUsed, streamTaken,
               writes, writesAtDetach, stray)
    }

    ghost function Value(): (s: State)
      reads this
    {
      State(handlers, index, aborted, log, Resp())
    }

    /** Between the steps of a chain: the response has one owner, the log is in order, and no
        handler is due. */
    ghost predicate Quiet()
      reads this
    {
      Inv(engine, Value()) && !Due(log, |handlers|)
    }

    constructor (engine: Engine)
      ensures this.engine == engine && Value() == Loaded([], Unanswered())
    {
      this.engine := engine;
      handlers, index, aborted, log := [], -1, false, [];
      written, buffered, detached, hijacked, bufferDepth := false, false, false, false, 0;
      streamTakenOnly, streamUsed, streamTaken, writes, writesAtDetach, stray := false, false, false, 0, 0, NoStray;
    }

    predicate HasAnswered()
      reads this
    {
      written || buffered || detached
    }

    // -------------------------------------------------------------- response

    /** WriteResponse on the engine's writer, if there is one. */
    method Send()
      modifies this`written, this`writes
      ensures Resp() == Sent(engine, old(Resp()))
    {
      written := true;
      if engine.hasWriter {
        writes := writes + 1;
      }
    }

    /** Blob and NoContent. */
    method WriteBlob()
      modifies this`written, this`writes, this`buffered
      ensures Resp() == Responded(engine, old(Resp()))
      ensures old(Owned(engine, Resp())) ==> Owned(engine, Resp())
      ensures HasAnswered() && (old(written || detached) ==> unchanged(this))
    {
      if Owned(engine, Resp()) {
        OperationsKeep(engine, Resp(), false);
      }
      if written || detached {
        return;
      }
      if bufferDepth > 0 {
        buffered := true;
        return;
      }
      Send();
    }

    method FlushResponse()
      modifies this`written, this`writes, this`buffered, this`bufferDepth
      ensures Resp() == Flushed(engine, old(Resp()))
      ensures old(Owned(engine, Resp())) ==> Owned(engine, Resp())
    {
      if Owned(engine, Resp()) {
        OperationsKeep(engine, Resp(), false);
      }
      if written || !buffered {
        return;
      }
      if bufferDepth > 0 {
        bufferDepth := bufferDepth - 1;
      }
      if bufferDepth > 0 {
        return;
      }
      buffered := false;
      WriteBlob();
    }

    method DiscardBufferedResponse()
      modifies this`buffered, this`bufferDepth
      ensures Resp() == Discarded(old(Resp()))
      ensures old(Owned(engine, Resp())) ==> Owned(engine, Resp())
    {
      if Owned(engine, Resp()) {
        OperationsKeep(engine, Resp(), false);
      }
      if bufferDepth > 0 {
        bufferDepth := bufferDepth - 1;
      }
      buffered := false;
    }

    /** StreamWriter: taking one marks the response written. */
    method TakeStreamWriter()
      modifies this`written, this`streamTakenOnly, this`streamTaken, this`stray
      ensures Resp() == StreamTaken(engine, old(Resp()))
      ensures old(Owned(engine, Resp())) ==> Owned(engine, Resp())
    {
      if Owned(engine, Resp()) {
        OperationsKeep(engine, Resp(), false);
      }
      if bufferDepth > 0 || !engine.streams {
        return;
      }
      if !written {
        streamTakenOnly := true;
        stray := if stray == Loose then Retaken else stray;
      }
      written, streamTaken := true, true;
    }

    method UseStreamWriter()
      modifies this`streamUsed, this`stray
      ensures Resp() == StreamUsed(old(Resp()))
      ensures old(Owned(engine, Resp())) ==> Owned(engine, Resp())
    {
      if Owned(engine, Resp()) {
        OperationsKeep(engine, Resp(), false);
      }
      if streamTaken {
        streamUsed := true;
        stray := if streamTakenOnly then stray else Loose;
      }
    }

    /** reclaimUnusedStreamWriter. */
    method Reclaim() returns (reclaimed: bool)
      modifies this`written, this`streamTakenOnly
      ensures reclaimed == Reclaimable(old(Resp())) && Resp() == Reclaimed(old(Resp()))
      ensures old(Owned(engine, Resp())) ==> Owned(engine, Resp())
      ensures reclaimed ==> !written
    {
      if Owned(engine, Resp()) {
        EndsKeep(engine, Resp());
      }
      if !streamTakenOnly || detached || streamUsed {
        return false;
      }
      streamTakenOnly, written := false, false;
      return true;
    }

    method HijackConnection(engineAgrees: bool)
      modifies this`written, this`hijacked
      ensures Resp() == Hijacked(engine, old(Resp()), engineAgrees)
      ensures old(Owned(engine, Resp())) ==> Owned(engine, Resp())
    {
      if Owned(engine, Resp()) {
        OperationsKeep(engine, Resp(), engineAgrees);
      }
      if detached || written || !engine.hasWriter || !engineAgrees {
        return;
      }
      written, hijacked := true, true;
    }

    method DetachContext()
      modifies this`detached, this`writesAtDetach
      ensures Resp() == Detached(old(Resp()))
      ensures old(Owned(engine, Resp())) ==> Owned(engine, Resp())
    {
      if Owned(engine, Resp()) {
        OperationsKeep(engine, Resp(), false);
      }
      if !detached {
        detached, writesAtDetach := true, writes;
      }
    }

    // -------------------------------------------------------------- chain

    method AbortChain()
      modifies this`index, this`aborted, this`log
      ensures Value() == Performed(engine, Abort, old(Value()))
      ensures Stopped(log) && (old(Quiet()) ==> Quiet())
    {
      if Quiet() {
        AbortKeeps(engine, Value());
      }
      index, aborted := ABORT_INDEX, true;
      log := log + [Aborted];
    }

    /** One operation of a handler on its Context. */
    method Perform(op: Op)
      requires !op.Next?
      modifies this
      ensures Value() == Performed(engine, op, old(Value()))
      ensures old(Quiet()) ==> Quiet()
    {
      if Quiet() {
        PerformedKeeps(engine, op, Value());
      }
      match op {
        case Respond => WriteBlob();
        case Buffer => bufferDepth := bufferDepth + 1;
        case Flush => FlushResponse();
        case Discard => DiscardBufferedResponse();
        case TakeStream => TakeStreamWriter();
        case UseStream => UseStreamWriter();
        case Hijack(agrees) => HijackConnection(agrees);
        case Detach => DetachContext();
        case Abort => AbortChain();
      }
    }

    /** Next: runs the chain on from the current handler. Handlers start in the order of the
        chain, and none after an Abort or after one returned nil on an answered request. */
    method NextHandler() returns (r: Outcome)
      requires index >= -1
      modifies this
      ensures Ran(Value(), r) == NextOf(engine, old(Value()))
      ensures old(Quiet()) ==> Quiet() && InOrder(log) && (r == Nil ==> Stopped(log) || Begun(log) == |handlers|)
      decreases Left(Value()), 1
    {
      KeepsOrder(engine, Value());
      index := index + 1;
      log := log + [Called];
      if index < |handlers| {
        r := RunFrom();
      } else {
        r := Nil;
      }
    }

    /** The loop of Next. */
    method RunFrom() returns (r: Outcome)
      requires 0 <= index < |handlers|
      modifies this
      ensures Ran(Value(), r) == Loop(engine, old(Value()))
      decreases Left(Value()), 4
    {
      ghost var s := Value();
      while index < |handlers|
        invariant 0 <= index && Left(Value()) <= Left(s)
        invariant Loop(engine, s) == if index < |handlers| then Loop(engine, Value()) else Ran(Value(), Nil)
        decreases Left(Value())
      {
        r := RunCurrent();
        if r != Nil {
          return;
        }
        if HasAnswered() {
          index := ABORT_INDEX;
          return Nil;
        }
        index := index + 1;
      }
      return Nil;
    }

    /** The handler at the index, from its start to its return. */
    method RunCurrent() returns (r: Outcome)
      requires 0 <= index < |handlers|
      modifies this
      ensures Ran(Value(), r) == Back(engine, old(Value()))
      decreases Left(Value()), 3
    {
      ghost var i := index;
      log := log + [Started(index)];
      r := RunHandler(handlers[index]);
      log := log + [Returned(i, r, AnswerOf(Resp()))];
    }

    /** Runs one handler's script; a panic of a nested Next goes through it unless it
        recovers. */
    method RunHandler(h: Handler) returns (r: Outcome)
      requires index >= -1
      modifies this
      ensures Ran(Value(), r) == Run(engine, old(Value()), h.ops, h.end)
      decreases Left(Value()), 2
    {
      ghost var s := Value();
      for i := 0 to |h.ops|
        invariant index >= -1 && Left(Value()) <= Left(s)
        invariant Run(engine, s, h.ops, h.end) == Run(engine, Value(), h.ops[i..], h.end)
      {
        assert h.ops[i..][0] == h.ops[i] && h.ops[i..][1..] == h.ops[i + 1..];
        if h.ops[i].Next? {
          r := NextHandler();
          if r == Panicked && !h.ops[i].recovers {
            return;
          }
        } else {
          Perform(h.ops[i]);
        }
      }
      return h.end;
    }

    // -------------------------------------------------------------- adapter

    method HandleError(onError: Option<Handler>) returns (r: Outcome)
      requires index >= -1
      modifies this
      ensures Ran(Value(), r) == ErrorHandled(engine, old(Value()), onError)
      ensures old(written) && !old(Reclaimable(Resp())) ==> r == Nil && Value() == old(Value())
      ensures old(Quiet()) ==>
        && Inv(engine, Value()) && (r != Panicked && engine.hasWriter && !detached ==> written)
        && (onError.None? && engine.hasWriter && !detached ==> Out(Resp()))
    {
      if Quiet() {
        ErrorHandledKeeps(engine, Value(), onError);
      }
      if written {
        var reclaimed := Reclaim();
        if !reclaimed {
          return Nil;
        }
      }
      if onError.Some? {
        r := RunHandler(onError.value);
        if r == Panicked {
          return;
        }
        if written {
          return Nil;
        }
      }
      if !detached && engine.hasWriter {
        Send();
      }
      return Nil;
    }

    method HandlePanic()
      modifies this`written, this`writes, this`streamTakenOnly
      ensures Resp() == AfterPanic(engine, old(Resp()))
      ensures old(Owned(engine, Resp())) ==>
        Owned(engine, Resp()) && (engine.hasWriter && !detached ==> Out(Resp()))
    {
      if Owned(engine, Resp()) {
        EndsKeep(engine, Resp());
      }
      if detached {
        return;
      }
      if written {
        var reclaimed := Reclaim();
        if !reclaimed {
          return;
        }
      }
      if engine.hasWriter {
        Send();
      }
    }

    method FlushCaptured()
      modifies this`written, this`writes, this`buffered, this`bufferDepth
      ensures Resp() == CapturedFlushed(engine, old(Resp()))
      ensures old(Owned(engine, Resp())) ==> Owned(engine, Resp()) && (!detached ==> written || !buffered)
    {
      if Owned(engine, Resp()) {
        EndsKeep(engine, Resp());
      }
      if buffered && !written {
        bufferDepth := 1;
        FlushResponse();
      }
    }

    method AnswerEmpty()
      modifies this`written, this`writes, this`streamTakenOnly
      ensures Resp() == EmptyAnswered(engine, old(Resp()))
      ensures old(Owned(engine, Resp())) ==>
        Owned(engine, Resp()) && (engine.hasWriter && !detached ==> AnsweredEmpty(engine, Resp()))
      ensures !engine.needsEmptyAnswer ==> writes == old(writes)
    {
      if Owned(engine, Resp()) {
        EndsKeep(engine, Resp());
      }
      if detached || !engine.hasWriter {
        return;
      }
      if written {
        var reclaimed := Reclaim();
        if !reclaimed {
          return;
        }
      }
      if engine.needsEmptyAnswer {
        Send();
      }
    }

    method AnswerUnmatched()
      modifies this`written, this`writes
      ensures Resp() == UnmatchedAnswered(engine, old(Resp()))
      ensures old(Owned(engine, Resp())) ==>
        Owned(engine, Resp()) && (engine.hasWriter && !detached ==> UnlessTaken(Resp()))
    {
      if Owned(engine, Resp()) {
        EndsKeep(engine, Resp());
      }
      if !written && !detached && engine.hasWriter {
        Send();
      }
    }

    /** A fresh chain, the error handler if it failed, and the flush that follows. */
    method RunChain(chain: Chain, onError: Option<Handler>) returns (r: Outcome)
      requires !aborted
      modifies this
      ensures Ran(Value(), r) == ChainServed(engine, old(Resp()), chain, onError)
      ensures old(Owned(engine, Resp())) ==>
        && Inv(engine, Value()) && InOrder(log)
        && (r != Panicked && !detached ==> written || !buffered)
        && (r == Failed && engine.hasWriter && !detached ==> written)
    {
      if Owned(engine, Resp()) {
        ChainServedKeeps(engine, Resp(), chain, onError);
        DisciplinedInOrder(ChainServed(engine, Resp(), chain, onError).s.log, |chain|);
      }
      r := StartChain(chain);
      r := EndChain(r, onError);
    }

    /** Puts the chain on the Context and runs it. */
    method StartChain(chain: Chain) returns (r: Outcome)
      requires !aborted
      modifies this
      ensures index >= -1 && Ran(Value(), r) == NextOf(engine, Loaded(chain, old(Resp())))
    {
      handlers, index, log := chain, -1, [];
      r := NextHandler();
    }

    /** The error handler if the chain failed, and the flush. */
    method EndChain(outcome: Outcome, onError: Option<Handler>) returns (r: Outcome)
      requires index >= -1
      modifies this
      ensures Ran(Value(), r) == ChainEnded(engine, Ran(old(Value()), outcome), onError)
    {
      if outcome == Panicked {
        return Panicked;
      }
      if outcome == Failed {
        var p := HandleError(onError);
        if p == Panicked {
          return p;
        }
      }
      FlushCaptured();
      return outcome;
    }

    method ServeRoute(route: Route, onError: Option<Handler>) returns (exit: Exit)
      requires !aborted
      modifies this
      ensures Done(Value(), exit) == RouteServed(engine, old(Resp()), route, onError)
      ensures old(Owned(engine, Resp())) ==> Promise(engine, Done(Value(), exit), route.Matched?)
    {
      if Owned(engine, Resp()) {
        RouteServedKeeps(engine, Resp(), route, onError);
      }
      var r := RunChain(route.chain, onError);
      if r == Panicked {
        HandlePanic();
        return AtPanic;
      }
      if route.Matched? {
        AnswerEmpty();
      } else {
        AnswerUnmatched();
      }
      return AtEnd;
    }

    /** HandleStream on a fresh Context. */
    method HandleStream(pre: Chain, route: Route, onError: Option<Handler>) returns (exit: Exit)
      requires !aborted && Resp() == Unanswered()
      modifies this
      ensures Done(Value(), exit) == Served(engine, pre, route, onError)
      ensures Sensible(engine) ==> Promise(engine, Done(Value(), exit), route.Matched?)
      ensures exit == AtEnd ==> handlers == route.chain && (route.chain != [] ==> [Called, Started(0)] <= log)
    {
      if Sensible(engine) {
        OneAnswer(engine, pre, route, onError);
      }
      RouteIsServed(engine, pre, route, onError);
      if |pre| > 0 {
        var r := RunChain(pre, onError);
        if r == Panicked {
          HandlePanic();
          return AtPanic;
        }
        if r == Failed || aborted || HasAnswered() {
          return AtPre;
        }
      }
      exit := ServeRoute(route, onError);
    }
  }

  lemma RouteIsServed(e: Engine, pre: Chain, route: Route, onError: Option<Handler>)
    ensures var d := Served(e, pre, route, onError);
      d.exit == AtEnd ==> d.s.chain == route.chain && (route.chain != [] ==> [Called, Started(0)] <= d.s.log)
  {
    OnlyPassed(e, pre, route, onError);
    if Served(e, pre, route, onError).exit == AtEnd {
      RouteRuns(e, pre, route, onError);
    }
  }

  lemma KeepsOrder(e: Engine, s: State)
    requires s.index >= -1
    ensures Inv(e, s) && !Due(s.log, |s.chain|) ==>
      var n := NextOf(e, s);
      && Inv(e, n.s) && !Due(n.s.log, |n.s.chain|) && InOrder(n.s.log)
      && (n.outcome == Nil ==> Stopped(n.s.log) || Begun(n.s.log) == |s.chain|)
  {
    if Inv(e, s) && !Due(s.log, |s.chain|) {
      NextKeeps(e, s);
      DisciplinedInOrder(NextOf(e, s).s.log, |s.chain|);
    }
  }
}
