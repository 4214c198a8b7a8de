/** What Start and Shutdown promise in every run of the lifecycle (server.go). */
module Shutdowns {
  import opened Wrappers
  import opened Lifecycle
  import opened Results

  /** No two parties shut the server down at once, no channel is closed twice, and nobody
      runs the hooks twice. */
  lemma NothingTwice(watching: bool, ms: seq<Move>, i: nat)
    requires Runs(Initial(watching), ms)
    ensures var s := Reached(Initial(watching), ms);
      && !(s.g.direct && s.g.claimed)
      && s.g.listenCloses <= 1 && s.g.directCloses <= 1 && s.g.claimCloses <= 1 && s.g.watcherCloses <= 1
      && s.g.watcherHooked <= 1
      && (i < |s.directs| ==> s.directs[i].hooked <= 1 && s.g.watcherHooked + s.directs[i].hooked <= 1)
  {
    InvInitial(watching);
    RunKeeps(Initial(watching), ms);
    var s := Reached(Initial(watching), ms);
    if i < |s.directs| {
      assert DirectTrue(s.g, s.directs[i], i);
    }
  }

  /** No shutdown leaves Listen parked: in every run, once a shutdown is latched and Start has
      published the context that Listen runs under, or was to, that context is cancelled, or
      the one shutdown that took its CancelFunc is about to call it. */
  lemma LatchCancels(watching: bool, ms: seq<Move>)
    requires Runs(Initial(watching), ms)
    requires var s := Reached(Initial(watching), ms); s.g.gate.latched && Stage(s.start) >= 4
    ensures var s := Reached(Initial(watching), ms); !s.g.gate.published && (s.g.gate.cancelled || Pending(s))
  {
    InvInitial(watching);
    RunKeeps(Initial(watching), ms);
  }

  /** What a Shutdown call's return means. A call that found the watcher's claim returns the
      watcher's result, or its own context's error; any other returns what Engine.Shutdown
      told it, or its context's error if that was none and the wait for Listen was cut
      short. A nil error on a server that was started says that Listen has returned and the
      hooks have run once. */
  lemma ShutdownResult(watching: bool, ms: seq<Move>, i: nat)
    requires Runs(Initial(watching), ms)
    requires i < |Reached(Initial(watching), ms).directs|
    requires Reached(Initial(watching), ms).directs[i].at.Back?
    ensures var s := Reached(Initial(watching), ms);
      var d := s.directs[i];
      && (d.at.outcome == Joined ==>
            (d.at.err == s.g.watcherErr && s.g.claimCloses == 1 && s.g.watcherHooked == 1)
            || (d.at.err == ContextError && d.expired))
      && (d.at.outcome == Bare ==> d.at.err == Fine && d.hooked == 0)
      && (d.at.err == Fine && d.at.outcome != Bare ==>
            s.g.listenCloses == 1 && s.g.watcherHooked + d.hooked == 1)
      && (d.at.outcome == Drained || d.at.outcome == CutShort ==> d.hooked == 1)
      && (d.at.outcome == Drained ==> d.told == Some(d.at.err))
      && (d.at.outcome == CutShort ==> d.told.Some? && d.at.err == OrContext(d.told.value))
      && (d.started ==> d.at.outcome != Bare)
  {
    InvInitial(watching);
    RunKeeps(Initial(watching), ms);
    var s := Reached(Initial(watching), ms);
    assert DirectTrue(s.g, s.directs[i], i);
    DirectResult(watching, ms, i);
  }

  /** The first direct call has returned, hooks included if there was a server. */
  ghost predicate FirstIsBack(s: State) {
    && s.g.first.Some? && s.g.first.value < |s.directs|
    && var d := s.directs[s.g.first.value];
       d.at.Back? && d.at.outcome != Joined && d.hooked == (if d.at.outcome == Bare then 0 else 1)
  }

  /** A direct call claimed the shutdown only after Start had looked for one. */
  predicate Missed(s: State) {
    s.g.direct && s.g.seen.None?
  }

  /** When Start has returned: Listen has, the watcher has, and the shutdown that a direct
      call or a cancelled context began before Listen returned is over, hooks included —
      unless a direct call slipped in between Start's look for one and the watcher's
      claim. */
  lemma StartReturnsLast(watching: bool, ms: seq<Move>)
    requires Runs(Initial(watching), ms) && Reached(Initial(watching), ms).start.Returned?
    ensures var s := Reached(Initial(watching), ms);
      && s.g.listenCloses == 1
      && (watching ==> s.watcher.Gone?)
      && (s.g.directAtReturn ==> FirstIsBack(s))
      && (s.g.parentAtReturn && !Missed(s) ==> s.g.watcherHooked == 1 || FirstIsBack(s))
  {
    InvInitial(watching);
    RunKeeps(Initial(watching), ms);
    var s := Reached(Initial(watching), ms);
    Watching(Initial(watching), ms);
    if s.g.first.Some? {
      assert DirectTrue(s.g, s.directs[s.g.first.value], s.g.first.value);
    }
  }

  lemma {:induction false} Watching(s: State, ms: seq<Move>)
    requires Runs(s, ms)
    ensures Reached(s, ms).g.watching == s.g.watching
    decreases |ms|
  {
    if ms != [] {
      Watching(After(s, ms[0]), ms[1..]);
    }
  }

  // ---------------------------------------------------------------- where the promise ends

  lemma {:induction false} Extend(s: State, ms: seq<Move>, m: Move)
    requires Runs(s, ms) && Can(Reached(s, ms), m)
    ensures Runs(s, ms + [m]) && Reached(s, ms + [m]) == After(Reached(s, ms), m)
    decreases |ms|
  {
    if ms == [] {
      assert ms + [m] == [m] && [m][1..] == [];
    } else {
      assert (ms + [m])[1..] == ms[1..] + [m];
      Extend(After(s, ms[0]), ms[1..], m);
    }
  }

  /** A server whose caller cancelled its context: Listen has returned, and Start found no
      direct call to wait for. */
  function Unclaimed(): (s: State) {
    var g := Initial(true).g;
    State(g.(engine := true, parentDone := true, gate := Gate(true, false, true, None),
             listenCloses := 1, parentAtReturn := true),
          Holding, Select, [], History(None, None))
  }

  lemma Then(s: State, ms: seq<Move>, m: Move) returns (ns: seq<Move>)
    requires Runs(s, ms) && Can(Reached(s, ms), m)
    ensures Runs(s, ns) && Reached(s, ns) == After(Reached(s, ms), m)
  {
    Extend(s, ms, m);
    ns := ms + [m];
  }

  lemma ReachesUnclaimed() returns (ms: seq<Move>)
    ensures Runs(Initial(true), ms) && Reached(Initial(true), ms) == Unclaimed()
  {
    var s := Initial(true);
    ms := [];
    ms := Then(s, ms, CallStart);
    ms := Then(s, ms, StartStep);
    ms := Then(s, ms, StartStep);
    ms := Then(s, ms, CancelParent);
    ms := Then(s, ms, StartStep);
    ms := Then(s, ms, StartStep);
    ms := Then(s, ms, StartStep);
    ms := Then(s, ms, StartStep);
  }

  /** Then a direct call claims the shutdown: the watcher leaves it alone, and Start returns
      while that call has not even begun to shut down. */
  lemma StartCanReturnFirst() returns (ms: seq<Move>)
    ensures Runs(Initial(true), ms)
    ensures var t := Reached(Initial(true), ms);
      && t.start.Returned? && t.g.parentAtReturn && Missed(t)
      && t.g.watcherHooked == 0 && t.directs == [Direct(Call.Run(Load), false, 0, true, None)]
  {
    var s := Initial(true);
    ms := ReachesUnclaimed();
    ms := Then(s, ms, CallShutdown);
    ms := Then(s, ms, DirectStep(0, Fine, false));
    ms := Then(s, ms, WatcherStep(Fine, false));
    ms := Then(s, ms, WatcherStep(Fine, false));
    ms := Then(s, ms, WatcherStep(Fine, false));
    ms := Then(s, ms, WatcherStep(Fine, false));
    ms := Then(s, ms, StartStep);
    ms := Then(s, ms, StartStep);
  }

  /** A started server with two direct calls. */
  function Two(gate: Gate, p: Start, first: Call, hooked: nat, second: Call): (s: State) {
    State(Initial(false).g.(engine := true, gate := gate, direct := true, first := Some(0),
                            listenCloses := if p.Listening? then 0 else 1,
                            seen := if p.Listening? then None else Some(0), directAtReturn := !p.Listening?),
          p, Unborn,
          [Direct(first, false, hooked, true, ToldAt(first)),
           Direct(second, false, 0, !second.Enter?, ToldAt(second))],
          History(None, None))
  }

  /** What Engine.Shutdown told a call that stands here, when it had no error. */
  function ToldAt(c: Call): (t: Option<Error>) {
    if c.Run? && !c.body.Load? && !c.body.Engine? then Some(Fine) else None
  }

  lemma TwoCalls() returns (ms: seq<Move>)
    ensures Runs(Initial(false), ms)
    ensures Reached(Initial(false), ms) == Two(Gate(true, false, false, None), Listening, Call.Run(Engine), 0, Enter)
  {
    var s := Initial(false);
    ms := [];
    ms := Then(s, ms, CallStart);
    ms := Then(s, ms, StartStep);
    ms := Then(s, ms, StartStep);
    ms := Then(s, ms, CallShutdown);
    ms := Then(s, ms, DirectStep(0, Fine, false));
    ms := Then(s, ms, DirectStep(0, Fine, false));
    ms := Then(s, ms, CallShutdown);
  }

  /** The second call stops Listen while the first is still in Engine.Shutdown. */
  lemma SecondLatches() returns (ms: seq<Move>)
    ensures Runs(Initial(false), ms)
    ensures Reached(Initial(false), ms)
         == Two(Gate(true, false, false, None), Listening, Call.Run(Engine), 0, Call.Run(Latch(Fine)))
  {
    var s := Initial(false);
    ms := TwoCalls();
    ms := Then(s, ms, DirectStep(1, Fine, false));
    ms := Then(s, ms, DirectStep(1, Fine, false));
    ms := Then(s, ms, DirectStep(1, Fine, false));
  }

  lemma SecondStops() returns (ms: seq<Move>)
    ensures Runs(Initial(false), ms)
    ensures Reached(Initial(false), ms) == Two(TakenBySecond(), Listening, Call.Run(Engine), 0, Call.Run(Poll(Fine)))
  {
    var s := Initial(false);
    ms := SecondLatches();
    ms := Then(s, ms, DirectStep(1, Fine, false));
    ms := Then(s, ms, DirectStep(1, Fine, false));
  }

  function TakenBySecond(): (g: Gate) {
    Gate(false, true, true, Some(ByDirect(1)))
  }

  lemma StartWaitsForFirst() returns (ms: seq<Move>)
    ensures Runs(Initial(false), ms)
    ensures Reached(Initial(false), ms) == Two(TakenBySecond(), Holding, Call.Run(Engine), 0, Call.Run(Poll(Fine)))
  {
    var s := Initial(false);
    ms := SecondStops();
    ms := Then(s, ms, StartStep);
    ms := Then(s, ms, StartStep);
    ms := Then(s, ms, StartStep);
    ms := Then(s, ms, StartStep);
  }

  lemma FirstFollows() returns (ms: seq<Move>)
    ensures Runs(Initial(false), ms)
    ensures Reached(Initial(false), ms) == Two(TakenBySecond(), Holding, Call.Run(Poll(Fine)), 0, Call.Run(Poll(Fine)))
  {
    var s := Initial(false);
    ms := StartWaitsForFirst();
    ms := Then(s, ms, DirectStep(0, Fine, false));
    ms := Then(s, ms, DirectStep(0, Fine, false));
    ms := Then(s, ms, DirectStep(0, Fine, false));
  }

  lemma FirstIsOver() returns (ms: seq<Move>)
    ensures Runs(Initial(false), ms)
    ensures Reached(Initial(false), ms) ==
      Two(TakenBySecond(), Holding, Call.Run(Over(Fine, Drained)), 1, Call.Run(Poll(Fine)))
  {
    var s := Initial(false);
    ms := FirstFollows();
    ms := Then(s, ms, DirectStep(0, Fine, false));
    ms := Then(s, ms, DirectStep(0, Fine, false));
  }

  /** Start waits for the first direct call only: the call that stopped the server can
      still have its hooks to run when Start returns. */
  lemma LaterCallOutlivesStart() returns (ms: seq<Move>)
    ensures Runs(Initial(false), ms)
    ensures var t := Reached(Initial(false), ms);
      && t.start.Returned? && t.g.gate.taker == Some(ByDirect(1)) && FirstIsBack(t)
      && |t.directs| == 2 && t.directs[1] == Direct(Call.Run(Poll(Fine)), false, 0, true, Some(Fine))
  {
    var s := Initial(false);
    ms := FirstIsOver();
    ms := Then(s, ms, DirectStep(0, Fine, false));
    ms := Then(s, ms, DirectStep(0, Fine, false));
    ms := Then(s, ms, StartStep);
    ms := Then(s, ms, StartStep);
  }
}
