/** Which error a shutdown returns (server.go): what Engine.Shutdown told it, or else its
    context's error if that ended before Listen had returned. */
module Results {
  import opened Wrappers
  import opened Lifecycle

  /** The engine's error comes first. */
  function OrContext(e: Error): (f: Error) {
    if e == Fine then ContextError else e
  }

  /** The error of a shutdown that ended like this, given what the engine told it. */
  predicate EndTells(err: Error, outcome: Outcome, told: Option<Error>) {
    match outcome
    case Bare => told == None && err == Fine
    case Drained => told == Some(err)
    case CutShort => told.Some? && err == OrContext(told.value)
    case Joined => told == None
  }

  predicate BodyTells(b: Body, told: Option<Error>) {
    match b
    case Latch(e) => told == Some(e)
    case Cancel(e, _) => told == Some(e)
    case Poll(e) => told == Some(e)
    case Block(e) => told == Some(e)
    case Hook(e, drained) => told.Some? && e == if drained then told.value else OrContext(told.value)
    case Over(e, outcome) => EndTells(e, outcome, told) && outcome != Joined
    case _ => told == None
  }

  /** A call that found the server started does not take it for one that is not. */
  predicate Taken(g: Shared, d: Direct) {
    d.started ==>
      && g.engine
      && match d.at
         case Run(b) => !b.LatchBare? && !b.CancelBare? && !(b.Over? && b.outcome == Bare)
         case Close(_, outcome) => outcome != Bare
         case Back(_, outcome) => outcome != Bare
         case _ => true
  }

  predicate CallTells(d: Direct) {
    match d.at
    case Run(b) => BodyTells(b, d.told)
    case Close(e, outcome) => EndTells(e, outcome, d.told) && outcome != Joined
    case Back(e, outcome) => EndTells(e, outcome, d.told)
    case _ => d.told == None
  }

  predicate DirectTells(g: Shared, d: Direct) {
    Taken(g, d) && CallTells(d)
  }

  predicate WatcherTells(g: Shared, w: Watcher, h: History) {
    && (h.ended.Some? ==> h.ended.value != Bare && h.ended.value != Joined
                          && EndTells(g.watcherErr, h.ended.value, h.told))
    && (g.claimCloses > 0 ==> h.ended.Some?)
    && match w
       case Run(b) => h.ended.None? && BodyTells(b, h.told)
       case Signal => h.ended.Some?
       case Leave => h.ended.None? ==> h.told.None?
       case Gone => true
       case _ => h.ended.None? && h.told.None?
  }

  ghost predicate Tells(s: State) {
    && WatcherTells(s.g, s.watcher, s.past)
    && forall i {:trigger s.directs[i]} :: 0 <= i < |s.directs| ==> DirectTells(s.g, s.directs[i])
  }

  lemma BodyStep(g: Shared, b: Body, expired: bool, err: Error, late: bool, told: Option<Error>)
    requires BodyTells(b, told) && BodyCan(g, b, expired)
    ensures BodyTells(BodyNext(g, b, expired, err, late), Told(b, err, told))
  {
  }

  lemma DirectTellsOn(g: Shared, d: Direct, i: nat, err: Error, late: bool)
    requires DirectTells(g, d) && DirectCan(g, d)
    ensures DirectTells(DirectEffect(g, d, i), DirectNext(g, d, i, err, late))
  {
    TakenOn(g, d, i, err, late);
    CallTellsOn(g, d, i, err, late);
  }

  lemma TakenOn(g: Shared, d: Direct, i: nat, err: Error, late: bool)
    requires Taken(g, d) && DirectCan(g, d)
    ensures Taken(DirectEffect(g, d, i), DirectNext(g, d, i, err, late))
  {
  }

  lemma CallTellsOn(g: Shared, d: Direct, i: nat, err: Error, late: bool)
    requires CallTells(d) && DirectCan(g, d)
    ensures CallTells(DirectNext(g, d, i, err, late))
  {
    if d.at.Run? && !d.at.body.Over? {
      BodyStep(g, d.at.body, d.expired, err, late, d.told);
    }
  }

  lemma WatcherTellsOn(g: Shared, w: Watcher, h: History, err: Error, late: bool)
    requires WatcherTrue(g, w) && WatcherTells(g, w, h) && WatcherCan(g, w)
    ensures WatcherTells(WatcherEffect(g, w), WatcherNext(g, w, err, late), WatcherPast(h, w, err))
  {
    if w.Run? && !w.body.Over? {
      BodyStep(g, w.body, g.watcherExpired, err, late, h.told);
    }
  }

  /** What others do leaves a call's history alone. */
  lemma DirectsStay(g: Shared, h: Shared, directs: seq<Direct>)
    requires g.engine ==> h.engine
    requires forall i {:trigger directs[i]} :: 0 <= i < |directs| ==> DirectTells(g, directs[i])
    ensures forall i {:trigger directs[i]} :: 0 <= i < |directs| ==> DirectTells(h, directs[i])
  {
    forall i {:trigger directs[i]} | 0 <= i < |directs| ensures DirectTells(h, directs[i]) {
      assert DirectTells(g, directs[i]);
    }
  }

  lemma WatcherStays(g: Shared, h: Shared, w: Watcher, p: History)
    requires WatcherTells(g, w, p) && h.watcherErr == g.watcherErr && h.claimCloses == g.claimCloses
    ensures WatcherTells(h, w, p)
  {
  }

  lemma DirectKeepsTells(s: State, k: nat, err: Error, late: bool)
    requires Tells(s) && k < |s.directs| && DirectCan(s.g, s.directs[k])
    ensures Tells(After(s, DirectStep(k, err, late)))
  {
    var t := After(s, DirectStep(k, err, late));
    assert DirectTells(s.g, s.directs[k]);
    DirectTellsOn(s.g, s.directs[k], k, err, late);
    DirectsStay(s.g, t.g, s.directs);
    WatcherStays(s.g, t.g, s.watcher, s.past);
  }

  lemma WatcherKeepsTells(s: State, err: Error, late: bool)
    requires Inv(s) && Tells(s) && WatcherCan(s.g, s.watcher)
    ensures Tells(After(s, WatcherStep(err, late)))
  {
    var t := After(s, WatcherStep(err, late));
    WatcherTellsOn(s.g, s.watcher, s.past, err, late);
    DirectsStay(s.g, t.g, s.directs);
  }

  lemma StartKeepsTells(s: State)
    requires Inv(s) && Tells(s) && StartCan(s.g, s.start)
    ensures Tells(After(s, StartStep))
  {
    var t := After(s, StartStep);
    DirectsStay(s.g, t.g, s.directs);
    WatcherStays(s.g, t.g, s.watcher, s.past);
  }

  lemma OthersKeepTells(s: State, m: Move)
    requires Inv(s) && Tells(s) && Can(s, m) && !OfProgram(m)
    ensures Tells(After(s, m))
  {
    var t := After(s, m);
    DirectsStay(s.g, t.g, s.directs);
    WatcherStays(s.g, t.g, s.watcher, s.past);
    if m.Expire? {
      assert DirectTells(s.g, s.directs[m.i]);
    }
  }

  lemma KeepsTells(s: State, m: Move)
    requires Inv(s) && Tells(s) && Can(s, m)
    ensures Tells(After(s, m))
  {
    match m
    case StartStep => StartKeepsTells(s);
    case WatcherStep(err, late) => WatcherKeepsTells(s, err, late);
    case DirectStep(i, err, late) => DirectKeepsTells(s, i, err, late);
    case _ => OthersKeepTells(s, m);
  }

  lemma {:induction false} RunTells(s: State, ms: seq<Move>)
    requires Inv(s) && Tells(s) && Runs(s, ms)
    ensures Tells(Reached(s, ms))
    decreases |ms|
  {
    if ms != [] {
      Keeps(s, ms[0]);
      KeepsTells(s, ms[0]);
      RunTells(After(s, ms[0]), ms[1..]);
    }
  }

  /** A step of a call in Engine.Shutdown records what that returned, and no other step of any
      thread changes the record. */
  lemma EngineTells(s: State, m: Move, i: nat)
    requires Can(s, m) && i < |s.directs|
    ensures var t := After(s, m);
      && i < |t.directs|
      && t.directs[i].told == (if m.DirectStep? && m.i == i && s.directs[i].at == Call.Run(Engine) then Some(m.err)
                               else s.directs[i].told)
      && t.past.told == (if m.WatcherStep? && s.watcher == Watcher.Run(Engine) then Some(m.err) else s.past.told)
  {
  }

  /** In every run a direct Shutdown call that has returned returned what Engine.Shutdown told
      it; if that was no error and the call's context ended before Listen had returned, the
      context's error. On a server that was started when it entered it asked the engine,
      unless it joined the watcher. */
  lemma DirectResult(watching: bool, ms: seq<Move>, i: nat)
    requires Runs(Initial(watching), ms) && i < |Reached(Initial(watching), ms).directs|
    requires Reached(Initial(watching), ms).directs[i].at.Back?
    ensures var d := Reached(Initial(watching), ms).directs[i];
      && (d.at.outcome == Drained ==> d.told == Some(d.at.err))
      && (d.at.outcome == CutShort ==>
            d.told.Some? && d.at.err == if d.told.value == Fine then ContextError else d.told.value)
      && (d.started ==> d.at.outcome != Bare) && (d.at.outcome == Bare ==> d.at.err == Fine)
  {
    InvInitial(watching);
    RunTells(Initial(watching), ms);
  }

  /** So did the watcher's shutdown, whose error the calls that joined it return. */
  lemma WatcherResult(watching: bool, ms: seq<Move>)
    requires Runs(Initial(watching), ms) && Reached(Initial(watching), ms).g.claimCloses > 0
    ensures var s := Reached(Initial(watching), ms);
      && s.past.ended.Some? && s.past.told.Some?
      && (s.past.ended.value == Drained || s.past.ended.value == CutShort)
      && s.g.watcherErr == if s.past.ended.value == CutShort && s.past.told.value == Fine then ContextError
                           else s.past.told.value
  {
    InvInitial(watching);
    RunTells(Initial(watching), ms);
  }
}
