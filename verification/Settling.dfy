/** No deadlock and no endless run: Start, the watcher and the Shutdown calls always come to
    rest, and once a shutdown is latched they come to rest with everything returned
    (server.go, the deadlock argument above waitListen). */
module Settling {
  import opened Wrappers
  import opened Lifecycle

  /** Every call is over, except a Start that serves: its Listen runs under a context that
      nobody cancelled. */
  ghost predicate AtRest(s: State) {
    && (s.start.Idle? || s.start.Returned? ||
        (s.start.Listening? && !ListenCancelled(s.g) && !s.g.gate.latched))
    && (s.watcher.Unborn? || s.watcher.Gone? || (s.watcher.Select? && s.start.Listening?))
    && forall i :: 0 <= i < |s.directs| ==> s.directs[i].at.Back?
  }

  const ANY := WatcherStep(Fine, false)

  /** A latched shutdown reaches Listen. */
  lemma LatchAdvances(s: State) returns (m: Move)
    requires Inv(s) && s.g.gate.latched && s.g.engine && s.g.listenCloses == 0
    ensures OfProgram(m) && Can(s, m)
  {
    m := StartStep;
    if s.start.Listening? && !ListenCancelled(s.g) {
      assert Pending(s);
      m := if s.g.gate.taker == Some(ByWatcher) then ANY else DirectStep(s.g.gate.taker.value.i, Fine, false);
    }
  }

  lemma DirectAdvances(s: State, i: nat) returns (m: Move)
    requires Inv(s) && i < |s.directs| && !s.directs[i].at.Back?
    ensures OfProgram(m) && Can(s, m)
  {
    assert DirectTrue(s.g, s.directs[i], i);
    m := DirectStep(i, Fine, false);
    if s.directs[i].at.Run? && s.directs[i].at.body.Block? && !Can(s, m) {
      m := LatchAdvances(s);
    } else if s.directs[i].at.Join? && !Can(s, m) {
      m := WatcherAdvances(s);
    }
  }

  lemma WatcherAdvances(s: State) returns (m: Move)
    requires Inv(s) && s.g.watching && Stage(s.start) >= 2 && !s.watcher.Gone?
    requires s.watcher.Select? ==> s.g.listenCloses > 0
    ensures OfProgram(m) && Can(s, m)
  {
    m := ANY;
    if s.watcher.Run? && s.watcher.body.Block? && !Can(s, m) {
      m := LatchAdvances(s);
    }
  }

  lemma StartAdvances(s: State) returns (m: Move)
    requires Inv(s) && !s.start.Idle? && !s.start.Returned?
    requires s.start.Listening? ==> ListenCancelled(s.g) || s.g.gate.latched
    ensures OfProgram(m) && Can(s, m)
  {
    m := StartStep;
    if !Can(s, m) {
      if s.start.Listening? {
        m := LatchAdvances(s);
      } else if s.start.Holding? {
        m := DirectAdvances(s, s.g.first.value);
      } else {
        m := WatcherAdvances(s);
      }
    }
  }

  /** Whoever waits, waits for someone who can go on. */
  lemma NoDeadlock(s: State) returns (m: Move)
    requires Inv(s) && !AtRest(s)
    ensures OfProgram(m) && Can(s, m)
  {
    if i :| 0 <= i < |s.directs| && !s.directs[i].at.Back? {
      m := DirectAdvances(s, i);
    } else if !s.start.Idle? && !s.start.Returned?
              && (s.start.Listening? ==> ListenCancelled(s.g) || s.g.gate.latched) {
      m := StartAdvances(s);
    } else {
      m := WatcherAdvances(s);
    }
  }

  // ---------------------------------------------------------------- termination

  function BodyRank(b: Body): (n: nat) {
    match b
    case Load => 8
    case Engine => 7
    case Latch(_) => 6
    case Cancel(_, _) => 5
    case Poll(_) => 4
    case Block(_) => 3
    case Hook(_, _) => 2
    case LatchBare => 3
    case CancelBare(_) => 2
    case Over(_, _) => 1
  }

  function DirectRank(d: Direct): (n: nat) {
    match d.at
    case Enter => 11
    case Join => 1
    case Run(b) => 2 + BodyRank(b)
    case Close(_, _) => 1
    case Back(_, _) => 0
  }

  function WatcherRank(w: Watcher): (n: nat) {
    match w
    case Unborn => 0
    case Select => 14
    case Woken => 13
    case Claim => 12
    case Run(b) => 2 + BodyRank(b)
    case Signal => 2
    case Leave => 1
    case Gone => 0
  }

  function StartRank(p: Start): (n: nat) {
    10 - Stage(p) + if Stage(p) < 2 then 14 else 0
  }

  function DirectsRank(ds: seq<Direct>): (n: nat) {
    if ds == [] then 0 else DirectRank(ds[0]) + DirectsRank(ds[1..])
  }

  function Rank(s: State): (n: nat) {
    StartRank(s.start) + WatcherRank(s.watcher) + DirectsRank(s.directs)
  }

  lemma {:induction false} DirectsRankAt(ds: seq<Direct>, i: nat, d: Direct)
    requires i < |ds|
    ensures DirectsRank(ds[i := d]) == DirectsRank(ds) - DirectRank(ds[i]) + DirectRank(d)
  {
    if i == 0 {
      assert ds[i := d][1..] == ds[1..];
    } else {
      assert ds[i := d][1..] == ds[1..][i - 1 := d];
      DirectsRankAt(ds[1..], i - 1, d);
    }
  }

  lemma BodyLowersRank(g: Shared, b: Body, expired: bool, err: Error, late: bool)
    requires BodyCan(g, b, expired)
    ensures BodyRank(BodyNext(g, b, expired, err, late)) < BodyRank(b)
  {
  }

  lemma WatcherLowersRank(g: Shared, w: Watcher, err: Error, late: bool)
    requires WatcherCan(g, w)
    ensures WatcherRank(WatcherNext(g, w, err, late)) < WatcherRank(w)
  {
    if w.Run? && !w.body.Over? {
      BodyLowersRank(g, w.body, g.watcherExpired, err, late);
    }
  }

  lemma DirectLowersRank(g: Shared, d: Direct, i: nat, err: Error, late: bool)
    requires DirectCan(g, d)
    ensures DirectRank(DirectNext(g, d, i, err, late)) < DirectRank(d)
  {
    if d.at.Run? && !d.at.body.Over? {
      BodyLowersRank(g, d.at.body, d.expired, err, late);
    }
  }

  lemma StartLowersRank(s: State)
    requires Inv(s) && StartCan(s.g, s.start)
    ensures Rank(After(s, StartStep)) < Rank(s)
  {
  }

  lemma StepLowersRank(s: State, m: Move)
    requires Inv(s) && OfProgram(m) && Can(s, m)
    ensures Rank(After(s, m)) < Rank(s)
  {
    match m
    case StartStep => StartLowersRank(s);
    case WatcherStep(err, late) => WatcherLowersRank(s.g, s.watcher, err, late);
    case DirectStep(i, err, late) =>
      var d := s.directs[i];
      DirectLowersRank(s.g, d, i, err, late);
      DirectsRankAt(s.directs, i, DirectNext(s.g, d, i, err, late));
  }

  /** Without new calls and cancellations, a run is at most as long as its start's rank. */
  lemma {:induction false} RunsEnd(s: State, ms: seq<Move>)
    requires Inv(s) && Runs(s, ms)
    requires forall i :: 0 <= i < |ms| ==> OfProgram(ms[i])
    ensures |ms| + Rank(Reached(s, ms)) <= Rank(s)
    decreases |ms|
  {
    if ms != [] {
      StepLowersRank(s, ms[0]);
      Keeps(s, ms[0]);
      RunsEnd(After(s, ms[0]), ms[1..]);
    }
  }

  /** From any reachable state the program comes to rest; if a shutdown is latched or the
      caller's context is cancelled by then, a started server's Start has returned, and
      so has every Shutdown call. */
  lemma ComesToRest(s: State, ms: seq<Move>)
    requires Inv(s) && Runs(s, ms)
    requires forall m :: OfProgram(m) ==> !Can(Reached(s, ms), m)
    ensures var t := Reached(s, ms);
      && AtRest(t)
      && (ListenCancelled(t.g) || t.g.gate.latched ==> t.start.Idle? || t.start.Returned?)
  {
    RunKeeps(s, ms);
    if !AtRest(Reached(s, ms)) {
      var m := NoDeadlock(Reached(s, ms));
    }
  }
}
