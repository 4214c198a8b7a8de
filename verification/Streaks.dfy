/** The classifier's counters under concurrency (router.go): any number of requests on one
    route check, run and record at once, each atomic operation a step of its own. */
module Streaks {
  import opened Adaptive

  /** Where a request stands: in adaptiveLearning between its two loads, running or about to
      make the first of its stores, or further in recordInlineRun or promoteRouteImmediate. */
  datatype Stage =
    | Checking
    | Running      // about to clear the other streak
    | Count        // about to add to its streak
    | Clamp        // counted to 256 or more, about to store 256
    | Decide       // about to settle or promote the route
    | Finished

  /** A request and the event its run will be. */
  datatype Run = Run(event: Event, at: Stage)

  datatype State = State(fast: int, slow: int, settled: bool, promoted: bool, runs: seq<Run>)

  function Zero(): (s: State) {
    State(0, 0, false, false, [])
  }

  datatype Move =
    | Begin(event: Event)    // adaptiveLearning finds the route not settled
    | Step(i: nat)
    | Reopen
    | Expire                 // isPromoted drops an old promotion
    | ClearSlow              // and then clears the slow streak

  predicate Can(s: State, m: Move) {
    match m
    case Begin(v) => !s.settled && (v.Fast? || v.Slow? || v.Blocked?)
    case Step(i) => i < |s.runs| && !s.runs[i].at.Finished?
    case Reopen => true
    case Expire => s.promoted
    case ClearSlow => true
  }

  function At(s: State, i: nat, stage: Stage): (t: State)
    requires i < |s.runs|
  {
    s.(runs := s.runs[i := s.runs[i].(at := stage)])
  }

  /** The atomic operation a run makes next. */
  function Stepped(s: State, i: nat): (t: State)
    requires i < |s.runs| && !s.runs[i].at.Finished?
  {
    var v := s.runs[i].event;
    match s.runs[i].at
    case Checking => At(s, i, if s.promoted then Finished else Running)
    case Running =>
      if v.Fast? then At(s, i, Count).(slow := 0)
      else At(s, i, if v.Slow? then Count else Decide).(fast := 0)
    case Count =>
      if v.Fast? then At(s, i, if s.fast + 1 >= SETTLE_STREAK then Clamp else Finished).(fast := s.fast + 1)
      else At(s, i, if s.slow + 1 >= PROMOTE_STREAK then Decide else Finished).(slow := s.slow + 1)
    case Clamp => At(s, i, Decide).(fast := SETTLE_STREAK)
    case Decide =>
      if v.Fast? then At(s, i, Finished).(settled := true) else At(s, i, Finished).(promoted := true)
  }

  function After(s: State, m: Move): (t: State)
    requires Can(s, m)
  {
    match m
    case Begin(v) => s.(runs := s.runs + [Run(v, Checking)])
    case Step(i) => Stepped(s, i)
    case Reopen => s.(settled := false)
    case Expire => s.(promoted := false)
    case ClearSlow => s.(slow := 0)
  }

  predicate Runs(s: State, ms: seq<Move>)
    decreases |ms|
  {
    ms == [] || (Can(s, ms[0]) && Runs(After(s, ms[0]), ms[1..]))
  }

  function Reached(s: State, ms: seq<Move>): (t: State)
    requires Runs(s, ms)
    decreases |ms|
  {
    if ms == [] then s else Reached(After(s, ms[0]), ms[1..])
  }

  // ---------------------------------------------------------------- the bound of the fast streak

  predicate Unclamped(r: Run) {
    r.event.Fast? && r.at.Clamp?
  }

  /** Runs between their count and their clamp. */
  function Pending(runs: seq<Run>): (n: nat) {
    if runs == [] then 0 else (if Unclamped(runs[0]) then 1 else 0) + Pending(runs[1..])
  }

  lemma {:induction false} PendingAt(runs: seq<Run>, i: nat, r: Run)
    requires i < |runs|
    ensures Pending(runs[i := r])
         == Pending(runs) + (if Unclamped(r) then 1 else 0) - (if Unclamped(runs[i]) then 1 else 0)
  {
    if i == 0 {
      assert runs[i := r][1..] == runs[1..];
    } else {
      assert runs[i := r][1..] == runs[1..][i - 1 := r];
      PendingAt(runs[1..], i - 1, r);
    }
  }

  lemma {:induction false} PendingMore(runs: seq<Run>, r: Run)
    ensures Pending(runs + [r]) == Pending(runs) + if Unclamped(r) then 1 else 0
  {
    if runs == [] {
      assert (runs + [r])[1..] == [];
    } else {
      assert (runs + [r])[1..] == runs[1..] + [r];
      PendingMore(runs[1..], r);
    }
  }

  /** The streak exceeds 256 by at most the runs that have counted and not yet clamped. */
  ghost predicate Bounded(s: State) {
    0 <= s.fast <= SETTLE_STREAK + Pending(s.runs) && 0 <= s.slow
  }

  lemma StepKeepsBound(s: State, i: nat)
    requires Bounded(s) && i < |s.runs| && Active(s.runs[i])
    ensures Bounded(Stepped(s, i))
  {
    var t := Stepped(s, i);
    PendingAt(s.runs, i, t.runs[i]);
    assert t.runs == s.runs[i := t.runs[i]];
    if s.runs[i].at.Count? && s.runs[i].event.Fast? {
      assert Unclamped(t.runs[i]) <==> s.fast + 1 >= SETTLE_STREAK;
    } else if Unclamped(s.runs[i]) {
      assert t.fast == SETTLE_STREAK;
    }
  }

  lemma KeepsBound(s: State, m: Move)
    requires Bounded(s) && Can(s, m)
    ensures Bounded(After(s, m))
  {
    match m
    case Begin(v) => PendingMore(s.runs, Run(v, Checking));
    case Step(i) => StepKeepsBound(s, i);
    case _ =>
  }

  lemma {:induction false} StreakBounded(s: State, ms: seq<Move>)
    requires Bounded(s) && Runs(s, ms)
    ensures Bounded(Reached(s, ms))
    decreases |ms|
  {
    if ms != [] {
      KeepsBound(s, ms[0]);
      StreakBounded(After(s, ms[0]), ms[1..]);
    }
  }

  // ---------------------------------------------------------------- never both

  predicate Active(r: Run) {
    !r.at.Finished?
  }

  /** A fast run and a slow or blocked one are under way at once. */
  ghost predicate Overlap(s: State) {
    exists i, j :: 0 <= i < |s.runs| && 0 <= j < |s.runs| && Active(s.runs[i]) && Active(s.runs[j])
      && s.runs[i].event.Fast? && !s.runs[j].event.Fast?
  }

  /** No state of the run has such an overlap. */
  ghost predicate Apart(s: State, ms: seq<Move>)
    requires Runs(s, ms)
    decreases |ms|
  {
    !Overlap(s) && (ms == [] || Apart(After(s, ms[0]), ms[1..]))
  }

  /** A settled route has no slow or blocked run under way, a promoted one no fast run past
      its check. */
  ghost predicate NotBoth(s: State) {
    && !(s.settled && s.promoted)
    && (s.settled ==> forall i :: 0 <= i < |s.runs| && Active(s.runs[i]) ==> s.runs[i].event.Fast?)
    && (s.promoted ==> forall i :: 0 <= i < |s.runs| && Active(s.runs[i]) && s.runs[i].event.Fast? ==>
          s.runs[i].at.Checking?)
  }

  lemma StepKeepsNotBoth(s: State, i: nat)
    requires NotBoth(s) && !Overlap(s) && i < |s.runs| && Active(s.runs[i])
    ensures NotBoth(Stepped(s, i))
  {
    var t := Stepped(s, i);
    assert forall j :: 0 <= j < |s.runs| && j != i ==> t.runs[j] == s.runs[j];
    assert t.runs[i].event == s.runs[i].event;
  }

  lemma KeepsNotBoth(s: State, m: Move)
    requires NotBoth(s) && Can(s, m) && !Overlap(s) && !Overlap(After(s, m))
    ensures NotBoth(After(s, m))
  {
    match m
    case Step(i) => StepKeepsNotBoth(s, i);
    case Begin(v) =>
      assert forall j :: 0 <= j < |s.runs| ==> After(s, m).runs[j] == s.runs[j];
    case _ =>
  }

  /** In every run whose fast runs do not overlap a slow or blocked one, the route is never
      both settled and promoted. */
  lemma {:induction false} NeverBoth(s: State, ms: seq<Move>)
    requires NotBoth(s) && Runs(s, ms) && Apart(s, ms)
    ensures NotBoth(Reached(s, ms))
    decreases |ms|
  {
    if ms != [] {
      KeepsNotBoth(s, ms[0]);
      NeverBoth(After(s, ms[0]), ms[1..]);
    }
  }

  /** So it is in every run of a route that starts with its counters at zero. */
  lemma NeverBothFromZero(ms: seq<Move>)
    requires Runs(Zero(), ms) && Apart(Zero(), ms)
    ensures var s := Reached(Zero(), ms); !(s.settled && s.promoted)
  {
    NeverBoth(Zero(), ms);
  }

  // ---------------------------------------------------------------- runs that reach the limits

  lemma {:induction false} Extend(s: State, ms: seq<Move>, m: Move)
    requires Runs(s, ms) && Can(Reached(s, ms), m)
    ensures Runs(s, ms + [m]) && Reached(s, ms + [m]) == After(Reached(s, ms), m)
    decreases |ms|
  {
    if ms == [] {
      assert ms + [m] == [m] && [m][1..] == [];
    } else {
      assert (ms + [m])[1..] == ms[1..] + [m];
      Extend(After(s, ms[0]), ms[1..], m);
    }
  }

  lemma Then(ms: seq<Move>, m: Move) returns (ns: seq<Move>)
    requires Runs(Zero(), ms) && Can(Reached(Zero(), ms), m)
    ensures Runs(Zero(), ns) && Reached(Zero(), ns) == After(Reached(Zero(), ms), m)
  {
    Extend(Zero(), ms, m);
    ns := ms + [m];
  }

  /** n requests that are over. */
  function Past(n: nat): (rs: seq<Run>)
    ensures |rs| == n && forall i :: 0 <= i < n ==> rs[i] == Run(Fast, Finished)
  {
    seq(n, i => Run(Fast, Finished))
  }

  /** n fast runs one after the other. */
  lemma {:induction false} FastInARow(n: nat) returns (ms: seq<Move>)
    requires n < SETTLE_STREAK
    ensures Runs(Zero(), ms) && Reached(Zero(), ms) == State(n, 0, false, false, Past(n))
  {
    if n == 0 {
      ms := [];
      assert Past(0) == [];
    } else {
      ms := FastInARow(n - 1);
      ms := Then(ms, Begin(Fast));
      ms := Then(ms, Step(n - 1));
      ms := Then(ms, Step(n - 1));
      ms := Then(ms, Step(n - 1));
      assert Reached(Zero(), ms).runs == Past(n);
    }
  }

  /** Never both needs the runs apart: a fast run and a blocked one that both began while the
      route was learning make it settled and promoted, from counters at zero. */
  lemma BothAtOnce() returns (ms: seq<Move>)
    ensures Runs(Zero(), ms) && Reached(Zero(), ms).settled && Reached(Zero(), ms).promoted
  {
    var n: nat := SETTLE_STREAK - 1;
    ms := FastInARow(n);
    ms := Then(ms, Begin(Fast));
    ms := Then(ms, Begin(Blocked));
    ms := Then(ms, Step(n));
    ms := Then(ms, Step(n + 1));
    ms := Then(ms, Step(n));
    ms := Then(ms, Step(n));
    ms := Then(ms, Step(n));
    ms := Then(ms, Step(n));
    ms := Then(ms, Step(n + 1));
    ms := Then(ms, Step(n + 1));
  }

  /** The route settled and was reopened, with the streak at its clamp. */
  lemma Reopened() returns (ms: seq<Move>)
    ensures Runs(Zero(), ms) && Reached(Zero(), ms) == State(SETTLE_STREAK, 0, false, false, Past(SETTLE_STREAK))
  {
    var n: nat := SETTLE_STREAK - 1;
    ms := FastInARow(n);
    ms := Then(ms, Begin(Fast));
    ms := Then(ms, Step(n));
    ms := Then(ms, Step(n));
    ms := Then(ms, Step(n));
    ms := Then(ms, Step(n));
    ms := Then(ms, Step(n));
    ms := Then(ms, Reopen);
    assert Reached(Zero(), ms).runs == Past(SETTLE_STREAK);
  }

  /** The bound is reached: with k runs between their count and their clamp the streak can
      stand k above 256, for every k. */
  lemma {:induction false} PassesClamp(k: nat) returns (ms: seq<Move>)
    ensures Runs(Zero(), ms)
    ensures var s := Reached(Zero(), ms);
      s.fast == SETTLE_STREAK + k && Pending(s.runs) == k && !s.settled && !s.promoted
  {
    if k == 0 {
      ms := Reopened();
      NonePending(SETTLE_STREAK);
    } else {
      ms := PassesClamp(k - 1);
      var rs := Reached(Zero(), ms).runs;
      var i := |rs|;
      ms := Then(ms, Begin(Fast));
      ms := Then(ms, Step(i));
      ms := Then(ms, Step(i));
      ms := Then(ms, Step(i));
      assert Reached(Zero(), ms).runs == rs + [Run(Fast, Clamp)];
      PendingMore(rs, Run(Fast, Clamp));
    }
  }

  lemma {:induction false} NonePending(n: nat)
    ensures Pending(Past(n)) == 0
  {
    if n > 0 {
      assert Past(n)[1..] == Past(n - 1);
      NonePending(n - 1);
    }
  }

  // ---------------------------------------------------------------- a request that runs alone

  function StepsLeft(at: Stage): (n: nat) {
    match at
    case Checking => 5
    case Running => 4
    case Count => 3
    case Clamp => 2
    case Decide => 1
    case Finished => 0
  }

  /** The run i goes on to its end, undisturbed. */
  function Alone(s: State, i: nat): (t: State)
    requires i < |s.runs|
    decreases StepsLeft(s.runs[i].at)
  {
    if s.runs[i].at.Finished? then s else Alone(Stepped(s, i), i)
  }

  /** That is a run of the model. */
  lemma {:induction false} AloneRuns(s: State, i: nat) returns (ms: seq<Move>)
    requires i < |s.runs|
    ensures Runs(s, ms) && Reached(s, ms) == Alone(s, i)
    decreases StepsLeft(s.runs[i].at)
  {
    ms := [];
    if !s.runs[i].at.Finished? {
      var rest := AloneRuns(Stepped(s, i), i);
      ms := [Step(i)] + rest;
      assert ms[1..] == rest;
    }
  }

  /** The route's entries in the tables. */
  function EntryOf(s: State): (e: Entry)
    requires s.fast >= 0 && s.slow >= 0
  {
    Entry(s.settled, s.promoted, s.fast, s.slow)
  }

  lemma AloneFrom(s: State, i: nat)
    requires i < |s.runs| && s.runs[i].at.Running? && 0 <= s.fast <= SETTLE_STREAK && 0 <= s.slow
    requires !s.settled && !s.promoted && (s.runs[i].event.Fast? || s.runs[i].event.Slow? || s.runs[i].event.Blocked?)
    ensures var t := Alone(s, i);
      t.fast >= 0 && t.slow >= 0 && EntryOf(t) == Updated(EntryOf(s), s.runs[i].event)
  {
    var c := Stepped(s, i);
    var d := Stepped(c, i);
    assert Alone(s, i) == Alone(d, i);
    if !d.runs[i].at.Finished? {
      var f := Stepped(d, i);
      assert Alone(d, i) == Alone(f, i);
      if !f.runs[i].at.Finished? {
        assert Alone(f, i) == Stepped(f, i);
      }
    }
  }

  /** A request on a learning route that nothing interleaves with does to the tables what the
      classifier does one run at a time. */
  lemma AloneIsSequential(s: State, v: Event)
    requires Can(s, Begin(v)) && !s.promoted && 0 <= s.fast <= SETTLE_STREAK && 0 <= s.slow
    ensures var t := Alone(After(s, Begin(v)), |s.runs|);
      t.fast >= 0 && t.slow >= 0 && EntryOf(t) == Updated(EntryOf(s), v)
  {
    var b := After(s, Begin(v));
    var r := Stepped(b, |s.runs|);
    assert Alone(b, |s.runs|) == Alone(r, |s.runs|);
    AloneFrom(r, |s.runs|);
  }
}
