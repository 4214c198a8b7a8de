/** The classifier that decides which routes run inline and which run asynchronously
    (router.go, handler.go): promote, settle, reopen and expire, one run at a time. */
module Adaptive {
  const PROMOTE_STREAK: nat := 8
  const SETTLE_STREAK: nat := 256
  const PROMOTE_TTL: int := 5_000_000_000          // ns
  const PROMOTE_THRESHOLD: int := 300_000          // ns
  const BLOCKING_THRESHOLD: int := 2_000_000       // ns

  // ---------------------------------------------------------------- histories

  /** What happened to a route: a timed run under 300 us, up to 2 ms, or longer; the end of
      a promotion; the clearing of the settled set. */
  datatype Event = Fast | Slow | Blocked | Expired | Reopened

  datatype Verdict = Learning | Settled | Promoted

  /** Fast runs since the last slow or blocked one. */
  function FastRun(h: seq<Event>): (n: nat) {
    if h == [] then 0
    else
      var before := h[..|h| - 1];
      match h[|h| - 1]
      case Fast => FastRun(before) + 1
      case Slow => 0
      case Blocked => 0
      case _ => FastRun(before)
  }

  /** Slow runs since the last fast one or the end of a promotion. */
  function SlowRun(h: seq<Event>): (n: nat) {
    if h == [] then 0
    else
      var before := h[..|h| - 1];
      match h[|h| - 1]
      case Fast => 0
      case Expired => 0
      case Slow => SlowRun(before) + 1
      case _ => SlowRun(before)
  }

  /** What the history makes of the route. */
  function Judge(h: seq<Event>): (v: Verdict) {
    if h == [] then Learning
    else
      var before := h[..|h| - 1];
      match h[|h| - 1]
      case Fast => if FastRun(h) >= SETTLE_STREAK then Settled else Learning
      case Slow => if SlowRun(h) >= PROMOTE_STREAK then Promoted else Learning
      case Blocked => Promoted
      case Expired => Learning
      case Reopened => if Judge(before) == Settled then Learning else Judge(before)
  }

  /** Runs are timed only while the route is learning, and only a promotion expires. */
  predicate Possible(h: seq<Event>) {
    h == [] ||
    (var before := h[..|h| - 1];
     Possible(before) &&
     match h[|h| - 1]
     case Expired => Judge(before) == Promoted
     case Reopened => true
     case _ => Judge(before) == Learning)
  }

  function Clamped(n: nat): (m: nat) {
    if n < SETTLE_STREAK then n else SETTLE_STREAK
  }

  /** What every possible history keeps. */
  lemma {:induction false} HistoryKeeps(h: seq<Event>)
    requires Possible(h)
    ensures Judge(h) == Settled ==> Clamped(FastRun(h)) == SETTLE_STREAK
    ensures Judge(h) == Promoted ==> FastRun(h) == 0
    ensures Judge(h) != Promoted ==> SlowRun(h) < PROMOTE_STREAK
    ensures SlowRun(h) <= PROMOTE_STREAK && (FastRun(h) == 0 || SlowRun(h) == 0)
  {
    if h != [] {
      HistoryKeeps(h[..|h| - 1]);
    }
  }

  /** A settled route that was reopened and is still fast settles again after one run. */
  lemma SettlesAgain(h: seq<Event>)
    requires Possible(h) && Judge(h) == Settled
    ensures Possible(h + [Reopened, Fast]) && Judge(h + [Reopened, Fast]) == Settled
  {
    HistoryKeeps(h);
    var e := Entry(true, false, SETTLE_STREAK, SlowRun(h));
    FitsAfter(h, e, Reopened);
    FitsAfter(h + [Reopened], Updated(e, Reopened), Fast);
    assert h + [Reopened] + [Fast] == h + [Reopened, Fast];
  }

  /** n fast runs in a row. */
  function Fasts(n: nat): (h: seq<Event>)
    ensures |h| == n
  {
    if n == 0 then [] else Fasts(n - 1) + [Fast]
  }

  /** From learning with no fast run behind it, 256 fast runs settle a route and fewer leave
      it learning. */
  lemma {:induction false} SettlesAfter(h: seq<Event>, n: nat)
    requires Possible(h) && Judge(h) == Learning && FastRun(h) == 0 && n <= SETTLE_STREAK
    ensures Possible(h + Fasts(n)) && FastRun(h + Fasts(n)) == n
    ensures Judge(h + Fasts(n)) == if n == SETTLE_STREAK then Settled else Learning
  {
    if n == 0 {
      assert h + Fasts(0) == h;
    } else {
      SettlesAfter(h, n - 1);
      var t := h + Fasts(n);
      assert t[..|t| - 1] == h + Fasts(n - 1) && t[|t| - 1] == Fast;
    }
  }

  function Slows(n: nat): (h: seq<Event>)
    ensures |h| == n
  {
    if n == 0 then [] else Slows(n - 1) + [Slow]
  }

  /** A learning route is promoted by the run that makes 8 slow ones in a row, and by no
      earlier one. */
  lemma {:induction false} PromotesAfter(h: seq<Event>, n: nat)
    requires Possible(h) && Judge(h) == Learning && 0 < n && SlowRun(h) + n <= PROMOTE_STREAK
    ensures Possible(h + Slows(n)) && SlowRun(h + Slows(n)) == SlowRun(h) + n && FastRun(h + Slows(n)) == 0
    ensures Judge(h + Slows(n)) == if SlowRun(h) + n == PROMOTE_STREAK then Promoted else Learning
  {
    var t := h + Slows(n);
    if n == 1 {
      assert t[..|t| - 1] == h && t[|t| - 1] == Slow;
    } else {
      PromotesAfter(h, n - 1);
      assert t[..|t| - 1] == h + Slows(n - 1) && t[|t| - 1] == Slow;
    }
  }

  // ---------------------------------------------------------------- classifier

  /** A route's entries in the tables. */
  datatype Entry = Entry(settled: bool, promoted: bool, fast: nat, slow: nat)

  /** The entries say what the history says. */
  predicate Fits(h: seq<Event>, e: Entry) {
    && Possible(h)
    && e.fast == Clamped(FastRun(h)) && e.slow == SlowRun(h)
    && (e.settled <==> Judge(h) == Settled) && (e.promoted <==> Judge(h) == Promoted)
  }

  /** How one event changes the entries. */
  function Updated(e: Entry, v: Event): (f: Entry) {
    match v
    case Fast => Entry(e.fast + 1 >= SETTLE_STREAK, false, Clamped(e.fast + 1), 0)
    case Slow => Entry(false, e.slow + 1 >= PROMOTE_STREAK, 0, e.slow + 1)
    case Blocked => Entry(false, true, 0, e.slow)
    case Expired => Entry(false, false, e.fast, 0)
    case Reopened => e.(settled := false)
  }

  /** The event can happen to a route with these entries. */
  predicate Allowed(e: Entry, v: Event) {
    match v
    case Expired => e.promoted
    case Reopened => true
    case _ => !e.settled && !e.promoted
  }

  lemma FitsAfter(h: seq<Event>, e: Entry, v: Event)
    requires Fits(h, e) && Allowed(e, v)
    ensures Fits(h + [v], Updated(e, v))
  {
    HistoryKeeps(h);
    assert (h + [v])[..|h|] == h && (h + [v])[|h|] == v;
  }

  function Streak(m: map<string, nat>, p: string): (n: nat) {
    if p in m then m[p] else 0
  }

  /** A streak, if there is one, starts over. */
  function Cleared(m: map<string, nat>, p: string): (r: map<string, nat>)
    ensures Streak(r, p) == 0 && forall q {:trigger Streak(r, q)} :: q != p ==> Streak(r, q) == Streak(m, q)
  {
    if p in m then m[p := 0] else m
  }

  /** The tables; a promoted route has the time of its promotion. */
  datatype Tables = Tables(promoted: map<string, int>, settled: set<string>, slow: map<string, nat>,
                           fast: map<string, nat>)

  /** The entries of a route. One without a streak has one of 0. */
  function Of(t: Tables, p: string): (e: Entry) {
    Entry(p in t.settled, p in t.promoted, Streak(t.fast, p), Streak(t.slow, p))
  }

  type Histories = map<string, seq<Event>>

  function Past(hs: Histories, p: string): (h: seq<Event>) {
    if p in hs then hs[p] else []
  }

  /** The history with one more event. */
  function With(hs: Histories, p: string, v: Event): (r: Histories)
    ensures Past(r, p) == Past(hs, p) + [v] && forall q {:trigger Past(r, q)} :: q != p ==> Past(r, q) == Past(hs, q)
  {
    hs[p := Past(hs, p) + [v]]
  }

  /** The tables are what the history of each route says. */
  ghost predicate AllFit(hs: Histories, t: Tables) {
    forall p {:trigger Of(t, p)} :: Fits(Past(hs, p), Of(t, p))
  }

  /** The tables t went to u without a change for the routes other than p. */
  ghost predicate Only(t: Tables, u: Tables, p: string) {
    forall q {:trigger Of(u, q)} :: q != p ==> Of(u, q) == Of(t, q)
  }

  /** The event happened to p: the tables show it, and nothing else changed. */
  ghost predicate Shows(t: Tables, u: Tables, p: string, v: Event) {
    Allowed(Of(t, p), v) && Of(u, p) == Updated(Of(t, p), v) && Only(t, u, p)
  }

  /** The route is neither settled nor promoted at this time, a promotion of more than five
      seconds ago aside. */
  predicate LearnsAt(t: Tables, p: string, now: int) {
    p !in t.settled && (p in t.promoted ==> now - t.promoted[p] > 5_000_000_000)
  }

  lemma FitAfter(hs: Histories, t: Tables, u: Tables, p: string, v: Event)
    requires AllFit(hs, t) && Shows(t, u, p, v)
    ensures AllFit(With(hs, p, v), u)
  {
    var hs' := With(hs, p, v);
    forall q ensures Fits(Past(hs', q), Of(u, q)) {
      assert Fits(Past(hs, q), Of(t, q));
      if q == p {
        FitsAfter(Past(hs, p), Of(t, p), v);
      }
    }
  }

  lemma OnlyTwice(t: Tables, u: Tables, w: Tables, p: string)
    requires Only(t, u, p) && Only(u, w, p)
    ensures Only(t, w, p)
  {
    forall q | q != p ensures Of(w, q) == Of(t, q) {
      assert Of(w, q) == Of(u, q);
    }
  }

  class Classifier {
    var promoted: map<string, int>
    var settled: set<string>
    var slow: map<string, nat>
    var fast: map<string, nat>
    ghost var history: Histories

    constructor ()
      ensures Valid() && forall p :: Past(history, p) == []
    {
      promoted, settled, slow, fast, history := map[], {}, map[], map[], map[];
    }

    ghost function Value(): (t: Tables)
      reads this
    {
      Tables(promoted, settled, slow, fast)
    }

    ghost predicate Valid()
      reads this
    {
      AllFit(history, Value())
    }

    /** isPromoted: a promotion older than its time to live ends here. */
    method IsPromoted(p: string, now: int) returns (r: bool)
      requires Valid()
      modifies this
      ensures Valid()
      ensures var expires := p in old(promoted) && now - old(promoted)[p] > PROMOTE_TTL;
        && r == (p in old(promoted) && !expires)
        && if expires then history == With(old(history), p, Expired) && Shows(old(Value()), Value(), p, Expired)
           else unchanged(this)
    {
      if p !in promoted {
        return false;
      }
      if now - promoted[p] > PROMOTE_TTL {
        ghost var was := Value();
        promoted := promoted - {p};
        slow := Cleared(slow, p);
        FitAfter(history, was, Value(), p, Expired);
        history := With(history, p, Expired);
        return false;
      }
      return true;
    }

    /** promoteRouteImmediate. */
    method PromoteImmediate(p: string, now: int)
      requires Valid() && Allowed(Of(Value(), p), Blocked)
      modifies this
      ensures Valid() && history == With(old(history), p, Blocked) && Shows(old(Value()), Value(), p, Blocked)
      ensures promoted == old(promoted)[p := now]
    {
      ghost var was := Value();
      fast := Cleared(fast, p);
      promoted := promoted[p := now];
      FitAfter(history, was, Value(), p, Blocked);
      history := With(history, p, Blocked);
    }

    /** The fast streak, which settles the route and stays at 256. */
    method CountFast(p: string)
      modifies this`fast, this`settled
      ensures Streak(fast, p) == Clamped(Streak(old(fast), p) + 1)
      ensures forall q {:trigger Streak(fast, q)} :: q != p ==> Streak(fast, q) == Streak(old(fast), q)
      ensures settled == old(settled) + if Streak(old(fast), p) + 1 >= SETTLE_STREAK then {p} else {}
    {
      var c := Streak(fast, p) + 1;
      fast := fast[p := c];
      if c >= SETTLE_STREAK {
        fast := fast[p := SETTLE_STREAK];
        settled := settled + {p};
      }
    }

    /** recordInlineRun of a fast run. */
    method RecordFast(p: string)
      requires Valid() && Allowed(Of(Value(), p), Fast)
      modifies this
      ensures Valid() && history == With(old(history), p, Fast) && Shows(old(Value()), Value(), p, Fast)
      ensures promoted == old(promoted)
    {
      ghost var was := Value();
      slow := Cleared(slow, p);
      CountFast(p);
      FitAfter(history, was, Value(), p, Fast);
      history := With(history, p, Fast);
    }

    /** The slow streak, which promotes the route. */
    method CountSlow(p: string, now: int)
      modifies this`slow, this`promoted
      ensures Streak(slow, p) == Streak(old(slow), p) + 1
      ensures forall q {:trigger Streak(slow, q)} :: q != p ==> Streak(slow, q) == Streak(old(slow), q)
      ensures promoted == if Streak(slow, p) >= PROMOTE_STREAK then old(promoted)[p := now] else old(promoted)
    {
      slow := slow[p := Streak(slow, p) + 1];
      if slow[p] >= PROMOTE_STREAK {
        promoted := promoted[p := now];
      }
    }

    /** recordInlineRun of a slow run. */
    method RecordSlow(p: string, now: int)
      requires Valid() && Allowed(Of(Value(), p), Slow)
      modifies this
      ensures Valid() && history == With(old(history), p, Slow) && Shows(old(Value()), Value(), p, Slow)
      ensures promoted == if p in promoted then old(promoted)[p := now] else old(promoted)
    {
      ghost var was := Value();
      fast := Cleared(fast, p);
      CountSlow(p, now);
      FitAfter(history, was, Value(), p, Slow);
      history := With(history, p, Slow);
    }

    /** reopenSettled. */
    method ReopenSettled()
      requires Valid()
      modifies this`settled, this`history
      ensures Valid() && settled == {}
      ensures forall p {:trigger Past(history, p)} ::
        Past(history, p) == Past(old(history), p) + (if p in old(settled) then [Reopened] else [])
    {
      ghost var was, h := Value(), history;
      history := map p | p in history.Keys + settled ::
        Past(history, p) + (if p in settled then [Reopened] else []);
      settled := {};
      forall p ensures Fits(Past(history, p), Of(Value(), p)) {
        assert Fits(Past(h, p), Of(was, p));
        if p in was.settled {
          FitsAfter(Past(h, p), Of(was, p), Reopened);
        } else {
          assert Past(history, p) == Past(h, p);
        }
      }
    }

    /** One inline run, timed. */
    method RecordRun(p: string, start: int, dur: int)
      requires Valid() && Allowed(Of(Value(), p), EventOf(dur))
      modifies this
      ensures Valid() && history == With(old(history), p, EventOf(dur))
      ensures Shows(old(Value()), Value(), p, EventOf(dur))
      ensures dur > 300_000 && p in promoted ==> promoted[p] == start + dur
    {
      if dur > BLOCKING_THRESHOLD {
        PromoteImmediate(p, start + dur);
      } else if dur > PROMOTE_THRESHOLD {
        RecordSlow(p, start + dur);
      } else {
        RecordFast(p);
      }
    }

    /** A request on an adaptive route runs inline and is timed while the route is learning;
        otherwise nothing is recorded of it. */
    method Serve(p: string, start: int, dur: int)
      requires Valid()
      modifies this
      ensures Valid() && Only(old(Value()), Value(), p)
      ensures var expires := p !in old(settled) && p in old(promoted) && start - old(promoted)[p] > PROMOTE_TTL;
        var hs := if expires then With(old(history), p, Expired) else old(history);
        history == if Judge(Past(hs, p)) == Learning then With(hs, p, EventOf(dur)) else hs
      ensures !LearnsAt(old(Value()), p, start) ==> Value() == old(Value())
      ensures LearnsAt(old(Value()), p, start) && dur > 2_000_000 ==>
        p in promoted && promoted[p] == start + dur && Streak(fast, p) == 0
      ensures LearnsAt(old(Value()), p, start) && 300_000 < dur <= 2_000_000 ==>
        && Streak(fast, p) == 0 && p !in settled
        && Streak(slow, p) == (if p in old(promoted) then 0 else Streak(old(slow), p)) + 1
        && (p in promoted <==> Streak(slow, p) >= 8) && (p in promoted ==> promoted[p] == start + dur)
      ensures LearnsAt(old(Value()), p, start) && dur <= 300_000 ==>
        && Streak(slow, p) == 0 && p !in promoted
        && Streak(fast, p) == (if Streak(old(fast), p) + 1 < 256 then Streak(old(fast), p) + 1 else 256)
        && (p in settled <==> Streak(fast, p) == 256)
    {
      assert Fits(Past(history, p), Of(Value(), p));
      if p in settled {
        return;
      }
      var async := IsPromoted(p, start);
      assert Fits(Past(history, p), Of(Value(), p));
      if async {
        return;
      }
      ghost var t := Value();
      RecordRun(p, start, dur);
      OnlyTwice(old(Value()), t, Value(), p);
    }
  }

  /** The event that one inline run of this length is. */
  function EventOf(dur: int): (e: Event) {
    if dur > BLOCKING_THRESHOLD then Blocked else if dur > PROMOTE_THRESHOLD then Slow else Fast
  }
}
