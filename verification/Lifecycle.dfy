/** Start and Shutdown of a server as a state machine (server.go): one Start call, the
    watcher that shuts the server down when the caller's context is cancelled, and any
    number of direct Shutdown calls. A step is one lock section, one channel operation or
    one call out; steps of different threads interleave freely. */
module Lifecycle {
  import opened Wrappers

  datatype Error = Fine | EngineError | ContextError

  /** Who runs a shutdown. */
  datatype Who = ByWatcher | ByDirect(i: nat)

  /** Where a run of shutdown's body stands. `err` is the error it will return so far,
      `holds` says that it took the CancelFunc and must call it. */
  datatype Body =
    | Load
    | LatchBare
    | CancelBare(holds: bool)
    | Engine
    | Latch(err: Error)
    | Cancel(err: Error, holds: bool)
    | Poll(err: Error)
    | Block(err: Error)
    | Hook(err: Error, drained: bool)
    | Over(err: Error, outcome: Outcome)

  /** How a Shutdown call ended: on a server that was not started, with its hooks run
      after Listen had returned or after its context ended, or by joining the watcher. */
  datatype Outcome = Bare | Drained | CutShort | Joined

  datatype Call =
    | Enter
    | Join
    | Run(body: Body)
    | Close(err: Error, outcome: Outcome)
    | Back(err: Error, outcome: Outcome)

  /** A direct call, whether its context has ended, and its history: how often it ran the
      hooks, whether the server was started when it entered, and what Engine.Shutdown
      returned to it. */
  datatype Direct = Direct(at: Call, expired: bool, hooked: nat, started: bool, told: Option<Error>)

  datatype Watcher =
    | Unborn
    | Select
    | Woken
    | Claim
    | Run(body: Body)
    | Signal
    | Leave
    | Gone

  datatype Start =
    | Idle
    | Prepared
    | Ready
    | Doomed
    | Listening
    | Left
    | Closing
    | Reading
    | Holding
    | Trailing
    | Returned

  /** The CancelFunc of the listen context: whether it can be taken (listenCancel is set),
      who took it, whether it was called, and the latch shutdownCalled. */
  datatype Gate = Gate(published: bool, latched: bool, cancelled: bool, taker: Option<Who>)

  /** What the threads share. */
  datatype Shared = Shared(
    watching: bool,           // a Start*WithContext call
    engine: bool,
    // contexts
    parentDone: bool,         // the caller's context
    watcherExpired: bool,     // ShutdownTimeout
    gate: Gate,
    direct: bool,             // directShutdown
    first: Option<nat>,       // the call that owns directShutdownDone
    claimed: bool,            // watcherShutdown is set
    // channels, by how often they were closed
    listenCloses: nat,
    directCloses: nat,
    claimCloses: nat,
    watcherCloses: nat,
    watcherErr: Error,
    seen: Option<nat>,        // directShutdownDone as Start read it
    // history
    watcherHooked: nat,       // runs of the OnShutdown hooks by the watcher
    directAtReturn: bool,     // direct, and parentDone, when Listen returned
    parentAtReturn: bool)

  /** What Engine.Shutdown returned to the watcher, and how its shutdown ended. */
  datatype History = History(told: Option<Error>, ended: Option<Outcome>)

  datatype State = State(g: Shared, start: Start, watcher: Watcher, directs: seq<Direct>, past: History)

  function Initial(watching: bool): (s: State) {
    State(Shared(watching, false, false, false, Gate(false, false, false, None), false, None, false,
                 0, 0, 0, 0, Fine, None, 0, false, false),
          Idle, Unborn, [], History(None, None))
  }

  /** The first six moves are the environment's, the others are steps of the program.
      `err` is what Engine.Shutdown returns, `late` which ready case a select takes. */
  datatype Move =
    | CallStart
    | CallShutdown
    | CancelParent
    | Expire(i: nat)
    | ExpireWatcher
    | ListenFails
    | StartStep
    | WatcherStep(err: Error, late: bool)
    | DirectStep(i: nat, err: Error, late: bool)

  predicate OfProgram(m: Move) {
    m.StartStep? || m.WatcherStep? || m.DirectStep?
  }

  /** The context handed to Listen is derived from the caller's. */
  predicate ListenCancelled(g: Shared) {
    g.gate.cancelled || g.parentDone
  }

  // ---------------------------------------------------------------- shutdown's body

  predicate BodyCan(g: Shared, b: Body, expired: bool) {
    match b
    case Block(_) => g.listenCloses > 0 || expired
    case Over(_, _) => false
    case _ => true
  }

  function BodyNext(g: Shared, b: Body, expired: bool, err: Error, late: bool): (n: Body)
    requires BodyCan(g, b, expired)
  {
    match b
    case Load => if g.engine then Engine else LatchBare
    case LatchBare => CancelBare(g.gate.published)
    case CancelBare(_) => Over(Fine, Bare)
    case Engine => Latch(err)
    case Latch(e) => Cancel(e, g.gate.published)
    case Cancel(e, _) => Poll(e)
    case Poll(e) => if g.listenCloses > 0 then Hook(e, true) else Block(e)
    case Block(e) =>
      if g.listenCloses > 0 && !(late && expired) then Hook(e, true)
      else Hook(if e == Fine then ContextError else e, false)
    case Hook(e, drained) => Over(e, if drained then Drained else CutShort)
  }

  /** cancelListen's lock section latches the shut-down state and takes the CancelFunc;
      whoever took it calls it next. */
  function Latching(l: Gate, who: Who): (k: Gate) {
    Gate(false, true, l.cancelled, if l.published then Some(who) else l.taker)
  }

  /** Engine.Shutdown returns. */
  function Told(b: Body, err: Error, told: Option<Error>): (t: Option<Error>) {
    if b.Engine? then Some(err) else told
  }

  function Hooked(b: Body, n: nat): (m: nat) {
    if b.Hook? then n + 1 else n
  }

  function BodyEffect(l: Gate, b: Body, who: Who): (k: Gate) {
    if b.LatchBare? || b.Latch? then Latching(l, who)
    else if Holds(b) then l.(cancelled := true)
    else l
  }

  predicate Holds(b: Body) {
    (b.Cancel? || b.CancelBare?) && b.holds
  }

  // ---------------------------------------------------------------- Start

  predicate StartCan(g: Shared, p: Start) {
    match p
    case Listening => ListenCancelled(g)
    case Holding => g.seen.None? || g.directCloses > 0
    case Trailing => !g.watching || g.watcherCloses > 0
    case Idle => false
    case Returned => false
    case _ => true
  }

  function StartNext(g: Shared, p: Start): (n: Start)
    requires StartCan(g, p)
  {
    match p
    case Prepared => Ready
    case Ready => if g.gate.latched then Doomed else Listening
    case Doomed => Listening
    case Listening => Left
    case Left => Closing
    case Closing => Reading
    case Reading => Holding
    case Holding => Trailing
    case Trailing => Returned
  }

  function StartEffect(g: Shared, p: Start): (h: Shared) {
    match p
    case Ready => if g.gate.latched then g else g.(gate := g.gate.(published := true))
    case Doomed => g.(gate := g.gate.(cancelled := true))
    case Listening => g.(directAtReturn := g.direct, parentAtReturn := g.parentDone)
    case Left => g.(gate := g.gate.(cancelled := true))
    case Closing => g.(listenCloses := g.listenCloses + 1)
    case Reading => g.(seen := g.first)
    case _ => g
  }

  // ---------------------------------------------------------------- watcher

  predicate WatcherCan(g: Shared, w: Watcher) {
    match w
    case Unborn => false
    case Select => g.parentDone || g.listenCloses > 0
    case Run(b) => b.Over? || BodyCan(g, b, g.watcherExpired)
    case Gone => false
    case _ => true
  }

  function WatcherNext(g: Shared, w: Watcher, err: Error, late: bool): (n: Watcher)
    requires WatcherCan(g, w)
  {
    match w
    case Select => Woken
    case Woken => if g.parentDone then Claim else Leave
    case Claim => if g.direct || g.claimed then Leave else Watcher.Run(Load)
    case Run(b) => if b.Over? then Signal else Watcher.Run(BodyNext(g, b, g.watcherExpired, err, late))
    case Signal => Leave
    case Leave => Gone
  }

  function WatcherEffect(g: Shared, w: Watcher): (h: Shared) {
    match w
    case Claim => if g.direct || g.claimed then g else g.(claimed := true)
    case Run(b) =>
      if b.Over? then g.(watcherErr := b.err)
      else g.(gate := BodyEffect(g.gate, b, ByWatcher), watcherHooked := Hooked(b, g.watcherHooked))
    case Signal => g.(claimCloses := g.claimCloses + 1)
    case Leave => g.(watcherCloses := g.watcherCloses + 1)
    case _ => g
  }

  function WatcherPast(h: History, w: Watcher, err: Error): (k: History) {
    match w
    case Run(b) => if b.Over? then h.(ended := Some(b.outcome)) else h.(told := Told(b, err, h.told))
    case _ => h
  }

  // ---------------------------------------------------------------- direct Shutdown calls

  predicate DirectCan(g: Shared, d: Direct) {
    match d.at
    case Join => g.claimCloses > 0 || d.expired
    case Run(b) => b.Over? || BodyCan(g, b, d.expired)
    case Back(_, _) => false
    case _ => true
  }

  function DirectNext(g: Shared, d: Direct, i: nat, err: Error, late: bool): (n: Direct)
    requires DirectCan(g, d)
  {
    match d.at
    case Enter => d.(at := if g.claimed then Join else Call.Run(Load), started := g.engine)
    case Join =>
      d.(at := Back(if g.claimCloses > 0 && !(late && d.expired) then g.watcherErr else ContextError, Joined))
    case Run(b) =>
      if !b.Over? then
        d.(at := Call.Run(BodyNext(g, b, d.expired, err, late)),
           hooked := Hooked(b, d.hooked), told := Told(b, err, d.told))
      else if g.first == Some(i) then d.(at := Close(b.err, b.outcome))
      else d.(at := Back(b.err, b.outcome))
    case Close(e, o) => d.(at := Back(e, o))
  }

  function DirectEffect(g: Shared, d: Direct, i: nat): (h: Shared) {
    match d.at
    case Enter =>
      if g.claimed then g
      else g.(direct := true, first := if g.first.None? then Some(i) else g.first)
    case Run(b) => if b.Over? then g else g.(gate := BodyEffect(g.gate, b, ByDirect(i)))
    case Close(_, _) => g.(directCloses := g.directCloses + 1)
    case _ => g
  }

  // ---------------------------------------------------------------- runs

  predicate Can(s: State, m: Move) {
    match m
    case CallStart => s.start.Idle?
    case CallShutdown => true
    case CancelParent => s.g.watching
    case Expire(i) => i < |s.directs|
    case ExpireWatcher => true
    case ListenFails => s.start.Listening?
    case StartStep => StartCan(s.g, s.start)
    case WatcherStep(_, _) => WatcherCan(s.g, s.watcher)
    case DirectStep(i, _, _) => i < |s.directs| && DirectCan(s.g, s.directs[i])
  }

  /** The watcher is started by the Start call, before Listen. */
  function Spawned(s: State): (w: Watcher) {
    if s.start.Prepared? && s.g.watching then Select else s.watcher
  }

  function After(s: State, m: Move): (t: State)
    requires Can(s, m)
  {
    match m
    case CallStart => s.(start := Prepared, g := s.g.(engine := true))
    case CallShutdown => s.(directs := s.directs + [Direct(Enter, false, 0, false, None)])
    case CancelParent => s.(g := s.g.(parentDone := true))
    case Expire(i) => s.(directs := s.directs[i := s.directs[i].(expired := true)])
    case ExpireWatcher => s.(g := s.g.(watcherExpired := true))
    case ListenFails => s.(start := Left, g := StartEffect(s.g, Listening))
    case StartStep =>
      s.(start := StartNext(s.g, s.start), g := StartEffect(s.g, s.start), watcher := Spawned(s))
    case WatcherStep(err, late) =>
      s.(watcher := WatcherNext(s.g, s.watcher, err, late), g := WatcherEffect(s.g, s.watcher),
         past := WatcherPast(s.past, s.watcher, err))
    case DirectStep(i, err, late) =>
      var d := s.directs[i];
      s.(directs := s.directs[i := DirectNext(s.g, d, i, err, late)], g := DirectEffect(s.g, d, i))
  }

  /** `ms` is a run from s. */
  predicate Runs(s: State, ms: seq<Move>)
    decreases |ms|
  {
    ms == [] || (Can(s, ms[0]) && Runs(After(s, ms[0]), ms[1..]))
  }

  function Reached(s: State, ms: seq<Move>): (t: State)
    requires Runs(s, ms)
    decreases |ms|
  {
    if ms == [] then s else Reached(After(s, ms[0]), ms[1..])
  }

  // ---------------------------------------------------------------- what every step keeps

  function Stage(p: Start): (n: nat) {
    match p
    case Idle => 0
    case Prepared => 1
    case Ready => 2
    case Doomed => 3
    case Listening => 4
    case Left => 5
    case Closing => 6
    case Reading => 7
    case Holding => 8
    case Trailing => 9
    case Returned => 10
  }

  /** What a shutdown's end says: its hooks ran once, after Listen had returned or because
      the context of the call ended, which is an error; or there was no server to shut
      down. */
  ghost predicate OutcomeTrue(g: Shared, err: Error, outcome: Outcome, hooked: nat, expired: bool) {
    && g.gate.latched
    && hooked == (if outcome == Bare then 0 else 1)
    && match outcome
       case Bare => err == Fine
       case Drained => g.engine && g.listenCloses > 0
       case CutShort => g.engine && expired && err != Fine
       case Joined => false
  }

  ghost predicate BodyTrue(g: Shared, b: Body, hooked: nat, expired: bool) {
    match b
    case Hook(err, drained) =>
      g.engine && g.gate.latched && hooked == 0 && if drained then g.listenCloses > 0 else expired && err != Fine
    case Over(err, outcome) => OutcomeTrue(g, err, outcome, hooked, expired)
    case _ =>
      && hooked == 0
      && (b.Load? || b.LatchBare? || b.CancelBare? || g.engine)
      && (b.Load? || b.LatchBare? || b.Engine? || b.Latch? || g.gate.latched)
  }

  predicate Ended(w: Watcher) {
    w.Leave? || w.Gone?
  }

  /** The watcher shuts down at most once, on a server that was started, and only after it
      claimed the shutdown. */
  ghost predicate WatcherTrue(g: Shared, w: Watcher) {
    && g.watcherCloses == (if w.Gone? then 1 else 0)
    && g.claimCloses == (if g.claimed && Ended(w) then 1 else 0)
    && match w
       case Run(b) => g.claimed && g.engine && BodyTrue(g, b, g.watcherHooked, g.watcherExpired)
                      && !b.LatchBare? && !b.CancelBare? && !(b.Over? && b.outcome.Bare?)
       case Signal => g.claimed && WatcherReport(g)
       case Leave => WatcherLeft(g)
       case Gone => WatcherLeft(g)
       case _ => !g.claimed && g.watcherHooked == 0
                 && (w.Woken? ==> g.parentDone || g.listenCloses > 0) && (w.Claim? ==> g.parentDone)
  }

  /** The result of the watcher's shutdown. */
  ghost predicate WatcherReport(g: Shared) {
    g.watcherHooked == 1 && (g.watcherErr == Fine ==> g.listenCloses > 0)
  }

  ghost predicate WatcherLeft(g: Shared) {
    if g.claimed then WatcherReport(g)
    else g.watcherHooked == 0 && (g.direct || (g.listenCloses > 0 && !g.parentAtReturn))
  }

  ghost predicate DirectTrue(g: Shared, d: Direct, i: nat) {
    match d.at
    case Enter => g.first != Some(i) && d.hooked == 0
    case Join => g.claimed && g.first != Some(i) && d.hooked == 0
    case Run(b) => g.direct && BodyTrue(g, b, d.hooked, d.expired)
    case Close(err, outcome) => g.first == Some(i) && OutcomeTrue(g, err, outcome, d.hooked, d.expired)
    case Back(err, outcome) =>
      if outcome == Joined then
        && g.claimed && g.first != Some(i) && d.hooked == 0
        && ((err == g.watcherErr && g.claimCloses > 0) || (err == ContextError && d.expired))
      else
        g.direct && OutcomeTrue(g, err, outcome, d.hooked, d.expired)
  }

  /** Direct calls and the watcher exclude each other; the first direct call owns the
      channel that Start waits for, and closes it once. */
  ghost predicate ClaimsTrue(g: Shared, directs: seq<Direct>) {
    && !(g.direct && g.claimed)
    && (g.direct <==> g.first.Some?)
    && (g.first.Some? ==> g.first.value < |directs|)
    && g.directCloses == (if g.first.Some? && directs[g.first.value].at.Back? then 1 else 0)
    && (forall i {:trigger directs[i]} :: 0 <= i < |directs| ==> DirectTrue(g, directs[i], i))
  }

  ghost predicate StartTrue(g: Shared, p: Start) {
    && (g.engine <==> Stage(p) > 0)
    && (g.parentDone ==> g.watching)
    && g.listenCloses == (if Stage(p) >= 7 then 1 else 0)
    && (Stage(p) < 5 ==> !g.directAtReturn && !g.parentAtReturn)
    && (g.directAtReturn ==> g.direct) && (g.parentAtReturn ==> g.parentDone)
    && (Stage(p) >= 8 && g.directAtReturn ==> g.seen.Some?)
    && (g.seen.Some? ==> g.seen == g.first)
    && (Stage(p) >= 9 && g.seen.Some? ==> g.directCloses == 1)
    && (Stage(p) == 10 && g.watching ==> g.watcherCloses == 1)
  }

  /** Once a shutdown is latched, the context Listen runs under is cancelled, or the call
      that cancels it is on its way. */
  ghost predicate LatchTrue(s: State) {
    && (s.g.gate.published <==> Stage(s.start) >= 4 && !s.g.gate.latched)
    && (s.start.Doomed? ==> s.g.gate.latched)
    && (Stage(s.start) >= 4 && s.g.gate.latched ==> s.g.gate.cancelled || Pending(s))
  }

  ghost predicate Pending(s: State) {
    match s.g.gate.taker
    case None => false
    case Some(ByWatcher) => s.watcher.Run? && Holds(s.watcher.body)
    case Some(ByDirect(i)) => i < |s.directs| && s.directs[i].at.Run? && Holds(s.directs[i].at.body)
  }

  ghost predicate Inv(s: State) {
    && (s.watcher.Unborn? <==> !s.g.watching || Stage(s.start) < 2)
    && StartTrue(s.g, s.start) && WatcherTrue(s.g, s.watcher)
    && ClaimsTrue(s.g, s.directs) && LatchTrue(s)
  }

  /** How the shared state may change while a thread that does not step looks on. */
  ghost predicate Grew(g: Shared, h: Shared) {
    && (g.engine ==> h.engine) && (g.gate.latched ==> h.gate.latched)
    && (g.claimed ==> h.claimed) && (g.direct ==> h.direct)
    && g.listenCloses <= h.listenCloses && g.claimCloses <= h.claimCloses
    && (g.first.Some? ==> h.first == g.first)
    && (g.claimCloses > 0 ==> h.watcherErr == g.watcherErr)
  }

  lemma DirectStays(g: Shared, h: Shared, d: Direct, i: nat)
    requires DirectTrue(g, d, i) && Grew(g, h)
    requires h.first == Some(i) ==> g.first == Some(i)
    ensures DirectTrue(h, d, i)
  {
  }

  lemma ClaimsStay(g: Shared, h: Shared, directs: seq<Direct>)
    requires ClaimsTrue(g, directs) && Grew(g, h)
    requires h.direct == g.direct && h.first == g.first && h.directCloses == g.directCloses
    requires !(h.direct && h.claimed)
    ensures ClaimsTrue(h, directs)
  {
    forall i {:trigger directs[i]} | 0 <= i < |directs| ensures DirectTrue(h, directs[i], i) {
      DirectStays(g, h, directs[i], i);
    }
  }

  lemma InvInitial(watching: bool)
    ensures Inv(Initial(watching))
  {
  }

  // ---------------------------------------------------------------- a step of Start

  lemma StartFrame(g: Shared, p: Start)
    ensures var h := StartEffect(g, p);
      && Grew(g, h) && h.watching == g.watching
      && h.direct == g.direct && h.first == g.first && h.claimed == g.claimed && h.directCloses == g.directCloses
  {
  }

  lemma StartKeepsStart(g: Shared, p: Start, directs: seq<Direct>)
    requires StartTrue(g, p) && ClaimsTrue(g, directs) && StartCan(g, p) && g.watcherCloses <= 1
    ensures StartTrue(StartEffect(g, p), StartNext(g, p))
  {
  }

  lemma StartKeepsWatcher(s: State)
    requires Inv(s) && StartCan(s.g, s.start)
    ensures WatcherTrue(StartEffect(s.g, s.start), Spawned(s))
  {
  }

  lemma StartKeepsLatch(s: State)
    requires Inv(s) && StartCan(s.g, s.start)
    ensures LatchTrue(After(s, StartStep))
  {
  }

  lemma KeepsStart(s: State)
    requires Inv(s) && StartCan(s.g, s.start)
    ensures Inv(After(s, StartStep))
  {
    StartFrame(s.g, s.start);
    StartKeepsStart(s.g, s.start, s.directs);
    StartKeepsWatcher(s);
    StartKeepsLatch(s);
    ClaimsStay(s.g, StartEffect(s.g, s.start), s.directs);
  }

  // ---------------------------------------------------------------- a step of shutdown's body

  lemma BodyKeepsBody(g: Shared, b: Body, who: Who, hooked: nat, expired: bool, err: Error, late: bool)
    requires BodyTrue(g, b, hooked, expired) && BodyCan(g, b, expired)
    ensures BodyTrue(g.(gate := BodyEffect(g.gate, b, who)), BodyNext(g, b, expired, err, late),
                     Hooked(b, hooked), expired)
  {
  }

  /** The CancelFunc is taken by whoever latches first, who then calls it. */
  lemma BodyKeepsGate(l: Gate, b: Body, who: Who, p: Start)
    requires l.published <==> Stage(p) >= 4 && !l.latched
    ensures var k := BodyEffect(l, b, who);
      && (k.published <==> Stage(p) >= 4 && !k.latched)
      && (l.latched ==> k.latched && k.taker == l.taker)
      && (Holds(b) || l.cancelled ==> k.cancelled)
      && (!l.latched && k.latched && Stage(p) >= 4 ==> k.taker == Some(who) && (b.Latch? || b.LatchBare?))
  {
  }

  // ---------------------------------------------------------------- a step of the watcher

  lemma WatcherFrame(g: Shared, w: Watcher, directs: seq<Direct>)
    requires WatcherTrue(g, w) && ClaimsTrue(g, directs)
    ensures var h := WatcherEffect(g, w);
      && Grew(g, h)
      && h.watching == g.watching && h.engine == g.engine && h.parentDone == g.parentDone
      && h.direct == g.direct && h.first == g.first && h.directCloses == g.directCloses
      && !(h.direct && h.claimed)
      && h.listenCloses == g.listenCloses && h.seen == g.seen
      && h.directAtReturn == g.directAtReturn && h.parentAtReturn == g.parentAtReturn
  {
    WatcherGrows(g, w);
  }

  lemma WatcherGrows(g: Shared, w: Watcher)
    requires WatcherTrue(g, w)
    ensures Grew(g, WatcherEffect(g, w))
  {
  }

  lemma WatcherRuns(g: Shared, b: Body, err: Error, late: bool)
    requires WatcherTrue(g, Watcher.Run(b)) && BodyCan(g, b, g.watcherExpired)
    ensures WatcherTrue(WatcherEffect(g, Watcher.Run(b)), WatcherNext(g, Watcher.Run(b), err, late))
  {
    BodyKeepsBody(g, b, ByWatcher, g.watcherHooked, g.watcherExpired, err, late);
  }

  lemma WatcherKeepsWatcher(g: Shared, w: Watcher, err: Error, late: bool)
    requires WatcherTrue(g, w) && WatcherCan(g, w) && g.engine
    requires g.listenCloses > 0 && !g.parentDone ==> !g.parentAtReturn
    ensures WatcherTrue(WatcherEffect(g, w), WatcherNext(g, w, err, late))
  {
    if w.Run? && !w.body.Over? {
      WatcherRuns(g, w.body, err, late);
    }
  }

  lemma WatcherKeepsStart(g: Shared, w: Watcher, p: Start, directs: seq<Direct>)
    requires StartTrue(g, p) && WatcherTrue(g, w) && WatcherCan(g, w) && ClaimsTrue(g, directs)
    ensures StartTrue(WatcherEffect(g, w), p)
  {
    WatcherFrame(g, w, directs);
  }

  lemma WatcherKeepsLatch(s: State, err: Error, late: bool)
    requires LatchTrue(s) && WatcherCan(s.g, s.watcher)
    ensures LatchTrue(After(s, WatcherStep(err, late)))
  {
    if s.watcher.Run? && !s.watcher.body.Over? {
      BodyKeepsGate(s.g.gate, s.watcher.body, ByWatcher, s.start);
    }
  }

  lemma KeepsWatcher(s: State, err: Error, late: bool)
    requires Inv(s) && WatcherCan(s.g, s.watcher)
    ensures Inv(After(s, WatcherStep(err, late)))
  {
    WatcherFrame(s.g, s.watcher, s.directs);
    WatcherKeepsStart(s.g, s.watcher, s.start, s.directs);
    WatcherKeepsWatcher(s.g, s.watcher, err, late);
    ClaimsStay(s.g, WatcherEffect(s.g, s.watcher), s.directs);
    WatcherKeepsLatch(s, err, late);
  }

  // ---------------------------------------------------------------- a step of a direct call

  lemma DirectKeepsDirect(g: Shared, d: Direct, i: nat, err: Error, late: bool)
    requires DirectTrue(g, d, i) && DirectCan(g, d) && (g.direct <==> g.first.Some?)
    ensures DirectTrue(DirectEffect(g, d, i), DirectNext(g, d, i, err, late), i)
  {
    if d.at.Run? && !d.at.body.Over? {
      BodyKeepsBody(g, d.at.body, ByDirect(i), d.hooked, d.expired, err, late);
    }
  }

  lemma DirectFrame(g: Shared, d: Direct, i: nat)
    requires DirectTrue(g, d, i) && !(g.direct && g.claimed) && (g.direct <==> g.first.Some?)
    ensures var h := DirectEffect(g, d, i);
      && Grew(g, h) && !(h.direct && h.claimed) && (h.direct <==> h.first.Some?)
      && h == g.(gate := h.gate, direct := h.direct, first := h.first, directCloses := h.directCloses)
      && (h.first == g.first || (g.first.None? && h.first == Some(i) && d.at.Enter?))
      && h.directCloses == g.directCloses + (if d.at.Close? then 1 else 0)
  {
  }

  lemma DirectKeepsClaims(s: State, k: nat, err: Error, late: bool)
    requires ClaimsTrue(s.g, s.directs) && k < |s.directs| && DirectCan(s.g, s.directs[k])
    ensures var t := After(s, DirectStep(k, err, late)); ClaimsTrue(t.g, t.directs)
  {
    var t := After(s, DirectStep(k, err, late));
    DirectFrame(s.g, s.directs[k], k);
    DirectKeepsDirect(s.g, s.directs[k], k, err, late);
    forall i {:trigger t.directs[i]} | 0 <= i < |t.directs| ensures DirectTrue(t.g, t.directs[i], i) {
      if i != k {
        DirectStays(s.g, t.g, s.directs[i], i);
      }
    }
  }

  lemma DirectKeepsStart(g: Shared, d: Direct, i: nat, p: Start)
    requires StartTrue(g, p) && DirectTrue(g, d, i) && !(g.direct && g.claimed) && (g.direct <==> g.first.Some?)
    requires d.at.Close? ==> g.directCloses == 0
    ensures StartTrue(DirectEffect(g, d, i), p)
  {
    DirectFrame(g, d, i);
  }

  lemma DirectKeepsWatcher(g: Shared, h: Shared, w: Watcher)
    requires WatcherTrue(g, w) && Grew(g, h)
    requires h == g.(gate := h.gate, direct := h.direct, first := h.first, directCloses := h.directCloses)
    ensures WatcherTrue(h, w)
  {
  }

  lemma DirectKeepsLatch(s: State, k: nat, err: Error, late: bool)
    requires LatchTrue(s) && k < |s.directs| && DirectCan(s.g, s.directs[k])
    ensures LatchTrue(After(s, DirectStep(k, err, late)))
  {
    if s.directs[k].at.Run? && !s.directs[k].at.body.Over? {
      BodyKeepsGate(s.g.gate, s.directs[k].at.body, ByDirect(k), s.start);
    }
  }

  lemma KeepsDirect(s: State, k: nat, err: Error, late: bool)
    requires Inv(s) && k < |s.directs| && DirectCan(s.g, s.directs[k])
    ensures Inv(After(s, DirectStep(k, err, late)))
  {
    DirectKeepsClaims(s, k, err, late);
    DirectFrame(s.g, s.directs[k], k);
    DirectKeepsStart(s.g, s.directs[k], k, s.start);
    DirectKeepsWatcher(s.g, DirectEffect(s.g, s.directs[k], k), s.watcher);
    DirectKeepsLatch(s, k, err, late);
  }

  // ---------------------------------------------------------------- every run

  lemma KeepsCallStart(s: State)
    requires Inv(s) && s.start.Idle?
    ensures Inv(After(s, CallStart))
  {
    ClaimsStay(s.g, After(s, CallStart).g, s.directs);
  }

  lemma KeepsCall(s: State)
    requires Inv(s)
    ensures Inv(After(s, CallShutdown))
  {
  }

  lemma KeepsExpire(s: State, k: nat)
    requires Inv(s) && k < |s.directs|
    ensures Inv(After(s, Expire(k)))
  {
    var t := After(s, Expire(k));
    forall i {:trigger t.directs[i]} | 0 <= i < |t.directs| ensures DirectTrue(t.g, t.directs[i], i) {
      assert DirectTrue(s.g, s.directs[i], i);
    }
  }

  lemma KeepsListenFails(s: State)
    requires Inv(s) && s.start.Listening?
    ensures Inv(After(s, ListenFails))
  {
    StartFrame(s.g, Listening);
    ClaimsStay(s.g, StartEffect(s.g, Listening), s.directs);
  }

  lemma KeepsContexts(s: State, m: Move)
    requires Inv(s) && (m == ExpireWatcher || (m == CancelParent && s.g.watching))
    ensures Inv(After(s, m))
  {
    ClaimsStay(s.g, After(s, m).g, s.directs);
  }

  lemma Keeps(s: State, m: Move)
    requires Inv(s) && Can(s, m)
    ensures Inv(After(s, m))
  {
    match m
    case CallStart => KeepsCallStart(s);
    case CallShutdown => KeepsCall(s);
    case CancelParent => KeepsContexts(s, m);
    case Expire(i) => KeepsExpire(s, i);
    case ExpireWatcher => KeepsContexts(s, m);
    case ListenFails => KeepsListenFails(s);
    case StartStep => KeepsStart(s);
    case WatcherStep(err, late) => KeepsWatcher(s, err, late);
    case DirectStep(i, err, late) => KeepsDirect(s, i, err, late);
  }

  /** Inv holds in every state of every run. */
  lemma {:induction false} RunKeeps(s: State, ms: seq<Move>)
    requires Inv(s) && Runs(s, ms)
    ensures Inv(Reached(s, ms))
    decreases |ms|
  {
    if ms != [] {
      Keeps(s, ms[0]);
      RunKeeps(After(s, ms[0]), ms[1..]);
    }
  }
}
