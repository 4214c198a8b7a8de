/** Waking a blocked read when the caller's context ends (driver/memcached/conn.go). The
    command's goroutine, the callbacks that contexts start on their own goroutines, and
    Close interleave; a step is one lock section, one channel operation or one call on the
    socket. */
module Wake {
  /** Where the command's goroutine stands: between commands, in armWake, in the command
      itself, in disarmWake. */
  datatype Phase =
    | Idle
    | Registering
    | Setting
    | Serving
    | Clearing
    | Stopping
    | Awaiting
    | Ending

  /** The callback of one armed command: waiting for its context to end, on its goroutine
      before and after its lock section, over, or stopped before it started. */
  datatype Callback = Registered | Started | Locked | Over | Stopped

  datatype Deadline = Unset | Limit | Past

  datatype State = State(
    phase: Phase,
    armed: bool,              // wakeStop is set
    limited: bool,            // the command set a deadline of its own
    callbacks: seq<Callback>, // of all commands that armed one, in order
    fired: bool,              // wakeFired
    done: bool,               // wakeDone
    ran: nat,                 // tokens in wakeRan
    deadline: Deadline,       // the socket's
    closed: bool,
    late: bool)               // history: the callback's lock section came after Set

  function Initial(): (s: State) {
    State(Idle, false, false, [], false, false, 0, Unset, false, false)
  }

  datatype Move =
    | Begin(arms: bool)
    | Register
    | Set(limited: bool)
    | Return
    | Clear
    | Stop
    | Await
    | End
    | ContextEnds(i: nat)
    | Lock(i: nat)
    | Signal(i: nat)
    | Close

  function Last(s: State): (i: nat)
    requires s.callbacks != []
  {
    |s.callbacks| - 1
  }

  predicate Can(s: State, m: Move) {
    match m
    case Begin(_) => s.phase.Idle?
    case Register => s.phase.Registering?
    case Set(_) => s.phase.Setting?
    case Return => s.phase.Serving?
    case Clear => s.phase.Clearing?
    case Stop => s.phase.Stopping? && (s.armed ==> s.callbacks != [])
    case Await => s.phase.Awaiting? && s.ran > 0
    case End => s.phase.Ending?
    case ContextEnds(i) => i < |s.callbacks| && s.callbacks[i].Registered?
    case Lock(i) => i < |s.callbacks| && s.callbacks[i].Started?
    case Signal(i) => i < |s.callbacks| && s.callbacks[i].Locked?
    case Close => true
  }

  /** SetDeadline, which a closed socket ignores. */
  function Deadlined(s: State, d: Deadline): (t: State) {
    if s.closed then s else s.(deadline := d)
  }

  function After(s: State, m: Move): (t: State)
    requires Can(s, m)
  {
    match m
    case Begin(arms) =>
      if arms then s.(phase := Registering, fired := false, done := false, late := false) else s.(phase := Setting)
    case Register => s.(phase := Setting, armed := true, callbacks := s.callbacks + [Registered])
    case Set(limited) => (if limited then Deadlined(s, Limit) else s).(phase := Serving, limited := limited)
    case Return => s.(phase := Clearing)
    case Clear => (if s.limited then Deadlined(s, Unset) else s).(phase := Stopping)
    case Stop =>
      if !s.armed then s.(phase := Idle)
      else if s.callbacks[Last(s)].Registered? then
        s.(phase := Ending, callbacks := s.callbacks[Last(s) := Stopped])
      else s.(phase := Awaiting)
    case Await => s.(phase := Ending, ran := s.ran - 1)
    case End => (if s.fired then Deadlined(s, Unset) else s).(phase := Idle, armed := false, done := true)
    case ContextEnds(i) => s.(callbacks := s.callbacks[i := Started])
    case Lock(i) =>
      var t := s.(callbacks := s.callbacks[i := Locked]);
      if s.done then t else Deadlined(t, Past).(fired := true, late := !s.phase.Setting?)
    case Signal(i) => s.(callbacks := s.callbacks[i := Over], ran := if s.ran == 0 then 1 else s.ran)
    case Close => s.(closed := true)
  }

  predicate Runs(s: State, ms: seq<Move>)
    decreases |ms|
  {
    ms == [] || (Can(s, ms[0]) && Runs(After(s, ms[0]), ms[1..]))
  }

  function Reached(s: State, ms: seq<Move>): (t: State)
    requires Runs(s, ms)
    decreases |ms|
  {
    if ms == [] then s else Reached(After(s, ms[0]), ms[1..])
  }

  // ---------------------------------------------------------------- what every step keeps

  predicate Finished(c: Callback) {
    c.Over? || c.Stopped?
  }

  /** Only the callback of the armed command can still be about; the others are finished. */
  ghost predicate CallbacksTrue(s: State) {
    && (s.armed ==> s.callbacks != [])
    && (forall i :: 0 <= i < |s.callbacks| && !(s.armed && i == Last(s)) ==> Finished(s.callbacks[i]))
  }

  /** The token in wakeRan is that of the armed command's callback. */
  ghost predicate TokenTrue(s: State) {
    s.ran == (if s.armed && s.callbacks != [] && s.callbacks[Last(s)].Over? && !s.phase.Ending? then 1 else 0)
  }

  /** How the armed command's callback and the phase go together. */
  ghost predicate PhaseTrue(s: State) {
    && (s.phase.Idle? || s.phase.Registering? ==> !s.armed)
    && (s.phase.Registering? ==> !s.done && !s.fired)
    && (s.phase.Awaiting? || s.phase.Ending? ==> s.armed)
    && (s.armed && s.callbacks != [] ==>
          var c := s.callbacks[Last(s)];
          && !s.done
          && (s.fired <==> c.Locked? || c.Over?)
          && (s.phase.Awaiting? ==> !c.Registered?)
          && (if s.phase.Ending? then Finished(c) else !c.Stopped?))
  }

  /** An open socket has a deadline only while a command is there that will clear it. */
  ghost predicate DeadlineTrue(s: State) {
    !s.closed && !s.deadline.Unset? ==>
      (s.limited && (s.phase.Serving? || s.phase.Clearing?)) || (s.armed && s.fired)
  }

  /** What became of the wake, while the command may be blocked in its read. */
  ghost predicate WakeTrue(s: State) {
    s.armed && s.fired && !s.closed ==>
      && (s.phase.Setting? ==> s.deadline.Past? && !s.late)
      && (s.phase.Serving? || s.phase.Clearing? ==> (s.deadline.Past? <==> s.late || !s.limited))
  }

  ghost predicate Inv(s: State) {
    CallbacksTrue(s) && TokenTrue(s) && PhaseTrue(s) && DeadlineTrue(s) && WakeTrue(s)
  }

  predicate OfCommand(m: Move) {
    !m.ContextEnds? && !m.Lock? && !m.Signal? && !m.Close?
  }

  lemma CommandKeeps(s: State, m: Move)
    requires Inv(s) && Can(s, m) && OfCommand(m)
    ensures Inv(After(s, m))
  {
  }

  /** A callback that can step is the armed command's. */
  lemma OnlyLast(s: State, i: nat)
    requires CallbacksTrue(s) && i < |s.callbacks| && !Finished(s.callbacks[i])
    ensures s.armed && i == Last(s)
  {
  }

  lemma CallbackKeeps(s: State, m: Move)
    requires Inv(s) && Can(s, m) && !OfCommand(m)
    ensures Inv(After(s, m))
  {
    if !m.Close? {
      OnlyLast(s, m.i);
    }
  }

  lemma Keeps(s: State, m: Move)
    requires Inv(s) && Can(s, m)
    ensures Inv(After(s, m))
  {
    if OfCommand(m) {
      CommandKeeps(s, m);
    } else {
      CallbackKeeps(s, m);
    }
  }

  lemma {:induction false} RunKeeps(s: State, ms: seq<Move>)
    requires Inv(s) && Runs(s, ms)
    ensures Inv(Reached(s, ms))
    decreases |ms|
  {
    if ms != [] {
      Keeps(s, ms[0]);
      RunKeeps(After(s, ms[0]), ms[1..]);
    }
  }

  /** Between commands no callback is still to run, wakeRan is empty, and an open
      connection carries no deadline; so it is when the next command arms. */
  lemma Isolated(ms: seq<Move>)
    requires Runs(Initial(), ms)
    requires var s := Reached(Initial(), ms); s.phase.Idle? || s.phase.Registering?
    ensures var s := Reached(Initial(), ms);
      && (forall i :: 0 <= i < |s.callbacks| ==> Finished(s.callbacks[i]))
      && s.ran == 0
      && (!s.closed ==> s.deadline.Unset?)
  {
    RunKeeps(Initial(), ms);
  }

  /** A callback's lock section runs during its own command. */
  lemma OwnCommand(ms: seq<Move>, i: nat)
    requires Runs(Initial(), ms) && Can(Reached(Initial(), ms), Lock(i))
    ensures var s := Reached(Initial(), ms); s.armed && i == Last(s) && !s.phase.Idle?
  {
    RunKeeps(Initial(), ms);
  }

  /** When the context's end wakes the read: while the command is served on an open socket and
      its callback has had its lock section, the deadline has passed if and only if the lock
      section came after the command set its own deadline, or it set none. */
  lemma WakesTheRead(ms: seq<Move>)
    requires Runs(Initial(), ms)
    requires var s := Reached(Initial(), ms); s.phase.Serving? && s.armed && s.fired && !s.closed
    ensures var s := Reached(Initial(), ms); s.deadline == Past <==> s.late || !s.limited
  {
    RunKeeps(Initial(), ms);
  }

  /** A context that ends between armWake and the command's SetDeadline does not wake the
      read: the command overwrites the wake with its own limit, and sleeps up to it. */
  lemma WakeOverwritten()
    ensures var ms := [Begin(true), Register, ContextEnds(0), Lock(0), Set(true)];
      && Runs(Initial(), ms)
      && var s := Reached(Initial(), ms);
         s.phase.Serving? && s.armed && s.fired && !s.closed && s.deadline == Limit
  {
    var ms := [Begin(true), Register, ContextEnds(0), Lock(0), Set(true)];
    var s1 := After(Initial(), Begin(true));
    var s2 := After(s1, Register);
    var s3 := After(s2, ContextEnds(0));
    var s4 := After(s3, Lock(0));
    assert ms[1..] == [Register, ContextEnds(0), Lock(0), Set(true)];
    assert ms[1..][1..] == [ContextEnds(0), Lock(0), Set(true)];
    assert ms[1..][1..][1..] == [Lock(0), Set(true)];
    assert ms[1..][1..][1..][1..] == [Set(true)];
    assert ms[1..][1..][1..][1..][1..] == [];
    assert Runs(s4, [Set(true)]) && Reached(s4, [Set(true)]) == After(s4, Set(true));
    assert Runs(s3, [Lock(0), Set(true)]);
    assert Runs(s2, [ContextEnds(0), Lock(0), Set(true)]);
  }

  /** disarmWake's wait ends: the callback it waits for can go on, or has signalled. */
  lemma AwaitEnds(ms: seq<Move>)
    requires Runs(Initial(), ms) && Reached(Initial(), ms).phase.Awaiting?
    ensures var s := Reached(Initial(), ms);
      s.callbacks != [] && (Can(s, Lock(Last(s))) || Can(s, Signal(Last(s))) || Can(s, Await))
  {
    RunKeeps(Initial(), ms);
  }
}
