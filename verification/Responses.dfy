/** The response of one request, as a value (context_response.go, handler.go): who owns it,
    and how often the request was answered. The wire is a counter of full responses. */
module Responses {
  /** What the engine's writer can do. */
  datatype Engine = Engine(hasWriter: bool, needsEmptyAnswer: bool, streams: bool)

  predicate Sensible(e: Engine) {
    (e.streams ==> e.hasWriter) && (e.needsEmptyAnswer ==> e.hasWriter)
  }

  /** Whether a StreamWriter was used while it did not own the response, and if so whether
      one was taken on the unwritten response since. */
  datatype Stray = NoStray | Loose | Retaken

  datatype Response = Response(
    written: bool,
    buffered: bool,
    detached: bool,
    hijacked: bool,
    depth: nat,              // bufferDepth
    takenOnly: bool,         // streamTakenOnly
    used: bool,              // streamUsed
    taken: bool,             // someone holds a StreamWriter
    writes: nat,             // full responses on the wire
    writesAtDetach: nat,
    stray: Stray)

  function Unanswered(): (r: Response) {
    Response(false, false, false, false, 0, false, false, false, 0, 0, NoStray)
  }

  predicate Answered(r: Response) {
    r.written || r.buffered || r.detached
  }

  // ---------------------------------------------------------------- operations of a Context

  /** WriteResponse on the engine's writer, if there is one. */
  function Sent(e: Engine, r: Response): (t: Response) {
    r.(written := true, writes := r.writes + if e.hasWriter then 1 else 0)
  }

  /** Blob and NoContent. */
  function Responded(e: Engine, r: Response): (t: Response) {
    if r.written || r.detached then r
    else if r.depth > 0 then r.(buffered := true)
    else Sent(e, r)
  }

  function Flushed(e: Engine, r: Response): (t: Response) {
    if r.written || !r.buffered then r
    else
      var d := r.(depth := if r.depth > 0 then r.depth - 1 else 0);
      if d.depth > 0 then d else Responded(e, d.(buffered := false))
  }

  function Discarded(r: Response): (t: Response) {
    r.(depth := if r.depth > 0 then r.depth - 1 else 0, buffered := false)
  }

  function StreamTaken(e: Engine, r: Response): (t: Response) {
    if r.depth > 0 || !e.streams then r
    else if r.written then r.(taken := true)
    else r.(taken := true, written := true, takenOnly := true,
            stray := if r.stray == Loose then Retaken else r.stray)
  }

  /** The first WriteHeader, Write, Flush or Close through a StreamWriter someone holds. */
  function StreamUsed(r: Response): (t: Response) {
    if !r.taken then r
    else r.(used := true, stray := if r.takenOnly then r.stray else Loose)
  }

  predicate Reclaimable(r: Response) {
    r.takenOnly && !r.detached && !r.used
  }

  /** reclaimUnusedStreamWriter. */
  function Reclaimed(r: Response): (t: Response) {
    if Reclaimable(r) then r.(takenOnly := false, written := false) else r
  }

  function Hijacked(e: Engine, r: Response, engineAgrees: bool): (t: Response) {
    if r.detached || r.written || !e.hasWriter || !engineAgrees then r else r.(written := true, hijacked := true)
  }

  function Detached(r: Response): (t: Response) {
    if r.detached then r else r.(detached := true, writesAtDetach := r.writes)
  }

  // ---------------------------------------------------------------- the adapter's ends

  /** The 500 of the deferred recover. */
  function AfterPanic(e: Engine, r: Response): (t: Response) {
    if r.detached then r
    else
      var q := if r.written then Reclaimed(r) else r;
      if q.written || !e.hasWriter then q else Sent(e, q)
  }

  /** A response a buffering middleware captured and did not send. */
  function CapturedFlushed(e: Engine, r: Response): (t: Response) {
    if r.buffered && !r.written then Flushed(e, r.(depth := 1)) else r
  }

  /** The matched tail: an engine that asks for it gets an empty answer. */
  function EmptyAnswered(e: Engine, r: Response): (t: Response) {
    if r.detached || !e.hasWriter then r
    else
      var q := if r.written then Reclaimed(r) else r;
      if q.written || !e.needsEmptyAnswer then q else Sent(e, q)
  }

  /** The tail of an unmatched or OPTIONS request. */
  function UnmatchedAnswered(e: Engine, r: Response): (t: Response) {
    if r.written || r.detached || !e.hasWriter then r else Sent(e, r)
  }

  // ---------------------------------------------------------------- one owner

  /** The response has at most one owner, and the flags tell which. */
  predicate Owned(e: Engine, r: Response) {
    && Sensible(e)
    && r.writes <= 1
    && (r.writes == 1 ==> e.hasWriter && r.written && !r.takenOnly && !r.hijacked)
    && (r.hijacked ==> e.hasWriter && r.written && !r.takenOnly)
    && (r.takenOnly ==> e.hasWriter && r.written && r.taken)
    && (r.written && e.hasWriter ==> r.writes == 1 || r.hijacked || r.takenOnly)
    && (r.buffered ==> !r.takenOnly && (r.written || r.depth > 0))
    && (r.detached ==> r.writes == r.writesAtDetach)
    && StrayTrue(r)
  }

  /** A use that is not the response's happened exactly if it was recorded, and the writer
      that owns the response is not to blame for it. */
  predicate StrayTrue(r: Response) {
    && (r.used ==> r.taken)
    && (r.stray != NoStray ==> r.used)
    && (r.used && !r.takenOnly <==> r.stray == Loose)
  }

  /** How many times the request was answered: by a full response, by whoever hijacked the
      connection, by a StreamWriter in use. */
  function Answers(r: Response): (n: nat) {
    r.writes + (if r.hijacked then 1 else 0) + (if r.used then 1 else 0)
  }

  /** The response has gone out, or is going out through its StreamWriter. */
  predicate Out(r: Response) {
    r.written && (r.takenOnly ==> r.used)
  }

  /** In every state with a writer the request was answered once if its response is out, not
      at all otherwise, and once more exactly if a StreamWriter was used while it did not
      own the response and none was taken on the unwritten response since. */
  lemma CountAnswers(e: Engine, r: Response)
    requires Owned(e, r) && e.hasWriter
    ensures Answers(r) == (if Out(r) then 1 else 0) + (if r.stray == Loose then 1 else 0)
    ensures r.stray == NoStray ==> Answers(r) <= 1
  {
  }

  lemma OperationsKeep(e: Engine, r: Response, engineAgrees: bool)
    requires Owned(e, r)
    ensures Owned(e, Responded(e, r)) && Owned(e, Flushed(e, r)) && Owned(e, Discarded(r))
    ensures Owned(e, StreamTaken(e, r)) && Owned(e, StreamUsed(r))
    ensures Owned(e, Hijacked(e, r, engineAgrees)) && Owned(e, Detached(r))
  {
  }

  /** The adapter's ends keep the owner, and what each of them is for: with a writer, a request
      that is not detached has its response out after a panic, and after the matched tail if
      the engine asks for it, which sends nothing otherwise; after the unmatched one unless a StreamWriter only marks it
      written. Nothing captured stays behind. */
  lemma EndsKeep(e: Engine, r: Response)
    requires Owned(e, r)
    ensures Owned(e, Reclaimed(r)) && Owned(e, AfterPanic(e, r)) && Owned(e, CapturedFlushed(e, r))
    ensures Owned(e, EmptyAnswered(e, r)) && Owned(e, UnmatchedAnswered(e, r))
    ensures var t := CapturedFlushed(e, r); !r.detached ==> t.written || !t.buffered
    ensures e.hasWriter && !r.detached ==> Out(AfterPanic(e, r))
    ensures e.hasWriter && !r.detached ==> AnsweredEmpty(e, EmptyAnswered(e, r))
    ensures e.hasWriter && !r.detached ==> UnlessTaken(UnmatchedAnswered(e, r))
    ensures !e.needsEmptyAnswer ==> EmptyAnswered(e, r).writes == r.writes
  {
  }

  /** What the matched tail leaves: out exactly if written, and written if the engine asks. */
  predicate AnsweredEmpty(e: Engine, r: Response) {
    (Out(r) <==> r.written) && (e.needsEmptyAnswer ==> r.written)
  }

  /** What the unmatched tail leaves: written, and out unless that can be taken back. */
  predicate UnlessTaken(r: Response) {
    r.written && (Out(r) <==> !Reclaimable(r))
  }

  // ---------------------------------------------------------------- what one call undoes

  /** Flush called n times. */
  function Flushes(e: Engine, r: Response, n: nat): (t: Response)
    decreases n
  {
    if n == 0 then r else Flushes(e, Flushed(e, r), n - 1)
  }

  /** Buffering is invisible: a response made under any number of further layers and flushed
      through all of them is the response made without them. */
  lemma {:induction false} BufferedThrough(e: Engine, r: Response, n: nat)
    requires !r.written && !r.detached && !r.buffered
    ensures Flushes(e, Responded(e, r.(depth := r.depth + n)), n) == Responded(e, r)
  {
    if n > 0 {
      BufferedThrough(e, r, n - 1);
      var s := Responded(e, r.(depth := r.depth + n));
      assert Flushed(e, s) == if r.depth + n == 1 then Responded(e, r) else s.(depth := r.depth + n - 1);
      if r.depth + n == 1 {
        assert r.(depth := 0) == r;
      }
    }
  }

  /** Discarding takes back what was made under one more layer. */
  lemma DiscardUndoes(e: Engine, r: Response)
    requires !r.buffered
    ensures Discarded(Responded(e, r.(depth := r.depth + 1))) == r
  {
  }

  /** Reclaiming an unused StreamWriter takes back the taking, but for the writer that is now
      in somebody's hands. */
  lemma ReclaimUndoes(e: Engine, r: Response)
    requires Owned(e, r) && !r.written && !r.used && !r.detached
    ensures Reclaimed(StreamTaken(e, r)) == r.(taken := r.taken || (r.depth == 0 && e.streams))
  {
  }

  /** A hijacked request is out of the framework's hands: no full response was or will be
      sent, and no later call changes the response's owner. */
  lemma HijackAlone(e: Engine, r: Response, agrees: bool)
    requires Owned(e, r) && r.hijacked
    ensures r.writes == 0 && Out(r)
    ensures Responded(e, r) == r && Flushed(e, r) == r && Hijacked(e, r, agrees) == r && Reclaimed(r) == r
    ensures AfterPanic(e, r) == r && EmptyAnswered(e, r) == r && UnmatchedAnswered(e, r) == r
    ensures !StreamTaken(e, r).takenOnly && CapturedFlushed(e, r) == r
  {
  }
}
