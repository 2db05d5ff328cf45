/** One connection of the wrapper's terminal host: the output pump and the snapshot
    replies feed a bounded queue, one goroutine writes it to the socket, and an overflow
    cancels the connection instead of leaving a gap. */
module HostSocket {
  import opened Bytes
  import opened Sequences
  import opened Channels

  type Frame = seq<Byte>

  const QUEUE := 256

  /** The writer goroutine: between frames, inside a write (`doomed` when that write was
      begun under a cancelled context), or returned. */
  datatype Writer = Idle | Writing(frame: Frame, doomed: bool) | Stopped

  datatype State = State(send: Chan<Frame>, writer: Writer, wire: seq<Frame>, cancelled: bool)

  datatype Event =
    | Enqueue(b: Frame)      // by the pump or by a snapshot reply
    | Cancel                 // the parent, a failed ping or read, the end of the terminal
    | Pick                   // the writer's select takes a frame, even if cancelled too
    | WriteSucceeds
    | WriteFails
    | Stop                   // the writer's select takes the cancellation

  const INIT := State(NewChan(QUEUE), Idle, [], false)

  /** One step; an event that cannot happen changes nothing. A write begun under a
      cancelled context can only fail. */
  function Step(s: State, e: Event): State {
    match e
    case Enqueue(b) => EnqueueStep(s, b)
    case Cancel => s.(cancelled := true)
    case Pick =>
      if s.writer == Idle && s.send.queue != []
          then s.(send := s.send.Take(), writer := Writing(s.send.queue[0], s.cancelled)) else s
    case WriteSucceeds =>
      if s.writer.Writing? && !s.writer.doomed then s.(wire := s.wire + [s.writer.frame], writer := Idle) else s
    case WriteFails =>
      if s.writer.Writing? then s.(cancelled := true, writer := Stopped) else s
    case Stop =>
      if s.writer == Idle && s.cancelled then s.(writer := Stopped) else s
  }

  function EnqueueStep(s: State, b: Frame): State {
    if s.send.closed then s
    else if |s.send.queue| < s.send.cap then s.(send := s.send.Offer(b))
    else s.(send := s.send.Offer(b), cancelled := true)
  }

  function Run(es: seq<Event>): State {
    if es == [] then INIT else Step(Run(es[..|es| - 1]), es[|es| - 1])
  }

  /** The frame that may still be written after the wire's last. */
  function InFlight(w: Writer): seq<Frame> {
    if w.Writing? && !w.doomed then [w.frame] else []
  }

  ghost predicate Inv(s: State) {
    && s.send.cap == QUEUE && !s.send.closed && s.send.Sound()
    && (s.send.overflowed ==> s.cancelled)
    && (s.writer.Writing? && s.writer.doomed ==> s.cancelled)
    && (s.writer == Stopped ==> s.cancelled)
    && (!s.cancelled ==> s.wire + InFlight(s.writer) == s.send.taken)
    && s.wire + InFlight(s.writer) <= s.send.offered
  }

  lemma EnqueueKeeps(s: State, b: Frame)
    requires Inv(s)
    ensures Inv(EnqueueStep(s, b))
  {
    s.send.OfferSound(b);
  }

  lemma PickKeeps(s: State)
    requires Inv(s)
    ensures Inv(Step(s, Pick))
  {
    if s.writer == Idle && s.send.queue != [] {
      s.send.TakeSound();
      if !s.cancelled {
        var frame := s.send.queue[0];
        assert s.wire == s.send.taken;
        assert s.send.taken + s.send.queue == s.send.taken + [frame] + s.send.queue[1..];
        assert s.wire + [frame] <= s.send.offered;
      }
    }
  }

  lemma StepKeeps(s: State, e: Event)
    requires Inv(s)
    ensures Inv(Step(s, e))
  {
    match e
    case Enqueue(b) => EnqueueKeeps(s, b);
    case Pick => PickKeeps(s);
    case WriteSucceeds =>
      assert s.wire + InFlight(s.writer) + [] == s.wire + InFlight(s.writer);
    case _ =>
  }

  lemma {:induction false} RunKeeps(es: seq<Event>)
    ensures Inv(Run(es))
  {
    if es != [] {
      RunKeeps(es[..|es| - 1]);
      StepKeeps(Run(es[..|es| - 1]), es[|es| - 1]);
    }
  }

  /** The frames handed to `enqueue`, in order. */
  function Attempts(es: seq<Event>): seq<Frame> {
    if es == [] then []
    else
      var rest, e := Attempts(es[..|es| - 1]), es[|es| - 1];
      if e.Enqueue? then rest + [e.b] else rest
  }

  lemma StepOffers(s: State, e: Event)
    requires !s.send.closed
    ensures !Step(s, e).send.closed
    ensures Step(s, e).send.offered == if e.Enqueue? then s.send.offered + [e.b] else s.send.offered
  {
  }

  lemma {:induction false} OfferedAreAttempts(es: seq<Event>)
    ensures !Run(es).send.closed && Run(es).send.offered == Attempts(es)
  {
    if es != [] {
      OfferedAreAttempts(es[..|es| - 1]);
      StepOffers(Run(es[..|es| - 1]), es[|es| - 1]);
    }
  }

  /** What has been written on one connection is always a prefix of what was handed to
      it, even after an overflow; while it is not cancelled, the rest is on its way. */
  lemma NoGaps(es: seq<Event>)
    ensures Run(es).wire <= Attempts(es)
    ensures !Run(es).cancelled ==> Run(es).wire + InFlight(Run(es).writer) + Run(es).send.queue == Attempts(es)
  {
    RunKeeps(es);
    OfferedAreAttempts(es);
    var s := Run(es);
    assert s.wire <= s.wire + InFlight(s.writer) <= s.send.offered;
  }

  /** A frame joins a queue of fewer than 256; one that finds 256 cancels the connection.
      Nothing else is cancelled by it. */
  lemma OverflowCancelsExactly(es: seq<Event>, b: Frame)
    ensures var s, t := Run(es), Step(Run(es), Enqueue(b));
            && t.send.queue == (if |s.send.queue| < 256 then s.send.queue + [b] else s.send.queue)
            && (t.cancelled <==> s.cancelled || |s.send.queue| == 256)
            && t.wire == s.wire && t.writer == s.writer
  {
    RunKeeps(es);
  }

  /** A connection is cancelled, once and for all, by a cancel or by a failed write; the
      writer writes the frame it took, and stops when it finds the connection cancelled. */
  lemma WriterGoesOn(es: seq<Event>)
    ensures var s := Run(es);
            && Step(s, Cancel) == s.(cancelled := true)
            && (s.writer == Idle && s.send.queue != [] ==>
                  && Step(s, Pick).writer == Writing(s.send.queue[0], s.cancelled)
                  && Step(s, Pick).send.queue == s.send.queue[1..])
            && (s.writer.Writing? && !s.writer.doomed ==>
                  Step(s, WriteSucceeds) == s.(wire := s.wire + [s.writer.frame], writer := Idle))
            && (s.writer.Writing? ==> Step(s, WriteFails) == s.(cancelled := true, writer := Stopped))
            && (s.writer == Idle && s.cancelled ==> Step(s, Stop) == s.(writer := Stopped))
  {
  }

  class Socket {
    var send: Chan<Frame>
    var writer: Writer
    var wire: seq<Frame>
    var cancelled: bool

    ghost function View(): State
      reads this
    {
      State(send, writer, wire, cancelled)
    }

    constructor ()
      ensures View() == INIT
    {
      send, writer, wire, cancelled := NewChan(QUEUE), Idle, [], false;
    }

    method Enqueue(b: Frame)
      requires !send.closed
      modifies this
      ensures View() == Step(old(View()), Event.Enqueue(b))
    {
      if |send.queue| >= send.cap {
        cancelled := true;
      }
      send := send.Offer(b);
    }

    /** A browser attached: clear its screen, then paint ours. */
    method ReplySnapshot(screen: Frame)
      requires !send.closed
      modifies this
      ensures View() == Step(old(View()), Event.Enqueue([27, 91, 50, 74, 27, 91, 72] + screen))
    {
      Enqueue([27, 91, 50, 74, 27, 91, 72] + screen);
    }

    /** One turn of the writer goroutine on a frame; `accepted` is the network's answer to a
        write whose context stays live. */
    method WriteOne(accepted: bool)
      requires writer == Idle && send.queue != []
      modifies this
      ensures View() == Step(Step(old(View()), Pick), if accepted && !old(cancelled) then WriteSucceeds else WriteFails)
    {
      var b := send.queue[0];
      send := send.Take();
      if accepted && !cancelled {
        wire := wire + [b];
      } else {
        cancelled := true;
        writer := Stopped;
      }
    }
  }

  // ---- reconnecting ----------------------------------------------------------------

  const MIN_BACKOFF := 1_000_000_000
  const MAX_BACKOFF := 30_000_000_000
  const STABLE := 30_000_000_000

  /** How one connection ended. */
  datatype Outcome = Outcome(fatal: bool, lasted: int)

  function Pow2(n: nat): nat {
    if n == 0 then 1 else 2 * Pow2(n - 1)
  }

  function Capped(n: int): int {
    if n > MAX_BACKOFF then MAX_BACKOFF else n
  }

  /** The failures since the last connection that counts as healthy. */
  function Streak(outcomes: seq<Outcome>): nat {
    if outcomes == [] || outcomes[|outcomes| - 1].lasted >= STABLE then 0
    else if |outcomes| == 1 then 0
    else 1 + Streak(outcomes[..|outcomes| - 1])
  }

  /** The streak counts the connections, but for the first, that have ended since the last
      one to hold for half a minute. */
  lemma {:induction false} StreakCounts(outcomes: seq<Outcome>)
    requires outcomes != []
    ensures var k, n := Streak(outcomes), |outcomes|;
            && k < n
            && (forall i :: n - k <= i < n ==> outcomes[i].lasted < 30_000_000_000)
            && (k == n - 1 || outcomes[n - 1 - k].lasted >= 30_000_000_000)
  {
    if |outcomes| > 1 && outcomes[|outcomes| - 1].lasted < STABLE {
      StreakCounts(outcomes[..|outcomes| - 1]);
    }
  }

  lemma {:induction false} DoublingCaps(b: int, n: nat)
    requires b == Capped(MIN_BACKOFF * Pow2(n))
    ensures Capped(2 * b) == Capped(MIN_BACKOFF * Pow2(n + 1))
  {
    assert MIN_BACKOFF * Pow2(n + 1) == 2 * (MIN_BACKOFF * Pow2(n));
  }

  /** One second, doubled k times, up to thirty. */
  function WaitAfter(k: nat): int {
    if 1_000_000_000 * Pow2(k) > 30_000_000_000 then 30_000_000_000 else 1_000_000_000 * Pow2(k)
  }

  /** The reconnect loop: gives up on a fatal outcome only, and otherwise waits a time
      that doubles with each quick failure, from one second up to thirty. */
  method Reconnect(outcomes: seq<Outcome>) returns (waits: seq<int>)
    ensures |waits| <= |outcomes|
    ensures forall i :: 0 <= i < |waits| ==> !outcomes[i].fatal && waits[i] == WaitAfter(Streak(outcomes[..i + 1]))
    ensures |waits| < |outcomes| ==> outcomes[|waits|].fatal
  {
    waits := [];
    var backoff := MIN_BACKOFF;
    for i := 0 to |outcomes|
      invariant |waits| == i
      invariant forall k :: 0 <= k < i ==>
          !outcomes[k].fatal && waits[k] == Capped(MIN_BACKOFF * Pow2(Streak(outcomes[..k + 1])))
      invariant backoff == if i == 0 then MIN_BACKOFF else Capped(MIN_BACKOFF * Pow2(Streak(outcomes[..i]) + 1))
    {
      if outcomes[i].fatal {
        return;
      }
      assert outcomes[..i + 1][..i] == outcomes[..i];
      if outcomes[i].lasted >= STABLE {
        backoff := MIN_BACKOFF;
      }
      assert backoff == Capped(MIN_BACKOFF * Pow2(Streak(outcomes[..i + 1])));
      waits := waits + [backoff];
      DoublingCaps(backoff, Streak(outcomes[..i + 1]));
      backoff := 2 * backoff;
      if backoff > MAX_BACKOFF {
        backoff := MAX_BACKOFF;
      }
    }
  }
}
