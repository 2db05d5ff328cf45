/** What the host is told: reading a log of offered frames peer by peer. */
module RelayLogs {
  import opened Bytes
  import opened RelayProtocol

  predicate Mentions(f: Frame, n: U32) {
    match f
    case Joined(m) => m == n
    case Left(m) => m == n
    case RoomClosed => false
    case Binary(data) => |data| >= ENVELOPE && GetU32(data) == n
  }

  /** The frames of a log that concern peer n, in order. */
  function About(log: seq<Frame>, n: U32): seq<Frame> {
    if log == [] then []
    else
      var rest := About(log[..|log| - 1], n);
      if Mentions(log[|log| - 1], n) then rest + [log[|log| - 1]] else rest
  }

  /** peer-joined, then stamped frames, then at most one peer-left, nothing else. */
  ghost predicate IsVisit(t: seq<Frame>, n: U32) {
    t != [] ==>
      && t[0] == Joined(n)
      && (forall i :: 1 <= i < |t| - 1 ==> t[i].Binary?)
      && (|t| > 1 ==> t[|t| - 1].Binary? || t[|t| - 1] == Left(n))
  }

  datatype Phase = Fresh | Active | Ended | Broken

  function Advance(p: Phase, f: Frame): Phase {
    match p
    case Fresh => if f.Joined? then Active else Broken
    case Active => if f.Binary? then Active else if f.Left? then Ended else Broken
    case _ => Broken
  }

  function PhaseOf(log: seq<Frame>, n: U32): Phase {
    if log == [] then Fresh
    else
      var p := PhaseOf(log[..|log| - 1], n);
      if Mentions(log[|log| - 1], n) then Advance(p, log[|log| - 1]) else p
  }

  function PhaseOfVisit(t: seq<Frame>): Phase {
    if t == [] then Fresh else if t[|t| - 1].Left? then Ended else Active
  }

  /** The automaton accepts a log exactly when its frames about n form one visit. */
  lemma {:induction false} PhaseMeansVisit(log: seq<Frame>, n: U32)
    ensures forall i :: 0 <= i < |About(log, n)| ==> Mentions(About(log, n)[i], n)
    ensures PhaseOf(log, n) != Broken <==> IsVisit(About(log, n), n)
    ensures PhaseOf(log, n) != Broken ==> PhaseOf(log, n) == PhaseOfVisit(About(log, n))
  {
    if log != [] {
      var f := log[|log| - 1];
      PhaseMeansVisit(log[..|log| - 1], n);
      var t := About(log[..|log| - 1], n);
      if Mentions(f, n) {
        var t' := t + [f];
        assert t'[..|t|] == t;
        if IsVisit(t', n) {
          assert forall i :: 0 <= i < |t| ==> t[i] == t'[i];
        }
      }
    }
  }

  /** The payloads the host was offered from peer n, envelopes removed. */
  function PayloadsOf(log: seq<Frame>, n: U32): seq<seq<Byte>> {
    if log == [] then []
    else
      var rest := PayloadsOf(log[..|log| - 1], n);
      var f := log[|log| - 1];
      if f.Binary? && Mentions(f, n) then rest + [f.data[ENVELOPE..]] else rest
  }

  function Closings(log: seq<Frame>): nat {
    if log == [] then 0
    else Closings(log[..|log| - 1]) + (if log[|log| - 1].RoomClosed? then 1 else 0)
  }

  lemma LogGrows(log: seq<Frame>, f: Frame, n: U32)
    ensures PhaseOf(log + [f], n) == if Mentions(f, n) then Advance(PhaseOf(log, n), f) else PhaseOf(log, n)
    ensures PayloadsOf(log + [f], n) ==
            if f.Binary? && Mentions(f, n) then PayloadsOf(log, n) + [f.data[ENVELOPE..]] else PayloadsOf(log, n)
    ensures Closings(log + [f]) == Closings(log) + (if f.RoomClosed? then 1 else 0)
  {
    assert (log + [f])[..|log|] == log;
  }

  lemma {:induction false} FreshIsSilent(log: seq<Frame>, n: U32)
    ensures PhaseOf(log, n) == Fresh ==> About(log, n) == [] && PayloadsOf(log, n) == []
  {
    if log != [] { FreshIsSilent(log[..|log| - 1], n); }
  }
}
