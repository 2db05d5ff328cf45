/** The tee on a wrapper's terminal output: every write goes to every subscriber's queue,
    dropped where the queue is full. Channels are named by the order of subscription. */
module Fanout {
  import opened Bytes
  import opened Sequences
  import opened Channels

  type Chunk = seq<Byte>

  const QUEUE := 256

  /** `since` and `until` are history: how many chunks had been written when the channel
      was subscribed, and when it was unsubscribed. */
  datatype Sub = Sub(chan: Chan<Chunk>, since: nat, until: nat)

  datatype State = State(subs: set<nat>, all: seq<Sub>, written: seq<Chunk>)

  datatype Event = Write(b: Chunk) | Subscribe | Unsubscribe(i: nat) | Receive(i: nat)

  const INIT := State({}, [], [])

  function OfferTo(all: seq<Sub>, targets: set<nat>, b: Chunk): (r: seq<Sub>)
    ensures |r| == |all|
    ensures forall i :: 0 <= i < |all| ==>
              r[i] == if i in targets && !all[i].chan.closed then all[i].(chan := all[i].chan.Offer(b)) else all[i]
  {
    seq(|all|, i requires 0 <= i < |all| =>
      if i in targets && !all[i].chan.closed then all[i].(chan := all[i].chan.Offer(b)) else all[i])
  }

  /** One step; an unsubscribe of a channel that is not subscribed does nothing. */
  function Step(s: State, e: Event): State {
    match e
    case Write(b) => s.(all := OfferTo(s.all, s.subs, b), written := s.written + [b])
    case Subscribe => s.(subs := s.subs + {|s.all|}, all := s.all + [Sub(NewChan(QUEUE), |s.written|, |s.written|)])
    case Unsubscribe(i) =>
      if i in s.subs && i < |s.all| && !s.all[i].chan.closed then
        s.(subs := s.subs - {i}, all := s.all[i := s.all[i].(chan := s.all[i].chan.Close(), until := |s.written|)])
      else s
    case Receive(i) =>
      if i < |s.all| && s.all[i].chan.queue != [] then s.(all := s.all[i := s.all[i].(chan := s.all[i].chan.Take())])
      else s
  }

  function Run(es: seq<Event>): State {
    if es == [] then INIT else Step(Run(es[..|es| - 1]), es[|es| - 1])
  }

  /** The end of what a channel was offered: now, while it is subscribed. */
  function End(s: State, i: nat): nat
    requires i < |s.all|
  {
    if i in s.subs then |s.written| else s.all[i].until
  }

  ghost predicate SubOk(s: State, i: nat)
    requires i < |s.all|
  {
    && s.all[i].chan.Sound() && s.all[i].chan.cap == QUEUE
    && (i in s.subs <==> !s.all[i].chan.closed)
    && s.all[i].since <= End(s, i) <= |s.written|
    && s.all[i].chan.offered == s.written[s.all[i].since..End(s, i)]
  }

  ghost predicate Inv(s: State) {
    && (forall i :: i in s.subs ==> i < |s.all|)
    && (forall i :: 0 <= i < |s.all| ==> SubOk(s, i))
  }

  lemma WriteKeeps(s: State, b: Chunk)
    requires Inv(s)
    ensures Inv(Step(s, Write(b)))
  {
    var t := Step(s, Write(b));
    forall i | 0 <= i < |t.all| ensures SubOk(t, i) {
      assert SubOk(s, i);
      if i in s.subs {
        s.all[i].chan.OfferSound(b);
        assert t.written[s.all[i].since..|t.written|] == s.written[s.all[i].since..|s.written|] + [b];
      } else {
        assert t.written[s.all[i].since..s.all[i].until] == s.written[s.all[i].since..s.all[i].until];
      }
    }
  }

  lemma StepKeeps(s: State, e: Event)
    requires Inv(s)
    ensures Inv(Step(s, e))
  {
    var t := Step(s, e);
    match e
    case Write(b) => WriteKeeps(s, b);
    case Subscribe =>
      forall i | 0 <= i < |t.all| ensures SubOk(t, i) {
        if i < |s.all| { assert SubOk(s, i); }
      }
    case Unsubscribe(j) =>
      forall i | 0 <= i < |t.all| ensures SubOk(t, i) { assert SubOk(s, i); }
    case Receive(j) =>
      forall i | 0 <= i < |t.all| ensures SubOk(t, i) {
        assert SubOk(s, i);
        if i == j && t != s { s.all[i].chan.TakeSound(); }
      }
  }

  lemma {:induction false} RunKeeps(es: seq<Event>)
    ensures Inv(Run(es))
  {
    if es != [] {
      RunKeeps(es[..|es| - 1]);
      StepKeeps(Run(es[..|es| - 1]), es[|es| - 1]);
    }
  }

  /** In every run each subscriber has received, or still has queued, an in-order
      selection of exactly the chunks written while it was subscribed: all of them unless
      its queue was ever full. Its channel is open exactly while it is subscribed. */
  lemma SubscribersSeeTheStream(es: seq<Event>, i: nat)
    requires i < |Run(es).all|
    ensures var s := Run(es);
            var sub := s.all[i];
            && sub.since <= End(s, i) <= |s.written|
            && |sub.chan.queue| <= 256
            && Subsequence(sub.chan.taken + sub.chan.queue, s.written[sub.since..End(s, i)])
            && (!sub.chan.overflowed ==> sub.chan.taken + sub.chan.queue == s.written[sub.since..End(s, i)])
            && (i in s.subs <==> !sub.chan.closed)
  {
    RunKeeps(es);
    assert SubOk(Run(es), i);
  }

  /** Some write of the run found 256 chunks queued for subscriber i. */
  predicate LosesIn(es: seq<Event>, i: nat) {
    es != [] &&
    var s, e := Run(es[..|es| - 1]), es[|es| - 1];
    LosesIn(es[..|es| - 1], i) || (e.Write? && i in s.subs && i < |s.all| && |s.all[i].chan.queue| == 256)
  }

  /** In every run a subscriber has lost a chunk exactly if some write found 256 queued for
      it while it was subscribed. */
  lemma {:induction false} OverflowsExactly(es: seq<Event>, i: nat)
    requires i < |Run(es).all|
    ensures Run(es).all[i].chan.overflowed <==> LosesIn(es, i)
  {
    if es != [] {
      var init := es[..|es| - 1];
      RunKeeps(init);
      if i < |Run(init).all| {
        OverflowsExactly(init, i);
        assert SubOk(Run(init), i);
      } else {
        NobodyLosesYet(init, i);
      }
    }
  }

  lemma {:induction false} NobodyLosesYet(es: seq<Event>, i: nat)
    requires i >= |Run(es).all|
    ensures !LosesIn(es, i)
  {
    if es != [] { NobodyLosesYet(es[..|es| - 1], i); }
  }

  /** A subscription opens an empty queue of its own, for 256 chunks; an unsubscription
      closes it. A write joins each queue that holds fewer than 256. */
  lemma StepsTakeEffect(es: seq<Event>, i: nat, b: Chunk)
    requires i in Run(es).subs
    ensures var s := Run(es);
            var added, gone := Step(s, Subscribe), Step(s, Unsubscribe(i));
            var fed, read := Step(s, Write(b)), Step(s, Receive(i));
            && i < |s.all|
            && |added.all| == |s.all| + 1 && |s.all| in added.subs && added.all[|s.all|].chan == NewChan(256)
            && |gone.all| == |s.all| && i !in gone.subs && gone.all[i].chan.closed
            && gone.all[i].chan.queue == s.all[i].chan.queue
            && |fed.all| == |read.all| == |s.all|
            && (s.all[i].chan.queue != [] ==>
                  && read.all[i].chan.queue == s.all[i].chan.queue[1..]
                  && read.all[i].chan.taken == s.all[i].chan.taken + [s.all[i].chan.queue[0]])
            && fed.all[i].chan.queue ==
                 (if |s.all[i].chan.queue| < 256 then s.all[i].chan.queue + [b] else s.all[i].chan.queue)
  {
    RunKeeps(es);
    assert SubOk(Run(es), i);
  }

  // ---- the class -------------------------------------------------------------------

  class Tee {
    var subs: set<nat>
    var all: seq<Sub>
    var written: seq<Chunk> // history

    ghost function View(): State
      reads this
    {
      State(subs, all, written)
    }

    constructor ()
      ensures View() == INIT
    {
      subs, all, written := {}, [], [];
    }

    /** Subscribers get their own copy: the caller may reuse its buffer. No send is ever
        made on a closed channel. */
    method Write(b: array<Byte>) returns (n: nat)
      requires Inv(View())
      modifies this
      ensures n == b.Length
      ensures View() == Step(old(View()), Event.Write(b[..])) && Inv(View())
    {
      var cp := b[..];
      WriteKeeps(View(), cp);
      var left := subs;
      ghost var before := all;
      assert all == OfferTo(before, {}, cp);
      while left != {}
        invariant left <= subs && subs == old(subs) && written == old(written)
        invariant all == OfferTo(before, subs - left, cp)
        decreases |left|
      {
        var i :| i in left;
        assert SubOk(old(View()), i);
        all := all[i := all[i].(chan := all[i].chan.Offer(cp))];
        left := left - {i};
      }
      written := written + [cp];
      n := b.Length;
    }

    method Subscribe() returns (i: nat)
      requires Inv(View())
      modifies this
      ensures i == |old(all)|
      ensures View() == Step(old(View()), Event.Subscribe) && Inv(View())
    {
      StepKeeps(View(), Event.Subscribe);
      i := |all|;
      all := all + [Sub(NewChan(QUEUE), |written|, |written|)];
      subs := subs + {i};
    }

    /** A channel is closed at most once: only while it is still in the map. */
    method Unsubscribe(i: nat)
      requires Inv(View())
      modifies this
      ensures View() == Step(old(View()), Event.Unsubscribe(i)) && Inv(View())
    {
      StepKeeps(View(), Event.Unsubscribe(i));
      if i in subs {
        assert SubOk(View(), i);
        subs := subs - {i};
        all := all[i := all[i].(chan := all[i].chan.Close(), until := |written|)];
      }
    }
  }
}
