/** What a connection's send queue loses, in every interleaving. */
module RelayQueues {
  import opened Bytes
  import opened Channels
  import opened RelayProtocol
  import opened RelayTheorems

  /** b is a after one frame was offered: it joins a backlog below 256, and is lost to one
      of 256. */
  ghost predicate OfferMoves(a: Chan<Frame>, b: Chan<Frame>) {
    exists f ::
      && b.offered == a.offered + [f]
      && b.queue == (if |a.queue| < 256 then a.queue + [f] else a.queue)
      && b.overflowed == (a.overflowed || |a.queue| >= 256)
      && b.taken == a.taken && b.cap == a.cap
  }

  /** Nothing was offered, and nothing is lost but what the consumer took. */
  ghost predicate QuietMoves(a: Chan<Frame>, b: Chan<Frame>) {
    && b.offered == a.offered && b.overflowed == a.overflowed && b.cap == a.cap
    && b.taken + b.queue == a.taken + a.queue && |b.queue| <= |a.queue|
  }

  lemma OfferedMoves(a: Chan<Frame>, f: Frame)
    requires !a.closed && a.cap == 256
    ensures OfferMoves(a, a.Offer(f))
  {
    assert a.Offer(f).offered == a.offered + [f];
  }

  lemma TakenMoves(a: Chan<Frame>)
    requires a.queue != []
    ensures QuietMoves(a, a.Take())
  {
    assert a.taken + [a.queue[0]] + a.queue[1..] == a.taken + a.queue;
  }

  /** Every step leaves a queue alone, takes from it, closes it, or offers it one frame. */
  lemma StepMoves(s: State, e: Event, c: ConnRef)
    requires c < |s.conns| && s.conns[c].chan.cap == 256
    ensures c < |Step(s, e).conns|
    ensures var a, b := s.conns[c].chan, Step(s, e).conns[c].chan;
            QuietMoves(a, b) || OfferMoves(a, b)
  {
    var a, b := s.conns[c].chan, Step(s, e).conns[c].chan;
    if b != a {
      if e.WriterTakes? {
        TakenMoves(a);
      } else if !a.closed && b == a.Close() {
      } else {
        OthersOffer(s, e, c);
        var f :| !a.closed && b == a.Offer(f);
        OfferedMoves(a, f);
      }
    }
  }

  ghost predicate OffersAtMost(a: Chan<Frame>, b: Chan<Frame>) {
    b == a || (!a.closed && b == a.Close()) || exists f :: !a.closed && b == a.Offer(f)
  }

  lemma EnqueueOffers(s: State, d: ConnRef, f: Frame, c: ConnRef)
    requires c < |s.conns| && d < |s.conns| && !s.conns[d].chan.closed
    ensures OffersAtMost(s.conns[c].chan, Enqueue(s, d, f).conns[c].chan)
  {
  }

  lemma RoutingOffers(s: State, d: ConnRef, msg: Message, c: ConnRef)
    requires c < |s.conns| && Enabled(s, HostReads(d, msg))
    ensures c < |Step(s, HostReads(d, msg)).conns|
    ensures OffersAtMost(s.conns[c].chan, Step(s, HostReads(d, msg)).conns[c].chan)
  {
    if msg.BinaryMessage? && |msg.data| >= ENVELOPE {
      var a, f := s.conns[c].chan, Binary(msg.data);
      var b := Step(s, HostReads(d, msg)).conns[c].chan;
      assert b == a || (!a.closed && b == a.Offer(f));
    }
  }

  lemma SendsOffer(s: State, e: Event, c: ConnRef)
    requires c < |s.conns| && Enabled(s, e)
    requires e.HostNotifies? || e.GuestAnnounces? || e.GuestForwards? || e.GuestNotifies?
    ensures c < |Step(s, e).conns|
    ensures OffersAtMost(s.conns[c].chan, Step(s, e).conns[c].chan)
  {
    if e.HostNotifies? {
      if !s.conns[e.g].chan.closed { EnqueueOffers(s, e.g, RoomClosed, c); }
    } else {
      var h, conn := s.rooms[s.conns[e.c].pc.visits].host, s.conns[e.c];
      if !s.conns[h].chan.closed {
        EnqueueOffers(s, h, Joined(conn.peerId), c);
        EnqueueOffers(s, h, Left(conn.peerId), c);
        if e.GuestForwards? { EnqueueOffers(s, h, Binary(conn.pc.step.data), c); }
      }
    }
  }

  lemma RestOffersNothing(s: State, e: Event, c: ConnRef)
    requires c < |s.conns| && !e.WriterTakes? && !e.HostReads?
    requires !(e.HostNotifies? || e.GuestAnnounces? || e.GuestForwards? || e.GuestNotifies?)
    ensures c < |Step(s, e).conns|
    ensures OffersAtMost(s.conns[c].chan, Step(s, e).conns[c].chan)
  {
  }

  lemma OthersOffer(s: State, e: Event, c: ConnRef)
    requires c < |s.conns| && !e.WriterTakes?
    ensures c < |Step(s, e).conns| && OffersAtMost(s.conns[c].chan, Step(s, e).conns[c].chan)
  {
    if Enabled(s, e) {
      match e
      case HostReads(d, msg) => RoutingOffers(s, d, msg, c);
      case HostNotifies(_, _) => SendsOffer(s, e, c);
      case GuestAnnounces(_) => SendsOffer(s, e, c);
      case GuestForwards(_) => SendsOffer(s, e, c);
      case GuestNotifies(_) => SendsOffer(s, e, c);
      case _ => RestOffersNothing(s, e, c);
    }
  }

  ghost predicate Wide(s: State) {
    forall c :: 0 <= c < |s.conns| ==> s.conns[c].chan.cap == 256 && |s.conns[c].chan.queue| <= 256
  }

  lemma NewQueuesAreEmpty(s: State, e: Event, c: ConnRef)
    requires |s.conns| <= c < |Step(s, e).conns|
    ensures var chan := Step(s, e).conns[c].chan;
            chan.cap == 256 && chan.queue == [] && chan.offered == [] && !chan.overflowed
  {
  }

  lemma {:induction false} RunIsWide(es: seq<Event>)
    ensures Wide(Run(es))
  {
    if es != [] {
      var s, e := Run(es[..|es| - 1]), es[|es| - 1];
      RunIsWide(es[..|es| - 1]);
      forall c | 0 <= c < |Step(s, e).conns|
        ensures Step(s, e).conns[c].chan.cap == 256 && |Step(s, e).conns[c].chan.queue| <= 256
      {
        if c < |s.conns| { StepMoves(s, e, c); } else { NewQueuesAreEmpty(s, e, c); }
      }
    }
  }

  /** This step offers connection c a frame while 256 are queued. */
  predicate LosesAt(s: State, e: Event, c: ConnRef) {
    && c < |s.conns| && c < |Step(s, e).conns| && |s.conns[c].chan.queue| == 256
    && |Step(s, e).conns[c].chan.offered| > |s.conns[c].chan.offered|
  }

  /** Some step of the run does. */
  predicate LosesIn(es: seq<Event>, c: ConnRef) {
    es != [] && (LosesIn(es[..|es| - 1], c) || LosesAt(Run(es[..|es| - 1]), es[|es| - 1], c))
  }

  lemma {:induction false} OnlyKnownLose(es: seq<Event>, c: ConnRef)
    requires LosesIn(es, c)
    ensures c < |Run(es).conns|
  {
    var s, e := Run(es[..|es| - 1]), es[|es| - 1];
    if LosesIn(es[..|es| - 1], c) { OnlyKnownLose(es[..|es| - 1], c); }
    StepGoesOn(s, e);
  }

  /** In every run a connection has lost a frame exactly if some step offered it one while
      256 were queued. */
  lemma {:induction false} OverflowsExactly(es: seq<Event>, c: ConnRef)
    requires c < |Run(es).conns|
    ensures Run(es).conns[c].chan.overflowed <==> LosesIn(es, c)
  {
    if es != [] {
      var init, e := es[..|es| - 1], es[|es| - 1];
      var s := Run(init);
      if c < |s.conns| {
        OverflowsExactly(init, c);
        RunIsWide(init);
        StepMoves(s, e, c);
      } else {
        NewQueuesAreEmpty(s, e, c);
        if LosesIn(init, c) { OnlyKnownLose(init, c); }
      }
    }
  }

  /** An offer made with fewer than 256 frames queued joins the queue; one made with 256 is
      lost and changes nothing else. No other step changes what is to be delivered. */
  lemma OffersJoinBelow256(es: seq<Event>, e: Event, c: ConnRef)
    requires c < |Run(es).conns|
    ensures var s, t := Run(es), Step(Run(es), e);
            && c < |t.conns|
            && (QuietMoves(s.conns[c].chan, t.conns[c].chan) || OfferMoves(s.conns[c].chan, t.conns[c].chan))
            && |t.conns[c].chan.queue| <= 256
  {
    RunIsWide(es);
    StepMoves(Run(es), e, c);
  }

  /** The writer takes the oldest frame, and puts it on the socket before any other. */
  lemma WriterTakesOldest(s: State, c: ConnRef)
    requires c < |s.conns| && s.conns[c].chan.queue != []
    ensures var a, t := s.conns[c].chan, Step(s, WriterTakes(c));
            && c < |t.conns|
            && t.conns[c].chan == a.(queue := a.queue[1..], taken := a.taken + [a.queue[0]])
            && t == s.(conns := s.conns[c := t.conns[c]])
  {
  }
}
