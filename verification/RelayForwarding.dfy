/** A guest's frame on its way to the host, while everybody else goes on. */
module RelayForwarding {
  import opened Bytes
  import opened Channels
  import opened RelayProtocol
  import opened RelayLogs
  import opened RelayInvariants
  import opened RelayTheorems
  import opened RelayExits

  /** Connection c holds a frame it has yet to forward. */
  predicate Holds(s: State, c: ConnRef, r: RoomRef, data: seq<Byte>) {
    c < |s.conns| && s.conns[c].pc == Visiting(r, Forwarding(data))
  }

  lemma AboutGrows(log: seq<Frame>, f: Frame, n: U32)
    ensures About(log + [f], n) == if Mentions(f, n) then About(log, n) + [f] else About(log, n)
  {
    assert (log + [f])[..|log|] == log;
  }

  /** What the host of room r has been told about peer n. */
  ghost function Told(s: State, r: RoomRef, n: U32): seq<Frame>
    requires r < |s.rooms| && s.rooms[r].host < |s.conns|
  {
    About(s.conns[s.rooms[r].host].chan.offered, n)
  }

  lemma RoutingSparesHosts(s: State, c: ConnRef, msg: Message, h: ConnRef)
    requires Inv(s) && h < |s.conns| && s.conns[h].pc.Hosting? && Enabled(s, HostReads(c, msg))
    ensures h < |Step(s, HostReads(c, msg)).conns| && Step(s, HostReads(c, msg)).conns[h].chan == s.conns[h].chan
  {
    var r := s.conns[c].pc.room;
    if msg.BinaryMessage? && |msg.data| >= ENVELOPE && h in Targets(s.rooms[r], GetU32(msg.data)) {
      assert h in s.rooms[r].guests.Values;
      GuestIsMember(s, r, h);
    }
  }

  lemma NotifyingSparesHosts(s: State, c: ConnRef, g: ConnRef, h: ConnRef)
    requires Inv(s) && h < |s.conns| && s.conns[h].pc.Hosting? && Enabled(s, HostNotifies(c, g))
    ensures h < |Step(s, HostNotifies(c, g)).conns| && Step(s, HostNotifies(c, g)).conns[h].chan == s.conns[h].chan
  {
    assert ConnOk(s, c);
    DrainedGuest(s, c, g);
  }

  /** Steps of a host's own goroutine, and of teardowns and writers, add nothing to a
      host's log. */
  lemma HostsTellGuests(s: State, e: Event, h: ConnRef)
    requires Inv(s) && h < |s.conns| && s.conns[h].pc.Hosting?
    requires !e.GuestAnnounces? && !e.GuestForwards? && !e.GuestNotifies?
    ensures h < |Step(s, e).conns| && Step(s, e).conns[h].chan.offered == s.conns[h].chan.offered
  {
    if Enabled(s, e) && e.HostReads? {
      RoutingSparesHosts(s, e.c, e.msg, h);
    } else if Enabled(s, e) && e.HostNotifies? {
      NotifyingSparesHosts(s, e.c, e.g, h);
    }
  }

  lemma NeighboursDiffer(s: State, c: ConnRef, d: ConnRef)
    requires Inv(s) && c < |s.conns| && d < |s.conns| && c != d
    requires s.conns[c].pc.Visiting? && s.conns[d].pc.Visiting? && s.conns[c].pc.visits == s.conns[d].pc.visits
    ensures s.conns[c].peerId != s.conns[d].peerId
  {
    assert ConnOk(s, c) && ConnOk(s, d);
  }

  lemma HostsDiffer(s: State, r: RoomRef, q: RoomRef)
    requires Inv(s) && r < |s.rooms| && q < |s.rooms| && r != q
    ensures s.rooms[r].host != s.rooms[q].host
  {
    assert RoomOk(s, r) && RoomOk(s, q);
  }

  /** A step of another guest's goroutine says nothing about peer n of room r. */
  lemma OthersSpeakOfThemselves(s: State, c: ConnRef, d: ConnRef, r: RoomRef)
    requires Inv(s) && c < |s.conns| && s.conns[c].pc.Visiting? && s.conns[c].pc.visits == r
    requires d != c && d < |s.conns| && s.conns[d].pc.Visiting? && Speaking(s.conns[d].pc.step)
    ensures r < |s.rooms| && s.rooms[r].host < |s.conns| && Enabled(s, Speech(d, s.conns[d].pc.step))
    ensures var t, h := Step(s, Speech(d, s.conns[d].pc.step)), s.rooms[r].host;
            h < |t.conns| && About(t.conns[h].chan.offered, s.conns[c].peerId) == Told(s, r, s.conns[c].peerId)
  {
    assert ConnOk(s, c);
    var h, q := s.rooms[r].host, s.conns[d].pc.visits;
    SpeechOutcome(s, d);
    if q == r {
      SpokenIsOwn(s, d);
      NeighboursDiffer(s, c, d);
      AboutGrows(s.conns[h].chan.offered, Spoken(s.conns[d]), s.conns[c].peerId);
    } else {
      HostsDiffer(s, r, q);
      OtherHostsHearNothing(s, d, h);
    }
  }

  lemma SpokenIsOwn(s: State, d: ConnRef)
    requires Inv(s) && d < |s.conns| && s.conns[d].pc.Visiting? && Speaking(s.conns[d].pc.step)
    ensures forall m: U32 :: Mentions(Spoken(s.conns[d]), m) ==> m == s.conns[d].peerId
  {
    assert ConnOk(s, d);
  }

  lemma OtherHostsHearNothing(s: State, d: ConnRef, h: ConnRef)
    requires Inv(s) && d < |s.conns| && s.conns[d].pc.Visiting? && Speaking(s.conns[d].pc.step)
    requires h < |s.conns| && s.conns[h].pc.Hosting?
    requires s.conns[d].pc.visits < |s.rooms| ==> s.rooms[s.conns[d].pc.visits].host != h
    ensures var t := Step(s, Speech(d, s.conns[d].pc.step));
            h < |t.conns| && t.conns[h].chan == s.conns[h].chan
  {
    assert ConnOk(s, d);
  }

  /** Until its own next step, a guest keeps the frame it holds, and the host is told
      nothing about it. */
  lemma StepWaits(s: State, e: Event, c: ConnRef, r: RoomRef, data: seq<Byte>)
    requires Inv(s) && Holds(s, c, r, data) && e != GuestForwards(c)
    ensures r < |s.rooms| && s.rooms[r].host < |s.conns|
    ensures var t := Step(s, e);
            && Holds(t, c, r, data) && t.conns[c].peerId == s.conns[c].peerId
            && r < |t.rooms| && t.rooms[r].host < |t.conns|
            && Told(t, r, s.conns[c].peerId) == Told(s, r, s.conns[c].peerId)
  {
    assert ConnOk(s, c);
    HolderWaits(s, e, c, r, data);
    StepGrows(s, e);
    StepGoesOn(s, e);
    if (e.GuestAnnounces? || e.GuestForwards? || e.GuestNotifies?) && Enabled(s, e) && Speaking(s.conns[e.c].pc.step) {
      assert e == Speech(e.c, s.conns[e.c].pc.step);
      OthersSpeakOfThemselves(s, c, e.c, r);
    } else if e.GuestAnnounces? || e.GuestForwards? || e.GuestNotifies? {
      SilentStep(s, e, s.rooms[r].host);
    } else {
      HostsTellGuests(s, e, s.rooms[r].host);
    }
  }

  lemma HolderWaits(s: State, e: Event, c: ConnRef, r: RoomRef, data: seq<Byte>)
    requires Holds(s, c, r, data) && e != GuestForwards(c)
    ensures Holds(Step(s, e), c, r, data) && Step(s, e).conns[c].peerId == s.conns[c].peerId
  {
    if !Own(s, e, c) { OthersKeepPc(s, e, c); }
  }

  lemma SilentStep(s: State, e: Event, h: ConnRef)
    requires e.GuestAnnounces? || e.GuestForwards? || e.GuestNotifies?
    requires h < |s.conns| && (Enabled(s, e) ==> !Speaking(s.conns[e.c].pc.step))
    ensures h < |Step(s, e).conns| && Step(s, e).conns[h].chan == s.conns[h].chan
  {
  }

  lemma {:induction false} FrameWaits(es: seq<Event>, more: seq<Event>, c: ConnRef, r: RoomRef, data: seq<Byte>)
    requires FewJoins(Run(es + more)) && Holds(Run(es), c, r, data) && GuestForwards(c) !in more
    ensures var s, t := Run(es), Run(es + more);
            && r < |s.rooms| && s.rooms[r].host < |s.conns| && r < |t.rooms| && t.rooms[r].host < |t.conns|
            && Holds(t, c, r, data) && t.conns[c].peerId == s.conns[c].peerId
            && Told(t, r, s.conns[c].peerId) == Told(s, r, s.conns[c].peerId)
  {
    FewBefore(es, more);
    RunKeeps(es);
    if more == [] {
      assert es + more == es;
      assert ConnOk(Run(es), c);
    } else {
      var init, e := more[..|more| - 1], more[|more| - 1];
      assert es + more == (es + init) + [e];
      RunAppend(es + init, e);
      FewBefore(es + init, [e]);
      FrameWaits(es, init, c, r, data);
      RunKeeps(es + init);
      StepWaits(Run(es + init), e, c, r, data);
    }
  }

  /** A frame a guest has read waits, stamped, through whatever others do. The next thing
      the host is told about that guest is this frame, with the guest's id in its first
      four bytes and the rest unchanged; it is lost exactly if the host's teardown has
      finished by then. */
  lemma GuestFrameIsStamped(es: seq<Event>, c: ConnRef, data: seq<Byte>, more: seq<Event>)
    requires Enabled(Run(es), GuestReads(c, BinaryMessage(data))) && |data| >= 4
    requires FewJoins(Run((es + [GuestReads(c, BinaryMessage(data))]) + more)) && GuestForwards(c) !in more
    ensures var s, u := Run(es), Run((es + [GuestReads(c, BinaryMessage(data))]) + more);
            var r, n := s.conns[c].pc.visits, s.conns[c].peerId;
            && c < |u.conns| && Enabled(u, GuestForwards(c))
            && r < |u.rooms| && u.rooms[r].host < |u.conns| && u.conns[u.rooms[r].host].pc.Hosting?
            && Told(u, r, n) == Told(s, r, n)
            && GetU32(Stamp(n, data)) == n && |Stamp(n, data)| == |data| && Stamp(n, data)[4..] == data[4..]
            && var t, h, over := Step(u, GuestForwards(c)), u.rooms[r].host,
                u.conns[u.rooms[r].host].pc.stage == Finished;
            && h < |t.conns| && c < |t.conns|
            && t.conns[h].chan.offered == u.conns[h].chan.offered + (if over then [] else [Binary(Stamp(n, data))])
            && t.conns[c].pc == Visiting(r, if over then Leaving else Receiving)
  {
    var read := GuestReads(c, BinaryMessage(data));
    var s := Run(es);
    var r, n := s.conns[c].pc.visits, s.conns[c].peerId;
    RunAppend(es, read);
    FewBefore(es + [read], more);
    FewBefore(es, [read]);
    RunKeeps(es);
    ReadStamps(s, c, data);
    FrameWaits(es + [read], more, c, r, Stamp(n, data));
    RunKeeps((es + [read]) + more);
    SpeechOutcome(Run((es + [read]) + more), c);
  }

  lemma ReadStamps(s: State, c: ConnRef, data: seq<Byte>)
    requires Inv(s) && Enabled(s, GuestReads(c, BinaryMessage(data))) && |data| >= 4
    ensures var t, r, n := Step(s, GuestReads(c, BinaryMessage(data))), s.conns[c].pc.visits, s.conns[c].peerId;
            && Holds(t, c, r, Stamp(n, data)) && t.conns[c].peerId == n
            && r < |t.rooms| && t.rooms[r].host < |t.conns| && Told(t, r, n) == Told(s, r, n)
            && GetU32(Stamp(n, data)) == n && Stamp(n, data)[4..] == data[4..]
  {
    assert ConnOk(s, c) && RoomOk(s, s.conns[c].pc.visits);
    GetPut(s.conns[c].peerId, data[ENVELOPE..]);
  }
}
