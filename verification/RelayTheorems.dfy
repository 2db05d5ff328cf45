/** The relay over whole runs. */
module RelayTheorems {
  import opened Bytes
  import opened Sequences
  import opened Channels
  import opened RelayProtocol
  import opened RelayLogs
  import opened RelayInvariants

  /** Peer ids are 32-bit and 0 means everyone: at most 2^32 - 1 guests join any one room. */
  ghost predicate FewJoins(s: State) {
    forall r :: 0 <= r < |s.rooms| ==> |s.rooms[r].joined| <= 0xFFFF_FFFF
  }

  /** Rooms are never forgotten and their joining order only grows, so a peer id names
      the same connection for ever. */
  ghost predicate RoomsGrow(s: State, t: State) {
    && |s.rooms| <= |t.rooms|
    && forall r {:trigger t.rooms[r]} :: 0 <= r < |s.rooms| ==>
         && s.rooms[r].joined <= t.rooms[r].joined
         && t.rooms[r].id == s.rooms[r].id && t.rooms[r].host == s.rooms[r].host
  }

  lemma StepGrows(s: State, e: Event)
    ensures RoomsGrow(s, Step(s, e))
  {
  }

  /** A connection keeps its role and its id, a closed channel stays closed, and a goroutine
      that has ended stays where it ended. */
  ghost predicate Onward(a: Conn, b: Conn) {
    && KeepsRole(a, b)
    && (a.chan.closed ==> b.chan.closed)
    && (a.pc.Hosting? && (a.pc.stage == Finished || a.pc.stage == Crashed) ==> b.pc == a.pc)
    && (a.pc.Visiting? && (a.pc.step == Gone || a.pc.step == Died) ==> b.pc == a.pc)
  }

  ghost predicate AllOnward(s: State, t: State) {
    && |s.conns| <= |t.conns|
    && forall c {:trigger t.conns[c]} :: 0 <= c < |s.conns| ==> Onward(s.conns[c], t.conns[c])
  }

  /** A step of connection c's own goroutine. */
  predicate Own(s: State, e: Event, c: ConnRef) {
    Enabled(s, e) && !e.HostArrives? && !e.GuestArrives? && e.c == c
  }

  /** Nobody moves another's program counter. */
  lemma OthersKeepPc(s: State, e: Event, c: ConnRef)
    requires c < |s.conns| && !Own(s, e, c)
    ensures c < |Step(s, e).conns|
    ensures Step(s, e).conns[c].pc == s.conns[c].pc && Step(s, e).conns[c].peerId == s.conns[c].peerId
  {
  }

  lemma OwnKeepsRole(s: State, e: Event, c: ConnRef)
    requires c < |s.conns| && Own(s, e, c) && !s.conns[c].pc.HostDialing? && !s.conns[c].pc.GuestDialing?
        && !s.conns[c].pc.Found?
    ensures c < |Step(s, e).conns| && KeepsRole(s.conns[c], Step(s, e).conns[c])
  {
  }

  lemma ConnKeepsRole(s: State, e: Event, c: ConnRef)
    requires c < |s.conns|
    ensures c < |Step(s, e).conns| && KeepsRole(s.conns[c], Step(s, e).conns[c])
  {
    if !Own(s, e, c) {
      OthersKeepPc(s, e, c);
    } else if s.conns[c].pc.Hosting? || s.conns[c].pc.Visiting? {
      OwnKeepsRole(s, e, c);
    }
  }

  lemma ConnStaysClosed(s: State, e: Event, c: ConnRef)
    requires c < |s.conns| && s.conns[c].chan.closed
    ensures c < |Step(s, e).conns| && Step(s, e).conns[c].chan.closed
  {
  }

  lemma ConnStaysEnded(s: State, e: Event, c: ConnRef)
    requires c < |s.conns|
    requires var pc := s.conns[c].pc;
             (pc.Hosting? && (pc.stage == Finished || pc.stage == Crashed))
                 || (pc.Visiting? && (pc.step == Gone || pc.step == Died))
    ensures c < |Step(s, e).conns| && Step(s, e).conns[c].pc == s.conns[c].pc
  {
    if !Own(s, e, c) { OthersKeepPc(s, e, c); }
  }

  lemma ConnGoesOn(s: State, e: Event, c: ConnRef)
    requires c < |s.conns|
    ensures c < |Step(s, e).conns| && Onward(s.conns[c], Step(s, e).conns[c])
  {
    ConnKeepsRole(s, e, c);
    if s.conns[c].chan.closed { ConnStaysClosed(s, e, c); }
    var pc := s.conns[c].pc;
    if (pc.Hosting? && (pc.stage == Finished || pc.stage == Crashed))
        || (pc.Visiting? && (pc.step == Gone || pc.step == Died)) {
      ConnStaysEnded(s, e, c);
    }
  }

  lemma StepGoesOn(s: State, e: Event)
    ensures AllOnward(s, Step(s, e))
  {
    forall c | 0 <= c < |s.conns| ensures c < |Step(s, e).conns| && Onward(s.conns[c], Step(s, e).conns[c]) {
      ConnGoesOn(s, e, c);
    }
    if s.conns != [] { ConnGoesOn(s, e, |s.conns| - 1); }
  }

  lemma RunAppend(es: seq<Event>, e: Event)
    ensures Run(es + [e]) == Step(Run(es), e)
  {
    assert (es + [e])[..|es|] == es;
  }

  lemma StepKeeps(s: State, e: Event)
    requires Inv(s) && FewJoins(Step(s, e))
    ensures Inv(Step(s, e))
  {
    if Enabled(s, e) {
      match e
      case HostArrives(id) => ArrivalKeeps(s, HostDialing(id));
      case GuestArrives(id) => ArrivalKeeps(s, GuestDialing(id));
      case HostOpens(c) =>
        if s.conns[c].pc.id in s.live { DialKeeps(s, c, Refused); } else { HostOpenKeeps(s, c, s.conns[c].pc.id); }
      case HostReads(c, msg) => HostReadKeeps(s, c, msg);
      case HostUnlists(c) => HostUnlistKeeps(s, c);
      case HostDrains(c) => HostDrainKeeps(s, c, s.conns[c].pc.room);
      case HostNotifies(c, g) => HostNotifyKeeps(s, c, g);
      case HostFinishes(c) => HostMovesKeeps(s, c, Step(s, e), Finished);
      case GuestLooksUp(c) =>
        var id := s.conns[c].pc.id;
        DialKeeps(s, c, if id in s.live then Found(s.live[id]) else Refused);
      case GuestRegisters(c) => RegisterKeeps(s, c);
      case GuestAnnounces(c) => TellKeeps(s, c, Joined(s.conns[c].peerId), Receiving, Died);
      case GuestReads(c, msg) => GuestReadKeeps(s, c, msg);
      case GuestForwards(c) => TellKeeps(s, c, Binary(s.conns[c].pc.step.data), Receiving, Leaving);
      case GuestLeaves(c) => GuestLeaveKeeps(s, c, s.conns[c].pc.visits);
      case GuestNotifies(c) =>
        if s.conns[c].pc.step.stillHere {
          TellKeeps(s, c, Left(s.conns[c].peerId), Closing, Died);
        } else {
          PartSilentlyKeeps(s, c);
        }
      case GuestFinishes(c) => GuestFinishKeeps(s, c);
      case WriterTakes(c) => WriterTakesKeeps(s, c);
    }
  }

  lemma RegisterKeeps(s: State, c: ConnRef)
    requires Inv(s) && Enabled(s, GuestRegisters(c)) && FewJoins(Step(s, GuestRegisters(c)))
    ensures Inv(Step(s, GuestRegisters(c)))
  {
    var r := s.conns[c].pc.at;
    assert Step(s, GuestRegisters(c)).rooms[r].joined == s.rooms[r].joined + [c];
    GuestRegisterKeeps(s, c, r);
  }

  /** Every reachable state satisfies the invariant. */
  lemma {:induction false} RunKeeps(es: seq<Event>)
    requires FewJoins(Run(es))
    ensures Inv(Run(es))
  {
    if es != [] {
      var s, e := Run(es[..|es| - 1]), es[|es| - 1];
      StepGrows(s, e);
      assert FewJoins(s) by {
        forall r | 0 <= r < |s.rooms| ensures |s.rooms[r].joined| <= 0xFFFF_FFFF {
          assert s.rooms[r].joined <= Step(s, e).rooms[r].joined;
        }
      }
      RunKeeps(es[..|es| - 1]);
      StepKeeps(s, e);
    }
  }

  lemma GrowsOn(a: State, b: State, c: State)
    requires RoomsGrow(a, b) && RoomsGrow(b, c)
    ensures RoomsGrow(a, c)
  {
    forall r | 0 <= r < |a.rooms| ensures a.rooms[r].joined <= c.rooms[r].joined {
      assert a.rooms[r].joined <= b.rooms[r].joined <= c.rooms[r].joined;
    }
  }

  /** What was joined stays joined, in whatever a run goes on to do. */
  lemma {:induction false} HistoryGrows(es: seq<Event>, more: seq<Event>)
    ensures RoomsGrow(Run(es), Run(es + more))
  {
    if more == [] {
      assert es + more == es;
    } else {
      var init, e := more[..|more| - 1], more[|more| - 1];
      assert es + more == (es + init) + [e];
      RunAppend(es + init, e);
      HistoryGrows(es, init);
      StepGrows(Run(es + init), e);
      GrowsOn(Run(es), Run(es + init), Run(es + more));
    }
  }

  lemma {:induction false} RunGoesOn(es: seq<Event>, more: seq<Event>)
    ensures AllOnward(Run(es), Run(es + more))
  {
    if more == [] {
      assert es + more == es;
    } else {
      var init, e := more[..|more| - 1], more[|more| - 1];
      assert es + more == (es + init) + [e];
      RunAppend(es + init, e);
      RunGoesOn(es, init);
      StepGoesOn(Run(es + init), e);
      GoesOnOn(Run(es), Run(es + init), Run(es + more));
    }
  }

  lemma GoesOnOn(a: State, b: State, c: State)
    requires AllOnward(a, b) && AllOnward(b, c)
    ensures AllOnward(a, c)
  {
    forall d | 0 <= d < |a.conns| ensures Onward(a.conns[d], c.conns[d]) {
      assert Onward(a.conns[d], b.conns[d]) && Onward(b.conns[d], c.conns[d]);
    }
  }

  lemma FewBefore(es: seq<Event>, more: seq<Event>)
    requires FewJoins(Run(es + more))
    ensures FewJoins(Run(es))
  {
    HistoryGrows(es, more);
    forall r | 0 <= r < |Run(es).rooms| ensures |Run(es).rooms[r].joined| <= 0xFFFF_FFFF {
      assert Run(es).rooms[r].joined <= Run(es + more).rooms[r].joined;
    }
  }

  /** Connection c joined room r as its n-th guest. */
  ghost predicate JoinedAs(s: State, c: ConnRef, r: RoomRef, n: int) {
    r < |s.rooms| && 1 <= n <= |s.rooms[r].joined| && s.rooms[r].joined[n - 1] == c
  }

  lemma VisitorJoined(s: State, c: ConnRef)
    requires Inv(s) && c < |s.conns| && s.conns[c].pc.Visiting?
    ensures JoinedAs(s, c, s.conns[c].pc.visits, s.conns[c].peerId)
  {
    assert ConnOk(s, c);
  }

  lemma JoinedOnce(s: State, t: State, c: ConnRef, d: ConnRef, r: RoomRef, n: int)
    requires RoomsGrow(s, t) && JoinedAs(s, c, r, n) && JoinedAs(t, d, r, n)
    ensures c == d
  {
    assert s.rooms[r].joined <= t.rooms[r].joined;
  }

  /** A peer id is never given out twice in a room: whoever holds it at one time and
      whoever holds it at another are the same connection. */
  lemma PeerIdsAreForever(es: seq<Event>, more: seq<Event>, c: ConnRef, d: ConnRef)
    requires FewJoins(Run(es + more))
    requires c < |Run(es).conns| && d < |Run(es + more).conns|
    requires var a, b := Run(es).conns[c], Run(es + more).conns[d];
             a.pc.Visiting? && b.pc.Visiting? && a.pc.visits == b.pc.visits && a.peerId == b.peerId
    ensures c == d
  {
    FewBefore(es, more);
    HistoryGrows(es, more);
    RunKeeps(es);
    RunKeeps(es + more);
    VisitorJoined(Run(es), c);
    VisitorJoined(Run(es + more), d);
    var a := Run(es).conns[c];
    JoinedOnce(Run(es), Run(es + more), c, d, a.pc.visits, a.peerId);
  }

  /** In every interleaving, what the host is offered about peer n is one visit, and
      nothing about an id not yet given out. */
  lemma HostHearsVisits(es: seq<Event>, r: RoomRef, n: U32)
    requires FewJoins(Run(es)) && r < |Run(es).rooms|
    ensures var s := Run(es);
            var room := s.rooms[r];
            && room.host < |s.conns|
            && IsVisit(About(s.conns[room.host].chan.offered, n), n)
            && (n == 0 || n > |room.joined| ==> About(s.conns[room.host].chan.offered, n) == [])
  {
    RunKeeps(es);
    var s := Run(es);
    var room := s.rooms[r];
    assert RoomOk(s, r);
    var log := s.conns[room.host].chan.offered;
    PhaseMeansVisit(log, n);
    FreshIsSilent(log, n);
    if 1 <= n <= |room.joined| {
      assert IsMember(s, room.joined[n - 1], r, n);
      assert ConnOk(s, room.joined[n - 1]);
    }
  }

  /** What the host's log holds of a guest's payloads is a prefix of what the guest has
      sent, unchanged, and all of it whenever the guest is back at its read. */
  lemma PayloadsConserved(es: seq<Event>, r: RoomRef, n: U32)
    requires FewJoins(Run(es)) && r < |Run(es).rooms| && 1 <= n <= |Run(es).rooms[r].joined|
    ensures var s := Run(es);
            var room := s.rooms[r];
            && room.host < |s.conns| && room.joined[n - 1] < |s.conns|
            && var guest, told := s.conns[room.joined[n - 1]], PayloadsOf(s.conns[room.host].chan.offered, n);
            && guest.peerId == n
            && told <= guest.payloads
            && (guest.pc == Visiting(r, Receiving) ==> told == guest.payloads)
  {
    RunKeeps(es);
    var s := Run(es);
    assert RoomOk(s, r);
    assert IsMember(s, s.rooms[r].joined[n - 1], r, n);
    assert ConnOk(s, s.rooms[r].joined[n - 1]);
  }

  /** Each guest key is its connection's own peer id and never 0, and its send channel is
      open: the host's loop, which sends under the room's lock, never sends on a closed
      channel. The key lies below the counter exactly until the counter has wrapped. */
  lemma GuestsAreOpen(es: seq<Event>, r: RoomRef, n: U32)
    requires FewJoins(Run(es)) && r < |Run(es).rooms| && n in Run(es).rooms[r].guests
    ensures var s := Run(es);
            var g := s.rooms[r].guests[n];
            && 1 <= n <= |s.rooms[r].joined|
            && (n < s.rooms[r].next <==> |s.rooms[r].joined| < 0xFFFF_FFFF)
            && g < |s.conns| && s.conns[g].peerId == n && s.conns[g].pc.Visiting? && s.conns[g].pc.visits == r
            && !s.conns[g].chan.closed
  {
    RunKeeps(es);
    var s := Run(es);
    assert RoomOk(s, r);
    GuestIsMember(s, r, s.rooms[r].guests[n]);
    assert IsMember(s, s.rooms[r].joined[n - 1], r, n);
  }

  /** At most one host is in service per room id, and a room id is live exactly while
      one is. */
  lemma OneHostPerRoom(es: seq<Event>, c: ConnRef, d: ConnRef)
    requires FewJoins(Run(es))
    requires var s := Run(es);
             && c < |s.conns| && d < |s.conns| && InService(s.conns[c].pc) && InService(s.conns[d].pc)
             && s.conns[c].pc.room < |s.rooms| && s.conns[d].pc.room < |s.rooms|
             && s.rooms[s.conns[c].pc.room].id == s.rooms[s.conns[d].pc.room].id
    ensures c == d
  {
    RunKeeps(es);
    assert ConnOk(Run(es), c) && ConnOk(Run(es), d);
  }

  lemma LiveMeansInService(es: seq<Event>, id: string)
    requires FewJoins(Run(es))
    ensures var s := Run(es);
            RoomLive(s, id) <==>
            exists c :: 0 <= c < |s.conns| && InService(s.conns[c].pc) && s.conns[c].pc.room < |s.rooms|
                && s.rooms[s.conns[c].pc.room].id == id
  {
    RunKeeps(es);
    var s := Run(es);
    if id in s.live {
      assert InService(s.conns[s.rooms[s.live[id]].host].pc);
    }
    forall c | 0 <= c < |s.conns| && InService(s.conns[c].pc) && s.conns[c].pc.room < |s.rooms|
        && s.rooms[s.conns[c].pc.room].id == id
      ensures id in s.live
    {
      assert ConnOk(s, c);
    }
  }

  /** A teardown takes its own room off the list and no other. */
  lemma TeardownRemovesItsOwn(es: seq<Event>, c: ConnRef)
    requires FewJoins(Run(es)) && Enabled(Run(es), HostUnlists(c))
    ensures var s := Run(es);
            var id := s.rooms[s.conns[c].pc.room].id;
            && id in s.live && s.live[id] == s.conns[c].pc.room
            && Step(s, HostUnlists(c)).live == s.live - {id}
  {
    RunKeeps(es);
    assert ConnOk(Run(es), c);
  }

  /** A host frame for id 0 is offered to exactly the current guests, one for id N to
      guest N only, both byte for byte; a short one changes nothing. */
  lemma HostFrameIsRouted(es: seq<Event>, c: ConnRef, data: seq<Byte>, d: ConnRef)
    requires FewJoins(Run(es)) && Enabled(Run(es), HostReads(c, BinaryMessage(data))) && d < |Run(es).conns|
    ensures var s := Run(es);
            var t := Step(s, HostReads(c, BinaryMessage(data)));
            var guests := s.rooms[s.conns[c].pc.room].guests;
            && t.rooms == s.rooms && t.live == s.live && |t.conns| == |s.conns|
            && t.conns[d].pc == s.conns[d].pc
            && (|data| < 4 ==> t == s)
            && (|data| >= 4 ==>
                  var addressed := exists n ::
                      n in guests && guests[n] == d && (GetU32(data) == 0 || GetU32(data) == n);
                  t.conns[d].chan.offered == s.conns[d].chan.offered + (if addressed then [Binary(data)] else []))
  {
    RunKeeps(es);
    var s := Run(es);
    var r := s.conns[c].pc.room;
    if |data| >= 4 {
      var targets := Targets(s.rooms[r], GetU32(data));
      assert RoomOk(s, r);
      if d in targets {
        GuestIsMember(s, r, d);
        assert d in s.rooms[r].guests.Values;
      }
    }
  }

  /** Every queue is bounded, and what its connection is sent is what was offered, in
      order, complete unless an offer ever found the queue full. */
  lemma QueuesAreOrdered(es: seq<Event>, c: ConnRef)
    requires FewJoins(Run(es)) && c < |Run(es).conns|
    ensures var chan := Run(es).conns[c].chan;
            && |chan.queue| <= 256
            && Subsequence(chan.taken + chan.queue, chan.offered)
            && (!chan.overflowed ==> chan.taken + chan.queue == chan.offered)
  {
    RunKeeps(es);
    assert ConnOk(Run(es), c);
  }
}
