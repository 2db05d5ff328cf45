/** How guests and teardowns end, panics included. A send on a closed channel panics in
    Go; these theorems say exactly which sends do, and what is lost when they do. */
module RelayExits {
  import opened Bytes
  import opened Channels
  import opened RelayProtocol
  import opened RelayLogs
  import opened RelayInvariants
  import opened RelayTheorems

  // ---- every panic has its cause ---------------------------------------------------

  /** A teardown that crashed has in its list a guest whose channel is closed. */
  ghost predicate CrashHasCause(s: State, c: ConnRef)
    requires c < |s.conns|
  {
    var pc := s.conns[c].pc;
    pc.Hosting? && pc.stage == Crashed ==>
      exists g :: g in pc.pending && g < |s.conns| && s.conns[g].chan.closed
  }

  /** A guest that died found its host's channel closed. */
  ghost predicate DeathHasCause(s: State, c: ConnRef)
    requires c < |s.conns|
  {
    var pc := s.conns[c].pc;
    pc.Visiting? && pc.step == Died ==>
      pc.visits < |s.rooms| && s.rooms[pc.visits].host < |s.conns| && s.conns[s.rooms[pc.visits].host].chan.closed
  }

  ghost predicate PanicsHaveCauses(s: State) {
    forall c :: 0 <= c < |s.conns| ==> CrashHasCause(s, c) && DeathHasCause(s, c)
  }

  /** The only steps that can crash a host or kill a guest. */
  lemma OnlySendsPanic(s: State, e: Event, c: ConnRef)
    requires c < |s.conns|
    ensures var t := Step(s, e);
            && c < |t.conns|
            && (t.conns[c].pc.Hosting? && t.conns[c].pc.stage == Crashed && t.conns[c].pc != s.conns[c].pc ==>
                  e.HostNotifies? && e.c == c && Enabled(s, e) && s.conns[e.g].chan.closed
                      && t.conns[c].pc.pending == s.conns[c].pc.pending)
            && (t.conns[c].pc.Visiting? && t.conns[c].pc.step == Died && t.conns[c].pc != s.conns[c].pc ==>
                  && (e.GuestAnnounces? || e.GuestNotifies?) && e.c == c && Enabled(s, e)
                  && t.conns[c].pc.visits == s.conns[c].pc.visits
                  && s.conns[s.rooms[s.conns[c].pc.visits].host].chan.closed)
  {
    if !Own(s, e, c) { OthersKeepPc(s, e, c); }
  }

  lemma NewcomersAreWell(s: State, e: Event, c: ConnRef)
    requires |s.conns| <= c < |Step(s, e).conns|
    ensures Step(s, e).conns[c].pc.HostDialing? || Step(s, e).conns[c].pc.GuestDialing?
  {
  }

  lemma CauseOfCrash(s: State, e: Event, c: ConnRef)
    requires c < |s.conns| && CrashHasCause(s, c)
    ensures c < |Step(s, e).conns| && CrashHasCause(Step(s, e), c)
  {
    var t := Step(s, e);
    StepGoesOn(s, e);
    OnlySendsPanic(s, e, c);
    if t.conns[c].pc.Hosting? && t.conns[c].pc.stage == Crashed {
      var g :| g in t.conns[c].pc.pending && g < |s.conns| && s.conns[g].chan.closed;
      assert Onward(s.conns[g], t.conns[g]);
    }
  }

  lemma CauseOfDeath(s: State, e: Event, c: ConnRef)
    requires c < |s.conns| && DeathHasCause(s, c)
    ensures c < |Step(s, e).conns| && DeathHasCause(Step(s, e), c)
  {
    var t := Step(s, e);
    StepGoesOn(s, e);
    StepGrows(s, e);
    OnlySendsPanic(s, e, c);
    if t.conns[c].pc.Visiting? && t.conns[c].pc.step == Died {
      var r := t.conns[c].pc.visits;
      var h := s.rooms[r].host;
      assert t.rooms[r].host == h && Onward(s.conns[h], t.conns[h]);
    }
  }

  lemma {:induction false} PanicsAreCaused(es: seq<Event>)
    ensures PanicsHaveCauses(Run(es))
  {
    if es != [] {
      var s, e := Run(es[..|es| - 1]), es[|es| - 1];
      PanicsAreCaused(es[..|es| - 1]);
      var t := Step(s, e);
      forall c | 0 <= c < |t.conns| ensures CrashHasCause(t, c) && DeathHasCause(t, c) {
        if c < |s.conns| {
          CauseOfCrash(s, e, c);
          CauseOfDeath(s, e, c);
        } else {
          NewcomersAreWell(s, e, c);
        }
      }
    }
  }

  // ---- exactly which sends panic ---------------------------------------------------

  /** A teardown's turn for a guest panics exactly if that guest is gone by then. */
  lemma TeardownPanicsExactly(es: seq<Event>, c: ConnRef, g: ConnRef)
    requires FewJoins(Run(es)) && Enabled(Run(es), HostNotifies(c, g))
    ensures var s := Run(es);
            var t := Step(s, HostNotifies(c, g));
            && s.conns[g].pc.Visiting? && s.conns[g].pc.visits == s.conns[c].pc.room
            && c < |t.conns| && t.conns[c].pc.Hosting?
            && (t.conns[c].pc.stage == Crashed <==> s.conns[g].pc.step == Gone)
  {
    RunKeeps(es);
    var s := Run(es);
    var r := s.conns[c].pc.room;
    assert ConnOk(s, c) && RoomOk(s, r);
    var k :| 0 <= k < |s.rooms[r].joined| && s.rooms[r].joined[k] == g;
    assert IsMember(s, g, r, k + 1);
    assert ConnOk(s, g);
  }

  /** The send a guest's goroutine is about to make, if it is at one. */
  function Spoken(conn: Conn): Frame
    requires conn.pc.Visiting? && Speaking(conn.pc.step)
  {
    match conn.pc.step
    case Joining => Joined(conn.peerId)
    case Forwarding(data) => Binary(data)
    case Parting(_) => Left(conn.peerId)
  }

  predicate Speaking(step: GuestStage) {
    step.Joining? || step.Forwarding? || step == Parting(true)
  }

  function Speech(c: ConnRef, step: GuestStage): Event
    requires Speaking(step)
  {
    match step
    case Joining => GuestAnnounces(c)
    case Forwarding(_) => GuestForwards(c)
    case Parting(_) => GuestNotifies(c)
  }

  /** A guest's send to its host panics exactly if the host's teardown has finished. Then
      the frame is lost, and the goroutine goes on to its exit or dies in it; otherwise the
      host is offered the frame. */
  lemma GuestSendPanicsExactly(es: seq<Event>, c: ConnRef)
    requires FewJoins(Run(es)) && c < |Run(es).conns| && Run(es).conns[c].pc.Visiting?
        && Speaking(Run(es).conns[c].pc.step)
    ensures var s := Run(es);
            var pc := s.conns[c].pc;
            && pc.visits < |s.rooms| && s.rooms[pc.visits].host < |s.conns|
            && var h := s.rooms[pc.visits].host;
            && s.conns[h].pc.Hosting?
            && Enabled(s, Speech(c, pc.step))
            && var t, over := Step(s, Speech(c, pc.step)), s.conns[h].pc.stage == Finished;
            && c < |t.conns| && h < |t.conns|
            && t.conns[h].chan.offered == s.conns[h].chan.offered + (if over then [] else [Spoken(s.conns[c])])
            && t.conns[c].pc == Visiting(pc.visits,
                 if pc.step.Parting? then (if over then Died else Closing)
                 else if !over then Receiving
                 else if pc.step.Joining? then Died else Leaving)
  {
    RunKeeps(es);
    SpeechOutcome(Run(es), c);
  }

  lemma SpeechOutcome(s: State, c: ConnRef)
    requires Inv(s) && c < |s.conns| && s.conns[c].pc.Visiting? && Speaking(s.conns[c].pc.step)
    ensures var pc := s.conns[c].pc;
            && pc.visits < |s.rooms| && s.rooms[pc.visits].host < |s.conns|
            && var h := s.rooms[pc.visits].host;
            && s.conns[h].pc.Hosting?
            && Enabled(s, Speech(c, pc.step))
            && var t, over := Step(s, Speech(c, pc.step)), s.conns[h].pc.stage == Finished;
            && c < |t.conns| && h < |t.conns|
            && t.conns[h].chan.offered == s.conns[h].chan.offered + (if over then [] else [Spoken(s.conns[c])])
            && t.conns[c].pc == Visiting(pc.visits,
                 if pc.step.Parting? then (if over then Died else Closing)
                 else if !over then Receiving
                 else if pc.step.Joining? then Died else Leaving)
  {
    assert ConnOk(s, c);
    var h := s.rooms[s.conns[c].pc.visits].host;
    assert ConnOk(s, h);
    assert h != c;
  }

  // ---- how guests leave ------------------------------------------------------------

  predicate SaysLeft(log: seq<Frame>, n: U32) {
    About(log, n) != [] && About(log, n)[|About(log, n)| - 1] == Left(n)
  }

  /** A guest is at any time on exactly one side of exactly one exit: in the room, or
      withdrawn by itself, or drained by the host. A drained guest has been offered one
      room-closed exactly if the teardown is past its turn, the others none. The host hears
      a peer-left only from a guest that withdrew; one that has done so and is past its
      notice has been heard, unless it died because the host's teardown had finished. */
  lemma ExitsByOneRoute(es: seq<Event>, r: RoomRef, n: U32)
    requires FewJoins(Run(es)) && r < |Run(es).rooms| && 1 <= n <= |Run(es).rooms[r].joined|
    ensures var s := Run(es);
            var room := s.rooms[r];
            var g := room.joined[n - 1];
            && room.host < |s.conns| && g < |s.conns|
            && var host, guest := s.conns[room.host], s.conns[g];
            && host.pc.Hosting? && guest.pc.Visiting?
            && OneRoute(room, n - 1)
            && Closings(guest.chan.offered) == (if g in room.drained && g !in host.pc.pending then 1 else 0)
            && (host.pc.stage == Finished && g in room.drained ==> Closings(guest.chan.offered) == 1)
            && (SaysLeft(host.chan.offered, n) ==> g in room.withdrew)
            && (guest.pc.step == Gone ==> n !in room.guests)
            && (g in room.withdrew ==>
                  (SaysLeft(host.chan.offered, n) <==> guest.pc.step != Parting(true) && guest.pc.step != Died))
            && (guest.pc.step == Died ==> host.pc.stage == Finished)
  {
    RunKeeps(es);
    PanicsAreCaused(es);
    var s := Run(es);
    var g := s.rooms[r].joined[n - 1];
    assert RoomOk(s, r) && OneRoute(s.rooms[r], n - 1);
    assert IsMember(s, g, r, n);
    assert DeathHasCause(s, g);
    GuestExit(s, r, n);
  }

  lemma GuestExit(s: State, r: RoomRef, n: U32)
    requires Inv(s) && r < |s.rooms| && 1 <= n <= |s.rooms[r].joined|
    requires var g := s.rooms[r].joined[n - 1]; g < |s.conns| && DeathHasCause(s, g)
    ensures var room := s.rooms[r];
            var g := room.joined[n - 1];
            && room.host < |s.conns|
            && var host, guest := s.conns[room.host], s.conns[g];
            && host.pc.Hosting? && guest.pc.Visiting?
            && OneRoute(room, n - 1)
            && Closings(guest.chan.offered) == (if g in room.drained && g !in host.pc.pending then 1 else 0)
            && (host.pc.stage == Finished && g in room.drained ==> Closings(guest.chan.offered) == 1)
            && (SaysLeft(host.chan.offered, n) ==> g in room.withdrew)
            && (guest.pc.step == Gone ==> n !in room.guests)
            && (g in room.withdrew ==>
                  (SaysLeft(host.chan.offered, n) <==> guest.pc.step != Parting(true) && guest.pc.step != Died))
            && (guest.pc.step == Died ==> host.pc.stage == Finished)
  {
    var room := s.rooms[r];
    var g := room.joined[n - 1];
    assert RoomOk(s, r) && OneRoute(room, n - 1);
    assert IsMember(s, g, r, n);
    assert ConnOk(s, g) && ConnOk(s, room.host);
    PhaseMeansVisit(s.conns[room.host].chan.offered, n);
    var t := About(s.conns[room.host].chan.offered, n);
    assert t != [] ==> Mentions(t[|t| - 1], n);
  }

  /** When a teardown is over, its guests have all been told exactly if it did not crash:
      a crash leaves out a guest that is gone, whose turn was the one that panicked. */
  lemma AllToldExactly(es: seq<Event>, c: ConnRef)
    requires FewJoins(Run(es)) && c < |Run(es).conns| && Run(es).conns[c].pc.Hosting?
    requires Run(es).conns[c].pc.stage == Finished || Run(es).conns[c].pc.stage == Crashed
    ensures var s := Run(es);
            var pc := s.conns[c].pc;
            && pc.room < |s.rooms|
            && (forall g :: g in s.rooms[pc.room].drained ==> g < |s.conns| && s.conns[g].pc.Visiting?)
            && ((forall g :: g in s.rooms[pc.room].drained ==> Closings(s.conns[g].chan.offered) == 1) <==>
                pc.stage == Finished)
            && (s.conns[c].chan.closed <==> pc.stage == Finished)
            && (pc.stage == Crashed ==>
                exists g :: g in pc.pending && g in s.rooms[pc.room].drained && s.conns[g].pc.step == Gone)
  {
    RunKeeps(es);
    PanicsAreCaused(es);
    var s := Run(es);
    var pc := s.conns[c].pc;
    assert ConnOk(s, c) && RoomOk(s, pc.room);
    forall g | g in s.rooms[pc.room].drained
      ensures g < |s.conns| && s.conns[g].pc.Visiting?
      ensures Closings(s.conns[g].chan.offered) == (if g !in pc.pending then 1 else 0)
      ensures s.conns[g].chan.closed <==> s.conns[g].pc.step == Gone
    {
      DrainedGuest(s, c, g);
    }
    assert CrashHasCause(s, c);
  }

  lemma DrainedGuest(s: State, c: ConnRef, g: ConnRef)
    requires Inv(s) && c < |s.conns| && s.conns[c].pc.Hosting? && s.conns[c].pc.room < |s.rooms|
    requires g in s.rooms[s.conns[c].pc.room].drained
    ensures g < |s.conns| && s.conns[g].pc.Visiting?
    ensures Closings(s.conns[g].chan.offered) == (if g !in s.conns[c].pc.pending then 1 else 0)
    ensures s.conns[g].chan.closed <==> s.conns[g].pc.step == Gone
  {
    var r := s.conns[c].pc.room;
    assert ConnOk(s, c) && RoomOk(s, r);
    var k :| 0 <= k < |s.rooms[r].joined| && s.rooms[r].joined[k] == g;
    assert IsMember(s, g, r, k + 1);
    assert ConnOk(s, g);
  }

  /** A crash is for ever: whatever happens next, the guests it left out are never told,
      and the host's channel is never closed. */
  lemma CrashIsForEver(es: seq<Event>, more: seq<Event>, c: ConnRef, g: ConnRef)
    requires FewJoins(Run(es + more)) && c < |Run(es).conns|
    requires Run(es).conns[c].pc.Hosting? && Run(es).conns[c].pc.stage == Crashed && g in Run(es).conns[c].pc.pending
    ensures var t := Run(es + more);
            && c < |t.conns| && g < |t.conns|
            && t.conns[c].pc == Run(es).conns[c].pc && !t.conns[c].chan.closed
            && Closings(t.conns[g].chan.offered) == 0
  {
    RunGoesOn(es, more);
    RunKeeps(es + more);
    var t := Run(es + more);
    assert Onward(Run(es).conns[c], t.conns[c]);
    assert ConnOk(t, c);
    DrainedGuest(t, c, g);
  }

  // ---- a run that crashes ----------------------------------------------------------

  ghost predicate Reachable(s: State) {
    exists es :: Run(es) == s
  }

  lemma Reach(s: State, e: Event)
    requires Reachable(s)
    ensures Reachable(Step(s, e))
  {
    var es :| Run(es) == s;
    RunAppend(es, e);
  }

  /** A host and two guests, before and after they register. */
  function Waiting(id: string): State {
    State(map[id := 0], [Room(id, 0, map[], 1, [], {}, {})],
          [NewConn(Hosting(0, Serving, {})), NewConn(Found(0)), NewConn(Found(0))])
  }

  function Pair(id: string, host: HostStage): State {
    State(map[id := 0], [Room(id, 0, map[1 := 1, 2 := 2], 3, [1, 2], {}, {})],
          [NewConn(Hosting(0, host, {})),
           NewConn(Visiting(0, Joining)).(peerId := 1), NewConn(Visiting(0, Joining)).(peerId := 2)])
  }

  lemma PairArrives(id: string)
    ensures Reachable(Waiting(id))
  {
    assert Run([]) == INIT;
    Reach(INIT, HostArrives(id));
    var a := Step(INIT, HostArrives(id));
    Reach(a, HostOpens(0));
    var b := Step(a, HostOpens(0));
    assert b.conns == [NewConn(Hosting(0, Serving, {}))];
    Reach(b, GuestArrives(id));
    var c := Step(b, GuestArrives(id));
    Reach(c, GuestArrives(id));
    var d := Step(c, GuestArrives(id));
    assert d.conns == [NewConn(Hosting(0, Serving, {})), NewConn(GuestDialing(id)), NewConn(GuestDialing(id))];
    Reach(d, GuestLooksUp(1));
    var e := Step(d, GuestLooksUp(1));
    Reach(e, GuestLooksUp(2));
    assert Step(e, GuestLooksUp(2)) == Waiting(id);
  }

  lemma PairMeets(id: string)
    ensures Reachable(Pair(id, Unlisting))
  {
    PairArrives(id);
    var f := Waiting(id);
    Reach(f, GuestRegisters(1));
    var g := Step(f, GuestRegisters(1));
    assert g.rooms[0].joined == [1] && g.rooms[0].guests == map[1 := 1];
    assert g.rooms == [Room(id, 0, map[1 := 1], 2, [1], {}, {})];
    assert g.conns[2] == NewConn(Found(0)) && g.conns[1] == Pair(id, Serving).conns[1];
    Reach(g, GuestRegisters(2));
    var h := Step(g, GuestRegisters(2));
    assert h.rooms[0].guests == map[1 := 1, 2 := 2] && h.rooms[0].joined == [1, 2];
    assert h.rooms == Pair(id, Serving).rooms && h.conns == Pair(id, Serving).conns;
    Reach(Pair(id, Serving), HostReads(0, ReadError));
    assert Step(Pair(id, Serving), HostReads(0, ReadError)) == Pair(id, Unlisting);
  }

  /** The teardown holds both guests in its list. */
  function Torn(id: string): State {
    State(map[], [Room(id, 0, map[], 3, [1, 2], {1, 2}, {})],
          [NewConn(Hosting(0, Notifying, {1, 2})),
           NewConn(Visiting(0, Joining)).(peerId := 1), NewConn(Visiting(0, Joining)).(peerId := 2)])
  }

  lemma PairDrained(id: string)
    ensures Reachable(Torn(id))
  {
    PairMeets(id);
    var b := Pair(id, Unlisting);
    Reach(b, HostUnlists(0));
    var c := Step(b, HostUnlists(0));
    assert c.conns == Pair(id, Draining).conns && c.live == map[];
    Reach(c, HostDrains(0));
    var guests: map<U32, ConnRef> := c.rooms[0].guests;
    assert guests == map[1 := 1, 2 := 2] && guests[1] == 1 && guests[2] == 2;
    assert guests.Values == {1, 2};
    assert Step(c, HostDrains(0)) == Torn(id);
  }

  /** The first guest leaves for good before its turn comes. */
  lemma FirstGuestLeaves(id: string) returns (s: State)
    ensures Reachable(s)
    ensures |s.rooms| == 1 && |s.rooms[0].joined| == 2
    ensures |s.conns| == 3 && s.conns[0].pc == Hosting(0, Notifying, {1, 2}) && !s.conns[0].chan.closed
    ensures s.conns[1].pc == Visiting(0, Gone) && s.conns[1].chan.closed
    ensures s.conns[2] == NewConn(Visiting(0, Joining)).(peerId := 2)
  {
    PairDrained(id);
    var d := Torn(id);
    Reach(d, GuestAnnounces(1));
    var e := Step(d, GuestAnnounces(1));
    assert e.conns[1].pc == Visiting(0, Receiving);
    Reach(e, GuestReads(1, ReadError));
    var f := Step(e, GuestReads(1, ReadError));
    assert f.conns[1].pc == Visiting(0, Leaving);
    Reach(f, GuestLeaves(1));
    var g := Step(f, GuestLeaves(1));
    assert g.conns[1].pc == Visiting(0, Parting(false));
    Reach(g, GuestNotifies(1));
    var h := Step(g, GuestNotifies(1));
    assert h.conns[1].pc == Visiting(0, Closing);
    Reach(h, GuestFinishes(1));
    s := Step(h, GuestFinishes(1));
  }

  /** Not every drained guest is told: two guests join, the host's read fails, its teardown
      takes both out, the first guest leaves before its turn comes, and the second never
      hears of it. */
  lemma TeardownCanCrash(id: string)
    ensures exists es :: var s := Run(es);
                         && FewJoins(s) && |s.conns| == 3
                         && s.conns[0].pc == Hosting(0, Crashed, {1, 2}) && !s.conns[0].chan.closed
                         && s.conns[2].pc == Visiting(0, Joining) && Closings(s.conns[2].chan.offered) == 0
  {
    var s := FirstGuestLeaves(id);
    Reach(s, HostNotifies(0, 1));
    var t := Step(s, HostNotifies(0, 1));
    assert t.conns[0].pc == Hosting(0, Crashed, {1, 2}) && t.conns[2] == s.conns[2];
    assert FewJoins(t);
  }
}
