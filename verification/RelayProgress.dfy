/** What each goroutine goes on to do, said of the room as its peers see it. */
module RelayProgress {
  import opened Bytes
  import opened Channels
  import opened RelayProtocol
  import opened RelayInvariants
  import opened RelayTheorems

  /** Connection d is in service as the host of room id. */
  predicate Serves(s: State, d: ConnRef, id: string) {
    && d < |s.conns| && InService(s.conns[d].pc)
    && s.conns[d].pc.room < |s.rooms| && s.rooms[s.conns[d].pc.room].id == id
  }

  predicate Served(s: State, id: string) {
    exists d :: 0 <= d < |s.conns| && Serves(s, d, id)
  }

  lemma ServedIsLive(es: seq<Event>, id: string)
    requires FewJoins(Run(es))
    ensures id in Run(es).live <==> Served(Run(es), id)
  {
    LiveMeansInService(es, id);
    if Served(Run(es), id) {
      var d :| 0 <= d < |Run(es).conns| && Serves(Run(es), d, id);
    }
    if id in Run(es).live {
      var s := Run(es);
      var d :| 0 <= d < |s.conns| && InService(s.conns[d].pc) && s.conns[d].pc.room < |s.rooms|
               && s.rooms[s.conns[d].pc.room].id == id;
      assert Serves(s, d, id);
    }
  }

  /** A host is turned away exactly if another is in service for its room; otherwise it
      gets a new, empty room, whose first guest will be number 1. */
  lemma HostIsRefusedExactly(es: seq<Event>, c: ConnRef)
    requires FewJoins(Run(es)) && Enabled(Run(es), HostOpens(c))
    ensures var s := Run(es);
            var id, t, r := s.conns[c].pc.id, Step(s, HostOpens(c)), |s.rooms|;
            && c < |t.conns|
            && (Served(s, id) ==> t == s.(conns := s.conns[c := s.conns[c].(pc := Refused)]))
            && (!Served(s, id) ==>
                  && t.conns[c].pc == Hosting(r, Serving, {})
                  && t.rooms == s.rooms + [Room(id, c, map[], 1, [], {}, {})] && Serves(t, c, id))
  {
    ServedIsLive(es, Run(es).conns[c].pc.id);
  }

  /** A guest is turned away exactly if no host is in service for its room; otherwise it
      finds the room of the one that is. */
  lemma GuestIsRefusedExactly(es: seq<Event>, c: ConnRef)
    requires FewJoins(Run(es)) && Enabled(Run(es), GuestLooksUp(c))
    ensures var s := Run(es);
            var id, t := s.conns[c].pc.id, Step(s, GuestLooksUp(c));
            && c < |t.conns| && t.rooms == s.rooms
            && (t.conns[c].pc == Refused <==> !Served(s, id))
            && (t.conns[c].pc != Refused ==>
                  t.conns[c].pc.Found? && t.conns[c].pc.at < |s.rooms| && Serves(s, s.rooms[t.conns[c].pc.at].host, id))
  {
    var s := Run(es);
    ServedIsLive(es, s.conns[c].pc.id);
    RunKeeps(es);
    if s.conns[c].pc.id in s.live {
      var r := s.live[s.conns[c].pc.id];
      assert RoomOk(s, r);
    }
  }

  /** What is not a binary frame of at least four bytes is skipped on both sides, and a
      failed read starts the exit. */
  lemma OtherReadsAreSkipped(s: State, c: ConnRef, msg: Message)
    requires Enabled(s, HostReads(c, msg)) || Enabled(s, GuestReads(c, msg))
    ensures var e := if Enabled(s, HostReads(c, msg)) then HostReads(c, msg) else GuestReads(c, msg);
            && (msg == TextMessage || (msg.BinaryMessage? && |msg.data| < 4) ==> Step(s, e) == s)
            && (msg == ReadError ==>
                  Step(s, e) == s.(conns := s.conns[c := s.conns[c].(pc :=
                    if e.HostReads? then Hosting(s.conns[c].pc.room, Unlisting, {})
                    else Visiting(s.conns[c].pc.visits, Leaving))]))
  {
  }

  /** An exit goes from stage to stage to its end: a teardown unlists, takes the guests out,
      tells them, and closes the host's queue; a guest takes itself out, gives notice if it
      was still in, and closes its own. */
  lemma ExitsGoOn(s: State, c: ConnRef, e: Event)
    requires Enabled(s, e) && e in {HostUnlists(c), HostDrains(c), HostFinishes(c), GuestLeaves(c), GuestFinishes(c)}
    ensures var a, t := s.conns[c], Step(s, e);
            && c < |t.conns|
            && (e.HostUnlists? ==> t.conns[c] == a.(pc := Hosting(a.pc.room, Draining, {})))
            && (e.HostDrains? ==>
                  && t.conns[c] == a.(pc := Hosting(a.pc.room, Notifying, s.rooms[a.pc.room].guests.Values))
                  && a.pc.room < |t.rooms| && t.rooms[a.pc.room].guests == map[])
            && (e.HostFinishes? ==> t.conns[c].pc == Hosting(a.pc.room, Finished, {}) && t.conns[c].chan.closed)
            && (e.GuestLeaves? ==>
                  && t.conns[c] == a.(pc := Visiting(a.pc.visits, Parting(a.peerId in s.rooms[a.pc.visits].guests)))
                  && a.pc.visits < |t.rooms| && a.peerId !in t.rooms[a.pc.visits].guests)
            && (e.GuestFinishes? ==> t.conns[c].pc == Visiting(a.pc.visits, Gone) && t.conns[c].chan.closed)
  {
  }

  /** What connection c's goroutine does next; a host telling its guests may take them in
      any order, and a read may bring anything. */
  predicate Next(s: State, c: ConnRef, e: Event)
    requires c < |s.conns|
  {
    match s.conns[c].pc
    case HostDialing(_) => e == HostOpens(c)
    case GuestDialing(_) => e == GuestLooksUp(c)
    case Found(_) => e == GuestRegisters(c)
    case Refused => false
    case Hosting(_, stage, pending) =>
      (match stage
       case Serving => e.HostReads? && e.c == c
       case Unlisting => e == HostUnlists(c)
       case Draining => e == HostDrains(c)
       case Notifying => if pending == {} then e == HostFinishes(c) else e.HostNotifies? && e.c == c && e.g in pending
       case _ => false)
    case Visiting(_, step) =>
      (match step
       case Joining => e == GuestAnnounces(c)
       case Receiving => e.GuestReads? && e.c == c
       case Forwarding(_) => e == GuestForwards(c)
       case Leaving => e == GuestLeaves(c)
       case Parting(_) => e == GuestNotifies(c)
       case Closing => e == GuestFinishes(c)
       case _ => false)
  }

  predicate IsOver(pc: Pc) {
    || pc.Refused?
    || (pc.Hosting? && (pc.stage == Finished || pc.stage == Crashed))
    || (pc.Visiting? && (pc.step == Gone || pc.step == Died))
  }

  lemma HostGoesOn(s: State, c: ConnRef, e: Event)
    requires Inv(s) && c < |s.conns| && s.conns[c].pc.Hosting? && Next(s, c, e)
    ensures Enabled(s, e)
  {
    assert ConnOk(s, c);
    if e.HostNotifies? {
      var r := s.conns[c].pc.room;
      assert RoomOk(s, r);
      var k :| 0 <= k < |s.rooms[r].joined| && s.rooms[r].joined[k] == e.g;
      assert IsMember(s, e.g, r, k + 1);
    }
  }

  lemma GuestGoesOn(s: State, c: ConnRef, e: Event)
    requires Inv(s) && c < |s.conns| && !s.conns[c].pc.Hosting? && Next(s, c, e)
    ensures Enabled(s, e)
  {
    assert ConnOk(s, c);
  }

  /** In every run nobody gets stuck: a goroutine that has not ended has a next step, and
      whatever that is, it can be taken, no matter what the others have done. */
  lemma NobodyIsStuck(es: seq<Event>, c: ConnRef, e: Event)
    requires FewJoins(Run(es)) && c < |Run(es).conns|
    ensures Next(Run(es), c, e) ==> Enabled(Run(es), e)
    ensures IsOver(Run(es).conns[c].pc) <==> !exists f :: Next(Run(es), c, f)
  {
    RunKeeps(es);
    var s := Run(es);
    if Next(s, c, e) {
      if s.conns[c].pc.Hosting? { HostGoesOn(s, c, e); } else { GuestGoesOn(s, c, e); }
    }
    HasNext(s, c);
  }

  lemma HasNext(s: State, c: ConnRef)
    requires c < |s.conns|
    ensures IsOver(s.conns[c].pc) <==> !exists f :: Next(s, c, f)
  {
    match s.conns[c].pc
    case HostDialing(_) => assert Next(s, c, HostOpens(c));
    case GuestDialing(_) => assert Next(s, c, GuestLooksUp(c));
    case Found(_) => assert Next(s, c, GuestRegisters(c));
    case Refused =>
    case Hosting(_, stage, pending) =>
      match stage {
      case Serving => assert Next(s, c, HostReads(c, ReadError));
      case Unlisting => assert Next(s, c, HostUnlists(c));
      case Draining => assert Next(s, c, HostDrains(c));
      case Notifying =>
         if pending == {} {
           assert Next(s, c, HostFinishes(c));
         } else {
           var g :| g in pending;
           assert Next(s, c, HostNotifies(c, g));
         }
      case _ =>
      }
    case Visiting(_, step) =>
      match step {
      case Joining => assert Next(s, c, GuestAnnounces(c));
      case Receiving => assert Next(s, c, GuestReads(c, ReadError));
      case Forwarding(_) => assert Next(s, c, GuestForwards(c));
      case Leaving => assert Next(s, c, GuestLeaves(c));
      case Parting(_) => assert Next(s, c, GuestNotifies(c));
      case Closing => assert Next(s, c, GuestFinishes(c));
      case _ =>
      }
  }
}
