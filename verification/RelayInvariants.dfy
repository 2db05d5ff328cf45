/** What every step of the relay keeps. */
module RelayInvariants {
  import opened Bytes
  import opened Channels
  import opened RelayProtocol
  import opened RelayLogs

  predicate InService(pc: Pc) {
    pc.Hosting? && (pc.stage == Serving || pc.stage == Unlisting)
  }

  ghost predicate HostOk(s: State, c: ConnRef)
    requires c < |s.conns| && s.conns[c].pc.Hosting?
  {
    var conn := s.conns[c];
    && conn.pc.room < |s.rooms|
    && var room := s.rooms[conn.pc.room];
    && room.host == c
    && (conn.chan.closed <==> conn.pc.stage == Finished)
    && (InService(conn.pc) ==> room.id in s.live && s.live[room.id] == conn.pc.room)
    && (InService(conn.pc) || conn.pc.stage == Draining ==> room.drained == {})
    && (conn.pc.stage == Finished ==> conn.pc.pending == {})
    && conn.pc.pending <= room.drained
  }

  /** How far the host's log about a guest has got. */
  ghost predicate ToldOk(log: seq<Frame>, conn: Conn, withdrew: bool)
    requires conn.pc.Visiting?
  {
    var phase := PhaseOf(log, conn.peerId);
    var told := PayloadsOf(log, conn.peerId);
    && told <= conn.payloads
    && match conn.pc.step
       case Joining => phase == Fresh && conn.payloads == []
       case Receiving => phase == Active && told == conn.payloads
       case Forwarding(data) =>
         && |data| >= ENVELOPE && GetU32(data) == conn.peerId
         && phase == Active && told + [data[ENVELOPE..]] == conn.payloads
       case Leaving => phase == Active
       case Parting(_) => phase == Active
       case Closing => phase == (if withdrew then Ended else Active)
       case Gone => phase == (if withdrew then Ended else Active)
       case Died => phase == Fresh || phase == Active
  }

  ghost predicate RouteOk(room: Room, step: GuestStage, c: ConnRef) {
    match step
    case Parting(stillHere) => if stillHere then c in room.withdrew else c in room.drained
    case Closing => c in room.withdrew || c in room.drained
    case Gone => c in room.withdrew || c in room.drained
    case Died => true
    case _ => c !in room.withdrew
  }

  /** A guest of host connection `host` in room `room`. */
  ghost predicate GuestOk(room: Room, host: Conn, conn: Conn, c: ConnRef)
    requires conn.pc.Visiting? && host.pc.Hosting?
  {
    && 1 <= conn.peerId <= |room.joined|
    && room.joined[conn.peerId - 1] == c
    && (conn.chan.closed <==> conn.pc.step == Gone)
    && RouteOk(room, conn.pc.step, c)
    && ToldOk(host.chan.offered, conn, c in room.withdrew)
    && Closings(conn.chan.offered) == (if c in room.drained && c !in host.pc.pending then 1 else 0)
  }

  ghost predicate MemberOk(s: State, c: ConnRef)
    requires c < |s.conns| && s.conns[c].pc.Visiting?
  {
    var r := s.conns[c].pc.visits;
    && r < |s.rooms|
    && s.rooms[r].host < |s.conns|
    && s.conns[s.rooms[r].host].pc.Hosting?
    && GuestOk(s.rooms[r], s.conns[s.rooms[r].host], s.conns[c], c)
  }

  ghost predicate ConnOk(s: State, c: ConnRef)
    requires c < |s.conns|
  {
    var conn := s.conns[c];
    && conn.chan.Sound() && conn.chan.cap == QUEUE
    && match conn.pc
       case Hosting(_, _, _) => HostOk(s, c)
       case Visiting(_, _) => MemberOk(s, c)
       case Found(r) => r < |s.rooms| && conn == NewConn(conn.pc)
       case _ => conn == NewConn(conn.pc)
  }

  /** Exactly one of: still in the room, taken out by the teardown, gone by itself. */
  ghost predicate OneRoute(room: Room, k: nat)
    requires k < |room.joined|
  {
    var g, here := room.joined[k], k + 1 in room.guests;
    && (here || g in room.drained || g in room.withdrew)
    && !(here && g in room.drained)
    && !(here && g in room.withdrew)
    && !(g in room.drained && g in room.withdrew)
  }

  /** What a room's own record keeps: peer ids are the joining order, never reissued. */
  ghost predicate BookOk(room: Room) {
    && |room.joined| <= 0xFFFF_FFFF
    && room.next == (if |room.joined| == 0xFFFF_FFFF then 0 else |room.joined| + 1)
    && (forall n :: n in room.guests ==> 1 <= n <= |room.joined| && room.guests[n] == room.joined[n - 1])
    && (forall k :: 0 <= k < |room.joined| ==> OneRoute(room, k))
    && (forall g :: g in room.drained || g in room.withdrew ==> g in room.joined)
  }

  ghost predicate IsMember(s: State, c: ConnRef, r: RoomRef, n: int) {
    && c < |s.conns|
    && s.conns[c].pc.Visiting? && s.conns[c].pc.visits == r && s.conns[c].peerId == n
  }

  ghost predicate RoomOk(s: State, r: RoomRef)
    requires r < |s.rooms|
  {
    var room := s.rooms[r];
    && room.host < |s.conns|
    && s.conns[room.host].pc.Hosting? && s.conns[room.host].pc.room == r
    && BookOk(room)
    && (forall k :: 0 <= k < |room.joined| ==> IsMember(s, room.joined[k], r, k + 1))
    && (forall n: U32 :: n == 0 || n > |room.joined| ==> PhaseOf(s.conns[room.host].chan.offered, n) == Fresh)
  }

  ghost predicate LiveOk(s: State) {
    forall id :: id in s.live ==>
      && s.live[id] < |s.rooms|
      && var room := s.rooms[s.live[id]];
      && room.id == id
      && room.host < |s.conns|
      && InService(s.conns[room.host].pc)
      && s.conns[room.host].pc.room == s.live[id]
  }

  ghost predicate Inv(s: State) {
    && LiveOk(s)
    && (forall c :: 0 <= c < |s.conns| ==> ConnOk(s, c))
    && (forall r :: 0 <= r < |s.rooms| ==> RoomOk(s, r))
  }

  // ---- framing: what a step leaves alone -------------------------------------------

  /** A connection keeps its place: a member stays the same member of the same room,
      a host keeps its room. */
  ghost predicate KeepsRole(a: Conn, b: Conn) {
    && (a.pc.Visiting? ==> b.pc.Visiting? && b.pc.visits == a.pc.visits && b.peerId == a.peerId)
    && (a.pc.Hosting? ==> b.pc.Hosting? && b.pc.room == a.pc.room)
  }

  ghost predicate RolesKept(s: State, t: State) {
    && |s.conns| <= |t.conns|
    && forall d {:trigger t.conns[d]} {:trigger s.conns[d]} :: 0 <= d < |s.conns| ==> KeepsRole(s.conns[d], t.conns[d])
  }

  /** The same to everybody else: same log, same list of guests to tell. */
  ghost predicate SameOutside(a: Conn, b: Conn) {
    && b.chan.offered == a.chan.offered
    && b.pc.Hosting? == a.pc.Hosting?
    && (a.pc.Hosting? ==> b.pc.pending == a.pc.pending)
  }

  lemma RoomFrame(s: State, t: State, r: RoomRef)
    requires r < |s.rooms| && RoomOk(s, r) && RolesKept(s, t)
    requires r < |t.rooms| && t.rooms[r] == s.rooms[r]
    requires t.conns[s.rooms[r].host].chan.offered == s.conns[s.rooms[r].host].chan.offered
    ensures RoomOk(t, r)
  {
    var room := s.rooms[r];
    forall k | 0 <= k < |room.joined| ensures IsMember(t, room.joined[k], r, k + 1) {
      assert IsMember(s, room.joined[k], r, k + 1);
      assert KeepsRole(s.conns[room.joined[k]], t.conns[room.joined[k]]);
    }
  }

  lemma HostFrame(s: State, t: State, d: ConnRef)
    requires d < |s.conns| && s.conns[d].pc.Hosting? && ConnOk(s, d)
    requires d < |t.conns| && t.conns[d] == s.conns[d]
    requires |s.rooms| <= |t.rooms| && t.rooms[s.conns[d].pc.room] == s.rooms[s.conns[d].pc.room]
    requires forall id :: id in s.live && s.live[id] == s.conns[d].pc.room ==> id in t.live && t.live[id] == s.live[id]
    ensures ConnOk(t, d)
  {
  }

  /** What guest d's record depends on in its host's. */
  ghost predicate SameToGuest(a: Conn, b: Conn, d: ConnRef) {
    && b.chan.offered == a.chan.offered
    && a.pc.Hosting? && b.pc.Hosting?
    && (d in b.pc.pending <==> d in a.pc.pending)
  }

  lemma MemberFrame(s: State, t: State, d: ConnRef)
    requires d < |s.conns| && s.conns[d].pc.Visiting? && ConnOk(s, d)
    requires d < |t.conns| && t.conns[d] == s.conns[d]
    requires |s.rooms| <= |t.rooms| && t.rooms[s.conns[d].pc.visits] == s.rooms[s.conns[d].pc.visits]
    requires s.rooms[s.conns[d].pc.visits].host < |t.conns|
    requires SameToGuest(s.conns[s.rooms[s.conns[d].pc.visits].host], t.conns[s.rooms[s.conns[d].pc.visits].host], d)
    ensures ConnOk(t, d)
  {
  }

  /** A room record that only gains members, or only loses a guest other than d. */
  lemma RoomChange(s: State, t: State, d: ConnRef)
    requires d < |s.conns| && s.conns[d].pc.Visiting? && ConnOk(s, d)
    requires d < |t.conns| && t.conns[d] == s.conns[d]
    requires |s.rooms| <= |t.rooms| && |s.conns| <= |t.conns|
    requires var a, b := s.rooms[s.conns[d].pc.visits], t.rooms[s.conns[d].pc.visits];
             && a.joined <= b.joined && b.host == a.host && b.drained == a.drained
             && (d in b.withdrew <==> d in a.withdrew)
             && SameOutside(s.conns[a.host], t.conns[a.host])
    ensures ConnOk(t, d)
  {
  }

  /** t differs from s in connection c alone, and not in what others see of it. */
  ghost predicate OnlyConn(s: State, t: State, c: ConnRef) {
    && c < |s.conns| && t.rooms == s.rooms
    && |t.conns| == |s.conns|
    && (forall d :: 0 <= d < |s.conns| && d != c ==> t.conns[d] == s.conns[d])
    && SameOutside(s.conns[c], t.conns[c])
    && KeepsRole(s.conns[c], t.conns[c])
  }

  lemma OnlyConnKeeps(s: State, t: State, c: ConnRef)
    requires Inv(s) && OnlyConn(s, t, c)
    requires LiveOk(t) && ConnOk(t, c)
    requires forall id :: id in s.live && (id !in t.live || t.live[id] != s.live[id]) ==>
        s.conns[c].pc.Hosting? && s.live[id] == s.conns[c].pc.room
    ensures Inv(t)
  {
    forall d | 0 <= d < |t.conns| ensures ConnOk(t, d) {
      assert ConnOk(s, d);
      if d != c {
        if s.conns[d].pc.Hosting? {
          assert s.conns[c].pc.Hosting? ==> HostOk(s, c) by { assert ConnOk(s, c); }
          HostFrame(s, t, d);
        } else if s.conns[d].pc.Visiting? {
          MemberFrame(s, t, d);
        }
      }
    }
    forall r | 0 <= r < |t.rooms| ensures RoomOk(t, r) {
      assert RoomOk(s, r);
      RoomFrame(s, t, r);
    }
  }

  // ---- steps of one goroutine that nobody else sees --------------------------------

  lemma ArrivalKeeps(s: State, pc: Pc)
    requires Inv(s) && (pc.HostDialing? || pc.GuestDialing?)
    ensures Inv(s.(conns := s.conns + [NewConn(pc)]))
  {
    var t := s.(conns := s.conns + [NewConn(pc)]);
    forall c | 0 <= c < |t.conns| ensures ConnOk(t, c) {
      if c < |s.conns| { assert ConnOk(s, c); }
    }
    forall r | 0 <= r < |t.rooms| ensures RoomOk(t, r) {
      assert RoomOk(s, r);
      RoomFrame(s, t, r);
    }
  }

  lemma WriterTakesKeeps(s: State, c: ConnRef)
    requires Inv(s) && c < |s.conns| && s.conns[c].chan.queue != []
    ensures Inv(s.(conns := s.conns[c := s.conns[c].(chan := s.conns[c].chan.Take())]))
  {
    assert ConnOk(s, c);
    s.conns[c].chan.TakeSound();
    OnlyConnKeeps(s, s.(conns := s.conns[c := s.conns[c].(chan := s.conns[c].chan.Take())]), c);
  }

  lemma DialKeeps(s: State, c: ConnRef, pc: Pc)
    requires Inv(s) && c < |s.conns| && (s.conns[c].pc.HostDialing? || s.conns[c].pc.GuestDialing?)
    requires pc.Refused? || (pc.Found? && pc.at < |s.rooms|)
    ensures Inv(At(s, c, pc))
  {
    assert ConnOk(s, c);
    OnlyConnKeeps(s, At(s, c, pc), c);
  }

  lemma HostMovesKeeps(s: State, c: ConnRef, t: State, stage: HostStage)
    requires Inv(s) && c < |s.conns| && s.conns[c].pc.Hosting?
    requires var pc := s.conns[c].pc;
             || (pc.stage == Serving && stage == Unlisting && t == At(s, c, Hosting(pc.room, Unlisting, {}))
                 && pc.pending == {})
             || (pc.stage == Notifying && stage == Crashed && t == At(s, c, Hosting(pc.room, Crashed, pc.pending)))
             || (pc.stage == Notifying && stage == Finished && pc.pending == {} && !s.conns[c].chan.closed
                 && t == Close(s, c, Hosting(pc.room, Finished, {})))
    ensures Inv(t)
  {
    assert ConnOk(s, c);
    OnlyConnKeeps(s, t, c);
  }

  lemma HostUnlistKeeps(s: State, c: ConnRef)
    requires Inv(s) && c < |s.conns| && Hosts(s, s.conns[c].pc, Unlisting)
    ensures Inv(HostUnlist(s, c, s.conns[c].pc.room))
  {
    assert ConnOk(s, c);
    OnlyConnKeeps(s, HostUnlist(s, c, s.conns[c].pc.room), c);
  }

  /** The reader's own record once it holds a stamped frame. */
  lemma ReaderOk(room: Room, host: Conn, conn: Conn, c: ConnRef, data: seq<Byte>)
    requires host.pc.Hosting? && conn.pc.Visiting? && conn.pc.step == Receiving && |data| >= ENVELOPE
    requires GuestOk(room, host, conn, c)
    ensures GuestOk(room, host, conn.(pc := Visiting(conn.pc.visits, Forwarding(Stamp(conn.peerId, data))),
                                      payloads := conn.payloads + [data[ENVELOPE..]]), c)
  {
    GetPut(conn.peerId, data[ENVELOPE..]);
  }

  lemma GuestReadKeeps(s: State, c: ConnRef, msg: Message)
    requires Inv(s) && c < |s.conns| && Visits(s, s.conns[c].pc) && s.conns[c].pc.step == Receiving
    ensures Inv(GuestRead(s, c, s.conns[c].pc.visits, msg))
  {
    assert ConnOk(s, c);
    if msg.BinaryMessage? && |msg.data| >= ENVELOPE {
      var room := s.rooms[s.conns[c].pc.visits];
      ReaderOk(room, s.conns[room.host], s.conns[c], c, msg.data);
    }
    OnlyConnKeeps(s, GuestRead(s, c, s.conns[c].pc.visits, msg), c);
  }

  lemma GuestFinishKeeps(s: State, c: ConnRef)
    requires Inv(s) && c < |s.conns| && Visits(s, s.conns[c].pc) && s.conns[c].pc.step == Closing
        && !s.conns[c].chan.closed
    ensures Inv(Close(s, c, Visiting(s.conns[c].pc.visits, Gone)))
  {
    assert ConnOk(s, c);
    OnlyConnKeeps(s, Close(s, c, Visiting(s.conns[c].pc.visits, Gone)), c);
  }

  lemma HostOpenOther(s: State, c: ConnRef, id: string, d: ConnRef)
    requires Inv(s) && c < |s.conns| && s.conns[c].pc == HostDialing(id) && id !in s.live
    requires d < |s.conns| && d != c
    ensures ConnOk(HostOpen(s, c, id), d)
  {
    var t := HostOpen(s, c, id);
    assert ConnOk(s, d) && ConnOk(s, c);
    if s.conns[d].pc.Hosting? {
      HostFrame(s, t, d);
    } else if s.conns[d].pc.Visiting? {
      MemberFrame(s, t, d);
    }
  }

  lemma HostOpenKeeps(s: State, c: ConnRef, id: string)
    requires Inv(s) && c < |s.conns| && s.conns[c].pc == HostDialing(id) && id !in s.live
    ensures Inv(HostOpen(s, c, id))
  {
    var t := HostOpen(s, c, id);
    assert ConnOk(s, c);
    forall d | 0 <= d < |t.conns| ensures ConnOk(t, d) {
      if d != c { HostOpenOther(s, c, id, d); }
    }
    forall r | 0 <= r < |t.rooms| ensures RoomOk(t, r) {
      if r < |s.rooms| {
        assert RoomOk(s, r);
        RoomFrame(s, t, r);
      }
    }
  }

  // ---- a guest's goroutine offers the host a frame about itself --------------------

  ghost predicate OnlyAbout(f: Frame, n: U32) {
    !f.RoomClosed? && forall m: U32 :: Mentions(f, m) ==> m == n
  }

  /** t is s after guest c offered f to its host and moved on to `step`. */
  ghost predicate Tells(s: State, c: ConnRef, f: Frame, step: GuestStage, t: State) {
    && c < |s.conns| && Visits(s, s.conns[c].pc)
    && var h := s.rooms[s.conns[c].pc.visits].host;
    && h != c && !s.conns[h].chan.closed
    && OnlyAbout(f, s.conns[c].peerId)
    && t == At(Enqueue(s, h, f), c, Visiting(s.conns[c].pc.visits, step))
  }

  /** Another guest's part of its host's log is not affected. */
  lemma ListenerOk(room: Room, host: Conn, conn: Conn, d: ConnRef, f: Frame)
    requires host.pc.Hosting? && !host.chan.closed && conn.pc.Visiting?
    requires GuestOk(room, host, conn, d) && !Mentions(f, conn.peerId)
    ensures GuestOk(room, host.(chan := host.chan.Offer(f)), conn, d)
  {
    LogGrows(host.chan.offered, f, conn.peerId);
  }

  lemma OthersAreUnmentioned(s: State, c: ConnRef, f: Frame, step: GuestStage, t: State, d: ConnRef)
    requires Inv(s) && Tells(s, c, f, step, t)
    requires d < |s.conns| && d != c && s.conns[d].pc.Visiting? && s.conns[d].pc.visits == s.conns[c].pc.visits
    ensures !Mentions(f, s.conns[d].peerId)
  {
    assert ConnOk(s, d) && ConnOk(s, c);
  }

  lemma TellsOther(s: State, c: ConnRef, f: Frame, step: GuestStage, t: State, d: ConnRef)
    requires Inv(s) && Tells(s, c, f, step, t)
    requires d < |s.conns| && d != c && s.conns[d].pc.Visiting?
    ensures ConnOk(t, d)
  {
    var r, q := s.conns[d].pc.visits, s.conns[c].pc.visits;
    assert ConnOk(s, d);
    assert RoomOk(s, r) && RoomOk(s, q);
    if r == q {
      OthersAreUnmentioned(s, c, f, step, t, d);
      ListenerOk(s.rooms[r], s.conns[s.rooms[r].host], s.conns[d], d, f);
    } else {
      MemberFrame(s, t, d);
    }
  }

  lemma TellsRoom(s: State, c: ConnRef, f: Frame, step: GuestStage, t: State, r: RoomRef)
    requires Inv(s) && Tells(s, c, f, step, t) && r < |s.rooms|
    ensures RoomOk(t, r)
  {
    var room, q := s.rooms[r], s.conns[c].pc.visits;
    assert ConnOk(s, c) && RoomOk(s, r) && RoomOk(s, q);
    assert RolesKept(s, t);
    if r != q {
      RoomFrame(s, t, r);
    } else {
      forall n: U32 | n == 0 || n > |room.joined| ensures PhaseOf(t.conns[room.host].chan.offered, n) == Fresh {
        LogGrows(s.conns[room.host].chan.offered, f, n);
      }
      forall k | 0 <= k < |room.joined| ensures IsMember(t, room.joined[k], r, k + 1) {
        assert IsMember(s, room.joined[k], r, k + 1);
        assert KeepsRole(s.conns[room.joined[k]], t.conns[room.joined[k]]);
      }
    }
  }

  lemma TellsKeeps(s: State, c: ConnRef, f: Frame, step: GuestStage, t: State)
    requires Inv(s) && Tells(s, c, f, step, t)
    requires ConnOk(t, c)
    ensures Inv(t)
  {
    var h := s.rooms[s.conns[c].pc.visits].host;
    assert ConnOk(s, c) && ConnOk(s, h) && RoomOk(s, s.conns[c].pc.visits);
    s.conns[h].chan.OfferSound(f);
    forall d | 0 <= d < |t.conns| ensures ConnOk(t, d) {
      assert ConnOk(s, d);
      if d != c && d != h {
        if s.conns[d].pc.Visiting? {
          TellsOther(s, c, f, step, t, d);
        }
      }
    }
    forall r | 0 <= r < |t.rooms| ensures RoomOk(t, r) {
      TellsRoom(s, c, f, step, t, r);
    }
  }

  /** The three things a guest's goroutine tells its host. */
  ghost predicate Tellable(conn: Conn, f: Frame, step: GuestStage, instead: GuestStage) {
    conn.pc.Visiting? &&
    match conn.pc.step
    case Joining => f == Joined(conn.peerId) && step == Receiving && instead == Died
    case Forwarding(data) => f == Binary(data) && step == Receiving && instead == Leaving
    case Parting(true) => f == Left(conn.peerId) && step == Closing && instead == Died
    case _ => false
  }

  /** The teller's own record fits the grown log. */
  lemma TellerOk(room: Room, host: Conn, conn: Conn, c: ConnRef, f: Frame, step: GuestStage, instead: GuestStage)
    requires host.pc.Hosting? && !host.chan.closed && Tellable(conn, f, step, instead)
    requires GuestOk(room, host, conn, c)
    ensures GuestOk(room, host.(chan := host.chan.Offer(f)), conn.(pc := Visiting(conn.pc.visits, step)), c)
    ensures OnlyAbout(f, conn.peerId)
  {
    LogGrows(host.chan.offered, f, conn.peerId);
  }

  lemma TellKeeps(s: State, c: ConnRef, f: Frame, step: GuestStage, instead: GuestStage)
    requires Inv(s) && c < |s.conns| && Visits(s, s.conns[c].pc)
    requires Tellable(s.conns[c], f, step, instead)
    ensures Inv(Tell(s, c, f, step, instead))
  {
    var r := s.conns[c].pc.visits;
    var h := s.rooms[r].host;
    assert ConnOk(s, c) && RoomOk(s, r);
    if s.conns[h].chan.closed {
      OnlyConnKeeps(s, At(s, c, Visiting(r, instead)), c);
    } else {
      TellerOk(s.rooms[r], s.conns[h], s.conns[c], c, f, step, instead);
      TellsKeeps(s, c, f, step, At(Enqueue(s, h, f), c, Visiting(r, step)));
    }
  }

  lemma PartSilentlyKeeps(s: State, c: ConnRef)
    requires Inv(s) && c < |s.conns| && Visits(s, s.conns[c].pc) && s.conns[c].pc.step == Parting(false)
    ensures Inv(At(s, c, Visiting(s.conns[c].pc.visits, Closing)))
  {
    assert ConnOk(s, c) && RoomOk(s, s.conns[c].pc.visits);
    assert OneRoute(s.rooms[s.conns[c].pc.visits], s.conns[c].peerId - 1);
    OnlyConnKeeps(s, At(s, c, Visiting(s.conns[c].pc.visits, Closing)), c);
  }

  // ---- steps that change a room's guests -------------------------------------------

  /** Only room r's guests and history and connection c changed. */
  ghost predicate OnlyRoom(s: State, t: State, c: ConnRef, r: RoomRef) {
    && c < |s.conns| && r < |s.rooms|
    && t.live == s.live
    && |t.rooms| == |s.rooms| && |t.conns| == |s.conns|
    && (forall q :: 0 <= q < |s.rooms| && q != r ==> t.rooms[q] == s.rooms[q])
    && (forall d :: 0 <= d < |s.conns| && d != c ==> t.conns[d] == s.conns[d])
    && t.rooms[r].id == s.rooms[r].id && t.rooms[r].host == s.rooms[r].host
    && t.conns[c].chan == s.conns[c].chan
    && KeepsRole(s.conns[c], t.conns[c])
  }

  lemma OnlyRoomKeeps(s: State, t: State, c: ConnRef, r: RoomRef)
    requires Inv(s) && OnlyRoom(s, t, c, r)
    requires s.conns[c].pc.Hosting? ==> s.rooms[r].host == c && s.conns[c].pc.room == r
    requires s.conns[c].pc.Visiting? ==> s.conns[c].pc.visits == r
    requires ConnOk(t, c) && RoomOk(t, r) && LiveOk(t)
    requires ConnOk(t, s.rooms[r].host)
    requires forall d :: 0 <= d < |s.conns| && d != c && s.conns[d].pc.Visiting? && s.conns[d].pc.visits == r ==>
        ConnOk(t, d)
    ensures Inv(t)
  {
    forall d | 0 <= d < |t.conns| ensures ConnOk(t, d) {
      assert ConnOk(s, d);
      if d != c && d != s.rooms[r].host {
        if s.conns[d].pc.Hosting? {
          HostFrame(s, t, d);
        } else if s.conns[d].pc.Visiting? && s.conns[d].pc.visits != r {
          assert RoomOk(s, s.conns[d].pc.visits);
          MemberFrame(s, t, d);
        }
      }
    }
    forall q | 0 <= q < |t.rooms| ensures RoomOk(t, q) {
      assert RoomOk(s, q);
      if q != r { RoomFrame(s, t, q); }
    }
  }

  lemma GuestRegisterRoom(s: State, c: ConnRef, r: RoomRef, t: State)
    requires Inv(s) && c < |s.conns| && s.conns[c].pc == Found(r) && r < |s.rooms|
    requires |s.rooms[r].joined| < 0xFFFF_FFFF && t == GuestRegister(s, c, r)
    ensures c !in s.rooms[r].joined && RoomOk(t, r)
  {
    var room, room' := s.rooms[r], t.rooms[r];
    assert RoomOk(s, r);
    forall k | 0 <= k < |room.joined| ensures room.joined[k] != c {
      assert IsMember(s, room.joined[k], r, k + 1);
    }
    forall k | 0 <= k < |room'.joined| ensures OneRoute(room', k) {
      if k < |room.joined| { assert OneRoute(room, k); }
    }
    forall k | 0 <= k < |room'.joined| ensures IsMember(t, room'.joined[k], r, k + 1) {
      if k < |room.joined| { assert IsMember(s, room.joined[k], r, k + 1); }
    }
  }

  lemma GuestRegisterSelf(s: State, c: ConnRef, r: RoomRef, t: State)
    requires Inv(s) && c < |s.conns| && s.conns[c].pc == Found(r) && r < |s.rooms|
    requires |s.rooms[r].joined| < 0xFFFF_FFFF && t == GuestRegister(s, c, r)
    requires c !in s.rooms[r].joined
    ensures ConnOk(t, c) && s.rooms[r].host < |t.conns| && ConnOk(t, s.rooms[r].host)
  {
    var room := s.rooms[r];
    assert ConnOk(s, c) && RoomOk(s, r) && ConnOk(s, room.host);
    FreshIsSilent(s.conns[room.host].chan.offered, room.next);
  }

  lemma GuestRegisterOther(s: State, c: ConnRef, r: RoomRef, t: State, d: ConnRef)
    requires Inv(s) && c < |s.conns| && s.conns[c].pc == Found(r) && r < |s.rooms|
    requires t == GuestRegister(s, c, r)
    requires d < |s.conns| && d != c && s.conns[d].pc.Visiting? && s.conns[d].pc.visits == r
    ensures ConnOk(t, d)
  {
    assert ConnOk(s, d) && RoomOk(s, r);
    RoomChange(s, t, d);
  }

  lemma GuestRegisterKeeps(s: State, c: ConnRef, r: RoomRef)
    requires Inv(s) && c < |s.conns| && s.conns[c].pc == Found(r) && r < |s.rooms|
    requires |s.rooms[r].joined| < 0xFFFF_FFFF
    ensures Inv(GuestRegister(s, c, r))
  {
    var t := GuestRegister(s, c, r);
    GuestRegisterRoom(s, c, r, t);
    GuestRegisterSelf(s, c, r, t);
    forall d | 0 <= d < |s.conns| && d != c && s.conns[d].pc.Visiting? && s.conns[d].pc.visits == r
      ensures ConnOk(t, d)
    {
      GuestRegisterOther(s, c, r, t, d);
    }
    OnlyRoomKeeps(s, t, c, r);
  }

  lemma GuestLeaveRoom(s: State, c: ConnRef, r: RoomRef, t: State)
    requires Inv(s) && c < |s.conns| && s.conns[c].pc == Visiting(r, Leaving) && r < |s.rooms|
    requires t == GuestLeave(s, c, r)
    ensures RoomOk(t, r)
  {
    var room, room' := s.rooms[r], t.rooms[r];
    assert ConnOk(s, c) && RoomOk(s, r);
    forall k | 0 <= k < |room.joined| ensures OneRoute(room', k) {
      assert OneRoute(room, k);
      assert IsMember(s, room.joined[k], r, k + 1);
    }
    forall k | 0 <= k < |room'.joined| ensures IsMember(t, room'.joined[k], r, k + 1) {
      assert IsMember(s, room.joined[k], r, k + 1);
    }
  }

  lemma GuestLeaveSelf(s: State, c: ConnRef, r: RoomRef, t: State)
    requires Inv(s) && c < |s.conns| && s.conns[c].pc == Visiting(r, Leaving) && r < |s.rooms|
    requires t == GuestLeave(s, c, r)
    ensures ConnOk(t, c) && s.rooms[r].host < |t.conns| && ConnOk(t, s.rooms[r].host)
  {
    assert ConnOk(s, c) && RoomOk(s, r) && ConnOk(s, s.rooms[r].host);
    assert OneRoute(s.rooms[r], s.conns[c].peerId - 1);
  }

  lemma GuestLeaveOther(s: State, c: ConnRef, r: RoomRef, t: State, d: ConnRef)
    requires Inv(s) && c < |s.conns| && s.conns[c].pc == Visiting(r, Leaving) && r < |s.rooms|
    requires t == GuestLeave(s, c, r)
    requires d < |s.conns| && d != c && s.conns[d].pc.Visiting? && s.conns[d].pc.visits == r
    ensures ConnOk(t, d)
  {
    assert ConnOk(s, d);
    RoomChange(s, t, d);
  }

  lemma GuestLeaveKeeps(s: State, c: ConnRef, r: RoomRef)
    requires Inv(s) && c < |s.conns| && s.conns[c].pc == Visiting(r, Leaving) && r < |s.rooms|
    ensures Inv(GuestLeave(s, c, r))
  {
    var t := GuestLeave(s, c, r);
    GuestLeaveRoom(s, c, r, t);
    GuestLeaveSelf(s, c, r, t);
    forall d | 0 <= d < |s.conns| && d != c && s.conns[d].pc.Visiting? && s.conns[d].pc.visits == r
      ensures ConnOk(t, d)
    {
      GuestLeaveOther(s, c, r, t, d);
    }
    OnlyRoomKeeps(s, t, c, r);
  }

  /** The values of a room's guest map are the members at those ids. */
  lemma GuestIsMember(s: State, r: RoomRef, g: ConnRef)
    requires Inv(s) && r < |s.rooms| && g in s.rooms[r].guests.Values
    ensures g in s.rooms[r].joined && g < |s.conns| && s.conns[g].pc.Visiting? && s.conns[g].pc.visits == r
    ensures s.conns[g].peerId in s.rooms[r].guests && s.rooms[r].guests[s.conns[g].peerId] == g
    ensures g !in s.rooms[r].drained && g !in s.rooms[r].withdrew
    ensures !s.conns[g].chan.closed
  {
    var room := s.rooms[r];
    assert RoomOk(s, r);
    var n :| n in room.guests && room.guests[n] == g;
    assert IsMember(s, room.joined[n - 1], r, n);
    assert OneRoute(room, n - 1);
    assert ConnOk(s, g);
  }

  lemma HostDrainRoom(s: State, c: ConnRef, r: RoomRef, t: State)
    requires Inv(s) && c < |s.conns| && Hosts(s, s.conns[c].pc, Draining) && s.conns[c].pc.room == r
    requires t == HostDrain(s, c, r)
    ensures RoomOk(t, r)
  {
    var room, room' := s.rooms[r], t.rooms[r];
    assert ConnOk(s, c) && RoomOk(s, r);
    forall g | g in room'.drained ensures g in room.joined && g !in room.withdrew { GuestIsMember(s, r, g); }
    forall k | 0 <= k < |room.joined| ensures OneRoute(room', k) {
      assert OneRoute(room, k);
      if k + 1 in room.guests { assert room.guests[k + 1] == room.joined[k]; }
    }
    forall k | 0 <= k < |room'.joined| ensures IsMember(t, room'.joined[k], r, k + 1) {
      assert IsMember(s, room.joined[k], r, k + 1);
    }
  }

  lemma HostDrainGuest(s: State, c: ConnRef, r: RoomRef, t: State, d: ConnRef)
    requires Inv(s) && c < |s.conns| && Hosts(s, s.conns[c].pc, Draining) && s.conns[c].pc.room == r
    requires t == HostDrain(s, c, r)
    requires d < |s.conns| && d != c && s.conns[d].pc.Visiting? && s.conns[d].pc.visits == r
    ensures ConnOk(t, d)
  {
    assert ConnOk(s, c) && ConnOk(s, d);
    if d in s.rooms[r].guests.Values { GuestIsMember(s, r, d); }
  }

  lemma HostDrainKeeps(s: State, c: ConnRef, r: RoomRef)
    requires Inv(s) && c < |s.conns| && Hosts(s, s.conns[c].pc, Draining) && s.conns[c].pc.room == r
    ensures Inv(HostDrain(s, c, r))
  {
    var t := HostDrain(s, c, r);
    assert ConnOk(s, c);
    HostDrainRoom(s, c, r, t);
    forall d | 0 <= d < |s.conns| && d != c && s.conns[d].pc.Visiting? && s.conns[d].pc.visits == r
      ensures ConnOk(t, d)
    {
      HostDrainGuest(s, c, r, t, d);
    }
    OnlyRoomKeeps(s, t, c, r);
  }

  // ---- the host offers frames to guests --------------------------------------------

  lemma NotifiedOk(room: Room, host: Conn, conn: Conn, g: ConnRef)
    requires host.pc.Hosting? && g in host.pc.pending && host.pc.pending <= room.drained
    requires conn.pc.Visiting? && !conn.chan.closed && GuestOk(room, host, conn, g)
    ensures GuestOk(room, host.(pc := Hosting(host.pc.room, Notifying, host.pc.pending - {g})),
                    conn.(chan := conn.chan.Offer(RoomClosed)), g)
  {
    LogGrows(conn.chan.offered, RoomClosed, 0);
  }

  lemma NotifiedGuest(s: State, c: ConnRef, g: ConnRef, t: State)
    requires Inv(s) && c < |s.conns| && Hosts(s, s.conns[c].pc, Notifying) && g in s.conns[c].pc.pending
        && g < |s.conns|
    requires s.conns[g].pc.Visiting? && s.conns[g].pc.visits == s.conns[c].pc.room && !s.conns[g].chan.closed
    requires t == HostNotify(s, c, s.conns[c].pc.room, s.conns[c].pc.pending, g)
    ensures ConnOk(t, g)
  {
    assert ConnOk(s, c) && ConnOk(s, g);
    s.conns[g].chan.OfferSound(RoomClosed);
    NotifiedOk(s.rooms[s.conns[c].pc.room], s.conns[c], s.conns[g], g);
  }

  lemma NotifiedOther(s: State, c: ConnRef, g: ConnRef, t: State, d: ConnRef)
    requires Inv(s) && c < |s.conns| && Hosts(s, s.conns[c].pc, Notifying) && g in s.conns[c].pc.pending
        && g < |s.conns|
    requires s.conns[g].pc.Visiting? && !s.conns[g].chan.closed
    requires t == HostNotify(s, c, s.conns[c].pc.room, s.conns[c].pc.pending, g) && d < |s.conns| && d != g
    ensures ConnOk(t, d)
  {
    assert ConnOk(s, c) && ConnOk(s, d);
    if s.conns[d].pc.Visiting? {
      assert RoomOk(s, s.conns[d].pc.visits);
      MemberFrame(s, t, d);
    } else if d != c && s.conns[d].pc.Hosting? {
      HostFrame(s, t, d);
    }
  }

  lemma HostNotifyKeeps(s: State, c: ConnRef, g: ConnRef)
    requires Inv(s) && c < |s.conns| && Hosts(s, s.conns[c].pc, Notifying) && g in s.conns[c].pc.pending
        && g < |s.conns|
    ensures Inv(HostNotify(s, c, s.conns[c].pc.room, s.conns[c].pc.pending, g))
  {
    var pc := s.conns[c].pc;
    var room, t := s.rooms[pc.room], HostNotify(s, c, pc.room, pc.pending, g);
    assert ConnOk(s, c) && RoomOk(s, pc.room);
    if s.conns[g].chan.closed {
      HostMovesKeeps(s, c, t, Crashed);
    } else {
      var k :| 0 <= k < |room.joined| && room.joined[k] == g;
      assert IsMember(s, g, pc.room, k + 1);
      forall d | 0 <= d < |t.conns| ensures ConnOk(t, d) {
        if d == g { NotifiedGuest(s, c, g, t); } else { NotifiedOther(s, c, g, t, d); }
      }
      forall q | 0 <= q < |t.rooms| ensures RoomOk(t, q) {
        assert RoomOk(s, q);
        RoomFrame(s, t, q);
      }
    }
  }

  /** A guest may be offered a frame; nobody else notices. */
  lemma OfferToGuest(s: State, t: State, d: ConnRef, f: Frame)
    requires d < |s.conns| && s.conns[d].pc.Visiting? && ConnOk(s, d) && !s.conns[d].chan.closed && f.Binary?
    requires t.rooms == s.rooms && |t.conns| == |s.conns|
    requires t.conns[d] == s.conns[d].(chan := s.conns[d].chan.Offer(f))
    requires t.conns[s.rooms[s.conns[d].pc.visits].host] == s.conns[s.rooms[s.conns[d].pc.visits].host]
    ensures ConnOk(t, d)
  {
    s.conns[d].chan.OfferSound(f);
    LogGrows(s.conns[d].chan.offered, f, 0);
  }

  /** A broadcast reaches guests only, never a host's log. */
  lemma BroadcastConn(s: State, r: RoomRef, targets: set<ConnRef>, f: Frame, t: State, d: ConnRef)
    requires Inv(s) && r < |s.rooms| && targets <= s.rooms[r].guests.Values && f.Binary?
    requires t == s.(conns := EnqueueAll(s.conns, targets, f)) && d < |s.conns|
    ensures ConnOk(t, d)
  {
    assert ConnOk(s, d);
    if d in targets { GuestIsMember(s, r, d); }
    if s.conns[d].pc.Visiting? {
      var h := s.rooms[s.conns[d].pc.visits].host;
      if h in targets { GuestIsMember(s, r, h); }
      if d in targets {
        OfferToGuest(s, t, d, f);
      } else {
        MemberFrame(s, t, d);
      }
    }
  }

  lemma HostReadKeeps(s: State, c: ConnRef, msg: Message)
    requires Inv(s) && c < |s.conns| && Hosts(s, s.conns[c].pc, Serving)
    ensures Inv(HostRead(s, c, s.conns[c].pc.room, msg))
  {
    var r := s.conns[c].pc.room;
    var t := HostRead(s, c, r, msg);
    assert ConnOk(s, c);
    if msg.ReadError? {
      HostMovesKeeps(s, c, t, Unlisting);
    } else if t != s {
      var targets := Targets(s.rooms[r], GetU32(msg.data));
      forall d | 0 <= d < |t.conns| ensures ConnOk(t, d) {
        BroadcastConn(s, r, targets, Binary(msg.data), t, d);
      }
      forall q | 0 <= q < |t.rooms| ensures RoomOk(t, q) {
        assert RoomOk(s, q);
        if s.rooms[q].host in targets { GuestIsMember(s, r, s.rooms[q].host); }
        RoomFrame(s, t, q);
      }
    }
  }
}
