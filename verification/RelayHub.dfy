/** The relay as covibe runs it: a hub, rooms and connections as shared objects that are
    updated in place, one method per part of serveHost and serveGuest. Seen through
    `State`, each method does exactly its step of the protocol. */
module RelayHub {
  import opened Bytes
  import opened Channels
  import P = RelayProtocol
  import I = RelayInvariants

  /** One peer's socket. `ref`, `pc` and `payloads` are ghost: the connection's place in
      the protocol's state, where its goroutine is, and what it has read. */
  class Conn {
    ghost const ref: P.ConnRef
    ghost var pc: P.Pc
    ghost var payloads: seq<seq<Byte>>
    var peerId: U32
    var chan: Chan<P.Frame>

    constructor (ghost ref: P.ConnRef, ghost pc: P.Pc)
      ensures this.ref == ref && Abs() == P.NewConn(pc)
    {
      this.ref, this.pc, payloads := ref, pc, [];
      peerId, chan := 0, NewChan(P.QUEUE);
    }

    ghost function Abs(): P.Conn
      reads this
    {
      P.Conn(pc, peerId, chan, payloads)
    }
  }

  /** `ref`, `id`, `joined`, `drained` and `withdrew` are ghost: place and history. */
  class Room {
    ghost const ref: P.RoomRef
    ghost const id: string
    const host: Conn
    var guests: map<U32, Conn>
    var next: U32
    ghost var joined: seq<P.ConnRef>
    ghost var drained: set<P.ConnRef>
    ghost var withdrew: set<P.ConnRef>

    constructor (ghost ref: P.RoomRef, ghost id: string, host: Conn)
      ensures this.ref == ref && this.id == id && this.host == host && guests == map[]
      ensures Abs() == P.Room(id, host.ref, map[], 1, [], {}, {})
    {
      this.ref, this.id, this.host := ref, id, host;
      guests, next := map[], 1;
      joined, drained, withdrew := [], {}, {};
    }

    ghost function Refs(): map<U32, P.ConnRef>
      reads this
    {
      map n | n in guests :: guests[n].ref
    }

    ghost function Abs(): P.Room
      reads this
    {
      P.Room(id, host.ref, Refs(), next, joined, drained, withdrew)
    }
  }

  class Relay {
    var rooms: map<string, Room>
    ghost var conns: seq<Conn>
    ghost var places: seq<Room>

    /** Every object is at its own place, and leads only to objects that have one. */
    ghost predicate Valid()
      reads this, conns, places
    {
      && (forall i :: 0 <= i < |conns| ==> conns[i].ref == i)
      && (forall i :: 0 <= i < |places| ==> places[i].ref == i && Known(places[i].host))
      && (forall i, n :: 0 <= i < |places| && n in places[i].guests ==> Known(places[i].guests[n]))
      && (forall id :: id in rooms ==> Placed(rooms[id]))
    }

    ghost predicate Known(c: Conn)
      reads this
    {
      c.ref < |conns| && conns[c.ref] == c
    }

    ghost predicate Placed(room: Room)
      reads this
    {
      room.ref < |places| && places[room.ref] == room
    }

    ghost function State(): P.State
      reads this, conns, places
    {
      P.State(map id | id in rooms :: rooms[id].ref,
              seq(|places|, i requires 0 <= i < |places| reads this, places => places[i].Abs()),
              seq(|conns|, i requires 0 <= i < |conns| reads this, conns => conns[i].Abs()))
    }

    constructor ()
      ensures Valid() && State() == P.INIT
    {
      rooms, conns, places := map[], [], [];
    }

    // ---- what a change of one object means for the whole ---------------------------

    twostate lemma ConnMoved(c: Conn)
      requires old(Valid()) && old(Known(c)) && unchanged(this)
      requires forall i :: 0 <= i < |conns| && i != c.ref ==> unchanged(conns[i])
      requires forall i :: 0 <= i < |places| ==> unchanged(places[i])
      ensures Valid()
      ensures State() == old(State()).(conns := old(State()).conns[c.ref := c.Abs()])
    {
      assert State().conns == old(State()).conns[c.ref := c.Abs()];
      assert State().rooms == old(State()).rooms;
    }

    twostate lemma RoomMoved(room: Room)
      requires old(Valid()) && old(Placed(room)) && unchanged(this)
      requires forall i :: 0 <= i < |conns| ==> unchanged(conns[i])
      requires forall i :: 0 <= i < |places| && i != room.ref ==> unchanged(places[i])
      requires forall n :: n in room.guests ==> Known(room.guests[n])
      ensures Valid()
      ensures State() == old(State()).(rooms := old(State()).rooms[room.ref := room.Abs()])
    {
      assert State().conns == old(State()).conns;
      assert State().rooms == old(State()).rooms[room.ref := room.Abs()];
    }

    twostate lemma RoomAdded(new room: Room, c: Conn)
      requires old(Valid()) && old(Known(c)) && fresh(room) && conns == old(conns) && places == old(places) + [room]
      requires rooms == old(rooms)[room.id := room] && room.ref == |old(places)| && room.host == c
          && room.guests == map[]
      requires forall i :: 0 <= i < |conns| && i != c.ref ==> unchanged(conns[i])
      requires forall i :: 0 <= i < |old(places)| ==> unchanged(places[i])
      ensures Valid()
      ensures State().live == old(State()).live[room.id := room.ref]
      ensures State().rooms == old(State()).rooms + [room.Abs()]
      ensures State().conns == old(State()).conns[c.ref := c.Abs()]
    {
      assert State().conns == old(State()).conns[c.ref := c.Abs()];
      assert State().rooms == old(State()).rooms + [room.Abs()];
      assert State().live == old(State()).live[room.id := room.ref];
    }

    // ---- serveHost -----------------------------------------------------------------

    /** A new WebSocket connection, from newRelayConn to the call of serveHost or serveGuest. */
    method Accept(roomID: string, host: bool) returns (c: Conn)
      requires Valid()
      modifies this`conns
      ensures Valid() && fresh(c) && Known(c)
      ensures c.pc == if host then P.HostDialing(roomID) else P.GuestDialing(roomID)
      ensures State() == P.Step(old(State()), if host then P.HostArrives(roomID) else P.GuestArrives(roomID))
    {
      c := new Conn(|conns|, if host then P.HostDialing(roomID) else P.GuestDialing(roomID));
      conns := conns + [c];
      assert State().conns == old(State()).conns + [c.Abs()];
      assert State().rooms == old(State()).rooms;
    }

    method HostOpens(roomID: string, c: Conn) returns (room: Room?)
      requires Valid() && Known(c) && c.pc == P.HostDialing(roomID)
      modifies this`rooms, this`places, c`pc
      ensures Valid() && Known(c)
      ensures State() == P.Step(old(State()), P.HostOpens(c.ref))
      ensures room == null <==> roomID in old(rooms)
      ensures room != null ==> Placed(room) && room.id == roomID && c.pc == P.Hosting(room.ref, P.Serving, {})
    {
      if roomID in rooms {
        Goto(c, P.Refused);
        return null;
      }
      var added := new Room(|places|, roomID, c);
      places := places + [added];
      rooms := rooms[roomID := added];
      c.pc := P.Hosting(added.ref, P.Serving, {});
      RoomAdded(added, c);
      return added;
    }

    /** A broadcast under way: `left` are the guests still to be offered f. */
    ghost predicate Spreads(before: P.State, guests: map<U32, Conn>, left: set<U32>, f: P.Frame)
      reads this, conns, places
    {
      && Valid() && left <= guests.Keys
      && (forall n :: n in guests ==> Known(guests[n]) && Reachable(before, guests[n], n))
      && State() == before.(conns := P.EnqueueAll(before.conns, Told(guests, left), f))
    }

    ghost predicate Reachable(before: P.State, g: Conn, n: U32) {
      g.ref < |before.conns| && before.conns[g.ref].peerId == n && !before.conns[g.ref].chan.closed
    }

    ghost function Told(guests: map<U32, Conn>, left: set<U32>): set<P.ConnRef> {
      set n | n in guests && n !in left :: guests[n].ref
    }

    /** One turn of the broadcast's loop. */
    method OfferNext(guests: map<U32, Conn>, n: U32, f: P.Frame, ghost before: P.State, ghost left: set<U32>)
      requires Spreads(before, guests, left, f) && n in left
      modifies guests[n]
      ensures Spreads(before, guests, left - {n}, f)
    {
      var g := guests[n];
      assert Reachable(before, g, n);
      assert forall m :: m in guests && guests[m].ref == g.ref ==> Reachable(before, guests[m], m);
      assert Told(guests, left - {n}) == Told(guests, left) + {g.ref};
      OneMore(before.conns, Told(guests, left), g.ref, f);
      Offer(g, f);
    }

    /** Offers a host frame to each guest of the room, in whatever order the map yields them. */
    method Broadcast(room: Room, data: seq<Byte>)
      requires Valid() && Placed(room) && I.Inv(State())
      modifies conns
      ensures Valid()
      ensures State() == old(State()).(conns := P.EnqueueAll(old(State()).conns, room.Refs().Values, P.Binary(data)))
    {
      ghost var before := State();
      var guests, left := room.guests, room.guests.Keys;
      BroadcastStarts(room, P.Binary(data));
      while left != {}
        invariant Spreads(before, guests, left, P.Binary(data))
        decreases |left|
      {
        var n :| n in left;
        OfferNext(guests, n, P.Binary(data), before, left);
        left := left - {n};
      }
      ToldAll(room);
    }

    lemma BroadcastStarts(room: Room, f: P.Frame)
      requires Valid() && Placed(room) && I.Inv(State())
      ensures Spreads(State(), room.guests, room.guests.Keys, f)
    {
      assert Told(room.guests, room.guests.Keys) == {};
      assert P.EnqueueAll(State().conns, {}, f) == State().conns;
      forall n | n in room.guests ensures Reachable(State(), room.guests[n], n) {
        GuestIsReachable(room, n);
      }
    }

    lemma ToldAll(room: Room)
      ensures Told(room.guests, {}) == room.Refs().Values
    {
      forall i | i in Told(room.guests, {}) ensures i in room.Refs().Values {
        var n :| n in room.guests && room.guests[n].ref == i;
        assert room.Refs()[n] == i;
      }
    }

    /** The entries of a guest map sit under their own ids, and all of them are open. */
    lemma GuestIsReachable(room: Room, n: U32)
      requires Valid() && Placed(room) && I.Inv(State()) && n in room.guests
      ensures Reachable(State(), room.guests[n], n)
    {
      assert State().rooms[room.ref] == room.Abs();
      assert I.RoomOk(State(), room.ref);
      var g := room.Refs()[n];
      assert g in State().rooms[room.ref].guests.Values;
      I.GuestIsMember(State(), room.ref, g);
      assert I.IsMember(State(), g, room.ref, n);
    }

    lemma OneMore(before: seq<P.Conn>, told: set<P.ConnRef>, r: P.ConnRef, f: P.Frame)
      requires r < |before| && r !in told && !before[r].chan.closed
      ensures P.EnqueueAll(before, told, f)[r] == before[r]
      ensures P.EnqueueAll(before, told + {r}, f) ==
          P.EnqueueAll(before, told, f)[r := before[r].(chan := before[r].chan.Offer(f))]
    {
    }

    /** `enqueue`. */
    method Offer(c: Conn, f: P.Frame)
      requires Valid() && Known(c) && !State().conns[c.ref].chan.closed
      modifies c`chan
      ensures Valid() && State() == P.Enqueue(old(State()), c.ref, f)
    {
      assert State().conns[c.ref] == c.Abs();
      c.chan := c.chan.Offer(f);
      ConnMoved(c);
    }

    /** The program counter of c's goroutine moves on. */
    ghost method Goto(c: Conn, pc: P.Pc)
      requires Valid() && Known(c)
      modifies c`pc
      ensures Valid() && c.pc == pc && State() == P.At(old(State()), c.ref, pc)
    {
      assert State().conns[c.ref] == c.Abs();
      c.pc := pc;
      ConnMoved(c);
    }

    method HostReads(room: Room, c: Conn, msg: P.Message)
      requires Valid() && Known(c) && Placed(room) && c.pc == P.Hosting(room.ref, P.Serving, {})
      requires I.Inv(State())
      modifies conns
      ensures Valid()
      ensures State() == P.Step(old(State()), P.HostReads(c.ref, msg))
    {
      assert State().conns[c.ref] == c.Abs() && State().rooms[room.ref] == room.Abs();
      match msg
      case ReadError =>
        Goto(c, P.Hosting(room.ref, P.Unlisting, {}));
      case TextMessage =>
      case BinaryMessage(data) =>
        if |data| < P.ENVELOPE {
          return;
        }
        Route(room, data);
    }

    /** Under the room's lock: to everyone, to one guest, or to nobody. */
    method Route(room: Room, data: seq<Byte>)
      requires Valid() && Placed(room) && I.Inv(State()) && |data| >= P.ENVELOPE
      modifies conns
      ensures Valid()
      ensures room.ref < |old(State()).rooms|
      ensures State() == old(State()).(conns :=
                P.EnqueueAll(old(State()).conns, P.Targets(old(State()).rooms[room.ref], GetU32(data)), P.Binary(data)))
    {
      assert State().rooms[room.ref] == room.Abs();
      var peer := GetU32(data);
      if peer == 0 {
        Broadcast(room, data);
      } else if peer in room.guests {
        Address(room, peer, data);
      } else {
        assert P.EnqueueAll(old(State()).conns, {}, P.Binary(data)) == old(State()).conns;
      }
    }

    method Address(room: Room, peer: U32, data: seq<Byte>)
      requires Valid() && Placed(room) && I.Inv(State()) && peer in room.guests
      modifies room.guests[peer]
      ensures Valid()
      ensures State() == old(State()).(conns := P.EnqueueAll(old(State()).conns, {room.Refs()[peer]}, P.Binary(data)))
    {
      GuestIsReachable(room, peer);
      var g := room.guests[peer];
      OneMore(State().conns, {}, g.ref, P.Binary(data));
      assert {} + {g.ref} == {g.ref} && P.EnqueueAll(State().conns, {}, P.Binary(data)) == State().conns;
      Offer(g, P.Binary(data));
    }

    method HostUnlists(roomID: string, room: Room, c: Conn)
      requires Valid() && Known(c) && Placed(room) && c.pc.Hosting? && c.pc.room == room.ref
          && c.pc.stage == P.Unlisting
      requires room.id == roomID
      modifies this`rooms, c`pc
      ensures Valid()
      ensures State() == P.Step(old(State()), P.HostUnlists(c.ref))
    {
      assert State().conns[c.ref] == c.Abs() && State().rooms[room.ref] == room.Abs();
      if roomID in rooms && rooms[roomID] == room {
        Unlist(roomID);
      }
      Goto(c, P.Hosting(room.ref, P.Draining, {}));
    }

    method Unlist(roomID: string)
      requires Valid()
      modifies this`rooms
      ensures Valid() && rooms == old(rooms) - {roomID}
      ensures State() == old(State()).(live := old(State()).live - {roomID})
    {
      rooms := rooms - {roomID};
      assert State().conns == old(State()).conns;
      assert State().rooms == old(State()).rooms;
      assert State().live == old(State()).live - {roomID};
    }

    /** Collects the guests and swaps in an empty map, under the room's lock. */
    method TakeOut(room: Room) returns (guests: set<Conn>)
      requires Valid() && Placed(room)
      modifies room
      ensures Valid() && guests == old(room.guests).Values && RefsOf(guests) == old(room.Refs()).Values
      ensures State() == old(State()).(rooms := old(State()).rooms[room.ref :=
                old(room.Abs()).(guests := map[], drained := RefsOf(guests))])
    {
      guests := {};
      var keys := room.guests.Keys;
      while keys != {}
        invariant keys <= room.guests.Keys
        invariant guests == set n | n in room.guests && n !in keys :: room.guests[n]
        decreases |keys|
      {
        var n :| n in keys;
        guests := guests + {room.guests[n]};
        keys := keys - {n};
      }
      assert guests == room.guests.Values;
      RefsAgree(room);
      room.guests := map[];
      room.drained := RefsOf(guests);
      RoomMoved(room);
    }

    lemma RefsAgree(room: Room)
      ensures RefsOf(room.guests.Values) == room.Refs().Values
    {
      forall i | i in RefsOf(room.guests.Values) ensures i in room.Refs().Values {
        var g :| g in room.guests.Values && g.ref == i;
        var n :| n in room.guests && room.guests[n] == g;
        assert room.Refs()[n] == i;
      }
    }

    method HostDrains(room: Room, c: Conn) returns (guests: set<Conn>)
      requires Valid() && Known(c) && Placed(room) && c.pc.Hosting? && c.pc.room == room.ref && c.pc.stage == P.Draining
      modifies room, c`pc
      ensures Valid()
      ensures State() == P.Step(old(State()), P.HostDrains(c.ref))
      ensures guests == old(room.guests).Values && c.pc == P.Hosting(room.ref, P.Notifying, RefsOf(guests))
    {
      assert State().conns[c.ref] == c.Abs() && State().rooms[room.ref] == room.Abs();
      guests := TakeOut(room);
      Goto(c, P.Hosting(room.ref, P.Notifying, RefsOf(guests)));
    }

    ghost function RefsOf(guests: set<Conn>): set<P.ConnRef> {
      set g | g in guests :: g.ref
    }

    /** One turn of the teardown's loop. */
    method HostNotifies(room: Room, c: Conn, g: Conn)
      requires Valid() && Known(c) && Known(g) && Placed(room)
      requires c.pc.Hosting? && c.pc.room == room.ref && c.pc.stage == P.Notifying && g.ref in c.pc.pending && g != c
      modifies c`pc, g`chan
      ensures Valid()
      ensures State() == P.Step(old(State()), P.HostNotifies(c.ref, g.ref))
    {
      assert State().conns[c.ref] == c.Abs();
      Send(g, P.RoomClosed, c, P.Hosting(room.ref, P.Notifying, c.pc.pending - {g.ref}),
          P.Hosting(room.ref, P.Crashed, c.pc.pending));
    }

    method HostFinishes(room: Room, c: Conn)
      requires Valid() && Known(c) && Placed(room) && c.pc == P.Hosting(room.ref, P.Notifying, {}) && !c.chan.closed
      modifies c
      ensures Valid()
      ensures State() == P.Step(old(State()), P.HostFinishes(c.ref))
    {
      assert State().conns[c.ref] == c.Abs();
      c.chan := c.chan.Close();
      c.pc := P.Hosting(room.ref, P.Finished, {});
      ConnMoved(c);
    }

    // ---- serveGuest ----------------------------------------------------------------

    method GuestLooksUp(roomID: string, c: Conn) returns (room: Room?)
      requires Valid() && Known(c) && c.pc == P.GuestDialing(roomID)
      modifies c`pc
      ensures Valid()
      ensures State() == P.Step(old(State()), P.GuestLooksUp(c.ref))
      ensures room != null ==> Placed(room) && c.pc == P.Found(room.ref)
    {
      assert State().conns[c.ref] == c.Abs();
      if roomID !in rooms {
        Goto(c, P.Refused);
        return null;
      }
      room := rooms[roomID];
      Goto(c, P.Found(room.ref));
    }

    /** Gives out the room's next id. */
    method Enter(room: Room, c: Conn) returns (peerId: U32)
      requires Valid() && Known(c) && Placed(room)
      modifies room
      ensures Valid() && peerId == old(room.next)
      ensures State() == old(State()).(rooms := old(State()).rooms[room.ref :=
                old(room.Abs()).(guests := old(room.Refs())[peerId := c.ref], next := P.Bump(peerId),
                    joined := old(room.joined) + [c.ref])])
    {
      peerId := room.next;
      room.next := P.Bump(room.next);
      room.guests := room.guests[peerId := c];
      room.joined := room.joined + [c.ref];
      assert room.Refs() == old(room.Refs())[peerId := c.ref];
      RoomMoved(room);
    }

    method GuestRegisters(room: Room, c: Conn) returns (host: Conn)
      requires Valid() && Known(c) && Placed(room) && c.pc == P.Found(room.ref)
      modifies room, c
      ensures Valid() && host == room.host && c.peerId == old(room.next) && c.pc == P.Visiting(room.ref, P.Joining)
      ensures State() == P.Step(old(State()), P.GuestRegisters(c.ref))
    {
      assert State().conns[c.ref] == c.Abs() && State().rooms[room.ref] == room.Abs();
      var peerId := Enter(room, c);
      label Entered:
      c.peerId := peerId;
      c.pc := P.Visiting(room.ref, P.Joining);
      ConnMoved@Entered(c);
      host := room.host;
    }

    /** The state after a send by c's goroutine, which goes on to `onward`, or to `instead`
        where the channel is closed and the send panics. */
    ghost function Sent(s: P.State, to: P.ConnRef, f: P.Frame, c: P.ConnRef, onward: P.Pc, instead: P.Pc): P.State
      requires to < |s.conns| && c < |s.conns|
    {
      if s.conns[to].chan.closed then P.At(s, c, instead) else P.At(P.Enqueue(s, to, f), c, onward)
    }

    /** A send made outside every lock. */
    method Send(to: Conn, f: P.Frame, c: Conn, ghost onward: P.Pc, ghost instead: P.Pc)
      requires Valid() && Known(to) && Known(c) && to != c
      modifies to`chan, c`pc
      ensures Valid() && State() == Sent(old(State()), to.ref, f, c.ref, onward, instead)
    {
      assert State().conns[to.ref] == to.Abs();
      if to.chan.closed {
        Goto(c, instead);
      } else {
        OfferAndGo(to, f, c, onward);
      }
    }

    method OfferAndGo(to: Conn, f: P.Frame, c: Conn, ghost pc: P.Pc)
      requires Valid() && Known(to) && Known(c) && to != c && !State().conns[to.ref].chan.closed
      modifies to`chan, c`pc
      ensures Valid() && State() == P.At(P.Enqueue(old(State()), to.ref, f), c.ref, pc)
    {
      Offer(to, f);
      Goto(c, pc);
    }

    lemma Visitor(room: Room, host: Conn, c: Conn)
      requires Valid() && Known(c) && Placed(room) && host == room.host
      requires c.pc.Visiting? && c.pc.visits == room.ref
      ensures State().conns[c.ref] == c.Abs() && State().rooms[room.ref] == room.Abs()
          && State().conns[host.ref] == host.Abs()
      ensures P.Visits(State(), c.pc)
    {
    }

    method GuestAnnounces(room: Room, host: Conn, c: Conn)
      requires Valid() && Known(c) && Placed(room) && host == room.host && host != c
          && c.pc == P.Visiting(room.ref, P.Joining)
      modifies c`pc, host`chan
      ensures Valid()
      ensures State() == P.Step(old(State()), P.GuestAnnounces(c.ref))
    {
      Visitor(room, host, c);
      Send(host, P.Joined(c.peerId), c, P.Visiting(room.ref, P.Receiving), P.Visiting(room.ref, P.Died));
    }

    method GuestReadFails(room: Room, c: Conn)
      requires Valid() && Known(c) && Placed(room) && c.pc == P.Visiting(room.ref, P.Receiving)
      modifies c`pc
      ensures Valid()
      ensures State() == P.Step(old(State()), P.GuestReads(c.ref, P.ReadError))
    {
      assert State().conns[c.ref] == c.Abs() && State().rooms[room.ref] == room.Abs();
      Goto(c, P.Visiting(room.ref, P.Leaving));
    }

    /** A binary frame from a guest: its envelope is overwritten in the read buffer. */
    method GuestReads(room: Room, c: Conn, data: array<Byte>) returns (skip: bool)
      requires Valid() && Known(c) && Placed(room) && c.pc == P.Visiting(room.ref, P.Receiving)
      modifies c`pc, c`payloads, data
      ensures Valid()
      ensures State() == P.Step(old(State()), P.GuestReads(c.ref, P.BinaryMessage(old(data[..]))))
      ensures skip <==> data.Length < P.ENVELOPE
      ensures skip ==> data[..] == old(data[..])
      ensures !skip ==> c.pc == P.Visiting(room.ref, P.Forwarding(data[..]))
      ensures !skip ==> data[..] == P.Stamp(c.peerId, old(data[..]))
    {
      assert State().conns[c.ref] == c.Abs() && State().rooms[room.ref] == room.Abs();
      if data.Length < P.ENVELOPE {
        return true;
      }
      ghost var frame := data[..];
      PutU32At(data, 0, c.peerId);
      assert data[..] == P.Stamp(c.peerId, frame);
      c.payloads := c.payloads + [frame[P.ENVELOPE..]];
      c.pc := P.Visiting(room.ref, P.Forwarding(data[..]));
      ConnMoved(c);
      return false;
    }

    method GuestForwards(room: Room, host: Conn, c: Conn, data: array<Byte>)
      requires Valid() && Known(c) && Placed(room) && host == room.host && host != c
      requires c.pc == P.Visiting(room.ref, P.Forwarding(data[..]))
      modifies c`pc, host`chan
      ensures Valid()
      ensures State() == P.Step(old(State()), P.GuestForwards(c.ref))
    {
      Visitor(room, host, c);
      Send(host, P.Binary(data[..]), c, P.Visiting(room.ref, P.Receiving), P.Visiting(room.ref, P.Leaving));
    }

    /** Takes a guest out of the map, if its id is still there. */
    method Withdraw(room: Room, c: Conn) returns (stillHere: bool)
      requires Valid() && Known(c) && Placed(room)
      modifies room
      ensures Valid() && stillHere == (c.peerId in old(room.guests))
      ensures State() == old(State()).(rooms := old(State()).rooms[room.ref :=
                old(room.Abs()).(guests := old(room.Refs()) - {c.peerId},
                                 withdrew := if stillHere then old(room.withdrew) + {c.ref} else old(room.withdrew))])
    {
      stillHere := c.peerId in room.guests;
      room.guests := room.guests - {c.peerId};
      assert room.Refs() == old(room.Refs()) - {c.peerId};
      if stillHere {
        room.withdrew := room.withdrew + {c.ref};
      }
      RoomMoved(room);
    }

    method GuestLeaves(room: Room, c: Conn) returns (stillHere: bool)
      requires Valid() && Known(c) && Placed(room) && c.pc == P.Visiting(room.ref, P.Leaving)
      modifies room, c`pc
      ensures Valid() && c.pc == P.Visiting(room.ref, P.Parting(stillHere))
      ensures State() == P.Step(old(State()), P.GuestLeaves(c.ref))
    {
      assert State().conns[c.ref] == c.Abs() && State().rooms[room.ref] == room.Abs();
      stillHere := Withdraw(room, c);
      Goto(c, P.Visiting(room.ref, P.Parting(stillHere)));
    }

    method GuestNotifies(room: Room, host: Conn, c: Conn, stillHere: bool)
      requires Valid() && Known(c) && Placed(room) && host == room.host && host != c
      requires c.pc == P.Visiting(room.ref, P.Parting(stillHere))
      modifies c`pc, host`chan
      ensures Valid()
      ensures State() == P.Step(old(State()), P.GuestNotifies(c.ref))
    {
      Visitor(room, host, c);
      if stillHere {
        Send(host, P.Left(c.peerId), c, P.Visiting(room.ref, P.Closing), P.Visiting(room.ref, P.Died));
      } else {
        Goto(c, P.Visiting(room.ref, P.Closing));
      }
    }

    method GuestFinishes(room: Room, c: Conn)
      requires Valid() && Known(c) && Placed(room) && c.pc == P.Visiting(room.ref, P.Closing) && !c.chan.closed
      modifies c
      ensures Valid()
      ensures State() == P.Step(old(State()), P.GuestFinishes(c.ref))
    {
      assert State().conns[c.ref] == c.Abs() && State().rooms[room.ref] == room.Abs();
      c.chan := c.chan.Close();
      c.pc := P.Visiting(room.ref, P.Gone);
      ConnMoved(c);
    }

    /** One turn of writeLoop. */
    method WriterTakes(c: Conn) returns (f: P.Frame)
      requires Valid() && Known(c) && c.chan.queue != []
      modifies c`chan
      ensures Valid()
      ensures State() == P.Step(old(State()), P.WriterTakes(c.ref))
      ensures [f] <= old(c.chan.queue)
    {
      assert State().conns[c.ref] == c.Abs();
      f := c.chan.queue[0];
      c.chan := c.chan.Take();
      ConnMoved(c);
    }

    method RoomLive(roomID: string) returns (ok: bool)
      requires Valid()
      ensures ok == P.RoomLive(State(), roomID)
    {
      ok := roomID in rooms;
    }
  }
}
