/** The collab relay as a state machine with one step per critical section.

    Every WebSocket connection is served by one goroutine. Its program counter says
    which part of serveHost or serveGuest it has reached; the two lock levels of the
    source (the relay's and the room's) make each section between lock and unlock one
    step, and every send made outside a lock is a step of its own. Steps of
    different connections interleave freely. Pointers are modelled as indices into
    `rooms` and `conns`, which only grow. */
module RelayProtocol {
  import opened Bytes
  import opened Channels

  type ConnRef = nat
  type RoomRef = nat

  /** What travels on a connection's send channel. */
  datatype Frame = Joined(peer: U32) | Left(peer: U32) | RoomClosed | Binary(data: seq<Byte>)

  /** What a read of the socket returns. */
  datatype Message = ReadError | TextMessage | BinaryMessage(data: seq<Byte>)

  /** Where serveHost is once it has a room. */
  datatype HostStage = Serving | Unlisting | Draining | Notifying | Finished | Crashed

  /** Where serveGuest is once it is in a room's guest map. */
  datatype GuestStage =
    | Joining | Receiving | Forwarding(data: seq<Byte>) | Leaving
    | Parting(stillHere: bool) | Closing | Gone | Died

  /** The program counter of the goroutine that serves a connection. `pending` is the
      local list of guests a teardown has yet to tell. */
  datatype Pc =
    | HostDialing(id: string)
    | GuestDialing(id: string)
    | Refused
    | Found(at: RoomRef)
    | Hosting(room: RoomRef, stage: HostStage, pending: set<ConnRef>)
    | Visiting(visits: RoomRef, step: GuestStage)

  /** `payloads` is the history of what a guest has sent us, envelope removed. */
  datatype Conn = Conn(pc: Pc, peerId: U32, chan: Chan<Frame>, payloads: seq<seq<Byte>>)

  /** `joined`, `drained` and `withdrew` are history: the guests in joining order,
      those the host's teardown took out, those that took themselves out. */
  datatype Room = Room(id: string, host: ConnRef, guests: map<U32, ConnRef>, next: U32,
                       joined: seq<ConnRef>, drained: set<ConnRef>, withdrew: set<ConnRef>)

  datatype State = State(live: map<string, RoomRef>, rooms: seq<Room>, conns: seq<Conn>)

  datatype Event =
    | HostArrives(id: string)
    | GuestArrives(id: string)
    | HostOpens(c: ConnRef)
    | HostReads(c: ConnRef, msg: Message)
    | HostUnlists(c: ConnRef)
    | HostDrains(c: ConnRef)
    | HostNotifies(c: ConnRef, g: ConnRef)
    | HostFinishes(c: ConnRef)
    | GuestLooksUp(c: ConnRef)
    | GuestRegisters(c: ConnRef)
    | GuestAnnounces(c: ConnRef)
    | GuestReads(c: ConnRef, msg: Message)
    | GuestForwards(c: ConnRef)
    | GuestLeaves(c: ConnRef)
    | GuestNotifies(c: ConnRef)
    | GuestFinishes(c: ConnRef)
    | WriterTakes(c: ConnRef)

  const ENVELOPE := 4
  const QUEUE := 256

  const INIT := State(map[], [], [])

  function NewConn(pc: Pc): Conn {
    Conn(pc, 0, NewChan(QUEUE), [])
  }

  predicate Hosts(s: State, pc: Pc, stage: HostStage) {
    pc.Hosting? && pc.stage == stage && pc.room < |s.rooms|
  }

  predicate Visits(s: State, pc: Pc) {
    pc.Visiting? && pc.visits < |s.rooms| && s.rooms[pc.visits].host < |s.conns|
  }

  predicate Enabled(s: State, e: Event) {
    if e.HostArrives? || e.GuestArrives? then true
    else
      e.c < |s.conns| &&
      var pc := s.conns[e.c].pc;
      match e
      case HostOpens(_) => pc.HostDialing?
      case HostReads(_, _) => Hosts(s, pc, Serving)
      case HostUnlists(_) => Hosts(s, pc, Unlisting)
      case HostDrains(_) => Hosts(s, pc, Draining)
      case HostNotifies(_, g) => Hosts(s, pc, Notifying) && g in pc.pending && g < |s.conns|
      case HostFinishes(_) => Hosts(s, pc, Notifying) && pc.pending == {} && !s.conns[e.c].chan.closed
      case GuestLooksUp(_) => pc.GuestDialing?
      case GuestRegisters(_) => pc.Found? && pc.at < |s.rooms|
      case GuestAnnounces(_) => Visits(s, pc) && pc.step == Joining
      case GuestReads(_, _) => Visits(s, pc) && pc.step == Receiving
      case GuestForwards(_) => Visits(s, pc) && pc.step.Forwarding?
      case GuestLeaves(_) => Visits(s, pc) && pc.step == Leaving
      case GuestNotifies(_) => Visits(s, pc) && pc.step.Parting?
      case GuestFinishes(_) => Visits(s, pc) && pc.step == Closing && !s.conns[e.c].chan.closed
      case WriterTakes(_) => s.conns[e.c].chan.queue != []
  }

  function At(s: State, c: ConnRef, pc: Pc): State
    requires c < |s.conns|
  {
    s.(conns := s.conns[c := s.conns[c].(pc := pc)])
  }

  /** `enqueue` on an open channel. A Go send on a closed channel panics instead;
      the callers below say what that does to the goroutine. */
  function Enqueue(s: State, c: ConnRef, f: Frame): State
    requires c < |s.conns| && !s.conns[c].chan.closed
  {
    s.(conns := s.conns[c := s.conns[c].(chan := s.conns[c].chan.Offer(f))])
  }

  function EnqueueAll(conns: seq<Conn>, targets: set<ConnRef>, f: Frame): (r: seq<Conn>)
    ensures |r| == |conns|
    ensures forall i :: 0 <= i < |conns| ==>
              r[i] ==
                if i in targets && !conns[i].chan.closed then conns[i].(chan := conns[i].chan.Offer(f))
                else conns[i]
  {
    seq(|conns|, i requires 0 <= i < |conns| =>
      if i in targets && !conns[i].chan.closed then conns[i].(chan := conns[i].chan.Offer(f)) else conns[i])
  }

  /** The addressees of a host frame: id 0 is everyone in the room. */
  function Targets(room: Room, peer: U32): set<ConnRef> {
    if peer == 0 then room.guests.Values
    else if peer in room.guests then {room.guests[peer]}
    else {}
  }

  function Bump(n: U32): U32 {
    (n + 1) % 0x1_0000_0000
  }

  function Stamp(peer: U32, data: seq<Byte>): seq<Byte>
    requires |data| >= ENVELOPE
  {
    PutU32(peer) + data[ENVELOPE..]
  }

  function Close(s: State, c: ConnRef, pc: Pc): State
    requires c < |s.conns| && !s.conns[c].chan.closed
  {
    s.(conns := s.conns[c := s.conns[c].(pc := pc, chan := s.conns[c].chan.Close())])
  }

  /** The relay's critical section at the start of serveHost. */
  function HostOpen(s: State, c: ConnRef, id: string): State
    requires c < |s.conns|
  {
    if id in s.live then At(s, c, Refused)
    else
      var r := |s.rooms|;
      At(s.(live := s.live[id := r], rooms := s.rooms + [Room(id, c, map[], 1, [], {}, {})]), c,
          Hosting(r, Serving, {}))
  }

  /** The host's read loop: route a frame under the room's lock. */
  function HostRead(s: State, c: ConnRef, r: RoomRef, msg: Message): State
    requires c < |s.conns| && r < |s.rooms|
  {
    match msg
    case ReadError => At(s, c, Hosting(r, Unlisting, {}))
    case TextMessage => s
    case BinaryMessage(data) =>
      if |data| < ENVELOPE then s
      else s.(conns := EnqueueAll(s.conns, Targets(s.rooms[r], GetU32(data)), Binary(data)))
  }

  /** First critical section of the teardown: unlist the room, if it is still ours. */
  function HostUnlist(s: State, c: ConnRef, r: RoomRef): State
    requires c < |s.conns| && r < |s.rooms|
  {
    var id := s.rooms[r].id;
    At(if id in s.live && s.live[id] == r then s.(live := s.live - {id}) else s, c, Hosting(r, Draining, {}))
  }

  /** Second critical section of the teardown: take the guests out. */
  function HostDrain(s: State, c: ConnRef, r: RoomRef): State
    requires c < |s.conns| && r < |s.rooms|
  {
    var room := s.rooms[r];
    At(s.(rooms := s.rooms[r := room.(guests := map[], drained := room.guests.Values)]), c,
       Hosting(r, Notifying, room.guests.Values))
  }

  /** One turn of the teardown's loop. A send on a closed channel panics, which
      abandons the rest of the deferred call. */
  function HostNotify(s: State, c: ConnRef, r: RoomRef, pending: set<ConnRef>, g: ConnRef): State
    requires c < |s.conns| && g < |s.conns|
  {
    if s.conns[g].chan.closed then At(s, c, Hosting(r, Crashed, pending))
    else At(Enqueue(s, g, RoomClosed), c, Hosting(r, Notifying, pending - {g}))
  }

  /** The room's critical section that registers a guest. */
  function GuestRegister(s: State, c: ConnRef, r: RoomRef): State
    requires c < |s.conns| && r < |s.rooms|
  {
    var room := s.rooms[r];
    s.(rooms := s.rooms[r := room.(guests := room.guests[room.next := c], next := Bump(room.next),
        joined := room.joined + [c])],
       conns := s.conns[c := s.conns[c].(pc := Visiting(r, Joining), peerId := room.next)])
  }

  /** A send by a guest's goroutine to its host, outside every lock: `then` is where it
      goes on, `instead` where a panic on a closed channel takes it. */
  function Tell(s: State, c: ConnRef, f: Frame, then': GuestStage, instead: GuestStage): State
    requires c < |s.conns| && Visits(s, s.conns[c].pc)
  {
    var r := s.conns[c].pc.visits;
    var h := s.rooms[r].host;
    if s.conns[h].chan.closed then At(s, c, Visiting(r, instead))
    else At(Enqueue(s, h, f), c, Visiting(r, then'))
  }

  /** The guest's read loop: overwrite the envelope with the sender's id. */
  function GuestRead(s: State, c: ConnRef, r: RoomRef, msg: Message): State
    requires c < |s.conns|
  {
    var conn := s.conns[c];
    match msg
    case ReadError => At(s, c, Visiting(r, Leaving))
    case TextMessage => s
    case BinaryMessage(data) =>
      if |data| < ENVELOPE then s
      else s.(conns := s.conns[c := conn.(pc := Visiting(r, Forwarding(Stamp(conn.peerId, data))),
                                          payloads := conn.payloads + [data[ENVELOPE..]])])
  }

  /** The room's critical section in a guest's deferred call. */
  function GuestLeave(s: State, c: ConnRef, r: RoomRef): State
    requires c < |s.conns| && r < |s.rooms|
  {
    var room, n := s.rooms[r], s.conns[c].peerId;
    var stillHere := n in room.guests;
    At(s.(rooms := s.rooms[r := room.(guests := room.guests - {n},
                                      withdrew := if stillHere then room.withdrew + {c} else room.withdrew)]),
       c, Visiting(r, Parting(stillHere)))
  }

  /** One step; an event that is not enabled changes nothing. A panic while announcing
      happens before the deferred call is set up, one while forwarding runs it, one
      inside it skips the close of the guest's own channel. */
  function Step(s: State, e: Event): State {
    if !Enabled(s, e) then s else
    match e
    case HostArrives(id) => s.(conns := s.conns + [NewConn(HostDialing(id))])
    case GuestArrives(id) => s.(conns := s.conns + [NewConn(GuestDialing(id))])
    case HostOpens(c) => HostOpen(s, c, s.conns[c].pc.id)
    case HostReads(c, msg) => HostRead(s, c, s.conns[c].pc.room, msg)
    case HostUnlists(c) => HostUnlist(s, c, s.conns[c].pc.room)
    case HostDrains(c) => HostDrain(s, c, s.conns[c].pc.room)
    case HostNotifies(c, g) => HostNotify(s, c, s.conns[c].pc.room, s.conns[c].pc.pending, g)
    case HostFinishes(c) => Close(s, c, Hosting(s.conns[c].pc.room, Finished, {}))
    case GuestLooksUp(c) =>
      var id := s.conns[c].pc.id;
      At(s, c, if id in s.live then Found(s.live[id]) else Refused)
    case GuestRegisters(c) => GuestRegister(s, c, s.conns[c].pc.at)
    case GuestAnnounces(c) => Tell(s, c, Joined(s.conns[c].peerId), Receiving, Died)
    case GuestReads(c, msg) => GuestRead(s, c, s.conns[c].pc.visits, msg)
    case GuestForwards(c) => Tell(s, c, Binary(s.conns[c].pc.step.data), Receiving, Leaving)
    case GuestLeaves(c) => GuestLeave(s, c, s.conns[c].pc.visits)
    case GuestNotifies(c) =>
      if s.conns[c].pc.step.stillHere then Tell(s, c, Left(s.conns[c].peerId), Closing, Died)
      else At(s, c, Visiting(s.conns[c].pc.visits, Closing))
    case GuestFinishes(c) => Close(s, c, Visiting(s.conns[c].pc.visits, Gone))
    case WriterTakes(c) => s.(conns := s.conns[c := s.conns[c].(chan := s.conns[c].chan.Take())])
  }

  /** The state after a run: any finite interleaving of the steps. */
  function Run(es: seq<Event>): State {
    if es == [] then INIT else Step(Run(es[..|es| - 1]), es[|es| - 1])
  }

  /** roomLive. */
  predicate RoomLive(s: State, id: string) {
    id in s.live
  }
}
