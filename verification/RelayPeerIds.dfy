/** How peer ids are given out, in every run and however many guests join: where exactly
    the 32-bit counter stops keeping them apart. */
module RelayPeerIds {
  import opened Bytes
  import opened RelayProtocol
  import opened RelayInvariants
  import opened RelayTheorems

  const IDS := 0x1_0000_0000

  /** The k-th guest to join got k + 1 and keeps it; the counter is one further on. */
  ghost predicate Numbered(s: State) {
    forall r :: 0 <= r < |s.rooms| ==>
      var room := s.rooms[r];
      && room.next == (|room.joined| + 1) % IDS
      && forall k :: 0 <= k < |room.joined| ==> IsMember(s, room.joined[k], r, (k + 1) % IDS)
  }

  lemma RegisterNumbers(s: State, c: ConnRef)
    requires Numbered(s) && Enabled(s, GuestRegisters(c))
    ensures Numbered(Step(s, GuestRegisters(c)))
  {
    var t, at := Step(s, GuestRegisters(c)), s.conns[c].pc.at;
    forall r | 0 <= r < |t.rooms|
      ensures t.rooms[r].next == (|t.rooms[r].joined| + 1) % IDS
      ensures forall k :: 0 <= k < |t.rooms[r].joined| ==> IsMember(t, t.rooms[r].joined[k], r, (k + 1) % IDS)
    {
      var before := s.rooms[r].joined;
      assert r == at ==> t.rooms[r].joined == before + [c];
      forall k | 0 <= k < |t.rooms[r].joined| ensures IsMember(t, t.rooms[r].joined[k], r, (k + 1) % IDS) {
        if k < |before| { assert IsMember(s, before[k], r, (k + 1) % IDS); }
      }
    }
  }

  /** Only registrations touch what rooms have given out. */
  lemma OthersDoNotJoin(s: State, e: Event, r: RoomRef)
    requires !e.GuestRegisters? && r < |s.rooms|
    ensures var t := Step(s, e);
            r < |t.rooms| && t.rooms[r].joined == s.rooms[r].joined && t.rooms[r].next == s.rooms[r].next
  {
  }

  lemma NewRoomsAreEmpty(s: State, e: Event, r: RoomRef)
    requires |s.rooms| <= r < |Step(s, e).rooms|
    ensures Step(s, e).rooms[r].joined == [] && Step(s, e).rooms[r].next == 1
  {
  }

  lemma StepNumbers(s: State, e: Event)
    requires Numbered(s)
    ensures Numbered(Step(s, e))
  {
    var t := Step(s, e);
    if e.GuestRegisters? {
      if Enabled(s, e) { RegisterNumbers(s, e.c); }
    } else {
      StepGoesOn(s, e);
      forall r | 0 <= r < |t.rooms|
        ensures t.rooms[r].next == (|t.rooms[r].joined| + 1) % IDS
        ensures forall k :: 0 <= k < |t.rooms[r].joined| ==> IsMember(t, t.rooms[r].joined[k], r, (k + 1) % IDS)
      {
        if r < |s.rooms| {
          OthersDoNotJoin(s, e, r);
          forall k | 0 <= k < |t.rooms[r].joined| ensures IsMember(t, t.rooms[r].joined[k], r, (k + 1) % IDS) {
            var d := s.rooms[r].joined[k];
            assert IsMember(s, d, r, (k + 1) % IDS) && Onward(s.conns[d], t.conns[d]);
          }
        } else {
          NewRoomsAreEmpty(s, e, r);
        }
      }
    }
  }

  lemma {:induction false} RunNumbers(es: seq<Event>)
    ensures Numbered(Run(es))
  {
    if es != [] {
      RunNumbers(es[..|es| - 1]);
      StepNumbers(Run(es[..|es| - 1]), es[|es| - 1]);
    }
  }

  /** No guest of the room was given 0, and no two were given the same id. */
  ghost predicate IdsTellApart(s: State, r: RoomRef)
    requires r < |s.rooms| && Numbered(s)
  {
    var joined := s.rooms[r].joined;
    && (forall k :: 0 <= k < |joined| ==> PeerOf(s, r, k) != 0)
    && (forall j, k :: 0 <= j < k < |joined| ==> PeerOf(s, r, j) != PeerOf(s, r, k))
  }

  /** The id the k-th guest of room r was given. */
  ghost function PeerOf(s: State, r: RoomRef, k: nat): U32
    requires r < |s.rooms| && k < |s.rooms[r].joined| && Numbered(s)
  {
    assert IsMember(s, s.rooms[r].joined[k], r, (k + 1) % IDS);
    s.conns[s.rooms[r].joined[k]].peerId
  }

  lemma PeerOfIs(s: State, r: RoomRef, k: nat)
    requires r < |s.rooms| && k < |s.rooms[r].joined| && Numbered(s)
    ensures PeerOf(s, r, k) == (k + 1) % IDS
  {
    assert IsMember(s, s.rooms[r].joined[k], r, (k + 1) % IDS);
  }

  lemma TellApart(s: State, r: RoomRef)
    requires r < |s.rooms| && Numbered(s)
    ensures IdsTellApart(s, r) <==> |s.rooms[r].joined| <= 0xFFFF_FFFF
  {
    var n := |s.rooms[r].joined|;
    forall k | 0 <= k < n ensures PeerOf(s, r, k) == (k + 1) % IDS { PeerOfIs(s, r, k); }
    if n > 0xFFFF_FFFF {
      assert PeerOf(s, r, 0xFFFF_FFFF) == 0;
    } else {
      assert forall k :: 0 <= k < n ==> PeerOf(s, r, k) == k + 1;
    }
  }

  /** In every run, peer ids tell a room's guests apart, and from the broadcast, exactly as
      long as at most 2^32 - 1 of them have joined. */
  lemma IdsTellApartExactly(es: seq<Event>, r: RoomRef)
    requires r < |Run(es).rooms|
    ensures Numbered(Run(es))
    ensures IdsTellApart(Run(es), r) <==> |Run(es).rooms[r].joined| <= 0xFFFF_FFFF
  {
    RunNumbers(es);
    TellApart(Run(es), r);
  }

  /** The ids given out lie in [1, next) exactly while fewer than 2^32 - 1 guests joined. */
  lemma CounterIsAheadExactly(es: seq<Event>, r: RoomRef)
    requires r < |Run(es).rooms|
    ensures Numbered(Run(es))
    ensures var s := Run(es);
            (forall k :: 0 <= k < |s.rooms[r].joined| ==> 1 <= PeerOf(s, r, k) < s.rooms[r].next)
            <==> |s.rooms[r].joined| < 0xFFFF_FFFF
  {
    RunNumbers(es);
    CounterAhead(Run(es), r);
  }

  lemma CounterAhead(s: State, r: RoomRef)
    requires r < |s.rooms| && Numbered(s)
    ensures (forall k :: 0 <= k < |s.rooms[r].joined| ==> 1 <= PeerOf(s, r, k) < s.rooms[r].next)
            <==> |s.rooms[r].joined| < 0xFFFF_FFFF
  {
    var n := |s.rooms[r].joined|;
    forall k | 0 <= k < n ensures PeerOf(s, r, k) == (k + 1) % IDS { PeerOfIs(s, r, k); }
    assert s.rooms[r].next == (n + 1) % IDS;
    if n == 0xFFFF_FFFF {
      assert PeerOf(s, r, 0) == 1;
    } else if n > 0xFFFF_FFFF {
      assert PeerOf(s, r, 0xFFFF_FFFF) == 0;
    }
  }

  // ---- any number of guests can join ---------------------------------------------

  /** One host, then k guests that each look the room up and register. */
  function Crowd(id: string, k: nat): seq<Event> {
    if k == 0 then ([] + [HostArrives(id)]) + [HostOpens(0)]
    else ((Crowd(id, k - 1) + [GuestArrives(id)]) + [GuestLooksUp(k)]) + [GuestRegisters(k)]
  }

  ghost predicate Crowded(s: State, id: string, k: nat) {
    && |s.conns| == k + 1 && |s.rooms| == 1 && s.live == map[id := 0]
    && |s.rooms[0].joined| == k && s.rooms[0].next == Bump(k % 0x1_0000_0000)
    && (k > 0 ==> s.conns[k].peerId == k % 0x1_0000_0000 && s.rooms[0].joined[k - 1] == k)
  }

  lemma OneMoreGuest(s: State, id: string, k: nat)
    requires Crowded(s, id, k)
    ensures Crowded(Step(Step(Step(s, GuestArrives(id)), GuestLooksUp(k + 1)), GuestRegisters(k + 1)), id, k + 1)
  {
    var t := Step(s, GuestArrives(id));
    var u := Step(t, GuestLooksUp(k + 1));
    assert t.conns[k + 1].pc == GuestDialing(id);
    assert u.conns[k + 1].pc == Found(0) && u.rooms == s.rooms && u.live == s.live;
    assert Bump(k % 0x1_0000_0000) == (k + 1) % 0x1_0000_0000;
    assert Enabled(u, GuestRegisters(k + 1));
  }

  lemma RunThree(es: seq<Event>, a: Event, b: Event, c: Event)
    ensures Run(((es + [a]) + [b]) + [c]) == Step(Step(Step(Run(es), a), b), c)
  {
    RunAppend(es, a);
    RunAppend(es + [a], b);
    RunAppend((es + [a]) + [b], c);
  }

  lemma FirstHost(id: string)
    ensures Crowded(Run(Crowd(id, 0)), id, 0)
  {
    RunAppend([], HostArrives(id));
    RunAppend([] + [HostArrives(id)], HostOpens(0));
    var s := Step(INIT, HostArrives(id));
    assert s.conns == [NewConn(HostDialing(id))];
  }

  lemma CrowdGrows(es: seq<Event>, id: string, k: nat)
    requires Crowded(Run(es), id, k)
    ensures Crowded(Run(((es + [GuestArrives(id)]) + [GuestLooksUp(k + 1)]) + [GuestRegisters(k + 1)]), id, k + 1)
  {
    RunThree(es, GuestArrives(id), GuestLooksUp(k + 1), GuestRegisters(k + 1));
    OneMoreGuest(Run(es), id, k);
  }

  lemma {:induction false} CrowdJoins(id: string, k: nat)
    ensures Crowded(Run(Crowd(id, k)), id, k)
  {
    if k == 0 {
      FirstHost(id);
    } else {
      CrowdJoins(id, k - 1);
      CrowdGrows(Crowd(id, k - 1), id, k - 1);
    }
  }

  /** With 2^32 joins the counter wraps: the last guest gets the broadcast id. */
  lemma TooManyJoinsReuseZero(id: string)
    ensures exists es :: var s := Run(es);
                         && |s.rooms| == 1 && |s.rooms[0].joined| == 0x1_0000_0000
                         && var last := s.rooms[0].joined[0xFFFF_FFFF];
                         last < |s.conns| && s.conns[last].peerId == 0
  {
    var k := 0x1_0000_0000;
    CrowdJoins(id, k);
    var s := Run(Crowd(id, k));
    assert s.conns[k].peerId == 0 && s.rooms[0].joined[k - 1] == k;
  }
}
