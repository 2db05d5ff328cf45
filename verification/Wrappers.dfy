/** Remote wrappers talking to a dashboard over a network that may lose a request or its
    answer. A wrapper heartbeats until it is told to stop, and registers again whenever it
    hears that the dashboard has forgotten it. */
module Wrappers {
  import opened Lifecycle
  import opened Answers
  import Spool
  import T = Tombstones

  /** `Forgotten` is the moment between a 404 and the registration it provokes. */
  datatype Phase = Unregistered | Watching | Forgotten | Stopped | Failed

  datatype Wrapper = Wrapper(room: string, owner: string, info: seq<string>, id: string, phase: Phase)

  datatype Fate = RequestLost | ReplyLost | Answered

  datatype System = System(world: World, wrappers: seq<Wrapper>)

  datatype Event =
    | Serve(req: Request)
    | Start(wrapper: Wrapper)
    | Beats(i: nat, fate: Fate, readable: bool)
    | Announces(i: nat, fate: Fate, valid: bool, minted: string)

  function AfterBeat(wr: Wrapper, fate: Fate, reply: Reply): Wrapper {
    if fate != Answered then wr
    else
      match reply
      case Beat(true) => wr.(phase := Stopped)
      case NoSession => wr.(phase := Forgotten)
      case _ => wr
  }

  /** A first registration that fails ends the wrapper; a later one is retried through the
      next heartbeat. */
  function AfterAnnounce(wr: Wrapper, fate: Fate, reply: Reply): Wrapper {
    if fate == Answered && reply.Created? then wr.(id := reply.id, phase := Watching)
    else if wr.phase == Unregistered then wr.(phase := Failed)
    else wr.(phase := Watching)
  }

  function Announcement(wr: Wrapper, valid: bool, minted: string): Request {
    Register(wr.room, true, valid, minted, wr.owner, wr.info)
  }

  /** What the dashboard makes of a request that may not arrive. */
  function Delivered(idOf: string -> string, cfg: Config, w: World, fate: Fate, req: Request): (World, Reply) {
    if fate == RequestLost then (w, NoSession) else Handle(idOf, cfg, w, req)
  }

  function Step(idOf: string -> string, cfg: Config, s: System, e: Event): System {
    match e
    case Serve(req) => s.(world := Handle(idOf, cfg, s.world, req).0)
    case Start(wr) => s.(wrappers := s.wrappers + [wr.(id := "", phase := Unregistered)])
    case Beats(i, fate, readable) =>
      if i < |s.wrappers| && s.wrappers[i].phase == Watching then
        var (w, reply) := Delivered(idOf, cfg, s.world, fate, Heartbeat(s.wrappers[i].id, readable));
        System(w, s.wrappers[i := AfterBeat(s.wrappers[i], fate, reply)])
      else s
    case Announces(i, fate, valid, minted) =>
      if i < |s.wrappers| && (s.wrappers[i].phase == Unregistered || s.wrappers[i].phase == Forgotten) then
        var (w, reply) := Delivered(idOf, cfg, s.world, fate, Announcement(s.wrappers[i], valid, minted));
        System(w, s.wrappers[i := AfterAnnounce(s.wrappers[i], fate, reply)])
      else s
  }

  function Run(idOf: string -> string, cfg: Config, s: System, es: seq<Event>): System {
    if es == [] then s else Step(idOf, cfg, Run(idOf, cfg, s, es[..|es| - 1]), es[|es| - 1])
  }

  ghost predicate SaneEvent(idOf: string -> string, e: Event) {
    match e
    case Serve(req) => Sane(idOf, req)
    case Announces(_, _, _, minted) => Minted(idOf, minted)
    case _ => true
  }

  ghost predicate AllSaneEvents(idOf: string -> string, es: seq<Event>) {
    forall i :: 0 <= i < |es| ==> SaneEvent(idOf, es[i])
  }

  // ---- one identity ----------------------------------------------------------------

  ghost predicate KeepsId(idOf: string -> string, wr: Wrapper) {
    wr.room != "" ==> wr.id == idOf(wr.room) || (wr.id == "" && wr.phase != Watching && wr.phase != Forgotten)
  }

  ghost predicate SystemOk(idOf: string -> string, s: System) {
    && Inv(idOf, s.world)
    && forall i :: 0 <= i < |s.wrappers| ==> KeepsId(idOf, s.wrappers[i])
  }

  lemma StepOk(idOf: string -> string, cfg: Config, s: System, e: Event)
    requires Hash(idOf) && SystemOk(idOf, s) && SaneEvent(idOf, e)
    ensures SystemOk(idOf, Step(idOf, cfg, s, e))
  {
    match e
    case Serve(req) => StepKeeps(idOf, cfg, s.world, req);
    case Start(wr) =>
    case Beats(i, fate, readable) =>
      if i < |s.wrappers| { StepKeeps(idOf, cfg, s.world, Heartbeat(s.wrappers[i].id, readable)); }
    case Announces(i, fate, valid, minted) =>
      if i < |s.wrappers| { StepKeeps(idOf, cfg, s.world, Announcement(s.wrappers[i], valid, minted)); }
  }

  /** Over any run of lost and answered heartbeats, pruned records and registrations, a
      wrapper with a room only ever holds the one id of its room. */
  lemma {:induction false} WrappersKeepTheirId(idOf: string -> string, cfg: Config, s: System, es: seq<Event>)
    requires Hash(idOf) && SystemOk(idOf, s) && AllSaneEvents(idOf, es)
    ensures SystemOk(idOf, Run(idOf, cfg, s, es))
  {
    if es != [] {
      WrappersKeepTheirId(idOf, cfg, s, es[..|es| - 1]);
      StepOk(idOf, cfg, Run(idOf, cfg, s, es[..|es| - 1]), es[|es| - 1]);
    }
  }

  // ---- a kill reaches the wrapper --------------------------------------------------

  lemma StepStaysDead(idOf: string -> string, cfg: Config, s: System, e: Event, room: string, t: nat)
    requires Hash(idOf) && SystemOk(idOf, s) && SaneEvent(idOf, e)
    requires Dead(s.world, idOf(room), room, t) && t <= s.world.now <= t + T.KILLED_TTL
    ensures Dead(Step(idOf, cfg, s, e).world, idOf(room), room, t)
  {
    match e
    case Serve(req) => DeadStays(idOf, cfg, s.world, req, room, t);
    case Start(wr) =>
    case Beats(i, fate, readable) =>
      if i < |s.wrappers| { DeadStays(idOf, cfg, s.world, Heartbeat(s.wrappers[i].id, readable), room, t); }
    case Announces(i, fate, valid, minted) =>
      if i < |s.wrappers| { DeadStays(idOf, cfg, s.world, Announcement(s.wrappers[i], valid, minted), room, t); }
  }

  lemma SystemClockRuns(idOf: string -> string, cfg: Config, s: System, e: Event)
    ensures Step(idOf, cfg, s, e).world.now >= s.world.now
  {
  }

  lemma {:induction false} RunStaysDead(idOf: string -> string, cfg: Config, s: System, es: seq<Event>, room: string,
      t: nat)
    requires Hash(idOf) && SystemOk(idOf, s) && AllSaneEvents(idOf, es)
    requires Dead(s.world, idOf(room), room, t) && t <= s.world.now
    requires Run(idOf, cfg, s, es).world.now <= t + T.KILLED_TTL
    ensures Dead(Run(idOf, cfg, s, es).world, idOf(room), room, t)
    ensures Run(idOf, cfg, s, es).world.now >= s.world.now
  {
    if es != [] {
      var init := es[..|es| - 1];
      SystemClockRuns(idOf, cfg, Run(idOf, cfg, s, init), es[|es| - 1]);
      RunStaysDead(idOf, cfg, s, init, room, t);
      WrappersKeepTheirId(idOf, cfg, s, init);
      StepStaysDead(idOf, cfg, Run(idOf, cfg, s, init), es[|es| - 1], room, t);
    }
  }

  lemma DeadReachesWrapper(
    idOf: string -> string, cfg: Config, u: System, room: string, t: nat, i: nat, e: Event)
    requires SystemOk(idOf, u) && i < |u.wrappers| && u.wrappers[i].room == room
    requires Dead(u.world, idOf(room), room, t) && t <= u.world.now <= t + T.KILLED_TTL
    ensures var next := Step(idOf, cfg, u, e);
            && |next.wrappers| >= |u.wrappers|
            && (e.Beats? && e.i == i && e.fate == Answered && u.wrappers[i].phase == Watching ==>
                next.wrappers[i].phase == Stopped)
            && (e.Announces? && e.i == i && u.wrappers[i].phase == Unregistered ==> next.wrappers[i].phase == Failed)
            && (e.Announces? && e.i == i ==> next.wrappers[i].id == u.wrappers[i].id)
  {
    if e.Beats? && e.i == i {
      assert KeepsId(idOf, u.wrappers[i]);
      if u.wrappers[i].phase == Watching {
        DeadIsRefused(idOf, cfg, u.world, room, t, Heartbeat(u.wrappers[i].id, e.readable));
      }
    } else if e.Announces? && e.i == i {
      DeadIsRefused(idOf, cfg, u.world, room, t, Announcement(u.wrappers[i], e.valid, e.minted));
    }
  }

  /** After a kill, and as long as tombstones last: the first heartbeat of a wrapper of
      that room that is answered stops it, no registration of the room succeeds, and no
      event brings a live record back. */
  lemma KillReachesWrapper(
    idOf: string -> string, cfg: Config, s: System, id: string, who: Caller, es: seq<Event>, i: nat, e: Event)
    requires Hash(idOf) && SystemOk(idOf, s) && AllSaneEvents(idOf, es) && SaneEvent(idOf, e)
    requires id in s.world.files && s.world.files[id].remote && s.world.files[id].room != ""
    requires Handle(idOf, cfg, s.world, Kill(id, who)).1 == Killed
    requires var u := Run(idOf, cfg, Step(idOf, cfg, s, Serve(Kill(id, who))), es);
             && u.world.now <= s.world.now + T.KILLED_TTL && i < |u.wrappers|
             && u.wrappers[i].room == s.world.files[id].room
    ensures var u := Run(idOf, cfg, Step(idOf, cfg, s, Serve(Kill(id, who))), es);
            var next := Step(idOf, cfg, u, e);
            && (id in u.world.files ==> u.world.files[id].status == Spool.Ended)
            && (id in next.world.files ==> next.world.files[id].status == Spool.Ended)
            && |next.wrappers| >= |u.wrappers|
            && (e.Beats? && e.i == i && e.fate == Answered && u.wrappers[i].phase == Watching ==>
                next.wrappers[i].phase == Stopped)
            && (e.Announces? && e.i == i && u.wrappers[i].phase == Unregistered ==> next.wrappers[i].phase == Failed)
            && (e.Announces? && e.i == i ==> next.wrappers[i].id == u.wrappers[i].id)
  {
    var room := s.world.files[id].room;
    var killed := Step(idOf, cfg, s, Serve(Kill(id, who)));
    KillMarks(idOf, cfg, s.world, id, who);
    StepOk(idOf, cfg, s, Serve(Kill(id, who)));
    RunStaysDead(idOf, cfg, killed, es, room, s.world.now);
    WrappersKeepTheirId(idOf, cfg, killed, es);
    var u := Run(idOf, cfg, killed, es);
    StepStaysDead(idOf, cfg, u, e, room, s.world.now);
    DeadReachesWrapper(idOf, cfg, u, room, s.world.now, i, e);
  }

  /** A stopped wrapper stays stopped, and nothing it could do has any effect. */
  lemma {:induction false} StoppedForEver(idOf: string -> string, cfg: Config, s: System, es: seq<Event>, i: nat)
    requires i < |s.wrappers| && s.wrappers[i].phase == Stopped
    ensures var u := Run(idOf, cfg, s, es);
            && i < |u.wrappers| && u.wrappers[i] == s.wrappers[i]
            && forall e: Event :: (e.Beats? && e.i == i) || (e.Announces? && e.i == i) ==> Step(idOf, cfg, u, e) == u
  {
    if es != [] {
      StoppedForEver(idOf, cfg, s, es[..|es| - 1], i);
    }
  }

  // ---- a forgotten session returns --------------------------------------------------

  /** A watching wrapper whose record is gone, and whose session was not killed lately, is
      back under its room's id after one answered heartbeat and one answered announcement,
      wherever there is room for one more session. */
  lemma ForgottenReturns(
    idOf: string -> string, cfg: Config, s: System, es: seq<Event>, i: nat, readable: bool, minted: string)
    requires Hash(idOf) && SystemOk(idOf, s) && AllSaneEvents(idOf, es) && Minted(idOf, minted)
    requires var u := Run(idOf, cfg, s, es);
             && i < |u.wrappers| && u.wrappers[i].phase == Watching && u.wrappers[i].room != ""
             && idOf(u.wrappers[i].room) !in u.world.files
             && !KilledLately(u.world, u.wrappers[i].room) && !KilledLately(u.world, idOf(u.wrappers[i].room))
             && (cfg.maxSessions > 0 ==> |LiveNow(cfg, u.world)| < cfg.maxSessions)
    ensures var u := Run(idOf, cfg, s, es);
            var room := u.wrappers[i].room;
            var asked := Step(idOf, cfg, u, Beats(i, Answered, readable));
            var back := Step(idOf, cfg, asked, Announces(i, Answered, true, minted));
            && i < |asked.wrappers| && asked.wrappers[i] == u.wrappers[i].(phase := Forgotten)
            && i < |back.wrappers| && back.wrappers[i] == u.wrappers[i].(id := idOf(room), phase := Watching)
            && idOf(room) in back.world.files
            && var rec := back.world.files[idOf(room)];
            && rec.remote && rec.room == room && rec.status == Spool.Starting && rec.updatedAt == back.world.now
            && rec.info == u.wrappers[i].info && back.world.now == u.world.now
  {
    WrappersKeepTheirId(idOf, cfg, s, es);
    var u := Run(idOf, cfg, s, es);
    var wr := u.wrappers[i];
    assert KeepsId(idOf, wr);
    HeartbeatIsAnsweredExactly(idOf, cfg, u.world, wr.id, readable);
    var asked := Step(idOf, cfg, u, Beats(i, Answered, readable));
    assert asked.world.files == u.world.files && asked.world.now == u.world.now && asked.world.pids == u.world.pids;
    assert !KilledLately(asked.world, wr.room);
    RegistrationIsAnsweredExactly(idOf, cfg, asked.world, Announcement(wr, true, minted));
  }

  /** What an answer makes of a wrapper. A lost or failed heartbeat changes nothing; a
      registration that is not accepted ends a wrapper at its first try only. */
  lemma AnswersTakeEffect(wr: Wrapper, id: string, reply: Reply, fate: Fate)
    ensures AfterBeat(wr, Answered, Beat(true)) == wr.(phase := Stopped)
    ensures AfterBeat(wr, Answered, NoSession) == wr.(phase := Forgotten)
    ensures fate != Answered || (reply != Beat(true) && reply != NoSession) ==> AfterBeat(wr, fate, reply) == wr
    ensures AfterAnnounce(wr, Answered, Created(id)) == wr.(id := id, phase := Watching)
    ensures fate != Answered || !reply.Created? ==>
              AfterAnnounce(wr, fate, reply) == wr.(phase := if wr.phase == Unregistered then Failed else Watching)
  {
  }

  /** A lost request changes nothing at the dashboard, a lost reply leaves it served all the
      same; the wrapper learns of neither. */
  lemma LossesTakeEffect(
    idOf: string -> string, cfg: Config, s: System, i: nat, readable: bool, valid: bool, minted: string, fate: Fate)
    requires i < |s.wrappers| && fate != Answered
    ensures var wr, t := s.wrappers[i], Step(idOf, cfg, s, Beats(i, fate, readable));
            wr.phase == Watching ==>
              && t.wrappers == s.wrappers
              && t.world == if fate == RequestLost then s.world
                            else Handle(idOf, cfg, s.world, Heartbeat(wr.id, readable)).0
    ensures var wr, t := s.wrappers[i], Step(idOf, cfg, s, Announces(i, fate, valid, minted));
            wr.phase == Unregistered || wr.phase == Forgotten ==>
              && t.wrappers == s.wrappers[i := wr.(phase := if wr.phase == Forgotten then Watching else Failed)]
              && t.world == if fate == RequestLost then s.world
                            else Handle(idOf, cfg, s.world,
                                        Register(wr.room, true, valid, minted, wr.owner, wr.info)).0
  {
  }

  /** A wrapper that starts is watching, under its room's id, once its first announcement is
      accepted. */
  lemma FirstAnnouncement(
    idOf: string -> string, cfg: Config, s: System, wr: Wrapper, minted: string)
    requires Hash(idOf) && Minted(idOf, minted) && wr.room != ""
    requires !KilledLately(s.world, wr.room) && (cfg.maxSessions > 0 ==> |LiveNow(cfg, s.world)| < cfg.maxSessions)
    ensures var started := Step(idOf, cfg, s, Start(wr));
            var i, t := |s.wrappers|, Step(idOf, cfg, started, Announces(|s.wrappers|, Answered, true, minted));
            && |t.wrappers| == i + 1 && t.wrappers[..i] == s.wrappers
            && t.wrappers[i] == wr.(id := idOf(wr.room), phase := Watching)
            && idOf(wr.room) in t.world.files && t.world.files[idOf(wr.room)].room == wr.room
  {
    var unnamed := wr.(id := "", phase := Unregistered);
    RegistrationIsAnsweredExactly(idOf, cfg, s.world, Announcement(unnamed, true, minted));
  }

  // ---- the watch loop --------------------------------------------------------------

  /** What the network answers to one tick: to the heartbeat, and to the registration
      that follows a 404. */
  datatype Tick = Tick(beatFate: Fate, beat: Reply, announceFate: Fate, announce: Reply)

  /** A wrapper's own trace of what it sent. */
  datatype Sent = SentBeat(id: string, toldToStop: bool, gone: bool) | SentRegister

  function AfterTick(wr: Wrapper, t: Tick): Wrapper {
    var heard := AfterBeat(wr, t.beatFate, t.beat);
    if heard.phase == Forgotten then AfterAnnounce(heard, t.announceFate, t.announce) else heard
  }

  function AfterTicks(wr: Wrapper, ticks: seq<Tick>): Wrapper {
    if ticks == [] then wr
    else
      var before := AfterTicks(wr, ticks[..|ticks| - 1]);
      if before.phase == Stopped then before else AfterTick(before, ticks[|ticks| - 1])
  }

  /** The heartbeats of a trace. */
  function BeatsOf(log: seq<Sent>): seq<Sent> {
    if log == [] then []
    else
      var rest, last := BeatsOf(log[..|log| - 1]), log[|log| - 1];
      if last.SentBeat? then rest + [last] else rest
  }

  lemma BeatsOfSnoc(log: seq<Sent>, x: Sent)
    ensures BeatsOf(log + [x]) == if x.SentBeat? then BeatsOf(log) + [x] else BeatsOf(log)
  {
    assert (log + [x])[..|log|] == log;
  }

  predicate SaysStop(t: Tick) {
    t.beatFate == Answered && t.beat == Beat(true)
  }

  predicate SaysGone(t: Tick) {
    t.beatFate == Answered && t.beat == NoSession
  }

  /** The k-th heartbeat went out under the id held at the k-th tick, and the trace tells
      what the dashboard said to it. */
  predicate Faithful(wr: Wrapper, ticks: seq<Tick>, beats: seq<Sent>) {
    && |beats| <= |ticks|
    && forall k :: 0 <= k < |beats| ==>
         && beats[k].SentBeat? && beats[k].id == AfterTicks(wr, ticks[..k]).id
         && beats[k].toldToStop == SaysStop(ticks[k]) && beats[k].gone == SaysGone(ticks[k])
  }

  /** Registrations are sent right after a heartbeat that was told the session is gone, and
      after every one of them. */
  predicate Registers(log: seq<Sent>) {
    && (forall k :: 0 <= k < |log| && log[k].SentRegister? ==> k > 0 && log[k - 1].SentBeat? && log[k - 1].gone)
    && (forall k :: 0 <= k < |log| && log[k].SentBeat? && log[k].gone ==> k + 1 < |log| && log[k + 1].SentRegister?)
  }

  /** Nothing follows the heartbeat that was told to stop, and there is one only if the
      wrapper was killed. */
  predicate Ends(log: seq<Sent>, killed: bool) {
    && (forall k :: 0 <= k < |log| - 1 ==> !(log[k].SentBeat? && log[k].toldToStop))
    && (killed <==> log != [] && log[|log| - 1].SentBeat? && log[|log| - 1].toldToStop)
  }

  /** What one tick adds to a trace. */
  function Turn(id: string, t: Tick): seq<Sent> {
    [SentBeat(id, SaysStop(t), SaysGone(t))] + if SaysGone(t) then [SentRegister] else []
  }

  lemma FaithfulOn(wr: Wrapper, ticks: seq<Tick>, beats: seq<Sent>)
    requires |beats| < |ticks| && Faithful(wr, ticks, beats)
    ensures var t := ticks[|beats|];
            Faithful(wr, ticks, beats + [SentBeat(AfterTicks(wr, ticks[..|beats|]).id, SaysStop(t), SaysGone(t))])
  {
  }

  lemma BeatsOfTurn(log: seq<Sent>, id: string, t: Tick)
    ensures BeatsOf(log + Turn(id, t)) == BeatsOf(log) + [SentBeat(id, SaysStop(t), SaysGone(t))]
  {
    var beat := SentBeat(id, SaysStop(t), SaysGone(t));
    BeatsOfSnoc(log, beat);
    if SaysGone(t) {
      BeatsOfSnoc(log + [beat], SentRegister);
      assert log + Turn(id, t) == log + [beat] + [SentRegister];
    } else {
      assert log + Turn(id, t) == log + [beat];
    }
  }

  lemma TurnRegisters(log: seq<Sent>, id: string, t: Tick)
    requires Registers(log) && Ends(log, false)
    ensures Registers(log + Turn(id, t)) && Ends(log + Turn(id, t), SaysStop(t))
  {
    var more := log + Turn(id, t);
    assert forall k :: 0 <= k < |log| ==> more[k] == log[k];
  }

  /** The trace of the first n ticks. */
  predicate TraceOk(wr: Wrapper, ticks: seq<Tick>, log: seq<Sent>, n: nat, killed: bool) {
    Registers(log) && Ends(log, killed) && Faithful(wr, ticks, BeatsOf(log)) && |BeatsOf(log)| == n
  }

  lemma TurnTraced(wr: Wrapper, ticks: seq<Tick>, log: seq<Sent>, n: nat)
    requires n < |ticks| && TraceOk(wr, ticks, log, n, false)
    ensures TraceOk(wr, ticks, log + Turn(AfterTicks(wr, ticks[..n]).id, ticks[n]), n + 1, SaysStop(ticks[n]))
  {
    var id := AfterTicks(wr, ticks[..n]).id;
    FaithfulOn(wr, ticks, BeatsOf(log));
    BeatsOfTurn(log, id, ticks[n]);
    TurnRegisters(log, id, ticks[n]);
  }

  lemma OneMoreTick(wr: Wrapper, ticks: seq<Tick>, n: nat)
    requires n < |ticks| && AfterTicks(wr, ticks[..n]).phase != Stopped
    ensures AfterTicks(wr, ticks[..n + 1]) == AfterTick(AfterTicks(wr, ticks[..n]), ticks[n])
  {
    assert ticks[..n + 1][..n] == ticks[..n];
  }

  class RemoteSink {
    var wrapper: Wrapper

    constructor (wr: Wrapper)
      ensures wrapper == wr
    {
      wrapper := wr;
    }

    /** One tick: a heartbeat, and a registration if it is answered with a 404. */
    method Beat(t: Tick) returns (stop: bool, sent: seq<Sent>)
      requires wrapper.phase == Watching
      modifies this
      ensures wrapper == AfterTick(old(wrapper), t)
      ensures sent == Turn(old(wrapper).id, t) && stop == SaysStop(t)
      ensures wrapper.phase == if stop then Stopped else Watching
    {
      stop := t.beatFate == Answered && t.beat == Reply.Beat(true);
      var gone := t.beatFate == Answered && t.beat == NoSession;
      sent := [SentBeat(wrapper.id, stop, gone)];
      wrapper := AfterBeat(wrapper, t.beatFate, t.beat);
      if gone {
        sent := sent + [SentRegister];
        wrapper := AfterAnnounce(wrapper, t.announceFate, t.announce);
      }
    }

    /** Watch: one heartbeat a tick, a registration after each 404, and nothing at all
        after the first answer that says stop. */
    method Watch(ticks: seq<Tick>) returns (killed: bool, log: seq<Sent>)
      requires wrapper.phase == Watching
      modifies this
      ensures wrapper == AfterTicks(old(wrapper), ticks)
      ensures killed <==> wrapper.phase == Stopped
      ensures Registers(log) && Faithful(old(wrapper), ticks, BeatsOf(log)) && Ends(log, killed)
      ensures !killed ==> |BeatsOf(log)| == |ticks|
    {
      killed, log := false, [];
      var n := 0;
      while n < |ticks| && !killed
        invariant n <= |ticks|
        invariant wrapper == AfterTicks(old(wrapper), ticks[..n])
        invariant wrapper.phase == if killed then Stopped else Watching
        invariant TraceOk(old(wrapper), ticks, log, n, killed)
      {
        OneMoreTick(old(wrapper), ticks, n);
        TurnTraced(old(wrapper), ticks, log, n);
        var stop, sent := Beat(ticks[n]);
        log := log + sent;
        killed := stop;
        n := n + 1;
      }
      if killed {
        StoppedTicks(old(wrapper), ticks, n);
      } else {
        assert ticks[..n] == ticks;
      }
    }
  }

  lemma {:induction false} StoppedTicks(wr: Wrapper, ticks: seq<Tick>, n: nat)
    requires n <= |ticks| && AfterTicks(wr, ticks[..n]).phase == Stopped
    ensures AfterTicks(wr, ticks) == AfterTicks(wr, ticks[..n])
  {
    if n == |ticks| {
      assert ticks[..n] == ticks;
    } else {
      var init := ticks[..|ticks| - 1];
      assert init[..n] == ticks[..n];
      StoppedTicks(wr, init, n);
    }
  }
}
