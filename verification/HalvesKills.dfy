/** What a kill is worth when handlers interleave: exactly which handlers, already begun,
    can undo it. */
module HalvesKills {
  import opened Lifecycle
  import opened Halves
  import Spool
  import T = Tombstones
  import A = Access

  /** The next step of this task saves a running record under this id. */
  predicate SavesRunning(task: Task, id: string) {
    (task.Beating? && task.readable && task.rec.id == id) || (task.Admitted? && task.rec.id == id)
  }

  predicate Revives(s: State, e: Event, id: string) {
    e.Goes? && e.i < |s.held| && SavesRunning(s.held[e.i], id)
  }

  // ---- one step --------------------------------------------------------------------

  lemma StartKeepsDead(idOf: string -> string, cfg: Config, w: World, req: Request, room: string, t: nat)
    requires Hash(idOf) && Inv(idOf, w) && Sane(idOf, req)
    requires Dead(w, idOf(room), room, t) && t <= w.now <= t + T.KILLED_TTL
    ensures Dead(Start(idOf, cfg, w, req).0, idOf(room), room, t)
  {
    DeadStays(idOf, cfg, w, req, room, t);
  }

  lemma OfferKeepsDead(idOf: string -> string, cfg: Config, w: World, id: string, who: Caller, room: string, t: nat)
    requires Dead(w, idOf(room), room, t) && t <= w.now <= t + T.KILLED_TTL
    ensures Dead(StartOffer(cfg, w, id, who).0, idOf(room), room, t)
  {
  }

  lemma MarkKeepsDead(idOf: string -> string, w: World, keys: seq<string>, room: string, t: nat)
    requires Dead(w, idOf(room), room, t) && t <= w.now <= t + T.KILLED_TTL
    ensures Dead(w.(seen := T.Remembered(w.seen, keys, w.now)), idOf(room), room, t)
  {
    DeadSeen(w.seen, keys, w.now, idOf(room), t);
    DeadSeen(w.seen, keys, w.now, room, t);
  }

  lemma ContinueDead(idOf: string -> string, cfg: Config, w: World, task: Task, room: string, t: nat)
    requires Hash(idOf) && Inv(idOf, w) && TaskOk(idOf, cfg, w, task)
    requires Dead(w, idOf(room), room, t) && t <= w.now <= t + T.KILLED_TTL
    ensures Dead(Continue(idOf, cfg, w, task).0, idOf(room), room, t) <==> !SavesRunning(task, idOf(room))
  {
    if task.Chosen? { MarkKeepsDead(idOf, w, [task.rec.id, task.rec.room], room, t); }
  }

  /** Within the TTL a step keeps a killed session dead exactly if it is not the save of a
      heartbeat or a registration that got its record before. */
  lemma DeadExactly(idOf: string -> string, cfg: Config, s: State, e: Event, room: string, t: nat)
    requires Hash(idOf) && Ok(idOf, cfg, s) && SaneEvent(idOf, e)
    requires Dead(s.w, idOf(room), room, t) && t <= s.w.now <= t + T.KILLED_TTL
    ensures Dead(Step(idOf, cfg, s, e).w, idOf(room), room, t) <==> !Revives(s, e, idOf(room))
  {
    match e
    case Starts(req) => StartKeepsDead(idOf, cfg, s.w, req, room, t);
    case Offers(id, who) => OfferKeepsDead(idOf, cfg, s.w, id, who, room, t);
    case Goes(i) => if i < |s.held| { ContinueDead(idOf, cfg, s.w, s.held[i], room, t); }
    case _ =>
  }

  // ---- runs ------------------------------------------------------------------------

  /** No step of the run revives the session. */
  ghost predicate NoneRevives(idOf: string -> string, cfg: Config, s: State, es: seq<Event>, id: string) {
    es == [] ||
    var init := es[..|es| - 1];
    NoneRevives(idOf, cfg, s, init, id) && !Revives(Interleave(idOf, cfg, s, init), es[|es| - 1], id)
  }

  /** The session is dead at the start and after every step of the run. */
  ghost predicate DeadThroughout(idOf: string -> string, cfg: Config, s: State, es: seq<Event>, room: string, t: nat) {
    && Dead(Interleave(idOf, cfg, s, es).w, idOf(room), room, t)
    && (es != [] ==> DeadThroughout(idOf, cfg, s, es[..|es| - 1], room, t))
  }

  /** In every run within the TTL, a killed session is dead throughout exactly if no such
      save happens. */
  lemma {:induction false} DeadThroughoutExactly(
    idOf: string -> string, cfg: Config, s: State, es: seq<Event>, room: string, t: nat)
    requires Hash(idOf) && Ok(idOf, cfg, s) && AllSaneEvents(idOf, es)
    requires Dead(s.w, idOf(room), room, t) && t <= s.w.now
    requires Interleave(idOf, cfg, s, es).w.now <= t + T.KILLED_TTL
    ensures Interleave(idOf, cfg, s, es).w.now >= s.w.now
    ensures DeadThroughout(idOf, cfg, s, es, room, t) <==> NoneRevives(idOf, cfg, s, es, idOf(room))
  {
    if es != [] {
      var init, e := es[..|es| - 1], es[|es| - 1];
      var u := Interleave(idOf, cfg, s, init);
      RunOk(idOf, cfg, s, init);
      StepLater(idOf, cfg, u, e);
      DeadThroughoutExactly(idOf, cfg, s, init, room, t);
      if DeadThroughout(idOf, cfg, s, init, room, t) {
        DeadExactly(idOf, cfg, u, e, room, t);
      }
    }
  }

  // ---- when a kill sticks ----------------------------------------------------------

  /** This task may come to save a running record for the session. */
  predicate Threatens(task: Task, id: string, room: string) {
    SavesRunning(task, id) || (task.Checked? && task.room == room) || (task.Counting? && task.rec.id == id)
  }

  ghost predicate Threatened(s: State, id: string, room: string) {
    exists i :: 0 <= i < |s.held| && Threatens(s.held[i], id, room)
  }

  lemma StartIsRefused(idOf: string -> string, cfg: Config, w: World, req: Request, room: string, t: nat)
    requires Inv(idOf, w) && Dead(w, idOf(room), room, t) && t <= w.now <= t + T.KILLED_TTL
    ensures var half := Start(idOf, cfg, w, req).1;
            half.Holding? ==> !Threatens(half.task, idOf(room), room)
  {
  }

  lemma ContinueIsHarmless(idOf: string -> string, cfg: Config, w: World, task: Task, room: string)
    requires Hash(idOf) && TaskOk(idOf, cfg, w, task) && room != "" && !Threatens(task, idOf(room), room)
    ensures var half := Continue(idOf, cfg, w, task).1;
            half.Holding? ==> !Threatens(half.task, idOf(room), room)
  {
  }

  /** A dead session gets no new threat. */
  lemma NoNewThreat(idOf: string -> string, cfg: Config, s: State, e: Event, room: string, t: nat)
    requires Hash(idOf) && Ok(idOf, cfg, s) && !Threatened(s, idOf(room), room)
    requires Dead(s.w, idOf(room), room, t) && t <= s.w.now <= t + T.KILLED_TTL
    ensures !Threatened(Step(idOf, cfg, s, e), idOf(room), room)
  {
    forall task | task in s.held ensures !Threatens(task, idOf(room), room) {
    }
    match e
    case Starts(req) => StartIsRefused(idOf, cfg, s.w, req, room, t);
    case Goes(i) => if i < |s.held| { ContinueIsHarmless(idOf, cfg, s.w, s.held[i], room); }
    case _ =>
  }

  lemma {:induction false} UnthreatenedStaysDead(
    idOf: string -> string, cfg: Config, s: State, es: seq<Event>, room: string, t: nat)
    requires Hash(idOf) && Ok(idOf, cfg, s) && AllSaneEvents(idOf, es)
    requires Dead(s.w, idOf(room), room, t) && t <= s.w.now && !Threatened(s, idOf(room), room)
    requires Interleave(idOf, cfg, s, es).w.now <= t + T.KILLED_TTL
    ensures var u := Interleave(idOf, cfg, s, es);
            u.w.now >= s.w.now && Dead(u.w, idOf(room), room, t) && !Threatened(u, idOf(room), room)
  {
    if es != [] {
      var init, e := es[..|es| - 1], es[|es| - 1];
      var u := Interleave(idOf, cfg, s, init);
      RunOk(idOf, cfg, s, init);
      StepLater(idOf, cfg, u, e);
      UnthreatenedStaysDead(idOf, cfg, s, init, room, t);
      DeadExactly(idOf, cfg, u, e, room, t);
      NoNewThreat(idOf, cfg, u, e, room, t);
    }
  }

  /** In every run the session stays dead for as long as tombstones last. */
  ghost predicate Sticks(idOf: string -> string, cfg: Config, s: State, room: string, t: nat) {
    forall es :: AllSaneEvents(idOf, es) && Interleave(idOf, cfg, s, es).w.now <= t + T.KILLED_TTL ==>
      Dead(Interleave(idOf, cfg, s, es).w, idOf(room), room, t)
  }

  lemma Unstuck(idOf: string -> string, cfg: Config, s: State, es: seq<Event>, room: string, t: nat)
    requires AllSaneEvents(idOf, es) && Interleave(idOf, cfg, s, es).w.now <= t + T.KILLED_TTL
    requires !Dead(Interleave(idOf, cfg, s, es).w, idOf(room), room, t)
    ensures !Sticks(idOf, cfg, s, room, t)
  {
  }

  /** One step later it does not stick, so it does not stick now. */
  lemma UnstuckLater(idOf: string -> string, cfg: Config, s: State, e: Event, room: string, t: nat)
    requires SaneEvent(idOf, e) && !Sticks(idOf, cfg, Step(idOf, cfg, s, e), room, t)
    ensures !Sticks(idOf, cfg, s, room, t)
  {
    var u := Step(idOf, cfg, s, e);
    var es :| AllSaneEvents(idOf, es) && Interleave(idOf, cfg, u, es).w.now <= t + T.KILLED_TTL
              && !Dead(Interleave(idOf, cfg, u, es).w, idOf(room), room, t);
    RunCons(idOf, cfg, s, e, es);
    Unstuck(idOf, cfg, s, [e] + es, room, t);
  }

  lemma SaveUnsticks(idOf: string -> string, cfg: Config, s: State, i: nat, room: string, t: nat)
    requires Hash(idOf) && Ok(idOf, cfg, s) && i < |s.held| && SavesRunning(s.held[i], idOf(room))
    requires Dead(s.w, idOf(room), room, t) && t <= s.w.now <= t + T.KILLED_TTL
    ensures !Sticks(idOf, cfg, s, room, t)
  {
    var u := Step(idOf, cfg, s, Goes(i));
    DeadExactly(idOf, cfg, s, Goes(i), room, t);
    assert Interleave(idOf, cfg, u, []) == u;
    Unstuck(idOf, cfg, u, [], room, t);
    UnstuckLater(idOf, cfg, s, Goes(i), room, t);
  }

  /** A registration that has passed its check finds the ended record, and so is not
      counted. */
  lemma CheckedUnsticks(idOf: string -> string, cfg: Config, s: State, i: nat, room: string, t: nat)
    requires Hash(idOf) && Ok(idOf, cfg, s) && i < |s.held| && s.held[i].Checked? && s.held[i].room == room
    requires Dead(s.w, idOf(room), room, t) && t <= s.w.now <= t + T.KILLED_TTL && idOf(room) in s.w.files
    ensures !Sticks(idOf, cfg, s, room, t)
  {
    var u := Step(idOf, cfg, s, Goes(i));
    StepOk(idOf, cfg, s, Goes(i));
    assert SavesRunning(u.held[i], idOf(room));
    SaveUnsticks(idOf, cfg, u, i, room, t);
    UnstuckLater(idOf, cfg, s, Goes(i), room, t);
  }

  /** Every process ends and every remote session goes stale. */
  function Lull(idOf: string -> string, cfg: Config, s: State): State {
    Step(idOf, cfg, Step(idOf, cfg, s, Starts(Processes({}))), Starts(Tick(Spool.REMOTE_TTL)))
  }

  lemma LullEmpties(idOf: string -> string, cfg: Config, s: State)
    requires Hash(idOf) && Ok(idOf, cfg, s)
    ensures var u := Lull(idOf, cfg, s);
            && u.held == s.held && u.w.seen == s.w.seen && u.w.files == s.w.files
            && u.w.now == s.w.now + Spool.REMOTE_TTL && Ok(idOf, cfg, u) && LiveNow(cfg, u.w) == map[]
  {
    StepOk(idOf, cfg, s, Starts(Processes({})));
    StepOk(idOf, cfg, Step(idOf, cfg, s, Starts(Processes({}))), Starts(Tick(Spool.REMOTE_TTL)));
  }

  /** A registration that is about to count is let in once every session has ended or gone
      stale. */
  lemma CountingUnsticks(idOf: string -> string, cfg: Config, s: State, i: nat, room: string, t: nat)
    requires Hash(idOf) && Ok(idOf, cfg, s) && i < |s.held| && s.held[i].Counting? && s.held[i].rec.id == idOf(room)
    requires Dead(s.w, idOf(room), room, t) && t <= s.w.now <= s.w.now + Spool.REMOTE_TTL <= t + T.KILLED_TTL
    ensures !Sticks(idOf, cfg, s, room, t)
  {
    var u := Lull(idOf, cfg, s);
    LullEmpties(idOf, cfg, s);
    var v := Step(idOf, cfg, u, Goes(i));
    StepOk(idOf, cfg, u, Goes(i));
    DeadExactly(idOf, cfg, u, Goes(i), room, t);
    assert SavesRunning(v.held[i], idOf(room));
    SaveUnsticks(idOf, cfg, v, i, room, t);
    UnstuckLater(idOf, cfg, u, Goes(i), room, t);
    UnstuckLater(idOf, cfg, Step(idOf, cfg, s, Starts(Processes({}))), Starts(Tick(Spool.REMOTE_TTL)), room, t);
    UnstuckLater(idOf, cfg, s, Starts(Processes({})), room, t);
  }

  /** The kill's own last step leaves the session dead. */
  lemma DroppedKills(idOf: string -> string, cfg: Config, s: State, i: nat)
    requires Hash(idOf) && Ok(idOf, cfg, s) && i < |s.held| && s.held[i].Dropped?
    requires var task := s.held[i];
             task.rec.remote && task.rec.room != "" && s.w.now <= task.at + T.KILLED_TTL
    ensures var task, killed := s.held[i], Step(idOf, cfg, s, Goes(i));
            && task.rec.id == idOf(task.rec.room) && task.at <= killed.w.now == s.w.now
            && Dead(killed.w, task.rec.id, task.rec.room, task.at) && task.rec.id in killed.w.files
            && killed.held == s.held[..i] + s.held[i + 1..]
  {
    assert TaskOk(idOf, cfg, s.w, s.held[i]);
    assert s.held[..i] + [] + s.held[i + 1..] == s.held[..i] + s.held[i + 1..];
  }

  lemma ThreatUnsticks(idOf: string -> string, cfg: Config, s: State, room: string, t: nat)
    requires Hash(idOf) && Ok(idOf, cfg, s) && Threatened(s, idOf(room), room) && idOf(room) in s.w.files
    requires Dead(s.w, idOf(room), room, t) && t <= s.w.now <= s.w.now + Spool.REMOTE_TTL <= t + T.KILLED_TTL
    ensures !Sticks(idOf, cfg, s, room, t)
  {
    var i :| 0 <= i < |s.held| && Threatens(s.held[i], idOf(room), room);
    if SavesRunning(s.held[i], idOf(room)) {
      SaveUnsticks(idOf, cfg, s, i, room, t);
    } else if s.held[i].Checked? {
      CheckedUnsticks(idOf, cfg, s, i, room, t);
    } else {
      CountingUnsticks(idOf, cfg, s, i, room, t);
    }
  }

  /** A kill sticks in every run exactly if, when it is done, neither a heartbeat on that
      session nor a registration of its room stands between its check and its save. (Only
      a registration that has yet to count needs half a minute before the tombstones go.) */
  lemma KillSticksExactly(idOf: string -> string, cfg: Config, s: State, i: nat)
    requires Hash(idOf) && Ok(idOf, cfg, s) && i < |s.held| && s.held[i].Dropped?
    requires var task := s.held[i];
             task.rec.remote && task.rec.room != "" && s.w.now <= task.at + T.KILLED_TTL
    ensures var task := s.held[i];
            var sticks := Sticks(idOf, cfg, Step(idOf, cfg, s, Goes(i)), task.rec.room, task.at);
            && (!Threatened(s, task.rec.id, task.rec.room) ==> sticks)
            && (s.w.now + Spool.REMOTE_TTL <= task.at + T.KILLED_TTL ==>
                  (sticks <==> !Threatened(s, task.rec.id, task.rec.room)))
  {
    var task, killed := s.held[i], Step(idOf, cfg, s, Goes(i));
    DroppedKills(idOf, cfg, s, i);
    StepOk(idOf, cfg, s, Goes(i));
    OthersThreaten(s, killed, i, task.rec.id, task.rec.room);
    if Threatened(s, task.rec.id, task.rec.room) {
      if s.w.now + Spool.REMOTE_TTL > task.at + T.KILLED_TTL { return; }
      ThreatUnsticks(idOf, cfg, killed, task.rec.room, task.at);
    } else {
      forall es | AllSaneEvents(idOf, es) && Interleave(idOf, cfg, killed, es).w.now <= task.at + T.KILLED_TTL
        ensures Dead(Interleave(idOf, cfg, killed, es).w, task.rec.id, task.rec.room, task.at)
      {
        UnthreatenedStaysDead(idOf, cfg, killed, es, task.rec.room, task.at);
      }
    }
  }

  /** A finished task was no threat. */
  lemma OthersThreaten(s: State, t: State, i: nat, id: string, room: string)
    requires i < |s.held| && t.held == s.held[..i] + s.held[i + 1..] && !Threatens(s.held[i], id, room)
    ensures Threatened(t, id, room) <==> Threatened(s, id, room)
  {
    if Threatened(s, id, room) {
      var j :| 0 <= j < |s.held| && Threatens(s.held[j], id, room);
      assert t.held[if j < i then j else j - 1] == s.held[j];
    }
    if Threatened(t, id, room) {
      var j :| 0 <= j < |t.held| && Threatens(t.held[j], id, room);
      assert s.held[if j < i then j else j + 1] == t.held[j];
    }
  }

  /** While it is dead, whoever asks hears so: a heartbeat is told to stop, at once or when
      it asks for the tombstone, and a registration is refused. */
  lemma DeadIsToldSo(idOf: string -> string, cfg: Config, w: World, room: string, t: nat, req: Request)
    requires Dead(w, idOf(room), room, t) && t <= w.now <= t + T.KILLED_TTL
    ensures req.Register? && req.room == room ==>
              Start(idOf, cfg, w, req).1 == Answered(if req.decodes then Gone else BadRequest)
    ensures req.Heartbeat? && req.id == idOf(room) ==>
              Start(idOf, cfg, w, req).1 in {Answered(Beat(true)), Holding(Asking(req.id))}
    ensures Continue(idOf, cfg, w, Asking(idOf(room))) == (w, Answered(Beat(true)))
  {
  }

  /** After a save that revives it, heartbeats on the session go on again, although its room
      cannot be registered. */
  lemma RevivedIsServed(
    idOf: string -> string, cfg: Config, s: State, e: Event, room: string, t: nat, readable: bool, req: Request)
    requires Hash(idOf) && Ok(idOf, cfg, s)
    requires Dead(s.w, idOf(room), room, t) && t <= s.w.now <= t + T.KILLED_TTL
    requires Revives(s, e, idOf(room)) && req.Register? && req.decodes && req.room == room
    ensures var u := Step(idOf, cfg, s, e).w;
            && Handle(idOf, cfg, s.w, Heartbeat(idOf(room), readable)).1 == Beat(true)
            && Handle(idOf, cfg, u, Heartbeat(idOf(room), readable)).1 == (if readable then Beat(false) else BadRequest)
            && Handle(idOf, cfg, u, req).1 == Gone
  {
    assert TaskOk(idOf, cfg, s.w, s.held[e.i]);
  }
}
