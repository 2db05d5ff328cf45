/** A killed session's terminal, and a session's sharing, when handlers interleave. */
module HalvesHosts {
  import opened Lifecycle
  import opened Halves
  import opened Answers
  import Spool
  import T = Tombstones
  import A = Access

  // ---- a killed session's terminal -------------------------------------------------

  /** The session is known to have been killed at or after t. */
  ghost predicate Buried(w: World, id: string, room: string, t: nat) {
    t <= w.now && (w.now <= t + T.KILLED_TTL ==> Tomb(w, id, t) && Tomb(w, room, t))
  }

  /** A terminal host for the session has passed its checks and is not registered yet. */
  ghost predicate Offered(s: State, id: string) {
    Offering(id) in s.held
  }

  lemma StepStaysBuried(idOf: string -> string, cfg: Config, s: State, e: Event, id: string, room: string, t: nat)
    requires Hash(idOf) && Ok(idOf, cfg, s) && SaneEvent(idOf, e) && Buried(s.w, id, room, t)
    ensures Buried(Step(idOf, cfg, s, e).w, id, room, t)
  {
    StepLater(idOf, cfg, s, e);
  }

  /** A terminal host passes its checks exactly if its session is live, remote, not ended
      and not killed lately, and exists to the key it comes with. */
  lemma OfferIsAnsweredExactly(cfg: Config, w: World, id: string, who: Caller)
    ensures var (t, half) := StartOffer(cfg, w, id, who);
            var live := id in LiveNow(cfg, w);
            var over := live && (w.files[id].status == Spool.Ended || KilledLately(w, w.files[id].room));
            && (half == Holding(Offering(id)) <==>
                  live && !over && w.files[id].remote && Shown(who, ListOf(w, id)))
            && (half == Answered(Gone) <==> over)
            && (half == Answered(Conflict) <==>
                  live && !over && !w.files[id].remote && Shown(who, ListOf(w, id)))
            && (half == Answered(NoSession) <==> !live || (!over && !Shown(who, ListOf(w, id))))
            && t.files == LiveNow(cfg, w) && t.access == w.access && t.now == w.now
  {
  }

  /** A registration of a terminal host, and its hanging up, take effect. */
  lemma HostsComeAndGo(idOf: string -> string, cfg: Config, s: State, i: nat, id: string)
    ensures i < |s.held| && s.held[i] == Offering(id) ==> Step(idOf, cfg, s, Goes(i)).terms == s.terms + {id}
    ensures Step(idOf, cfg, s, Hangs(id)) == s.(terms := s.terms - {id})
    ensures Step(idOf, cfg, s, Sweeps(id)).w.files == s.w.files - {id}
  {
  }

  /** While the tombstones last, no host for the session passes the checks. */
  lemma OfferIsRefused(idOf: string -> string, cfg: Config, w: World, id: string, who: Caller, room: string, t: nat)
    requires Hash(idOf) && Inv(idOf, w) && room != "" && Buried(w, idOf(room), room, t) && w.now <= t + T.KILLED_TTL
    ensures StartOffer(cfg, w, id, who).1 != Holding(Offering(idOf(room)))
  {
    if id == idOf(room) && id in w.files {
      assert RecOk(idOf, w.files[id]);
    }
  }

  lemma NoNewOffer(idOf: string -> string, cfg: Config, s: State, e: Event, room: string, t: nat)
    requires Hash(idOf) && Ok(idOf, cfg, s) && room != "" && Buried(s.w, idOf(room), room, t)
    requires s.w.now <= t + T.KILLED_TTL && !Offered(s, idOf(room)) && idOf(room) !in s.terms
    ensures var u := Step(idOf, cfg, s, e);
            !Offered(u, idOf(room)) && idOf(room) !in u.terms
  {
    if e.Offers? { OfferIsRefused(idOf, cfg, s.w, e.id, e.who, room, t); }
  }

  lemma {:induction false} StaysDark(
    idOf: string -> string, cfg: Config, s: State, es: seq<Event>, room: string, t: nat)
    requires Hash(idOf) && Ok(idOf, cfg, s) && AllSaneEvents(idOf, es) && room != ""
    requires Buried(s.w, idOf(room), room, t) && !Offered(s, idOf(room)) && idOf(room) !in s.terms
    requires Interleave(idOf, cfg, s, es).w.now <= t + T.KILLED_TTL
    ensures var u := Interleave(idOf, cfg, s, es);
            && u.w.now >= s.w.now && Buried(u.w, idOf(room), room, t)
            && !Offered(u, idOf(room)) && idOf(room) !in u.terms
  {
    if es != [] {
      var init, e := es[..|es| - 1], es[|es| - 1];
      var u := Interleave(idOf, cfg, s, init);
      RunOk(idOf, cfg, s, init);
      StepLater(idOf, cfg, u, e);
      StaysDark(idOf, cfg, s, init, room, t);
      StepStaysBuried(idOf, cfg, u, e, idOf(room), room, t);
      NoNewOffer(idOf, cfg, u, e, room, t);
    }
  }

  /** In every run no terminal host is registered for the session while tombstones last. */
  ghost predicate Dark(idOf: string -> string, cfg: Config, s: State, id: string, t: nat) {
    forall es :: AllSaneEvents(idOf, es) && Interleave(idOf, cfg, s, es).w.now <= t + T.KILLED_TTL ==>
      id !in Interleave(idOf, cfg, s, es).terms
  }

  lemma OfferLights(idOf: string -> string, cfg: Config, s: State, id: string, t: nat)
    requires Offered(s, id) && s.w.now <= t + T.KILLED_TTL
    ensures !Dark(idOf, cfg, s, id, t)
  {
    var i :| 0 <= i < |s.held| && s.held[i] == Offering(id);
    RunCons(idOf, cfg, s, Goes(i), []);
    assert AllSaneEvents(idOf, [Goes(i)] + []);
    assert Interleave(idOf, cfg, s, [Goes(i)] + []) == Step(idOf, cfg, s, Goes(i));
  }

  /** Once a kill has dropped a session's terminal host, none is registered again in any run
      exactly if none was between its checks and its registration. */
  lemma HostStaysDownExactly(idOf: string -> string, cfg: Config, s: State, i: nat)
    requires Hash(idOf) && Ok(idOf, cfg, s) && i < |s.held| && s.held[i].Marked?
    requires var task := s.held[i];
             task.rec.remote && task.rec.room != "" && s.w.now <= task.at + T.KILLED_TTL
    ensures var task, dropped := s.held[i], Step(idOf, cfg, s, Goes(i));
            && task.rec.id !in dropped.terms
            && (Dark(idOf, cfg, dropped, task.rec.id, task.at) <==> !Offered(s, task.rec.id))
  {
    var task, dropped := s.held[i], Step(idOf, cfg, s, Goes(i));
    assert TaskOk(idOf, cfg, s.w, task);
    StepOk(idOf, cfg, s, Goes(i));
    assert dropped.held == s.held[..i] + [Dropped(task.rec, task.at)] + s.held[i + 1..];
    assert s.held == s.held[..i] + [task] + s.held[i + 1..];
    assert Offered(dropped, task.rec.id) <==> Offered(s, task.rec.id);
    if Offered(s, task.rec.id) {
      OfferLights(idOf, cfg, dropped, task.rec.id, task.at);
    } else {
      forall es | AllSaneEvents(idOf, es) && Interleave(idOf, cfg, dropped, es).w.now <= task.at + T.KILLED_TTL
        ensures task.rec.id !in Interleave(idOf, cfg, dropped, es).terms
      {
        StaysDark(idOf, cfg, dropped, es, task.rec.room, task.at);
      }
    }
  }

  // ---- a session's sharing ---------------------------------------------------------

  /** A step after which session id's access list is what it was. */
  ghost predicate Spares(idOf: string -> string, cfg: Config, s: State, e: Event, id: string) {
    match e
    case Starts(req) => req.Register? || req.List? || LeavesACL(idOf, cfg, s.w, req, id)
    case Goes(i) => i < |s.held| ==> TaskSpares(s.w, s.held[i], id)
    case _ => true
  }

  predicate TaskSpares(w: World, task: Task, id: string) {
    match task
    case Claiming(other, owner) => other != id || A.SetOwner(w.access, id, owner, w.now) == w.access
    case Listing(live) => id in w.access.sessions ==> !A.Orphaned(w.access.sessions[id], id, live, ACL_GRACE, w.now)
    case _ => true
  }

  lemma StepSpares(idOf: string -> string, cfg: Config, s: State, e: Event, id: string)
    requires Spares(idOf, cfg, s, e, id)
    ensures SameACL(s.w, Step(idOf, cfg, s, e).w, id)
  {
    match e
    case Starts(req) =>
      if !req.Register? && !req.List? { StepLeavesACL(idOf, cfg, s.w, req, id); }
    case _ =>
  }

  /** A task changes what a session shares exactly if it sets another owner, or prunes by a
      list of live sessions that lacks this one when its grace is over. */
  lemma TaskSparesExactly(idOf: string -> string, cfg: Config, w: World, task: Task, id: string)
    ensures SameACL(w, Continue(idOf, cfg, w, task).0, id) <==> TaskSpares(w, task, id)
  {
    if task.Claiming? && task.id == id && SameACL(w, Continue(idOf, cfg, w, task).0, id) {
      assert A.SetOwner(w.access, id, task.owner, w.now).sessions == w.access.sessions;
    }
  }

  ghost predicate AllSpare(idOf: string -> string, cfg: Config, s: State, es: seq<Event>, id: string) {
    es == [] ||
    var init := es[..|es| - 1];
    AllSpare(idOf, cfg, s, init, id) && Spares(idOf, cfg, Interleave(idOf, cfg, s, init), es[|es| - 1], id)
  }

  /** Over any run of such steps a session keeps its owner and members. */
  lemma {:induction false} SharingSurvivesHalves(
    idOf: string -> string, cfg: Config, s: State, es: seq<Event>, id: string)
    requires AllSpare(idOf, cfg, s, es, id)
    ensures SameACL(s.w, Interleave(idOf, cfg, s, es).w, id)
  {
    if es != [] {
      var init := es[..|es| - 1];
      SharingSurvivesHalves(idOf, cfg, s, init, id);
      StepSpares(idOf, cfg, Interleave(idOf, cfg, s, init), es[|es| - 1], id);
    }
  }
}
