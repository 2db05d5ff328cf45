/** Handlers in parts. A handler takes no lock across its accesses to the stores, so other
    requests fall between any two of them. Here each access is a step, and the rest of the
    handler is a task that is held until somebody lets it go on. */
module Halves {
  import opened Lifecycle
  import Spool
  import T = Tombstones
  import A = Access

  /** What a handler that has begun does next, with its local variables. A heartbeat asks
      for a tombstone when it finds no record, and otherwise reads the body and saves. A
      registration that was not refused loads, counts if its id is new, saves, and sets the
      owner. A kill that was not refused leaves tombstones, drops the terminal host, and
      saves. A listing prunes the access lists. A terminal host gets registered. */
  datatype Task =
    | Asking(id: string)
    | Beating(rec: Spool.Record, readable: bool)
    | Checked(room: string, minted: string, owner: string, info: seq<string>)
    | Counting(rec: Spool.Record, owner: string)
    | Admitted(rec: Spool.Record, owner: string)
    | Claiming(id: string, owner: string)
    | Chosen(rec: Spool.Record)
    | Marked(rec: Spool.Record, at: nat)
    | Dropped(rec: Spool.Record, at: nat)
    | Listing(live: set<string>)
    | Offering(id: string)

  /** What one step of a handler comes to: its answer, or a task. */
  datatype Half = Answered(reply: Reply) | Holding(task: Task)

  /** The first step of a request; those with only one access to the stores are done. */
  function Start(idOf: string -> string, cfg: Config, w: World, req: Request): (World, Half) {
    match req
    case Register(room, decodes, valid, minted, owner, info) =>
      if !decodes then (w, Answered(BadRequest))
      else if T.IsKilled(w.seen, room, w.now) then (w, Answered(Gone))
      else
        (w.(seen := T.AfterHas(w.seen, room, w.now)),
         if valid then Holding(Checked(room, minted, owner, info)) else Answered(BadRequest))
    case Heartbeat(id, readable) =>
      (w,
       if id !in w.files || !w.files[id].remote then Holding(Asking(id))
       else if w.files[id].status == Spool.Ended then Answered(Beat(true))
       else Holding(Beating(w.files[id], readable)))
    case Kill(id, who) =>
      var pruned, acl := w.(files := LiveNow(cfg, w)), A.ACL(w.access, id);
      (pruned,
       if id !in pruned.files || !CanSee(who, acl) then Answered(NoSession)
       else if !CanManage(who, acl) then Answered(NotYours)
       else Holding(Chosen(pruned.files[id])))
    case List =>
      (w.(files := LiveNow(cfg, w)), Holding(Listing(LiveNow(cfg, w).Keys)))
    case _ =>
      (Handle(idOf, cfg, w, req).0, Answered(Handle(idOf, cfg, w, req).1))
  }

  /** A wrapper with an API key offers its session's terminal: everything up to the upgrade
      of the connection. */
  function StartOffer(cfg: Config, w: World, id: string, who: Caller): (World, Half) {
    var pruned := w.(files := LiveNow(cfg, w));
    if id !in pruned.files then (pruned, Answered(NoSession))
    else
      var rec := pruned.files[id];
      if rec.status == Spool.Ended || T.IsKilled(w.seen, rec.room, w.now) then (pruned, Answered(Gone))
      else
        (pruned.(seen := T.AfterHas(w.seen, rec.room, w.now)),
         if !CanSee(who, A.ACL(w.access, id)) then Answered(NoSession)
         else if !rec.remote then Answered(Conflict)
         else Holding(Offering(id)))
  }

  function Rank(half: Half): nat {
    match half
    case Answered(_) => 0
    case Holding(Checked(_, _, _, _)) => 4
    case Holding(Counting(_, _)) => 3
    case Holding(Admitted(_, _)) => 2
    case Holding(Chosen(_)) => 3
    case Holding(Marked(_, _)) => 2
    case _ => 1
  }

  /** The next step of a task. */
  function Continue(idOf: string -> string, cfg: Config, w: World, task: Task): (World, Half) {
    match task
    case Asking(id) =>
      if T.IsKilled(w.seen, id, w.now) then (w, Answered(Beat(true)))
      else (w.(seen := T.AfterHas(w.seen, id, w.now)), Answered(NoSession))
    case Beating(rec, readable) =>
      if readable then (w.(files := Spool.Saved(w.files, rec, w.now)), Answered(Beat(false)))
      else (w, Answered(BadRequest))
    case Checked(room, minted, owner, info) =>
      var id := IdFor(idOf, room, minted);
      var rec := NewRecord(w, id, room, info);
      (w, Holding(if cfg.maxSessions > 0 && id !in w.files then Counting(rec, owner) else Admitted(rec, owner)))
    case Counting(rec, owner) =>
      var pruned := w.(files := LiveNow(cfg, w));
      (pruned,
       if |pruned.files| >= cfg.maxSessions then Answered(LimitReached) else Holding(Admitted(rec, owner)))
    case Admitted(rec, owner) =>
      (w.(files := Spool.Saved(w.files, rec, w.now)),
       if owner == "" then Answered(Created(rec.id)) else Holding(Claiming(rec.id, owner)))
    case Claiming(id, owner) =>
      (w.(access := A.SetOwner(w.access, id, owner, w.now)), Answered(Created(id)))
    case Chosen(rec) =>
      (w.(seen := T.Remembered(w.seen, [rec.id, rec.room], w.now)), Holding(Marked(rec, w.now)))
    case Marked(rec, at) =>
      (w, Holding(Dropped(rec, at)))
    case Dropped(rec, at) =>
      (w.(files := Spool.Saved(w.files, rec.(status := Spool.Ended), w.now)), Answered(Killed))
    case Listing(live) =>
      (w.(access := A.Prune(w.access, live, ACL_GRACE, w.now)), Answered(Done))
    case Offering(id) =>
      (w, Answered(Done))
  }

  lemma ContinueDescends(idOf: string -> string, cfg: Config, w: World, task: Task)
    ensures Rank(Continue(idOf, cfg, w, task).1) < Rank(Holding(task))
  {
  }

  /** A handler run to its end with nothing in between. */
  function Finish(idOf: string -> string, cfg: Config, w: World, half: Half): (World, Reply)
    decreases Rank(half)
  {
    match half
    case Answered(reply) => (w, reply)
    case Holding(task) =>
      var (u, next) := Continue(idOf, cfg, w, task);
      Finish(idOf, cfg, u, next)
  }

  lemma AdmittedFinishes(idOf: string -> string, cfg: Config, w: World, rec: Spool.Record, owner: string)
    ensures Finish(idOf, cfg, w, Holding(Admitted(rec, owner))) == (Admit(w, rec.id, rec, owner), Created(rec.id))
  {
    var saved := w.(files := Spool.Saved(w.files, rec, w.now));
    if owner != "" {
      assert Continue(idOf, cfg, w, Admitted(rec, owner)) == (saved, Holding(Claiming(rec.id, owner)));
      var claimed := saved.(access := A.SetOwner(w.access, rec.id, owner, w.now));
      assert Continue(idOf, cfg, saved, Claiming(rec.id, owner)) == (claimed, Answered(Created(rec.id)));
      assert Finish(idOf, cfg, saved, Holding(Claiming(rec.id, owner))) == (claimed, Created(rec.id));
    }
  }

  lemma CountingFinishes(idOf: string -> string, cfg: Config, w: World, rec: Spool.Record, owner: string)
    ensures var pruned := w.(files := LiveNow(cfg, w));
            Finish(idOf, cfg, w, Holding(Counting(rec, owner))) ==
            if |pruned.files| >= cfg.maxSessions then (pruned, LimitReached)
            else (Admit(pruned, rec.id, rec, owner), Created(rec.id))
  {
    var pruned := w.(files := LiveNow(cfg, w));
    if |pruned.files| >= cfg.maxSessions {
      assert Continue(idOf, cfg, w, Counting(rec, owner)) == (pruned, Answered(LimitReached));
      assert Finish(idOf, cfg, pruned, Answered(LimitReached)) == (pruned, LimitReached);
    } else {
      assert Continue(idOf, cfg, w, Counting(rec, owner)) == (pruned, Holding(Admitted(rec, owner)));
      AdmittedFinishes(idOf, cfg, pruned, rec, owner);
    }
  }

  lemma RegisterIsWhole(idOf: string -> string, cfg: Config, w: World, req: Request)
    requires req.Register?
    ensures var (u, half) := Start(idOf, cfg, w, req);
            Finish(idOf, cfg, u, half) == Handle(idOf, cfg, w, req)
  {
    var (u, half) := Start(idOf, cfg, w, req);
    if half.Holding? {
      var rec := NewRecord(w, IdFor(idOf, req.room, req.minted), req.room, req.info);
      AdmittedFinishes(idOf, cfg, u, rec, req.owner);
      CountingFinishes(idOf, cfg, u, rec, req.owner);
    }
  }

  lemma KillFinishes(idOf: string -> string, cfg: Config, w: World, rec: Spool.Record)
    ensures Finish(idOf, cfg, w, Holding(Chosen(rec))) ==
            (w.(seen := T.Remembered(w.seen, [rec.id, rec.room], w.now),
                files := Spool.Saved(w.files, rec.(status := Spool.Ended), w.now)), Killed)
  {
    var marked := w.(seen := T.Remembered(w.seen, [rec.id, rec.room], w.now));
    assert Continue(idOf, cfg, w, Chosen(rec)) == (marked, Holding(Marked(rec, w.now)));
    assert Continue(idOf, cfg, marked, Marked(rec, w.now)) == (marked, Holding(Dropped(rec, w.now)));
    var saved := marked.(files := Spool.Saved(w.files, rec.(status := Spool.Ended), w.now));
    assert Continue(idOf, cfg, marked, Dropped(rec, w.now)) == (saved, Answered(Killed));
    assert Finish(idOf, cfg, marked, Holding(Dropped(rec, w.now))) == (saved, Killed);
    assert Finish(idOf, cfg, marked, Holding(Marked(rec, w.now))) == (saved, Killed);
  }

  /** With nothing in between, the steps are the whole request. */
  lemma HalvesMakeAWhole(idOf: string -> string, cfg: Config, w: World, req: Request)
    ensures var (u, half) := Start(idOf, cfg, w, req);
            Finish(idOf, cfg, u, half) == Handle(idOf, cfg, w, req)
  {
    match req
    case Register(_, _, _, _, _, _) => RegisterIsWhole(idOf, cfg, w, req);
    case Kill(id, who) =>
      var pruned := w.(files := LiveNow(cfg, w));
      if id in pruned.files { KillFinishes(idOf, cfg, pruned, pruned.files[id]); }
    case _ =>
  }

  // ---- interleavings ---------------------------------------------------------------

  /** `terms` are the sessions with a registered terminal host, `held` the tasks of the
      handlers that have begun. */
  datatype State = State(w: World, terms: set<string>, held: seq<Task>)

  /** Besides requests: a terminal host offers itself or hangs up, and a pruning that is
      under way removes a record it had found to be stale. */
  datatype Event =
    | Starts(req: Request)
    | Offers(id: string, who: Caller)
    | Goes(i: nat)
    | Hangs(id: string)
    | Sweeps(id: string)

  function Pending(half: Half): seq<Task> {
    if half.Holding? then [half.task] else []
  }

  function Terms(terms: set<string>, task: Task): set<string> {
    match task
    case Offering(id) => terms + {id}
    case Marked(rec, _) => terms - {rec.id}
    case _ => terms
  }

  function Go(idOf: string -> string, cfg: Config, s: State, i: nat): State
    requires i < |s.held|
  {
    var (w, half) := Continue(idOf, cfg, s.w, s.held[i]);
    State(w, Terms(s.terms, s.held[i]), s.held[..i] + Pending(half) + s.held[i + 1..])
  }

  function Step(idOf: string -> string, cfg: Config, s: State, e: Event): State {
    match e
    case Starts(req) =>
      var (w, half) := Start(idOf, cfg, s.w, req);
      State(w, s.terms, s.held + Pending(half))
    case Offers(id, who) =>
      var (w, half) := StartOffer(cfg, s.w, id, who);
      State(w, s.terms, s.held + Pending(half))
    case Goes(i) => if i < |s.held| then Go(idOf, cfg, s, i) else s
    case Hangs(id) => s.(terms := s.terms - {id})
    case Sweeps(id) => s.(w := s.w.(files := s.w.files - {id}))
  }

  function Interleave(idOf: string -> string, cfg: Config, s: State, es: seq<Event>): State {
    if es == [] then s else Step(idOf, cfg, Interleave(idOf, cfg, s, es[..|es| - 1]), es[|es| - 1])
  }

  const INIT := State(Boot(1), {}, [])

  ghost predicate SaneEvent(idOf: string -> string, e: Event) {
    e.Starts? ==> Sane(idOf, e.req)
  }

  ghost predicate AllSaneEvents(idOf: string -> string, es: seq<Event>) {
    forall i :: 0 <= i < |es| ==> SaneEvent(idOf, es[i])
  }

  lemma {:induction false} RunCons(idOf: string -> string, cfg: Config, s: State, e: Event, es: seq<Event>)
    ensures Interleave(idOf, cfg, s, [e] + es) == Interleave(idOf, cfg, Step(idOf, cfg, s, e), es)
  {
    if es == [] {
      assert ([e] + es)[..0] == [] && [e] + es == [e];
    } else {
      assert ([e] + es)[..|es|] == [e] + es[..|es| - 1];
      RunCons(idOf, cfg, s, e, es[..|es| - 1]);
    }
  }

  lemma RunSnoc(idOf: string -> string, cfg: Config, s: State, es: seq<Event>, e: Event)
    ensures Interleave(idOf, cfg, s, es + [e]) == Step(idOf, cfg, Interleave(idOf, cfg, s, es), e)
  {
    assert (es + [e])[..|es|] == es;
  }

  // ---- what every step keeps -------------------------------------------------------

  /** A tombstone for this key from `at` or later. */
  predicate Tomb(w: World, key: string, at: nat) {
    key in w.seen && w.seen[key] >= at
  }

  ghost predicate TombsFor(w: World, rec: Spool.Record, at: nat) {
    at <= w.now && (w.now <= at + T.KILLED_TTL ==> Tomb(w, rec.id, at) && (rec.room != "" ==> Tomb(w, rec.room, at)))
  }

  ghost predicate TaskOk(idOf: string -> string, cfg: Config, w: World, task: Task) {
    match task
    case Beating(rec, _) => RecOk(idOf, rec) && rec.remote && rec.status != Spool.Ended
    case Checked(room, minted, _, _) => Minted(idOf, minted)
    case Counting(rec, _) => cfg.maxSessions > 0 && RecOk(idOf, rec) && rec.remote && rec.status == Spool.Starting
    case Admitted(rec, _) => RecOk(idOf, rec) && rec.remote && rec.status == Spool.Starting
    case Chosen(rec) => RecOk(idOf, rec)
    case Marked(rec, at) => RecOk(idOf, rec) && TombsFor(w, rec, at)
    case Dropped(rec, at) => RecOk(idOf, rec) && TombsFor(w, rec, at)
    case _ => true
  }

  /** No record has been saved in the future. */
  predicate Dated(w: World) {
    forall id :: id in w.files ==> w.files[id].updatedAt <= w.now
  }

  ghost predicate Ok(idOf: string -> string, cfg: Config, s: State) {
    && Inv(idOf, s.w) && Dated(s.w)
    && forall i :: 0 <= i < |s.held| ==> TaskOk(idOf, cfg, s.w, s.held[i])
  }

  /** Time goes on, and a tombstone stays for its TTL. */
  ghost predicate Later(w: World, u: World) {
    && w.now <= u.now
    && forall key, at: nat :: at <= w.now && Tomb(w, key, at) && u.now <= at + T.KILLED_TTL ==> Tomb(u, key, at)
  }

  lemma TaskLater(idOf: string -> string, cfg: Config, w: World, u: World, task: Task)
    requires TaskOk(idOf, cfg, w, task) && Later(w, u)
    ensures TaskOk(idOf, cfg, u, task)
  {
  }

  lemma RememberedLater(w: World, keys: seq<string>)
    ensures Later(w, w.(seen := T.Remembered(w.seen, keys, w.now)))
  {
    forall key, at: nat | at <= w.now && Tomb(w, key, at) && w.now <= at + T.KILLED_TTL
      ensures Tomb(w.(seen := T.Remembered(w.seen, keys, w.now)), key, at)
    {
      T.MarkSets(T.Unexpired(w.seen, w.now), keys, w.now, key);
    }
  }

  lemma StartIsLater(idOf: string -> string, cfg: Config, w: World, req: Request)
    ensures Later(w, Start(idOf, cfg, w, req).0)
  {
  }

  lemma StartHolds(idOf: string -> string, cfg: Config, w: World, req: Request)
    requires Inv(idOf, w) && Sane(idOf, req)
    ensures var (u, half) := Start(idOf, cfg, w, req);
            half.Holding? ==> TaskOk(idOf, cfg, u, half.task)
  {
  }

  lemma StartKeeps(idOf: string -> string, cfg: Config, w: World, req: Request)
    requires Hash(idOf) && Inv(idOf, w) && Dated(w) && Sane(idOf, req)
    ensures var (u, half) := Start(idOf, cfg, w, req);
            Inv(idOf, u) && Dated(u) && Later(w, u) && (half.Holding? ==> TaskOk(idOf, cfg, u, half.task))
  {
    StepKeeps(idOf, cfg, w, req);
    StartIsLater(idOf, cfg, w, req);
    StartHolds(idOf, cfg, w, req);
  }

  lemma OfferKeeps(idOf: string -> string, cfg: Config, w: World, id: string, who: Caller)
    requires Inv(idOf, w) && Dated(w)
    ensures var (u, half) := StartOffer(cfg, w, id, who);
            Inv(idOf, u) && Dated(u) && Later(w, u) && (half.Holding? ==> TaskOk(idOf, cfg, u, half.task))
  {
  }

  lemma ContinueKeeps(idOf: string -> string, cfg: Config, w: World, task: Task)
    requires Hash(idOf) && Inv(idOf, w) && Dated(w) && TaskOk(idOf, cfg, w, task)
    ensures var (u, half) := Continue(idOf, cfg, w, task);
            Inv(idOf, u) && Dated(u) && Later(w, u) && (half.Holding? ==> TaskOk(idOf, cfg, u, half.task))
  {
    if task.Chosen? {
      RememberedLater(w, [task.rec.id, task.rec.room]);
      T.MarkSets(T.Unexpired(w.seen, w.now), [task.rec.id, task.rec.room], w.now, task.rec.id);
      T.MarkSets(T.Unexpired(w.seen, w.now), [task.rec.id, task.rec.room], w.now, task.rec.room);
    }
  }

  lemma StepLater(idOf: string -> string, cfg: Config, s: State, e: Event)
    requires Hash(idOf) && Ok(idOf, cfg, s) && SaneEvent(idOf, e)
    ensures Later(s.w, Step(idOf, cfg, s, e).w)
  {
    match e
    case Starts(req) => StartKeeps(idOf, cfg, s.w, req);
    case Offers(id, who) => OfferKeeps(idOf, cfg, s.w, id, who);
    case Goes(i) => if i < |s.held| { ContinueKeeps(idOf, cfg, s.w, s.held[i]); }
    case _ =>
  }

  lemma StepOk(idOf: string -> string, cfg: Config, s: State, e: Event)
    requires Hash(idOf) && Ok(idOf, cfg, s) && SaneEvent(idOf, e)
    ensures Ok(idOf, cfg, Step(idOf, cfg, s, e))
  {
    var t := Step(idOf, cfg, s, e);
    StepLater(idOf, cfg, s, e);
    forall task | task in s.held ensures TaskOk(idOf, cfg, t.w, task) {
      TaskLater(idOf, cfg, s.w, t.w, task);
    }
    match e
    case Starts(req) => StartKeeps(idOf, cfg, s.w, req);
    case Offers(id, who) => OfferKeeps(idOf, cfg, s.w, id, who);
    case Goes(i) => if i < |s.held| { ContinueKeeps(idOf, cfg, s.w, s.held[i]); }
    case _ =>
  }

  lemma {:induction false} RunOk(idOf: string -> string, cfg: Config, s: State, es: seq<Event>)
    requires Hash(idOf) && Ok(idOf, cfg, s) && AllSaneEvents(idOf, es)
    ensures Ok(idOf, cfg, Interleave(idOf, cfg, s, es))
  {
    if es != [] {
      RunOk(idOf, cfg, s, es[..|es| - 1]);
      StepOk(idOf, cfg, Interleave(idOf, cfg, s, es[..|es| - 1]), es[|es| - 1]);
    }
  }
}
