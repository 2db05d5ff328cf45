/** A remote session's life between its wrapper and the dashboard. Every HTTP handler is
    one atomic step under a monotone clock; `idOf` is the hash that turns a room into a
    record id, taken to be injective and never empty. */
module Lifecycle {
  import Spool
  import T = Tombstones
  import A = Access

  const ACL_GRACE := 2_592_000_000_000_000

  datatype Config = Config(maxSessions: int, keepEnded: nat)

  datatype World = World(now: nat, pids: set<int>, files: Spool.Files, seen: T.Seen, access: A.State)

  datatype Caller = Caller(admin: bool, principals: seq<string>)

  datatype Reply =
    | Done | Created(id: string) | Beat(stop: bool) | Killed
    | BadRequest | Gone | LimitReached | NoSession | NotYours | Conflict

  /** The requests the dashboard serves, and what happens around it. `minted` is a fresh
      random id; `decodes` and `valid` say whether a body parses and passes validation. */
  datatype Request =
    | Register(room: string, decodes: bool, valid: bool, minted: string, owner: string, info: seq<string>)
    | Heartbeat(id: string, readable: bool)
    | Kill(id: string, who: Caller)
    | List
    | Visit
    | AddMember(id: string, handle: string, valid: bool, who: Caller)
    | RemoveMember(id: string, handle: string, who: Caller)
    | Create(minted: string, owner: string, launched: bool)
    | LocalSave(rec: Spool.Record)
    | LogIn(login: A.Login)
    | Tick(elapsed: nat)
    | Processes(pids: set<int>)

  predicate CanSee(c: Caller, acl: A.Session) {
    c.admin || A.Allows(acl, c.principals)
  }

  predicate CanManage(c: Caller, acl: A.Session) {
    c.admin || (acl.owner != "" && acl.owner in c.principals)
  }

  ghost predicate Hash(idOf: string -> string) {
    && (forall a, b :: idOf(a) == idOf(b) ==> a == b)
    && (forall a :: idOf(a) != "")
  }

  /** A minted id is not the hash of any room. */
  ghost predicate Minted(idOf: string -> string, id: string) {
    id != "" && forall room :: idOf(room) != id
  }

  ghost predicate Sane(idOf: string -> string, req: Request) {
    match req
    case Register(_, _, _, minted, _, _) => Minted(idOf, minted)
    case Create(minted, _, _) => Minted(idOf, minted)
    case LocalSave(rec) => !rec.remote && Minted(idOf, rec.id)
    case _ => true
  }

  function LiveNow(cfg: Config, w: World): Spool.Files {
    Spool.LiveOnly(w.files, w.now, w.pids, cfg.keepEnded)
  }

  function IdFor(idOf: string -> string, room: string, minted: string): string {
    if room == "" then minted else idOf(room)
  }

  /** The record a registration writes; an existing one lends it its start time. */
  function NewRecord(w: World, id: string, room: string, info: seq<string>): Spool.Record {
    var started := if id in w.files && w.files[id].startedAt != 0 then w.files[id].startedAt else w.now;
    Spool.Record(id, room, true, 0, Spool.Starting, started, w.now, info)
  }

  function Admit(w: World, id: string, rec: Spool.Record, owner: string): World {
    w.(files := Spool.Saved(w.files, rec, w.now),
       access := if owner == "" then w.access else A.SetOwner(w.access, id, owner, w.now))
  }

  function HandleRegister(idOf: string -> string, cfg: Config, w: World, req: Request): (World, Reply)
    requires req.Register?
  {
    if !req.decodes then (w, BadRequest)
    else if T.IsKilled(w.seen, req.room, w.now) then (w, Gone)
    else
      var w' := w.(seen := T.AfterHas(w.seen, req.room, w.now));
      if !req.valid then (w', BadRequest)
      else
        var id := IdFor(idOf, req.room, req.minted);
        var rec := NewRecord(w, id, req.room, req.info);
        if cfg.maxSessions > 0 && id !in w.files then
          var pruned := w'.(files := LiveNow(cfg, w));
          if |pruned.files| >= cfg.maxSessions then (pruned, LimitReached)
          else (Admit(pruned, id, rec, req.owner), Created(id))
        else (Admit(w', id, rec, req.owner), Created(id))
  }

  function HandleHeartbeat(w: World, id: string, readable: bool): (World, Reply) {
    if id !in w.files || !w.files[id].remote then
      if T.IsKilled(w.seen, id, w.now) then (w, Beat(true))
      else (w.(seen := T.AfterHas(w.seen, id, w.now)), NoSession)
    else if w.files[id].status == Spool.Ended then (w, Beat(true))
    else if !readable then (w, BadRequest)
    else (w.(files := Spool.Saved(w.files, w.files[id], w.now)), Beat(false))
  }

  function HandleKill(cfg: Config, w: World, id: string, who: Caller): (World, Reply) {
    var pruned := w.(files := LiveNow(cfg, w));
    var acl := A.ACL(w.access, id);
    if id !in pruned.files || !CanSee(who, acl) then (pruned, NoSession)
    else if !CanManage(who, acl) then (pruned, NotYours)
    else
      var rec := pruned.files[id];
      (pruned.(seen := T.Remembered(w.seen, [rec.id, rec.room], w.now),
               files := Spool.Saved(pruned.files, rec.(status := Spool.Ended), w.now)), Killed)
  }

  function HandleList(cfg: Config, w: World): World {
    var live := LiveNow(cfg, w);
    w.(files := live, access := A.Prune(w.access, live.Keys, ACL_GRACE, w.now))
  }

  /** The handlers that change a member list, behind the check that the caller may. */
  function HandleShare(cfg: Config, w: World, id: string, who: Caller, access: A.State, valid: bool): (World, Reply) {
    var pruned := w.(files := LiveNow(cfg, w));
    var acl := A.ACL(w.access, id);
    if id !in pruned.files || !CanSee(who, acl) then (pruned, NoSession)
    else if !CanManage(who, acl) then (pruned, NotYours)
    else if !valid then (pruned, BadRequest)
    else (pruned.(access := access), Done)
  }

  function Handle(idOf: string -> string, cfg: Config, w: World, req: Request): (World, Reply) {
    match req
    case Register(_, _, _, _, _, _) => HandleRegister(idOf, cfg, w, req)
    case Heartbeat(id, readable) => HandleHeartbeat(w, id, readable)
    case Kill(id, who) => HandleKill(cfg, w, id, who)
    case List => (HandleList(cfg, w), Done)
    case Visit => (w.(files := LiveNow(cfg, w)), Done)
    case AddMember(id, handle, valid, who) =>
      HandleShare(cfg, w, id, who, A.AddMember(w.access, id, handle, w.now), valid)
    case RemoveMember(id, handle, who) =>
      HandleShare(cfg, w, id, who, A.RemoveMember(w.access, id, handle), id in w.access.sessions)
    case Create(minted, owner, launched) =>
      (if owner == "" then w
       else
         var claimed := A.SetOwner(w.access, minted, owner, w.now);
         w.(access := if launched then claimed else A.Drop(claimed, minted)), Done)
    case LocalSave(rec) => (w.(files := Spool.Saved(w.files, rec, w.now)), Done)
    case LogIn(l) => (w.(access := A.Seen(w.access, l, w.now)), Done)
    case Tick(d) => (w.(now := w.now + d), Done)
    case Processes(pids) => (w.(pids := pids), Done)
  }

  function RunFrom(idOf: string -> string, cfg: Config, w: World, reqs: seq<Request>): World {
    if reqs == [] then w
    else Handle(idOf, cfg, RunFrom(idOf, cfg, w, reqs[..|reqs| - 1]), reqs[|reqs| - 1]).0
  }

  function Boot(now: nat): World {
    World(now, {}, map[], map[], A.INIT)
  }

  ghost predicate AllSane(idOf: string -> string, reqs: seq<Request>) {
    forall i :: 0 <= i < |reqs| ==> Sane(idOf, reqs[i])
  }

  // ---- identity --------------------------------------------------------------------

  /** A remote record with a room has the room's hash for its id, any other a minted one. */
  ghost predicate RecOk(idOf: string -> string, rec: Spool.Record) {
    rec.id != "" && if rec.remote && rec.room != "" then rec.id == idOf(rec.room) else Minted(idOf, rec.id)
  }

  /** Records sit under their own id. */
  ghost predicate Inv(idOf: string -> string, w: World) {
    forall id :: id in w.files ==> w.files[id].id == id && RecOk(idOf, w.files[id])
  }

  lemma RegisterKeeps(idOf: string -> string, cfg: Config, w: World, req: Request)
    requires Hash(idOf) && Inv(idOf, w) && Sane(idOf, req) && req.Register?
    ensures Inv(idOf, HandleRegister(idOf, cfg, w, req).0)
  {
    var id := IdFor(idOf, req.room, req.minted);
    var rec := NewRecord(w, id, req.room, req.info);
    assert rec.id == id && id != "";
  }

  lemma HeartbeatKeeps(idOf: string -> string, w: World, id: string, readable: bool)
    requires Inv(idOf, w)
    ensures Inv(idOf, HandleHeartbeat(w, id, readable).0)
  {
  }

  lemma KillKeeps(idOf: string -> string, cfg: Config, w: World, id: string, who: Caller)
    requires Inv(idOf, w)
    ensures Inv(idOf, HandleKill(cfg, w, id, who).0)
  {
  }

  lemma StepKeeps(idOf: string -> string, cfg: Config, w: World, req: Request)
    requires Hash(idOf) && Inv(idOf, w) && Sane(idOf, req)
    ensures Inv(idOf, Handle(idOf, cfg, w, req).0)
  {
    match req
    case Register(_, _, _, _, _, _) => RegisterKeeps(idOf, cfg, w, req);
    case Heartbeat(id, readable) => HeartbeatKeeps(idOf, w, id, readable);
    case Kill(id, who) => KillKeeps(idOf, cfg, w, id, who);
    case _ =>
  }

  lemma {:induction false} RunKeeps(idOf: string -> string, cfg: Config, w: World, reqs: seq<Request>)
    requires Hash(idOf) && Inv(idOf, w) && AllSane(idOf, reqs)
    ensures Inv(idOf, RunFrom(idOf, cfg, w, reqs))
  {
    if reqs != [] {
      var init := reqs[..|reqs| - 1];
      RunKeeps(idOf, cfg, w, init);
      StepKeeps(idOf, cfg, RunFrom(idOf, cfg, w, init), reqs[|reqs| - 1]);
    }
  }

  predicate SameRoom(a: Spool.Record, b: Spool.Record) {
    a.remote && b.remote && a.room != "" && a.room == b.room
  }

  /** Over any run a room is always answered with the same id, and distinct rooms with
      distinct ids; two remote records never share a room. Whatever record of the room the
      run has left is the one a registration takes over, start time included. */
  lemma RoomsKeepTheirId(idOf: string -> string, cfg: Config, w: World, reqs: seq<Request>, a: Request, b: Request)
    requires Hash(idOf) && Inv(idOf, w) && AllSane(idOf, reqs)
    requires a.Register? && b.Register? && a.room != "" && b.room != ""
    ensures var u := RunFrom(idOf, cfg, w, reqs);
            var first, second := Handle(idOf, cfg, w, a).1, Handle(idOf, cfg, u, b);
            && (first.Created? && second.1.Created? ==> (first.id == second.1.id <==> a.room == b.room))
            && (forall x, y :: x in u.files && y in u.files && SameRoom(u.files[x], u.files[y]) ==> x == y)
            && (forall x :: second.1.Created? && x in u.files && u.files[x].remote && u.files[x].room == b.room ==>
                  && second.1.id == x && x in second.0.files
                  && (u.files[x].startedAt != 0 ==> second.0.files[x].startedAt == u.files[x].startedAt))
  {
    RunKeeps(idOf, cfg, w, reqs);
  }

  // ---- a kill sticks ---------------------------------------------------------------

  /** The session of this id and room was killed at or after t and is still known to be. */
  ghost predicate Dead(w: World, id: string, room: string, t: nat) {
    && id != "" && room != ""
    && id in w.seen && w.seen[id] >= t && room in w.seen && w.seen[room] >= t
    && (id in w.files ==> w.files[id].remote && w.files[id].status == Spool.Ended)
  }

  lemma KillMarks(idOf: string -> string, cfg: Config, w: World, id: string, who: Caller)
    requires Hash(idOf) && Inv(idOf, w)
    requires id in w.files && w.files[id].remote && w.files[id].room != ""
    requires Handle(idOf, cfg, w, Kill(id, who)).1 == Killed
    ensures var t := Handle(idOf, cfg, w, Kill(id, who)).0;
            Dead(t, id, w.files[id].room, w.now) && id == idOf(w.files[id].room) && t.now == w.now
  {
    var rec := w.files[id];
    T.MarkSets(T.Unexpired(w.seen, w.now), [rec.id, rec.room], w.now, rec.id);
    T.MarkSets(T.Unexpired(w.seen, w.now), [rec.id, rec.room], w.now, rec.room);
  }

  lemma DeadSeen(seen: T.Seen, keys: seq<string>, now: nat, key: string, t: nat)
    requires key in seen && seen[key] >= t && t <= now <= t + T.KILLED_TTL
    ensures key in T.Remembered(seen, keys, now) && T.Remembered(seen, keys, now)[key] >= t
  {
    T.MarkSets(T.Unexpired(seen, now), keys, now, key);
  }

  lemma DeadNotRegistered(idOf: string -> string, cfg: Config, w: World, req: Request, room: string, t: nat)
    requires Hash(idOf) && Inv(idOf, w) && Sane(idOf, req) && req.Register?
    requires Dead(w, idOf(room), room, t) && t <= w.now <= t + T.KILLED_TTL
    ensures Dead(HandleRegister(idOf, cfg, w, req).0, idOf(room), room, t)
  {
    if req.room == room {
      assert T.IsKilled(w.seen, room, w.now);
    } else {
      assert IdFor(idOf, req.room, req.minted) != idOf(room);
    }
  }

  lemma DeadStaysKilled(idOf: string -> string, cfg: Config, w: World, id: string, who: Caller, room: string, t: nat)
    requires Inv(idOf, w)
    requires Dead(w, idOf(room), room, t) && t <= w.now <= t + T.KILLED_TTL
    ensures Dead(HandleKill(cfg, w, id, who).0, idOf(room), room, t)
  {
    if id in LiveNow(cfg, w) {
      var rec := w.files[id];
      DeadSeen(w.seen, [rec.id, rec.room], w.now, idOf(room), t);
      DeadSeen(w.seen, [rec.id, rec.room], w.now, room, t);
    }
  }

  lemma DeadStays(idOf: string -> string, cfg: Config, w: World, req: Request, room: string, t: nat)
    requires Hash(idOf) && Inv(idOf, w) && Sane(idOf, req)
    requires Dead(w, idOf(room), room, t) && t <= w.now <= t + T.KILLED_TTL
    ensures Dead(Handle(idOf, cfg, w, req).0, idOf(room), room, t)
  {
    match req
    case Register(_, _, _, _, _, _) => DeadNotRegistered(idOf, cfg, w, req, room, t);
    case Kill(id, who) => DeadStaysKilled(idOf, cfg, w, id, who, room, t);
    case _ =>
  }

  lemma ClockRuns(idOf: string -> string, cfg: Config, w: World, req: Request)
    ensures Handle(idOf, cfg, w, req).0.now >= w.now
  {
  }

  lemma {:induction false} DeadOverRun(idOf: string -> string, cfg: Config, w: World, reqs: seq<Request>,
      room: string, t: nat)
    requires Hash(idOf) && Inv(idOf, w) && AllSane(idOf, reqs)
    requires Dead(w, idOf(room), room, t) && t <= w.now
    requires RunFrom(idOf, cfg, w, reqs).now <= t + T.KILLED_TTL
    ensures Dead(RunFrom(idOf, cfg, w, reqs), idOf(room), room, t)
    ensures RunFrom(idOf, cfg, w, reqs).now >= w.now
  {
    if reqs != [] {
      var init, req := reqs[..|reqs| - 1], reqs[|reqs| - 1];
      var u := RunFrom(idOf, cfg, w, init);
      ClockRuns(idOf, cfg, u, req);
      DeadOverRun(idOf, cfg, w, init, room, t);
      RunKeeps(idOf, cfg, w, init);
      DeadStays(idOf, cfg, u, req, room, t);
    }
  }

  /** A killed session's wrapper gets no way back. */
  lemma DeadIsRefused(idOf: string -> string, cfg: Config, w: World, room: string, t: nat, req: Request)
    requires Dead(w, idOf(room), room, t) && t <= w.now <= t + T.KILLED_TTL
    requires (req.Register? && req.room == room) || (req.Heartbeat? && req.id == idOf(room))
    ensures Handle(idOf, cfg, w, req).1 ==
            if req.Heartbeat? then Beat(true) else if req.decodes then Gone else BadRequest
  {
  }

  /** A kill sticks: for as long as tombstones last, in every run after the kill, the
      record is absent or ended, the room cannot be registered, and every heartbeat on
      the id is answered with stop. */
  lemma KillSticks(idOf: string -> string, cfg: Config, w: World, id: string, who: Caller, reqs: seq<Request>,
      req: Request)
    requires Hash(idOf) && Inv(idOf, w) && AllSane(idOf, reqs)
    requires id in w.files && w.files[id].remote && w.files[id].room != ""
    requires Handle(idOf, cfg, w, Kill(id, who)).1 == Killed
    requires RunFrom(idOf, cfg, Handle(idOf, cfg, w, Kill(id, who)).0, reqs).now <= w.now + T.KILLED_TTL
    ensures var u := RunFrom(idOf, cfg, Handle(idOf, cfg, w, Kill(id, who)).0, reqs);
            && (id in u.files ==> u.files[id].status == Spool.Ended)
            && (req.Register? && req.decodes && req.room == w.files[id].room ==> Handle(idOf, cfg, u, req).1 == Gone)
            && (req.Heartbeat? && req.id == id ==> Handle(idOf, cfg, u, req).1 == Beat(true))
  {
    var room := w.files[id].room;
    var killed := Handle(idOf, cfg, w, Kill(id, who)).0;
    KillMarks(idOf, cfg, w, id, who);
    StepKeeps(idOf, cfg, w, Kill(id, who));
    DeadOverRun(idOf, cfg, killed, reqs, room, w.now);
    if (req.Register? && req.decodes && req.room == room) || (req.Heartbeat? && req.id == id) {
      DeadIsRefused(idOf, cfg, RunFrom(idOf, cfg, killed, reqs), room, w.now, req);
    }
  }

  /** Tombstones are what makes a kill stick, and they last to the nanosecond: with no
      session limit, the killed room can be registered again exactly when the TTL is over. */
  lemma KillWearsOff(idOf: string -> string, cfg: Config, w: World, id: string, who: Caller, d: nat, req: Request)
    requires Hash(idOf) && Inv(idOf, w)
    requires id in w.files && w.files[id].remote && w.files[id].room != ""
    requires Handle(idOf, cfg, w, Kill(id, who)).1 == Killed
    requires req.Register? && req.decodes && req.valid && req.room == w.files[id].room && cfg.maxSessions <= 0
    ensures var u := Handle(idOf, cfg, Handle(idOf, cfg, w, Kill(id, who)).0, Tick(d)).0;
            Handle(idOf, cfg, u, req).1 == if d <= T.KILLED_TTL then Gone else Created(id)
  {
    KillMarks(idOf, cfg, w, id, who);
    T.MarkSets(T.Unexpired(w.seen, w.now), [id, req.room], w.now, req.room);
  }

  // ---- sharing survives ------------------------------------------------------------

  /** A request after which session id's access list is what it was: no accepted change of
      its owner or members, no failed launch under its id, and no listing that finds it
      neither live nor within its grace. */
  ghost predicate LeavesACL(idOf: string -> string, cfg: Config, w: World, req: Request, id: string) {
    match req
    case Register(room, _, _, minted, owner, _) =>
      || IdFor(idOf, room, minted) != id || owner == ""
      || (id in w.access.sessions && w.access.sessions[id].owner == A.Key(owner) && w.access.sessions[id].addedAt != 0)
    case AddMember(other, _, _, _) => other != id
    case RemoveMember(other, _, _) => other != id
    case Create(minted, owner, _) => minted != id || owner == ""
    case List => id !in w.access.sessions
        || !A.Orphaned(w.access.sessions[id], id, LiveNow(cfg, w).Keys, ACL_GRACE, w.now)
    case _ => true
  }

  ghost predicate AllLeaveACL(idOf: string -> string, cfg: Config, w: World, reqs: seq<Request>, id: string) {
    forall i :: 0 <= i < |reqs| ==> LeavesACL(idOf, cfg, RunFrom(idOf, cfg, w, reqs[..i]), reqs[i], id)
  }

  ghost predicate SameACL(a: World, b: World, id: string) {
    && (id in a.access.sessions <==> id in b.access.sessions)
    && A.ACL(a.access, id) == A.ACL(b.access, id)
  }

  lemma StepLeavesACL(idOf: string -> string, cfg: Config, w: World, req: Request, id: string)
    requires LeavesACL(idOf, cfg, w, req, id)
    ensures SameACL(w, Handle(idOf, cfg, w, req).0, id)
  {
  }

  /** Heartbeats, lost or not, pruned records, kills, logins and registrations again and
      again: through all of it a session keeps its owner and members. */
  lemma {:induction false} SharingSurvives(idOf: string -> string, cfg: Config, w: World, reqs: seq<Request>,
      id: string)
    requires AllLeaveACL(idOf, cfg, w, reqs, id)
    ensures SameACL(w, RunFrom(idOf, cfg, w, reqs), id)
  {
    if reqs != [] {
      var init := reqs[..|reqs| - 1];
      assert AllLeaveACL(idOf, cfg, w, init, id) by {
        forall i | 0 <= i < |init| ensures LeavesACL(idOf, cfg, RunFrom(idOf, cfg, w, init[..i]), init[i], id) {
          assert init[..i] == reqs[..i];
          assert LeavesACL(idOf, cfg, RunFrom(idOf, cfg, w, reqs[..i]), reqs[i], id);
        }
      }
      SharingSurvives(idOf, cfg, w, init, id);
      assert LeavesACL(idOf, cfg, RunFrom(idOf, cfg, w, reqs[..|reqs| - 1]), reqs[|reqs| - 1], id);
      StepLeavesACL(idOf, cfg, RunFrom(idOf, cfg, w, init), reqs[|reqs| - 1], id);
    }
  }

  // ---- the session limit -----------------------------------------------------------

  lemma LiveIsFewer(files: Spool.Files, now: nat, pids: set<int>, keepEnded: nat)
    ensures |Spool.LiveOnly(files, now, pids, keepEnded)| <= |files|
  {
    var live := Spool.LiveOnly(files, now, pids, keepEnded);
    Subsets(live.Keys, files.Keys);
  }

  lemma {:induction false} Subsets<X>(a: set<X>, b: set<X>)
    requires a <= b
    ensures |a| <= |b|
  {
    if a != {} {
      var x :| x in a;
      Subsets(a - {x}, b - {x});
    }
  }

  lemma SavedSize(files: Spool.Files, r: Spool.Record, now: nat)
    ensures |Spool.Saved(files, r, now)| <= |files| + (if r.id in files then 0 else 1)
  {
    var saved := Spool.Saved(files, r, now);
    if r.id in files {
      assert saved.Keys == files.Keys;
    } else if r.id != "" {
      assert saved.Keys == files.Keys + {r.id};
    }
  }

  lemma StepLimits(idOf: string -> string, cfg: Config, w: World, req: Request)
    requires Hash(idOf) && Inv(idOf, w)
    requires cfg.maxSessions > 0 && |w.files| <= cfg.maxSessions && !req.LocalSave?
    ensures |Handle(idOf, cfg, w, req).0.files| <= cfg.maxSessions
  {
    LiveIsFewer(w.files, w.now, w.pids, cfg.keepEnded);
    match req
    case Register(room, _, _, minted, _, info) =>
      var id := IdFor(idOf, room, minted);
      SavedSize(w.files, NewRecord(w, id, room, info), w.now);
      SavedSize(LiveNow(cfg, w), NewRecord(w, id, room, info), w.now);
    case Heartbeat(id, _) =>
      if id in w.files { SavedSize(w.files, w.files[id], w.now); }
    case Kill(id, _) =>
      if id in LiveNow(cfg, w) { SavedSize(LiveNow(cfg, w), w.files[id].(status := Spool.Ended), w.now); }
    case _ =>
  }

  /** With a session limit, and records made by registrations only, the store never holds
      more records than that, although a returning session is let in without a count. */
  lemma {:induction false} LimitHolds(idOf: string -> string, cfg: Config, now: nat, reqs: seq<Request>)
    requires Hash(idOf) && AllSane(idOf, reqs)
    requires cfg.maxSessions > 0
    requires forall i :: 0 <= i < |reqs| ==> !reqs[i].LocalSave?
    ensures |RunFrom(idOf, cfg, Boot(now), reqs).files| <= cfg.maxSessions
  {
    if reqs != [] {
      var init := reqs[..|reqs| - 1];
      LimitHolds(idOf, cfg, now, init);
      RunKeeps(idOf, cfg, Boot(now), init);
      StepLimits(idOf, cfg, RunFrom(idOf, cfg, Boot(now), init), reqs[|reqs| - 1]);
    }
  }
}
