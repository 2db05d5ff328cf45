/** Who is answered what by the dashboard, and how long what was claimed lasts, without the
    handlers' own helpers. */
module Answers {
  import opened Lifecycle
  import Spool
  import T = Tombstones
  import A = Access

  /** An admin, or the owner. */
  predicate Rules(who: Caller, acl: A.Session) {
    who.admin || (acl.owner != "" && acl.owner in who.principals)
  }

  predicate IsMember(who: Caller, acl: A.Session) {
    exists p :: p in who.principals && p != "" && p in acl.members
  }

  /** To whom a session exists: admins, its owner and its members. */
  predicate Shown(who: Caller, acl: A.Session) {
    Rules(who, acl) || IsMember(who, acl)
  }

  /** The session's access list; one that has none is nobody's. */
  function ListOf(w: World, id: string): A.Session {
    if id in w.access.sessions then w.access.sessions[id] else A.Session("", [], 0)
  }

  // ---- kills and member lists ------------------------------------------------------

  /** A kill of a live session is granted to admins and to its owner, refused to mere
      members, and to anybody else the session does not exist; nor does a session that is
      not live. Only a kill that is granted changes more than a listing would. */
  lemma KillIsAnsweredExactly(idOf: string -> string, cfg: Config, w: World, id: string, who: Caller)
    requires Inv(idOf, w)
    ensures var (t, reply) := Handle(idOf, cfg, w, Kill(id, who));
            var live, acl := id in LiveNow(cfg, w), ListOf(w, id);
            && (reply == Killed <==> live && Rules(who, acl))
            && (reply == NotYours <==> live && !Rules(who, acl) && IsMember(who, acl))
            && (reply == NoSession <==> !live || (!Rules(who, acl) && !IsMember(who, acl)))
            && t.access == w.access && t.now == w.now
            && (reply != Killed ==> t.files == LiveNow(cfg, w) && t.seen == w.seen)
            && (reply == Killed ==>
                  t.files == LiveNow(cfg, w)[id := w.files[id].(status := Spool.Ended, updatedAt := w.now)])
  {
  }

  /** So are changes of its member list: granted to admins and to the owner only. A grant
      is carried out if the request is valid, and nothing else changes any list. */
  lemma SharingIsAnsweredExactly(idOf: string -> string, cfg: Config, w: World, req: Request)
    requires req.AddMember? || req.RemoveMember?
    ensures var (t, reply) := Handle(idOf, cfg, w, req);
            var live, acl := req.id in LiveNow(cfg, w), ListOf(w, req.id);
            var valid := if req.AddMember? then req.valid else req.id in w.access.sessions;
            && (reply == Done <==> live && Rules(req.who, acl) && valid)
            && (reply == BadRequest <==> live && Rules(req.who, acl) && !valid)
            && (reply == NotYours <==> live && !Rules(req.who, acl) && IsMember(req.who, acl))
            && (reply == NoSession <==> !live || (!Rules(req.who, acl) && !IsMember(req.who, acl)))
            && t.files == LiveNow(cfg, w) && t.seen == w.seen
            && t.access == if reply != Done then w.access
                           else if req.AddMember? then A.AddMember(w.access, req.id, req.handle, w.now)
                           else A.RemoveMember(w.access, req.id, req.handle)
  {
  }

  // ---- registrations and heartbeats ------------------------------------------------

  /** The key was remembered as killed within the last ten minutes. */
  predicate KilledLately(w: World, key: string) {
    key != "" && key in w.seen && w.now - w.seen[key] <= 600_000_000_000
  }

  /** A registration is accepted exactly if it is well-formed, its room was not killed
      lately, and there is room for a new session. It leaves a record that is starting,
      remote and without a process, and with an owner if it names one. */
  lemma RegistrationIsAnsweredExactly(idOf: string -> string, cfg: Config, w: World, req: Request)
    requires Hash(idOf) && Sane(idOf, req) && req.Register?
    ensures var (t, reply) := Handle(idOf, cfg, w, req);
            var id := if req.room == "" then req.minted else idOf(req.room);
            var killed, full := KilledLately(w, req.room),
                                cfg.maxSessions > 0 && id !in w.files && |LiveNow(cfg, w)| >= cfg.maxSessions;
            && (reply == Created(id) <==> req.decodes && !killed && req.valid && !full)
            && (reply == Gone <==> req.decodes && killed)
            && (reply == BadRequest <==> !req.decodes || (!killed && !req.valid))
            && (reply == LimitReached <==> req.decodes && !killed && req.valid && full)
            && (reply == Created(id) ==>
                  && id in t.files && t.files[id].id == id && t.files[id].room == req.room && t.files[id].remote
                  && t.files[id].pid == 0 && t.files[id].status == Spool.Starting
                  && t.files[id].updatedAt == w.now && t.files[id].info == req.info
                  && (id !in w.files ==> t.files[id].startedAt == w.now)
                  && t.access == (if req.owner == "" then w.access else A.SetOwner(w.access, id, req.owner, w.now)))
            && (reply != Created(id) ==> t.access == w.access)
  {
  }

  /** A heartbeat is told to go on exactly if its record is there, remote and not ended, and
      then dates it; it is told to stop if the record has ended, or is gone and was killed
      lately. */
  lemma HeartbeatIsAnsweredExactly(idOf: string -> string, cfg: Config, w: World, id: string, readable: bool)
    requires Inv(idOf, w)
    ensures var (t, reply) := Handle(idOf, cfg, w, Heartbeat(id, readable));
            var there := id in w.files && w.files[id].remote;
            var ended := there && w.files[id].status == Spool.Ended;
            && (reply == Beat(false) <==> there && !ended && readable)
            && (reply == BadRequest <==> there && !ended && !readable)
            && (reply == Beat(true) <==> ended || (!there && KilledLately(w, id)))
            && (reply == NoSession <==> !there && !KilledLately(w, id))
            && t.access == w.access
            && t.files == if reply == Beat(false) then w.files[id := w.files[id].(updatedAt := w.now)] else w.files
  {
  }

  /** A session that was heard of stays listed for thirty seconds and no longer. */
  lemma HeardIsListed(idOf: string -> string, cfg: Config, w: World, id: string, d: nat)
    requires Inv(idOf, w) && Handle(idOf, cfg, w, Heartbeat(id, true)).1 == Beat(false)
    ensures var t := Handle(idOf, cfg, Handle(idOf, cfg, w, Heartbeat(id, true)).0, Tick(d)).0;
            id in LiveNow(cfg, t) <==> d < 30_000_000_000
  {
  }

  /** Looking a session up prunes the records and nothing else; a login is the directory's
      business, a local wrapper's save the store's. */
  lemma RestIsServed(
    idOf: string -> string, cfg: Config, w: World, l: A.Login, rec: Spool.Record, d: nat, pids: set<int>)
    ensures Handle(idOf, cfg, w, Visit).0 == w.(files := LiveNow(cfg, w))
    ensures var t := Handle(idOf, cfg, w, LogIn(l)).0;
            t.files == w.files && t.seen == w.seen && t.access.sessions == w.access.sessions
            && (A.LoginUser(w.access, l, w.now).key != "" ==>
                  A.LoginUser(w.access, l, w.now) in t.access.users.Values)
    ensures var t := Handle(idOf, cfg, w, LocalSave(rec)).0;
            t.access == w.access && t.seen == w.seen
            && (rec.id != "" ==> rec.id in t.files && t.files[rec.id] == rec.(updatedAt := w.now))
    ensures Handle(idOf, cfg, w, Tick(d)).0 == w.(now := w.now + d)
    ensures Handle(idOf, cfg, w, Processes(pids)).0 == w.(pids := pids)
  {
    var u := A.LoginUser(w.access, l, w.now);
    if u.key != "" {
      assert Handle(idOf, cfg, w, LogIn(l)).0.access.users[u.key] == u;
    }
  }

  // ---- how long a claim lasts ------------------------------------------------------

  /** A listing keeps a session's access list exactly if the session is live or the list is
      younger than thirty days. */
  lemma ListingKeepsExactly(idOf: string -> string, cfg: Config, w: World, id: string)
    ensures var t := Handle(idOf, cfg, w, List).0;
            && t.files == LiveNow(cfg, w)
            && (id in t.access.sessions ==> t.access.sessions[id] == w.access.sessions[id])
            && (id in t.access.sessions <==>
                  && id in w.access.sessions
                  && (id in LiveNow(cfg, w) || w.now - w.access.sessions[id].addedAt < 2_592_000_000_000_000))
  {
  }

  /** A session that is created is its creator's, at once if the launch succeeds and never
      if it fails; without an owner nothing happens. */
  lemma CreationIsAnsweredExactly(
    idOf: string -> string, cfg: Config, w: World, minted: string, owner: string, ok: bool)
    requires minted != "" && minted !in w.access.sessions
    ensures var t := Handle(idOf, cfg, w, Create(minted, owner, ok)).0;
            && t.files == w.files
            && (owner == "" ==> t == w)
            && (owner != "" && ok ==> ListOf(t, minted) == A.Session(A.Key(owner), [], w.now))
            && (minted in t.access.sessions <==> owner != "" && ok)
            && (forall k :: k != minted ==> ListOf(t, k) == ListOf(w, k))
  {
  }

  /** The request gives the session another owner, or takes its list away by name. */
  predicate Reowns(idOf: string -> string, req: Request, id: string, owner: string) {
    match req
    case Register(room, _, _, minted, newOwner, _) =>
      (if room == "" then minted else idOf(room)) == id && newOwner != "" && A.Key(newOwner) != owner
    case Create(minted, newOwner, launched) => minted == id && newOwner != "" && !(launched && A.Key(newOwner) == owner)
    case _ => false
  }

  predicate NoneReowns(idOf: string -> string, reqs: seq<Request>, id: string, owner: string) {
    forall i :: 0 <= i < |reqs| ==> !Reowns(idOf, reqs[i], id, owner)
  }

  predicate Owned(w: World, id: string, owner: string, at: nat) {
    id in w.access.sessions && w.access.sessions[id].owner == owner && w.access.sessions[id].addedAt == at
  }

  lemma ClaimStays(s: A.State, claimed: string, newOwner: string, now: nat, id: string, owner: string, at: nat)
    requires at > 0 && id in s.sessions && s.sessions[id].owner == owner && s.sessions[id].addedAt == at
    requires claimed == id ==> A.Key(newOwner) == owner
    ensures var t := A.SetOwner(s, claimed, newOwner, now);
            id in t.sessions && t.sessions[id].owner == owner && t.sessions[id].addedAt == at
  {
    if claimed != "" { A.ClaimExactly(s, claimed, newOwner, now); }
  }

  lemma RegistrationTouches(idOf: string -> string, cfg: Config, w: World, req: Request)
    requires req.Register?
    ensures var access := HandleRegister(idOf, cfg, w, req).0.access;
            || access == w.access
            || (req.owner != "" && access == A.SetOwner(w.access, IdFor(idOf, req.room, req.minted), req.owner, w.now))
  {
  }

  lemma SharingTouches(idOf: string -> string, cfg: Config, w: World, req: Request, id: string)
    requires (req.AddMember? || req.RemoveMember?) && id in w.access.sessions
    ensures var t := Handle(idOf, cfg, w, req).0;
            && id in t.access.sessions && t.access.sessions[id].owner == w.access.sessions[id].owner
            && (w.access.sessions[id].addedAt != 0 ==> t.access.sessions[id].addedAt == w.access.sessions[id].addedAt)
  {
    SharingIsAnsweredExactly(idOf, cfg, w, req);
    if req.AddMember? {
      if req.id != "" && A.Key(req.handle) != "" { A.InvitationExactly(w.access, req.id, req.handle, w.now); }
    } else {
      A.RemovalTouchesOne(w.access, req.id, req.handle, id);
    }
  }

  lemma OwnerStays(idOf: string -> string, cfg: Config, w: World, req: Request, id: string, owner: string, at: nat)
    requires id != "" && at > 0 && Owned(w, id, owner, at) && !Reowns(idOf, req, id, owner)
    requires w.now < at + 2_592_000_000_000_000
    ensures Owned(Handle(idOf, cfg, w, req).0, id, owner, at)
  {
    if req.List? {
      ListingKeepsExactly(idOf, cfg, w, id);
    } else if req.AddMember? || req.RemoveMember? {
      SharingTouches(idOf, cfg, w, req, id);
    } else if req.Register? {
      RegistrationTouches(idOf, cfg, w, req);
      if req.owner != "" {
        ClaimStays(w.access, IdFor(idOf, req.room, req.minted), req.owner, w.now, id, owner, at);
      }
    } else if req.Create? && req.owner != "" && (req.minted != id || req.launched) {
      ClaimStays(w.access, req.minted, req.owner, w.now, id, owner, at);
    }
  }

  /** For thirty days from the date of its list a session keeps its owner in every run that
      names no other, whatever listings find or do not find. */
  lemma {:induction false} OwnerLasts(
    idOf: string -> string, cfg: Config, w: World, reqs: seq<Request>, id: string, owner: string, at: nat)
    requires id != "" && at > 0 && Owned(w, id, owner, at) && NoneReowns(idOf, reqs, id, owner)
    requires RunFrom(idOf, cfg, w, reqs).now < at + 2_592_000_000_000_000
    ensures Owned(RunFrom(idOf, cfg, w, reqs), id, owner, at)
  {
    if reqs != [] {
      var init, req := reqs[..|reqs| - 1], reqs[|reqs| - 1];
      var u := RunFrom(idOf, cfg, w, init);
      ClockRuns(idOf, cfg, u, req);
      assert !Reowns(idOf, reqs[|reqs| - 1], id, owner);
      assert NoneReowns(idOf, init, id, owner);
      OwnerLasts(idOf, cfg, w, init, id, owner, at);
      OwnerStays(idOf, cfg, u, req, id, owner, at);
    }
  }

  /** A claim, by registration or by creation, of a session without a list. */
  lemma ClaimLasts(idOf: string -> string, cfg: Config, w: World, claim: Request, id: string, reqs: seq<Request>)
    requires Hash(idOf) && Sane(idOf, claim) && w.now > 0 && id != "" && id !in w.access.sessions
    requires (claim.Register? && claim.owner != "" && Handle(idOf, cfg, w, claim).1 == Created(id))
             || (claim.Create? && claim.owner != "" && claim.launched && claim.minted == id)
    requires NoneReowns(idOf, reqs, id, A.Key(claim.owner))
    requires RunFrom(idOf, cfg, Handle(idOf, cfg, w, claim).0, reqs).now < w.now + 2_592_000_000_000_000
    ensures Owned(RunFrom(idOf, cfg, Handle(idOf, cfg, w, claim).0, reqs), id, A.Key(claim.owner), w.now)
  {
    if claim.Register? {
      RegistrationIsAnsweredExactly(idOf, cfg, w, claim);
    }
    A.ClaimExactly(w.access, id, claim.owner, w.now);
    OwnerLasts(idOf, cfg, Handle(idOf, cfg, w, claim).0, reqs, id, A.Key(claim.owner), w.now);
  }

  /** Claiming a session again does not renew its grace: a list that is thirty days old goes
      with the first listing after the session was last heard of for thirty seconds, however
      recent the claim. */
  lemma ReclaimDoesNotRenew(idOf: string -> string, cfg: Config, w: World, claim: Request, id: string, d: nat)
    requires Hash(idOf) && Sane(idOf, claim) && claim.Register? && claim.owner != "" && id in w.access.sessions
    requires Handle(idOf, cfg, w, claim).1 == Created(id)
    requires w.access.sessions[id].addedAt != 0 && w.now - w.access.sessions[id].addedAt >= 2_592_000_000_000_000
    ensures var claimed := Handle(idOf, cfg, w, claim).0;
            var later := Handle(idOf, cfg, claimed, Tick(d)).0;
            && ListOf(claimed, id).owner == A.Key(claim.owner)
            && (id in Handle(idOf, cfg, later, List).0.access.sessions <==> d < 30_000_000_000)
  {
    RegistrationIsAnsweredExactly(idOf, cfg, w, claim);
    A.ClaimExactly(w.access, id, claim.owner, w.now);
    var later := Handle(idOf, cfg, Handle(idOf, cfg, w, claim).0, Tick(d)).0;
    ListingKeepsExactly(idOf, cfg, later, id);
    Spool.StaysExactly(later.files, later.now, later.pids, cfg.keepEnded, id);
  }
}
