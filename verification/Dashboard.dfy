/** The handlers as the server runs them, step by step over its three stores. */
module Dashboard {
  import opened Lifecycle
  import Spool
  import T = Tombstones
  import A = Access
  import H = HostRegistry
  import opened Answers

  class Server {
    const cfg: Config
    const store: Spool.Store
    const killed: T.KillRegistry
    const access: A.Store
    const hosts: H.TermHosts
    var signals: seq<int> // the processes that were told to end
    var muxKills: seq<string> // the sessions whose tmux session was killed

    constructor (cfg: Config)
      ensures this.cfg == cfg && fresh(store) && fresh(killed) && fresh(access) && fresh(hosts)
      ensures View(0, {}) == Boot(0) && hosts.View() == H.INIT && signals == [] && muxKills == []
    {
      this.cfg := cfg;
      store := new Spool.Store();
      killed := new T.KillRegistry();
      access := new A.Store();
      hosts := new H.TermHosts();
      signals, muxKills := [], [];
    }

    ghost function View(now: nat, pids: set<int>): World
      reads store, killed, access
    {
      World(now, pids, store.files, killed.seen, access.View())
    }

    method HandleRegister(idOf: string -> string, req: Request, now: nat, pids: set<int>) returns (reply: Reply)
      requires req.Register? && Spool.Keyed(store.files)
      modifies store, killed, access
      ensures (View(now, pids), reply) == Handle(idOf, cfg, old(View(now, pids)), req)
    {
      if !req.decodes {
        return BadRequest;
      }
      var gone := killed.Has(req.room, now);
      if gone {
        return Gone;
      }
      if !req.valid {
        return BadRequest;
      }
      var id := req.minted;
      if req.room != "" {
        id := idOf(req.room);
      }
      var existing := store.Load(id);
      assert Reclaimed(id, req, existing, now) == NewRecord(View(now, pids), id, req.room, req.info);
      if cfg.maxSessions > 0 && existing.NotFound? {
        var full := AtLimit(now, pids);
        if full {
          return LimitReached;
        }
      }
      Write(id, req, existing, now, pids);
      return Created(id);
    }

    /** The count of live sessions against the limit; counting prunes. */
    method AtLimit(now: nat, pids: set<int>) returns (full: bool)
      requires Spool.Keyed(store.files)
      modifies store
      ensures store.files == Spool.LiveOnly(old(store.files), now, pids, cfg.keepEnded)
      ensures full == (|store.files| >= cfg.maxSessions)
    {
      var live := store.LiveRecords(now, pids, cfg.keepEnded);
      Spool.ListingSize(live, store.files);
      full := |live| >= cfg.maxSessions;
    }

    /** The record and the owner of an admitted session; `existing` is what was stored under its id. */
    method Write(id: string, req: Request, existing: Spool.Loaded, now: nat, ghost pids: set<int>)
      requires req.Register?
      modifies store, access
      ensures View(now, pids) == Admit(old(View(now, pids)), id, Reclaimed(id, req, existing, now), req.owner)
    {
      var startedAt := now;
      if existing.Found? && existing.rec.startedAt != 0 {
        startedAt := existing.rec.startedAt;
      }
      var ok := store.Save(Spool.Record(id, req.room, true, 0, Spool.Starting, startedAt, now, req.info), now);
      if req.owner != "" {
        ok := access.SetOwner(id, req.owner, now);
      }
    }

    method HandleRemotePane(id: string, readable: bool, now: nat, ghost pids: set<int>) returns (reply: Reply)
      modifies store, killed
      ensures (View(now, pids), reply) == HandleHeartbeat(old(View(now, pids)), id, readable)
    {
      var loaded := store.Load(id);
      if loaded.NotFound? || !loaded.rec.remote {
        var stop := killed.Has(id, now);
        if stop {
          return Beat(true);
        }
        return NoSession;
      }
      if loaded.rec.status == Spool.Ended {
        return Beat(true);
      }
      if !readable {
        return BadRequest;
      }
      var ok := store.Save(loaded.rec, now);
      return Beat(false);
    }

    /** liveRecord: prunes, then looks for the id among what is left. */
    method LiveRecord(id: string, now: nat, pids: set<int>) returns (rec: Spool.Loaded)
      requires Spool.Keyed(store.files)
      modifies store
      ensures store.files == Spool.LiveOnly(old(store.files), now, pids, cfg.keepEnded) && Spool.Keyed(store.files)
      ensures rec == Spool.Lookup(store.files, id)
    {
      var recs := store.LiveRecords(now, pids, cfg.keepEnded);
      for i := 0 to |recs|
        invariant forall k :: 0 <= k < i ==> recs[k].id != id
      {
        if recs[i].id == id {
          return Spool.Found(recs[i]);
        }
      }
      assert id in store.files ==> Spool.Names(recs, id);
      return Spool.NotFound;
    }

    /** An accepted kill also ends a local session's process and its tmux session, and takes
        the session's terminal host down; a refused one leaves both alone. */
    method HandleKill(id: string, who: Caller, now: nat, pids: set<int>) returns (reply: Reply)
      requires Spool.Keyed(store.files) && H.Inv(hosts.View()) && H.Agrees(hosts.View())
      modifies store, killed, hosts, this`signals, this`muxKills
      ensures (View(now, pids), reply) == Lifecycle.HandleKill(cfg, old(View(now, pids)), id, who)
      ensures H.Inv(hosts.View())
      ensures reply != Killed ==>
          signals == old(signals) && muxKills == old(muxKills) && hosts.View() == old(hosts.View())
      ensures reply == Killed ==>
                && id in old(store.files)
                && var rec := old(store.files)[id];
                && signals == old(signals) + (if !rec.remote && rec.pid > 0 then [rec.pid] else [])
                && muxKills == old(muxKills) + (if !rec.remote then [id] else [])
                && id !in hosts.hosts
                && (id in old(hosts.hosts) ==>
                      var h := old(hosts.hosts)[id];
                      && h < |hosts.heap| && hosts.heap[h].closed && |hosts.viewers| == |old(hosts.viewers)|
                      && forall v :: 0 <= v < |hosts.viewers| && v in old(hosts.heap)[h].viewers ==>
                          hosts.viewers[v].closes == 1)
    {
      var found := LiveRecord(id, now, pids);
      if found.NotFound? {
        return NoSession;
      }
      var rec := found.rec;
      var acl := if rec.id in access.sessions then access.sessions[rec.id] else A.NO_ACL;
      if !CanSee(who, acl) {
        return NoSession;
      }
      if !CanManage(who, acl) {
        return NotYours;
      }
      if !rec.remote {
        if rec.pid > 0 {
          signals := signals + [rec.pid];
        }
        muxKills := muxKills + [rec.id];
      }
      killed.Remember([rec.id, rec.room], now);
      if id in hosts.hosts {
        H.RegisteredUnder(hosts.View(), id);
      }
      hosts.Drop(rec.id);
      rec := rec.(status := Spool.Ended);
      var ok := store.Save(rec, now);
      return Killed;
    }

    /** The set of ids the listing prunes against. */
    method IdsOf(recs: seq<Spool.Record>) returns (live: set<string>)
      requires Spool.Lists(recs, store.files)
      ensures live == store.files.Keys
    {
      live := {};
      for i := 0 to |recs|
        invariant live == set k | 0 <= k < i :: recs[k].id
      {
        live := live + {recs[i].id};
      }
      forall id | id in store.files ensures id in live { assert Spool.Names(recs, id); }
    }

    method VisibleTo(who: Caller, recs: seq<Spool.Record>) returns (visible: seq<Spool.Record>)
      requires Spool.NewestFirst(recs)
      ensures Spool.NewestFirst(visible)
      ensures forall r :: r in visible <==> r in recs && Shown(who, A.ACL(access.View(), r.id))
    {
      visible := [];
      for i := 0 to |recs|
        invariant Spool.NewestFirst(visible)
        invariant forall r :: r in visible <==> r in recs[..i] && Shown(who, A.ACL(access.View(), r.id))
      {
        var acl := if recs[i].id in access.sessions then access.sessions[recs[i].id] else A.NO_ACL;
        assert recs[..i + 1] == recs[..i] + [recs[i]];
        if !CanSee(who, acl) {
          continue;
        }
        visible := visible + [recs[i]];
      }
      assert recs[..|recs|] == recs;
    }

    /** views, up to what it shows: prune the records, then the lists of sessions gone. */
    method Views(who: Caller, now: nat, pids: set<int>) returns (visible: seq<Spool.Record>)
      requires Spool.Keyed(store.files)
      modifies store, access
      ensures View(now, pids) == HandleList(cfg, old(View(now, pids)))
      ensures Spool.NewestFirst(visible)
      ensures forall r :: r in visible <==> Listed(store.files, r) && Shown(who, A.ACL(access.View(), r.id))
    {
      var recs := store.LiveRecords(now, pids, cfg.keepEnded);
      var live := IdsOf(recs);
      access.Prune(live, ACL_GRACE, now);
      visible := VisibleTo(who, recs);
      forall r | Listed(store.files, r) ensures r in recs { assert Spool.Names(recs, r.id); }
    }
  }

  function Reclaimed(id: string, req: Request, existing: Spool.Loaded, now: nat): Spool.Record
    requires req.Register?
  {
    var started := if existing.Found? && existing.rec.startedAt != 0 then existing.rec.startedAt else now;
    Spool.Record(id, req.room, true, 0, Spool.Starting, started, now, req.info)
  }

  predicate Listed(files: Spool.Files, r: Spool.Record) {
    r.id in files && files[r.id] == r
  }
}
