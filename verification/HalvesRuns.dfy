/** Runs of interleaved handlers from an empty dashboard: whole requests are such runs, and
    so are the ones that undo a kill or overfill the store. */
module HalvesRuns {
  import opened Lifecycle
  import opened Halves
  import opened HalvesLimit
  import Spool
  import T = Tombstones
  import A = Access

  /** A run from an empty dashboard, never with more than n handlers under way, and with
      records made by registrations only, leads to this world with these tasks held. */
  ghost predicate Reachable(idOf: string -> string, cfg: Config, n: nat, w: World, held: seq<Task>) {
    exists terms :: Leads(idOf, cfg, n, State(w, terms, held))
  }

  ghost predicate Leads(idOf: string -> string, cfg: Config, n: nat, s: State) {
    exists es :: Fits(idOf, cfg, n, es) && Interleave(idOf, cfg, INIT, es) == s
  }

  ghost predicate Fits(idOf: string -> string, cfg: Config, n: nat, es: seq<Event>) {
    && AllSaneEvents(idOf, es)
    && AtMost(idOf, cfg, INIT, es, n)
    && forall k :: 0 <= k < |es| ==> Remote(es[k])
  }

  lemma Boots(idOf: string -> string, cfg: Config, n: nat)
    ensures Reachable(idOf, cfg, n, Boot(1), [])
  {
    assert Interleave(idOf, cfg, INIT, []) == INIT && Fits(idOf, cfg, n, []);
    assert Leads(idOf, cfg, n, State(Boot(1), {}, []));
  }

  lemma LeadsOn(idOf: string -> string, cfg: Config, n: nat, s: State, e: Event)
    requires Leads(idOf, cfg, n, s) && SaneEvent(idOf, e) && Remote(e)
    requires |Step(idOf, cfg, s, e).held| <= n
    ensures Leads(idOf, cfg, n, Step(idOf, cfg, s, e))
  {
    var es :| Fits(idOf, cfg, n, es) && Interleave(idOf, cfg, INIT, es) == s;
    RunSnoc(idOf, cfg, INIT, es, e);
    assert (es + [e])[..|es|] == es;
    assert Fits(idOf, cfg, n, es + [e]);
  }

  lemma Begins(idOf: string -> string, cfg: Config, n: nat, w: World, held: seq<Task>, req: Request)
    requires Reachable(idOf, cfg, n, w, held) && Sane(idOf, req) && !req.LocalSave? && |held| < n
    ensures var (u, half) := Start(idOf, cfg, w, req);
            Reachable(idOf, cfg, n, u, held + Pending(half))
  {
    var terms :| Leads(idOf, cfg, n, State(w, terms, held));
    LeadsOn(idOf, cfg, n, State(w, terms, held), Starts(req));
  }

  lemma GoesOn(idOf: string -> string, cfg: Config, n: nat, w: World, held: seq<Task>, i: nat)
    requires Reachable(idOf, cfg, n, w, held) && i < |held|
    ensures var (u, half) := Continue(idOf, cfg, w, held[i]);
            Reachable(idOf, cfg, n, u, held[..i] + Pending(half) + held[i + 1..])
  {
    var terms :| Leads(idOf, cfg, n, State(w, terms, held));
    var s := State(w, terms, held);
    HeldWithin(idOf, cfg, n, s);
    LeadsOn(idOf, cfg, n, s, Goes(i));
    var t := Step(idOf, cfg, s, Goes(i));
    assert Leads(idOf, cfg, n, State(t.w, t.terms, t.held));
  }

  lemma HeldWithin(idOf: string -> string, cfg: Config, n: nat, s: State)
    requires Leads(idOf, cfg, n, s)
    ensures |s.held| <= n
  {
    var es :| Fits(idOf, cfg, n, es) && Interleave(idOf, cfg, INIT, es) == s;
  }

  lemma LastGoesOn(idOf: string -> string, cfg: Config, n: nat, w: World, held: seq<Task>, task: Task)
    requires Reachable(idOf, cfg, n, w, held + [task])
    ensures var (u, half) := Continue(idOf, cfg, w, task);
            Reachable(idOf, cfg, n, u, held + Pending(half))
  {
    var all, half := held + [task], Continue(idOf, cfg, w, task).1;
    GoesOn(idOf, cfg, n, w, all, |held|);
    assert all[..|held|] == held && all[|held| + 1..] == [];
    assert held + Pending(half) + [] == held + Pending(half);
  }

  lemma {:induction false} Finishes(
    idOf: string -> string, cfg: Config, n: nat, w: World, held: seq<Task>, half: Half)
    requires Reachable(idOf, cfg, n, w, held + Pending(half))
    ensures Reachable(idOf, cfg, n, Finish(idOf, cfg, w, half).0, held)
    decreases Rank(half)
  {
    if half.Holding? {
      var (u, next) := Continue(idOf, cfg, w, half.task);
      LastGoesOn(idOf, cfg, n, w, held, half.task);
      ContinueDescends(idOf, cfg, w, half.task);
      Finishes(idOf, cfg, n, u, held, next);
    } else {
      assert held + Pending(half) == held;
    }
  }

  /** Every run of whole requests is a run of their parts, even while others are waiting. */
  lemma Whole(idOf: string -> string, cfg: Config, n: nat, w: World, held: seq<Task>, req: Request)
    requires Reachable(idOf, cfg, n, w, held) && Sane(idOf, req) && !req.LocalSave? && |held| < n
    ensures Reachable(idOf, cfg, n, Handle(idOf, cfg, w, req).0, held)
  {
    Begins(idOf, cfg, n, w, held, req);
    HalvesMakeAWhole(idOf, cfg, w, req);
    var (u, half) := Start(idOf, cfg, w, req);
    Finishes(idOf, cfg, n, u, held, half);
  }

  // ---- a kill undone ---------------------------------------------------------------

  function Announce(room: string, minted: string): Request {
    Register(room, true, true, minted, "", [])
  }

  const ADMIN := Caller(true, [])

  function Fresh(id: string, room: string, at: nat): Spool.Record {
    Spool.Record(id, room, true, 0, Spool.Starting, at, at, [])
  }

  /** One live session. */
  function One(id: string, room: string): World {
    Boot(1).(files := map[id := Fresh(id, room, 1)])
  }

  lemma OneRegisters(idOf: string -> string, cfg: Config, n: nat, room: string, minted: string)
    requires Hash(idOf) && Minted(idOf, minted) && room != "" && n > 0
    ensures Reachable(idOf, cfg, n, One(idOf(room), room), [])
  {
    Boots(idOf, cfg, n);
    Whole(idOf, cfg, n, Boot(1), [], Announce(room, minted));
    assert LiveNow(cfg, Boot(1)) == map[];
    assert Handle(idOf, cfg, Boot(1), Announce(room, minted)).0 == One(idOf(room), room);
  }

  /** The session was killed, its tombstones are fresh, and it is running. */
  ghost predicate Undone(w: World, id: string, room: string) {
    && id in w.files && w.files[id].remote && w.files[id].status != Spool.Ended
    && Tomb(w, id, w.now) && Tomb(w, room, w.now)
  }

  lemma OneIsKilled(idOf: string -> string, cfg: Config, id: string, room: string)
    requires id != "" && room != ""
    ensures var w := Handle(idOf, cfg, One(id, room), Kill(id, ADMIN)).0;
            && w.files == map[id := Fresh(id, room, 1).(status := Spool.Ended)]
            && w.now == 1 && Tomb(w, id, 1) && Tomb(w, room, 1)
  {
    var one := One(id, room);
    assert LiveNow(cfg, one) == one.files;
    T.MarkSets(T.Unexpired(one.seen, 1), [id, room], 1, id);
    T.MarkSets(T.Unexpired(one.seen, 1), [id, room], 1, room);
  }

  /** What was begun before the kill: a heartbeat that has loaded the record, or a
      registration that has passed its check. */
  function Begun(id: string, room: string, minted: string, beat: bool): (Request, Task) {
    if beat then (Heartbeat(id, true), Beating(Fresh(id, room, 1), true))
    else (Announce(room, minted), Checked(room, minted, "", []))
  }

  lemma BegunStarts(idOf: string -> string, cfg: Config, room: string, minted: string, beat: bool)
    requires room != ""
    ensures var (req, task) := Begun(idOf(room), room, minted, beat);
            Start(idOf, cfg, One(idOf(room), room), req) == (One(idOf(room), room), Holding(task))
  {
  }

  lemma SaveUndoes(idOf: string -> string, cfg: Config, w: World, room: string, minted: string, beat: bool)
    requires room != "" && idOf(room) != ""
    requires w.files == map[idOf(room) := Fresh(idOf(room), room, 1).(status := Spool.Ended)]
    requires w.now == 1 && Tomb(w, idOf(room), 1) && Tomb(w, room, 1)
    ensures Undone(Finish(idOf, cfg, w, Holding(Begun(idOf(room), room, minted, beat).1)).0, idOf(room), room)
  {
    if beat {
      var saved := w.(files := Spool.Saved(w.files, Fresh(idOf(room), room, 1), w.now));
      assert Continue(idOf, cfg, w, Beating(Fresh(idOf(room), room, 1), true)) == (saved, Answered(Beat(false)));
      assert Finish(idOf, cfg, saved, Answered(Beat(false))) == (saved, Beat(false));
    } else {
      var rec := NewRecord(w, idOf(room), room, []);
      assert Continue(idOf, cfg, w, Checked(room, minted, "", [])) == (w, Holding(Admitted(rec, "")));
      AdmittedFinishes(idOf, cfg, w, rec, "");
    }
  }

  /** With a heartbeat or a registration begun before it, a kill from beginning to end is
      undone by the save that follows. Two handlers at a time are enough. */
  lemma KillCanBeUndone(idOf: string -> string, cfg: Config, room: string, minted: string, beat: bool)
    requires Hash(idOf) && Minted(idOf, minted) && room != ""
    ensures exists w :: Reachable(idOf, cfg, 2, w, []) && Undone(w, idOf(room), room)
  {
    var id := idOf(room);
    var (req, task) := Begun(id, room, minted, beat);
    OneRegisters(idOf, cfg, 2, room, minted);
    Begins(idOf, cfg, 2, One(id, room), [], req);
    BegunStarts(idOf, cfg, room, minted, beat);
    assert [] + Pending(Holding(task)) == [task];
    Whole(idOf, cfg, 2, One(id, room), [task], Kill(id, ADMIN));
    OneIsKilled(idOf, cfg, id, room);
    var killed := Handle(idOf, cfg, One(id, room), Kill(id, ADMIN)).0;
    Finishes(idOf, cfg, 2, killed, [], Holding(task));
    SaveUndoes(idOf, cfg, killed, room, minted, beat);
  }

  // ---- a limit overshot ------------------------------------------------------------

  /** Rooms that are all different. */
  function RoomOf(k: nat): string {
    seq(k + 1, i => 'r')
  }

  lemma RoomsDiffer(idOf: string -> string, j: nat, k: nat)
    requires Hash(idOf) && j != k
    ensures idOf(RoomOf(j)) != idOf(RoomOf(k))
  {
    assert |RoomOf(j)| != |RoomOf(k)|;
  }

  function Arrival(k: nat, minted: string): Task {
    Checked(RoomOf(k), minted, "", [])
  }

  function Entry(idOf: string -> string, k: nat): Task {
    Admitted(Fresh(idOf(RoomOf(k)), RoomOf(k), 1), "")
  }

  /** The first `counted` of n registrations have been counted, the others not yet. */
  function Crowd(idOf: string -> string, n: nat, counted: nat, minted: string): seq<Task> {
    seq(n, k requires 0 <= k < n => if k < counted then Entry(idOf, k) else Arrival(k, minted))
  }

  lemma CrowdGrows(idOf: string -> string, cfg: Config, k: nat, minted: string)
    ensures var (w, half) := Start(idOf, cfg, Boot(1), Announce(RoomOf(k), minted));
            w == Boot(1) && Crowd(idOf, k, 0, minted) + Pending(half) == Crowd(idOf, k + 1, 0, minted)
  {
    var half := Start(idOf, cfg, Boot(1), Announce(RoomOf(k), minted)).1;
    assert half == Holding(Arrival(k, minted));
  }

  lemma {:induction false} AllArrive(idOf: string -> string, cfg: Config, n: nat, k: nat, minted: string)
    requires Hash(idOf) && Minted(idOf, minted) && k <= n
    ensures Reachable(idOf, cfg, n, Boot(1), Crowd(idOf, k, 0, minted))
  {
    if k == 0 {
      Boots(idOf, cfg, n);
      assert Crowd(idOf, 0, 0, minted) == [];
    } else {
      AllArrive(idOf, cfg, n, k - 1, minted);
      Begins(idOf, cfg, n, Boot(1), Crowd(idOf, k - 1, 0, minted), Announce(RoomOf(k - 1), minted));
      CrowdGrows(idOf, cfg, k - 1, minted);
    }
  }

  lemma EmptyCounts(idOf: string -> string, cfg: Config, k: nat, minted: string)
    requires cfg.maxSessions > 0
    ensures var counting := Counting(Entry(idOf, k).rec, "");
            && Continue(idOf, cfg, Boot(1), Arrival(k, minted)) == (Boot(1), Holding(counting))
            && Continue(idOf, cfg, Boot(1), counting) == (Boot(1), Holding(Entry(idOf, k)))
  {
    assert LiveNow(cfg, Boot(1)) == map[];
  }

  lemma PutBack(held: seq<Task>, i: nat, task: Task)
    requires i < |held|
    ensures held[..i] + Pending(Holding(task)) + held[i + 1..] == held[i := task]
  {
  }

  lemma GoesOnIn(idOf: string -> string, cfg: Config, n: nat, w: World, held: seq<Task>, i: nat, next: Task)
    requires Reachable(idOf, cfg, n, w, held) && i < |held|
    requires Continue(idOf, cfg, w, held[i]) == (w, Holding(next))
    ensures Reachable(idOf, cfg, n, w, held[i := next])
  {
    GoesOn(idOf, cfg, n, w, held, i);
    PutBack(held, i, next);
  }

  /** Two steps of one task, in its place among the others. */
  lemma GoesTwice(
    idOf: string -> string, cfg: Config, n: nat, w: World, held: seq<Task>, i: nat, next: Task, last: Task)
    requires Reachable(idOf, cfg, n, w, held) && i < |held|
    requires Continue(idOf, cfg, w, held[i]) == (w, Holding(next))
    requires Continue(idOf, cfg, w, next) == (w, Holding(last))
    ensures Reachable(idOf, cfg, n, w, held[i := last])
  {
    GoesOnIn(idOf, cfg, n, w, held, i, next);
    GoesOnIn(idOf, cfg, n, w, held[i := next], i, last);
    assert held[i := next][i := last] == held[i := last];
  }

  lemma CrowdMoves(idOf: string -> string, n: nat, k: nat, minted: string)
    requires 0 < k <= n
    ensures |Crowd(idOf, n, k - 1, minted)| == n && Crowd(idOf, n, k - 1, minted)[k - 1] == Arrival(k - 1, minted)
    ensures Crowd(idOf, n, k - 1, minted)[k - 1 := Entry(idOf, k - 1)] == Crowd(idOf, n, k, minted)
  {
  }

  /** Each finds the store empty. */
  lemma {:induction false} AllAreCounted(idOf: string -> string, cfg: Config, n: nat, k: nat, minted: string)
    requires Hash(idOf) && Minted(idOf, minted) && k <= n && cfg.maxSessions > 0
    ensures Reachable(idOf, cfg, n, Boot(1), Crowd(idOf, n, k, minted))
  {
    if k == 0 {
      AllArrive(idOf, cfg, n, n, minted);
    } else {
      var held, entry := Crowd(idOf, n, k - 1, minted), Entry(idOf, k - 1);
      AllAreCounted(idOf, cfg, n, k - 1, minted);
      EmptyCounts(idOf, cfg, k - 1, minted);
      CrowdMoves(idOf, n, k, minted);
      GoesTwice(idOf, cfg, n, Boot(1), held, k - 1, Counting(entry.rec, ""), entry);
    }
  }

  /** The first k have saved their records. */
  function Filled(idOf: string -> string, k: nat): World {
    if k == 0 then Boot(1) else SavedWith(Filled(idOf, k - 1), Entry(idOf, k - 1).rec)
  }

  function SavedWith(w: World, rec: Spool.Record): World {
    w.(files := w.files[rec.id := rec])
  }

  lemma {:induction false} FilledWithout(idOf: string -> string, k: nat, j: nat)
    requires Hash(idOf) && k <= j
    ensures idOf(RoomOf(j)) !in Filled(idOf, k).files && Filled(idOf, k).now == 1
  {
    if k > 0 {
      FilledWithout(idOf, k - 1, j);
      RoomsDiffer(idOf, j, k - 1);
    }
  }

  lemma {:induction false} FilledSize(idOf: string -> string, k: nat)
    requires Hash(idOf)
    ensures |Filled(idOf, k).files| == k
  {
    if k > 0 {
      FilledSize(idOf, k - 1);
      FilledWithout(idOf, k - 1, k - 1);
      GrowsByOne(Filled(idOf, k - 1), Entry(idOf, k - 1).rec);
    }
  }

  lemma GrowsByOne(w: World, rec: Spool.Record)
    requires rec.id !in w.files
    ensures |SavedWith(w, rec).files| == |w.files| + 1
  {
    assert SavedWith(w, rec).files.Keys == w.files.Keys + {rec.id};
  }

  lemma EntrySaves(idOf: string -> string, cfg: Config, w: World, k: nat)
    requires Hash(idOf) && w.now == 1
    ensures Continue(idOf, cfg, w, Entry(idOf, k)) ==
            (SavedWith(w, Entry(idOf, k).rec), Answered(Created(idOf(RoomOf(k)))))
  {
  }

  lemma {:induction false} AllSave(idOf: string -> string, cfg: Config, n: nat, k: nat, minted: string)
    requires Hash(idOf) && Minted(idOf, minted) && k <= n && cfg.maxSessions > 0
    ensures Reachable(idOf, cfg, n, Filled(idOf, k), Crowd(idOf, n, n, minted)[k..])
  {
    var all := Crowd(idOf, n, n, minted);
    if k == 0 {
      AllAreCounted(idOf, cfg, n, n, minted);
      assert all[0..] == all;
    } else {
      AllSave(idOf, cfg, n, k - 1, minted);
      FilledWithout(idOf, k - 1, k);
      EntrySaves(idOf, cfg, Filled(idOf, k - 1), k - 1);
      FirstIsDone(idOf, cfg, n, Filled(idOf, k - 1), all[k - 1..], Filled(idOf, k), Created(idOf(RoomOf(k - 1))));
      assert all[k - 1..][1..] == all[k..];
    }
  }

  lemma WithoutFirst(held: seq<Task>, reply: Reply)
    requires held != []
    ensures held[..0] + Pending(Answered(reply)) + held[1..] == held[1..]
  {
  }

  lemma FirstIsDone(
    idOf: string -> string, cfg: Config, n: nat, w: World, held: seq<Task>, u: World, reply: Reply)
    requires Reachable(idOf, cfg, n, w, held) && held != []
    requires Continue(idOf, cfg, w, held[0]) == (u, Answered(reply))
    ensures Reachable(idOf, cfg, n, u, held[1..])
  {
    GoesOn(idOf, cfg, n, w, held, 0);
    WithoutFirst(held, reply);
  }

  /** The bound on the overshoot is reached: with a limit of one, n handlers at a time can
      leave n records, for every n. */
  lemma OvershootIsReached(idOf: string -> string, cfg: Config, n: nat, minted: string)
    requires Hash(idOf) && Minted(idOf, minted) && cfg.maxSessions == 1
    ensures exists w :: Reachable(idOf, cfg, n, w, []) && |w.files| == cfg.maxSessions + n - 1
  {
    AllSave(idOf, cfg, n, n, minted);
    FilledSize(idOf, n);
    assert Crowd(idOf, n, n, minted)[n..] == [];
  }

  // ---- the two other ways to overshoot ---------------------------------------------

  /** A heartbeat or a kill holds the record of the only session while that goes stale. */
  function Late(id: string, room: string, kill: bool): (Request, Task) {
    if kill then (Kill(id, ADMIN), Chosen(Fresh(id, room, 1)))
    else (Heartbeat(id, true), Beating(Fresh(id, room, 1), true))
  }

  lemma LateStarts(idOf: string -> string, cfg: Config, id: string, room: string, kill: bool)
    ensures var (req, task) := Late(id, room, kill);
            Start(idOf, cfg, One(id, room), req) == (One(id, room), Holding(task))
  {
    assert LiveNow(cfg, One(id, room)) == One(id, room).files;
  }

  /** A second session is let in where the stale one was. */
  lemma SecondIsLetIn(idOf: string -> string, cfg: Config, w: World, other: string, minted: string)
    requires cfg.maxSessions == 1 && other != "" && idOf(other) != "" && w.seen == map[] && LiveNow(cfg, w) == map[]
    requires idOf(other) !in w.files
    ensures Handle(idOf, cfg, w, Announce(other, minted)).0.files ==
        map[idOf(other) := Fresh(idOf(other), other, w.now)]
    ensures Handle(idOf, cfg, w, Announce(other, minted)).0.now == w.now
  {
  }

  lemma LateAdds(idOf: string -> string, cfg: Config, w: World, id: string, room: string, kill: bool)
    requires id != "" && id !in w.files
    ensures |Finish(idOf, cfg, w, Holding(Late(id, room, kill).1)).0.files| == |w.files| + 1
  {
    var rec := Fresh(id, room, 1);
    SavedKeys(w.files, rec, w.now);
    SavedKeys(w.files, rec.(status := Spool.Ended), w.now);
    if kill {
      KillFinishes(idOf, cfg, w, rec);
    } else {
      var saved := w.(files := Spool.Saved(w.files, rec, w.now));
      assert Continue(idOf, cfg, w, Beating(rec, true)) == (saved, Answered(Beat(false)));
      assert Finish(idOf, cfg, saved, Answered(Beat(false))) == (saved, Beat(false));
    }
  }

  /** A session goes stale under a task that has its record in hand. */
  lemma GoesStale(idOf: string -> string, cfg: Config, room: string, minted: string, kill: bool)
    requires Hash(idOf) && Minted(idOf, minted) && room != ""
    ensures var stale := One(idOf(room), room).(now := 1 + Spool.REMOTE_TTL);
            && Reachable(idOf, cfg, 2, stale, [Late(idOf(room), room, kill).1])
            && LiveNow(cfg, stale) == map[]
  {
    var one := One(idOf(room), room);
    var (req, task) := Late(idOf(room), room, kill);
    OneRegisters(idOf, cfg, 2, room, minted);
    Begins(idOf, cfg, 2, one, [], req);
    LateStarts(idOf, cfg, idOf(room), room, kill);
    assert [] + Pending(Holding(task)) == [task];
    Whole(idOf, cfg, 2, one, [task], Tick(Spool.REMOTE_TTL));
  }

  /** With a limit of one: a session goes stale under a heartbeat, or a kill, that has its
      record in hand, another takes its place, and the save leaves two. */
  lemma LateSaveOverfills(idOf: string -> string, cfg: Config, minted: string, kill: bool)
    requires Hash(idOf) && Minted(idOf, minted) && cfg.maxSessions == 1
    ensures exists w :: Reachable(idOf, cfg, 2, w, []) && |w.files| == 2
  {
    var room, other := RoomOf(0), RoomOf(1);
    var task, stale := Late(idOf(room), room, kill).1, One(idOf(room), room).(now := 1 + Spool.REMOTE_TTL);
    RoomsDiffer(idOf, 0, 1);
    GoesStale(idOf, cfg, room, minted, kill);
    Whole(idOf, cfg, 2, stale, [task], Announce(other, minted));
    SecondIsLetIn(idOf, cfg, stale, other, minted);
    var full := Handle(idOf, cfg, stale, Announce(other, minted)).0;
    assert [] + Pending(Holding(task)) == [task];
    Finishes(idOf, cfg, 2, full, [], Holding(task));
    LateAdds(idOf, cfg, full, idOf(room), room, kill);
  }

  // ---- a return unshared -----------------------------------------------------------

  const OWNER := "o"

  /** A session whose wrapper has a key, long after its record was pruned. */
  function LongGone(id: string, listed: nat): World {
    Boot(1).(now := listed, access := A.State(map[], map[id := A.Session(OWNER, [], 1)]))
  }

  lemma OwnedAndGone(idOf: string -> string, cfg: Config, room: string, minted: string)
    requires Hash(idOf) && Minted(idOf, minted) && room != ""
    ensures Reachable(idOf, cfg, 2, LongGone(idOf(room), 1 + ACL_GRACE), [Listing({})])
  {
    var id, req := idOf(room), Register(room, true, true, minted, OWNER, []);
    Boots(idOf, cfg, 2);
    Whole(idOf, cfg, 2, Boot(1), [], req);
    var shared := Handle(idOf, cfg, Boot(1), req).0;
    assert LiveNow(cfg, Boot(1)) == map[];
    assert A.Key(OWNER) == OWNER by { assert A.Trim(OWNER) == OWNER; }
    assert shared.access == A.State(map[], map[id := A.Session(OWNER, [], 1)]);
    assert shared.files == map[id := Fresh(id, room, 1)] && shared.seen == map[];
    Whole(idOf, cfg, 2, shared, [], Tick(ACL_GRACE));
    var late := Handle(idOf, cfg, shared, Tick(ACL_GRACE)).0;
    assert LiveNow(cfg, late) == map[];
    Begins(idOf, cfg, 2, late, [], List);
    assert Start(idOf, cfg, late, List).0 == LongGone(id, 1 + ACL_GRACE);
    assert [] + Pending(Holding(Listing({}))) == [Listing({})];
  }

  /** A session that returns while a listing is under way can lose its owner and members to
      it, live as it is: the listing prunes by the live sessions it found before. */
  lemma ReturnCanLoseSharing(idOf: string -> string, cfg: Config, room: string, minted: string)
    requires Hash(idOf) && Minted(idOf, minted) && room != ""
    ensures exists w :: Reachable(idOf, cfg, 2, w, [Listing({})]) && LosesSharing(idOf, cfg, w, idOf(room))
  {
    var id, gone := idOf(room), LongGone(idOf(room), 1 + ACL_GRACE);
    OwnedAndGone(idOf, cfg, room, minted);
    Whole(idOf, cfg, 2, gone, [Listing({})], Announce(room, minted));
    assert LiveNow(cfg, gone) == map[];
    var back := Handle(idOf, cfg, gone, Announce(room, minted)).0;
    assert back.files == map[id := Fresh(id, room, 1 + ACL_GRACE)] && back.access == gone.access;
    assert LosesSharing(idOf, cfg, back, id);
  }

  /** The session is live before and after a prune that leaves it without an owner. */
  ghost predicate LosesSharing(idOf: string -> string, cfg: Config, w: World, id: string) {
    var u := Continue(idOf, cfg, w, Listing({})).0;
    && id in LiveNow(cfg, w) && id in w.access.sessions && w.access.sessions[id].owner != ""
    && id in LiveNow(cfg, u) && id !in u.access.sessions
  }
}
