/** The session limit when handlers interleave: exactly when a step breaks it, and by how
    much any run can. */
module HalvesLimit {
  import opened Lifecycle
  import opened Halves
  import Spool
  import T = Tombstones

  /** The record that the next step of this task saves. */
  predicate Saves(task: Task) {
    (task.Beating? && task.readable) || task.Admitted? || task.Dropped?
  }

  /** The save of an absent record into a store that is full. */
  predicate Overfills(cfg: Config, s: State, e: Event) {
    && e.Goes? && e.i < |s.held| && Saves(s.held[e.i])
    && s.held[e.i].rec.id !in s.w.files && |s.w.files| >= cfg.maxSessions
  }

  predicate Within(cfg: Config, s: State) {
    |s.w.files| <= cfg.maxSessions
  }

  /** Records are made by registrations only. */
  predicate Remote(e: Event) {
    !(e.Starts? && e.req.LocalSave?)
  }

  lemma SavedKeys(files: Spool.Files, r: Spool.Record, now: nat)
    requires r.id != ""
    ensures Spool.Saved(files, r, now).Keys == files.Keys + {r.id}
    ensures |Spool.Saved(files, r, now)| == |files| + (if r.id in files then 0 else 1)
  {
    assert Spool.Saved(files, r, now).Keys == files.Keys + {r.id};
  }

  lemma StartWithin(idOf: string -> string, cfg: Config, w: World, req: Request)
    requires Hash(idOf) && Inv(idOf, w)
    requires cfg.maxSessions > 0 && |w.files| <= cfg.maxSessions && !req.LocalSave?
    ensures |Start(idOf, cfg, w, req).0.files| <= cfg.maxSessions
  {
    StepLimits(idOf, cfg, w, req);
    LiveIsFewer(w.files, w.now, w.pids, cfg.keepEnded);
  }

  lemma ContinueWithin(idOf: string -> string, cfg: Config, w: World, task: Task)
    requires TaskOk(idOf, cfg, w, task) && |w.files| <= cfg.maxSessions
    ensures |Continue(idOf, cfg, w, task).0.files| <= cfg.maxSessions
            <==> !(Saves(task) && task.rec.id !in w.files && |w.files| >= cfg.maxSessions)
  {
    LiveIsFewer(w.files, w.now, w.pids, cfg.keepEnded);
    match task
    case Beating(rec, _) => SavedKeys(w.files, rec, w.now);
    case Admitted(rec, _) => SavedKeys(w.files, rec, w.now);
    case Dropped(rec, _) => SavedKeys(w.files, rec.(status := Spool.Ended), w.now);
    case _ =>
  }

  /** A step keeps the store within its limit exactly if it is not such a save. */
  lemma WithinExactly(idOf: string -> string, cfg: Config, s: State, e: Event)
    requires Hash(idOf) && Ok(idOf, cfg, s) && cfg.maxSessions > 0 && Within(cfg, s) && Remote(e)
    ensures Within(cfg, Step(idOf, cfg, s, e)) <==> !Overfills(cfg, s, e)
  {
    match e
    case Starts(req) => StartWithin(idOf, cfg, s.w, req);
    case Offers(id, who) => LiveIsFewer(s.w.files, s.w.now, s.w.pids, cfg.keepEnded);
    case Goes(i) => if i < |s.held| { ContinueWithin(idOf, cfg, s.w, s.held[i]); }
    case Hangs(id) =>
    case Sweeps(id) => Subsets((s.w.files - {id}).Keys, s.w.files.Keys);
  }

  ghost predicate NoneOverfills(idOf: string -> string, cfg: Config, s: State, es: seq<Event>) {
    es == [] ||
    var init := es[..|es| - 1];
    NoneOverfills(idOf, cfg, s, init) && !Overfills(cfg, Interleave(idOf, cfg, s, init), es[|es| - 1])
  }

  ghost predicate WithinThroughout(idOf: string -> string, cfg: Config, s: State, es: seq<Event>) {
    && Within(cfg, Interleave(idOf, cfg, s, es))
    && (es != [] ==> WithinThroughout(idOf, cfg, s, es[..|es| - 1]))
  }

  /** In every run the store stays within its limit throughout exactly if no save
      overfills it. */
  lemma {:induction false} WithinThroughoutExactly(idOf: string -> string, cfg: Config, s: State, es: seq<Event>)
    requires Hash(idOf) && Ok(idOf, cfg, s) && AllSaneEvents(idOf, es)
    requires cfg.maxSessions > 0 && Within(cfg, s) && forall k :: 0 <= k < |es| ==> Remote(es[k])
    ensures WithinThroughout(idOf, cfg, s, es) <==> NoneOverfills(idOf, cfg, s, es)
  {
    if es != [] {
      var init, e := es[..|es| - 1], es[|es| - 1];
      WithinThroughoutExactly(idOf, cfg, s, init);
      if WithinThroughout(idOf, cfg, s, init) {
        RunOk(idOf, cfg, s, init);
        WithinExactly(idOf, cfg, Interleave(idOf, cfg, s, init), e);
      }
    }
  }

  // ---- by how much -----------------------------------------------------------------

  /** This task holds a record it may save. */
  predicate Keeps(task: Task) {
    task.Beating? || task.Admitted? || task.Chosen? || task.Marked? || task.Dropped?
  }

  function Own(task: Task): set<string> {
    if Keeps(task) then {task.rec.id} else {}
  }

  function OwnOf(half: Half): set<string> {
    if half.Holding? then Own(half.task) else {}
  }

  function Kept(held: seq<Task>): set<string> {
    if held == [] then {} else Kept(held[..|held| - 1]) + Own(held[|held| - 1])
  }

  /** The ids of the records that are in the store or may come back to it. */
  function Reserved(s: State): set<string> {
    s.w.files.Keys + Kept(s.held)
  }

  lemma {:induction false} KeptIsFewer(held: seq<Task>)
    ensures |Kept(held)| <= |held|
  {
    if held != [] { KeptIsFewer(held[..|held| - 1]); }
  }

  lemma {:induction false} KeptOf(a: seq<Task>, b: seq<Task>)
    ensures Kept(a + b) == Kept(a) + Kept(b)
  {
    if b == [] {
      assert a + b == a;
    } else {
      assert (a + b)[..|a + b| - 1] == a + b[..|b| - 1];
      KeptOf(a, b[..|b| - 1]);
    }
  }

  lemma KeptPending(half: Half)
    ensures Kept(Pending(half)) == OwnOf(half)
  {
    if half.Holding? {
      assert Pending(half)[..0] == [];
    }
  }

  lemma KeptMiddle(a: seq<Task>, half: Half, b: seq<Task>)
    ensures Kept(a + Pending(half) + b) == Kept(a + b) + OwnOf(half)
  {
    KeptOf(a, b);
    KeptOf(a + Pending(half), b);
    KeptOf(a, Pending(half));
    KeptPending(half);
  }

  lemma KeptAround(held: seq<Task>, i: nat, half: Half)
    requires i < |held|
    ensures var others := held[..i] + held[i + 1..];
            && Kept(held) == Kept(others) + Own(held[i])
            && Kept(held[..i] + Pending(half) + held[i + 1..]) == Kept(others) + OwnOf(half)
            && |Kept(others)| <= |held| - 1
  {
    var a, b := held[..i], held[i + 1..];
    KeptMiddle(a, half, b);
    KeptMiddle(a, Holding(held[i]), b);
    assert a + [held[i]] + b == held;
    KeptIsFewer(a + b);
  }

  /** With at most n handlers under way, no more than n - 1 records beyond the limit are in
      the store or on their way to it. */
  predicate Bounded(cfg: Config, s: State, n: nat) {
    |Reserved(s)| <= cfg.maxSessions + n - 1
  }

  lemma StartReserves(idOf: string -> string, cfg: Config, w: World, req: Request)
    requires Inv(idOf, w) && !req.LocalSave?
    ensures var (u, half) := Start(idOf, cfg, w, req);
            u.files.Keys + OwnOf(half) <= w.files.Keys
  {
  }

  lemma OfferReserves(cfg: Config, w: World, id: string, who: Caller)
    ensures var (u, half) := StartOffer(cfg, w, id, who);
            u.files.Keys + OwnOf(half) <= w.files.Keys
  {
  }

  /** What a task that saves puts into the store. */
  function Saving(task: Task): Spool.Record
    requires Saves(task)
  {
    if task.Dropped? then task.rec.(status := Spool.Ended) else task.rec
  }

  lemma SaveSaves(idOf: string -> string, cfg: Config, w: World, task: Task)
    requires Saves(task)
    ensures var (u, half) := Continue(idOf, cfg, w, task);
            && u.files == Spool.Saved(w.files, Saving(task), w.now)
            && OwnOf(half) == {} && Own(task) == {task.rec.id} && Saving(task).id == task.rec.id
  {
  }

  lemma SaveReserves(idOf: string -> string, cfg: Config, w: World, task: Task)
    requires TaskOk(idOf, cfg, w, task) && Saves(task)
    ensures var (u, half) := Continue(idOf, cfg, w, task);
            u.files.Keys == w.files.Keys + Own(task) && OwnOf(half) == {}
  {
    assert task.rec.id != "";
    SaveSaves(idOf, cfg, w, task);
    SavedKeys(w.files, Saving(task), w.now);
  }

  /** A task but for a count reserves nothing new. */
  lemma ContinueReserves(idOf: string -> string, cfg: Config, w: World, task: Task)
    requires TaskOk(idOf, cfg, w, task) && cfg.maxSessions > 0 && !task.Counting?
    ensures var (u, half) := Continue(idOf, cfg, w, task);
            u.files.Keys + OwnOf(half) <= w.files.Keys + Own(task)
  {
    if Saves(task) {
      SaveReserves(idOf, cfg, w, task);
    } else {
      assert Continue(idOf, cfg, w, task).0.files == w.files;
    }
  }

  /** A count lets a session in only when there is room for it in the store. */
  lemma CountReserves(idOf: string -> string, cfg: Config, w: World, task: Task)
    requires task.Counting?
    ensures var (u, half) := Continue(idOf, cfg, w, task);
            && u.files.Keys <= w.files.Keys
            && (half.Holding? ==> |u.files| < cfg.maxSessions && OwnOf(half) == {task.rec.id})
  {
  }

  lemma UnionSize(a: set<string>, b: set<string>)
    ensures |a + b| <= |a| + |b|
  {
    Subsets(b - a, b);
    assert a + b == a + (b - a);
  }

  lemma GoBounded(idOf: string -> string, cfg: Config, s: State, i: nat, n: nat)
    requires Ok(idOf, cfg, s) && cfg.maxSessions > 0 && i < |s.held| <= n && Bounded(cfg, s, n)
    ensures Bounded(cfg, Go(idOf, cfg, s, i), n)
  {
    var task, others := s.held[i], s.held[..i] + s.held[i + 1..];
    var (w, half) := Continue(idOf, cfg, s.w, task);
    KeptAround(s.held, i, half);
    var t := Go(idOf, cfg, s, i);
    assert TaskOk(idOf, cfg, s.w, task);
    assert Reserved(t) == w.files.Keys + OwnOf(half) + Kept(others);
    if task.Counting? {
      CountReserves(idOf, cfg, s.w, task);
      if half.Holding? {
        UnionSize(w.files.Keys, {task.rec.id});
        UnionSize(w.files.Keys + {task.rec.id}, Kept(others));
      } else {
        Subsets(Reserved(t), Reserved(s));
      }
    } else {
      ContinueReserves(idOf, cfg, s.w, task);
      Subsets(Reserved(t), Reserved(s));
    }
  }

  lemma StepBounded(idOf: string -> string, cfg: Config, s: State, e: Event, n: nat)
    requires Ok(idOf, cfg, s) && cfg.maxSessions > 0 && |s.held| <= n && Remote(e) && Bounded(cfg, s, n)
    ensures Bounded(cfg, Step(idOf, cfg, s, e), n)
  {
    var t := Step(idOf, cfg, s, e);
    match e
    case Starts(req) =>
      StartReserves(idOf, cfg, s.w, req);
      KeptOf(s.held, Pending(Start(idOf, cfg, s.w, req).1));
      KeptPending(Start(idOf, cfg, s.w, req).1);
      Subsets(Reserved(t), Reserved(s));
    case Offers(id, who) =>
      OfferReserves(cfg, s.w, id, who);
      KeptOf(s.held, Pending(StartOffer(cfg, s.w, id, who).1));
      KeptPending(StartOffer(cfg, s.w, id, who).1);
      Subsets(Reserved(t), Reserved(s));
    case Goes(i) => if i < |s.held| { GoBounded(idOf, cfg, s, i, n); }
    case _ => Subsets(Reserved(t), Reserved(s));
  }

  /** Never more than n handlers are under way. */
  predicate AtMost(idOf: string -> string, cfg: Config, s: State, es: seq<Event>, n: nat) {
    && |Interleave(idOf, cfg, s, es).held| <= n
    && (es != [] ==> AtMost(idOf, cfg, s, es[..|es| - 1], n))
  }

  lemma {:induction false} RunBounded(idOf: string -> string, cfg: Config, es: seq<Event>, n: nat)
    requires Hash(idOf) && AllSaneEvents(idOf, es) && AtMost(idOf, cfg, INIT, es, n)
    requires cfg.maxSessions > 0 && forall k :: 0 <= k < |es| ==> Remote(es[k])
    ensures Bounded(cfg, Interleave(idOf, cfg, INIT, es), n)
  {
    if es != [] {
      var init, e := es[..|es| - 1], es[|es| - 1];
      RunBounded(idOf, cfg, init, n);
      RunOk(idOf, cfg, INIT, init);
      StepBounded(idOf, cfg, Interleave(idOf, cfg, INIT, init), e, n);
    }
  }

  /** With records made by registrations only and never more than n handlers under way, the
      store never holds more than n - 1 records beyond its limit; with one handler at a time
      it keeps to the limit. */
  lemma OvershootIsBounded(idOf: string -> string, cfg: Config, es: seq<Event>, n: nat)
    requires Hash(idOf) && AllSaneEvents(idOf, es) && n >= 1 && AtMost(idOf, cfg, INIT, es, n)
    requires cfg.maxSessions > 0 && forall k :: 0 <= k < |es| ==> Remote(es[k])
    ensures |Interleave(idOf, cfg, INIT, es).w.files| <= cfg.maxSessions + n - 1
  {
    RunBounded(idOf, cfg, es, n);
    var s := Interleave(idOf, cfg, INIT, es);
    Subsets(s.w.files.Keys, Reserved(s));
  }
}
