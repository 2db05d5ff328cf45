/** The failed-authentication throttle: a fixed window per client, opened by its first
    failure, with expired entries pruned on every query. Times are nanoseconds on a
    monotone clock. */
module FailLimiter {
  import opened Clocks

  datatype Entry = Entry(count: int, reset: int)
  datatype Config = Config(max: int, window: int)

  type Hits = map<string, Entry>

  function Pruned(hits: Hits, now: int): Hits {
    map ip | ip in hits && now <= hits[ip].reset :: hits[ip]
  }

  predicate Exhausted(cfg: Config, hits: Hits, ip: string, now: int) {
    ip in hits && hits[ip].count >= cfg.max && now < hits[ip].reset
  }

  function Failed(cfg: Config, hits: Hits, ip: string, now: int): Hits {
    if ip !in hits || now > hits[ip].reset then hits[ip := Entry(1, now + cfg.window)]
    else hits[ip := hits[ip].(count := hits[ip].count + 1)]
  }

  // ---- runs ------------------------------------------------------------------------

  datatype Op = Fail(at: int, ip: string) | Query(at: int, ip: string)

  function At(op: Op): int {
    op.at
  }

  function Run(cfg: Config, ops: seq<Op>): Hits {
    if ops == [] then map[]
    else
      var hits, op := Run(cfg, ops[..|ops| - 1]), ops[|ops| - 1];
      match op
      case Fail(at, ip) => Failed(cfg, hits, ip, at)
      case Query(at, _) => Pruned(hits, at)
  }

  /** The same run with a table that never forgets. */
  function RunUnpruned(cfg: Config, ops: seq<Op>): Hits {
    if ops == [] then map[]
    else
      var hits, op := RunUnpruned(cfg, ops[..|ops| - 1]), ops[|ops| - 1];
      if op.Fail? then Failed(cfg, hits, op.ip, op.at) else hits
  }

  /** One client's failures, in order. */
  function TimesOf(ops: seq<Op>, ip: string): seq<int> {
    if ops == [] then []
    else
      var times, op := TimesOf(ops[..|ops| - 1], ip), ops[|ops| - 1];
      if op.Fail? && op.ip == ip then times + [op.at] else times
  }

  /** When the window that holds the last failure was opened: by the first failure, then
      by each one that falls after the current window's end. */
  function Opening(cfg: Config, times: seq<int>): int
    requires times != []
  {
    if |times| == 1 then times[0]
    else
      var o, last := Opening(cfg, times[..|times| - 1]), times[|times| - 1];
      if last > o + cfg.window then last else o
  }

  function CountSince(times: seq<int>, from: int): nat {
    if times == [] then 0
    else CountSince(times[..|times| - 1], from) + (if times[|times| - 1] >= from then 1 else 0)
  }

  /** What `blocked` means: the open window is not over and holds at least max failures. */
  predicate Throttled(cfg: Config, times: seq<int>, now: int) {
    times != [] &&
    var o := Opening(cfg, times);
    now < o + cfg.window && CountSince(times, o) >= cfg.max
  }

  ghost predicate Ascending(times: seq<int>) {
    forall i, j :: 0 <= i < j < |times| ==> times[i] <= times[j]
  }

  lemma {:induction false} TimesAscend(ops: seq<Op>, ip: string)
    requires Monotone(ops, At)
    ensures Ascending(TimesOf(ops, ip))
    ensures forall i :: 0 <= i < |TimesOf(ops, ip)| ==> TimesOf(ops, ip)[i] <= ops[|ops| - 1].at
  {
    if ops != [] {
      var init := ops[..|ops| - 1];
      TimesAscend(init, ip);
      if init != [] { assert init[|init| - 1].at <= ops[|ops| - 1].at; }
    }
  }

  lemma {:induction false} NoneSince(times: seq<int>, from: int)
    requires forall i :: 0 <= i < |times| ==> times[i] < from
    ensures CountSince(times, from) == 0
  {
    if times != [] { NoneSince(times[..|times| - 1], from); }
  }

  lemma {:induction false} OpeningBounds(cfg: Config, times: seq<int>)
    requires times != [] && Ascending(times)
    ensures times[0] <= Opening(cfg, times) <= times[|times| - 1]
    ensures cfg.window >= 0 ==> times[|times| - 1] <= Opening(cfg, times) + cfg.window
  {
    if |times| > 1 { OpeningBounds(cfg, times[..|times| - 1]); }
  }

  /** A further failure either joins the open window or opens a new one of its own. */
  lemma OpeningGrows(cfg: Config, times: seq<int>, at: int)
    requires cfg.window >= 0 && times != [] && Ascending(times + [at])
    ensures var o := Opening(cfg, times);
            && Opening(cfg, times + [at]) == (if at > o + cfg.window then at else o)
            && CountSince(times + [at], Opening(cfg, times + [at])) ==
                 (if at > o + cfg.window then 1 else CountSince(times, o) + 1)
  {
    var more := times + [at];
    assert more[..|times|] == times;
    var o := Opening(cfg, times);
    assert Ascending(times) by {
      forall i, j | 0 <= i < j < |times| ensures times[i] <= times[j] { assert more[i] <= more[j]; }
    }
    OpeningBounds(cfg, times);
    if at > o + cfg.window {
      forall i | 0 <= i < |times| ensures times[i] < at { assert i == |times| - 1 || times[i] <= times[|times| - 1]; }
      NoneSince(times, at);
    } else {
      assert more[|times| - 1] <= more[|times|];
    }
  }

  /** What a table knows of one client, given what happened up to `clock`. */
  ghost predicate Tracks(cfg: Config, hits: Hits, ip: string, times: seq<int>, clock: int) {
    if ip in hits then
      times != [] && hits[ip] == Entry(CountSince(times, Opening(cfg, times)), Opening(cfg, times) + cfg.window)
    else
      times != [] ==> clock > Opening(cfg, times) + cfg.window
  }

  lemma FailTracks(cfg: Config, hits: Hits, ip: string, times: seq<int>, clock: int, at: int, who: string)
    requires cfg.window >= 0 && Tracks(cfg, hits, ip, times, clock) && clock <= at
    requires who == ip ==> Ascending(times + [at])
    ensures Tracks(cfg, Failed(cfg, hits, who, at), ip, if who == ip then times + [at] else times, at)
  {
    if who == ip {
      if times == [] {
        assert CountSince([at], at) == 1 + CountSince([at][..0], at);
      } else {
        OpeningGrows(cfg, times, at);
      }
    }
  }

  lemma {:induction false} RunTracks(cfg: Config, ops: seq<Op>, ip: string)
    requires cfg.window >= 0 && Monotone(ops, At) && ops != []
    ensures Tracks(cfg, Run(cfg, ops), ip, TimesOf(ops, ip), ops[|ops| - 1].at)
    ensures Tracks(cfg, RunUnpruned(cfg, ops), ip, TimesOf(ops, ip), ops[|ops| - 1].at)
  {
    var init, op := ops[..|ops| - 1], ops[|ops| - 1];
    var clock := if init == [] then op.at else init[|init| - 1].at;
    if init != [] {
      RunTracks(cfg, init, ip);
      assert ops[|init| - 1].at <= ops[|init|].at;
    }
    assert Tracks(cfg, Run(cfg, init), ip, TimesOf(init, ip), clock);
    assert Tracks(cfg, RunUnpruned(cfg, init), ip, TimesOf(init, ip), clock);
    TimesAscend(ops, ip);
    if op.Fail? {
      FailTracks(cfg, Run(cfg, init), ip, TimesOf(init, ip), clock, op.at, op.ip);
      FailTracks(cfg, RunUnpruned(cfg, init), ip, TimesOf(init, ip), clock, op.at, op.ip);
    }
  }

  /** The table's answer is a property of the client's own failures. */
  lemma BlockedMeansThrottled(cfg: Config, ops: seq<Op>, ip: string, now: int)
    requires cfg.window >= 0 && Monotone(ops, At) && NotBefore(ops, At, now)
    ensures Exhausted(cfg, Run(cfg, ops), ip, now) <==> Throttled(cfg, TimesOf(ops, ip), now)
    ensures Exhausted(cfg, RunUnpruned(cfg, ops), ip, now) <==> Throttled(cfg, TimesOf(ops, ip), now)
  {
    if ops != [] { RunTracks(cfg, ops, ip); }
  }

  /** Pruning never changes a later answer. */
  lemma PruningIsInvisible(cfg: Config, ops: seq<Op>, ip: string, now: int)
    requires cfg.window >= 0 && Monotone(ops, At) && NotBefore(ops, At, now)
    ensures Exhausted(cfg, Run(cfg, ops), ip, now) == Exhausted(cfg, RunUnpruned(cfg, ops), ip, now)
  {
    BlockedMeansThrottled(cfg, ops, ip, now);
  }

  function OnlyAbout(ops: seq<Op>, ip: string): seq<Op> {
    if ops == [] then []
    else
      var rest, op := OnlyAbout(ops[..|ops| - 1], ip), ops[|ops| - 1];
      if op.ip == ip then rest + [op] else rest
  }

  lemma {:induction false} OnlyAboutTimes(ops: seq<Op>, ip: string)
    requires Monotone(ops, At)
    ensures TimesOf(OnlyAbout(ops, ip), ip) == TimesOf(ops, ip)
    ensures Monotone(OnlyAbout(ops, ip), At)
    ensures forall i :: 0 <= i < |OnlyAbout(ops, ip)| ==> OnlyAbout(ops, ip)[i] in ops
  {
    if ops != [] {
      var init, op := ops[..|ops| - 1], ops[|ops| - 1];
      OnlyAboutTimes(init, ip);
      var rest := OnlyAbout(init, ip);
      if op.ip == ip {
        assert (rest + [op])[..|rest|] == rest;
        forall i | 0 <= i < |rest| ensures rest[i].at <= op.at {
          var k :| 0 <= k < |init| && init[k] == rest[i];
          assert ops[k].at <= op.at;
        }
      }
    }
  }

  /** One client's answer is the same as if the others had never called. */
  lemma ClientsAreIsolated(cfg: Config, ops: seq<Op>, ip: string, now: int)
    requires cfg.window >= 0 && Monotone(ops, At) && NotBefore(ops, At, now)
    ensures Exhausted(cfg, Run(cfg, ops), ip, now) == Exhausted(cfg, Run(cfg, OnlyAbout(ops, ip)), ip, now)
  {
    OnlyAboutTimes(ops, ip);
    BlockedMeansThrottled(cfg, ops, ip, now);
    BlockedMeansThrottled(cfg, OnlyAbout(ops, ip), ip, now);
  }

  lemma {:induction false} CountWidens(times: seq<int>, a: int, b: int)
    requires a <= b
    ensures CountSince(times, a) >= CountSince(times, b)
  {
    if times != [] { CountWidens(times[..|times| - 1], a, b); }
  }

  /** A blocked client failed at least max times within the window that ends now. */
  lemma BlockedIsSound(cfg: Config, ops: seq<Op>, ip: string, now: int)
    requires cfg.window >= 0 && Monotone(ops, At) && NotBefore(ops, At, now)
    requires Exhausted(cfg, Run(cfg, ops), ip, now)
    ensures CountSince(TimesOf(ops, ip), now - cfg.window + 1) >= cfg.max
  {
    BlockedMeansThrottled(cfg, ops, ip, now);
    var times := TimesOf(ops, ip);
    CountWidens(times, now - cfg.window + 1, Opening(cfg, times));
  }

  /** The converse fails: a window opened long ago can end between the failures. */
  lemma EnoughFailuresMayNotBlock()
    ensures exists cfg: Config, ops: seq<Op>, now: int ::
              && cfg.window >= 0 && Monotone(ops, At) && NotBefore(ops, At, now)
              && CountSince(TimesOf(ops, ""), now - cfg.window + 1) >= cfg.max
              && !Exhausted(cfg, Run(cfg, ops), "", now)
  {
    var cfg, a, b, c := Config(2, 10), Fail(0, ""), Fail(9, ""), Fail(11, "");
    var one, two, ops := [a], [a, b], [a, b, c];
    assert one[..|one| - 1] == [] && two[..|two| - 1] == one && ops[..|ops| - 1] == two;
    assert TimesOf(one, "") == [0];
    assert TimesOf(two, "") == [0] + [9];
    assert TimesOf(ops, "") == [0] + [9] + [11];
    assert Run(cfg, one) == map["" := Entry(1, 10)];
    assert Run(cfg, two) == map["" := Entry(2, 10)];
    assert Run(cfg, ops) == map["" := Entry(1, 21)];
    assert ([0] + [9] + [11])[..2] == [0] + [9] && ([0] + [9])[..1] == [0] && [0][..0] == [];
    assert CountSince([0], 2) == 0 && CountSince([0] + [9], 2) == 1;
    assert CountSince([0] + [9] + [11], 2) == 2;
    assert !Exhausted(cfg, Run(cfg, ops), "", 11);
    assert Monotone(ops, At) && NotBefore(ops, At, 11);
  }

  /** Nothing is kept for ever: after a query the table holds exactly the clients whose
      open window is not over. */
  lemma HoldsOnlyOpen(cfg: Config, ops: seq<Op>, now: int, who: string, ip: string)
    requires cfg.window >= 0 && Monotone(ops, At) && NotBefore(ops, At, now)
    ensures ip in Run(cfg, ops + [Query(now, who)]) <==>
              TimesOf(ops, ip) != [] && now <= Opening(cfg, TimesOf(ops, ip)) + cfg.window
  {
    var more := ops + [Query(now, who)];
    assert more[..|ops|] == ops;
    if ops != [] { RunTracks(cfg, ops, ip); }
  }

  // ---- how many failures get through -----------------------------------------------

  /** This client only fails when it has just been let through. */
  ghost predicate Guarded(cfg: Config, ops: seq<Op>, ip: string) {
    ops == [] ||
    var init, op := ops[..|ops| - 1], ops[|ops| - 1];
    Guarded(cfg, init, ip) && (op.Fail? && op.ip == ip ==> !Exhausted(cfg, Run(cfg, init), ip, op.at))
  }

  /** The same, of one client's failures. */
  predicate LetThrough(cfg: Config, times: seq<int>) {
    times == [] ||
    var init := times[..|times| - 1];
    LetThrough(cfg, init) && !Throttled(cfg, init, times[|times| - 1])
  }

  lemma {:induction false} GuardedAreLetThrough(cfg: Config, ops: seq<Op>, ip: string)
    requires cfg.window >= 0 && Monotone(ops, At) && Guarded(cfg, ops, ip)
    ensures LetThrough(cfg, TimesOf(ops, ip))
  {
    if ops != [] {
      var init, op := ops[..|ops| - 1], ops[|ops| - 1];
      GuardedAreLetThrough(cfg, init, ip);
      if op.Fail? && op.ip == ip {
        BlockedMeansThrottled(cfg, init, ip, op.at);
      }
    }
  }

  /** A failure at the very instant at which the open window ends: no longer blocked, and
      not yet the first of a new window. */
  predicate OnEdge(cfg: Config, before: seq<int>, at: int) {
    before != [] && at == Opening(cfg, before) + cfg.window
  }

  /** The failures from `from` on that are not on an edge. */
  function Inside(cfg: Config, times: seq<int>, from: int): nat {
    if times == [] then 0
    else
      var init, last := times[..|times| - 1], times[|times| - 1];
      Inside(cfg, init, from) + (if last >= from && !OnEdge(cfg, init, last) then 1 else 0)
  }

  function Cap(cfg: Config): int {
    if cfg.max >= 1 then cfg.max else 1
  }

  lemma {:induction false} InsideNarrows(cfg: Config, times: seq<int>, a: int, b: int)
    requires a <= b
    ensures Inside(cfg, times, a) >= Inside(cfg, times, b)
    ensures Inside(cfg, times, a) <= CountSince(times, a)
  {
    if times != [] { InsideNarrows(cfg, times[..|times| - 1], a, b); }
  }

  lemma {:induction false} NoneInside(cfg: Config, times: seq<int>, from: int)
    requires forall i :: 0 <= i < |times| ==> times[i] < from
    ensures Inside(cfg, times, from) == 0
  {
    if times != [] { NoneInside(cfg, times[..|times| - 1], from); }
  }

  /** The open window holds no more than the cap, and so does the stretch of its length
      before it. */
  ghost predicate Capped(cfg: Config, times: seq<int>) {
    times != [] ==>
      var o := Opening(cfg, times);
      && Inside(cfg, times, o) <= Cap(cfg)
      && forall a {:trigger Inside(cfg, times, a)} :: o - cfg.window <= a <= o ==>
          Inside(cfg, times, a) - Inside(cfg, times, o) <= Cap(cfg)
  }

  lemma FirstIsCapped(cfg: Config, at: int)
    ensures Capped(cfg, [at])
  {
    assert [at][..0] == [];
    forall a | a <= at ensures Inside(cfg, [at], a) == 1 { assert Inside(cfg, [], a) == 0; }
  }

  /** A failure that opens a new window has all others behind it. */
  lemma OpenerIsCapped(cfg: Config, times: seq<int>, at: int)
    requires cfg.window >= 0 && times != [] && Ascending(times + [at]) && Capped(cfg, times)
    requires at > Opening(cfg, times) + cfg.window
    ensures Capped(cfg, times + [at])
  {
    var more, o := times + [at], Opening(cfg, times);
    assert more[..|times|] == times;
    assert forall i, j :: 0 <= i < j < |times| ==> times[i] == more[i] && times[j] == more[j];
    OpeningBounds(cfg, times);
    forall i | 0 <= i < |times| ensures times[i] < at { assert i == |times| - 1 || times[i] <= times[|times| - 1]; }
    NoneInside(cfg, times, at);
    forall a | at - cfg.window <= a <= at ensures Inside(cfg, more, a) - Inside(cfg, more, at) <= Cap(cfg) {
      InsideNarrows(cfg, times, o, a);
    }
  }

  /** One that joins the open window was let through by the count, or is on the edge. */
  lemma JoinerIsCapped(cfg: Config, times: seq<int>, at: int)
    requires cfg.window >= 0 && times != [] && Ascending(times + [at]) && Capped(cfg, times)
    requires at <= Opening(cfg, times) + cfg.window && !Throttled(cfg, times, at)
    ensures Capped(cfg, times + [at])
  {
    var more, o := times + [at], Opening(cfg, times);
    assert more[..|times|] == times;
    assert forall i, j :: 0 <= i < j < |times| ==> times[i] == more[i] && times[j] == more[j];
    OpeningBounds(cfg, times);
    assert more[|times| - 1] <= more[|times|];
    InsideNarrows(cfg, times, o, o);
    forall a | o - cfg.window <= a <= o ensures Inside(cfg, more, a) - Inside(cfg, more, o) <= Cap(cfg) {
      assert Inside(cfg, times, a) - Inside(cfg, times, o) <= Cap(cfg);
    }
  }

  lemma {:induction false} LetThroughIsCapped(cfg: Config, times: seq<int>)
    requires cfg.window >= 0 && Ascending(times) && LetThrough(cfg, times)
    ensures Capped(cfg, times)
  {
    if |times| == 1 {
      assert times == [times[0]];
      FirstIsCapped(cfg, times[0]);
    } else if times != [] {
      var init, at := times[..|times| - 1], times[|times| - 1];
      assert times == init + [at];
      LetThroughIsCapped(cfg, init);
      if at > Opening(cfg, init) + cfg.window { OpenerIsCapped(cfg, init, at); } else { JoinerIsCapped(cfg, init, at); }
    }
  }

  lemma {:induction false} StretchIsCapped(cfg: Config, times: seq<int>, from: int)
    requires cfg.window >= 0 && Ascending(times) && LetThrough(cfg, times)
    ensures Inside(cfg, times, from) - Inside(cfg, times, from + cfg.window) <= 2 * Cap(cfg)
  {
    if times != [] {
      var init, at := times[..|times| - 1], times[|times| - 1];
      assert times == init + [at];
      StretchIsCapped(cfg, init, from);
      if from <= at < from + cfg.window && !OnEdge(cfg, init, at) {
        var o := Opening(cfg, times);
        LetThroughIsCapped(cfg, times);
        OpeningBounds(cfg, times);
        if from <= o {
          assert Inside(cfg, times, from) - Inside(cfg, times, o) <= Cap(cfg);
        } else {
          InsideNarrows(cfg, times, o, from);
        }
      }
    }
  }

  /** A client that is let through before each failure fails at most twice the limit in any
      stretch as long as a window, but for failures at the very end of a window. */
  lemma FailuresAreCapped(cfg: Config, ops: seq<Op>, ip: string, from: int)
    requires cfg.window >= 0 && Monotone(ops, At) && Guarded(cfg, ops, ip)
    ensures var times := TimesOf(ops, ip);
            Inside(cfg, times, from) - Inside(cfg, times, from + cfg.window) <= 2 * Cap(cfg)
  {
    TimesAscend(ops, ip);
    GuardedAreLetThrough(cfg, ops, ip);
    StretchIsCapped(cfg, TimesOf(ops, ip), from);
  }

  /** One failure, and then k at the instant at which its window ends. */
  function EdgeRun(k: nat): seq<Op> {
    if k == 0 then [] + [Fail(0, "")] else EdgeRun(k - 1) + [Fail(10, "")]
  }

  ghost predicate OnTheEdge(ops: seq<Op>, k: nat) {
    && |ops| == k + 1 && (forall i :: 0 <= i < |ops| ==> ops[i].at == if i == 0 then 0 else 10)
    && Guarded(Config(1, 10), ops, "") && Run(Config(1, 10), ops) == map["" := Entry(k + 1, 10)]
    && CountSince(TimesOf(ops, ""), 10) == k
  }

  lemma EdgeStarts()
    ensures OnTheEdge([] + [Fail(0, "")], 0)
  {
    var cfg, ops := Config(1, 10), [] + [Fail(0, "")];
    assert ops[..0] == [] && Guarded(cfg, [], "") && Run(cfg, []) == map[] && TimesOf([], "") == [];
    assert TimesOf(ops, "") == [] + [0] && ([] + [0])[..0] == [];
    assert CountSince([], 10) == 0;
  }

  lemma EdgeGoesOn(init: seq<Op>, k: nat)
    requires OnTheEdge(init, k)
    ensures OnTheEdge(init + [Fail(10, "")], k + 1)
  {
    var cfg, ops, times := Config(1, 10), init + [Fail(10, "")], TimesOf(init, "");
    assert ops[..|init|] == init;
    assert !Exhausted(cfg, Run(cfg, init), "", 10);
    assert TimesOf(ops, "") == times + [10] && (times + [10])[..|times|] == times;
  }

  lemma {:induction false} EdgeRunGoesOn(k: nat)
    ensures OnTheEdge(EdgeRun(k), k)
  {
    if k == 0 {
      EdgeStarts();
    } else {
      EdgeRunGoesOn(k - 1);
      EdgeGoesOn(EdgeRun(k - 1), k - 1);
    }
  }

  /** At that instant there is no limit: any number of failures is let through. */
  lemma EdgeIsUnlimited(k: nat)
    ensures exists ops :: EdgeFailures(ops, k)
  {
    EdgeRunGoesOn(k);
    assert EdgeFailures(EdgeRun(k), k);
  }

  /** A guarded run under a limit of one, with k failures at one and the same time. */
  ghost predicate EdgeFailures(ops: seq<Op>, k: nat) {
    && Monotone(ops, At) && NotBefore(ops, At, 10) && Guarded(Config(1, 10), ops, "")
    && CountSince(TimesOf(ops, ""), 10) == k
  }

  // ---- the limiter -----------------------------------------------------------------

  class Limiter {
    const cfg: Config
    var hits: Hits

    constructor (max: int, window: int)
      ensures cfg == Config(max, window) && hits == map[]
    {
      cfg := Config(max, window);
      hits := map[];
    }

    method Blocked(ip: string, now: int) returns (blocked: bool)
      modifies this
      ensures hits == Pruned(old(hits), now)
      ensures blocked == Exhausted(cfg, old(hits), ip, now)
    {
      var left := hits.Keys;
      while left != {}
        invariant left <= old(hits).Keys
        invariant hits == map k | k in old(hits) && (k in left || now <= old(hits)[k].reset) :: old(hits)[k]
        decreases |left|
      {
        var k :| k in left;
        if now > hits[k].reset {
          hits := hits - {k};
        }
        left := left - {k};
      }
      blocked := ip in hits && hits[ip].count >= cfg.max && now < hits[ip].reset;
    }

    method Fail(ip: string, now: int)
      modifies this
      ensures hits == Failed(cfg, old(hits), ip, now)
    {
      if ip !in hits || now > hits[ip].reset {
        hits := hits[ip := Entry(1, now + cfg.window)];
        return;
      }
      hits := hits[ip := hits[ip].(count := hits[ip].count + 1)];
    }
  }
}
