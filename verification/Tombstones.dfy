/** The registry of killed sessions: a map that forgets lazily, and the log it answers for.
    Times are nanoseconds on a monotone clock. */
module Tombstones {
  import opened Clocks

  const KILLED_TTL := 600_000_000_000

  type Seen = map<string, int>

  function Unexpired(seen: Seen, now: int): Seen {
    map key | key in seen && now - seen[key] <= KILLED_TTL :: seen[key]
  }

  function Mark(seen: Seen, keys: seq<string>, now: int): Seen {
    if keys == [] then seen
    else
      var marked := Mark(seen, keys[..|keys| - 1], now);
      if keys[|keys| - 1] != "" then marked[keys[|keys| - 1] := now] else marked
  }

  function Remembered(seen: Seen, keys: seq<string>, now: int): Seen {
    Mark(Unexpired(seen, now), keys, now)
  }

  predicate IsKilled(seen: Seen, key: string, now: int) {
    key != "" && key in seen && now - seen[key] <= KILLED_TTL
  }

  /** A query deletes the entry it finds expired. */
  function AfterHas(seen: Seen, key: string, now: int): Seen {
    if key != "" && key in seen && !IsKilled(seen, key, now) then seen - {key} else seen
  }

  lemma {:induction false} MarkSets(seen: Seen, keys: seq<string>, now: int, key: string)
    ensures key in Mark(seen, keys, now) <==> key in seen || (key != "" && key in keys)
    ensures key in Mark(seen, keys, now) ==>
              Mark(seen, keys, now)[key] == if key != "" && key in keys then now else seen[key]
  {
    if keys != [] {
      var init := keys[..|keys| - 1];
      MarkSets(seen, init, now, key);
      assert keys == init + [keys[|keys| - 1]];
    }
  }

  // ---- the log ---------------------------------------------------------------------

  datatype Op = Killed(at: int, keys: seq<string>) | Asked(at: int, key: string)

  function At(op: Op): int {
    op.at
  }

  function Run(ops: seq<Op>): Seen {
    if ops == [] then map[]
    else
      var seen, op := Run(ops[..|ops| - 1]), ops[|ops| - 1];
      match op
      case Killed(at, keys) => Remembered(seen, keys, at)
      case Asked(at, key) => AfterHas(seen, key, at)
  }

  /** Some kill of this key lies at most ten minutes back. */
  ghost predicate KilledWithin(ops: seq<Op>, key: string, now: int) {
    exists i :: 0 <= i < |ops| && ops[i].Killed? && key in ops[i].keys && now - ops[i].at <= 600_000_000_000
  }

  lemma KilledWithinSnoc(ops: seq<Op>, key: string, now: int)
    requires ops != []
    ensures var last := ops[|ops| - 1];
            KilledWithin(ops, key, now) <==>
              KilledWithin(ops[..|ops| - 1], key, now)
                  || (last.Killed? && key in last.keys && now - last.at <= KILLED_TTL)
  {
    var init, last := ops[..|ops| - 1], ops[|ops| - 1];
    if KilledWithin(init, key, now) {
      var i :| 0 <= i < |init| && init[i].Killed? && key in init[i].keys && now - init[i].at <= KILLED_TTL;
      assert ops[i] == init[i];
    }
    if KilledWithin(ops, key, now) {
      var i :| 0 <= i < |ops| && ops[i].Killed? && key in ops[i].keys && now - ops[i].at <= KILLED_TTL;
      if i < |init| { assert init[i] == ops[i]; }
    }
  }

  /** Neither way of forgetting ever changes an answer: the map says yes exactly when the
      log does. */
  lemma {:induction false} HasAgreesWithLog(ops: seq<Op>, key: string, now: int)
    requires Monotone(ops, At) && NotBefore(ops, At, now)
    ensures IsKilled(Run(ops), key, now) <==> key != "" && KilledWithin(ops, key, now)
  {
    if ops != [] {
      var init, last := ops[..|ops| - 1], ops[|ops| - 1];
      HasAgreesWithLog(init, key, now);
      HasAgreesWithLog(init, key, last.at);
      KilledWithinSnoc(ops, key, now);
      if last.Killed? {
        MarkSets(Unexpired(Run(init), last.at), last.keys, last.at, key);
        if key in last.keys && KilledWithin(init, key, now) {
          var i :| 0 <= i < |init| && init[i].Killed? && key in init[i].keys && now - init[i].at <= KILLED_TTL;
          assert ops[i].at <= last.at;
        }
      }
    }
  }

  /** Nothing is kept for ever: after a kill the registry holds exactly the keys killed
      within the last ten minutes. */
  lemma {:induction false} HoldsOnlyRecent(ops: seq<Op>, keys: seq<string>, now: int, key: string)
    requires Monotone(ops, At) && NotBefore(ops, At, now)
    ensures key in Run(ops + [Killed(now, keys)]) <==>
              key != "" && (key in keys || KilledWithin(ops, key, now))
  {
    var more := ops + [Killed(now, keys)];
    assert more[..|ops|] == ops;
    HasAgreesWithLog(ops, key, now);
    MarkSets(Unexpired(Run(ops), now), keys, now, key);
    NoEmptyKeys(ops);
  }

  lemma {:induction false} NoEmptyKeys(ops: seq<Op>)
    ensures "" !in Run(ops)
  {
    if ops != [] {
      var init, last := ops[..|ops| - 1], ops[|ops| - 1];
      NoEmptyKeys(init);
      if last.Killed? { MarkSets(Unexpired(Run(init), last.at), last.keys, last.at, ""); }
    }
  }

  // ---- the registry ----------------------------------------------------------------

  class KillRegistry {
    var seen: Seen

    constructor ()
      ensures seen == map[]
    {
      seen := map[];
    }

    method Remember(keys: seq<string>, now: int)
      modifies this
      ensures seen == Remembered(old(seen), keys, now)
    {
      var left := seen.Keys;
      while left != {}
        invariant left <= old(seen).Keys
        invariant seen == map key | key in old(seen) && (key in left || now - old(seen)[key] <= KILLED_TTL) ::
            old(seen)[key]
        decreases |left|
      {
        var key :| key in left;
        if now - seen[key] > KILLED_TTL {
          seen := seen - {key};
        }
        left := left - {key};
      }
      assert seen == Unexpired(old(seen), now);
      for i := 0 to |keys|
        invariant seen == Mark(Unexpired(old(seen), now), keys[..i], now)
      {
        assert keys[..i + 1][..i] == keys[..i];
        if keys[i] != "" {
          seen := seen[keys[i] := now];
        }
      }
      assert keys[..|keys|] == keys;
    }

    method Has(key: string, now: int) returns (killed: bool)
      modifies this
      ensures killed == IsKilled(old(seen), key, now)
      ensures seen == AfterHas(old(seen), key, now)
    {
      if key == "" {
        return false;
      }
      if key !in seen {
        return false;
      }
      if now - seen[key] > KILLED_TTL {
        seen := seen - {key};
        return false;
      }
      return true;
    }
  }
}
