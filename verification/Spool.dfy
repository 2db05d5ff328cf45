/** The session registry: one record per session, pruned whenever it is listed.
    Times are nanoseconds on a monotone clock that never reads 0. */
module Spool {
  import opened Sequences

  const REMOTE_TTL := 30_000_000_000

  datatype Status = Starting | Live | Ended

  /** `info` stands for the fields that are only shown: name, directory, links and so on. */
  datatype Record = Record(id: string, room: string, remote: bool, pid: int, status: Status,
                           startedAt: nat, updatedAt: nat, info: seq<string>)

  type Files = map<string, Record>

  datatype Loaded = NotFound | Found(rec: Record)

  /** `pids` are the processes that exist. */
  predicate Alive(r: Record, now: nat, pids: set<int>) {
    if r.remote then now - r.updatedAt < REMOTE_TTL else r.pid > 0 && r.pid in pids
  }

  predicate Lingers(r: Record, now: nat, pids: set<int>, keepEnded: nat) {
    Alive(r, now, pids) && !(r.status == Ended && now - r.updatedAt > keepEnded)
  }

  function LiveOnly(files: Files, now: nat, pids: set<int>, keepEnded: nat): Files {
    map id | id in files && Lingers(files[id], now, pids, keepEnded) :: files[id]
  }

  function Saved(files: Files, r: Record, now: nat): Files {
    if r.id == "" then files else files[r.id := r.(updatedAt := now)]
  }

  function Lookup(files: Files, id: string): Loaded {
    if id in files then Found(files[id]) else NotFound
  }

  /** Records sit under their own, non-empty id. */
  ghost predicate Keyed(files: Files) {
    forall id :: id in files ==> files[id].id == id && id != ""
  }

  ghost predicate NewestFirst(rs: seq<Record>) {
    forall i, j :: 0 <= i < j < |rs| ==> rs[i].startedAt >= rs[j].startedAt
  }

  ghost predicate Names(rs: seq<Record>, id: string) {
    exists i :: 0 <= i < |rs| && rs[i].id == id
  }

  ghost predicate Unique(rs: seq<Record>) {
    forall i, j :: 0 <= i < j < |rs| ==> rs[i].id != rs[j].id
  }

  /** Exactly the records of a store, each once, newest first. */
  ghost predicate Lists(rs: seq<Record>, files: Files) {
    && NewestFirst(rs)
    && Unique(rs)
    && (forall i :: 0 <= i < |rs| ==> rs[i].id in files && files[rs[i].id] == rs[i])
    && (forall id :: id in files ==> Names(rs, id))
  }

  /** Pruning is idempotent, and only time can prune more. */
  lemma PruneTwice(files: Files, now: nat, later: nat, pids: set<int>, keepEnded: nat)
    requires now <= later
    ensures LiveOnly(LiveOnly(files, now, pids, keepEnded), later, pids, keepEnded) ==
        LiveOnly(files, later, pids, keepEnded)
  {
    forall id | id in files && Lingers(files[id], later, pids, keepEnded)
      ensures Lingers(files[id], now, pids, keepEnded)
    {
    }
  }

  /** A pruning keeps a record, as it is, exactly if it is a remote one heard of within the
      last thirty seconds or a local one whose process exists, and has not been ended for
      longer than ended ones are kept. */
  lemma StaysExactly(files: Files, now: nat, pids: set<int>, keepEnded: nat, id: string)
    ensures var t := LiveOnly(files, now, pids, keepEnded);
            && (id in t ==> t[id] == files[id])
            && (id in t <==>
                  && id in files
                  && (files[id].remote ==> now - files[id].updatedAt < 30_000_000_000)
                  && (!files[id].remote ==> files[id].pid > 0 && files[id].pid in pids)
                  && (files[id].status == Ended ==> now - files[id].updatedAt <= keepEnded))
  {
  }

  /** A save dates the record and touches no other; without an id it does nothing. */
  lemma SaveExactly(files: Files, r: Record, now: nat, id: string)
    ensures var t := Saved(files, r, now);
            && (r.id == "" ==> t == files)
            && (r.id != "" ==> r.id in t && t[r.id] == r.(updatedAt := now))
            && (id != r.id ==> (id in t <==> id in files) && (id in files ==> t[id] == files[id]))
  {
  }

  lemma NamesSnoc(rs: seq<Record>, r: Record, id: string)
    ensures Names(rs + [r], id) <==> Names(rs, id) || r.id == id
  {
    var more := rs + [r];
    if Names(rs, id) {
      var i :| 0 <= i < |rs| && rs[i].id == id;
      assert more[i].id == id;
    }
    if r.id == id { assert more[|rs|].id == id; }
  }

  lemma ListsInit(rs: seq<Record>, files: Files)
    requires Lists(rs, files) && rs != []
    ensures rs[|rs| - 1].id in files && Lists(rs[..|rs| - 1], files - {rs[|rs| - 1].id})
  {
    var last, init := rs[|rs| - 1], rs[..|rs| - 1];
    assert rs == init + [last];
    forall id | id in files && id != last.id ensures Names(init, id) {
      NamesSnoc(init, last, id);
    }
  }

  /** A listing is as long as the store is large. */
  lemma {:induction false} ListingSize(rs: seq<Record>, files: Files)
    requires Lists(rs, files)
    ensures |rs| == |files|
  {
    if rs == [] {
      assert forall id :: id in files ==> Names(rs, id);
      assert files == map[];
    } else {
      var last := rs[|rs| - 1];
      ListsInit(rs, files);
      ListingSize(rs[..|rs| - 1], files - {last.id});
      assert files.Keys == (files - {last.id}).Keys + {last.id};
    }
  }

  /** The records of a list that stay. */
  function Staying(rs: seq<Record>, now: nat, pids: set<int>, keepEnded: nat): seq<Record> {
    if rs == [] then []
    else
      var kept, last := Staying(rs[..|rs| - 1], now, pids, keepEnded), rs[|rs| - 1];
      if Lingers(last, now, pids, keepEnded) then kept + [last] else kept
  }

  lemma ListsSnoc(rs: seq<Record>, r: Record, files: Files)
    requires Lists(rs, files) && r.id !in files
    requires forall i :: 0 <= i < |rs| ==> rs[i].startedAt >= r.startedAt
    ensures Lists(rs + [r], files[r.id := r])
  {
    forall id | id in files[r.id := r] ensures Names(rs + [r], id) {
      NamesSnoc(rs, r, id);
    }
  }

  lemma {:induction false} StayingNewer(rs: seq<Record>, at: nat, now: nat, pids: set<int>, keepEnded: nat)
    requires forall i :: 0 <= i < |rs| ==> rs[i].startedAt >= at
    ensures forall i :: 0 <= i < |Staying(rs, now, pids, keepEnded)| ==>
        Staying(rs, now, pids, keepEnded)[i].startedAt >= at
  {
    if rs != [] {
      var init, last := rs[..|rs| - 1], rs[|rs| - 1];
      StayingNewer(init, at, now, pids, keepEnded);
      var kept := Staying(init, now, pids, keepEnded);
      assert Staying(rs, now, pids, keepEnded) == if Lingers(last, now, pids, keepEnded) then kept + [last] else kept;
    }
  }

  lemma LiveSnoc(files: Files, last: Record, now: nat, pids: set<int>, keepEnded: nat)
    requires last.id in files && files[last.id] == last
    ensures var rest := LiveOnly(files - {last.id}, now, pids, keepEnded);
            && last.id !in rest
            && LiveOnly(files, now, pids, keepEnded) ==
                 if Lingers(last, now, pids, keepEnded) then rest[last.id := last] else rest
  {
  }

  lemma {:induction false} StayingLists(rs: seq<Record>, files: Files, now: nat, pids: set<int>, keepEnded: nat)
    requires Lists(rs, files)
    ensures Lists(Staying(rs, now, pids, keepEnded), LiveOnly(files, now, pids, keepEnded))
  {
    if rs == [] {
      assert forall id :: id in files ==> Names(rs, id);
      assert files == map[];
    } else {
      var last, init := rs[|rs| - 1], rs[..|rs| - 1];
      ListsInit(rs, files);
      StayingLists(init, files - {last.id}, now, pids, keepEnded);
      LiveSnoc(files, last, now, pids, keepEnded);
      if Lingers(last, now, pids, keepEnded) {
        StayingNewer(init, last.startedAt, now, pids, keepEnded);
        ListsSnoc(Staying(init, now, pids, keepEnded), last, LiveOnly(files - {last.id}, now, pids, keepEnded));
      }
    }
  }

  /** Inserts a record into a list that is sorted newest first. */
  method Insert(rs: seq<Record>, r: Record) returns (out: seq<Record>, k: nat)
    requires NewestFirst(rs)
    ensures NewestFirst(out) && k <= |rs| && out == rs[..k] + [r] + rs[k..]
  {
    k := 0;
    while k < |rs| && rs[k].startedAt >= r.startedAt
      invariant k <= |rs| && forall i :: 0 <= i < k ==> rs[i].startedAt >= r.startedAt
    {
      k := k + 1;
    }
    out := rs[..k] + [r] + rs[k..];
  }

  class Store {
    var files: Files

    constructor ()
      ensures files == map[]
    {
      files := map[];
    }

    method Save(r: Record, now: nat) returns (ok: bool)
      modifies this
      ensures files == Saved(old(files), r, now) && ok == (r.id != "")
    {
      if r.id == "" {
        return false;
      }
      files := files[r.id := r.(updatedAt := now)];
      return true;
    }

    method Load(id: string) returns (r: Loaded)
      ensures r == Lookup(files, id)
    {
      if id !in files {
        return NotFound;
      }
      return Found(files[id]);
    }

    method Remove(id: string)
      modifies this
      ensures files == old(files) - {id}
    {
      files := files - {id};
    }

    /** The directory's entries in any order, sorted by start time. */
    method List() returns (out: seq<Record>)
      requires Keyed(files)
      ensures Lists(out, files)
    {
      out := [];
      var left := files.Keys;
      while left != {}
        invariant left <= files.Keys
        invariant Lists(out, files - left)
        decreases |left|
      {
        var id :| id in left;
        var more, k := Insert(out, files[id]);
        InsertLists(out, more, k, files[id], files - left);
        left := left - {id};
        assert files - left == (files - (left + {id}))[id := files[id]];
        out := more;
      }
      assert files - left == files;
    }

    /** What is alive and not ended too long ago is returned and kept, all else removed. */
    method LiveRecords(now: nat, pids: set<int>, keepEnded: nat) returns (out: seq<Record>)
      requires Keyed(files)
      modifies this
      ensures files == LiveOnly(old(files), now, pids, keepEnded) && Keyed(files)
      ensures Lists(out, files)
    {
      var all := List();
      StayingLists(all, files, now, pids, keepEnded);
      out := [];
      for i := 0 to |all|
        invariant out == Staying(all[..i], now, pids, keepEnded)
        invariant forall id :: id in files ==> id in old(files) && files[id] == old(files)[id]
        invariant forall k :: i <= k < |all| ==> all[k].id in files
        invariant forall k :: 0 <= k < i ==> (all[k].id in files <==> Lingers(all[k], now, pids, keepEnded))
      {
        var r := all[i];
        assert all[..i + 1][..i] == all[..i];
        if !Alive(r, now, pids) {
          Remove(r.id);
          continue;
        }
        if r.status == Ended && now - r.updatedAt > keepEnded {
          Remove(r.id);
          continue;
        }
        out := out + [r];
      }
      assert all[..|all|] == all;
      SweptIsLive(old(files), files, all, now, pids, keepEnded);
    }
  }

  /** Once every listed record has been looked at, what is left is what stays. */
  lemma SweptIsLive(before: Files, after: Files, all: seq<Record>, now: nat, pids: set<int>, keepEnded: nat)
    requires Lists(all, before)
    requires forall id :: id in after ==> id in before && after[id] == before[id]
    requires forall k :: 0 <= k < |all| ==> (all[k].id in after <==> Lingers(all[k], now, pids, keepEnded))
    ensures after == LiveOnly(before, now, pids, keepEnded)
  {
    forall id | id in before ensures id in after <==> Lingers(before[id], now, pids, keepEnded) {
      assert Names(all, id);
      var k :| 0 <= k < |all| && all[k].id == id;
    }
  }

  lemma InsertLists(was: seq<Record>, out: seq<Record>, k: nat, r: Record, seen: Files)
    requires Lists(was, seen) && NewestFirst(out)
    requires k <= |was| && out == was[..k] + [r] + was[k..]
    requires r.id !in seen
    ensures Lists(out, seen[r.id := r])
  {
    forall id | id in seen[r.id := r] ensures Names(out, id) {
      if id == r.id {
        assert out[k].id == id;
      } else {
        assert Names(was, id);
        var i :| 0 <= i < |was| && was[i].id == id;
        assert out[if i < k then i else i + 1].id == id;
      }
    }
  }
}
