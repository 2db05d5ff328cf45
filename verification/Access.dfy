/** The user directory and the per-session access lists. Time 0 is Go's zero time; the
    clock never reads it. */
module Access {
  import opened Sequences

  datatype User = User(key: string, sub: string, email: string, name: string, username: string,
                       invited: bool, firstSeen: nat, lastSeen: nat)

  datatype Session = Session(owner: string, members: seq<string>, addedAt: nat)

  datatype State = State(users: map<string, User>, sessions: map<string, Session>)

  const INIT := State(map[], map[])
  const NO_ACL := Session("", [], 0)

  // ---- handles ---------------------------------------------------------------------

  predicate IsSpace(c: char) {
    c == ' ' || 9 as char <= c <= 13 as char
  }

  function Trim(s: string): string {
    if s == "" then ""
    else if IsSpace(s[0]) then Trim(s[1..])
    else if IsSpace(s[|s| - 1]) then Trim(s[..|s| - 1])
    else s
  }

  function Lower(s: string): string {
    if s == "" then ""
    else [if 'A' <= s[0] <= 'Z' then s[0] + 32 as char else s[0]] + Lower(s[1..])
  }

  function Key(s: string): string {
    Lower(Trim(s))
  }

  function Adding(list: seq<string>, p: string): seq<string> {
    if p == "" || p in list then list else list + [p]
  }

  /** The normalized handles of an identity, in the order they are tried. */
  function Principals(sub: string, email: string, username: string): (ps: seq<string>)
    ensures Distinct(ps) && "" !in ps
    ensures forall p :: p in ps <==> p != "" && (p == Key(email) || p == Trim(sub) || p == Key(username))
  {
    Adding(Adding(Adding([], Key(email)), Trim(sub)), Key(username))
  }

  predicate Allows(acl: Session, principals: seq<string>) {
    exists p :: p in principals && p != "" && (acl.owner == p || p in acl.members)
  }

  // ---- the operations, on values ---------------------------------------------------

  function ACL(s: State, id: string): Session {
    if id in s.sessions then s.sessions[id] else NO_ACL
  }

  /** The first principal that is in the directory. */
  function Known(users: map<string, User>, ps: seq<string>): (i: nat)
    ensures i <= |ps| && (i < |ps| ==> ps[i] in users) && forall k :: 0 <= k < i ==> ps[k] !in users
  {
    if ps == [] || ps[0] in users then 0 else 1 + Known(users, ps[1..])
  }

  datatype Login = Login(sub: string, email: string, name: string, username: string)

  function LoginUser(s: State, l: Login, now: nat): User {
    var ps := Principals(l.sub, l.email, l.username);
    var i := Known(s.users, ps);
    var key := if Key(l.email) != "" then Key(l.email) else Trim(l.sub);
    var newcomer := User(key, l.sub, l.email, l.name, l.username, false, now, now);
    if i == |ps| then newcomer
    else
      var prior := s.users[ps[i]];
      newcomer.(key := prior.key, firstSeen := if prior.firstSeen == 0 then now else prior.firstSeen)
  }

  function Seen(s: State, l: Login, now: nat): State {
    var u := LoginUser(s, l, now);
    if u.key == "" then s else s.(users := s.users[u.key := u])
  }

  function SetOwner(s: State, id: string, owner: string, now: nat): State {
    if id == "" then s
    else
      var acl := ACL(s, id);
      var addedAt := if acl.addedAt == 0 then now else acl.addedAt;
      s.(sessions := s.sessions[id := acl.(owner := Key(owner), addedAt := addedAt)])
  }

  predicate HasAt(key: string) {
    '@' in key
  }

  function Invited(key: string): User {
    if HasAt(key) then User(key, "", key, "", "", true, 0, 0) else User(key, "", "", "", key, true, 0, 0)
  }

  function AddMember(s: State, id: string, handle: string, now: nat): State {
    var key := Key(handle);
    if id == "" || key == "" then s
    else
      var acl := ACL(s, id);
      var members := if key !in acl.members && acl.owner != key then acl.members + [key] else acl.members;
      var addedAt := if acl.addedAt == 0 then now else acl.addedAt;
      s.(users := if key in s.users then s.users else s.users[key := Invited(key)],
         sessions := s.sessions[id := acl.(addedAt := addedAt, members := members)])
  }

  function Without(members: seq<string>, key: string): seq<string> {
    if members == [] then []
    else
      var kept, last := Without(members[..|members| - 1], key), members[|members| - 1];
      if last != key then kept + [last] else kept
  }

  function RemoveMember(s: State, id: string, handle: string): State {
    if id !in s.sessions then s
    else s.(sessions := s.sessions[id := s.sessions[id].(members := Without(s.sessions[id].members, Key(handle)))])
  }

  predicate Orphaned(acl: Session, id: string, live: set<string>, grace: nat, now: nat) {
    !(id in live || now - acl.addedAt < grace)
  }

  function Prune(s: State, live: set<string>, grace: nat, now: nat): State {
    s.(sessions := map id | id in s.sessions && !Orphaned(s.sessions[id], id, live, grace, now) :: s.sessions[id])
  }

  function Drop(s: State, id: string): State {
    s.(sessions := s.sessions - {id})
  }

  // ---- runs ------------------------------------------------------------------------

  datatype Op =
    | LogsIn(login: Login, at: nat)
    | SetsOwner(id: string, owner: string, at: nat)
    | AddsMember(id: string, handle: string, at: nat)
    | RemovesMember(id: string, handle: string)
    | Prunes(live: set<string>, grace: nat, at: nat)
    | Drops(id: string)

  function Step(s: State, op: Op): State {
    match op
    case LogsIn(l, at) => Seen(s, l, at)
    case SetsOwner(id, owner, at) => SetOwner(s, id, owner, at)
    case AddsMember(id, handle, at) => AddMember(s, id, handle, at)
    case RemovesMember(id, handle) => RemoveMember(s, id, handle)
    case Prunes(live, grace, at) => Prune(s, live, grace, at)
    case Drops(id) => Drop(s, id)
  }

  function RunFrom(s: State, ops: seq<Op>): State {
    if ops == [] then s else Step(RunFrom(s, ops[..|ops| - 1]), ops[|ops| - 1])
  }

  /** Directory entries sit under their own key; member lists have no duplicates, and
      every member is in the directory. */
  ghost predicate Inv(s: State) {
    && (forall k :: k in s.users ==> s.users[k].key == k && k != "")
    && (forall id :: id in s.sessions ==>
          && Distinct(s.sessions[id].members)
          && forall m :: m in s.sessions[id].members ==> m in s.users)
  }

  /** Removal keeps the order and the rest. */
  lemma {:induction false} WithoutKeepsOrder(members: seq<string>, key: string)
    ensures Subsequence(Without(members, key), members)
    ensures forall m :: m in Without(members, key) <==> m in members && m != key
    ensures Distinct(members) ==> Distinct(Without(members, key))
  {
    if members != [] {
      var init, last := members[..|members| - 1], members[|members| - 1];
      WithoutKeepsOrder(init, key);
      assert members == init + [last];
      if last != key {
        SubsequenceKeep(Without(init, key), init, last);
      } else {
        SubsequenceSkip(Without(init, key), init, last);
      }
      if Distinct(members) {
        assert Distinct(init) && last !in init;
      }
    }
  }

  lemma StepKeeps(s: State, op: Op)
    requires Inv(s)
    ensures Inv(Step(s, op))
  {
    match op
    case RemovesMember(id, handle) =>
      if id in s.sessions { WithoutKeepsOrder(s.sessions[id].members, Key(handle)); }
    case _ =>
  }

  lemma {:induction false} RunKeeps(ops: seq<Op>)
    ensures Inv(RunFrom(INIT, ops))
  {
    if ops != [] {
      RunKeeps(ops[..|ops| - 1]);
      StepKeeps(RunFrom(INIT, ops[..|ops| - 1]), ops[|ops| - 1]);
    }
  }

  /** A login under any known handle updates that entry, under its old key, and adds none;
      a stranger gets one new entry under the mail address or else the sub. */
  lemma LoginReusesEntry(ops: seq<Op>, l: Login, now: nat)
    ensures var s := RunFrom(INIT, ops);
            var t, ps := Seen(s, l, now), Principals(l.sub, l.email, l.username);
            && (forall p :: p in ps && p in s.users ==> t.users.Keys == s.users.Keys)
            && ((forall p :: p in ps ==> p !in s.users) ==>
                  var key := if Key(l.email) != "" then Key(l.email) else Trim(l.sub);
                  t.users.Keys == s.users.Keys + (if key == "" then {} else {key}))
            && t.sessions == s.sessions
            && forall k :: k in s.users && k !in ps ==> k in t.users && t.users[k] == s.users[k]
  {
    RunKeeps(ops);
    var s, ps := RunFrom(INIT, ops), Principals(l.sub, l.email, l.username);
    var i := Known(s.users, ps);
    if i == |ps| {
      var u := LoginUser(s, l, now);
      assert forall p :: p in ps ==> p !in s.users;
      if u.key != "" { assert u.key in ps; }
    } else {
      assert ps[i] in ps && ps[i] in s.users && s.users[ps[i]].key == ps[i];
    }
  }

  // ---- what each operation comes to ------------------------------------------------

  predicate Blank(c: char) {
    c in {' ', '\t', '\n', '\r', 11 as char, 12 as char}
  }

  /** t is s without the blanks around it. */
  ghost predicate TrimmedAt(t: string, s: string, i: nat, j: nat) {
    && i <= j <= |s| && t == s[i..j]
    && (forall k :: 0 <= k < i || j <= k < |s| ==> Blank(s[k]))
    && (t != "" ==> !Blank(t[0]) && !Blank(t[|t| - 1]))
  }

  lemma BlankInFront(s: string, t: string, i: nat, j: nat)
    requires s != "" && Blank(s[0]) && TrimmedAt(t, s[1..], i, j)
    ensures TrimmedAt(t, s, i + 1, j + 1)
  {
    forall k | 0 <= k < i + 1 || j + 1 <= k < |s| ensures Blank(s[k]) {
      if k > 0 { assert s[k] == s[1..][k - 1]; }
    }
  }

  lemma BlankBehind(s: string, t: string, i: nat, j: nat)
    requires s != "" && Blank(s[|s| - 1]) && TrimmedAt(t, s[..|s| - 1], i, j)
    ensures TrimmedAt(t, s, i, j)
  {
    forall k | 0 <= k < i || j <= k < |s| ensures Blank(s[k]) {
      if k < |s| - 1 { assert s[k] == s[..|s| - 1][k]; }
    }
  }

  lemma {:induction false} TrimExactly(s: string)
    ensures exists i: nat, j: nat :: TrimmedAt(Trim(s), s, i, j)
  {
    if s == "" {
      assert TrimmedAt(Trim(s), s, 0, 0);
    } else if IsSpace(s[0]) {
      TrimExactly(s[1..]);
      var i: nat, j: nat :| TrimmedAt(Trim(s[1..]), s[1..], i, j);
      BlankInFront(s, Trim(s), i, j);
    } else if IsSpace(s[|s| - 1]) {
      TrimExactly(s[..|s| - 1]);
      var i: nat, j: nat :| TrimmedAt(Trim(s[..|s| - 1]), s[..|s| - 1], i, j);
      BlankBehind(s, Trim(s), i, j);
    } else {
      assert s[0..|s|] == s;
      assert TrimmedAt(Trim(s), s, 0, |s|);
    }
  }

  lemma {:induction false} LowerExactly(s: string)
    ensures |Lower(s)| == |s|
    ensures forall i :: 0 <= i < |s| ==> Lower(s)[i] == if 'A' <= s[i] <= 'Z' then s[i] + 32 as char else s[i]
  {
    if s != "" { LowerExactly(s[1..]); }
  }

  lemma NoMoreToTrim(s: string)
    requires s != "" ==> !Blank(s[0]) && !Blank(s[|s| - 1])
    ensures Trim(s) == s
  {
  }

  /** Normalizing a handle twice is normalizing it once. */
  lemma KeyTwice(s: string)
    ensures Key(Key(s)) == Key(s)
  {
    TrimExactly(s);
    LowerExactly(Trim(s));
    NoMoreToTrim(Key(s));
    LowerExactly(Key(s));
    assert Lower(Key(s)) == Key(s);
  }

  /** An identity is tried by its mail address, then its sub, then its username. */
  lemma PrincipalsInOrder(sub: string, email: string, username: string)
    ensures var e, s, u := Key(email), Trim(sub), Key(username);
            Principals(sub, email, username) ==
            (if e == "" then [] else [e])
            + (if s == "" || s == e then [] else [s])
            + (if u == "" || u == e || u == s then [] else [u])
  {
  }

  lemma {:induction false} FirstKnown(users: map<string, User>, ps: seq<string>, k: nat)
    requires k < |ps| && ps[k] in users && forall j :: 0 <= j < k ==> ps[j] !in users
    ensures Known(users, ps) == k
  {
    if k > 0 { FirstKnown(users, ps[1..], k - 1); }
  }

  /** A login takes over the entry of the first handle that has one, and brings it up to
      date; the time of the first visit stays. */
  lemma LoginAdopts(s: State, l: Login, now: nat)
    ensures var e, i, n := Key(l.email), Trim(l.sub), Key(l.username);
            var u := LoginUser(s, l, now);
            && u.sub == l.sub && u.email == l.email && u.name == l.name && u.username == l.username
            && !u.invited && u.lastSeen == now
            && (e != "" && e in s.users ==> Continues(u, s.users[e], now))
            && (!(e != "" && e in s.users) && i != "" && i in s.users ==> Continues(u, s.users[i], now))
            && (!(e != "" && e in s.users) && !(i != "" && i in s.users) && n != "" && n in s.users ==>
                  Continues(u, s.users[n], now))
            && (Seen(s, l, now) == if u.key == "" then s else s.(users := s.users[u.key := u]))
  {
    var e, i, n := Key(l.email), Trim(l.sub), Key(l.username);
    var ps := Principals(l.sub, l.email, l.username);
    PrincipalsInOrder(l.sub, l.email, l.username);
    if e != "" && e in s.users {
      FirstKnown(s.users, ps, 0);
    } else if i != "" && i in s.users {
      FirstKnown(s.users, ps, if e == "" then 0 else 1);
    } else if n != "" && n in s.users {
      assert ps[|ps| - 1] == n;
      FirstKnown(s.users, ps, |ps| - 1);
    }
  }

  predicate Continues(u: User, prior: User, now: nat) {
    u.key == prior.key && u.firstSeen == (if prior.firstSeen == 0 then now else prior.firstSeen)
  }

  /** A claim names the owner, keeps the members, and dates a list that has no date. */
  lemma ClaimExactly(s: State, id: string, owner: string, now: nat)
    requires id != ""
    ensures var t := SetOwner(s, id, owner, now);
            && t.users == s.users && t.sessions.Keys == s.sessions.Keys + {id}
            && (forall k :: k in s.sessions && k != id ==> t.sessions[k] == s.sessions[k])
            && t.sessions[id].owner == Key(owner)
            && (id in s.sessions ==> t.sessions[id].members == s.sessions[id].members)
            && (id !in s.sessions ==> t.sessions[id] == Session(Key(owner), [], now))
            && (id in s.sessions && s.sessions[id].addedAt != 0 ==> t.sessions[id].addedAt == s.sessions[id].addedAt)
  {
  }

  /** An invitation adds the key once, unless it is the owner's, dates a list that has no
      date, and enters a stranger by mail address or by username. */
  lemma InvitationExactly(s: State, id: string, handle: string, now: nat)
    requires id != "" && Key(handle) != ""
    ensures var t, key := AddMember(s, id, handle, now), Key(handle);
            && t.sessions.Keys == s.sessions.Keys + {id} && t.users.Keys == s.users.Keys + {key}
            && (forall k :: k in s.sessions && k != id ==> t.sessions[k] == s.sessions[k])
            && (forall k :: k in s.users ==> t.users[k] == s.users[k])
            && (key !in s.users ==>
                  && t.users[key].invited && t.users[key].key == key && t.users[key].sub == ""
                  && (if '@' in key then t.users[key].email == key && t.users[key].username == ""
                      else t.users[key].username == key && t.users[key].email == ""))
            && (id !in s.sessions ==> t.sessions[id] == Session("", [key], now))
            && (id in s.sessions ==>
                  && t.sessions[id].owner == s.sessions[id].owner
                  && (s.sessions[id].addedAt != 0 ==> t.sessions[id].addedAt == s.sessions[id].addedAt)
                  && t.sessions[id].members ==
                       if key in s.sessions[id].members || key == s.sessions[id].owner then s.sessions[id].members
                       else s.sessions[id].members + [key])
  {
  }

  /** A prune keeps a list, as it is, exactly if its session is live or the list is younger
      than the grace. A removal and a drop touch one list only. */
  lemma PruneKeepsExactly(s: State, live: set<string>, grace: nat, now: nat, id: string)
    ensures var t := Prune(s, live, grace, now);
            && t.users == s.users
            && (id in t.sessions <==> id in s.sessions && (id in live || now - s.sessions[id].addedAt < grace))
            && (id in t.sessions ==> t.sessions[id] == s.sessions[id])
    ensures Drop(s, id).users == s.users && Drop(s, id).sessions == map k | k in s.sessions && k != id :: s.sessions[k]
  {
  }

  lemma RemovalTouchesOne(s: State, id: string, handle: string, other: string)
    ensures var t := RemoveMember(s, id, handle);
            && t.users == s.users && t.sessions.Keys == s.sessions.Keys
            && (other in s.sessions && other != id ==> t.sessions[other] == s.sessions[other])
            && (id in s.sessions ==> t.sessions[id].owner == s.sessions[id].owner)
            && (id in s.sessions ==> t.sessions[id].addedAt == s.sessions[id].addedAt)
  {
  }

  // ---- an invitation lasts ---------------------------------------------------------

  ghost predicate Belongs(s: State, id: string, key: string) {
    id in s.sessions && (s.sessions[id].owner == key || key in s.sessions[id].members)
  }

  /** The operations that leave `key` its access to session id: all but a change of owner
      away from someone who is not also a member, the removal of a mere member, a prune of
      a session that is neither live nor within its grace, and a drop. */
  ghost predicate Harmless(s: State, op: Op, id: string, key: string) {
    match op
    case LogsIn(_, _) => true
    case SetsOwner(other, owner, _) => other != id || id == "" || Key(owner) == key || key in ACL(s, id).members
    case AddsMember(_, _, _) => true
    case RemovesMember(other, handle) => other != id || Key(handle) != key || ACL(s, id).owner == key
    case Prunes(live, grace, at) => !Orphaned(ACL(s, id), id, live, grace, at)
    case Drops(other) => other != id
  }

  /** Access survives an operation exactly if the operation is harmless. */
  lemma HarmlessIsExact(s: State, op: Op, id: string, key: string)
    requires Belongs(s, id, key)
    ensures Belongs(Step(s, op), id, key) <==> Harmless(s, op, id, key)
  {
    if op.RemovesMember? {
      WithoutKeepsOrder(ACL(s, op.id).members, Key(op.handle));
    }
  }

  ghost predicate AllHarmless(s: State, ops: seq<Op>, id: string, key: string) {
    forall i :: 0 <= i < |ops| ==> Harmless(RunFrom(s, ops[..i]), ops[i], id, key)
  }

  lemma {:induction false} BelongsStays(s: State, ops: seq<Op>, id: string, key: string)
    requires Belongs(s, id, key) && AllHarmless(s, ops, id, key)
    ensures Belongs(RunFrom(s, ops), id, key)
  {
    if ops != [] {
      var init := ops[..|ops| - 1];
      assert AllHarmless(s, init, id, key) by {
        forall i | 0 <= i < |init| ensures Harmless(RunFrom(s, init[..i]), init[i], id, key) {
          assert init[..i] == ops[..i];
          assert Harmless(RunFrom(s, ops[..i]), ops[i], id, key);
        }
      }
      BelongsStays(s, init, id, key);
      var op := ops[|ops| - 1];
      assert Harmless(RunFrom(s, ops[..|ops| - 1]), op, id, key);
      HarmlessIsExact(RunFrom(s, init), op, id, key);
    }
  }

  /** Someone invited under any spelling of their mail address, sub or username finds the
      session waiting, whatever harmless things happen in between. */
  lemma InvitationLasts(s: State, id: string, handle: string, now: nat, ops: seq<Op>, l: Login)
    requires id != "" && Key(handle) != ""
    requires Key(handle) in Principals(l.sub, l.email, l.username)
    requires AllHarmless(AddMember(s, id, handle, now), ops, id, Key(handle))
    ensures Allows(ACL(RunFrom(AddMember(s, id, handle, now), ops), id), Principals(l.sub, l.email, l.username))
  {
    BelongsStays(AddMember(s, id, handle, now), ops, id, Key(handle));
  }

  /** Handles are lower-cased when someone is invited, subs are not when they log in: an
      invitation spelled as a sub gets its owner in exactly if they were in before, or the
      sub is lower case already, or it happens to be their mail address or username too. */
  lemma InviteBySubIsExact(s: State, id: string, l: Login, now: nat)
    requires id != ""
    ensures var ps := Principals(l.sub, l.email, l.username);
            Allows(ACL(AddMember(s, id, l.sub, now), id), ps) <==>
            Allows(ACL(s, id), ps) || (Key(l.sub) != "" && Key(l.sub) in {Trim(l.sub), Key(l.email), Key(l.username)})
  {
    var key, ps, before, after := Key(l.sub), Principals(l.sub, l.email, l.username), ACL(s, id),
        ACL(AddMember(s, id, l.sub, now), id);
    assert key != "" ==> (key in ps <==> key in {Trim(l.sub), Key(l.email), Key(l.username)});
    assert after.owner == before.owner;
    assert forall p :: p in after.members || p == after.owner <==>
        p in before.members || p == before.owner || (key != "" && p == key);
    if Allows(before, ps) {
      var p :| p in ps && p != "" && (before.owner == p || p in before.members);
      assert after.owner == p || p in after.members;
    }
    if key != "" && key in ps {
      assert after.owner == key || key in after.members;
    }
  }

  lemma UpperCaseSubIsLost(s: State, id: string, now: nat)
    requires id != "" && id !in s.sessions
    ensures var l := Login("U", "", "", "");
            !Allows(ACL(AddMember(s, id, l.sub, now), id), Principals(l.sub, l.email, l.username))
  {
    var l := Login("U", "", "", "");
    InviteBySubIsExact(s, id, l, now);
    assert Trim("U") == "U" && Key("") == "";
    assert Lower("U") == "u";
  }

  /** Revoking takes away exactly what membership under that handle gave: an identity still
      gets in only as the owner or as another member. */
  lemma RevokedIsOut(s: State, id: string, handle: string, principals: seq<string>)
    requires id in s.sessions
    ensures var acl := s.sessions[id];
            Allows(ACL(RemoveMember(s, id, handle), id), principals) <==>
            exists p :: p in principals && p != "" && (acl.owner == p || (p in acl.members && p != Key(handle)))
  {
    WithoutKeepsOrder(s.sessions[id].members, Key(handle));
  }

  // ---- the store -------------------------------------------------------------------

  /** Filters a slice in place: the kept members move to the front, in order, and what
      lies behind them in the array stays as it was. */
  method FilterInPlace(a: array<string>, key: string) returns (n: nat)
    modifies a
    ensures n <= a.Length
    ensures a[..n] == Without(old(a[..]), key)
    ensures a[n..] == old(a[n..])
  {
    n := 0;
    for i := 0 to a.Length
      invariant n <= i
      invariant a[..n] == Without(old(a[..i]), key)
      invariant a[n..] == old(a[n..])
    {
      assert old(a[..i + 1])[..i] == old(a[..i]);
      assert a[i] == a[n..][i - n] == old(a[i]);
      if a[i] != key {
        a[n] := a[i];
        n := n + 1;
      }
    }
    assert old(a[..a.Length]) == old(a[..]);
  }

  class Store {
    var users: map<string, User>
    var sessions: map<string, Session>

    ghost function View(): State
      reads this
    {
      State(users, sessions)
    }

    constructor ()
      ensures View() == INIT
    {
      users, sessions := map[], map[];
    }

    method Seen(l: Login, now: nat) returns (u: User)
      modifies this
      ensures View() == Step(old(View()), LogsIn(l, now))
      ensures u.key != "" ==> u == LoginUser(old(View()), l, now) && u.key in users && users[u.key] == u
      ensures u.key == "" ==> View() == old(View())
    {
      u := User(Key(l.email), l.sub, l.email, l.name, l.username, false, now, now);
      if u.key == "" {
        u := u.(key := Trim(l.sub));
      }
      var ps := Principals(l.sub, l.email, l.username);
      var i := 0;
      while i < |ps| && ps[i] !in users
        invariant i <= |ps| && forall k :: 0 <= k < i ==> ps[k] !in users
      {
        i := i + 1;
      }
      assert i == Known(users, ps);
      if i < |ps| {
        var prior := users[ps[i]];
        u := u.(key := prior.key, firstSeen := if prior.firstSeen == 0 then now else prior.firstSeen);
      }
      if u.key == "" {
        return User("", "", "", "", "", false, 0, 0);
      }
      users := users[u.key := u];
    }

    method SetOwner(id: string, owner: string, now: nat) returns (ok: bool)
      modifies this`sessions
      ensures View() == Step(old(View()), SetsOwner(id, owner, now)) && ok == (id != "")
    {
      if id == "" {
        return false;
      }
      var acl := if id in sessions then sessions[id] else NO_ACL;
      acl := acl.(owner := Key(owner));
      if acl.addedAt == 0 {
        acl := acl.(addedAt := now);
      }
      sessions := sessions[id := acl];
      return true;
    }

    method AddMember(id: string, handle: string, now: nat) returns (ok: bool)
      modifies this
      ensures View() == Step(old(View()), AddsMember(id, handle, now))
      ensures ok == (id != "" && Key(handle) != "")
    {
      var key := Key(handle);
      if id == "" || key == "" {
        return false;
      }
      if key !in users {
        users := users[key := Invited(key)];
      }
      var acl := if id in sessions then sessions[id] else NO_ACL;
      if acl.addedAt == 0 {
        acl := acl.(addedAt := now);
      }
      if key !in acl.members && acl.owner != key {
        acl := acl.(members := acl.members + [key]);
      }
      sessions := sessions[id := acl];
      return true;
    }

    method RemoveMember(id: string, handle: string) returns (ok: bool)
      modifies this`sessions
      ensures View() == Step(old(View()), RemovesMember(id, handle)) && ok == (id in old(sessions))
    {
      if id !in sessions {
        return false;
      }
      var acl := sessions[id];
      var slice := new string[|acl.members|](i requires 0 <= i < |acl.members| => acl.members[i]);
      assert slice[..] == acl.members;
      var n := FilterInPlace(slice, Key(handle));
      sessions := sessions[id := acl.(members := slice[..n])];
      return true;
    }

    method Prune(live: set<string>, grace: nat, now: nat)
      modifies this`sessions
      ensures View() == Step(old(View()), Prunes(live, grace, now))
    {
      var left := sessions.Keys;
      while left != {}
        invariant left <= old(sessions).Keys
        invariant sessions == map id | id in old(sessions)
            && (id in left || !Orphaned(old(sessions)[id], id, live, grace, now)) :: old(sessions)[id]
        decreases |left|
      {
        var id :| id in left;
        left := left - {id};
        if id in live || now - sessions[id].addedAt < grace {
          continue;
        }
        sessions := sessions - {id};
      }
    }

    method Drop(id: string)
      modifies this`sessions
      ensures View() == Step(old(View()), Drops(id))
    {
      if id !in sessions {
        return;
      }
      sessions := sessions - {id};
    }

    /** Members resolves every key of the list, in its order; with the invariant each of
        them is a directory entry. */
    method Members(id: string) returns (out: seq<User>)
      ensures |out| == |ACL(View(), id).members|
      ensures forall i :: 0 <= i < |out| ==>
                var m := ACL(View(), id).members[i];
                && (m in users ==> out[i] == users[m])
                && (m !in users ==> out[i] == User(m, "", "", "", "", false, 0, 0))
      ensures forall i :: 0 <= i < |out| && Inv(View()) ==> out[i].key == ACL(View(), id).members[i]
      ensures forall i :: 0 <= i < |out| && Inv(View()) ==> out[i] in users.Values
    {
      var acl := if id in sessions then sessions[id] else NO_ACL;
      out := [];
      for i := 0 to |acl.members|
        invariant |out| == i
        invariant forall k :: 0 <= k < i ==>
                    var m := acl.members[k];
                    && (m in users ==> out[k] == users[m])
                    && (m !in users ==> out[k] == User(m, "", "", "", "", false, 0, 0))
      {
        var m := acl.members[i];
        if m in users {
          out := out + [users[m]];
          continue;
        }
        out := out + [User(m, "", "", "", "", false, 0, 0)];
      }
    }
  }
}
