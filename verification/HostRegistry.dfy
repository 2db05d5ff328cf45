/** The dashboard's registry of connected terminal hosts and their viewers, one step per
    critical section. Hosts and viewers are named by the order of their creation. */
module HostRegistry {
  type HostRef = nat
  type ViewerRef = nat

  /** `taken` is the list of viewers that close() took out and has yet to close. */
  datatype Host = Host(session: string, closed: bool, viewers: set<ViewerRef>, taken: set<ViewerRef>)

  /** `closes` counts the closes of the viewer's channel. */
  datatype Viewer = Viewer(host: HostRef, closes: nat)

  /** History of the registry's map. */
  datatype LogEntry = Added(h: HostRef) | Removed(h: HostRef)

  /** `owed` are the hosts somebody has left the registry's lock to close. */
  datatype State = State(hosts: map<string, HostRef>, heap: seq<Host>, viewers: seq<Viewer>, owed: set<HostRef>,
                         log: seq<LogEntry>, asked: seq<HostRef>)

  datatype Event =
    | Connect(session: string)
    | Add(h: HostRef)
    | Remove(h: HostRef)
    | CloseHost(h: HostRef)
    | CloseChannel(v: ViewerRef)
    | Attach(h: HostRef)
    | Ask(h: HostRef)
    | Detach(v: ViewerRef)

  const INIT := State(map[], [], [], {}, [], [])

  /** One step; an event on what does not exist, or not yet, changes nothing. */
  function Step(s: State, e: Event): State {
    match e
    case Connect(session) => s.(heap := s.heap + [Host(session, false, {}, {})])
    case Add(h) => if h < |s.heap| then AddStep(s, h) else s
    case Remove(h) => if h < |s.heap| then RemoveStep(s, h) else s
    case CloseHost(h) => if h < |s.heap| && h in s.owed then CloseHostStep(s, h) else s
    case CloseChannel(v) => if v < |s.viewers| && s.viewers[v].host < |s.heap| then CloseChannelStep(s, v) else s
    case Attach(h) => if h < |s.heap| then AttachStep(s, h) else s
    case Ask(h) => if h < |s.heap| && !s.heap[h].closed then s.(asked := s.asked + [h]) else s
    case Detach(v) => if v < |s.viewers| && s.viewers[v].host < |s.heap| then DetachStep(s, v) else s
  }

  function AddStep(s: State, h: HostRef): State
    requires h < |s.heap|
  {
    var session := s.heap[h].session;
    s.(hosts := s.hosts[session := h],
       owed := if session in s.hosts && s.hosts[session] != h then s.owed + {s.hosts[session]} else s.owed,
       log := s.log + [Added(h)])
  }

  function RemoveStep(s: State, h: HostRef): State
    requires h < |s.heap|
  {
    var session := s.heap[h].session;
    s.(hosts := if session in s.hosts && s.hosts[session] == h then s.hosts - {session} else s.hosts,
       owed := s.owed + {h},
       log := s.log + [Removed(h)])
  }

  function CloseHostStep(s: State, h: HostRef): State
    requires h < |s.heap|
  {
    var host := s.heap[h];
    s.(owed := s.owed - {h},
       heap := if host.closed then s.heap else s.heap[h := host.(closed := true, viewers := {}, taken := host.viewers)])
  }

  function CloseChannelStep(s: State, v: ViewerRef): State
    requires v < |s.viewers| && s.viewers[v].host < |s.heap|
  {
    var h := s.viewers[v].host;
    if v in s.heap[h].taken then
      s.(heap := s.heap[h := s.heap[h].(taken := s.heap[h].taken - {v})],
         viewers := s.viewers[v := s.viewers[v].(closes := s.viewers[v].closes + 1)])
    else s
  }

  function AttachStep(s: State, h: HostRef): State
    requires h < |s.heap|
  {
    if s.heap[h].closed then s
    else
      s.(heap := s.heap[h := s.heap[h].(viewers := s.heap[h].viewers + {|s.viewers|})],
         viewers := s.viewers + [Viewer(h, 0)])
  }

  function DetachStep(s: State, v: ViewerRef): State
    requires v < |s.viewers| && s.viewers[v].host < |s.heap|
  {
    var h := s.viewers[v].host;
    if v in s.heap[h].viewers then
      s.(heap := s.heap[h := s.heap[h].(viewers := s.heap[h].viewers - {v})],
         viewers := s.viewers[v := s.viewers[v].(closes := s.viewers[v].closes + 1)])
    else s
  }

  function Run(es: seq<Event>): State {
    if es == [] then INIT else Step(Run(es[..|es| - 1]), es[|es| - 1])
  }

  /** live: a host is registered for the session and not closed. */
  predicate Live(s: State, session: string) {
    session in s.hosts && s.hosts[session] < |s.heap| && !s.heap[s.hosts[session]].closed
  }

  // ---- what every step keeps -------------------------------------------------------

  /** Viewer v is attached, or its close is due, or it has been closed once. */
  ghost predicate ViewerOk(s: State, v: ViewerRef)
    requires v < |s.viewers|
  {
    && s.viewers[v].host < |s.heap|
    && var host := s.heap[s.viewers[v].host];
    && !(v in host.viewers && v in host.taken)
    && s.viewers[v].closes == if v in host.viewers || v in host.taken then 0 else 1
  }

  ghost predicate HostOk(s: State, h: HostRef)
    requires h < |s.heap|
  {
    && (s.heap[h].closed ==> s.heap[h].viewers == {})
    && (!s.heap[h].closed ==> s.heap[h].taken == {})
    && (forall v :: v in s.heap[h].viewers || v in s.heap[h].taken ==> v < |s.viewers| && s.viewers[v].host == h)
  }

  ghost predicate Inv(s: State) {
    && (forall v :: 0 <= v < |s.viewers| ==> ViewerOk(s, v))
    && (forall h :: 0 <= h < |s.heap| ==> HostOk(s, h))
  }

  lemma StepKeeps(s: State, e: Event)
    requires Inv(s)
    ensures Inv(Step(s, e))
  {
    var t := Step(s, e);
    forall h | 0 <= h < |t.heap| ensures HostOk(t, h) {
      if h < |s.heap| { assert HostOk(s, h); }
    }
    forall v | 0 <= v < |t.viewers| ensures ViewerOk(t, v) {
      if v < |s.viewers| {
        assert ViewerOk(s, v) && HostOk(s, s.viewers[v].host);
      } else {
        assert HostOk(s, t.viewers[v].host);
      }
    }
  }

  lemma {:induction false} RunKeeps(es: seq<Event>)
    ensures Inv(Run(es))
  {
    if es != [] {
      RunKeeps(es[..|es| - 1]);
      StepKeeps(Run(es[..|es| - 1]), es[|es| - 1]);
    }
  }

  /** In every run: a viewer's channel is closed at most once; it is still open exactly
      while the viewer is attached or its host's close is about to reach it; and when a
      host's close has finished, the channel of every viewer it ever had is closed. */
  lemma ViewersCloseOnce(es: seq<Event>, v: ViewerRef)
    requires v < |Run(es).viewers|
    ensures var s := Run(es);
            var viewer := s.viewers[v];
            && viewer.closes <= 1
            && viewer.host < |s.heap|
            && var host := s.heap[viewer.host];
            && (viewer.closes == 0 <==> v in host.viewers || v in host.taken)
            && (host.closed && host.taken == {} ==> viewer.closes == 1)
  {
    RunKeeps(es);
    assert ViewerOk(Run(es), v);
    assert HostOk(Run(es), Run(es).viewers[v].host);
  }

  /** A closed host stays closed, has no viewers and accepts none. */
  lemma ClosedIsFinal(es: seq<Event>, h: HostRef, e: Event)
    requires h < |Run(es).heap| && Run(es).heap[h].closed
    ensures Run(es).heap[h].viewers == {}
    ensures var t := Step(Run(es), e);
            h < |t.heap| && t.heap[h].closed && t.heap[h].viewers == {}
  {
    RunKeeps(es);
    StepKeeps(Run(es), e);
    assert HostOk(Run(es), h) && HostOk(Step(Run(es), e), h);
  }

  // ---- what each event does ---------------------------------------------------------

  /** An open host takes every viewer that attaches, and is asked for every snapshot; a
      closed one neither. */
  lemma OpenHostsServe(es: seq<Event>, h: HostRef)
    requires h < |Run(es).heap|
    ensures var s := Run(es);
            var a, b, n := Step(s, Attach(h)), Step(s, Ask(h)), |s.viewers|;
            && (s.heap[h].closed ==> a == s && b == s)
            && (!s.heap[h].closed ==>
                  && |a.viewers| == n + 1 && a.viewers[n] == Viewer(h, 0) && |a.heap| == |s.heap|
                  && a.heap[h].viewers == s.heap[h].viewers + {n}
                  && b == s.(asked := s.asked + [h]))
  {
  }

  /** Whichever comes first, the viewer's own leaving or its host's close, closes its
      channel, and only while it is attached, or due. */
  lemma LeavingClosesExactly(es: seq<Event>, v: ViewerRef)
    requires v < |Run(es).viewers|
    ensures var s := Run(es);
            var h, a, b := s.viewers[v].host, Step(s, Detach(v)), Step(s, CloseChannel(v));
            && h < |s.heap| && v < |a.viewers| && v < |b.viewers| && |a.heap| == |b.heap| == |s.heap|
            && (v in s.heap[h].viewers ==>
                  a.viewers[v].closes == 1 && a.heap[h].viewers == s.heap[h].viewers - {v} && b == s)
            && (v in s.heap[h].taken ==>
                  b.viewers[v].closes == 1 && b.heap[h].taken == s.heap[h].taken - {v} && a == s)
            && (v !in s.heap[h].viewers && v !in s.heap[h].taken ==> a == s && b == s)
  {
    RunKeeps(es);
    assert ViewerOk(Run(es), v);
  }

  /** A close that is owed takes the viewers of an open host out, to be closed one by one;
      of a closed one it changes nothing. An addition makes its predecessor owe a close, and
      a removal the host itself. */
  lemma ClosesAreOwed(es: seq<Event>, h: HostRef)
    requires h < |Run(es).heap|
    ensures var s := Run(es);
            var host, a, r, c := s.heap[h], Step(s, Add(h)), Step(s, Remove(h)), Step(s, CloseHost(h));
            && (h in s.owed ==>
                  && |c.heap| == |s.heap| && c.owed == s.owed - {h} && c.hosts == s.hosts
                  && c.heap[h] ==
                       if host.closed then host else host.(closed := true, viewers := {}, taken := host.viewers))
            && (h !in s.owed ==> c == s)
            && r.owed == s.owed + {h} && r.heap == s.heap
            && a.heap == s.heap
            && a.owed == s.owed
                 + (if host.session in s.hosts && s.hosts[host.session] != h then {s.hosts[host.session]} else {})
  {
  }

  // ---- the registry answers for its log --------------------------------------------

  /** h is the last host added for its session and has not been removed since. */
  ghost predicate IsLatest(heap: seq<Host>, log: seq<LogEntry>, session: string, h: HostRef) {
    exists i :: IsLatestAt(heap, log, session, h, i)
  }

  ghost predicate IsLatestAt(heap: seq<Host>, log: seq<LogEntry>, session: string, h: HostRef, i: int) {
    && 0 <= i < |log| && log[i] == Added(h)
    && h < |heap| && heap[h].session == session
    && forall j :: i < j < |log| ==>
         && (log[j].Added? && log[j].h < |heap| ==> heap[log[j].h].session != session)
         && log[j] != Removed(h)
  }

  ghost predicate SameSessions(a: seq<Host>, b: seq<Host>) {
    |a| <= |b| && forall h {:trigger b[h]} :: 0 <= h < |a| ==> b[h].session == a[h].session
  }

  ghost predicate LogOk(heap: seq<Host>, log: seq<LogEntry>) {
    forall i :: 0 <= i < |log| ==> log[i].h < |heap|
  }

  lemma LatestFrame(a: seq<Host>, b: seq<Host>, log: seq<LogEntry>, session: string, h: HostRef)
    requires SameSessions(a, b) && LogOk(a, log)
    ensures IsLatest(a, log, session, h) <==> IsLatest(b, log, session, h)
  {
    if IsLatest(a, log, session, h) {
      var i :| IsLatestAt(a, log, session, h, i);
      assert IsLatestAt(b, log, session, h, i);
    }
    if IsLatest(b, log, session, h) {
      var i :| IsLatestAt(b, log, session, h, i);
      assert b[h].session == a[h].session;
      assert IsLatestAt(a, log, session, h, i);
    }
  }

  /** One more entry in the log. */
  lemma LatestSnoc(heap: seq<Host>, log: seq<LogEntry>, x: LogEntry, session: string, h: HostRef)
    requires x.h < |heap|
    ensures IsLatest(heap, log + [x], session, h) <==>
              if x.Added? && heap[x.h].session == session then h == x.h
              else IsLatest(heap, log, session, h) && x != Removed(h)
  {
    var more := log + [x];
    if IsLatest(heap, more, session, h) {
      var i :| IsLatestAt(heap, more, session, h, i);
      if i < |log| {
        assert more[|log|] == x;
        assert forall j :: i < j < |log| ==> more[j] == log[j];
        assert IsLatestAt(heap, log, session, h, i);
      }
    }
    if x == Added(h) && heap[h].session == session {
      assert IsLatestAt(heap, more, session, h, |log|);
    }
    if IsLatest(heap, log, session, h) && !(x.Added? && heap[x.h].session == session) && x != Removed(h) {
      var i :| IsLatestAt(heap, log, session, h, i);
      assert IsLatestAt(heap, more, session, h, i);
    }
  }

  ghost predicate Agrees(s: State) {
    && LogOk(s.heap, s.log)
    && (forall session :: session in s.hosts ==> s.hosts[session] < |s.heap|)
    && forall session, h :: IsLatest(s.heap, s.log, session, h) <==> session in s.hosts && s.hosts[session] == h
  }

  lemma StepAgrees(s: State, e: Event)
    requires Agrees(s)
    ensures Agrees(Step(s, e))
  {
    var t := Step(s, e);
    assert SameSessions(s.heap, t.heap);
    forall session, h ensures IsLatest(t.heap, t.log, session, h) <==> session in t.hosts && t.hosts[session] == h {
      LatestFrame(s.heap, t.heap, s.log, session, h);
      if t.log != s.log {
        LatestSnoc(t.heap, s.log, t.log[|s.log|], session, h);
      }
    }
  }

  /** In every run the registry maps a session to the last host added for it, if that one
      has not been removed since, and to nothing otherwise. */
  lemma {:induction false} RegistryAgreesWithLog(es: seq<Event>)
    ensures Agrees(Run(es))
  {
    if es == [] {
      forall session, h ensures !IsLatest([], [], session, h) {
      }
    } else {
      RegistryAgreesWithLog(es[..|es| - 1]);
      StepAgrees(Run(es[..|es| - 1]), es[|es| - 1]);
    }
  }

  lemma RegisteredUnder(s: State, session: string)
    requires Agrees(s) && session in s.hosts
    ensures s.hosts[session] < |s.heap| && s.heap[s.hosts[session]].session == session
  {
    assert IsLatest(s.heap, s.log, session, s.hosts[session]);
  }

  /** The late remove of a displaced host does not evict its successor: whoever was added
      last for the session stays registered, and as live as before. */
  lemma LateRemoveIsHarmless(es: seq<Event>, late: HostRef, session: string, h: HostRef)
    requires IsLatest(Run(es).heap, Run(es).log, session, h) && late != h
    ensures var t := Step(Run(es), Remove(late));
            && session in t.hosts && t.hosts[session] == h
            && IsLatest(t.heap, t.log, session, h)
            && Live(t, session) == Live(Run(es), session)
  {
    RegistryAgreesWithLog(es);
    StepAgrees(Run(es), Remove(late));
  }

  /** live looks the session up and then, under another lock, asks the host it found: the
      answer of a lookup in one state and a check in a later one. */
  predicate LiveAnswer(looked: State, checked: State, session: string) {
    session in looked.hosts && looked.hosts[session] < |checked.heap| && !checked.heap[looked.hosts[session]].closed
  }

  lemma StepCloses(s: State, e: Event, h: HostRef)
    requires h < |s.heap|
    ensures var t := Step(s, e);
            h < |t.heap| && t.heap[h].session == s.heap[h].session && (s.heap[h].closed ==> t.heap[h].closed)
  {
  }

  lemma {:induction false} ClosedStays(es: seq<Event>, more: seq<Event>, h: HostRef)
    requires h < |Run(es).heap|
    ensures var s, t := Run(es), Run(es + more);
            h < |t.heap| && t.heap[h].session == s.heap[h].session && (s.heap[h].closed ==> t.heap[h].closed)
  {
    if more == [] {
      assert es + more == es;
    } else {
      var init, e := more[..|more| - 1], more[|more| - 1];
      assert (es + more)[..|es + more| - 1] == es + init;
      ClosedStays(es, init, h);
      StepCloses(Run(es + init), e, h);
    }
  }

  /** Somebody who owed it closes host h within `more`. */
  ghost predicate ClosesIn(es: seq<Event>, more: seq<Event>, h: HostRef) {
    exists i :: 0 <= i < |more| && ClosesAt(es, more, h, i)
  }

  ghost predicate ClosesAt(es: seq<Event>, more: seq<Event>, h: HostRef, i: nat)
    requires i < |more|
  {
    more[i] == CloseHost(h) && h in Run(es + more[..i]).owed
  }

  /** Another host is added for the session within `more`. */
  ghost predicate ReplacesIn(es: seq<Event>, more: seq<Event>, session: string, h: HostRef) {
    exists i :: 0 <= i < |more| && ReplacesAt(es, more, session, h, i)
  }

  ghost predicate ReplacesAt(es: seq<Event>, more: seq<Event>, session: string, h: HostRef, i: nat)
    requires i < |more|
  {
    var s := Run(es + more[..i]);
    more[i].Add? && more[i].h != h && more[i].h < |s.heap| && s.heap[more[i].h].session == session
  }

  lemma RunExtends(es: seq<Event>, more: seq<Event>)
    requires more != []
    ensures Run(es + more) == Step(Run(es + more[..|more| - 1]), more[|more| - 1])
  {
    assert (es + more)[..|es + more| - 1] == es + more[..|more| - 1];
  }

  lemma ClosesExtends(es: seq<Event>, more: seq<Event>, h: HostRef)
    requires more != []
    ensures var init, last := more[..|more| - 1], more[|more| - 1];
            ClosesIn(es, more, h) <==>
              ClosesIn(es, init, h) || (last == CloseHost(h) && h in Run(es + init).owed)
  {
    var init := more[..|more| - 1];
    forall i | 0 <= i < |init| ensures ClosesAt(es, more, h, i) == ClosesAt(es, init, h, i) {
      assert more[..i] == init[..i];
    }
    assert ClosesAt(es, more, h, |init|) <==> more[|init|] == CloseHost(h) && h in Run(es + init).owed;
  }

  lemma ReplacesExtends(es: seq<Event>, more: seq<Event>, session: string, h: HostRef)
    requires more != [] && ReplacesIn(es, more[..|more| - 1], session, h)
    ensures ReplacesIn(es, more, session, h)
  {
    var init := more[..|more| - 1];
    var i :| 0 <= i < |init| && ReplacesAt(es, init, session, h, i);
    assert more[..i] == init[..i] && ReplacesAt(es, more, session, h, i);
  }

  lemma ClosesStep(s: State, e: Event, h: HostRef)
    requires h < |s.heap|
    ensures var t := Step(s, e);
            && h < |t.heap|
            && (t.heap[h].closed <==> s.heap[h].closed || (e == CloseHost(h) && h in s.owed))
  {
  }

  /** An open host is closed at the end exactly if somebody who owed it closes it. */
  lemma {:induction false} ClosedExactly(es: seq<Event>, more: seq<Event>, h: HostRef)
    requires h < |Run(es).heap| && !Run(es).heap[h].closed
    ensures var t := Run(es + more);
            h < |t.heap| && (t.heap[h].closed <==> ClosesIn(es, more, h))
  {
    if more == [] {
      assert es + more == es;
    } else {
      var init, last := more[..|more| - 1], more[|more| - 1];
      ClosedExactly(es, init, h);
      RunExtends(es, more);
      ClosesExtends(es, more, h);
      ClosesStep(Run(es + init), last, h);
    }
  }

  /** A session that is registered at both ends under different hosts got one of them in
      between. */
  lemma {:induction false} ReplacedByAdd(es: seq<Event>, more: seq<Event>, session: string, h: HostRef)
    requires session in Run(es).hosts ==> Run(es).hosts[session] == h
    requires session in Run(es + more).hosts && Run(es + more).hosts[session] != h
    ensures ReplacesIn(es, more, session, h)
  {
    assert es + [] == es;
    if more != [] {
      var init, last := more[..|more| - 1], more[|more| - 1];
      RunExtends(es, more);
      var u := Run(es + init);
      if session in u.hosts && u.hosts[session] != h {
        ReplacedByAdd(es, init, session, h);
        ReplacesExtends(es, more, session, h);
      } else {
        assert ReplacesAt(es, more, session, h, |init|);
      }
    }
  }

  /** A yes means the session was live at the lookup. For a session that is live at both
      moments the answer is no exactly if the host that was found is closed in between, and
      then another has been added for the session. */
  lemma LiveAnswersExactly(es: seq<Event>, more: seq<Event>, session: string)
    ensures var s, t := Run(es), Run(es + more);
            && (LiveAnswer(s, t, session) ==> Live(s, session))
            && (Live(s, session) && Live(t, session) ==>
                  && (!LiveAnswer(s, t, session) <==> ClosesIn(es, more, s.hosts[session]))
                  && (!LiveAnswer(s, t, session) ==> ReplacesIn(es, more, session, s.hosts[session])))
  {
    RegistryAgreesWithLog(es);
    var s, t := Run(es), Run(es + more);
    if session in s.hosts {
      var h := s.hosts[session];
      ClosedStays(es, more, h);
      if Live(s, session) {
        ClosedExactly(es, more, h);
        if Live(t, session) && t.heap[h].closed { ReplacedByAdd(es, more, session, h); }
      }
    }
  }

  lemma CloseSparesOthers(s: State, session: string, h: HostRef)
    requires h in s.owed && h < |s.heap| && Live(Step(s, CloseHost(h)), session)
    ensures session in s.hosts && s.hosts[session] != h
  {
  }

  /** A session that is live all the while got its new host before the old one was closed. */
  lemma LiveThroughout(es: seq<Event>, more: seq<Event>, session: string, i: nat)
    requires MissedWhileLive(es, more, session)
    requires i < |more| && session in Run(es).hosts && ClosesAt(es, more, Run(es).hosts[session], i)
    ensures ReplacesIn(es, more[..i], session, Run(es).hosts[session])
  {
    var h, upto := Run(es).hosts[session], more[..i + 1];
    assert Live(Run(es + upto), session) && upto[..i] == more[..i];
    RunExtends(es, upto);
    RegistryAgreesWithLog(es);
    ClosedStays(es, more[..i], h);
    CloseSparesOthers(Run(es + more[..i]), session, h);
    ReplacedByAdd(es, more[..i], session, h);
  }

  /** Nothing leaks: a host that was registered and no longer is, is closed, or somebody
      is about to close it. */
  ghost predicate NoLeak(s: State) {
    forall i :: 0 <= i < |s.log| ==>
      var h := s.log[i].h;
      && h < |s.heap|
      && ((s.heap[h].session in s.hosts && s.hosts[s.heap[h].session] == h) || s.heap[h].closed || h in s.owed)
  }

  lemma {:induction false} DisplacedHostsGetClosed(es: seq<Event>)
    ensures NoLeak(Run(es))
  {
    if es != [] {
      var s, e := Run(es[..|es| - 1]), es[|es| - 1];
      DisplacedHostsGetClosed(es[..|es| - 1]);
      var t := Step(s, e);
      forall i | 0 <= i < |t.log|
        ensures var h := t.log[i].h;
                && h < |t.heap|
                && ((t.heap[h].session in t.hosts && t.hosts[t.heap[h].session] == h)
                    || t.heap[h].closed || h in t.owed)
      {
        if i < |s.log| {
          assert t.log[i] == s.log[i];
        }
      }
    }
  }

  ghost predicate MissedWhileLive(es: seq<Event>, more: seq<Event>, session: string) {
    && (forall k :: 0 <= k <= |more| ==> Live(Run(es + more[..k]), session))
    && !LiveAnswer(Run(es), Run(es + more), session)
  }

  /** A host and its successor: every moment is live, the first host ends up closed. */
  lemma Succession(s: State, session: string)
    requires s.heap == [Host(session, false, {}, {})] && s.hosts == map[session := 0]
    ensures var t := Step(s, Connect(session));
            var u := Step(t, Add(1));
            var v := Step(u, CloseHost(0));
            Live(s, session) && Live(t, session) && Live(u, session) && Live(v, session) && !LiveAnswer(s, v, session)
  {
  }

  lemma FirstHost(session: string)
    ensures var s := Run([Connect(session), Add(0)]);
            s.heap == [Host(session, false, {}, {})] && s.hosts == map[session := 0]
  {
    RunSnoc([], Connect(session));
    RunSnoc([Connect(session)], Add(0));
    assert [] + [Connect(session)] == [Connect(session)];
    assert [Connect(session)] + [Add(0)] == [Connect(session), Add(0)];
  }

  lemma Moments(es: seq<Event>, a: Event, b: Event, c: Event, k: nat)
    requires k <= 3
    ensures var s := Run(es);
            Run(es + [a, b, c][..k]) == match k
              case 0 => s
              case 1 => Step(s, a)
              case 2 => Step(Step(s, a), b)
              case _ => Step(Step(Step(s, a), b), c)
  {
    if k == 0 {
      assert es + [a, b, c][..0] == es;
    } else {
      var last := [a, b, c][k - 1];
      assert es + [a, b, c][..k] == (es + [a, b, c][..k - 1]) + [last];
      RunSnoc(es + [a, b, c][..k - 1], last);
      Moments(es, a, b, c, k - 1);
    }
  }

  /** A reconnecting wrapper can make live miss it: registered and open at every moment,
      the session still gets a no. */
  lemma LiveMayMissASuccessor(session: string)
    ensures exists es, more :: MissedWhileLive(es, more, session)
  {
    var es, more := [Connect(session), Add(0)], [Connect(session), Add(1), CloseHost(0)];
    FirstHost(session);
    Succession(Run(es), session);
    forall k | 0 <= k <= 3 ensures Live(Run(es + more[..k]), session) {
      Moments(es, more[0], more[1], more[2], k);
    }
    assert more[..3] == more;
    Moments(es, more[0], more[1], more[2], 3);
    assert MissedWhileLive(es, more, session);
  }

  lemma RunSnoc(es: seq<Event>, e: Event)
    ensures Run(es + [e]) == Step(Run(es), e)
  {
    assert (es + [e])[..|es|] == es;
  }

  // ---- the class -------------------------------------------------------------------

  class TermHosts {
    var hosts: map<string, HostRef>
    var heap: seq<Host>
    var viewers: seq<Viewer>
    var owed: set<HostRef>
    var log: seq<LogEntry> // history
    var asked: seq<HostRef> // the hosts asked for a snapshot, in order

    ghost function View(): State
      reads this
    {
      State(hosts, heap, viewers, owed, log, asked)
    }

    constructor ()
      ensures View() == INIT
    {
      hosts, heap, viewers, owed, log, asked := map[], [], [], {}, [], [];
    }

    /** The locked half of add; `prev` is the host the caller must now close, if any. */
    method Add(h: HostRef) returns (displaced: bool, prev: HostRef)
      requires h < |heap|
      modifies this
      ensures View() == Step(old(View()), Event.Add(h))
      ensures displaced ==> prev in owed && prev != h
      ensures displaced <==> heap[h].session in old(hosts) && old(hosts)[heap[h].session] != h
    {
      var session := heap[h].session;
      displaced, prev := false, h;
      if session in hosts {
        prev := hosts[session];
      }
      hosts := hosts[session := h];
      log := log + [Added(h)];
      if prev != h {
        displaced := true;
        owed := owed + {prev};
      }
    }

    /** The locked half of remove. */
    method Remove(h: HostRef)
      requires h < |heap|
      modifies this
      ensures View() == Step(old(View()), Event.Remove(h))
    {
      var session := heap[h].session;
      if session in hosts && hosts[session] == h {
        hosts := hosts - {session};
      }
      owed := owed + {h};
      log := log + [Removed(h)];
    }

    /** The locked half of close: the first call takes the viewers out, later ones return. */
    method CloseHost(h: HostRef)
      requires h < |heap| && h in owed
      modifies this
      ensures View() == Step(old(View()), Event.CloseHost(h))
    {
      owed := owed - {h};
      if heap[h].closed {
        return;
      }
      var taken, left := {}, heap[h].viewers;
      while left != {}
        invariant left <= heap[h].viewers && taken == heap[h].viewers - left
        decreases |left|
      {
        var v :| v in left;
        taken := taken + {v};
        left := left - {v};
      }
      assert taken == heap[h].viewers;
      heap := heap[h := heap[h].(closed := true, viewers := {}, taken := taken)];
    }

    /** The rest of close: the channels of the viewers taken out, one after the other. */
    method CloseTaken(h: HostRef)
      requires Inv(View()) && h < |heap|
      modifies this`heap, this`viewers
      ensures Inv(View()) && |heap| == |old(heap)| && heap[h] == old(heap[h]).(taken := {})
      ensures |viewers| == |old(viewers)|
      ensures forall v :: 0 <= v < |viewers| ==>
                viewers[v] == if v in old(heap[h].taken) then old(viewers)[v].(closes := 1) else old(viewers)[v]
      ensures forall k :: 0 <= k < |heap| && k != h ==> heap[k] == old(heap)[k]
    {
      while heap[h].taken != {}
        invariant Inv(View()) && |heap| == |old(heap)| && heap[h] == old(heap)[h].(taken := heap[h].taken)
        invariant heap[h].taken <= old(heap[h].taken) && |viewers| == |old(viewers)|
        invariant forall v :: 0 <= v < |viewers| ==>
                    viewers[v] ==
                      if v in old(heap[h].taken) && v !in heap[h].taken then old(viewers)[v].(closes := 1)
                      else old(viewers)[v]
        invariant forall k :: 0 <= k < |heap| && k != h ==> heap[k] == old(heap)[k]
        decreases |heap[h].taken|
      {
        var v :| v in heap[h].taken;
        assert HostOk(View(), h) && ViewerOk(View(), v);
        StepKeeps(View(), CloseChannel(v));
        heap := heap[h := heap[h].(taken := heap[h].taken - {v})];
        viewers := viewers[v := viewers[v].(closes := viewers[v].closes + 1)];
      }
    }

    /** The locked half of attach. */
    method Attach(h: HostRef) returns (v: ViewerRef, ok: bool)
      requires h < |heap|
      modifies this
      ensures View() == Step(old(View()), Event.Attach(h))
      ensures ok == !old(heap[h].closed) && (ok ==> v == old(|viewers|) && v in heap[h].viewers)
    {
      if heap[h].closed {
        return 0, false;
      }
      v, ok := |viewers|, true;
      viewers := viewers + [Viewer(h, 0)];
      heap := heap[h := heap[h].(viewers := heap[h].viewers + {v})];
    }

    /** The rest of attach, and control: a host that has been closed by then is not asked. */
    method RequestSnapshot(h: HostRef) returns (sent: bool)
      requires h < |heap|
      modifies this`asked
      ensures View() == Step(old(View()), Event.Ask(h)) && sent == !heap[h].closed
    {
      if heap[h].closed {
        return false;
      }
      asked := asked + [h];
      return true;
    }

    method Detach(v: ViewerRef)
      requires v < |viewers| && viewers[v].host < |heap|
      modifies this
      ensures View() == Step(old(View()), Event.Detach(v))
    {
      var h := viewers[v].host;
      if v in heap[h].viewers {
        heap := heap[h := heap[h].(viewers := heap[h].viewers - {v})];
        viewers := viewers[v := viewers[v].(closes := viewers[v].closes + 1)];
      }
    }

    /** dropTermHost: takes the session's host off the registry and closes it, unless
        somebody else is closing it already. */
    method Drop(session: string)
      requires Inv(View()) && Agrees(View())
      modifies this
      ensures Inv(View()) && session !in hosts
      ensures forall k :: k in hosts <==> k in old(hosts) && k != session
      ensures forall k :: k in hosts ==> hosts[k] == old(hosts)[k]
      ensures |heap| == |old(heap)| && |viewers| == |old(viewers)|
      ensures session !in old(hosts) ==> View() == old(View())
      ensures session in old(hosts) ==>
                var h := old(hosts)[session];
                && h < |heap| && heap[h].closed && heap[h].viewers == {}
                && (forall v :: 0 <= v < |viewers| ==>
                      viewers[v] == if v in old(heap)[h].viewers then old(viewers)[v].(closes := 1)
                          else old(viewers)[v])
                && (forall k :: 0 <= k < |heap| && k != h ==> heap[k] == old(heap)[k])
    {
      var h, found := Get(session);
      if !found {
        return;
      }
      RegisteredUnder(View(), session);
      var open := !heap[h].closed;
      StepKeeps(View(), Event.Remove(h));
      Remove(h);
      StepKeeps(View(), Event.CloseHost(h));
      CloseHost(h);
      assert HostOk(old(View()), h);
      if open {
        CloseTaken(h);
      }
    }

    method Get(session: string) returns (h: HostRef, ok: bool)
      ensures ok == (session in hosts) && (ok ==> h == hosts[session])
    {
      if session !in hosts {
        return 0, false;
      }
      return hosts[session], true;
    }

    method IsClosed(h: HostRef) returns (closed: bool)
      requires h < |heap|
      ensures closed == heap[h].closed
    {
      return heap[h].closed;
    }

    /** live, with nothing between its two critical sections. */
    method IsLive(session: string) returns (ok: bool)
      requires forall k :: k in hosts ==> hosts[k] < |heap|
      ensures ok == LiveAnswer(View(), View(), session)
      ensures ok == Live(View(), session)
    {
      var h, found := Get(session);
      if !found {
        return false;
      }
      var closed := IsClosed(h);
      return !closed;
    }
  }
}
