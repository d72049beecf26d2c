/** Runs from idle reactors that end with callers waiting for ever (src/lib/iomgr.cpp), one for each of the two
    causes. */
module WaitDeadlocks {
  import MF = MessageFlow
  import opened FiberChannel
  import opened MulticastWait
  import opened WaitCycles

  /** A message for a fiber, forwarded to its queue. */
  function Parked(s: MF.State, m: MF.Msg): MF.State
    requires m.dest in s.fibers
  {
    s.(sent := s.sent + [m], fibers := s.fibers[m.dest := Push(s.fibers[m.dest], MF.CAP, m)])
  }

  lemma Forwarded(s: MF.State, m: MF.Msg)
    requires s.mailbox == [] && m.dest in s.fibers && m.dest != MF.MAIN && m !in s.sent
    ensures var s1 := MF.Step(s, MF.Remote(m));
            MF.Legal(s1, MF.MainTakes) && MF.Step(s1, MF.MainTakes) == Parked(s, m)
  {
    var s1 := MF.Step(s, MF.Remote(m));
    assert s1.mailbox == [m] && s1.mailbox[1..] == [];
  }

  /** Nothing of the kind was sent, and the reactor's main fiber is free to take it. */
  predicate Unsent(rs: Reactors, m: MF.Msg) {
    forall r :: r in rs ==> m !in rs[r].sent
  }

  predicate Free(w: World, r: ReactorId, f: MF.Fiber) {
    && r in w.reactors && w.reactors[r].mailbox == [] && OnFiber(r, MF.MAIN) !in w.calls
    && f in w.reactors[r].fibers && f != MF.MAIN
  }

  /** Somebody sends a message to a fiber, and it gets to the fiber's queue. */
  lemma Park(w: World, r: ReactorId, m: MF.Msg) returns (w': World)
    requires Reachable(w) && Free(w, r, m.dest) && Unsent(w.reactors, m)
    ensures Reachable(w') && w' == w.(reactors := w.reactors[r := Parked(w.reactors[r], m)])
  {
    Forwarded(w.reactors[r], m);
    ReachableStep(w, On(r, MF.Remote(m)));
    var w1 := Step(w, On(r, MF.Remote(m)));
    ReachableStep(w1, On(r, MF.MainTakes));
    w' := Step(w1, On(r, MF.MainTakes));
    assert w1.reactors[r := Parked(w.reactors[r], m)] == w.reactors[r := Parked(w.reactors[r], m)];
  }

  /** A caller sends a copy to a fiber of another reactor, and it gets there. */
  lemma ParkCopy(w: World, x: Caller, d: Delivery) returns (w': World)
    requires Reachable(w) && x in w.calls && Free(w, d.reactor, d.fiber) && Unsent(w.reactors, Message(d))
    requires x.OnFiber? ==> x.reactor != d.reactor
    ensures Reachable(w')
    ensures w' == World(w.reactors[d.reactor := Parked(w.reactors[d.reactor], Message(d))],
                        w.calls[x := w.calls[x] + {d}])
  {
    var s := w.reactors[d.reactor];
    Forwarded(s, Message(d));
    ReachableStep(w, Send(x, d));
    var w1 := Step(w, Send(x, d));
    ReachableStep(w1, On(d.reactor, MF.MainTakes));
    w' := Step(w1, On(d.reactor, MF.MainTakes));
    assert w1.reactors[d.reactor := Parked(s, Message(d))] == w.reactors[d.reactor := Parked(s, Message(d))];
  }

  const TwoFibers: set<MF.Fiber> := {MF.MAIN, 1}

  /** A reactor whose fiber 1 is running `a`. */
  function Occupied(a: MF.Msg): (s: MF.State)
    requires a.dest == 1
  {
    Parked(MF.Idle(TwoFibers), a)
  }

  lemma OccupiedIs(a: MF.Msg)
    requires a.dest == 1
    ensures var s := Occupied(a);
            && s.mailbox == [] && s.sent == [a] && s.executed == [] && s.fibers.Keys == TwoFibers
            && s.fibers[1].channel == [a] && s.fibers[MF.MAIN].channel == []
  {
  }

  /** Two reactors, and their fibers 1 in calls that sent these copies. */
  function Pair(s: MF.State, t: MF.State, sent: set<Delivery>, sent': set<Delivery>): World {
    World(map[0 := s, 1 := t], map[OnFiber(0, 1) := sent, OnFiber(1, 1) := sent'])
  }

  lemma FirstOccupied(s: MF.State, t: MF.State, a: MF.Msg)
    requires Reachable(World(map[0 := s, 1 := t], map[])) && s.mailbox == [] && 1 in s.fibers && a.dest == 1
    requires a !in s.sent && a !in t.sent
    ensures Reachable(World(map[0 := Parked(s, a), 1 := t], map[]))
  {
    var w := World(map[0 := s, 1 := t], map[]);
    assert Free(w, 0, 1) && Unsent(w.reactors, a);
    var w' := Park(w, 0, a);
    assert w'.reactors == map[0 := Parked(s, a), 1 := t];
  }

  lemma SecondOccupied(s: MF.State, t: MF.State, b: MF.Msg)
    requires Reachable(World(map[0 := s, 1 := t], map[])) && t.mailbox == [] && 1 in t.fibers && b.dest == 1
    requires b !in s.sent && b !in t.sent
    ensures Reachable(World(map[0 := s, 1 := Parked(t, b)], map[]))
  {
    var w := World(map[0 := s, 1 := t], map[]);
    assert Free(w, 1, 1) && Unsent(w.reactors, b);
    var w' := Park(w, 1, b);
    assert w'.reactors == map[0 := s, 1 := Parked(t, b)];
  }

  lemma BothOccupied(a: MF.Msg, b: MF.Msg)
    requires a.dest == 1 && b.dest == 1 && a != b
    ensures Reachable(World(map[0 := Occupied(a), 1 := Occupied(b)], map[]))
  {
    var fibers: map<ReactorId, set<MF.Fiber>> := map[0 := TwoFibers, 1 := TwoFibers];
    var w0, idle := Fresh(fibers), MF.Idle(TwoFibers);
    assert LegalRun(w0, []) && Exec(w0, []) == w0;
    assert w0.reactors == map[0 := idle, 1 := idle];
    FirstOccupied(idle, idle, a);
    OccupiedIs(a);
    SecondOccupied(Occupied(a), idle, b);
  }

  lemma BothEnter(s: MF.State, t: MF.State)
    requires Reachable(World(map[0 := s, 1 := t], map[]))
    requires 1 in s.fibers && s.fibers[1].channel != [] && 1 in t.fibers && t.fibers[1].channel != []
    ensures Reachable(Pair(s, t, {}, {}))
  {
    var w2, x, y := World(map[0 := s, 1 := t], map[]), OnFiber(0, 1), OnFiber(1, 1);
    ReachableStep(w2, Enter(x));
    var w3 := Step(w2, Enter(x));
    ReachableStep(w3, Enter(y));
    assert Step(w3, Enter(y)).calls == Pair(s, t, {}, {}).calls;
  }

  lemma TwoKeys<K, V>(k: K, l: K, a: V, b: V, c: V)
    requires k != l
    ensures map[k := a, l := b][k := c] == map[k := c, l := b]
    ensures map[k := a, l := b][l := c] == map[k := a, l := c]
  {
  }

  lemma FirstSends(s: MF.State, t: MF.State, d: Delivery)
    requires Reachable(Pair(s, t, {}, {})) && d.reactor == 1 && d.fiber == 1 && 1 in t.fibers && t.mailbox == []
    requires Message(d) !in s.sent && Message(d) !in t.sent
    ensures Reachable(Pair(s, Parked(t, Message(d)), {d}, {}))
  {
    var w1, x := Pair(s, t, {}, {}), OnFiber(0, 1);
    assert Free(w1, 1, 1) && Unsent(w1.reactors, Message(d));
    var w2 := ParkCopy(w1, x, d);
    assert w1.calls[x] + {d} == {d};
    TwoKeys<ReactorId, MF.State>(0, 1, s, t, Parked(t, Message(d)));
    TwoKeys<Caller, set<Delivery>>(x, OnFiber(1, 1), {}, {}, {d});
  }

  lemma SecondSends(s: MF.State, t: MF.State, d: Delivery, d': Delivery)
    requires Reachable(Pair(s, t, {d}, {})) && d'.reactor == 0 && d'.fiber == 1 && 1 in s.fibers && s.mailbox == []
    requires Message(d') !in s.sent && Message(d') !in t.sent
    ensures Reachable(Pair(Parked(s, Message(d')), t, {d}, {d'}))
  {
    var w1, y := Pair(s, t, {d}, {}), OnFiber(1, 1);
    assert Free(w1, 0, 1) && Unsent(w1.reactors, Message(d'));
    var w2 := ParkCopy(w1, y, d');
    assert w1.calls[y] + {d'} == {d'};
    TwoKeys<ReactorId, MF.State>(0, 1, s, t, Parked(s, Message(d')));
    TwoKeys<Caller, set<Delivery>>(OnFiber(0, 1), y, {d}, {}, {d'});
  }

  /** Nothing is left to do when all mailboxes are empty, only callers have something queued, and they still wait. */
  lemma RestWhen(w: World)
    requires forall r :: r in w.reactors ==> w.reactors[r].mailbox == []
    requires forall r, f :: r in w.reactors && f in w.reactors[r].fibers && w.reactors[r].fibers[f].channel != [] ==>
               f == MF.MAIN || OnFiber(r, f) in w.calls
    requires forall x :: x in w.calls ==> exists d :: d in w.calls[x] && !Settled(w.reactors, d)
    ensures AtRest(w)
  {
    forall e | Finishing(e) ensures !Legal(w, e) {
      if e.On? && e.e.FiberTakes? && e.reactor in w.reactors && MF.Legal(w.reactors[e.reactor], e.e) {
        assert OnFiber(e.reactor, e.e.f) in w.calls;
      }
    }
  }

  /** A second message behind the one the fiber is running. */
  lemma QueuedBehind(a: MF.Msg, m: MF.Msg)
    requires a.dest == 1 && m.dest == 1
    ensures var s := Parked(Occupied(a), m);
            && s.mailbox == [] && s.sent == [a, m] && s.fibers.Keys == TwoFibers
            && s.fibers[MF.MAIN].channel == [] && m in MF.Queued(s, 1) && s.fulfilled[m] == 0
  {
    OccupiedIs(a);
    assert Push(Occupied(a).fibers[1], MF.CAP, m).channel == [a, m];
  }

  /** What lies in the queue of fiber 1, and nothing else in the way. */
  predicate Holds(s: MF.State, m: MF.Msg) {
    && s.mailbox == [] && s.fibers.Keys == TwoFibers && m.dest == 1 && m in MF.Queued(s, 1) && s.fulfilled[m] == 0
  }

  lemma MutualIsStuck(s: MF.State, t: MF.State, d: Delivery, d': Delivery)
    requires d.reactor == 1 && d.fiber == 1 && Holds(t, Message(d))
    requires d'.reactor == 0 && d'.fiber == 1 && Holds(s, Message(d'))
    ensures var w := Pair(s, t, {d}, {d'});
            AtRest(w) && Cycle(w, [OnFiber(0, 1), OnFiber(1, 1)]) && forall x :: !WaitsOnOwnMain(w, x)
  {
    var w, x, y := Pair(s, t, {d}, {d'}), OnFiber(0, 1), OnFiber(1, 1);
    assert Awaits(w, x, d) && LiesWith(w.reactors, d, y);
    assert Awaits(w, y, d') && LiesWith(w.reactors, d', x);
    assert d in w.calls[x] && !Settled(w.reactors, d);
    assert d' in w.calls[y] && !Settled(w.reactors, d');
    RestWhen(w);
  }

  /** Two fibers, each waiting for a copy in the other's queue: nothing is left to do and neither call returns. */
  lemma MutualWaitReachable() returns (w: World, p: seq<Caller>)
    ensures Reachable(w) && AtRest(w) && Cycle(w, p) && p == [OnFiber(0, 1), OnFiber(1, 1)]
    ensures forall x :: !WaitsOnOwnMain(w, x)
  {
    var a, b := MF.Msg(0, 1, false), MF.Msg(1, 1, false);
    var d, d' := Delivery(2, 1, 1), Delivery(3, 0, 1);
    var s, t := Occupied(a), Occupied(b);
    OccupiedIs(a);
    OccupiedIs(b);
    BothOccupied(a, b);
    BothEnter(s, t);
    FirstSends(s, t, d);
    QueuedBehind(b, Message(d));
    QueuedBehind(a, Message(d'));
    var s', t' := Parked(s, Message(d')), Parked(t, Message(d));
    SecondSends(s, t', d, d');
    MutualIsStuck(s', t', d, d');
    w, p := Pair(s', t', {d}, {d'}), [OnFiber(0, 1), OnFiber(1, 1)];
  }

  function OwnMainState(a: MF.Msg, d: Delivery): World
    requires a.dest == 1
  {
    var s := Occupied(a);
    World(map[0 := MF.Handled(s.(sent := s.sent + [Message(d)], stranded := [Message(d)]), Message(d), 1)],
          map[OnFiber(0, 1) := {d}])
  }

  lemma OneCaller(a: MF.Msg)
    requires a.dest == 1
    ensures Reachable(World(map[0 := Occupied(a)], map[OnFiber(0, 1) := {}]))
  {
    var fibers: map<ReactorId, set<MF.Fiber>> := map[0 := TwoFibers];
    var w0, x := Fresh(fibers), OnFiber(0, 1);
    assert LegalRun(w0, []) && Exec(w0, []) == w0;
    var w1 := Park(w0, 0, a);
    OccupiedIs(a);
    assert w1.reactors == map[0 := Occupied(a)];
    ReachableStep(w1, Enter(x));
    assert Step(w1, Enter(x)).calls == map[x := {}];
  }

  lemma OwnMainReached(a: MF.Msg, d: Delivery)
    requires a.dest == 1 && d.reactor == 0 && d.fiber == MF.MAIN
    ensures Reachable(OwnMainState(a, d))
  {
    var w2, x := World(map[0 := Occupied(a)], map[OnFiber(0, 1) := {}]), OnFiber(0, 1);
    OneCaller(a);
    OccupiedIs(a);
    assert Legal(w2, Send(x, d));
    ReachableStep(w2, Send(x, d));
    var w3, w := Step(w2, Send(x, d)), OwnMainState(a, d);
    assert w2.calls[x] + {d} == {d};
    assert w3.calls == w.calls;
    assert w3.reactors[0] == w.reactors[0] && w3.reactors == w.reactors;
  }

  lemma OwnMainIs(a: MF.Msg, d: Delivery)
    requires a.dest == 1 && d.fiber == MF.MAIN
    ensures var s := OwnMainState(a, d).reactors[0];
            && s.mailbox == [] && s.fibers.Keys == TwoFibers && s.fulfilled[Message(d)] == 0
  {
    OccupiedIs(a);
  }

  /** One fiber that waits for a copy to its own reactor's main fiber. */
  lemma OwnMainReachable() returns (w: World, x: Caller)
    ensures Reachable(w) && AtRest(w) && x in w.calls && WaitsOnOwnMain(w, x) && forall p :: !Cycle(w, p)
  {
    var a, d := MF.Msg(0, 1, false), Delivery(1, 0, MF.MAIN);
    OwnMainReached(a, d);
    w, x := OwnMainState(a, d), OnFiber(0, 1);
    OwnMainIs(a, d);
    assert Awaits(w, x, d) && ToOwnMain(x, d);
    assert d in w.calls[x] && !Settled(w.reactors, d);
    RestWhen(w);
    forall p ensures !Cycle(w, p) {
      if p != [] { assert !WaitsOn(w, p[0], Next(p, 0)); }
    }
  }
}
