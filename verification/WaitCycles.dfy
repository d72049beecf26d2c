/** Which waiting calls return (src/lib/iomgr.cpp): a caller waits for copies that lie with fibers which may be in calls
    themselves. */
module WaitCycles {
  import MF = MessageFlow
  import opened MulticastWait
  import opened Options

  /** Steps that only finish what was begun. */
  predicate Finishing(e: Event) {
    e.Leave? || (e.On? && MF.Finishing(e.e))
  }

  ghost predicate AtRest(w: World) {
    forall e :: Finishing(e) ==> !Legal(w, e)
  }

  /** The copy lies where only fiber `y` takes it from. */
  predicate LiesWith(rs: Reactors, d: Delivery, y: Caller) {
    && d.reactor in rs && y.OnFiber? && y.reactor == d.reactor
    && if y.fiber == MF.MAIN then Message(d) in rs[d.reactor].mailbox
       else y.fiber == d.fiber && Message(d) in MF.Queued(rs[d.reactor], d.fiber)
  }

  /** `x` waits for a copy that lies with `y`, which is in a call itself. */
  ghost predicate WaitsOn(w: World, x: Caller, y: Caller) {
    y in w.calls && exists d :: Awaits(w, x, d) && LiesWith(w.reactors, d, y)
  }

  /** `x` waits for a copy it sent to its own reactor's main fiber. */
  ghost predicate WaitsOnOwnMain(w: World, x: Caller) {
    exists d :: Awaits(w, x, d) && ToOwnMain(x, d)
  }

  function Next(p: seq<Caller>, i: nat): Caller
    requires i < |p|
  {
    if i == |p| - 1 then p[0] else p[i + 1]
  }

  /** Each waits on the next, and the last on the first. */
  ghost predicate Cycle(w: World, p: seq<Caller>) {
    p != [] && forall i :: 0 <= i < |p| ==> WaitsOn(w, p[i], Next(p, i))
  }

  lemma LyingIsUnsettled(rs: Reactors, d: Delivery, y: Caller)
    requires Sound(rs) && LiesWith(rs, d, y)
    ensures !Settled(rs, d)
  {
    var s, m := rs[d.reactor], Message(d);
    assert MF.Inv(s);
    assert MF.Occurrences(s, m) == multiset(s.sent)[m] <= 1;
    assert m in s.mailbox ==> m in multiset(s.mailbox);
    assert m in MF.Queued(s, m.dest) ==> m in multiset(MF.Queued(s, m.dest));
    assert s.fulfilled[m] == multiset(s.executed)[m];
  }

  /** A copy that was sent and has not run lies with a fiber, or is stranded. */
  lemma WhereItLies(rs: Reactors, d: Delivery)
    requires Sound(rs) && Sent(rs, d) && !Settled(rs, d) && Message(d) !in rs[d.reactor].stranded
    ensures Message(d) in rs[d.reactor].mailbox
            || (d.fiber != MF.MAIN && Message(d) in MF.Queued(rs[d.reactor], d.fiber))
  {
    var s, m := rs[d.reactor], Message(d);
    assert MF.Inv(s);
    assert m in multiset(s.sent);
    assert MF.Occurrences(s, m) == multiset(s.sent)[m];
    assert s.fulfilled[m] == multiset(s.executed)[m];
    assert m in multiset(s.mailbox) || m in multiset(MF.Queued(s, m.dest));
  }

  lemma QueueHasFront(s: MF.State, f: MF.Fiber)
    requires MF.Inv(s) && f != MF.MAIN && MF.Queued(s, f) != []
    ensures MF.Legal(s, MF.FiberTakes(f))
  {
    assert MF.QueueOk(s.fibers[f], f);
  }

  lemma MainIsBusy(w: World, r: ReactorId)
    requires AtRest(w) && r in w.reactors && w.reactors[r].mailbox != []
    ensures OnFiber(r, MF.MAIN) in w.calls
  {
    assert Finishing(On(r, MF.MainTakes));
    assert !Legal(w, On(r, MF.MainTakes));
  }

  lemma FiberIsBusy(w: World, r: ReactorId, f: MF.Fiber)
    requires AtRest(w) && r in w.reactors && MF.Legal(w.reactors[r], MF.FiberTakes(f))
    ensures OnFiber(r, f) in w.calls
  {
    assert Finishing(On(r, MF.FiberTakes(f)));
    assert !Legal(w, On(r, MF.FiberTakes(f)));
  }

  /** At rest the fiber a copy lies with is in a call itself. */
  lemma TakerIsBusy(w: World, d: Delivery) returns (y: Caller)
    requires Sound(w.reactors) && AtRest(w)
    requires Sent(w.reactors, d) && !Settled(w.reactors, d) && Message(d) !in w.reactors[d.reactor].stranded
    ensures y in w.calls && LiesWith(w.reactors, d, y)
  {
    WhereItLies(w.reactors, d);
    if Message(d) in w.reactors[d.reactor].mailbox {
      MainIsBusy(w, d.reactor);
      y := OnFiber(d.reactor, MF.MAIN);
    } else {
      QueueHasFront(w.reactors[d.reactor], d.fiber);
      FiberIsBusy(w, d.reactor, d.fiber);
      y := OnFiber(d.reactor, d.fiber);
    }
  }

  /** So a caller that is not waiting on its own main fiber waits on another. */
  lemma NextWaiter(w: World, x: Caller) returns (y: Caller)
    requires Inv(w) && AtRest(w) && x in w.calls && !WaitsOnOwnMain(w, x)
    ensures y in w.calls && WaitsOn(w, x, y)
  {
    assert !Legal(w, Leave(x));
    var d :| d in w.calls[x] && !Settled(w.reactors, d);
    assert Awaits(w, x, d) && SentBy(w.reactors, d, x) && !ToOwnMain(x, d);
    y := TakerIsBusy(w, d);
  }

  lemma {:induction false} DistinctFits<T>(p: seq<T>, all: set<T>)
    requires (forall i :: 0 <= i < |p| ==> p[i] in all) && forall i, j :: 0 <= i < j < |p| ==> p[i] != p[j]
    ensures |p| <= |all|
    decreases |p|
  {
    if p != [] {
      DistinctFits(p[1..], all - {p[0]});
    }
  }

  /** In a finite graph where every node but the `ends` has a successor, a walk from any node comes to an
      end or back. */
  lemma Pursue<T>(nodes: set<T>, edges: set<(T, T)>, ends: set<T>, x: T) returns (p: seq<T>)
    requires x in nodes && forall a :: a in nodes ==> a in ends || exists b :: b in nodes && (a, b) in edges
    ensures p != [] && p[0] == x && forall i :: 0 <= i < |p| - 1 ==> (p[i], p[i + 1]) in edges
    ensures p[|p| - 1] in ends || exists j :: 0 <= j < |p| && (p[|p| - 1], p[j]) in edges
  {
    p := [x];
    while p[|p| - 1] !in ends && !(exists j :: 0 <= j < |p| && (p[|p| - 1], p[j]) in edges)
      invariant p != [] && p[0] == x && forall i :: 0 <= i < |p| - 1 ==> (p[i], p[i + 1]) in edges
      invariant forall i :: 0 <= i < |p| ==> p[i] in nodes
      invariant forall i, j :: 0 <= i < j < |p| ==> p[i] != p[j]
      decreases |nodes| - |p|
    {
      var b :| b in nodes && (p[|p| - 1], b) in edges;
      DistinctFits(p + [b], nodes);
      p := p + [b];
    }
  }

  /** Each waits on the next. */
  ghost predicate Chain(w: World, p: seq<Caller>) {
    p != [] && forall i :: 0 <= i < |p| - 1 ==> WaitsOn(w, p[i], p[i + 1])
  }

  /** The chain from `x` ends at a fiber that waits on its own main fiber, or comes back to itself. */
  ghost predicate Stuck(w: World, x: Caller, p: seq<Caller>) {
    && Chain(w, p) && p[0] == x
    && (WaitsOnOwnMain(w, p[|p| - 1]) || exists j :: 0 <= j < |p| && WaitsOn(w, p[|p| - 1], p[j]))
  }

  ghost function Edges(w: World): set<(Caller, Caller)> {
    set x, y | x in w.calls && y in w.calls && WaitsOn(w, x, y) :: (x, y)
  }

  /** Following the waits from a call at rest leads to one or the other. */
  lemma FollowWaits(w: World, x: Caller) returns (p: seq<Caller>)
    requires Inv(w) && AtRest(w) && x in w.calls
    ensures Stuck(w, x, p)
  {
    var ends := set a | a in w.calls && WaitsOnOwnMain(w, a);
    forall a | a in w.calls.Keys ensures a in ends || exists b :: b in w.calls.Keys && (a, b) in Edges(w) {
      if a !in ends {
        var b := NextWaiter(w, a);
        assert (a, b) in Edges(w);
      }
    }
    p := Pursue(w.calls.Keys, Edges(w), ends, x);
    assert Chain(w, p);
  }

  /** Once nothing is left to do, a call is still under way if and only if following the waits from it leads to a fiber
      that waits on its own main fiber, or in a circle. */
  lemma CallStuckIff(w: World, x: Caller)
    requires Inv(w) && AtRest(w)
    ensures x in w.calls <==> exists p :: Stuck(w, x, p)
  {
    if x in w.calls { var p := FollowWaits(w, x); }
    if p :| Stuck(w, x, p) {
      if |p| > 1 { assert WaitsOn(w, p[0], p[1]); }
    }
  }

  lemma CycleInside(w: World, x: Caller, p: seq<Caller>) returns (c: seq<Caller>)
    requires Stuck(w, x, p) && !WaitsOnOwnMain(w, p[|p| - 1])
    ensures Cycle(w, c)
  {
    var j :| 0 <= j < |p| && WaitsOn(w, p[|p| - 1], p[j]);
    c := p[j..];
    forall i | 0 <= i < |c| ensures WaitsOn(w, c[i], Next(c, i)) {
      assert c[i] == p[j + i];
      if i < |c| - 1 { assert Next(c, i) == p[j + i + 1]; }
    }
  }

  /** Then all calls have returned if and only if none sent a copy to its own reactor's main fiber and no callers wait
      on each other in a circle. */
  lemma AllReturnIff(w: World)
    requires Inv(w) && AtRest(w)
    ensures w.calls == map[] <==> (forall x :: !WaitsOnOwnMain(w, x)) && forall p :: !Cycle(w, p)
  {
    forall p | w.calls == map[] ensures !Cycle(w, p) {
      if p != [] { assert !WaitsOn(w, p[0], Next(p, 0)); }
    }
    if w.calls != map[] && forall x :: !WaitsOnOwnMain(w, x) {
      var x :| x in w.calls;
      var p := FollowWaits(w, x);
      var c := CycleInside(w, x, p);
      assert Cycle(w, c);
    }
  }

  // ---------------------------------------------------------------------------------------------------------------
  // Those that do not are stuck for good

  lemma MailboxGrows(s: MF.State, e: MF.Event)
    requires MF.Legal(s, e) && e != MF.MainTakes
    ensures s.mailbox <= MF.Step(s, e).mailbox
  {
  }

  /** Nobody but `y` moves what lies with `y`. */
  lemma StaysWith(s: MF.State, e: MF.Event, m: MF.Msg, f: MF.Fiber)
    requires MF.Inv(s) && MF.Legal(s, e) && !(MF.Finishing(e) && Actor(e) == Some(f))
    ensures f == MF.MAIN && m in s.mailbox ==> m in MF.Step(s, e).mailbox
    ensures f != MF.MAIN && m in MF.Queued(s, f) ==> m in MF.Queued(MF.Step(s, e), f)
  {
    if f == MF.MAIN { MailboxGrows(s, e); } else { MF.QueueGrows(s, e, f); }
  }

  lemma LiesStill(rs: Reactors, r: ReactorId, e: MF.Event, d: Delivery, y: Caller)
    requires Sound(rs) && CanAct(rs, r, e) && LiesWith(rs, d, y)
    requires MF.Finishing(e) && Actor(e).Some? ==> OnFiber(r, Actor(e).value) != y
    ensures LiesWith(Acted(rs, r, e), d, y)
  {
    if r == d.reactor { StaysWith(rs[r], e, Message(d), y.fiber); }
  }

  lemma StepLeavesIt(w: World, e: Event, d: Delivery, y: Caller)
    requires Sound(w.reactors) && Legal(w, e) && LiesWith(w.reactors, d, y) && y in w.calls
    ensures LiesWith(Step(w, e).reactors, d, y)
  {
    match e
    case On(r, a) => LiesStill(w.reactors, r, a, d, y);
    case Send(u, c) => LiesStill(w.reactors, c.reactor, Sending(c, u), d, y);
    case _ =>
  }

  lemma AwaitsStill(w: World, e: Event, x: Caller, d: Delivery)
    requires Legal(w, e) && Awaits(w, x, d) && !Settled(w.reactors, d)
    ensures Awaits(Step(w, e), x, d)
  {
  }

  /** A wait of one caller for a copy that lies with another stays, as long as the other has something to wait for. */
  lemma WaitStays(w: World, e: Event, x: Caller, y: Caller, d: Delivery, other: Delivery)
    requires Sound(w.reactors) && Legal(w, e) && Awaits(w, x, d) && LiesWith(w.reactors, d, y)
    requires Awaits(w, y, other) && !Settled(w.reactors, other)
    ensures WaitsOn(Step(w, e), x, y)
  {
    LyingIsUnsettled(w.reactors, d, y);
    AwaitsStill(w, e, x, d);
    AwaitsStill(w, e, y, other);
    StepLeavesIt(w, e, d, y);
  }

  /** Who waits on somebody has an unset future. */
  lemma Unset(w: World, y: Caller) returns (d: Delivery)
    requires Sound(w.reactors) && exists z :: WaitsOn(w, y, z)
    ensures Awaits(w, y, d) && !Settled(w.reactors, d)
  {
    var z :| WaitsOn(w, y, z);
    d :| Awaits(w, y, d) && LiesWith(w.reactors, d, z);
    LyingIsUnsettled(w.reactors, d, z);
  }

  lemma LinkStays(w: World, e: Event, x: Caller, y: Caller, z: Caller)
    requires Sound(w.reactors) && Legal(w, e)
    ensures WaitsOn(w, x, y) && WaitsOn(w, y, z) ==> WaitsOn(Step(w, e), x, y)
  {
    if WaitsOn(w, x, y) && WaitsOn(w, y, z) {
      var d :| Awaits(w, x, d) && LiesWith(w.reactors, d, y);
      var other := Unset(w, y);
      WaitStays(w, e, x, y, d, other);
    }
  }

  lemma CycleStays(w: World, e: Event, p: seq<Caller>)
    requires Inv(w) && Legal(w, e) && Cycle(w, p)
    ensures Cycle(Step(w, e), p)
  {
    forall i | 0 <= i < |p| ensures WaitsOn(Step(w, e), p[i], Next(p, i)) {
      var k := if i == |p| - 1 then 0 else i + 1;
      LinkStays(w, e, p[i], p[k], Next(p, k));
    }
  }

  /** Callers that wait on each other in a circle never return, whatever the others do. */
  lemma {:induction false} CycleIsForever(w: World, run: seq<Event>, p: seq<Caller>)
    requires Inv(w) && LegalRun(w, run) && Cycle(w, p)
    ensures Cycle(Exec(w, run), p) && forall x :: x in p ==> x in Exec(w, run).calls
    decreases run
  {
    if run == [] {
      forall i | 0 <= i < |p| ensures p[i] in w.calls {
        assert WaitsOn(w, p[i], Next(p, i));
      }
    } else {
      StepKeepsInv(w, run[0]);
      CycleStays(w, run[0], p);
      CycleIsForever(Step(w, run[0]), run[1..], p);
    }
  }

  lemma StrandedIsUnsettled(rs: Reactors, d: Delivery)
    requires Sound(rs) && d.reactor in rs && Message(d) in rs[d.reactor].stranded
    ensures !Settled(rs, d)
  {
    var s, m := rs[d.reactor], Message(d);
    assert MF.Inv(s);
    StrandedWasSent(s, m);
    assert MF.Occurrences(s, m) == multiset(s.sent)[m] <= 1;
    assert m in multiset(MF.Queued(s, MF.MAIN));
    assert s.fulfilled[m] == multiset(s.executed)[m];
  }

  /** Nor does a fiber that waits on its own main fiber. */
  lemma {:induction false} OwnMainIsForever(w: World, run: seq<Event>, x: Caller)
    requires Inv(w) && LegalRun(w, run) && WaitsOnOwnMain(w, x)
    ensures x in Exec(w, run).calls && WaitsOnOwnMain(Exec(w, run), x)
    decreases run
  {
    if run != [] {
      var d :| Awaits(w, x, d) && ToOwnMain(x, d);
      assert SentBy(w.reactors, d, x);
      StrandedIsUnsettled(w.reactors, d);
      AwaitsStill(w, run[0], x, d);
      StepKeepsInv(w, run[0]);
      OwnMainIsForever(Step(w, run[0]), run[1..], x);
    }
  }

  // ---------------------------------------------------------------------------------------------------------------
  // Every schedule ends

  /** Work left in all reactors. */
  ghost function Total(rs: Reactors): int
    decreases |rs.Keys|
  {
    if rs == map[] then 0
    else
      var r :| r in rs;
      assert (rs - {r}).Keys == rs.Keys - {r};
      MF.Left(rs[r]) + Total(rs - {r})
  }

  lemma {:induction false} TotalWithout(rs: Reactors, r: ReactorId)
    requires r in rs
    ensures Total(rs) == MF.Left(rs[r]) + Total(rs - {r})
    decreases |rs.Keys|
  {
    var q :| q in rs && Total(rs) == MF.Left(rs[q]) + Total(rs - {q});
    if q != r {
      assert (rs - {q}).Keys == rs.Keys - {q} && (rs - {r}).Keys == rs.Keys - {r};
      TotalWithout(rs - {q}, r);
      TotalWithout(rs - {r}, q);
      assert rs - {q} - {r} == rs - {r} - {q};
    }
  }

  lemma TotalChanged(rs: Reactors, r: ReactorId, s: MF.State)
    requires r in rs
    ensures Total(rs[r := s]) == Total(rs) - MF.Left(rs[r]) + MF.Left(s)
  {
    TotalWithout(rs, r);
    TotalWithout(rs[r := s], r);
    assert rs[r := s] - {r} == rs - {r};
  }

  lemma {:induction false} TotalIsBounded(rs: Reactors)
    requires forall r :: r in rs ==> MF.Inv(rs[r])
    ensures Total(rs) >= 0
    decreases |rs.Keys|
  {
    if rs != map[] {
      var r :| r in rs;
      assert (rs - {r}).Keys == rs.Keys - {r};
      TotalIsBounded(rs - {r});
      MF.LeftIsBounded(rs[r]);
      TotalWithout(rs, r);
    }
  }

  ghost function Left(w: World): int {
    Total(w.reactors) + |w.calls.Keys|
  }

  lemma FinishingShrinks(w: World, e: Event)
    requires Inv(w) && Legal(w, e) && Finishing(e)
    ensures Left(Step(w, e)) < Left(w)
  {
    if e.On? {
      MF.FinishingShrinks(w.reactors[e.reactor], e.e);
      TotalChanged(w.reactors, e.reactor, MF.Step(w.reactors[e.reactor], e.e));
    } else {
      assert (w.calls - {e.x}).Keys == w.calls.Keys - {e.x};
    }
  }

  /** Once no new messages or calls come, every schedule of reactors and returning callers is finite, and when it has
      come to its end all calls have returned if and only if none of those under way had sent a copy to its own
      reactor's main fiber and none wait on each other in a circle. */
  lemma {:induction false} SchedulesEnd(w: World, run: seq<Event>)
    requires Inv(w) && LegalRun(w, run) && forall i :: 0 <= i < |run| ==> Finishing(run[i])
    ensures |run| <= Left(w) && Inv(Exec(w, run))
    ensures AtRest(Exec(w, run)) ==>
              (Exec(w, run).calls == map[]
               <==> (forall x :: !WaitsOnOwnMain(w, x)) && forall p :: !Cycle(Exec(w, run), p))
    decreases run
  {
    TotalIsBounded(w.reactors);
    if run == [] {
      if AtRest(w) { AllReturnIff(w); }
    } else {
      StepKeepsInv(w, run[0]);
      FinishingShrinks(w, run[0]);
      SchedulesEnd(Step(w, run[0]), run[1..]);
      OwnMainKept(w, run[0]);
    }
  }

  lemma OwnMainKept(w: World, e: Event)
    requires Inv(w) && Legal(w, e) && Finishing(e)
    ensures forall x :: WaitsOnOwnMain(Step(w, e), x) <==> WaitsOnOwnMain(w, x)
  {
    forall x ensures WaitsOnOwnMain(Step(w, e), x) <==> WaitsOnOwnMain(w, x) {
      if WaitsOnOwnMain(w, x) {
        assert [e][1..] == [];
        OwnMainIsForever(w, [e], x);
      }
      if d :| Awaits(Step(w, e), x, d) && ToOwnMain(x, d) { AwaitedBefore(w, e, x, d); }
    }
  }
}
