/** Calls that wait, over all reactors (src/lib/iomgr.cpp): copies of a message go to reactors that run on by
    themselves, and the caller takes the futures one after the other.  A fiber makes such a call from within the message
    it is running, so until the call is over it takes nothing from its queue and its own message has not ended.  Each
    reactor is one of MessageFlow, where taking a message stands for running it to its end. */
module MulticastWait {
  import MF = MessageFlow
  import opened Multicast
  import opened Options

  type ReactorId = nat
  type Reactors = map<ReactorId, MF.State>

  /** Who waits: a fiber of a reactor, or a thread that is none. */
  datatype Caller = OnFiber(reactor: ReactorId, fiber: MF.Fiber) | OnThread(id: nat)

  /** One delivery: the object, the reactor, and the fiber picked there. */
  datatype Delivery = Delivery(copy: MsgPtr, reactor: ReactorId, fiber: MF.Fiber)

  /** The reactors, and for every call under way the copies it has sent. */
  datatype World = World(reactors: Reactors, calls: map<Caller, set<Delivery>>)

  datatype Event =
    | On(reactor: ReactorId, e: MF.Event)    // a step of a reactor, or of a sender that does not wait
    | Enter(x: Caller)                       // a call begins
    | Send(x: Caller, d: Delivery)           // it delivers a copy
    | Leave(x: Caller)                       // the last future is set and it returns

  // ---------------------------------------------------------------------------------------------------------------
  // The reactors

  predicate Sends(e: MF.Event) {
    e.Remote? || e.Local?
  }

  /** A message object is given to deliver_msg once, wherever. */
  predicate CanAct(rs: Reactors, r: ReactorId, e: MF.Event) {
    r in rs && MF.Legal(rs[r], e) && (Sends(e) ==> forall q :: q in rs ==> e.m !in rs[q].sent)
  }

  function Acted(rs: Reactors, r: ReactorId, e: MF.Event): Reactors
    requires CanAct(rs, r, e)
  {
    rs[r := MF.Step(rs[r], e)]
  }

  /** No object went to two reactors. */
  ghost predicate SentOnce(rs: Reactors) {
    forall r, q, m :: r in rs && q in rs && m in rs[r].sent && m in rs[q].sent ==> r == q
  }

  ghost predicate Sound(rs: Reactors) {
    (forall r :: r in rs ==> MF.Inv(rs[r])) && SentOnce(rs)
  }

  /** What a reactor has sent, run and stranded stays so, and nothing sent is stranded afterwards. */
  ghost predicate After(s: MF.State, s': MF.State) {
    && s.sent <= s'.sent && s.executed <= s'.executed && s'.fibers.Keys == s.fibers.Keys
    && forall m :: m in s.sent ==> (m in s'.stranded <==> m in s.stranded)
  }

  ghost predicate Later(rs: Reactors, rs': Reactors) {
    rs'.Keys == rs.Keys && forall r :: r in rs ==> After(rs[r], rs'[r])
  }

  lemma StepAfter(s: MF.State, e: MF.Event)
    requires MF.Legal(s, e)
    ensures After(s, MF.Step(s, e))
    ensures MF.Step(s, e).sent == if Sends(e) then s.sent + [e.m] else s.sent
    ensures MF.Step(s, e).stranded == if MF.Strands(e) then s.stranded + [e.m] else s.stranded
  {
  }

  lemma ActedOnce(rs: Reactors, r: ReactorId, e: MF.Event)
    requires SentOnce(rs) && CanAct(rs, r, e)
    ensures SentOnce(Acted(rs, r, e)) && Later(rs, Acted(rs, r, e))
  {
    var rs' := Acted(rs, r, e);
    StepAfter(rs[r], e);
    forall p, q, m | p in rs' && q in rs' && m in rs'[p].sent && m in rs'[q].sent ensures p == q {
      if Sends(e) && m == e.m {
        assert m !in rs[p].sent && m !in rs[q].sent;
      } else {
        assert m in rs[p].sent && m in rs[q].sent;
      }
    }
  }

  lemma ActedKeeps(rs: Reactors, r: ReactorId, e: MF.Event)
    requires Sound(rs) && CanAct(rs, r, e)
    ensures Sound(Acted(rs, r, e)) && Later(rs, Acted(rs, r, e))
  {
    MF.StepKeepsInv(rs[r], e);
    ActedOnce(rs, r, e);
  }

  // ---------------------------------------------------------------------------------------------------------------
  // Copies

  function Message(d: Delivery): MF.Msg {
    MF.Msg(d.copy, d.fiber, true)
  }

  predicate Sent(rs: Reactors, d: Delivery) {
    d.reactor in rs && Message(d) in rs[d.reactor].sent
  }

  /** The future of a copy is set. */
  predicate Settled(rs: Reactors, d: Delivery) {
    d.reactor in rs && rs[d.reactor].fulfilled[Message(d)] > 0
  }

  /** The copy goes from a fiber to its own reactor's main fiber. */
  predicate ToOwnMain(x: Caller, d: Delivery) {
    x.OnFiber? && x.reactor == d.reactor && d.fiber == MF.MAIN && x.fiber != MF.MAIN
  }

  /** deliver_msg of a copy: on the spot when the caller is on that reactor, through its mailbox otherwise. */
  function Sending(d: Delivery, x: Caller): (e: MF.Event)
    ensures Sends(e) && e.m == Message(d) && (MF.Strands(e) <==> ToOwnMain(x, d))
  {
    if x.OnFiber? && x.reactor == d.reactor then MF.Local(Message(d), x.fiber) else MF.Remote(Message(d))
  }

  /** The copy was sent by this caller. */
  ghost predicate SentBy(rs: Reactors, d: Delivery, x: Caller) {
    Sent(rs, d) && (Message(d) in rs[d.reactor].stranded <==> ToOwnMain(x, d))
  }

  lemma SentByStays(rs: Reactors, rs': Reactors, d: Delivery, x: Caller)
    requires Later(rs, rs') && SentBy(rs, d, x)
    ensures SentBy(rs', d, x)
  {
    assert After(rs[d.reactor], rs'[d.reactor]);
  }

  lemma StrandedWasSent(s: MF.State, m: MF.Msg)
    requires MF.Inv(s) && m in s.stranded
    ensures m in s.sent && m.dest == MF.MAIN
  {
    assert m in MF.Queued(s, MF.MAIN) && MF.QueueOk(s.fibers[MF.MAIN], MF.MAIN);
    assert m in multiset(MF.Queued(s, MF.MAIN));
    assert MF.Occurrences(s, m) == multiset(s.sent)[m];
    assert m in multiset(s.sent);
  }

  lemma JustSent(rs: Reactors, d: Delivery, x: Caller)
    requires Sound(rs) && CanAct(rs, d.reactor, Sending(d, x))
    ensures SentBy(Acted(rs, d.reactor, Sending(d, x)), d, x)
  {
    var s := rs[d.reactor];
    if Message(d) in s.stranded { StrandedWasSent(s, Message(d)); }
    StepAfter(s, Sending(d, x));
  }

  /** The copy ran once, on the fiber it was sent to, on the reactor it was sent to and on no other. */
  ghost predicate RanOnce(rs: Reactors, d: Delivery) {
    && d.reactor in rs && multiset(rs[d.reactor].executed)[Message(d)] == 1
    && |rs[d.reactor].ranOn| == |rs[d.reactor].executed|
    && (forall i :: 0 <= i < |rs[d.reactor].executed| && rs[d.reactor].executed[i] == Message(d) ==>
          rs[d.reactor].ranOn[i] == d.fiber)
    && (forall r :: r in rs && r != d.reactor ==> Message(d) !in rs[r].executed)
  }

  lemma SettledRan(rs: Reactors, d: Delivery)
    requires Sound(rs) && Sent(rs, d) && Settled(rs, d)
    ensures RanOnce(rs, d)
  {
    var s, m := rs[d.reactor], Message(d);
    assert MF.Inv(s);
    assert MF.Occurrences(s, m) == multiset(s.sent)[m] <= 1;
    assert s.fulfilled[m] == multiset(s.executed)[m];
    forall r | r in rs && r != d.reactor ensures m !in rs[r].executed {
      assert MF.Inv(rs[r]) && m !in rs[r].sent;
      assert MF.Occurrences(rs[r], m) == multiset(rs[r].sent)[m] == 0;
      assert multiset(rs[r].executed)[m] == 0;
    }
  }

  lemma SettledIffRan(s: MF.State, m: MF.Msg)
    requires MF.RanRight(s) && m.waits
    ensures s.fulfilled[m] > 0 <==> m in s.executed
  {
    assert s.fulfilled[m] == multiset(s.executed)[m];
  }

  /** The entries of the reactors' histories that are executions of these copies. */
  ghost function Executions(rs: Reactors, ds: seq<Delivery>): set<(ReactorId, nat)> {
    set r, i | r in rs && 0 <= i < |rs[r].executed| && IsCopy(rs[r].executed[i], ds) :: (r, i)
  }

  predicate IsCopy(m: MF.Msg, ds: seq<Delivery>) {
    exists k :: 0 <= k < |ds| && Message(ds[k]) == m
  }

  /** Every delivery has its own object. */
  predicate Separate(ds: seq<Delivery>) {
    forall j, k :: 0 <= j < k < |ds| ==> ds[j].copy != ds[k].copy
  }

  lemma OnlyAt<T>(s: seq<T>, m: T) returns (i: nat)
    requires multiset(s)[m] == 1
    ensures i < |s| && s[i] == m && forall j :: 0 <= j < |s| && s[j] == m ==> j == i
  {
    assert m in multiset(s);
    i :| i < |s| && s[i] == m;
    assert s == s[..i] + [m] + s[i + 1..];
    assert multiset(s) == multiset(s[..i]) + multiset{m} + multiset(s[i + 1..]);
  }

  lemma ExecutionsSplit(rs: Reactors, ds: seq<Delivery>, i: nat)
    requires ds != [] && Separate(ds) && RanOnce(rs, ds[0])
    requires i < |rs[ds[0].reactor].executed| && rs[ds[0].reactor].executed[i] == Message(ds[0])
    requires forall j :: 0 <= j < |rs[ds[0].reactor].executed| ==>
               rs[ds[0].reactor].executed[j] == Message(ds[0]) ==> j == i
    ensures Executions(rs, ds) == Executions(rs, ds[1..]) + {(ds[0].reactor, i)}
    ensures (ds[0].reactor, i) !in Executions(rs, ds[1..])
  {
    forall m: MF.Msg ensures IsCopy(m, ds) <==> m == Message(ds[0]) || IsCopy(m, ds[1..]) {
      if IsCopy(m, ds) && m != Message(ds[0]) {
        var k :| 0 <= k < |ds| && Message(ds[k]) == m;
        assert ds[1..][k - 1] == ds[k];
      }
      if IsCopy(m, ds[1..]) {
        var k :| 0 <= k < |ds[1..]| && Message(ds[1..][k]) == m;
        assert ds[k + 1] == ds[1..][k];
      }
    }
    assert !IsCopy(Message(ds[0]), ds[1..]);
  }

  ghost predicate AllRan(rs: Reactors, ds: seq<Delivery>) {
    forall k :: 0 <= k < |ds| ==> RanOnce(rs, ds[k])
  }

  /** Copies that each ran once account for exactly as many executions as there are copies. */
  lemma {:induction false} CountedExecutions(rs: Reactors, ds: seq<Delivery>)
    requires Separate(ds) && AllRan(rs, ds)
    ensures |Executions(rs, ds)| == |ds|
    decreases |ds|
  {
    if ds == [] {
      assert Executions(rs, ds) == {};
    } else {
      var i := OnlyAt(rs[ds[0].reactor].executed, Message(ds[0]));
      ExecutionsSplit(rs, ds, i);
      CountedExecutions(rs, ds[1..]);
    }
  }

  // ---------------------------------------------------------------------------------------------------------------
  // The calls

  /** The fiber that makes the step, if it is one of the reactor's. */
  function Actor(e: MF.Event): Option<MF.Fiber> {
    match e
    case Remote(_) => None
    case Local(_, self) => Some(self)
    case MainTakes => Some(MF.MAIN)
    case FiberTakes(f) => Some(f)
  }

  /** A fiber is called from within a message: the main fiber at any time, another while its queue has a first entry. */
  predicate Running(rs: Reactors, x: Caller) {
    x.OnFiber? ==>
      && x.reactor in rs && x.fiber in rs[x.reactor].fibers
      && (x.fiber == MF.MAIN || rs[x.reactor].fibers[x.fiber].channel != [])
  }

  /** A fiber that is in a call does nothing else. */
  predicate Legal(w: World, e: Event) {
    match e
    case On(r, a) => CanAct(w.reactors, r, a) && (Actor(a).Some? ==> OnFiber(r, Actor(a).value) !in w.calls)
    case Enter(x) => x !in w.calls && Running(w.reactors, x)
    case Send(x, d) => x in w.calls && CanAct(w.reactors, d.reactor, Sending(d, x))
    case Leave(x) => x in w.calls && forall d :: d in w.calls[x] ==> Settled(w.reactors, d)
  }

  function Step(w: World, e: Event): World
    requires Legal(w, e)
  {
    match e
    case On(r, a) => w.(reactors := Acted(w.reactors, r, a))
    case Enter(x) => w.(calls := w.calls[x := {}])
    case Send(x, d) =>
      World(Acted(w.reactors, d.reactor, Sending(d, x)), w.calls[x := w.calls[x] + {d}])
    case Leave(x) => w.(calls := w.calls - {x})
  }

  predicate LegalRun(w: World, run: seq<Event>)
    decreases run
  {
    run == [] || (Legal(w, run[0]) && LegalRun(Step(w, run[0]), run[1..]))
  }

  function Exec(w: World, run: seq<Event>): World
    requires LegalRun(w, run)
    decreases run
  {
    if run == [] then w else Exec(Step(w, run[0]), run[1..])
  }

  ghost predicate Awaits(w: World, x: Caller, d: Delivery) {
    x in w.calls && d in w.calls[x]
  }

  ghost predicate Inv(w: World) {
    Sound(w.reactors) && forall x, d :: Awaits(w, x, d) ==> SentBy(w.reactors, d, x)
  }

  lemma ReactorsKept(w: World, e: Event)
    requires Sound(w.reactors) && Legal(w, e)
    ensures Sound(Step(w, e).reactors) && Later(w.reactors, Step(w, e).reactors)
  {
    match e
    case On(r, a) => ActedKeeps(w.reactors, r, a);
    case Send(x, d) => ActedKeeps(w.reactors, d.reactor, Sending(d, x));
    case _ => LaterSelf(w.reactors);
  }

  /** Whatever a caller awaits it awaited before, or has just sent. */
  lemma AwaitedBefore(w: World, e: Event, x: Caller, d: Delivery)
    requires Legal(w, e) && Awaits(Step(w, e), x, d)
    ensures Awaits(w, x, d) || e == Send(x, d)
  {
  }

  lemma AwaitedKept(w: World, e: Event, x: Caller, d: Delivery)
    requires Inv(w) && Legal(w, e) && Awaits(Step(w, e), x, d)
    ensures SentBy(Step(w, e).reactors, d, x)
  {
    AwaitedBefore(w, e, x, d);
    if Awaits(w, x, d) {
      ReactorsKept(w, e);
      SentByStays(w.reactors, Step(w, e).reactors, d, x);
    } else {
      JustSent(w.reactors, d, x);
    }
  }

  lemma StepKeepsInv(w: World, e: Event)
    requires Inv(w) && Legal(w, e)
    ensures Inv(Step(w, e)) && Later(w.reactors, Step(w, e).reactors)
  {
    ReactorsKept(w, e);
    forall x, d | Awaits(Step(w, e), x, d) ensures SentBy(Step(w, e).reactors, d, x) { AwaitedKept(w, e, x, d); }
  }

  lemma LaterSelf(rs: Reactors)
    ensures Later(rs, rs)
  {
    forall r | r in rs ensures After(rs[r], rs[r]) {}
  }

  lemma LaterTrans(a: Reactors, b: Reactors, c: Reactors)
    requires Later(a, b) && Later(b, c)
    ensures Later(a, c)
  {
    forall r | r in a ensures After(a[r], c[r]) {
      assert After(a[r], b[r]) && After(b[r], c[r]);
    }
  }

  /** Reactors with the given fibers, nothing sent and nobody waiting. */
  function Fresh(fibers: map<ReactorId, set<MF.Fiber>>): World {
    World(map r | r in fibers :: MF.Idle(fibers[r]), map[])
  }

  ghost predicate Reachable(w: World) {
    exists fibers, run :: LegalRun(Fresh(fibers), run) && w == Exec(Fresh(fibers), run)
  }

  lemma {:induction false} RunsKeepInv(w: World, run: seq<Event>)
    requires Inv(w) && LegalRun(w, run)
    ensures Inv(Exec(w, run))
    decreases run
  {
    if run != [] {
      StepKeepsInv(w, run[0]);
      RunsKeepInv(Step(w, run[0]), run[1..]);
    }
  }

  lemma IdleInv(fibers: set<MF.Fiber>)
    ensures MF.Inv(MF.Idle(fibers))
  {
    assert MF.Queued(MF.Idle(fibers), MF.MAIN) == [];
  }

  lemma ReachableInv(w: World)
    requires Reachable(w)
    ensures Inv(w)
  {
    var fibers, run :| LegalRun(Fresh(fibers), run) && w == Exec(Fresh(fibers), run);
    FreshInv(fibers);
    RunsKeepInv(Fresh(fibers), run);
  }

  lemma FreshInv(fibers: map<ReactorId, set<MF.Fiber>>)
    ensures Inv(Fresh(fibers))
  {
    forall r | r in fibers ensures MF.Inv(MF.Idle(fibers[r])) { IdleInv(fibers[r]); }
  }

  lemma {:induction false} ExecSnoc(w: World, run: seq<Event>, e: Event)
    requires LegalRun(w, run) && Legal(Exec(w, run), e)
    ensures LegalRun(w, run + [e]) && Exec(w, run + [e]) == Step(Exec(w, run), e)
    decreases run
  {
    if run == [] {
      assert run + [e] == [e] && [e][1..] == [];
    } else {
      ExecSnoc(Step(w, run[0]), run[1..], e);
      assert (run + [e])[1..] == run[1..] + [e];
    }
  }

  lemma ReachableStep(w: World, e: Event)
    requires Reachable(w) && Legal(w, e)
    ensures Reachable(Step(w, e))
  {
    var fibers, run :| LegalRun(Fresh(fibers), run) && w == Exec(Fresh(fibers), run);
    ExecSnoc(Fresh(fibers), run, e);
    assert LegalRun(Fresh(fibers), run + [e]);
  }
}
