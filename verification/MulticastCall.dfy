/** The code of a waiting multicast (src/lib/iomgr.cpp): multicast_msg_and_wait, run against whatever reactors, other
    senders and other callers do meanwhile. */
module MulticastCall {
  import MF = MessageFlow
  import opened Multicast
  import opened MulticastWait
  import opened Options

  /** The deliveries a multicast logged, to the fibers pick_fiber chose. */
  function Deliveries(b: Book, fibers: map<ReactorId, MF.Fiber>): (ds: seq<Delivery>)
    requires |b.receivers| == |b.delivered| && forall r :: r in b.receivers ==> r in fibers
    ensures |ds| == |b.receivers|
  {
    seq(|b.receivers|, k requires 0 <= k < |b.receivers| =>
      Delivery(b.delivered[k], b.receivers[k], fibers[b.receivers[k]]))
  }

  function Receivers(ds: seq<Delivery>): (rs: seq<ReactorId>)
    ensures |rs| == |ds|
  {
    seq(|ds|, k requires 0 <= k < |ds| => ds[k].reactor)
  }

  /** From here on copy `k` and the following ones are unsent. */
  ghost predicate UnsentFrom(rs: Reactors, ds: seq<Delivery>, k: nat) {
    forall r, j :: r in rs && k <= j < |ds| ==> Message(ds[j]) !in rs[r].sent
  }

  /** Every delivery has a reactor and a fiber to go to. */
  ghost predicate Addressed(rs: Reactors, ds: seq<Delivery>) {
    forall k :: 0 <= k < |ds| ==> ds[k].reactor in rs && ds[k].fiber in rs[ds[k].reactor].fibers
  }

  predicate There(rs: Reactors, x: Caller) {
    x.OnFiber? ==> x.reactor in rs && x.fiber in rs[x.reactor].fibers
  }

  ghost function First(ds: seq<Delivery>, k: nat): set<Delivery>
    requires k <= |ds|
  {
    set j | 0 <= j < k :: ds[j]
  }

  /** The call of `x` has sent the first `k` of its copies. */
  ghost predicate Calling(w: World, x: Caller, ds: seq<Delivery>, k: nat) {
    && Inv(w) && There(w.reactors, x) && k <= |ds|
    && x in w.calls && w.calls[x] == First(ds, k)
    && Addressed(w.reactors, ds) && UnsentFrom(w.reactors, ds, k)
  }

  /** What is not done by `x` nor with its objects, which are numbered from `mine` on. */
  predicate Foreign(e: Event, x: Caller, mine: MsgPtr) {
    match e
    case On(_, a) => Sends(a) ==> a.m.id < mine
    case Enter(y) => y != x
    case Send(y, d) => y != x && d.copy < mine
    case Leave(y) => y != x
  }

  predicate Mine(ds: seq<Delivery>, mine: MsgPtr) {
    forall j :: 0 <= j < |ds| ==> mine <= ds[j].copy
  }

  lemma AddressedStays(rs: Reactors, rs': Reactors, ds: seq<Delivery>, x: Caller)
    requires Later(rs, rs') && Addressed(rs, ds) && There(rs, x)
    ensures Addressed(rs', ds) && There(rs', x)
  {
    forall k | 0 <= k < |ds| ensures ds[k].reactor in rs' && ds[k].fiber in rs'[ds[k].reactor].fibers {
      assert After(rs[ds[k].reactor], rs'[ds[k].reactor]);
    }
    if x.OnFiber? { assert After(rs[x.reactor], rs'[x.reactor]); }
  }

  lemma UnsentStays(rs: Reactors, r: ReactorId, e: MF.Event, ds: seq<Delivery>, k: nat)
    requires CanAct(rs, r, e) && UnsentFrom(rs, ds, k)
    requires Sends(e) ==> forall j :: k <= j < |ds| ==> Message(ds[j]) != e.m
    ensures UnsentFrom(Acted(rs, r, e), ds, k)
  {
    StepAfter(rs[r], e);
    forall j | k <= j < |ds| ensures Message(ds[j]) !in MF.Step(rs[r], e).sent {
      assert Message(ds[j]) !in rs[r].sent;
    }
  }

  lemma OthersUnsent(w: World, e: Event, x: Caller, ds: seq<Delivery>, k: nat, mine: MsgPtr)
    requires Legal(w, e) && Foreign(e, x, mine) && Mine(ds, mine) && UnsentFrom(w.reactors, ds, k)
    ensures UnsentFrom(Step(w, e).reactors, ds, k)
  {
    match e
    case On(r, a) => UnsentStays(w.reactors, r, a, ds, k);
    case Send(y, d) => UnsentStays(w.reactors, d.reactor, Sending(d, y), ds, k);
    case _ =>
  }

  lemma OthersStep(w: World, e: Event, x: Caller, ds: seq<Delivery>, k: nat, mine: MsgPtr)
    requires Calling(w, x, ds, k) && Legal(w, e) && Foreign(e, x, mine) && Mine(ds, mine)
    ensures Calling(Step(w, e), x, ds, k) && Later(w.reactors, Step(w, e).reactors)
  {
    StepKeepsInv(w, e);
    AddressedStays(w.reactors, Step(w, e).reactors, ds, x);
    OthersUnsent(w, e, x, ds, k, mine);
    OthersLeaveCall(w, e, x, mine);
  }

  lemma OthersLeaveCall(w: World, e: Event, x: Caller, mine: MsgPtr)
    requires Legal(w, e) && Foreign(e, x, mine) && x in w.calls
    ensures x in Step(w, e).calls && Step(w, e).calls[x] == w.calls[x]
  {
  }

  lemma SendIsLegal(w: World, x: Caller, ds: seq<Delivery>, k: nat)
    requires Calling(w, x, ds, k) && k < |ds|
    ensures Legal(w, Send(x, ds[k]))
  {
  }

  lemma FirstGrows(ds: seq<Delivery>, k: nat)
    requires k < |ds|
    ensures First(ds, k) + {ds[k]} == First(ds, k + 1)
  {
  }

  lemma SendStep(w: World, x: Caller, ds: seq<Delivery>, k: nat)
    requires Calling(w, x, ds, k) && k < |ds| && Separate(ds)
    ensures Legal(w, Send(x, ds[k])) && Calling(Step(w, Send(x, ds[k])), x, ds, k + 1)
  {
    SendIsLegal(w, x, ds, k);
    var d := ds[k];
    StepKeepsInv(w, Send(x, d));
    AddressedStays(w.reactors, Step(w, Send(x, d)).reactors, ds, x);
    UnsentStays(w.reactors, d.reactor, Sending(d, x), ds, k + 1);
    FirstGrows(ds, k);
  }

  /** The first `k` futures have been taken. */
  ghost predicate Taken(rs: Reactors, ds: seq<Delivery>, k: nat)
    requires k <= |ds|
  {
    forall j :: 0 <= j < k ==> Settled(rs, ds[j])
  }

  lemma StillSettled(rs: Reactors, rs': Reactors, d: Delivery)
    requires d.reactor in rs && d.reactor in rs' && After(rs[d.reactor], rs'[d.reactor])
    requires MF.RanRight(rs[d.reactor]) && MF.RanRight(rs'[d.reactor])
    ensures Settled(rs, d) ==> Settled(rs', d)
  {
    SettledIffRan(rs[d.reactor], Message(d));
    SettledIffRan(rs'[d.reactor], Message(d));
  }

  /** With all futures taken the call may return, and every copy has run. */
  lemma AllTaken(w: World, x: Caller, ds: seq<Delivery>)
    requires Calling(w, x, ds, |ds|) && Separate(ds) && Taken(w.reactors, ds, |ds|)
    ensures Legal(w, Leave(x)) && AllRan(w.reactors, ds) && |Executions(w.reactors, ds)| == |ds|
  {
    forall k | 0 <= k < |ds| ensures RanOnce(w.reactors, ds[k]) {
      assert ds[k] in First(ds, |ds|);
      assert Awaits(w, x, ds[k]);
      SettledRan(w.reactors, ds[k]);
    }
    CountedExecutions(w.reactors, ds);
  }

  predicate Known(rs: Reactors, slots: seq<Option<Reactor>>) {
    forall i :: 0 <= i < |slots| && slots[i].Some? ==> slots[i].value.idx in rs
  }

  lemma {:induction false} TargetsKnown(r: Regex, slots: seq<Option<Reactor>>, rs: Reactors)
    requires Known(rs, slots)
    ensures forall i :: i in Targets(r, slots) ==> i in rs
    decreases |slots|
  {
    if slots != [] { TargetsKnown(r, slots[..|slots| - 1], rs); }
  }

  lemma ReceiversKnown(r: Regex, workers: seq<Option<Reactor>>, all: seq<Option<Reactor>>, pick: nat, b: Book,
                       rs: Reactors)
    requires Known(rs, workers) && Known(rs, all)
    requires r == RandomWorker ==> pick < |workers| && workers[pick].Some? && b.receivers == [workers[pick].value.idx]
    requires r != RandomWorker && !IsLeastBusy(r) ==> b.receivers == Targets(r, Picked(r, workers, all))
    requires IsLeastBusy(r) && |b.receivers| > 0 ==>
               exists k :: LeastBusyAt(r, Picked(r, workers, all), k)
                           && b.receivers == [Picked(r, workers, all)[k].value.idx]
    ensures forall i :: i in b.receivers ==> i in rs
  {
    TargetsKnown(r, Picked(r, workers, all), rs);
  }

  /** What the multicast logged can be sent. */
  lemma Prepared(rs: Reactors, b: Book, fibers: map<ReactorId, MF.Fiber>, msg: MsgPtr)
    requires |b.receivers| == |b.delivered| && Distinct(b.delivered) && From(b.delivered, msg)
    requires forall i :: i in b.receivers ==> i in rs
    requires forall q :: q in rs ==> q in fibers && fibers[q] in rs[q].fibers
    requires forall q, m :: q in rs && m in rs[q].sent ==> m.id < msg
    ensures var ds := Deliveries(b, fibers);
            Separate(ds) && Addressed(rs, ds) && UnsentFrom(rs, ds, 0) && Receivers(ds) == b.receivers && Mine(ds, msg)
  {
    var ds := Deliveries(b, fibers);
    forall k | 0 <= k < |ds| ensures ds[k].reactor in rs && ds[k].fiber in rs[ds[k].reactor].fibers {
      assert b.receivers[k] in b.receivers;
    }
  }

  lemma Entered(w: World, x: Caller, ds: seq<Delivery>)
    requires Inv(w) && Legal(w, Enter(x)) && Addressed(w.reactors, ds) && UnsentFrom(w.reactors, ds, 0)
    ensures Calling(Step(w, Enter(x)), x, ds, 0)
  {
    StepKeepsInv(w, Enter(x));
    assert First(ds, 0) == {};
  }

  class Messenger {
    var world: World
    /** What the others do, one batch for every time the caller gives way. */
    var others: seq<seq<Event>>

    method Interfere(mine: MsgPtr, ghost ds: seq<Delivery>, x: Caller, ghost k: nat)
      requires Calling(world, x, ds, k) && Mine(ds, mine)
      modifies this
      ensures Calling(world, x, ds, k) && Later(old(world.reactors), world.reactors)
      ensures others == if old(others) == [] then [] else old(others)[1..]
    {
      LaterSelf(world.reactors);
      if others == [] { return; }
      var batch := others[0];
      others := others[1..];
      for i := 0 to |batch|
        invariant Calling(world, x, ds, k) && Later(old(world.reactors), world.reactors) && others == old(others)[1..]
      {
        if Legal(world, batch[i]) && Foreign(batch[i], x, mine) {
          OthersStep(world, batch[i], x, ds, k, mine);
          LaterTrans(old(world.reactors), world.reactors, Step(world, batch[i]).reactors);
          world := Step(world, batch[i]);
        }
      }
    }

    /** The deliveries, others going on in between. */
    method SendAll(ds: seq<Delivery>, x: Caller, mine: MsgPtr)
      requires Calling(world, x, ds, 0) && Separate(ds) && Mine(ds, mine)
      modifies this
      ensures Calling(world, x, ds, |ds|)
    {
      for k := 0 to |ds|
        invariant Calling(world, x, ds, k)
      {
        SendNext(ds, k, x, mine);
      }
    }

    method SendNext(ds: seq<Delivery>, k: nat, x: Caller, mine: MsgPtr)
      requires Calling(world, x, ds, k) && k < |ds| && Separate(ds) && Mine(ds, mine)
      modifies this
      ensures Calling(world, x, ds, k + 1)
    {
      SendCopy(ds, k, x);
      Interfere(mine, ds, x, k + 1);
    }

    /** deliver_msg of one copy. */
    method SendCopy(ds: seq<Delivery>, k: nat, x: Caller)
      requires Calling(world, x, ds, k) && k < |ds| && Separate(ds)
      modifies this`world
      ensures Calling(world, x, ds, k + 1) && old(Legal(world, Send(x, ds[k])))
      ensures world == Step(old(world), Send(x, ds[k]))
    {
      SendStep(world, x, ds, k);
      world := Step(world, Send(x, ds[k]));
    }

    /** Takes the future of copy `k`, giving way until it is set; false when it is still unset after all the
        others do. */
    method Get(ds: seq<Delivery>, k: nat, x: Caller, mine: MsgPtr) returns (done: bool)
      requires Calling(world, x, ds, |ds|) && Mine(ds, mine) && k < |ds|
      modifies this
      ensures Calling(world, x, ds, |ds|) && Later(old(world.reactors), world.reactors)
      ensures if done then Settled(world.reactors, ds[k]) else others == []
    {
      LaterSelf(world.reactors);
      while !Settled(world.reactors, ds[k])
        invariant Calling(world, x, ds, |ds|) && Later(old(world.reactors), world.reactors)
        decreases |others|
      {
        if others == [] { return false; }
        ghost var before := world.reactors;
        Interfere(mine, ds, x, |ds|);
        LaterTrans(old(world.reactors), before, world.reactors);
      }
      return true;
    }

    /** The loop over the futures. */
    method GetAll(ds: seq<Delivery>, x: Caller, mine: MsgPtr) returns (done: bool)
      requires Calling(world, x, ds, |ds|) && Mine(ds, mine)
      modifies this
      ensures Calling(world, x, ds, |ds|)
      ensures if done then Taken(world.reactors, ds, |ds|) else others == []
    {
      for k := 0 to |ds|
        invariant Calling(world, x, ds, |ds|) && Taken(world.reactors, ds, k)
      {
        done := GetNext(ds, k, x, mine);
        if !done { return; }
      }
      done := true;
    }

    /** One more future, those taken before staying set. */
    method GetNext(ds: seq<Delivery>, k: nat, x: Caller, mine: MsgPtr) returns (done: bool)
      requires Calling(world, x, ds, |ds|) && Mine(ds, mine) && k < |ds| && Taken(world.reactors, ds, k)
      modifies this
      ensures Calling(world, x, ds, |ds|)
      ensures if done then Taken(world.reactors, ds, k + 1) else others == []
    {
      ghost var before := world.reactors;
      assert forall r :: r in before ==> MF.Inv(before[r]);
      done := Get(ds, k, x, mine);
      if done {
        forall j | 0 <= j < k ensures Settled(world.reactors, ds[j]) {
          assert Settled(before, ds[j]) && After(before[ds[j].reactor], world.reactors[ds[j].reactor]);
          assert MF.Inv(before[ds[j].reactor]) && MF.Inv(world.reactors[ds[j].reactor]);
          StillSettled(before, world.reactors, ds[j]);
        }
      }
    }

    /** multicast_msg_and_wait.  It returns the number of copies sent, and only once that many executions of them have
        taken place: each copy once, on the fiber and the reactor it was sent to and nowhere else.  Otherwise the call
        is still under way when the others have done all they do. */
    method MulticastMsgAndWait(r: Regex, workers: seq<Option<Reactor>>, all: seq<Option<Reactor>>, pick: nat,
                               msg: MsgPtr, fibers: map<ReactorId, MF.Fiber>, x: Caller)
      returns (count: nat, returned: bool, ds: seq<Delivery>)
      requires r == RandomWorker ==> pick < |workers| && workers[pick].Some?
      requires Countable(workers) && Countable(all) && Known(world.reactors, workers) && Known(world.reactors, all)
      requires Inv(world) && Legal(world, Enter(x))
      requires forall q :: q in world.reactors ==> q in fibers && fibers[q] in world.reactors[q].fibers
      requires forall q, m :: q in world.reactors && m in world.reactors[q].sent ==> m.id < msg
      modifies this
      ensures Inv(world) && count == |ds| && Separate(ds)
      ensures returned ==>
                x !in world.calls && AllRan(world.reactors, ds) && |Executions(world.reactors, ds)| == count
      ensures !returned ==> others == [] && x in world.calls && world.calls[x] == First(ds, |ds|)
      ensures r != RandomWorker && !IsLeastBusy(r) ==> Receivers(ds) == Targets(r, Picked(r, workers, all))
    {
      var futures, log;
      count, futures, log := MulticastMsg(r, workers, all, pick, msg, true);
      ReceiversKnown(r, workers, all, pick, Books(msg, log), world.reactors);
      Prepared(world.reactors, Books(msg, log), fibers, msg);
      ds := Deliveries(Books(msg, log), fibers);
      Entered(world, x, ds);
      world := Step(world, Enter(x));
      SendAll(ds, x, msg);
      returned := GetAll(ds, x, msg);
      if returned {
        AllTaken(world, x, ds);
        StepKeepsInv(world, Leave(x));
        world := Step(world, Leave(x));
      }
    }
  }
}
