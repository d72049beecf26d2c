/** A message's way through a running reactor (src/lib/reactor/reactor.cpp): deliver_msg puts it in the mailbox or, from
    the reactor's own thread, handles it on the spot; handle_msg runs it on its destination fiber or passes it to that
    fiber's queue; fiber_loop runs what the queue gives.  Fiber 0 is the main fiber: it serves the mailbox and, alone
    among the fibers, runs no fiber_loop. */
module MessageFlow {
  import opened Counting
  import opened FiberChannel
  import opened Options

  type Fiber = nat

  const MAIN: Fiber := 0
  const CAP: nat := MAX_CHANNEL_CAP

  datatype Msg = Msg(id: nat, dest: Fiber, waits: bool)

  datatype State = State(
    mailbox: seq<Msg>,
    fibers: map<Fiber, Fifo<Msg>>,
    executed: seq<Msg>,              // messages run and freed, in order
    ranOn: seq<Fiber>,               // the fiber each of them ran on
    fulfilled: multiset<Msg>,        // promises set
    sent: seq<Msg>,                  // everything given to deliver_msg, in order
    stranded: seq<Msg>)              // sends to the main fiber made by another fiber of this reactor

  datatype Event =
    | Remote(m: Msg)                 // deliver_msg from another thread
    | Local(m: Msg, self: Fiber)     // deliver_msg from fiber `self` of this reactor
    | MainTakes                      // the main fiber dequeues from the mailbox
    | FiberTakes(f: Fiber)           // one turn of fiber_loop

  /** A reactor with the given fibers, all queues empty. */
  function Idle(fibers: set<Fiber>): State {
    State([], map f | f in fibers :: Fifo([], [], false), [], [], multiset{}, [], [])
  }

  predicate Legal(s: State, e: Event) {
    match e
    case Remote(m) => m.dest in s.fibers && m !in s.sent
    case Local(m, self) => m.dest in s.fibers && self in s.fibers && m !in s.sent
    case MainTakes => s.mailbox != []
    case FiberTakes(f) => f != MAIN && f in s.fibers && s.fibers[f].channel != []
  }

  function Handled(s: State, m: Msg, self: Fiber): State {
    if m.dest == self then
      s.(executed := s.executed + [m], ranOn := s.ranOn + [self],
         fulfilled := if m.waits then s.fulfilled + multiset{m} else s.fulfilled)
    else if m.dest in s.fibers then s.(fibers := s.fibers[m.dest := Push(s.fibers[m.dest], CAP, m)])
    else s
  }

  function Step(s: State, e: Event): State
    requires Legal(s, e)
  {
    match e
    case Remote(m) => s.(mailbox := s.mailbox + [m], sent := s.sent + [m])
    case Local(m, self) =>
      Handled(s.(sent := s.sent + [m], stranded := if Strands(e) then s.stranded + [m] else s.stranded), m, self)
    case MainTakes => Handled(s.(mailbox := s.mailbox[1..]), s.mailbox[0], MAIN)
    case FiberTakes(f) =>
      var (q, m) := Pop(s.fibers[f], CAP);
      Handled(s.(fibers := s.fibers[f := q]), m.value, f)
  }

  /** A send to the main fiber from another fiber of the same reactor. */
  predicate Strands(e: Event) {
    e.Local? && e.m.dest == MAIN && e.self != MAIN
  }

  predicate LegalRun(s: State, run: seq<Event>)
    decreases run
  {
    run == [] || (Legal(s, run[0]) && LegalRun(Step(s, run[0]), run[1..]))
  }

  function Exec(s: State, run: seq<Event>): State
    requires LegalRun(s, run)
    decreases run
  {
    if run == [] then s else Exec(Step(s, run[0]), run[1..])
  }

  // ---------------------------------------------------------------------------------------------------------------
  // Conservation

  function Queued(s: State, f: Fiber): seq<Msg> {
    if f in s.fibers then Contents(s.fibers[f]) else []
  }

  /** How often a message is somewhere in the reactor. */
  function Occurrences(s: State, m: Msg): nat {
    multiset(s.mailbox)[m] + multiset(Queued(s, m.dest))[m] + multiset(s.executed)[m]
  }

  predicate OnlyFor(ms: seq<Msg>, f: Fiber) {
    forall i :: 0 <= i < |ms| ==> ms[i].dest == f
  }

  predicate QueueOk(q: Fifo<Msg>, f: Fiber) {
    Ordered(q, CAP) && !q.closed && OnlyFor(Contents(q), f)
  }

  /** Queues are sound and hold only messages for their own fiber. */
  ghost predicate Sorted(s: State) {
    && (forall f :: f in s.fibers ==> QueueOk(s.fibers[f], f))
    && (forall i :: 0 <= i < |s.mailbox| ==> s.mailbox[i].dest in s.fibers)
  }

  /** What ran, ran on its destination, and only that settled promises. */
  ghost predicate RanRight(s: State) {
    && |s.ranOn| == |s.executed|
    && (forall i :: 0 <= i < |s.executed| ==> s.ranOn[i] == s.executed[i].dest)
    && (forall m :: s.fulfilled[m] == if m.waits then multiset(s.executed)[m] else 0)
  }

  ghost predicate Conserved(s: State) {
    forall m :: Occurrences(s, m) == multiset(s.sent)[m] <= 1
  }

  ghost predicate Inv(s: State) {
    Sorted(s) && RanRight(s) && Conserved(s) && Queued(s, MAIN) == s.stranded
  }

  /** `m` is in none of the places, as while handle_msg decides about it. */
  ghost predicate Loose(s: State, m: Msg) {
    && Sorted(s) && RanRight(s) && m.dest in s.fibers
    && forall x :: Occurrences(s, x) + One(x == m) == multiset(s.sent)[x] <= 1
  }

  lemma PushOk(q: Fifo<Msg>, m: Msg)
    requires QueueOk(q, m.dest)
    ensures QueueOk(Push(q, CAP, m), m.dest) && Contents(Push(q, CAP, m)) == Contents(q) + [m]
  {
    PushAppends(q, CAP, m);
  }

  lemma HandleQueues(s: State, m: Msg, self: Fiber, f: Fiber)
    requires m.dest in s.fibers && QueueOk(s.fibers[m.dest], m.dest)
    ensures Queued(Handled(s, m, self), f) == if f == m.dest != self then Queued(s, f) + [m] else Queued(s, f)
  {
    PushOk(s.fibers[m.dest], m);
  }

  lemma HandleOccurrences(s: State, m: Msg, self: Fiber, x: Msg)
    requires m.dest in s.fibers && QueueOk(s.fibers[m.dest], m.dest)
    ensures Occurrences(Handled(s, m, self), x) == Occurrences(s, x) + One(x == m)
  {
    HandleQueues(s, m, self, x.dest);
  }

  lemma HandleKeeps(s: State, m: Msg, self: Fiber)
    requires Sorted(s) && RanRight(s) && m.dest in s.fibers
    ensures var s' := Handled(s, m, self); Sorted(s') && RanRight(s')
  {
    PushOk(s.fibers[m.dest], m);
  }

  lemma HandleConserves(s: State, m: Msg, self: Fiber)
    requires Loose(s, m)
    ensures Conserved(Handled(s, m, self))
  {
    forall x ensures Occurrences(Handled(s, m, self), x) == multiset(s.sent)[x] <= 1 {
      assert QueueOk(s.fibers[m.dest], m.dest);
      HandleOccurrences(s, m, self, x);
      assert Occurrences(s, x) + One(x == m) == multiset(s.sent)[x] <= 1;
    }
  }

  lemma HandleInv(s: State, m: Msg, self: Fiber)
    requires Loose(s, m)
    requires s.stranded == if m.dest == MAIN != self then Queued(s, MAIN) + [m] else Queued(s, MAIN)
    ensures Inv(Handled(s, m, self))
  {
    HandleKeeps(s, m, self);
    HandleConserves(s, m, self);
    HandleQueues(s, m, self, MAIN);
  }

  lemma MainTakesKeeps(s: State)
    requires Inv(s) && Legal(s, MainTakes)
    ensures Inv(Step(s, MainTakes))
  {
    var m, s1 := s.mailbox[0], s.(mailbox := s.mailbox[1..]);
    forall x ensures Occurrences(s1, x) + One(x == m) == multiset(s1.sent)[x] <= 1 { TakenOccurrences(s, x); }
    HandleInv(s1, m, MAIN);
  }

  lemma TakenOccurrences(s: State, x: Msg)
    requires s.mailbox != []
    ensures Occurrences(s.(mailbox := s.mailbox[1..]), x) + One(x == s.mailbox[0]) == Occurrences(s, x)
  {
    assert s.mailbox == [s.mailbox[0]] + s.mailbox[1..];
  }

  lemma FiberPops(s: State, f: Fiber) returns (q: Fifo<Msg>, m: Msg)
    requires Sorted(s) && Legal(s, FiberTakes(f))
    ensures Pop(s.fibers[f], CAP) == (q, Some(m)) && m.dest == f && QueueOk(q, f)
    ensures [m] + Contents(q) == Queued(s, f)
  {
    assert QueueOk(s.fibers[f], f);
    PopRemovesHead(s.fibers[f], CAP);
    q, m := Pop(s.fibers[f], CAP).0, Pop(s.fibers[f], CAP).1.value;
    var all := Queued(s, f);
    assert all == [m] + Contents(q) && all[0] == m;
    forall i | 0 <= i < |Contents(q)| ensures Contents(q)[i].dest == f { assert Contents(q)[i] == all[i + 1]; }
  }

  lemma FiberTakesKeeps(s: State, f: Fiber)
    requires Inv(s) && Legal(s, FiberTakes(f))
    ensures Inv(Step(s, FiberTakes(f)))
  {
    var q, m := FiberPops(s, f);
    var s1 := s.(fibers := s.fibers[f := q]);
    forall x ensures Occurrences(s1, x) + One(x == m) == multiset(s1.sent)[x] <= 1 {
      PoppedOccurrences(s, f, q, m, x);
    }
    HandleInv(s1, m, f);
  }

  lemma PoppedOccurrences(s: State, f: Fiber, q: Fifo<Msg>, m: Msg, x: Msg)
    requires f in s.fibers && m.dest == f && [m] + Contents(q) == Queued(s, f)
    ensures Occurrences(s.(fibers := s.fibers[f := q]), x) + One(x == m) == Occurrences(s, x)
  {
    if x.dest == f { assert multiset(Queued(s, f)) == multiset{m} + multiset(Contents(q)); }
  }

  lemma LocalKeeps(s: State, m: Msg, self: Fiber)
    requires Inv(s) && Legal(s, Local(m, self))
    ensures Inv(Step(s, Local(m, self)))
  {
    var s1 := s.(sent := s.sent + [m], stranded := if Strands(Local(m, self)) then s.stranded + [m] else s.stranded);
    forall x ensures Occurrences(s1, x) + One(x == m) == multiset(s1.sent)[x] <= 1 {
      assert Occurrences(s1, x) == Occurrences(s, x) == multiset(s.sent)[x] <= 1;
    }
    HandleInv(s1, m, self);
  }

  lemma RemoteKeeps(s: State, m: Msg)
    requires Inv(s) && Legal(s, Remote(m))
    ensures Inv(Step(s, Remote(m)))
  {
    forall x ensures Occurrences(Step(s, Remote(m)), x) == multiset(Step(s, Remote(m)).sent)[x] <= 1 {
      assert Occurrences(s, x) == multiset(s.sent)[x] <= 1;
      RemoteOccurrences(s, m, x);
    }
    assert Queued(Step(s, Remote(m)), MAIN) == Queued(s, MAIN);
  }

  lemma RemoteOccurrences(s: State, m: Msg, x: Msg)
    requires Legal(s, Remote(m))
    ensures Occurrences(Step(s, Remote(m)), x) == Occurrences(s, x) + One(x == m)
    ensures multiset(Step(s, Remote(m)).sent)[x] == multiset(s.sent)[x] + One(x == m)
    ensures x == m ==> multiset(s.sent)[x] == 0
  {
    assert Queued(Step(s, Remote(m)), x.dest) == Queued(s, x.dest);
  }

  lemma StepKeepsInv(s: State, e: Event)
    requires Inv(s) && Legal(s, e)
    ensures Inv(Step(s, e))
  {
    match e
    case Remote(m) => RemoteKeeps(s, m);
    case Local(m, self) => LocalKeeps(s, m, self);
    case MainTakes => MainTakesKeeps(s);
    case FiberTakes(f) => FiberTakesKeeps(s, f);
  }

  lemma {:induction false} RunsKeepInv(s: State, run: seq<Event>)
    requires Inv(s) && LegalRun(s, run)
    ensures Inv(Exec(s, run))
    decreases run
  {
    if run != [] {
      StepKeepsInv(s, run[0]);
      RunsKeepInv(Step(s, run[0]), run[1..]);
    }
  }

  ghost predicate Reachable(s: State) {
    exists fibers, run :: LegalRun(Idle(fibers), run) && s == Exec(Idle(fibers), run)
  }

  lemma ReachableInv(s: State)
    requires Reachable(s)
    ensures Inv(s)
  {
    var fibers, run :| LegalRun(Idle(fibers), run) && s == Exec(Idle(fibers), run);
    assert Queued(Idle(fibers), MAIN) == [];
    RunsKeepInv(Idle(fibers), run);
  }

  /** While the reactor runs, every message sent is in exactly one of mailbox, destination queue and executed, a message
      never sent is in none; whatever ran, ran once, on its destination fiber; and a waited-for promise is set exactly
      when its message ran. */
  lemma EachMessageInOnePlace(s: State, m: Msg)
    requires Reachable(s)
    ensures Occurrences(s, m) == (if m in s.sent then 1 else 0)
    ensures s.fulfilled[m] == (if m.waits && m in s.executed then 1 else 0)
    ensures |s.ranOn| == |s.executed| && forall i :: 0 <= i < |s.executed| ==> s.ranOn[i] == s.executed[i].dest
  {
    ReachableInv(s);
    assert Occurrences(s, m) == multiset(s.sent)[m] <= 1;
    assert m in s.sent <==> m in multiset(s.sent);
    assert m in s.executed <==> m in multiset(s.executed);
  }

  // ---------------------------------------------------------------------------------------------------------------
  // Every message runs, unless it was stranded

  predicate Finishing(e: Event) {
    e.MainTakes? || e.FiberTakes?
  }

  function Left(s: State): int {
    |s.mailbox| + |s.sent| - |s.executed|
  }

  lemma LeftIsBounded(s: State)
    requires Inv(s)
    ensures |s.executed| <= |s.sent| && Left(s) >= 0
  {
    forall m ensures multiset(s.executed)[m] <= multiset(s.sent)[m] { assert Occurrences(s, m) == multiset(s.sent)[m]; }
    assert multiset(s.executed) <= multiset(s.sent);
    assert multiset(s.sent) == multiset(s.executed) + (multiset(s.sent) - multiset(s.executed));
    assert |multiset(s.executed)| == |s.executed| && |multiset(s.sent)| == |s.sent|;
  }

  lemma FinishingShrinks(s: State, e: Event)
    requires Inv(s) && Legal(s, e) && Finishing(e)
    ensures Left(Step(s, e)) < Left(s) && Step(s, e).sent == s.sent && Step(s, e).stranded == s.stranded
  {
    if e.FiberTakes? { var q, m := FiberPops(s, e.f); }
  }

  /** A queue only grows until its own fiber takes from it. */
  lemma QueueGrows(s: State, e: Event, f: Fiber)
    requires Sorted(s) && Legal(s, e) && e != FiberTakes(f)
    ensures Queued(s, f) <= Queued(Step(s, e), f)
  {
    match e
    case Remote(m) =>
    case Local(m, self) =>
      assert QueueOk(s.fibers[m.dest], m.dest);
      HandleQueues(s.(sent := s.sent + [m], stranded := if Strands(e) then s.stranded
              + [m] else s.stranded), m, self, f);
    case MainTakes =>
      var m := s.mailbox[0];
      assert QueueOk(s.fibers[m.dest], m.dest);
      HandleQueues(s.(mailbox := s.mailbox[1..]), m, MAIN, f);
    case FiberTakes(g) =>
      var q, m := FiberPops(s, g);
  }

  /** Then a message has run or was stranded. */
  lemma AtRestEach(s: State, m: Msg)
    requires Inv(s) && m in s.sent && forall e :: Finishing(e) ==> !Legal(s, e)
    ensures m in s.executed <==> m !in s.stranded
  {
    assert !Legal(s, MainTakes);
    if m.dest in s.fibers && m.dest != MAIN {
      assert !Legal(s, FiberTakes(m.dest));
      assert QueueOk(s.fibers[m.dest], m.dest);
    }
    assert Occurrences(s, m) == multiset(s.sent)[m] <= 1;
    assert m in multiset(s.sent);
    assert m in s.executed <==> m in multiset(s.executed);
    assert m in Queued(s, m.dest) <==> m in multiset(Queued(s, m.dest));
    if m in s.stranded {
      assert m in Queued(s, MAIN) && QueueOk(s.fibers[MAIN], MAIN) && m.dest == MAIN;
    }
  }

  /** When neither the main fiber nor any fiber loop has anything to take, all that is left are stranded messages. */
  lemma AtRest(s: State)
    requires Inv(s) && forall e :: Finishing(e) ==> !Legal(s, e)
    ensures s.mailbox == [] && forall f :: f != MAIN ==> Queued(s, f) == []
    ensures (forall m :: m in s.sent ==> m in s.executed) <==> s.stranded == []
  {
    assert !Legal(s, MainTakes);
    forall f | f != MAIN ensures Queued(s, f) == [] {
      assert !Legal(s, FiberTakes(f));
      if f in s.fibers { assert QueueOk(s.fibers[f], f); }
    }
    forall m | m in s.sent ensures m in s.executed <==> m !in s.stranded { AtRestEach(s, m); }
    if s.stranded != [] {
      var m := s.stranded[0];
      assert QueueOk(s.fibers[MAIN], MAIN) && m.dest == MAIN;
      assert Occurrences(s, m) == multiset(s.sent)[m];
      assert m in multiset(Queued(s, MAIN));
      assert m in multiset(s.sent) && m in s.sent && m !in s.executed;
    }
  }

  /** Once sending stops, every schedule of the reactor is finite, and when it ends every message has run if and only if
      no fiber of the reactor ever sent one to the reactor's own main fiber: those sit in a queue that nothing reads. */
  lemma {:induction false} AllRunIffNoneStranded(s: State, run: seq<Event>)
    requires Inv(s) && LegalRun(s, run)
    requires forall i :: 0 <= i < |run| ==> Finishing(run[i])
    ensures |run| <= Left(s)
    ensures (forall e :: Finishing(e) ==> !Legal(Exec(s, run), e)) ==>
              ((forall m :: m in s.sent ==> m in Exec(s, run).executed) <==> s.stranded == [])
    decreases run
  {
    LeftIsBounded(s);
    if run == [] {
      if forall e :: Finishing(e) ==> !Legal(s, e) { AtRest(s); }
    } else {
      StepKeepsInv(s, run[0]);
      FinishingShrinks(s, run[0]);
      AllRunIffNoneStranded(Step(s, run[0]), run[1..]);
    }
  }

  /** One send from a fiber to its own main fiber is enough: the reactor is at rest and the message has not run. */
  lemma StrandedReachable() returns (s: State)
    ensures Reachable(s) && s.sent == [Msg(7, MAIN, true)] && s.executed == [] && s.stranded == s.sent
    ensures forall e :: Finishing(e) ==> !Legal(s, e)
  {
    var s0, e := Idle({MAIN, 1}), Local(Msg(7, MAIN, true), 1);
    assert [e][1..] == [] && LegalRun(s0, [e]);
    s := Step(s0, e);
    assert s == Exec(s0, [e]);
    forall f | f in s.fibers && f != MAIN ensures s.fibers[f].channel == [] {}
  }

  /** A stranded message never runs, whatever happens later; a caller waiting for it waits for ever. */
  lemma {:induction false} StrandedNeverRuns(s: State, run: seq<Event>, m: Msg)
    requires Inv(s) && LegalRun(s, run) && m in s.stranded
    ensures m !in Exec(s, run).executed && Exec(s, run).fulfilled[m] == 0
    decreases run
  {
    if run != [] {
      StepKeepsInv(s, run[0]);
      StrandedNeverRuns(Step(s, run[0]), run[1..], m);
    } else {
      assert QueueOk(s.fibers[MAIN], MAIN) && m.dest == MAIN;
      assert Occurrences(s, m) == multiset(s.sent)[m] <= 1;
      assert m in multiset(Queued(s, MAIN));
      assert m !in multiset(s.executed);
    }
  }

  // ---------------------------------------------------------------------------------------------------------------
  // Order

  /** The messages for one fiber, in order. */
  function For(ms: seq<Msg>, f: Fiber): seq<Msg> {
    if ms == [] then [] else (if ms[0].dest == f then [ms[0]] else []) + For(ms[1..], f)
  }

  lemma ForCons(m: Msg, ms: seq<Msg>, f: Fiber)
    ensures For([m] + ms, f) == (if m.dest == f then [m] else []) + For(ms, f)
  {
    assert ([m] + ms)[1..] == ms;
  }

  lemma {:induction false} ForSnoc(ms: seq<Msg>, m: Msg, f: Fiber)
    ensures For(ms + [m], f) == For(ms, f) + (if m.dest == f then [m] else [])
    decreases |ms|
  {
    var x := if m.dest == f then [m] else [];
    if ms == [] {
      assert ms + [m] == [m] && [m][1..] == [];
    } else {
      var rest, head := ms[1..], if ms[0].dest == f then [ms[0]] else [];
      ForSnoc(rest, m, f);
      assert (ms + [m])[1..] == rest + [m] && (ms + [m])[0] == ms[0];
      assert For(ms + [m], f) == head + For(rest + [m], f);
      assert head + (For(rest, f) + x) == (head + For(rest, f)) + x;
    }
  }

  lemma {:induction false} ForIsPart(ms: seq<Msg>, f: Fiber, m: Msg)
    requires m in For(ms, f)
    ensures m in ms
    decreases |ms|
  {
    if m in For(ms[1..], f) { ForIsPart(ms[1..], f, m); }
  }

  /** A fiber's messages have run, are queued and are in the mailbox in the order they were sent. */
  ghost predicate InOrder(s: State, f: Fiber) {
    For(s.executed, f) + Queued(s, f) + For(s.mailbox, f) == For(s.sent, f)
  }

  /** The shortcut for senders on the reactor's own thread passes messages sent earlier. */
  predicate Overtakes(s: State, m: Msg, self: Fiber) {
    For(s.mailbox, m.dest) != [] || (m.dest == self && Queued(s, m.dest) != [])
  }

  lemma InsertKeepsOrderIff<T>(a: seq<T>, rest: seq<T>, x: T)
    requires x !in rest
    ensures a + [x] + rest == a + rest + [x] <==> rest == []
  {
    if rest != [] {
      assert (a + [x] + rest)[|a|] == x;
      assert (a + rest + [x])[|a|] == rest[0];
    }
  }

  /** What handle_msg does to one fiber's messages. */
  lemma HandleMoves(s: State, m: Msg, self: Fiber, f: Fiber)
    requires Sorted(s) && m.dest in s.fibers
    ensures var s' := Handled(s, m, self);
            && s'.mailbox == s.mailbox && s'.sent == s.sent
            && For(s'.executed, f) == (if f == m.dest == self then For(s.executed, f) + [m] else For(s.executed, f))
            && Queued(s', f) == if f == m.dest != self then Queued(s, f) + [m] else Queued(s, f)
  {
    assert QueueOk(s.fibers[m.dest], m.dest);
    HandleQueues(s, m, self, f);
    ForSnoc(s.executed, m, f);
  }

  lemma ShortcutSeqIff<T>(ran: seq<T>, queued: seq<T>, boxed: seq<T>, m: T, ranNow: bool)
    requires m !in queued && m !in boxed
    ensures if ranNow then (ran + [m]) + queued + boxed == ran + queued + boxed + [m] <==> queued == [] && boxed == []
            else ran + (queued + [m]) + boxed == ran + queued + boxed + [m] <==> boxed == []
  {
    if ranNow {
      InsertKeepsOrderIff(ran, queued + boxed, m);
      assert (ran + [m]) + queued + boxed == ran + [m] + (queued + boxed);
      assert ran + queued + boxed + [m] == ran + (queued + boxed) + [m];
    } else {
      InsertKeepsOrderIff(ran + queued, boxed, m);
      assert ran + (queued + [m]) + boxed == ran + queued + [m] + boxed;
    }
  }

  /** The shortcut keeps the destination's order exactly when there is nothing to pass. */
  lemma ShortcutKeepsOrderIff(s: State, m: Msg, self: Fiber)
    requires Inv(s) && Legal(s, Local(m, self)) && InOrder(s, m.dest)
    ensures InOrder(Step(s, Local(m, self)), m.dest) <==> !Overtakes(s, m, self)
  {
    var s1 := s.(sent := s.sent + [m], stranded := Step(s, Local(m, self)).stranded);
    NotYetThere(s, m);
    ForSnoc(s.sent, m, m.dest);
    HandleMoves(s1, m, self, m.dest);
    ShortcutSeqIff(For(s.executed, m.dest), Queued(s, m.dest), For(s.mailbox, m.dest), m, m.dest == self);
  }

  lemma NotYetThere(s: State, m: Msg)
    requires Inv(s) && m !in s.sent
    ensures m !in Queued(s, m.dest) && m !in For(s.mailbox, m.dest)
  {
    assert Occurrences(s, m) == multiset(s.sent)[m] == 0;
    assert m !in multiset(s.mailbox) && m !in multiset(Queued(s, m.dest));
    if m in For(s.mailbox, m.dest) { ForIsPart(s.mailbox, m.dest, m); }
  }

  lemma MainTakesKeepsOrder(s: State, f: Fiber)
    requires Sorted(s) && Legal(s, MainTakes) && InOrder(s, f) && Queued(s, MAIN) == []
    ensures InOrder(Step(s, MainTakes), f)
  {
    var m, rest := s.mailbox[0], s.mailbox[1..];
    assert s.mailbox == [m] + rest;
    ForCons(m, rest, f);
    HandleMoves(s.(mailbox := rest), m, MAIN, f);
    Regroup(For(s.executed, f), Queued(s, f), m, For(rest, f));
  }

  lemma RegroupHead<T>(a: seq<T>, x: T, q: seq<T>, b: seq<T>)
    ensures (a + [x]) + q + b == a + ([x] + q) + b
  {
  }

  lemma Regroup<T>(a: seq<T>, q: seq<T>, x: T, b: seq<T>)
    ensures a + (q + [x]) + b == a + q + ([x] + b)
    ensures q == [] ==> (a + [x]) + q + b == a + q + ([x] + b)
    ensures a + q + ([] + b) == a + q + b
  {
    assert [] + b == b;
  }

  lemma FiberTakesKeepsOrder(s: State, g: Fiber, f: Fiber)
    requires Sorted(s) && Legal(s, FiberTakes(g)) && InOrder(s, f)
    ensures InOrder(Step(s, FiberTakes(g)), f)
  {
    var q, m := FiberPops(s, g);
    HandleMoves(s.(fibers := s.fibers[g := q]), m, g, f);
    RegroupHead(For(s.executed, f), m, Contents(q), For(s.mailbox, f));
  }

  lemma RemoteKeepsOrder(s: State, m: Msg, f: Fiber)
    requires Legal(s, Remote(m)) && InOrder(s, f)
    ensures InOrder(Step(s, Remote(m)), f)
  {
    ForSnoc(s.sent, m, f);
    ForSnoc(s.mailbox, m, f);
    assert Queued(Step(s, Remote(m)), f) == Queued(s, f);
    RegroupLast(For(s.executed, f), Queued(s, f), For(s.mailbox, f), if m.dest == f then [m] else []);
  }

  lemma RegroupLast<T>(a: seq<T>, q: seq<T>, b: seq<T>, x: seq<T>)
    ensures a + q + (b + x) == (a + q + b) + x
  {
  }

  lemma LocalKeepsOthersOrder(s: State, m: Msg, self: Fiber, f: Fiber)
    requires Sorted(s) && Legal(s, Local(m, self)) && InOrder(s, f) && m.dest != f
    ensures InOrder(Step(s, Local(m, self)), f)
  {
    ForSnoc(s.sent, m, f);
    HandleMoves(s.(sent := s.sent + [m], stranded := Step(s, Local(m, self)).stranded), m, self, f);
  }

  /** Nothing else disturbs any fiber's order, as long as nothing is stranded. */
  lemma StepKeepsOrder(s: State, e: Event, f: Fiber)
    requires Sorted(s) && Legal(s, e) && InOrder(s, f) && Queued(s, MAIN) == []
    requires e.Local? ==> e.m.dest != f
    ensures InOrder(Step(s, e), f)
  {
    match e
    case Remote(m) => RemoteKeepsOrder(s, m, f);
    case Local(m, self) => LocalKeepsOthersOrder(s, m, self, f);
    case MainTakes => MainTakesKeepsOrder(s, f);
    case FiberTakes(g) => FiberTakesKeepsOrder(s, g, f);
  }

  /** A run whose shortcuts neither strand nor overtake. */
  predicate Polite(s: State, run: seq<Event>)
    requires LegalRun(s, run)
    decreases run
  {
    run == [] ||
    (!Strands(run[0]) && (run[0].Local? ==> !Overtakes(s, run[0].m, run[0].self)) && Polite(Step(s, run[0]), run[1..]))
  }

  lemma PoliteStep(s: State, e: Event, f: Fiber)
    requires Inv(s) && Queued(s, MAIN) == [] && Legal(s, e) && InOrder(s, f)
    requires !Strands(e) && (e.Local? ==> !Overtakes(s, e.m, e.self))
    ensures InOrder(Step(s, e), f)
  {
    if e.Local? && e.m.dest == f {
      ShortcutKeepsOrderIff(s, e.m, e.self);
    } else {
      StepKeepsOrder(s, e, f);
    }
  }

  lemma {:induction false} ExecSnoc(s: State, run: seq<Event>, e: Event)
    requires LegalRun(s, run) && Legal(Exec(s, run), e)
    ensures LegalRun(s, run + [e]) && Exec(s, run + [e]) == Step(Exec(s, run), e)
    decreases run
  {
    if run == [] {
      assert run + [e] == [e] && [e][1..] == [];
    } else {
      ExecSnoc(Step(s, run[0]), run[1..], e);
      assert (run + [e])[1..] == run[1..] + [e];
    }
  }

  lemma ReachableStep(s: State, e: Event)
    requires Reachable(s) && Legal(s, e)
    ensures Reachable(Step(s, e))
  {
    var fibers, run :| LegalRun(Idle(fibers), run) && s == Exec(Idle(fibers), run);
    ExecSnoc(Idle(fibers), run, e);
    assert LegalRun(Idle(fibers), run + [e]);
  }

  lemma PoliteInOrder(s: State, e: Event, f: Fiber)
    requires Reachable(s) && s.stranded == [] && Legal(s, e) && InOrder(s, f)
    requires !Strands(e) && (e.Local? ==> !Overtakes(s, e.m, e.self))
    ensures InOrder(Step(s, e), f)
  {
    ReachableInv(s);
    PoliteStep(s, e, f);
  }

  lemma NotStranded(s: State, e: Event)
    requires Legal(s, e) && !Strands(e)
    ensures Step(s, e).stranded == s.stranded
  {
  }

  /** Over such a run every fiber gets its messages in the order they were sent, end to end. */
  lemma {:induction false} EndToEndOrder(s: State, run: seq<Event>, f: Fiber)
    requires Reachable(s) && s.stranded == [] && LegalRun(s, run) && Polite(s, run) && InOrder(s, f)
    ensures InOrder(Exec(s, run), f)
    decreases run
  {
    if run != [] {
      PoliteInOrder(s, run[0], f);
      NotStranded(s, run[0]);
      ReachableStep(s, run[0]);
      EndToEndOrder(Step(s, run[0]), run[1..], f);
    }
  }

  // ---------------------------------------------------------------------------------------------------------------
  // The reactor object

  class IOReactor {
    var mailbox: seq<Msg>
    var fibers: map<Fiber, Fifo<Msg>>
    var executed: seq<Msg>
    var ranOn: seq<Fiber>
    var fulfilled: multiset<Msg>
    ghost var sent: seq<Msg>
    ghost var stranded: seq<Msg>

    ghost function Now(): State
      reads this
    {
      State(mailbox, fibers, executed, ranOn, fulfilled, sent, stranded)
    }

    method HandleMsg(m: Msg, self: Fiber)
      requires m.dest in fibers
      modifies this
      ensures Now() == Handled(old(Now()), m, self)
    {
      if m.dest == self {
        executed, ranOn := executed + [m], ranOn + [self];
        if m.waits {
          fulfilled := fulfilled + multiset{m};
        }
      } else {
        fibers := fibers[m.dest := Push(fibers[m.dest], CAP, m)];
      }
    }

    /** `self` is the calling fiber when the call comes from this reactor's thread. */
    method DeliverMsg(m: Msg, self: Option<Fiber>)
      requires Inv(Now()) && Legal(Now(), if self.None? then Remote(m) else Local(m, self.value))
      modifies this
      ensures Now() == Step(old(Now()), if self.None? then Remote(m) else Local(m, self.value)) && Inv(Now())
    {
      StepKeepsInv(Now(), if self.None? then Remote(m) else Local(m, self.value));
      sent := sent + [m];
      if self.Some? {
        if m.dest == MAIN && self.value != MAIN { stranded := stranded + [m]; }
        HandleMsg(m, self.value);
      } else {
        mailbox := mailbox + [m];
      }
    }

    /** One dequeue of the main fiber. */
    method MainTurn() returns (took: bool)
      requires Inv(Now())
      modifies this
      ensures took <==> old(mailbox) != []
      ensures Now() == (if took then Step(old(Now()), MainTakes) else old(Now())) && Inv(Now())
    {
      if mailbox == [] { return false; }
      StepKeepsInv(Now(), MainTakes);
      var m := mailbox[0];
      mailbox := mailbox[1..];
      HandleMsg(m, MAIN);
      return true;
    }

    /** One turn of fiber_loop, once there is a message. */
    method FiberTurn(f: Fiber)
      requires Inv(Now()) && Legal(Now(), FiberTakes(f))
      modifies this
      ensures Now() == Step(old(Now()), FiberTakes(f)) && Inv(Now())
      ensures |executed| == |old(executed)| + 1 && ranOn == old(ranOn) + [f]
    {
      ghost var q', m' := FiberPops(Now(), f);
      StepKeepsInv(Now(), FiberTakes(f));
      var (q, m) := Pop(fibers[f], CAP);
      fibers := fibers[f := q];
      HandleMsg(m.value, f);
    }
  }
}
