/** The message mailbox of an epoll reactor (src/lib/epoll/reactor_epoll.cpp): any number of producers in put_msg and
    the one consumer in listen / process_messages, interleaved at every access to shared memory or to the event
    descriptor.  Interleavings are sequentially consistent; the descriptor is watched edge-triggered, as add_iodev_impl
    asks. */
module Mailbox {

  type Producer = nat
  type Msg = nat

  /** Where the consumer is.  `count` messages were handled in this call of process_messages, at most `max`; `retry`
      says the handler flag has already been taken down. */
  datatype Place =
    | Idle                                          // in epoll_wait, or handling something else
    | Reported                                      // epoll_wait returned the message descriptor
    | Start                                         // entering process_messages
    | Pull(count: nat, max: nat, retry: bool)       // head of the inner loop
    | Check(count: nat, max: nat, retry: bool)      // after the inner loop
    | Lower(count: nat, max: nat)                   // about to take the flag down and retry
    | Yield                                         // about to re-raise the event
    | YieldLower                                    // about to take the flag down and leave

  datatype State = State(
    queue: seq<Msg>,               // m_msg_q
    on: bool,                      // m_msg_handler_on
    fd: nat,                       // counter of the event descriptor
    edge: bool,                    // a write the epoll set has not reported yet
    enqueued: set<Producer>,       // producers that enqueued but have not looked at the flag
    writing: set<Producer>,        // producers that saw the flag down and have yet to write
    place: Place,
    handled: seq<Msg>,             // every message handled so far, in order
    sent: seq<Msg>)                // every message enqueued so far, in order

  datatype Event =
    | Put(p: Producer, msg: Msg)
    | LoadFlag(p: Producer)
    | Write(p: Producer)
    | IdlePoll                     // epoll_wait timed out, idle_time_wakeup_poller
    | Report
    | ReadFd
    | Raise(max: nat)              // reads max_msgs_before_yield, then sets the flag
    | Consume                      // every other step of process_messages

  const Initial := State([], false, 0, false, {}, {}, Idle, [], [])

  predicate Legal(s: State, e: Event) {
    match e
    case Put(p, _) => p !in s.enqueued && p !in s.writing
    case LoadFlag(p) => p in s.enqueued
    case Write(p) => p in s.writing
    case IdlePoll => s.place == Idle
    case Report => s.place == Idle && s.edge && s.fd > 0
    case ReadFd => s.place == Reported && s.fd > 0
    case Raise(_) => s.place == Start
    case Consume => s.place.Pull? || s.place.Check? || s.place.Lower? || s.place.Yield? || s.place.YieldLower?
  }

  /** One shared-memory action of process_messages. */
  function Consumed(s: State): State
    requires Legal(s, Consume)
  {
    match s.place
    case Pull(n, max, retry) =>
      if n < max && s.queue != [] then
        s.(queue := s.queue[1..], handled := s.handled + [s.queue[0]], place := Pull(n + 1, max, retry))
      else s.(place := Check(n, max, retry))
    case Check(n, max, retry) =>
      if n == max && s.queue != [] then s.(place := Yield)
      else if retry then s.(place := Idle)
      else s.(place := Lower(n, max))
    case Lower(n, max) => s.(on := false, place := Pull(n, max, true))
    case Yield => s.(fd := s.fd + 1, edge := true, place := YieldLower)
    case YieldLower => s.(on := false, place := Idle)
  }

  function Step(s: State, e: Event): State
    requires Legal(s, e)
  {
    match e
    case Put(p, msg) => s.(queue := s.queue + [msg], sent := s.sent + [msg], enqueued := s.enqueued + {p})
    case LoadFlag(p) =>
      if s.on then s.(enqueued := s.enqueued - {p})
      else s.(enqueued := s.enqueued - {p}, writing := s.writing + {p})
    case Write(p) => s.(fd := s.fd + 1, edge := true, writing := s.writing - {p})
    case IdlePoll => s.(place := Start)
    case Report => s.(edge := false, place := Reported)
    case ReadFd => s.(fd := 0, place := Start)
    case Raise(max) => s.(on := true, place := Pull(0, max, false))
    case Consume => Consumed(s)
  }

  predicate LegalRun(s: State, run: seq<Event>)
    decreases run
  {
    run == [] || (Legal(s, run[0]) && LegalRun(Step(s, run[0]), run[1..]))
  }

  function Exec(s: State, run: seq<Event>): State
    requires LegalRun(s, run)
    decreases run
  {
    if run == [] then s else Exec(Step(s, run[0]), run[1..])
  }

  // ---------------------------------------------------------------------------------------------------------------
  // No lost wake-up

  /** If messages are queued, the event is raised or a producer is on its way to raise it. */
  predicate Covered(s: State) {
    s.queue == [] || s.fd > 0 || s.writing != {} || s.enqueued != {}
  }

  predicate Inv(s: State) {
    && s.handled + s.queue == s.sent
    && (s.fd > 0 && s.place != Reported ==> s.edge)
    && match s.place
       case Idle => !s.on && Covered(s)
       case Reported => !s.on && s.fd > 0
       case Start => !s.on
       case Pull(n, max, retry) => n <= max && s.on == !retry
       case Check(n, max, retry) => n <= max && s.on == !retry && (retry && n < max ==> Covered(s))
       case Lower(n, max) => n <= max && s.on
       case Yield => s.queue != []
       case YieldLower => s.fd > 0 && s.queue != []
  }

  lemma StepKeepsInv(s: State, e: Event)
    requires Inv(s) && Legal(s, e)
    ensures Inv(Step(s, e))
  {
    var s' := Step(s, e);
    match e
    case Put(p, msg) =>
      assert s'.handled + s'.queue == (s.handled + s.queue) + [msg];
      assert p in s'.enqueued;
    case LoadFlag(p) =>
      assert !s.on ==> p in s'.writing;
    case Consume =>
      if s.place.Pull? && s.queue != [] { assert s.queue == [s.queue[0]] + s.queue[1..]; }
    case _ =>
  }

  lemma {:induction false} RunsKeepInv(s: State, run: seq<Event>)
    requires Inv(s) && LegalRun(s, run)
    ensures Inv(Exec(s, run))
    decreases run
  {
    if run != [] {
      StepKeepsInv(s, run[0]);
      RunsKeepInv(Step(s, run[0]), run[1..]);
    }
  }

  ghost predicate Reachable(s: State) {
    exists run :: LegalRun(Initial, run) && s == Exec(Initial, run)
  }

  /** In every reachable state: messages are handled exactly once and in the order they were enqueued; and when the
      consumer is outside process_messages with messages queued, either epoll will report the descriptor, or a producer
      has enqueued without having finished its flag check, and since the flag is down that producer will write. */
  lemma NoLostWakeup(s: State)
    requires Reachable(s)
    ensures s.handled + s.queue == s.sent
    ensures s.place == Idle && s.queue != [] ==> Legal(s, Report) || s.writing != {} || (s.enqueued != {} && !s.on)
    ensures s.place == Reported ==> Legal(s, ReadFd)
  {
    var run :| LegalRun(Initial, run) && s == Exec(Initial, run);
    RunsKeepInv(Initial, run);
  }

  /** The descriptor's counter goes up by one with a producer's write and with a yield, of which the latter comes
      only with messages left, is set to zero by a read, and nothing else moves it. */
  lemma DescriptorMoves(s: State, e: Event)
    requires Reachable(s) && Legal(s, e)
    ensures Step(s, e).fd == if e.Write? || (e.Consume? && s.place.Yield?) then s.fd + 1
                             else if e.ReadFd? then 0 else s.fd
    ensures s.place.Yield? || s.place.YieldLower? ==> s.queue != []
  {
    var run :| LegalRun(Initial, run) && s == Exec(Initial, run);
    RunsKeepInv(Initial, run);
  }

  function Consumes(n: nat): seq<Event> {
    if n == 0 then [] else [Consume] + Consumes(n - 1)
  }

  lemma {:induction false} PullAlone(s: State, k: nat)
    requires s.place.Pull? && s.place.count + k <= s.place.max && k <= |s.queue|
    ensures LegalRun(s, Consumes(k))
    ensures Exec(s, Consumes(k)) == s.(queue := s.queue[k..], handled := s.handled + s.queue[..k],
                                       place := Pull(s.place.count + k, s.place.max, s.place.retry))
    decreases k
  {
    if k > 0 {
      var run, s' := Consumes(k), Step(s, Consume);
      assert run[0] == Consume && run[1..] == Consumes(k - 1);
      PullAlone(s', k - 1);
      assert s.queue[1..][k - 1..] == s.queue[k..];
      assert s.handled + [s.queue[0]] + s.queue[1..][..k - 1] == s.handled + s.queue[..k];
    } else {
      assert s.queue[0..] == s.queue && s.handled + s.queue[..0] == s.handled;
    }
  }

  lemma ConsumesTwo(s: State)
    requires Legal(s, Consume) && Legal(Step(s, Consume), Consume)
    ensures LegalRun(s, Consumes(2)) && Exec(s, Consumes(2)) == Step(Step(s, Consume), Consume)
  {
    var run := Consumes(2);
    assert run[0] == Consume && run[1..] == Consumes(1) && Consumes(1)[0] == Consume && Consumes(1)[1..] == [];
    var s1 := Step(s, Consume);
    assert LegalRun(s1, Consumes(1)) && Exec(s1, Consumes(1)) == Step(s1, Consume);
  }

  /** What is left of an undisturbed call of process_messages: the first messages up to the limit are handled in
      order, the flag is down, and the event is raised again exactly when messages are left. */
  function Processed(s: State, max: nat): State {
    var k := if |s.queue| <= max then |s.queue| else max;
    var s' := s.(queue := s.queue[k..], handled := s.handled + s.queue[..k], on := false, place := Idle);
    if k < |s.queue| then s'.(fd := s.fd + 1, edge := true) else s'
  }

  /** The end of such a call, from the end of the first inner loop. */
  lemma FinishAlone(s: State, max: nat) returns (run: seq<Event>)
    requires s.place.Pull? && !s.place.retry && s.place.max == max && s.place.count <= max
    requires s.queue == [] || s.place.count == max
    ensures LegalRun(s, run) && (forall i :: 0 <= i < |run| ==> run[i] == Consume)
    ensures Exec(s, run) == if s.queue == [] then s.(on := false, place := Idle)
                            else s.(on := false, place := Idle, fd := s.fd + 1, edge := true)
  {
    var s1 := Step(s, Consume);
    var s2 := Step(s1, Consume);
    ConsumesTwo(s);
    run := [Consume, Consume] + [Consume, Consume];
    assert Consumes(2) == [Consume, Consume];
    var s3 := Step(s2, Consume);
    ConsumesTwo(s2);
    ExecAppend(s, Consumes(2), Consumes(2));
    if s.queue == [] {
      var s4 := Step(s3, Consume);
      assert LegalRun(s4, [Consume]) && [Consume][1..] == [];
      ExecAppend(s, run, [Consume]);
      run := run + [Consume];
    }
  }

  /** Undisturbed, and however it was started, by the event or by the idle poller, process_messages does just that. */
  lemma ProcessAlone(s: State, max: nat) returns (run: seq<Event>)
    requires s.place == Start
    ensures LegalRun(s, run) && Exec(s, run) == Processed(s, max)
    ensures run != [] && run[0] == Raise(max) && forall i :: 1 <= i < |run| ==> run[i] == Consume
  {
    var k := if |s.queue| <= max then |s.queue| else max;
    var s1 := Step(s, Raise(max));
    PullAlone(s1, k);
    var s2 := Exec(s1, Consumes(k));
    ConsumesAre(k);
    var rest := FinishAlone(s2, max);
    ExecAppend(s1, Consumes(k), rest);
    run := [Raise(max)] + (Consumes(k) + rest);
    assert run[1..] == Consumes(k) + rest;
  }

  lemma {:induction false} ConsumesAre(n: nat)
    ensures forall i :: 0 <= i < |Consumes(n)| ==> Consumes(n)[i] == Consume
  {
    if n > 0 { ConsumesAre(n - 1); }
  }

  /** A call by the idle poller, undisturbed. */
  lemma IdlePollProcesses(s: State, max: nat) returns (run: seq<Event>)
    requires s.place == Idle
    ensures LegalRun(s, run) && Exec(s, run) == Processed(s, max)
    ensures |run| > 1 && run[0] == IdlePoll && run[1] == Raise(max) && forall i :: 2 <= i < |run| ==> run[i] == Consume
  {
    var rest := ProcessAlone(Step(s, IdlePoll), max);
    run := [IdlePoll] + rest;
    assert run[1..] == rest;
  }

  /** A call because of the event, undisturbed: the counter is read first. */
  lemma EventProcesses(s: State, max: nat) returns (run: seq<Event>)
    requires s.place == Idle && s.edge && s.fd > 0
    ensures LegalRun(s, run) && Exec(s, run) == Processed(s.(fd := 0, edge := false), max)
    ensures |run| > 2 && run[..3] == [Report, ReadFd, Raise(max)] && forall i :: 3 <= i < |run| ==> run[i] == Consume
  {
    var s1 := Step(s, Report);
    var s2 := Step(s1, ReadFd);
    var rest := ProcessAlone(s2, max);
    var mid := [ReadFd] + rest;
    assert mid[1..] == rest && LegalRun(s1, mid);
    run := [Report] + mid;
    assert run[1..] == mid;
  }

  lemma {:induction false} NoWriteWithoutLoad(s: State, run: seq<Event>, p: Producer)
    requires LegalRun(s, run) && p !in s.enqueued && p !in s.writing
    requires forall i :: 0 <= i < |run| ==> !(run[i].Put? && run[i].p == p)
    ensures forall i :: 0 <= i < |run| ==> run[i] != Write(p)
    decreases run
  {
    if run != [] {
      var s', rest := Step(s, run[0]), run[1..];
      NoWriteWithoutLoad(s', rest, p);
      forall i | 0 <= i < |run| ensures run[i] != Write(p) {
        if i > 0 { assert run[i] == rest[i - 1]; }
      }
    }
  }

  /** A producer raises the event for its message exactly when it finds the handler off: found on, no run makes it write
      before its next message; found off, the write is what it does next. */
  lemma WritesIffHandlerOff(s: State, p: Producer, run: seq<Event>)
    requires Legal(s, LoadFlag(p)) && p !in s.writing && LegalRun(Step(s, LoadFlag(p)), run)
    requires forall i :: 0 <= i < |run| ==> !(run[i].Put? && run[i].p == p)
    ensures Legal(Step(s, LoadFlag(p)), Write(p)) <==> !s.on
    ensures s.on ==> forall i :: 0 <= i < |run| ==> run[i] != Write(p)
    ensures Step(s, LoadFlag(p)).fd == s.fd && Step(s, LoadFlag(p)).edge == s.edge
  {
    if s.on { NoWriteWithoutLoad(Step(s, LoadFlag(p)), run, p); }
  }

  // ---------------------------------------------------------------------------------------------------------------
  // Every message is handled

  /** Steps that only finish work already begun: no new message, no idle poll, and a non-zero batch limit. */
  predicate Finishing(e: Event) {
    !e.Put? && !e.IdlePoll? && (e.Raise? ==> e.max > 0)
  }

  /** A batch limit read as zero is not in use. */
  predicate Batching(s: State) {
    match s.place
    case Pull(_, max, _) => max > 0
    case Check(_, max, _) => max > 0
    case Lower(_, max) => max > 0
    case _ => true
  }

  /** Work left.  Every message handled in a call pays for the event that call may re-raise when it yields. */
  function Left(s: State): nat {
    100 * |s.queue| + 90 * |s.enqueued| + 60 * |s.writing| + (if s.fd > 0 then 30 else 0) +
    match s.place
    case Idle => 1
    case Reported => 0
    case Start => 25
    case Pull(n, _, retry) => (if retry then 14 else 20) + (if n > 0 then 40 else 0)
    case Check(n, _, retry) => (if retry then 12 else 18) + (if n > 0 then 40 else 0)
    case Lower(n, _) => 16 + (if n > 0 then 40 else 0)
    case Yield => 45
    case YieldLower => 10
  }

  lemma FinishingShrinks(s: State, e: Event)
    requires Inv(s) && Batching(s) && Legal(s, e) && Finishing(e)
    ensures Left(Step(s, e)) < Left(s) && Batching(Step(s, e))
  {
    if e.LoadFlag? {
      assert |s.enqueued - {e.p}| == |s.enqueued| - 1;
    } else if e.Write? {
      assert |s.writing - {e.p}| == |s.writing| - 1;
    }
  }

  /** While anything is unfinished some finishing step is possible; when none is, everything sent has been handled. */
  lemma StuckOnlyWhenHandled(s: State)
    requires Inv(s)
    requires forall e :: Finishing(e) ==> !Legal(s, e)
    ensures s.handled == s.sent && s.place == Idle && s.enqueued == {} && s.writing == {}
  {
    assert !Legal(s, Consume) && !Legal(s, Report) && !Legal(s, ReadFd);
    assert Finishing(Raise(1)) && !Legal(s, Raise(1));
    if p :| p in s.enqueued { assert Finishing(LoadFlag(p)); }
    if p :| p in s.writing { assert Finishing(Write(p)); }
    assert s.handled + [] == s.handled;
  }

  /** So once producers stop, every schedule of the remaining steps is finite, whatever the interleaving; if it is run
      until no step is left, all messages have been handled in the order sent, without the idle poller's help. */
  lemma {:induction false} EverythingGetsHandled(s: State, run: seq<Event>)
    requires Inv(s) && Batching(s) && LegalRun(s, run)
    requires forall i :: 0 <= i < |run| ==> Finishing(run[i])
    ensures |run| <= Left(s)
    ensures (forall e :: Finishing(e) ==> !Legal(Exec(s, run), e)) ==> Exec(s, run).handled == s.sent
    decreases run
  {
    if run == [] {
      if forall e :: Finishing(e) ==> !Legal(s, e) { StuckOnlyWhenHandled(s); }
    } else {
      StepKeepsInv(s, run[0]);
      FinishingShrinks(s, run[0]);
      assert Step(s, run[0]).sent == s.sent;
      EverythingGetsHandled(Step(s, run[0]), run[1..]);
    }
  }

  /** With a batch limit of zero nothing is ever handled. */
  lemma {:induction false} ZeroLimitHandlesNothing(s: State, run: seq<Event>)
    requires LegalRun(s, run)
    requires s.place.Pull? ==> s.place.max <= s.place.count
    requires s.place.Lower? ==> s.place.max <= s.place.count
    requires s.place.Check? ==> s.place.max <= s.place.count
    requires forall i :: 0 <= i < |run| && run[i].Raise? ==> run[i].max == 0
    ensures Exec(s, run).handled == s.handled
    decreases run
  {
    if run != [] { ZeroLimitHandlesNothing(Step(s, run[0]), run[1..]); }
  }

  // ---------------------------------------------------------------------------------------------------------------
  // The code of the consumer, run against every interference

  /** Some run leads from one state to the other. */
  ghost predicate LeadsTo(s: State, s': State) {
    exists run :: LegalRun(s, run) && s' == Exec(s, run)
  }

  lemma ExecOne(s: State, e: Event)
    requires Legal(s, e)
    ensures LegalRun(s, [e]) && Exec(s, [e]) == Step(s, e)
  {
    var run := [e];
    assert run[1..] == [];
    assert LegalRun(Step(s, e), run[1..]) && Exec(Step(s, e), run[1..]) == Step(s, e);
  }

  lemma LeadsToStep(s: State, s': State, e: Event)
    requires LeadsTo(s, s') && Inv(s') && Legal(s', e)
    ensures LeadsTo(s, Step(s', e)) && Inv(Step(s', e))
  {
    var run :| LegalRun(s, run) && s' == Exec(s, run);
    ExecOne(s', e);
    ExecAppend(s, run, [e]);
    assert LegalRun(s, run + [e]);
    StepKeepsInv(s', e);
  }

  lemma {:induction false} ExecAppend(s: State, a: seq<Event>, b: seq<Event>)
    requires LegalRun(s, a) && LegalRun(Exec(s, a), b)
    ensures LegalRun(s, a + b) && Exec(s, a + b) == Exec(Exec(s, a), b)
    decreases a
  {
    if a == [] {
      assert a + b == b;
    } else {
      ExecAppend(Step(s, a[0]), a[1..], b);
      assert (a + b)[1..] == a[1..] + b;
    }
  }

  lemma LeadsToTrans(s: State, s': State, s'': State)
    requires LeadsTo(s, s') && LeadsTo(s', s'')
    ensures LeadsTo(s, s'')
  {
    var a :| LegalRun(s, a) && s' == Exec(s, a);
    var b :| LegalRun(s', b) && s'' == Exec(s', b);
    ExecAppend(s, a, b);
    assert LegalRun(s, a + b);
  }

  lemma LeadsToSelf(s: State)
    ensures LeadsTo(s, s)
  {
    assert LegalRun(s, []) && Exec(s, []) == s;
  }

  class EpollReactor {
    var msgQ: seq<Msg>
    var msgHandlerOn: bool
    var fd: nat
    var edge: bool
    var enqueued: set<Producer>
    var writing: set<Producer>
    var handled: seq<Msg>
    /** What the producers will do: one batch of their steps for every point where they can interfere. */
    var others: seq<seq<Event>>
    ghost var sent: seq<Msg>
    ghost var place: Place

    ghost function Now(): State
      reads this
    {
      State(msgQ, msgHandlerOn, fd, edge, enqueued, writing, place, handled, sent)
    }

    /** Producers run between two accesses of the consumer: the next batch, skipping what is impossible by now. */
    method Interfere(ghost start: State)
      requires Inv(Now()) && LeadsTo(start, Now())
      modifies this
      ensures Inv(Now()) && LeadsTo(start, Now())
      ensures place == old(place) && msgHandlerOn == old(msgHandlerOn) && handled == old(handled)
    {
      if others == [] { return; }
      var batch := others[0];
      others := others[1..];
      for i := 0 to |batch|
        invariant Inv(Now()) && LeadsTo(start, Now())
        invariant place == old(place) && msgHandlerOn == old(msgHandlerOn) && handled == old(handled)
      {
        ProducerStep(batch[i], start);
      }
    }

    /** One access of put_msg. */
    method ProducerStep(e: Event, ghost start: State)
      requires Inv(Now()) && LeadsTo(start, Now())
      modifies this
      ensures Inv(Now()) && LeadsTo(start, Now())
      ensures place == old(place) && msgHandlerOn == old(msgHandlerOn) && handled == old(handled)
    {
      if (!e.Put? && !e.LoadFlag? && !e.Write?) || !Possible(e) { return; }
      LeadsToStep(start, Now(), e);
      match e
      case Put(p, msg) =>
        msgQ, sent, enqueued := msgQ + [msg], sent + [msg], enqueued + {p};
      case LoadFlag(p) =>
        if !msgHandlerOn { writing := writing + {p}; }
        enqueued := enqueued - {p};
      case Write(p) =>
        fd, edge, writing := fd + 1, true, writing - {p};
    }

    predicate Possible(e: Event)
      reads this
      ensures (e.Put? || e.LoadFlag? || e.Write?) ==> Possible(e) == Legal(Now(), e)
    {
      match e
      case Put(p, _) => p !in enqueued && p !in writing
      case LoadFlag(p) => p in enqueued
      case Write(p) => p in writing
      case _ => false
    }

    /** process_messages, with the producers free to act before every access to the queue, the flag or the descriptor.
        It always returns, its execution is a run of the protocol above, and it leaves no wake-up lost. */
    method ProcessMessages(maxMsgBatchSize: nat)
      requires Inv(Now()) && place == Start
      modifies this
      ensures LeadsTo(old(Now()), Now()) && Inv(Now()) && place == Idle
      ensures |handled| <= |old(handled)| + maxMsgBatchSize
    {
      ghost var start := Now();
      LeadsToSelf(start);
      var msgCount, inRetry := 0, false;
      Interfere(start);
      LeadsToStep(start, Now(), Raise(maxMsgBatchSize));
      msgHandlerOn := true;
      place := Pull(0, maxMsgBatchSize, false);
      while true
        invariant Inv(Now()) && LeadsTo(start, Now()) && msgCount <= maxMsgBatchSize
        invariant place == Pull(msgCount, maxMsgBatchSize, inRetry)
        invariant |handled| <= |old(handled)| + msgCount
        decreases !inRetry
      {
        msgCount := PullMessages(msgCount, maxMsgBatchSize, inRetry, start);
        Interfere(start);
        LeadsToStep(start, Now(), Consume);
        if msgCount == maxMsgBatchSize && msgQ != [] {
          place := Yield;
          RaiseAndLower(start);
          break;
        } else if inRetry {
          place := Idle;
          break;
        } else {
          place := Lower(msgCount, maxMsgBatchSize);
          LowerForRetry(msgCount, maxMsgBatchSize, start);
          inRetry := true;
        }
      }
    }

    /** epoll reported the descriptor: its counter is positive, so the read does not spin, and is reset before the
        messages are looked at. */
    method OnMsgFdNotification(maxMsgBatchSize: nat)
      requires Inv(Now()) && place == Reported
      modifies this
      ensures LeadsTo(old(Now()), Now()) && Inv(Now()) && place == Idle
    {
      ghost var start := Now();
      LeadsToSelf(start);
      Interfere(start);
      LeadsToStep(start, Now(), ReadFd);
      fd, place := 0, Start;
      ghost var mid := Now();
      ProcessMessages(maxMsgBatchSize);
      LeadsToTrans(start, mid, Now());
    }

    /** Batch limit reached with messages left: re-raise the event, then take the flag down. */
    method RaiseAndLower(ghost start: State)
      requires Inv(Now()) && LeadsTo(start, Now()) && place == Yield
      modifies this
      ensures Inv(Now()) && LeadsTo(start, Now()) && place == Idle && handled == old(handled)
    {
      Interfere(start);
      LeadsToStep(start, Now(), Consume);
      fd, edge, place := fd + 1, true, YieldLower;
      Interfere(start);
      LeadsToStep(start, Now(), Consume);
      msgHandlerOn, place := false, Idle;
    }

    method LowerForRetry(ghost msgCount: nat, ghost max: nat, ghost start: State)
      requires Inv(Now()) && LeadsTo(start, Now()) && place == Lower(msgCount, max)
      modifies this
      ensures Inv(Now()) && LeadsTo(start, Now()) && place == Pull(msgCount, max, true) && handled == old(handled)
    {
      Interfere(start);
      LeadsToStep(start, Now(), Consume);
      msgHandlerOn, place := false, Pull(msgCount, max, true);
    }

    /** The inner loop. */
    method PullMessages(from: nat, max: nat, ghost retry: bool, ghost start: State) returns (msgCount: nat)
      requires Inv(Now()) && LeadsTo(start, Now()) && from <= max && place == Pull(from, max, retry)
      modifies this
      ensures Inv(Now()) && LeadsTo(start, Now()) && place == Check(msgCount, max, retry)
      ensures from <= msgCount <= max && |handled| - |old(handled)| == msgCount - from
    {
      msgCount := from;
      while msgCount < max
        invariant Inv(Now()) && LeadsTo(start, Now()) && from <= msgCount <= max && place == Pull(msgCount, max, retry)
        invariant |handled| - |old(handled)| == msgCount - from
      {
        Interfere(start);
        LeadsToStep(start, Now(), Consume);
        if msgQ == [] {
          place := Check(msgCount, max, retry);
          return;
        }
        handled, msgQ := handled + [msgQ[0]], msgQ[1..];
        msgCount := msgCount + 1;
        place := Pull(msgCount, max, retry);
      }
      LeadsToStep(start, Now(), Consume);
      place := Check(msgCount, max, retry);
    }
  }
}
