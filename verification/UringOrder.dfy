/** What a caller of the io_uring channel can count on from run to run
    (src/lib/interfaces/uring_drive_interface.cpp): how often a failing request is tried, which result its promise
    gets, and in which order waiting requests are served. */
module UringOrder {
  import opened DriveIocb
  import opened UringChannel

  // ---------------------------------------------------------------------------------------------------------------
  // The retry budget

  /** What a run did to one request: failures other than EAGAIN, and the latest result. */
  datatype Record = Record(failures: nat, last: int)

  function Noted(s: Record, e: Event, id: Id): Record {
    if e.Completion? && e.id == id then
      Record(s.failures + if e.result < 0 && e.result != EAGAIN then 1 else 0, e.result)
    else s
  }

  function Seen(s: Record, run: seq<Event>, id: Id): Record
    decreases run
  {
    if run == [] then s else Seen(Noted(s, run[0], id), run[1..], id)
  }

  /** drive.max_resubmit_cnt, which can be changed at any time, stayed within bounds. */
  predicate Limited(run: seq<Event>, low: nat, top: nat) {
    forall e :: e in run && e.Completion? ==> low <= e.maxResubmit <= top
  }

  /** The record agrees with the channel: a live request has its failures on its counter and has not used up the upper
      limit plus one of them, a finished one carries its latest result and is an error only after the lower limit plus
      two of them. */
  ghost predicate WithinBudget(c: Channel, id: Id, s: Record, low: nat, top: nat) {
    && (id !in c.past.accepted ==> s.failures == 0)
    && (id in c.blocks ==> c.blocks[id].resubmitCnt == s.failures <= top + 1)
    && (id in c.results ==>
          && c.results[id] == s.last
          && if s.last < 0 then low + 2 <= s.failures <= top + 2 else s.failures <= top + 1)
  }

  /** A completion leaves every other request alone. */
  lemma DispatchTouchesOne(c: Channel, id: Id, result: int, maxResubmit: nat, other: Id)
    requires CanComplete(c, id, result) && other != id
    ensures var d := Dispatch(c, id, result, maxResubmit);
            && d.past.accepted == c.past.accepted
            && (other in d.blocks <==> other in c.blocks) && (other in d.blocks ==> d.blocks[other] == c.blocks[other])
            && (other in d.results <==> other in c.results)
            && (other in d.results ==> d.results[other] == c.results[other])
  {
  }

  lemma OnErrorWithinBudget(k: Channel, id: Id, s: Record, e: Event, low: nat, top: nat)
    requires id in k.blocks && id in k.past.accepted && id !in k.results && WithinBudget(k, id, s, low, top)
    requires e.Completion? && e.id == id && e.result < 0 && low <= e.maxResubmit <= top
    ensures WithinBudget(OnError(k, id, e.result, e.maxResubmit), id, Noted(s, e, id), low, top)
  {
  }

  lemma DispatchWithinBudget(c: Channel, id: Id, s: Record, e: Event, low: nat, top: nat)
    requires e.Completion? && CanComplete(c, e.id, e.result) && low <= e.maxResubmit <= top
    requires WithinBudget(c, id, s, low, top) && e.id in c.past.accepted && e.id !in c.results
    ensures WithinBudget(Dispatch(c, e.id, e.result, e.maxResubmit), id, Noted(s, e, id), low, top)
  {
    if id != e.id {
      DispatchTouchesOne(c, e.id, e.result, e.maxResubmit, id);
    } else if e.result < 0 {
      OnErrorWithinBudget(c.(kernel := c.kernel - multiset{id}), id, s, e, low, top);
    }
  }

  lemma NotYetDone(c: Channel, id: Id)
    requires Conserved(c) && id !in c.past.accepted
    ensures id !in c.results
  {
    assert id !in multiset(c.past.accepted);
    assert id !in multiset(c.done);
  }

  lemma CallWithinBudget(c: Channel, id: Id, s: Record, call: Call, low: nat, top: nat)
    requires Conserved(c) && LegalCall(c, call) && WithinBudget(c, id, s, low, top)
    ensures WithinBudget(Called(c, call), id, s, low, top)
  {
    if call.New? {
      NotYetDone(c, call.id);
      AcceptFrame(Register(c, call.id, call.block), call.id, call.partOfBatch);
    }
  }

  lemma {:induction false} NestedWithinBudget(c: Channel, id: Id, s: Record, calls: seq<Call>, low: nat, top: nat)
    requires Conserved(c) && Ledger(c) && Data(c) && LegalCalls(c, calls) && WithinBudget(c, id, s, low, top)
    ensures WithinBudget(Nested(c, calls), id, s, low, top)
    decreases calls
  {
    if calls != [] {
      CallKeeps(c, calls[0]);
      CallWithinBudget(c, id, s, calls[0], low, top);
      NestedWithinBudget(Called(c, calls[0]), id, s, calls[1..], low, top);
    }
  }

  lemma StepWithinBudget(c: Channel, id: Id, s: Record, e: Event, low: nat, top: nat)
    requires Inv(c) && Legal(c, e) && Limited([e], low, top) && WithinBudget(c, id, s, low, top)
    ensures WithinBudget(Step(c, e), id, Noted(s, e, id), low, top)
  {
    match e {
      case Submit(i, b, partOfBatch) => CallWithinBudget(c, id, s, New(i, b, partOfBatch), low, top);
      case SubmitBatch =>
      case Completion(i, result, maxResubmit, calls) =>
        assert e in [e];
        CompletionWithinBudget(c, id, s, e, low, top);
    }
  }

  lemma CompletionWithinBudget(c: Channel, id: Id, s: Record, e: Event, low: nat, top: nat)
    requires Inv(c) && e.Completion? && Legal(c, e) && low <= e.maxResubmit <= top && WithinBudget(c, id, s, low, top)
    ensures WithinBudget(Step(c, e), id, Noted(s, e, id), low, top)
  {
    var d := Dispatch(c, e.id, e.result, e.maxResubmit);
    assert e.id in c.past.accepted && e.id !in c.results;
    DispatchWithinBudget(c, id, s, e, low, top);
    DispatchKeepsLedger(c, e.id, e.result, e.maxResubmit);
    DispatchConserves(c, e.id, e.result, e.maxResubmit);
    DispatchKeepsData(c, e.id, e.result, e.maxResubmit);
    NestedWithinBudget(d, id, Noted(s, e, id), e.calls, low, top);
    DrainFrame(Nested(d, e.calls));
  }

  lemma {:induction false} RunWithinBudget(c: Channel, id: Id, s: Record, run: seq<Event>, low: nat, top: nat)
    requires Inv(c) && LegalRun(c, run) && Limited(run, low, top) && WithinBudget(c, id, s, low, top)
    ensures WithinBudget(Exec(c, run), id, Seen(s, run, id), low, top)
    decreases run
  {
    if run != [] {
      assert run[0] in run && forall e :: e in run[1..] ==> e in run;
      StepWithinBudget(c, id, s, run[0], low, top);
      StepKeepsInv(c, run[0]);
      RunWithinBudget(Step(c, run[0]), id, Noted(s, run[0], id), run[1..], low, top);
    }
  }

  /** While the limit stays between `low` and `top`, a request is reported as failed only after at least low + 2
      failures, and at the latest with failure top + 2, whatever EAGAIN answers and short reads come in between; under a
      fixed limit exactly then.  What is reported is the last thing the kernel said. */
  lemma RetryBudget(oracle: seq<nat>, run: seq<Event>, id: Id, low: nat, top: nat)
    requires LegalRun(Empty(oracle), run) && Limited(run, low, top)
    ensures var c, s := Exec(Empty(oracle), run), Seen(Record(0, 0), run, id);
            && s.failures <= top + 2
            && (id in c.results ==> c.results[id] == s.last)
            && (id in c.results && c.results[id] < 0 ==> low + 2 <= s.failures)
            && (s.failures == top + 2 ==> id in c.results && c.results[id] < 0)
  {
    var c := Exec(Empty(oracle), run);
    RunWithinBudget(Empty(oracle), id, Record(0, 0), run, low, top);
    RunsKeepInv(Empty(oracle), run);
    if id in c.past.accepted && id !in c.blocks {
      assert id in c.done;
    }
  }

  // ---------------------------------------------------------------------------------------------------------------
  // The order of the wait queue

  /** The request a call puts at the end of the wait queue. */
  function CallQueues(c: Channel, call: Call): seq<Id> {
    if call.Flush? || (CanSubmit(c) && !RingFull(c)) then [] else [call.id]
  }

  function CallsQueue(c: Channel, calls: seq<Call>): seq<Id>
    decreases calls
  {
    if calls == [] then [] else CallQueues(c, calls[0]) + CallsQueue(Called(c, calls[0]), calls[1..])
  }

  /** The requests an event puts there: the completed one if it is sent back, and those of its continuation. */
  function Queued(c: Channel, e: Event): seq<Id>
    requires Legal(c, e)
  {
    match e
    case Submit(id, b, partOfBatch) => CallQueues(c, New(id, b, partOfBatch))
    case SubmitBatch => []
    case Completion(id, result, limit, calls) =>
      (if Fulfils(c, id, result, limit) then [] else [id]) + CallsQueue(Dispatch(c, id, result, limit), calls)
  }

  function Arrivals(c: Channel, run: seq<Event>): seq<Id>
    requires LegalRun(c, run)
    decreases run
  {
    if run == [] then [] else Queued(c, run[0]) + Arrivals(Step(c, run[0]), run[1..])
  }

  lemma {:induction false} DrainTakesFront(c: Channel) returns (k: nat)
    ensures k <= |c.waitq| && Drain(c).waitq == c.waitq[k..]
    ensures k == 0 <==> c.waitq == [] || !CanSubmit(c) || RingFull(c)
    decreases |c.waitq|
  {
    k := 0;
    if c.waitq != [] && CanSubmit(c) && !RingFull(c) {
      k := DrainTakesFront(DrainOne(c));
      assert DrainOne(c).waitq == c.waitq[1..];
      assert c.waitq[1..][k..] == c.waitq[1 + k..];
      k := 1 + k;
    }
  }

  lemma CallAppends(c: Channel, call: Call)
    ensures Called(c, call).waitq == c.waitq + CallQueues(c, call)
  {
  }

  lemma {:induction false} NestedAppends(c: Channel, calls: seq<Call>)
    ensures Nested(c, calls).waitq == c.waitq + CallsQueue(c, calls)
    decreases calls
  {
    if calls != [] {
      CallAppends(c, calls[0]);
      NestedAppends(Called(c, calls[0]), calls[1..]);
      var a, b := CallQueues(c, calls[0]), CallsQueue(Called(c, calls[0]), calls[1..]);
      assert (c.waitq + a) + b == c.waitq + (a + b);
    }
  }

  lemma DispatchQueues(c: Channel, id: Id, result: int, limit: nat)
    requires CanComplete(c, id, result)
    ensures Dispatch(c, id, result, limit).waitq == c.waitq + if Fulfils(c, id, result, limit) then [] else [id]
  {
  }

  /** What a completion finds when it comes to the drain. */
  function BeforeDrain(c: Channel, e: Event): Channel
    requires e.Completion? && Legal(c, e)
  {
    Nested(Dispatch(c, e.id, e.result, e.maxResubmit), e.calls)
  }

  lemma NestedJoins(d: Channel, calls: seq<Call>, q: seq<Id>, own: seq<Id>)
    requires d.waitq == q + own
    ensures Nested(d, calls).waitq == q + (own + CallsQueue(d, calls))
  {
    NestedAppends(d, calls);
    assert (q + own) + CallsQueue(d, calls) == q + (own + CallsQueue(d, calls));
  }

  lemma BeforeDrainQueues(c: Channel, e: Event)
    requires e.Completion? && Legal(c, e)
    ensures BeforeDrain(c, e).waitq == c.waitq + Queued(c, e)
  {
    DispatchQueues(c, e.id, e.result, e.maxResubmit);
    NestedJoins(Dispatch(c, e.id, e.result, e.maxResubmit), e.calls, c.waitq,
                if Fulfils(c, e.id, e.result, e.maxResubmit) then [] else [e.id]);
  }

  lemma StepServesInOrder(c: Channel, e: Event) returns (k: nat)
    requires Legal(c, e)
    ensures k <= |c.waitq + Queued(c, e)| && Step(c, e).waitq == (c.waitq + Queued(c, e))[k..]
  {
    k := 0;
    match e
    case Submit(id, b, partOfBatch) => CallAppends(c, New(id, b, partOfBatch));
    case SubmitBatch => CallAppends(c, Flush);
    case Completion(_, _, _, _) =>
      BeforeDrainQueues(c, e);
      k := DrainTakesFront(BeforeDrain(c, e));
  }

  lemma DropTwice(q: seq<Id>, a: seq<Id>, b: seq<Id>, k: nat, j: nat)
    requires k <= |q + a| && j <= |(q + a)[k..] + b|
    ensures k + j <= |q + (a + b)| && ((q + a)[k..] + b)[j..] == (q + (a + b))[k + j..]
  {
    assert (q + a)[k..] + b == (q + (a + b))[k..];
  }

  /** Over any run requests leave the wait queue in the order in which they joined it: what waits at the end is what
      waited at the start followed by everything queued since, less some number of requests taken from the front. */
  lemma {:induction false} WaitersServedInOrder(c: Channel, run: seq<Event>) returns (k: nat)
    requires LegalRun(c, run)
    ensures k <= |c.waitq + Arrivals(c, run)| && Exec(c, run).waitq == (c.waitq + Arrivals(c, run))[k..]
    decreases run
  {
    if run == [] {
      k := 0;
      assert c.waitq + [] == c.waitq;
    } else {
      var i := StepServesInOrder(c, run[0]);
      var c', rest := Step(c, run[0]), run[1..];
      var j := WaitersServedInOrder(c', rest);
      DropTwice(c.waitq, Queued(c, run[0]), Arrivals(c', rest), i, j);
      k := i + j;
    }
  }

  // ---------------------------------------------------------------------------------------------------------------
  // Overtaking

  /** Waiters keep their order among themselves but not against newcomers: a new request goes past them exactly when the
      admission test and the ring let it, whoever waits. */
  lemma OvertakesIff(c: Channel, id: Id, b: Block, partOfBatch: bool)
    requires Conserved(c) && c.waitq != [] && Acceptable(c, id, b)
    ensures id !in Called(c, New(id, b, partOfBatch)).waitq <==> Load(c) <= QDEPTH && |c.sq| != QDEPTH
  {
    CallAppends(c, New(id, b, partOfBatch));
    assert id !in multiset(c.past.accepted);
    assert id !in multiset(c.waitq);
  }

  /** Between two events that takes a channel exactly at its depth. */
  lemma SubmitOvertakesIff(c: Channel, id: Id, b: Block, partOfBatch: bool)
    requires Reachable(c) && c.waitq != [] && Acceptable(c, id, b)
    ensures id !in Step(c, Submit(id, b, partOfBatch)).waitq <==> Load(c) == QDEPTH && |c.sq| < QDEPTH
  {
    ReachableInv(c);
    OvertakesIff(c, id, b, partOfBatch);
  }

  /** From the continuation of a completion, which runs before the drain, it always happens unless the ring is full. */
  lemma ContinuationOvertakesIff(c: Channel, id: Id, result: int, limit: nat, later: Id, b: Block, partOfBatch: bool)
    requires Reachable(c) && c.waitq != [] && CanComplete(c, id, result) && Fulfils(c, id, result, limit)
    requires Acceptable(c, later, b)
    ensures var d := Dispatch(c, id, result, limit);
            && Acceptable(d, later, b)
            && (later !in Called(d, New(later, b, partOfBatch)).waitq <==> |c.sq| < QDEPTH)
  {
    ReachableInv(c);
    DispatchKeepsLedger(c, id, result, limit);
    DispatchConserves(c, id, result, limit);
    DispatchQueues(c, id, result, limit);
    DispatchLoad(c, id, result, limit);
    OvertakesIff(Dispatch(c, id, result, limit), later, b, partOfBatch);
  }

  /** A request that finds the ring full waits behind a ring the submit has made room in. */
  lemma FindsRingFull(c: Channel, id: Id, b: Block)
    requires c.waitq == [] && RingFull(c) && c.prepared == QDEPTH && c.inFlight == 0
    ensures var c' := Accept(Register(c, id, b), id, false);
            c'.waitq == [id] && c'.inFlight + c'.prepared == QDEPTH && |c'.sq| < QDEPTH
  {
  }

  /** It happens: fill the ring with a batch, let one more request find it full, and the next one is served first. */
  lemma OvertakingReachable(oracle: seq<nat>, b: Block) returns (c: Channel)
    requires WellSized(b.req) && b.resubmitCnt == 0
    ensures Reachable(c) && c.waitq == [QDEPTH] && Legal(c, Submit(QDEPTH + 1, b, false))
    ensures Step(c, Submit(QDEPTH + 1, b, false)).waitq == [QDEPTH]
  {
    var full := Fill(oracle, 0, QDEPTH, b);
    CountersBounded(full);
    var e := Submit(QDEPTH, b, false);
    ReachableStep(full, e);
    c := Step(full, e);
    FindsRingFull(full, QDEPTH, b);
    AcceptFrame(Register(full, QDEPTH, b), QDEPTH, false);
  }

  // ---------------------------------------------------------------------------------------------------------------
  // The load after a completion

  /** The requests of a continuation that are admitted at once. */
  function Admitted(c: Channel, calls: seq<Call>): nat
    decreases calls
  {
    if calls == [] then 0
    else
      (if calls[0].New? && CallQueues(c, calls[0]) == [] then 1 else 0) + Admitted(Called(c, calls[0]), calls[1..])
  }

  lemma CallLoad(c: Channel, call: Call)
    ensures Load(Called(c, call)) == Load(c) + if call.New? && CallQueues(c, call) == [] then 1 else 0
  {
  }

  lemma {:induction false} NestedLoad(c: Channel, calls: seq<Call>)
    ensures Load(Nested(c, calls)) == Load(c) + Admitted(c, calls)
    decreases calls
  {
    if calls != [] {
      CallLoad(c, calls[0]);
      NestedLoad(Called(c, calls[0]), calls[1..]);
    }
  }

  lemma DispatchLoad(c: Channel, id: Id, result: int, limit: nat)
    requires CanComplete(c, id, result)
    ensures var d := Dispatch(c, id, result, limit);
            && Load(d) == Load(c) - (if result < 0 && !Fulfils(c, id, result, limit) then 0 else 1)
            && d.sq == c.sq && d.past.accepted == c.past.accepted
  {
  }

  /** The load a completion leaves to the drain: one less unless the request was sent back through the error branch, and
      one more for every request of the continuation that was admitted. */
  function LoadLeft(c: Channel, e: Event): int
    requires e.Completion? && Legal(c, e)
  {
    Load(c) - (if e.result < 0 && !Fulfils(c, e.id, e.result, e.maxResubmit) then 0 else 1)
    + Admitted(Dispatch(c, e.id, e.result, e.maxResubmit), e.calls)
  }

  lemma BeforeDrainLoad(c: Channel, e: Event)
    requires Inv(c) && e.Completion? && Legal(c, e)
    ensures var a := BeforeDrain(c, e); Load(a) == LoadLeft(c, e) && Conserved(a) && Ledger(a)
  {
    var d := Dispatch(c, e.id, e.result, e.maxResubmit);
    DispatchLoad(c, e.id, e.result, e.maxResubmit);
    DispatchKeepsLedger(c, e.id, e.result, e.maxResubmit);
    DispatchConserves(c, e.id, e.result, e.maxResubmit);
    DispatchKeepsData(c, e.id, e.result, e.maxResubmit);
    NestedLoad(d, e.calls);
    NestedKeeps(d, e.calls);
  }

  /** After a completion the channel is above its depth exactly when it was before the drain, or the ring has room and
      at least as many wait as it takes to get there. */
  lemma CompletionAboveDepthIff(c: Channel, e: Event)
    requires Reachable(c) && e.Completion? && Legal(c, e)
    ensures var waiting := |c.waitq| + |Queued(c, e)|;
            Load(Step(c, e)) > QDEPTH
            <==> LoadLeft(c, e) > QDEPTH || (|BeforeDrain(c, e).sq| < QDEPTH && LoadLeft(c, e) + waiting > QDEPTH)
  {
    ReachableInv(c);
    BeforeDrainQueues(c, e);
    BeforeDrainLoad(c, e);
    DrainLoad(BeforeDrain(c, e));
  }

  // ---------------------------------------------------------------------------------------------------------------
  // Starvation

  /** A completion serves none of those waiting exactly when its continuation has taken the load above the depth, or
      left it there, or the ring is full. */
  lemma ServesNobodyIff(c: Channel, e: Event)
    requires Reachable(c) && c.waitq != [] && e.Completion? && Legal(c, e)
    ensures Step(c, e).waitq == c.waitq + Queued(c, e)
            <==> LoadLeft(c, e) > QDEPTH || |BeforeDrain(c, e).sq| == QDEPTH
  {
    ReachableInv(c);
    BeforeDrainQueues(c, e);
    BeforeDrainLoad(c, e);
    var a := BeforeDrain(c, e);
    var k := DrainTakesFront(a);
    if k > 0 { assert |a.waitq[k..]| < |a.waitq|; } else { assert a.waitq[0..] == a.waitq; }
  }

  /** The kernel holds 257 requests like `b`, request `waiter` waits, and requests from `next` on are new. */
  ghost predicate Crowded(c: Channel, b: Block, waiter: Id, next: Id) {
    && Reachable(c) && c.waitq == [waiter] && c.sq == [] && |c.kernel| == QDEPTH + 1 && c.past.retries == 0
    && (forall i :: i in c.past.accepted ==> i < next)
    && (forall i :: i in c.blocks ==> c.blocks[i] == b)
  }

  lemma CrowdedReachable(oracle: seq<nat>, b: Block) returns (c: Channel)
    requires WellSized(b.req) && b.resubmitCnt == 0
    ensures Crowded(c, b, QDEPTH + 1, QDEPTH + 2)
  {
    var full := Fill(oracle, QDEPTH + 1, 0, b);
    CountersBounded(full);
    var e := Submit(QDEPTH + 1, b, false);
    ReachableStep(full, e);
    c := Step(full, e);
    AcceptFrame(Register(full, QDEPTH + 1, b), QDEPTH + 1, false);
  }

  function Replacing(id: Id, b: Block, next: Id): Event {
    Completion(id, b.req.size, 0, [New(next, b, false)])
  }

  /** Completing one of 257 held requests with a continuation that submits another. */
  lemma Replaced(c: Channel, id: Id, b: Block, next: Id)
    requires c.waitq != [] && c.sq == [] && c.prepared == 0 && c.inFlight == QDEPTH + 1
    requires CanComplete(c, id, b.req.size) && c.blocks[id] == b && Acceptable(c, next, b)
    ensures Legal(c, Replacing(id, b, next))
    ensures var c' := Step(c, Replacing(id, b, next));
            && c'.waitq == c.waitq && c'.sq == [] && c'.kernel == c.kernel - multiset{id} + multiset{next}
            && c'.blocks == (c.blocks - {id})[next := b] && c'.done == c.done + [id]
            && c'.past.accepted == c.past.accepted + {next} && c'.past.retries == c.past.retries
  {
    var d := Dispatch(c, id, b.req.size, 0);
    assert d.inFlight == QDEPTH && d.sq == [] && d.prepared == 0 && d.past.accepted == c.past.accepted;
    var calls := [New(next, b, false)];
    assert calls[1..] == [];
    SubmitAlone(Register(d, next, b), next);
    var a := Called(d, calls[0]);
    assert Nested(d, calls) == Nested(a, []) == a;
    assert Drain(a) == a;
  }

  /** The continuation of whichever request completes next takes its place. */
  lemma PlaceTaken(c: Channel, b: Block, waiter: Id, next: Id) returns (e: Event)
    requires Crowded(c, b, waiter, next) && WellSized(b.req) && b.resubmitCnt == 0
    ensures e.Completion? && Legal(c, e) && Crowded(Step(c, e), b, waiter, next + 1)
    ensures |Step(c, e).done| == |c.done| + 1
  {
    CountersBounded(c);
    var id :| id in c.kernel;
    HeldIsLive(c, id);
    e := Replacing(id, b, next);
    Replaced(c, id, b, next);
    ReachableStep(c, e);
    assert |c.kernel - multiset{id}| == QDEPTH;
  }

  lemma HeldIsLive(c: Channel, id: Id)
    requires Reachable(c) && id in c.kernel
    ensures id in c.blocks && id in c.past.moved && WellSized(c.blocks[id].req)
  {
    ReachableInv(c);
    EachRequestInOnePlace(c, id);
    assert Accounted(c, id);
  }

  /** So a waiter can be kept waiting through any number of completions. */
  lemma WaiterStarves(c: Channel, b: Block, waiter: Id, next: Id, n: nat) returns (run: seq<Event>)
    requires Crowded(c, b, waiter, next) && WellSized(b.req) && b.resubmitCnt == 0
    ensures LegalRun(c, run) && |run| == n && forall e :: e in run ==> e.Completion?
    ensures Exec(c, run).waitq == [waiter] && |Exec(c, run).done| == |c.done| + n
    decreases n
  {
    if n == 0 {
      run := [];
    } else {
      var e := PlaceTaken(c, b, waiter, next);
      var rest := WaiterStarves(Step(c, e), b, waiter, next + 1, n - 1);
      run := [e] + rest;
      assert run[1..] == rest;
    }
  }
}
