/** The life of a request in SPDK mode (src/lib/interfaces/spdk_drive_interface.cpp): submit_io, complete_io and
    resubmit_io_on_err call each other until the device takes the request, memory runs short, or the retries run out.
    What each spdk_bdev_* call returns and how the device finishes are the environment's choice. */
module SpdkRequests {
  import opened Counting

  type Id = nat

  const ENOMEM: int := -12

  datatype Place =
    | Fresh                   // not submitted yet
    | InDevice                // accepted by spdk_bdev_*, completion outstanding
    | AwaitingMemory          // queued with spdk_bdev_queue_io_wait
    | Finished(ok: bool)      // promise set, iocb deallocated

  datatype Iocb = Iocb(
    place: Place,
    ownsBySpdk: bool,
    resubmitCnt: nat,
    attempts: nat,            // submissions the device did not answer with ENOMEM
    promises: nat,            // times the promise was set
    doubleSubmits: nat)       // times the "duplicate submission" assertion failed

  const NewIocb := Iocb(Fresh, false, 0, 0, 0, 0)

  /** One request together with the thread's outstanding_ops counter. */
  datatype Work = Work(iocb: Iocb, outstanding: int)

  /** The next return code; a device that is not asked again has accepted. */
  function Code(rcs: seq<int>): int {
    if rcs == [] then 0 else rcs[0]
  }

  function More(rcs: seq<int>): seq<int> {
    if rcs == [] then [] else rcs[1..]
  }

  function RetriesLeft(w: Work, max: nat): nat {
    if w.iocb.resubmitCnt <= max then max + 1 - w.iocb.resubmitCnt else 0
  }

  function Submitted(w: Work, rcs: seq<int>, max: nat): Work
    decreases RetriesLeft(w, max), 1
  {
    var b := w.iocb.(ownsBySpdk := true, doubleSubmits := w.iocb.doubleSubmits + One(w.iocb.ownsBySpdk));
    if Code(rcs) == ENOMEM then Work(b.(place := AwaitingMemory, ownsBySpdk := false), w.outstanding)
    else
      var w' := Work(b.(attempts := b.attempts + 1, place := InDevice), w.outstanding + 1);
      if Code(rcs) == 0 then w' else Completed(w', false, More(rcs), max)
  }

  function Completed(w: Work, success: bool, rcs: seq<int>, max: nat): Work
    decreases RetriesLeft(w, max), 0
  {
    var w' := Work(w.iocb.(ownsBySpdk := false), w.outstanding - 1);
    if success || w.iocb.resubmitCnt > max then
      w'.(iocb := w'.iocb.(place := Finished(success), promises := w.iocb.promises + 1))
    else Submitted(w'.(iocb := w'.iocb.(resubmitCnt := w.iocb.resubmitCnt + 1)), rcs, max)
  }

  /** The bookkeeping of one request, while drive.max_resubmit_cnt stays between `low` and `top`. */
  predicate Ok(b: Iocb, low: nat, top: nat) {
    && b.ownsBySpdk == (b.place == InDevice)
    && b.resubmitCnt <= top + 1
    && b.promises == One(b.place.Finished?)
    && b.doubleSubmits == 0
    && match b.place
       case Fresh => b.attempts == b.resubmitCnt == 0
       case AwaitingMemory => b.attempts == b.resubmitCnt
       case InDevice => b.attempts == b.resubmitCnt + 1
       case Finished(ok) => b.attempts == b.resubmitCnt + 1 && (!ok ==> low + 2 <= b.attempts)
  }

  /** A request about to be submitted. */
  predicate Ready(b: Iocb, top: nat) {
    !b.ownsBySpdk && b.resubmitCnt <= top + 1 && b.attempts == b.resubmitCnt && b.promises == 0 && b.doubleSubmits == 0
  }

  lemma {:induction false} SubmitKeeps(w: Work, rcs: seq<int>, max: nat, low: nat, top: nat)
    requires Ready(w.iocb, top) && low <= max <= top
    ensures var w' := Submitted(w, rcs, max);
            Ok(w'.iocb, low, top) && w'.outstanding == w.outstanding + One(w'.iocb.ownsBySpdk) && w'.iocb.place != Fresh
    ensures Submitted(w, rcs, max).iocb.place != Finished(true)
    decreases RetriesLeft(w, max), 1
  {
    if Code(rcs) != ENOMEM && Code(rcs) != 0 {
      var b := w.iocb.(ownsBySpdk := true, attempts := w.iocb.attempts + 1, place := InDevice);
      CompleteKeeps(Work(b, w.outstanding + 1), false, More(rcs), max, low, top);
    }
  }

  lemma {:induction false} CompleteKeeps(w: Work, success: bool, rcs: seq<int>, max: nat, low: nat, top: nat)
    requires Ok(w.iocb, low, top) && w.iocb.place == InDevice && low <= max <= top
    ensures var w' := Completed(w, success, rcs, max);
            Ok(w'.iocb, low, top) && w'.outstanding == w.outstanding - 1 + One(w'.iocb.ownsBySpdk)
                    && w'.iocb.place != Fresh
    ensures Completed(w, success, rcs, max).iocb.place == Finished(true) <==> success
    decreases RetriesLeft(w, max), 0
  {
    if !success && w.iocb.resubmitCnt <= max {
      var b := w.iocb.(ownsBySpdk := false, resubmitCnt := w.iocb.resubmitCnt + 1);
      SubmitKeeps(Work(b, w.outstanding - 1), rcs, max, low, top);
    }
  }

  // ---------------------------------------------------------------------------------------------------------------
  // All requests of a thread

  datatype State = State(iocbs: map<Id, Iocb>, outstanding: int)

  /** `rcs` are the return codes of the submissions the event leads to, `max` the limit in force. */
  datatype Event =
    | Submit(id: Id, rcs: seq<int>, max: nat)
    | DeviceDone(id: Id, success: bool, rcs: seq<int>, max: nat)
    | MemoryBack(id: Id, rcs: seq<int>, max: nat)

  const Initial := State(map[], 0)

  predicate Legal(s: State, e: Event) {
    match e
    case Submit(id, _, _) => id !in s.iocbs
    case DeviceDone(id, _, _, _) => id in s.iocbs && s.iocbs[id].place == InDevice
    case MemoryBack(id, _, _) => id in s.iocbs && s.iocbs[id].place == AwaitingMemory
  }

  function WorkFor(s: State, e: Event): Work
    requires Legal(s, e)
  {
    match e
    case Submit(_, rcs, max) => Submitted(Work(NewIocb, s.outstanding), rcs, max)
    case DeviceDone(id, success, rcs, max) => Completed(Work(s.iocbs[id], s.outstanding), success, rcs, max)
    case MemoryBack(id, rcs, max) => Submitted(Work(s.iocbs[id], s.outstanding), rcs, max)
  }

  function Step(s: State, e: Event): State
    requires Legal(s, e)
  {
    var w := WorkFor(s, e);
    State(s.iocbs[e.id := w.iocb], w.outstanding)
  }

  predicate LegalRun(s: State, run: seq<Event>)
    decreases run
  {
    run == [] || (Legal(s, run[0]) && LegalRun(Step(s, run[0]), run[1..]))
  }

  function Exec(s: State, run: seq<Event>): State
    requires LegalRun(s, run)
    decreases run
  {
    if run == [] then s else Exec(Step(s, run[0]), run[1..])
  }

  /** The limit, which can be changed at any time, stays within bounds. */
  predicate Within(run: seq<Event>, low: nat, top: nat) {
    forall i :: 0 <= i < |run| ==> low <= run[i].max <= top
  }

  function Owned(s: State): set<Id> {
    set id | id in s.iocbs && s.iocbs[id].ownsBySpdk
  }

  ghost predicate Inv(s: State, low: nat, top: nat) {
    (forall id :: id in s.iocbs ==> Ok(s.iocbs[id], low, top)) && s.outstanding == |Owned(s)|
  }

  lemma OwnedUpdated(s: State, id: Id, b: Iocb, outstanding: int)
    ensures |Owned(State(s.iocbs[id := b], outstanding))|
            == |Owned(s)| - One(id in s.iocbs && s.iocbs[id].ownsBySpdk) + One(b.ownsBySpdk)
  {
    var others := Owned(s) - {id};
    assert Owned(State(s.iocbs[id := b], outstanding)) == if b.ownsBySpdk then others + {id} else others;
    assert Owned(s) == if id in s.iocbs && s.iocbs[id].ownsBySpdk then others + {id} else others;
  }

  lemma StepKeepsInv(s: State, e: Event, low: nat, top: nat)
    requires Inv(s, low, top) && Legal(s, e) && low <= e.max <= top
    ensures Inv(Step(s, e), low, top)
  {
    match e {
      case Submit(_, rcs, max) => SubmitKeeps(Work(NewIocb, s.outstanding), rcs, max, low, top);
      case DeviceDone(id, success, rcs, max) =>
        CompleteKeeps(Work(s.iocbs[id], s.outstanding), success, rcs, max, low, top);
      case MemoryBack(id, rcs, max) => SubmitKeeps(Work(s.iocbs[id], s.outstanding), rcs, max, low, top);
    }
    var w := WorkFor(s, e);
    OwnedUpdated(s, e.id, w.iocb, w.outstanding);
  }

  lemma {:induction false} RunsKeepInv(s: State, run: seq<Event>, low: nat, top: nat)
    requires Inv(s, low, top) && LegalRun(s, run) && Within(run, low, top)
    ensures Inv(Exec(s, run), low, top)
    decreases run
  {
    if run != [] {
      StepKeepsInv(s, run[0], low, top);
      RunsKeepInv(Step(s, run[0]), run[1..], low, top);
    }
  }

  ghost predicate Reachable(s: State, low: nat, top: nat) {
    exists run :: LegalRun(Initial, run) && Within(run, low, top) && s == Exec(Initial, run)
  }

  lemma ReachableInv(s: State, low: nat, top: nat)
    requires Reachable(s, low, top)
    ensures Inv(s, low, top)
  {
    var run :| LegalRun(Initial, run) && Within(run, low, top) && s == Exec(Initial, run);
    assert Owned(Initial) == {};
    RunsKeepInv(Initial, run, low, top);
  }

  /** For every sequence of submission codes, completions and changes of the limit between `low` and `top`: a request
      gets at most top + 2 attempts besides those refused for memory, its promise is set at most once, the
      duplicate-submission assertion never fails; an I/O error is reported only after at least low + 2 attempts, so with
      a fixed limit after exactly that many; and the thread's outstanding_ops counts the requests SPDK owns. */
  lemma Lifecycle(s: State, low: nat, top: nat, id: Id)
    requires Reachable(s, low, top) && id in s.iocbs
    ensures var b := s.iocbs[id];
            && b.attempts <= top + 2
            && b.promises == One(b.place.Finished?)
            && b.doubleSubmits == 0
            && (b.place == Finished(false) ==> low + 2 <= b.attempts)
    ensures s.outstanding == |Owned(s)| && (id in Owned(s) <==> s.iocbs[id].place == InDevice)
  {
    ReachableInv(s, low, top);
    assert Ok(s.iocbs[id], low, top);
  }

  /** A finished request stays as it is. */
  lemma {:induction false} FinishedForGood(s: State, run: seq<Event>, id: Id)
    requires LegalRun(s, run) && id in s.iocbs && s.iocbs[id].place.Finished?
    ensures id in Exec(s, run).iocbs && Exec(s, run).iocbs[id] == s.iocbs[id]
    decreases run
  {
    if run != [] { FinishedForGood(Step(s, run[0]), run[1..], id); }
  }

  /** The first `k` submissions fail outright. */
  predicate Outright(rcs: seq<int>, k: nat) {
    |rcs| >= k && forall i :: 0 <= i < k ==> rcs[i] != 0 && rcs[i] != ENOMEM
  }

  /** A request whose `k` first submissions fail outright while it has that many retries left. */
  function AfterFailures(b: Iocb, k: nat): Iocb {
    b.(resubmitCnt := b.resubmitCnt + k, attempts := b.attempts + k)
  }

  /** What a submission comes to, by the first code that is not an outright failure: refused for memory the request
      waits for it, neither attempted nor counted as outstanding; accepted it is with the device. */
  lemma {:induction false} SubmitOutcome(w: Work, rcs: seq<int>, max: nat, k: nat)
    requires !w.iocb.ownsBySpdk && Outright(rcs, k) && k <= RetriesLeft(w, max)
    ensures var b, w' := AfterFailures(w.iocb, k), Submitted(w, rcs, max);
            && (Code(rcs[k..]) == ENOMEM ==> w' == Work(b.(place := AwaitingMemory), w.outstanding))
            && (Code(rcs[k..]) == 0 ==>
                  w' == Work(b.(place := InDevice, ownsBySpdk := true, attempts := b.attempts + 1), w.outstanding + 1))
    decreases k
  {
    if k == 0 {
      assert rcs[0..] == rcs;
    } else {
      var w1 := Work(AfterFailures(w.iocb, 1).(place := InDevice), w.outstanding);
      assert rcs[1..][k - 1..] == rcs[k..];
      assert forall i :: 1 <= i < |rcs| ==> rcs[i] == rcs[1..][i - 1];
      SubmitOutcome(w1, rcs[1..], max, k - 1);
    }
  }

  /** A request is finished within the call that submits it exactly when this and every attempt left to it fails
      outright; it is then reported as an error. */
  lemma {:induction false} FinishesInsideIff(w: Work, rcs: seq<int>, max: nat)
    ensures var w' := Submitted(w, rcs, max);
            && (w'.iocb.place.Finished? <==> Outright(rcs, RetriesLeft(w, max) + 1))
            && (w'.iocb.place.Finished? ==> w'.iocb.place == Finished(false) && w'.outstanding == w.outstanding)
    decreases RetriesLeft(w, max)
  {
    var k := RetriesLeft(w, max) + 1;
    if Code(rcs) != 0 && Code(rcs) != ENOMEM {
      var b := w.iocb.(ownsBySpdk := true, doubleSubmits := w.iocb.doubleSubmits + One(w.iocb.ownsBySpdk),
                       attempts := w.iocb.attempts + 1, place := InDevice);
      if b.resubmitCnt <= max {
        FinishesInsideIff(Work(b.(ownsBySpdk := false, resubmitCnt := b.resubmitCnt
                + 1), w.outstanding), rcs[1..], max);
        assert Outright(rcs, k) <==> Outright(rcs[1..], k - 1) by {
          assert forall i :: 1 <= i < |rcs| ==> rcs[i] == rcs[1..][i - 1];
        }
      }
    } else {
      assert rcs == [] || !Outright(rcs, k) by { assert rcs != [] ==> rcs[0] == Code(rcs); }
    }
  }

  /** The request as it goes into the submission an event leads to. */
  function Resubmitted(s: State, e: Event): Iocb
    requires Legal(s, e)
  {
    match e
    case Submit(_, _, _) => NewIocb
    case MemoryBack(id, _, _) => s.iocbs[id]
    case DeviceDone(id, _, _, _) => s.iocbs[id].(ownsBySpdk := false, resubmitCnt := s.iocbs[id].resubmitCnt + 1)
  }

  predicate Submits(s: State, e: Event)
    requires Legal(s, e)
  {
    e.DeviceDone? ==> !e.success && s.iocbs[e.id].resubmitCnt <= e.max
  }

  /** What every event comes to.  A success, or a failure past the limit, finishes the request; anything else
      submits it, again if need be, and the first code that is not an outright failure decides whether the device
      has it or it waits for memory.  No other request is touched. */
  lemma EventOutcome(s: State, e: Event, k: nat, low: nat, top: nat)
    requires Reachable(s, low, top) && Legal(s, e) && Outright(e.rcs, k)
    requires Submits(s, e) ==> k <= RetriesLeft(Work(Resubmitted(s, e), 0), e.max)
    ensures var b := Step(s, e).iocbs[e.id];
            && (!Submits(s, e) ==> b.place == Finished(e.success) && b.attempts == s.iocbs[e.id].attempts)
            && (Submits(s, e) && Code(e.rcs[k..]) == 0 ==>
                  b.place == InDevice && b.attempts == Resubmitted(s, e).attempts + k + 1)
            && (Submits(s, e) && Code(e.rcs[k..]) == ENOMEM ==>
                  b.place == AwaitingMemory && b.attempts == Resubmitted(s, e).attempts + k)
    ensures forall id :: id in s.iocbs && id != e.id ==> Step(s, e).iocbs[id] == s.iocbs[id]
  {
    ReachableInv(s, low, top);
    if Submits(s, e) {
      var base := if e.DeviceDone? then s.outstanding - 1 else s.outstanding;
      assert !Resubmitted(s, e).ownsBySpdk by { if e.id in s.iocbs { assert Ok(s.iocbs[e.id], low, top); } }
      assert WorkFor(s, e) == Submitted(Work(Resubmitted(s, e), base), e.rcs, e.max);
      SubmitOutcome(Work(Resubmitted(s, e), base), e.rcs, e.max, k);
    }
  }

  // ---------------------------------------------------------------------------------------------------------------
  // The code

  class SpdkThread {
    var iocbs: map<Id, Iocb>
    var outstandingOps: int
    var rcs: seq<int>          // what the coming spdk_bdev_* calls return

    ghost function WorkOf(id: Id): Work
      requires id in iocbs
      reads this
    {
      Work(iocbs[id], outstandingOps)
    }

    ghost predicate OthersKept(id: Id, before: map<Id, Iocb>)
      reads this
    {
      iocbs.Keys == before.Keys && forall i :: i in before && i != id ==> iocbs[i] == before[i]
    }

    method SubmitIo(id: Id, max: nat)
      requires id in iocbs
      modifies this
      ensures id in iocbs && WorkOf(id) == Submitted(old(WorkOf(id)), old(rcs), max)
      ensures OthersKept(id, old(iocbs))
      decreases RetriesLeft(WorkOf(id), max), 1
    {
      var b := iocbs[id];
      b := b.(doubleSubmits := b.doubleSubmits + One(b.ownsBySpdk), ownsBySpdk := true);
      outstandingOps := outstandingOps + 1;
      var rc := Code(rcs);
      rcs := More(rcs);
      if rc == ENOMEM {
        outstandingOps := outstandingOps - 1;
        iocbs := iocbs[id := b.(place := AwaitingMemory, ownsBySpdk := false)];
      } else {
        iocbs := iocbs[id := b.(attempts := b.attempts + 1, place := InDevice)];
        if rc != 0 {
          CompleteIo(id, false, max);
        }
      }
    }

    method CompleteIo(id: Id, isSuccess: bool, max: nat)
      requires id in iocbs
      modifies this
      ensures id in iocbs && WorkOf(id) == Completed(old(WorkOf(id)), isSuccess, old(rcs), max)
      ensures OthersKept(id, old(iocbs))
      decreases RetriesLeft(WorkOf(id), max), 0
    {
      var b := iocbs[id].(ownsBySpdk := false);
      iocbs := iocbs[id := b];
      outstandingOps := outstandingOps - 1;
      if isSuccess {
        iocbs := iocbs[id := b.(place := Finished(true), promises := b.promises + 1)];
      } else if b.resubmitCnt > max {
        iocbs := iocbs[id := b.(place := Finished(false), promises := b.promises + 1)];
      } else {
        iocbs := iocbs[id := b.(resubmitCnt := b.resubmitCnt + 1)];
        SubmitIo(id, max);
      }
    }
  }
}
