/** The channel object of src/lib/interfaces/uring_drive_interface.cpp with the fields and loops it has there; each
    method is proved against the channel's step functions. */
module UringDrive {
  import opened DriveIocb
  import opened UringChannel

  /** A completion entry, and what the continuation of its promise does if it is fulfilled. */
  datatype Cqe = Cqe(id: Id, result: int, calls: seq<Call>)

  class UringDriveChannel {
    var waitq: seq<Id>
    var preparedIos: int
    var inFlightIos: int
    var sq: seq<Id>              // the submission half of m_ring
    var kernel: multiset<Id>     // requests behind m_ring
    var oracle: seq<nat>
    var blocks: map<Id, Block>
    var done: seq<Id>
    var results: map<Id, int>
    ghost var past: History

    ghost function State(): Channel
      reads this
    {
      Channel(waitq, sq, kernel, done, results, blocks, preparedIos, inFlightIos, oracle, past)
    }

    constructor (oracle: seq<nat>)
      ensures State() == Empty(oracle) && Inv(State())
    {
      waitq, preparedIos, inFlightIos, sq, kernel := [], 0, 0, [], multiset{};
      this.oracle, blocks, done, results, past := oracle, map[], [], map[], History({}, 0, map[], map[]);
    }

    predicate CanSubmitNow()
      reads this
      ensures CanSubmitNow() == CanSubmit(State())
    {
      inFlightIos + preparedIos <= QDEPTH
    }

    method SubmitIos()
      requires preparedIos == |sq|
      modifies this
      ensures State() == UringChannel.SubmitIos(old(State()))
    {
      if preparedIos != 0 {
        var ret := if oracle != [] && 1 <= oracle[0] <= |sq| then oracle[0] else |sq|;
        kernel, sq := kernel + multiset(sq[..ret]), sq[ret..];
        oracle := if oracle == [] then [] else oracle[1..];
        inFlightIos := inFlightIos + ret;
        preparedIos := preparedIos - ret;
      }
    }

    method SubmitIfNeeded(id: Id, partOfBatch: bool)
      requires preparedIos == |sq|
      modifies this
      ensures State() == UringChannel.SubmitIfNeeded(old(State()), id, partOfBatch)
    {
      sq := sq + [id];
      preparedIos := preparedIos + 1;
      if !partOfBatch {
        SubmitIos();
      }
    }

    method GetSqeOrEnqueue(id: Id) returns (slot: bool)
      requires preparedIos == |sq|
      modifies this
      ensures preparedIos == |sq|
      ensures slot <==> CanSubmit(old(State())) && !RingFull(old(State()))
      ensures slot ==> State() == old(State())
      ensures !slot ==> State() == Accept(old(State()), id, false)
    {
      if !CanSubmitNow() {
        waitq := waitq + [id];
        return false;
      }
      if |sq| == QDEPTH {
        SubmitIos();
        waitq := waitq + [id];
        return false;
      }
      return true;
    }

    /** What every asynchronous read, write or fsync does on the reactor's thread, also from a continuation. */
    method SubmitInThisThread(id: Id, b: Block, partOfBatch: bool)
      requires preparedIos == |sq| && Acceptable(State(), id, b)
      modifies this
      ensures State() == Called(old(State()), New(id, b, partOfBatch)) && preparedIos == |sq|
      ensures old(Inv(State())) ==> Inv(State())
    {
      KeepsInv(State(), New(id, b, partOfBatch));
      blocks := blocks[id := b];
      past := past.(accepted := past.accepted + {id}, original := past.original[id := b.req],
                    moved := past.moved[id := []]);
      var slot := GetSqeOrEnqueue(id);
      if slot {
        SubmitIfNeeded(id, partOfBatch);
      }
    }

    method SubmitBatch()
      requires preparedIos == |sq|
      modifies this
      ensures State() == Called(old(State()), Flush) && preparedIos == |sq|
      ensures old(Inv(State())) ==> Inv(State())
    {
      KeepsInv(State(), Flush);
      SubmitIos();
    }

    /** What the continuation of a fulfilled promise does before complete_io returns. */
    method RunContinuation(calls: seq<Call>)
      requires preparedIos == |sq| && LegalCalls(State(), calls)
      modifies this
      ensures State() == Nested(old(State()), calls) && preparedIos == |sq|
    {
      var i := 0;
      while i < |calls|
        invariant i <= |calls| && preparedIos == |sq| && LegalCalls(State(), calls[i..])
        invariant Nested(State(), calls[i..]) == Nested(old(State()), calls)
      {
        assert calls[i..][1..] == calls[i + 1..];
        Perform(calls[i]);
        i := i + 1;
      }
    }

    method Perform(call: Call)
      requires preparedIos == |sq| && LegalCall(State(), call)
      modifies this
      ensures State() == Called(old(State()), call) && preparedIos == |sq|
    {
      match call {
        case New(id, b, partOfBatch) => SubmitInThisThread(id, b, partOfBatch);
        case Flush => SubmitBatch();
      }
    }

    method PopWaitq() returns (id: Id)
      requires waitq != []
      modifies this`waitq
      ensures [id] + waitq == old(waitq)
    {
      id := waitq[0];
      waitq := waitq[1..];
    }

    method DrainWaitq()
      requires preparedIos == |sq|
      modifies this
      ensures State() == Drain(old(State()))
    {
      while |waitq| != 0
        invariant preparedIos == |sq|
        invariant Drain(State()) == Drain(old(State()))
        decreases |waitq|
      {
        if !CanSubmitNow() { break; }
        if |sq| == QDEPTH {
          return;
        }
        ghost var c := State();
        var id := PopWaitq();
        SubmitIfNeeded(id, false);
        assert State() == DrainOne(c);
      }
    }

    method CompleteIo(id: Id, result: int)
      modifies this
      ensures State() == UringChannel.CompleteIo(old(State()), id, result)
    {
      inFlightIos := inFlightIos - 1;
      results := results[id := result];
      done := done + [id];
      blocks := blocks - {id};
    }

    /** Drains the completion queue; each entry is whatever the kernel puts there next. */
    method HandleCompletions(cqes: seq<Cqe>, maxResubmit: nat)
      requires Inv(State()) && LegalRun(State(), Events(cqes, maxResubmit))
      modifies this
      ensures State() == Exec(old(State()), Events(cqes, maxResubmit)) && Inv(State())
    {
      var i := 0;
      while i < |cqes|
        invariant i <= |cqes|
        invariant Inv(State()) && LegalRun(State(), Events(cqes[i..], maxResubmit))
        invariant Exec(State(), Events(cqes[i..], maxResubmit)) == Exec(old(State()), Events(cqes, maxResubmit))
      {
        assert cqes[i..][1..] == cqes[i + 1..];
        HandleCompletion(cqes[i], maxResubmit);
        i := i + 1;
      }
    }

    method HandleCompletion(cqe: Cqe, maxResubmit: nat)
      requires Inv(State()) && Legal(State(), Completion(cqe.id, cqe.result, maxResubmit, cqe.calls))
      modifies this
      ensures State() == Step(old(State()), Completion(cqe.id, cqe.result, maxResubmit, cqe.calls)) && Inv(State())
    {
      DispatchKeepsLedger(State(), cqe.id, cqe.result, maxResubmit);
      StepKeepsInv(State(), Completion(cqe.id, cqe.result, maxResubmit, cqe.calls));
      kernel := kernel - multiset{cqe.id};
      if cqe.result >= 0 {
        OnResult(cqe.id, cqe.result);
      } else {
        OnError(cqe.id, cqe.result, maxResubmit);
      }
      RunContinuation(cqe.calls);
      DrainWaitq();
    }

    method OnResult(id: Id, result: nat)
      requires id in blocks && id in past.moved && result <= blocks[id].req.size && WellSized(blocks[id].req)
      modifies this
      ensures State() == UringChannel.OnResult(old(State()), id, result)
    {
      var b := blocks[id];
      if result == b.req.size {
        past := past.(moved := past.moved[id := past.moved[id] + Transfers(b.req)]);
        CompleteIo(id, result);
      } else {
        past := past.(moved := past.moved[id := past.moved[id] + Transfers(b.req)[..result]]);
        blocks := blocks[id := b.(req := Resume(b.req, result))];
        waitq := waitq + [id];
        inFlightIos := inFlightIos - 1;
      }
    }

    method OnError(id: Id, result: int, maxResubmit: nat)
      requires id in blocks
      modifies this
      ensures State() == UringChannel.OnError(old(State()), id, result, maxResubmit)
    {
      var count := blocks[id].resubmitCnt;
      if result != EAGAIN {
        blocks := blocks[id := blocks[id].(resubmitCnt := count + 1)];
      }
      if result != EAGAIN && count > maxResubmit {
        CompleteIo(id, result);
      } else {
        past := past.(retries := past.retries + 1);
        waitq := waitq + [id];
      }
    }
  }

  lemma KeepsInv(c: Channel, call: Call)
    requires LegalCall(c, call)
    ensures Inv(c) ==> Inv(Called(c, call))
  {
    if Inv(c) { CallKeeps(c, call); }
  }

  function Events(cqes: seq<Cqe>, maxResubmit: nat): (run: seq<Event>)
    ensures |run| == |cqes|
  {
    if cqes == [] then [] else 
      [Completion(cqes[0].id, cqes[0].result, maxResubmit, cqes[0].calls)] + Events(cqes[1..], maxResubmit)
  }
}
