/** The per-thread io_uring channel (src/lib/interfaces/uring_drive_interface.cpp and .hpp): admission control over a
    ring of 256 entries, a wait queue for what does not fit, and the completion loop with its short-read and error
    retries.  The kernel is an oracle: it decides how many prepared entries each `io_uring_submit` takes and which held
    request completes next with which result. */
module UringChannel {
  import opened DriveIocb

  const QDEPTH: nat := 256   // UringDriveInterface::per_thread_qdepth
  const EAGAIN: int := -11   // as results carry it

  type Id = nat

  datatype Op = Read | Write | Fsync

  /** A control block as the channel uses it; a scalar buffer is one entry with `vectored` false. */
  datatype Block = Block(op: Op, vectored: bool, req: Request, resubmitCnt: nat)

  /** What happened so far, kept only to state properties of whole runs. */
  datatype History = History(
    accepted: set<Id>,                  // every request ever given to the channel
    retries: nat,                       // completions sent back through the error branch
    original: map<Id, Request>,         // requests as accepted
    moved: map<Id, seq<Transfer>>)      // bytes the kernel transferred, in order

  datatype Channel = Channel(
    waitq: seq<Id>,
    sq: seq<Id>,                        // entries of the submission ring not yet submitted
    kernel: multiset<Id>,               // requests the kernel holds
    done: seq<Id>,                      // requests whose promise was fulfilled, in order
    results: map<Id, int>,              // the result handed to each promise
    blocks: map<Id, Block>,             // control blocks not yet deleted
    prepared: int,                      // m_prepared_ios
    inFlight: int,                      // m_in_flight_ios
    oracle: seq<nat>,                   // what io_uring_submit will answer
    past: History)

  /** What the continuation of a fulfilled promise does on the channel, before the completion loop goes on. */
  datatype Call = New(id: Id, block: Block, partOfBatch: bool) | Flush

  datatype Event =
    | Submit(id: Id, block: Block, partOfBatch: bool)
    | SubmitBatch
    | Completion(id: Id, result: int, maxResubmit: nat, calls: seq<Call>)

  function Empty(oracle: seq<nat>): Channel {
    Channel([], [], multiset{}, [], map[], map[], 0, 0, oracle, History({}, 0, map[], map[]))
  }

  predicate CanSubmit(c: Channel) {
    c.inFlight + c.prepared <= QDEPTH
  }

  /** io_uring_get_sqe returns null. */
  predicate RingFull(c: Channel) {
    |c.sq| == QDEPTH
  }

  /** How many entries the next io_uring_submit takes: at least one, at most all. */
  function Taken(c: Channel): (n: nat)
    requires c.sq != []
    ensures 1 <= n <= |c.sq|
  {
    if c.oracle != [] && 1 <= c.oracle[0] <= |c.sq| then c.oracle[0] else |c.sq|
  }

  function SubmitIos(c: Channel): Channel {
    if c.prepared != 0 && c.sq != [] then
      var ret := Taken(c);
      c.(kernel := c.kernel + multiset(c.sq[..ret]), sq := c.sq[ret..],
         inFlight := c.inFlight + ret, prepared := c.prepared - ret,
         oracle := if c.oracle == [] then [] else c.oracle[1..])
    else c
  }

  function Wait(c: Channel, id: Id): Channel {
    c.(waitq := c.waitq + [id])
  }

  function SubmitIfNeeded(c: Channel, id: Id, partOfBatch: bool): Channel {
    var c1 := c.(sq := c.sq + [id], prepared := c.prepared + 1);
    if partOfBatch then c1 else SubmitIos(c1)
  }

  /** Acceptance of a new request: get_sqe_or_enqueue followed, when it yields a slot, by submit_if_needed. */
  function Accept(c: Channel, id: Id, partOfBatch: bool): Channel {
    if !CanSubmit(c) then Wait(c, id)
    else if RingFull(c) then Wait(SubmitIos(c), id)
    else SubmitIfNeeded(c, id, partOfBatch)
  }

  function Register(c: Channel, id: Id, b: Block): Channel {
    c.(blocks := c.blocks[id := b],
       past := c.past.(accepted := c.past.accepted + {id},
                       original := c.past.original[id := b.req], moved := c.past.moved[id := []]))
  }

  /** One turn of the loop in drain_waitq. */
  function DrainOne(c: Channel): Channel
    requires c.waitq != []
  {
    SubmitIfNeeded(c.(waitq := c.waitq[1..]), c.waitq[0], false)
  }

  function Drain(c: Channel): Channel
    decreases |c.waitq|
  {
    if c.waitq == [] || !CanSubmit(c) || RingFull(c) then c else Drain(DrainOne(c))
  }

  /** The loop in drain_waitq runs into its "don't expect sqe to be full" assertion. */
  predicate DrainAsserts(c: Channel)
    decreases |c.waitq|
  {
    c.waitq != [] && CanSubmit(c) && (RingFull(c) || DrainAsserts(DrainOne(c)))
  }

  function CompleteIo(c: Channel, id: Id, result: int): Channel {
    c.(inFlight := c.inFlight - 1, done := c.done + [id], results := c.results[id := result], blocks := c.blocks - {id})
  }

  function Moved(c: Channel, id: Id, bytes: seq<Transfer>): Channel
    requires id in c.past.moved
  {
    c.(past := c.past.(moved := c.past.moved[id := c.past.moved[id] + bytes]))
  }

  /** A result the kernel can give: what it holds, and short only for vectored reads. */
  predicate Possible(c: Channel, id: Id, result: int) {
    && id in c.kernel && id in c.blocks && id in c.past.moved
    && var b := c.blocks[id];
       result >= 0 && result != b.req.size ==> b.op == Read && b.vectored && result < b.req.size
  }

  /** A non-negative result: done, or back to the wait queue for the rest. */
  function OnResult(k: Channel, id: Id, result: nat): Channel
    requires id in k.blocks && id in k.past.moved && result <= k.blocks[id].req.size && WellSized(k.blocks[id].req)
  {
    var b := k.blocks[id];
    if result == b.req.size then CompleteIo(Moved(k, id, Transfers(b.req)), id, result)
    else
      var resumed := Wait(Moved(k, id, Transfers(b.req)[..result]), id);
      resumed.(blocks := resumed.blocks[id := b.(req := Resume(b.req, result))], inFlight := resumed.inFlight - 1)
  }

  /** A negative result: given up once the retry count is past the limit, which EAGAIN never raises. */
  function OnError(k: Channel, id: Id, result: int, maxResubmit: nat): Channel
    requires id in k.blocks
  {
    var b := k.blocks[id];
    var b' := if result == EAGAIN then b else b.(resubmitCnt := b.resubmitCnt + 1);
    var k' := k.(blocks := k.blocks[id := b']);
    if result != EAGAIN && b.resubmitCnt > maxResubmit then CompleteIo(k', id, result)
    else Wait(k'.(past := k'.past.(retries := k'.past.retries + 1)), id)
  }

  /** The body of the completion loop up to the drain. */
  function Dispatch(c: Channel, id: Id, result: int, maxResubmit: nat): Channel
    requires Possible(c, id, result)
    requires WellSized(c.blocks[id].req)
  {
    var k := c.(kernel := c.kernel - multiset{id});
    if result >= 0 then OnResult(k, id, result) else OnError(k, id, result, maxResubmit)
  }

  predicate CanComplete(c: Channel, id: Id, result: int) {
    Possible(c, id, result) && WellSized(c.blocks[id].req)
  }

  /** The completion fulfils the promise instead of sending the request back. */
  predicate Fulfils(c: Channel, id: Id, result: int, maxResubmit: nat)
    requires id in c.blocks
  {
    || result == c.blocks[id].req.size
    || (result < 0 && result != EAGAIN && c.blocks[id].resubmitCnt > maxResubmit)
  }

  predicate Acceptable(c: Channel, id: Id, b: Block) {
    id !in c.past.accepted && WellSized(b.req) && b.resubmitCnt == 0
  }

  predicate LegalCall(c: Channel, call: Call) {
    call.New? ==> Acceptable(c, call.id, call.block)
  }

  function Called(c: Channel, call: Call): Channel {
    match call
    case New(id, b, partOfBatch) => Accept(Register(c, id, b), id, partOfBatch)
    case Flush => SubmitIos(c)
  }

  predicate LegalCalls(c: Channel, calls: seq<Call>)
    decreases calls
  {
    calls == [] || (LegalCall(c, calls[0]) && LegalCalls(Called(c, calls[0]), calls[1..]))
  }

  function Nested(c: Channel, calls: seq<Call>): Channel
    decreases calls
  {
    if calls == [] then c else Nested(Called(c, calls[0]), calls[1..])
  }

  /** Only a fulfilled promise has a continuation to run. */
  predicate Legal(c: Channel, e: Event) {
    match e
    case Submit(id, b, _) => Acceptable(c, id, b)
    case SubmitBatch => true
    case Completion(id, result, maxResubmit, calls) =>
      && CanComplete(c, id, result)
      && (calls != [] ==> Fulfils(c, id, result, maxResubmit))
      && LegalCalls(Dispatch(c, id, result, maxResubmit), calls)
  }

  function Step(c: Channel, e: Event): Channel
    requires Legal(c, e)
  {
    match e
    case Submit(id, b, partOfBatch) => Called(c, New(id, b, partOfBatch))
    case SubmitBatch => Called(c, Flush)
    case Completion(id, result, maxResubmit, calls) => Drain(Nested(Dispatch(c, id, result, maxResubmit), calls))
  }

  predicate LegalRun(c: Channel, run: seq<Event>)
    decreases run
  {
    run == [] || (Legal(c, run[0]) && LegalRun(Step(c, run[0]), run[1..]))
  }

  function Exec(c: Channel, run: seq<Event>): Channel
    requires LegalRun(c, run)
    decreases run
  {
    if run == [] then c else Exec(Step(c, run[0]), run[1..])
  }

  // ---------------------------------------------------------------------------------------------------------------
  // Conservation

  /** Each accepted request is in exactly one of wait queue, ring, kernel and done, once; only undone ones have a
      control block, and only done ones a result. */
  ghost predicate Conserved(c: Channel) {
    && multiset(c.waitq) + multiset(c.sq) + c.kernel + multiset(c.done) == multiset(c.past.accepted)
    && c.blocks.Keys == (set id | id in c.past.accepted && id !in c.done)
    && c.results.Keys == (set id | id in c.done)
  }

  /** The counters: prepared is the ring's backlog, in flight is what the kernel holds plus one for every
      error retry. */
  ghost predicate Ledger(c: Channel) {
    && c.prepared == |c.sq| <= QDEPTH
    && c.inFlight == |c.kernel| + c.past.retries
    && c.inFlight + c.prepared <= QDEPTH + 1
  }

  /** A waiting request means the ring is as full as it may get, and says where the next wake-up comes from. */
  ghost predicate Busy(c: Channel) {
    c.waitq != [] ==> c.inFlight + c.prepared >= QDEPTH && (!CanSubmit(c) || RingFull(c) || c.kernel != multiset{})
  }

  /** What was transferred so far and what the control block still asks for make up the original request. */
  ghost predicate Accounted(c: Channel, id: Id) {
    && id in c.past.original && id in c.past.moved
    && (id in c.blocks ==>
          WellSized(c.blocks[id].req)
                  && c.past.moved[id] + Transfers(c.blocks[id].req) == Transfers(c.past.original[id]))
    && (id in c.results && c.results[id] >= 0 ==> c.past.moved[id] == Transfers(c.past.original[id]))
  }

  ghost predicate Data(c: Channel) {
    forall id :: id in c.past.accepted ==> Accounted(c, id)
  }

  ghost predicate Inv(c: Channel) {
    Conserved(c) && Ledger(c) && Busy(c) && Data(c)
  }

  lemma SubmitIosKeeps(c: Channel)
    requires Conserved(c) && Ledger(c)
    ensures var c' := SubmitIos(c);
            && Conserved(c') && Ledger(c') && c'.waitq == c.waitq
            && c'.inFlight + c'.prepared == c.inFlight + c.prepared
            && |c'.sq| <= |c.sq| && (c.sq != [] ==> |c'.sq| < |c.sq| && c'.kernel != multiset{})
            && c.kernel <= c'.kernel
  {
    if c.sq != [] {
      var ret := Taken(c);
      assert c.sq == c.sq[..ret] + c.sq[ret..];
    }
  }

  /** A control block that is in none of the four places, as while it is being moved between them. */
  ghost predicate Loose(c: Channel, id: Id) {
    && multiset(c.waitq) + multiset(c.sq) + c.kernel + multiset(c.done) + multiset{id} == multiset(c.past.accepted)
    && c.blocks.Keys == (set i | i in c.past.accepted && i !in c.done)
    && c.results.Keys == (set i | i in c.done)
  }

  lemma SubmitIfNeededKeeps(c: Channel, id: Id, partOfBatch: bool)
    requires Loose(c, id) && Ledger(c) && CanSubmit(c) && !RingFull(c)
    ensures var c' := SubmitIfNeeded(c, id, partOfBatch);
            && Conserved(c') && Ledger(c') && c'.waitq == c.waitq
            && c'.inFlight + c'.prepared == c.inFlight + c.prepared + 1
            && (!partOfBatch ==> |c'.sq| <= |c.sq|)
  {
    var c1 := c.(sq := c.sq + [id], prepared := c.prepared + 1);
    assert Conserved(c1) && Ledger(c1);
    if !partOfBatch { SubmitIosKeeps(c1); }
  }

  lemma {:induction false} DrainKeeps(c: Channel)
    requires Conserved(c) && Ledger(c)
    ensures Conserved(Drain(c)) && Ledger(Drain(c)) && Busy(Drain(c))
    decreases |c.waitq|
  {
    if c.waitq != [] && CanSubmit(c) && !RingFull(c) {
      assert c.waitq == [c.waitq[0]] + c.waitq[1..];
      SubmitIfNeededKeeps(c.(waitq := c.waitq[1..]), c.waitq[0], false);
      DrainKeeps(DrainOne(c));
    }
  }

  lemma WaitKeeps(c: Channel, id: Id)
    requires Loose(c, id)
    ensures Conserved(Wait(c, id))
  {
  }

  lemma AcceptFullKeeps(c: Channel, id: Id)
    requires Conserved(Wait(c, id)) && Ledger(c) && RingFull(c)
    ensures var c' := Wait(SubmitIos(c), id); Conserved(c') && Ledger(c') && Busy(c')
  {
    SubmitIosKeeps(Wait(c, id));
    assert SubmitIos(Wait(c, id)) == Wait(SubmitIos(c), id);
  }

  lemma AcceptKeeps(c: Channel, id: Id, partOfBatch: bool)
    requires Loose(c, id) && Ledger(c)
    ensures var c' := Accept(c, id, partOfBatch); Conserved(c') && Ledger(c') && (Busy(c) ==> Busy(c'))
  {
    if CanSubmit(c) && !RingFull(c) {
      SubmitIfNeededKeeps(c, id, partOfBatch);
    } else {
      assert Conserved(Wait(c, id)) by { WaitKeeps(c, id); }
      if RingFull(c) { AcceptFullKeeps(c, id); }
    }
  }

  lemma AcceptFrame(c: Channel, id: Id, partOfBatch: bool)
    ensures var c' := Accept(c, id, partOfBatch);
            c'.blocks == c.blocks && c'.past == c.past && c'.results == c.results && c'.done == c.done
  {
  }

  lemma DataFrame(c: Channel, c': Channel)
    requires Data(c) && c'.blocks == c.blocks && c'.past == c.past && c'.results == c.results
    ensures Data(c')
  {
    forall id | id in c'.past.accepted ensures Accounted(c', id) { assert Accounted(c, id); }
  }

  lemma RegisterKeeps(c: Channel, id: Id, b: Block)
    requires Conserved(c) && Ledger(c) && Data(c) && Acceptable(c, id, b)
    ensures var r := Register(c, id, b); Loose(r, id) && Ledger(r) && Data(r)
  {
    RegisterLoosens(c, id, b);
    var r := Register(c, id, b);
    assert id !in multiset(c.past.accepted);
    assert id !in multiset(c.done);
    forall i | i in r.past.accepted ensures Accounted(r, i) {
      assert i != id ==> Accounted(c, i);
      RegisterAccounts(c, id, b, i);
    }
  }

  lemma RegisterLoosens(c: Channel, id: Id, b: Block)
    requires Conserved(c) && id !in c.past.accepted
    ensures Loose(Register(c, id, b), id)
  {
    assert id !in multiset(c.past.accepted);
    assert id !in multiset(c.done);
  }

  lemma RegisterAccounts(c: Channel, id: Id, b: Block, i: Id)
    requires if i == id then WellSized(b.req) && id !in c.results else Accounted(c, i)
    ensures Accounted(Register(c, id, b), i)
  {
    if i == id { assert [] + Transfers(b.req) == Transfers(b.req); }
  }

  /** A call keeps the books whether or not the wait queue has just been drained. */
  lemma CallKeeps(c: Channel, call: Call)
    requires Conserved(c) && Ledger(c) && Data(c) && LegalCall(c, call)
    ensures var c' := Called(c, call); Conserved(c') && Ledger(c') && Data(c') && (Busy(c) ==> Busy(c'))
  {
    match call
    case New(id, b, partOfBatch) =>
      var r := Register(c, id, b);
      RegisterKeeps(c, id, b);
      AcceptKeeps(r, id, partOfBatch);
      AcceptFrame(r, id, partOfBatch);
      DataFrame(r, Accept(r, id, partOfBatch));
    case Flush =>
      SubmitIosKeeps(c);
      DataFrame(c, SubmitIos(c));
  }

  lemma {:induction false} NestedKeeps(c: Channel, calls: seq<Call>)
    requires Conserved(c) && Ledger(c) && Data(c) && LegalCalls(c, calls)
    ensures var c' := Nested(c, calls); Conserved(c') && Ledger(c') && Data(c')
    decreases calls
  {
    if calls != [] {
      CallKeeps(c, calls[0]);
      NestedKeeps(Called(c, calls[0]), calls[1..]);
    }
  }

  lemma CallFrame(c: Channel, call: Call)
    ensures var c' := Called(c, call); c'.done == c.done && c'.results == c.results && c'.past.retries == c.past.retries
  {
    if call.New? { AcceptFrame(Register(c, call.id, call.block), call.id, call.partOfBatch); }
  }

  lemma {:induction false} NestedFrame(c: Channel, calls: seq<Call>)
    ensures var c' := Nested(c, calls);
            c'.done == c.done && c'.results == c.results && c'.past.retries == c.past.retries
    decreases calls
  {
    if calls != [] {
      CallFrame(c, calls[0]);
      NestedFrame(Called(c, calls[0]), calls[1..]);
    }
  }

  lemma CompleteKeeps(c: Channel, id: Id, result: int)
    requires Loose(c, id)
    ensures Conserved(CompleteIo(c, id, result))
  {
    var c' := CompleteIo(c, id, result);
    assert forall i :: i in c'.done <==> i in c.done || i == id;
  }

  lemma DispatchKeepsLedger(c: Channel, id: Id, result: int, maxResubmit: nat)
    requires Ledger(c) && CanComplete(c, id, result)
    ensures Ledger(Dispatch(c, id, result, maxResubmit))
  {
    var d := Dispatch(c, id, result, maxResubmit);
    assert |c.kernel - multiset{id}| == |c.kernel| - 1;
    assert d.kernel == c.kernel - multiset{id} && d.sq == c.sq && d.prepared == c.prepared;
    assert d.inFlight - d.past.retries == c.inFlight - c.past.retries - 1;
  }

  /** Before the drain everything but the occupancy of the ring holds again. */
  lemma DispatchConserves(c: Channel, id: Id, result: int, maxResubmit: nat)
    requires Inv(c) && CanComplete(c, id, result)
    ensures Conserved(Dispatch(c, id, result, maxResubmit))
  {
    var k := c.(kernel := c.kernel - multiset{id});
    TakenFromKernel(c, id);
    DispatchPlaces(c, id, result, maxResubmit);
    if Dispatch(c, id, result, maxResubmit).waitq == c.waitq {
      CompleteKeeps(k, id, result);
    } else {
      WaitKeeps(k, id);
    }
  }

  /** The request ends up done or waiting, and nothing else moves. */
  lemma DispatchPlaces(c: Channel, id: Id, result: int, maxResubmit: nat)
    requires CanComplete(c, id, result)
    ensures var k, d := c.(kernel := c.kernel - multiset{id}), Dispatch(c, id, result, maxResubmit);
            if d.waitq == c.waitq then SamePlaces(CompleteIo(k, id, result), d) else SamePlaces(Wait(k, id), d)
  {
  }

  /** Conservation looks at nothing but these. */
  ghost predicate SamePlaces(c: Channel, c': Channel) {
    && c'.waitq == c.waitq && c'.sq == c.sq && c'.kernel == c.kernel && c'.done == c.done
    && c'.blocks.Keys == c.blocks.Keys && c'.results.Keys == c.results.Keys && c'.past.accepted == c.past.accepted
  }

  lemma TakenFromKernel(c: Channel, id: Id)
    requires Conserved(c) && id in c.kernel
    ensures Loose(c.(kernel := c.kernel - multiset{id}), id)
  {
    assert c.kernel == (c.kernel - multiset{id}) + multiset{id};
  }

  lemma OnResultAccounts(k: Channel, id: Id, result: nat)
    requires id in k.blocks && id !in k.results && result <= k.blocks[id].req.size && Accounted(k, id)
    ensures Accounted(OnResult(k, id, result), id)
  {
    var r := k.blocks[id].req;
    if result < r.size {
      ResumeSplitsTransfers(r, result);
      assert (k.past.moved[id] + Transfers(r)[..result]) + Transfers(Resume(r, result))
          == k.past.moved[id] + (Transfers(r)[..result] + Transfers(Resume(r, result)));
    }
  }

  lemma OnErrorAccounts(k: Channel, id: Id, result: int, maxResubmit: nat)
    requires id in k.blocks && id !in k.results && result < 0 && Accounted(k, id)
    ensures Accounted(OnError(k, id, result, maxResubmit), id)
  {
  }

  lemma OwnAccounted(c: Channel, id: Id, result: int, maxResubmit: nat)
    requires CanComplete(c, id, result) && id !in c.results && Accounted(c, id)
    ensures Accounted(Dispatch(c, id, result, maxResubmit), id)
  {
    var k := c.(kernel := c.kernel - multiset{id});
    if result >= 0 { OnResultAccounts(k, id, result); } else { OnErrorAccounts(k, id, result, maxResubmit); }
  }

  lemma DispatchAccepts(c: Channel, id: Id, result: int, maxResubmit: nat)
    requires CanComplete(c, id, result)
    ensures Dispatch(c, id, result, maxResubmit).past.accepted == c.past.accepted
  {
  }

  lemma LiveIsAccepted(c: Channel, id: Id)
    requires Conserved(c) && id in c.blocks
    ensures id in c.past.accepted && id !in c.results
  {
  }

  lemma DispatchKeepsData(c: Channel, id: Id, result: int, maxResubmit: nat)
    requires Conserved(c) && Data(c) && CanComplete(c, id, result)
    ensures Data(Dispatch(c, id, result, maxResubmit))
  {
    var d := Dispatch(c, id, result, maxResubmit);
    LiveIsAccepted(c, id);
    DispatchAccepts(c, id, result, maxResubmit);
    forall i | i in d.past.accepted ensures Accounted(d, i) {
      assert Accounted(c, i);
      if i == id { OwnAccounted(c, id, result, maxResubmit); } else { OthersAccounted(c, id, result, maxResubmit, i); }
    }
  }

  lemma OthersAccounted(c: Channel, id: Id, result: int, maxResubmit: nat, i: Id)
    requires CanComplete(c, id, result) && Accounted(c, i) && i != id
    ensures Accounted(Dispatch(c, id, result, maxResubmit), i)
  {
    var d := Dispatch(c, id, result, maxResubmit);
    assert d.past.moved[i] == c.past.moved[i] && d.past.original == c.past.original;
    assert i in d.blocks <==> i in c.blocks;
    assert i in d.results <==> i in c.results;
  }

  lemma StepKeepsInv(c: Channel, e: Event)
    requires Inv(c) && Legal(c, e)
    ensures Inv(Step(c, e))
  {
    match e
    case Submit(id, b, partOfBatch) => CallKeeps(c, New(id, b, partOfBatch));
    case SubmitBatch => CallKeeps(c, Flush);
    case Completion(id, result, maxResubmit, calls) => CompletionKeepsInv(c, id, result, maxResubmit, calls);
  }

  lemma CompletionKeepsInv(c: Channel, id: Id, result: int, maxResubmit: nat, calls: seq<Call>)
    requires Inv(c) && Legal(c, Completion(id, result, maxResubmit, calls))
    ensures Inv(Step(c, Completion(id, result, maxResubmit, calls)))
  {
    var d := Dispatch(c, id, result, maxResubmit);
    DispatchKeepsLedger(c, id, result, maxResubmit);
    DispatchConserves(c, id, result, maxResubmit);
    DispatchKeepsData(c, id, result, maxResubmit);
    var n := Nested(d, calls);
    NestedKeeps(d, calls);
    DrainKeeps(n);
    DrainFrame(n);
    DataFrame(n, Drain(n));
  }

  /** Over every run of submits, batches, completions, short reads, error retries and calls made by continuations the
      whole invariant holds, promises already fulfilled stay as they were, and new ones are only appended. */
  lemma {:induction false} RunsKeepInv(c: Channel, run: seq<Event>)
    requires Inv(c) && LegalRun(c, run)
    ensures Inv(Exec(c, run))
    ensures c.done <= Exec(c, run).done
    ensures forall id :: id in c.results ==> id in Exec(c, run).results && Exec(c, run).results[id] == c.results[id]
    decreases run
  {
    if run != [] {
      StepKeepsInv(c, run[0]);
      assert run[0].Completion? ==> run[0].id !in c.results;
      StepOnlyAddsResults(c, run[0]);
      RunsKeepInv(Step(c, run[0]), run[1..]);
    }
  }

  lemma StepOnlyAddsResults(c: Channel, e: Event)
    requires Legal(c, e) && (e.Completion? ==> e.id !in c.results)
    ensures c.done <= Step(c, e).done
    ensures forall id :: id in c.results ==> id in Step(c, e).results && Step(c, e).results[id] == c.results[id]
  {
    match e
    case Submit(id, b, partOfBatch) => CallFrame(c, New(id, b, partOfBatch));
    case SubmitBatch =>
    case Completion(id, result, maxResubmit, calls) =>
      var d := Dispatch(c, id, result, maxResubmit);
      NestedFrame(d, calls);
      DrainFrame(Nested(d, calls));
  }

  lemma {:induction false} DrainFrame(c: Channel)
    ensures var c' := Drain(c);
            c'.blocks == c.blocks && c'.past == c.past && c'.results == c.results && c'.done == c.done
    decreases |c.waitq|
  {
    if c.waitq != [] && CanSubmit(c) && !RingFull(c) { DrainFrame(DrainOne(c)); }
  }

  ghost predicate Reachable(c: Channel) {
    exists oracle, run :: LegalRun(Empty(oracle), run) && c == Exec(Empty(oracle), run)
  }

  lemma ReachableInv(c: Channel)
    requires Reachable(c)
    ensures Inv(c)
  {
    var oracle, run :| LegalRun(Empty(oracle), run) && c == Exec(Empty(oracle), run);
    RunsKeepInv(Empty(oracle), run);
  }

  /** Conservation, request by request. */
  lemma EachRequestInOnePlace(c: Channel, id: Id)
    requires Reachable(c)
    ensures multiset(c.waitq)[id] + multiset(c.sq)[id] + c.kernel[id] + multiset(c.done)[id]
            == if id in c.past.accepted then 1 else 0
  {
    ReachableInv(c);
    assert multiset(c.past.accepted)[id] == if id in c.past.accepted then 1 else 0;
  }

  /** A request reported as a success has had every byte of the request its caller made transferred exactly once, in
      order, however many short results and errors came in between. */
  lemma SuccessMovedEverything(c: Channel, id: Id)
    requires Reachable(c) && id in c.results && c.results[id] >= 0
    ensures id in c.past.original && id in c.past.moved && c.past.moved[id] == Transfers(c.past.original[id])
  {
    ReachableInv(c);
    assert id in c.done;
    assert id in multiset(c.past.accepted);
    assert Accounted(c, id);
  }

  /** The counters never go negative, and the kernel never holds more than one request above the queue depth. */
  lemma CountersBounded(c: Channel)
    requires Reachable(c)
    ensures 0 <= c.prepared == |c.sq| <= QDEPTH
    ensures 0 <= c.inFlight == |c.kernel| + c.past.retries
    ensures |c.kernel| + |c.sq| <= c.inFlight + c.prepared <= QDEPTH + 1
    ensures c.waitq != [] ==> c.inFlight + c.prepared >= QDEPTH
  {
    ReachableInv(c);
  }

  // ---------------------------------------------------------------------------------------------------------------
  // Batches, and where a request goes

  /** No answer of the kernel is left out: it may take any number of the prepared entries from one to all. */
  lemma EveryAnswerCovered(c: Channel, k: nat)
    requires Reachable(c) && 1 <= k <= |c.sq|
    ensures var c' := Step(c.(oracle := [k]), SubmitBatch);
            c'.sq == c.sq[k..] && c'.kernel == c.kernel + multiset(c.sq[..k]) && c'.inFlight == c.inFlight + k
  {
    CountersBounded(c);
  }

  /** submit_batch hands a front part of the ring to the kernel, at least one entry, and does nothing else. */
  lemma BatchSubmits(c: Channel) returns (k: nat)
    requires Reachable(c) && c.sq != []
    ensures 1 <= k <= |c.sq|
    ensures var c' := Step(c, SubmitBatch);
            && c'.sq == c.sq[k..] && c'.kernel == c.kernel + multiset(c.sq[..k])
            && c'.waitq == c.waitq && c'.done == c.done && c'.results == c.results && c'.blocks == c.blocks
  {
    CountersBounded(c);
    k := Taken(c);
  }

  function Batches(n: nat): seq<Event> {
    if n == 0 then [] else [SubmitBatch] + Batches(n - 1)
  }

  /** One batch submit on the way to an empty ring. */
  lemma BatchProgress(c: Channel)
    requires c.prepared == |c.sq|
    ensures var c' := SubmitIos(c);
            && c'.prepared == |c'.sq| && c'.waitq == c.waitq
            && c'.kernel + multiset(c'.sq) == c.kernel + multiset(c.sq)
            && (c.sq != [] ==> |c'.sq| < |c.sq|) && (c.sq == [] ==> c'.sq == [])
  {
    if c.sq != [] {
      var k := Taken(c);
      assert c.sq == c.sq[..k] + c.sq[k..];
      assert multiset(c.sq) == multiset(c.sq[..k]) + multiset(c.sq[k..]);
    }
  }

  lemma {:induction false} BatchesDrainRing(c: Channel, n: nat)
    requires c.prepared == |c.sq| <= n
    ensures LegalRun(c, Batches(n))
    ensures var c' := Exec(c, Batches(n)); c'.sq == [] && c'.kernel == c.kernel + multiset(c.sq) && c'.waitq == c.waitq
    decreases n
  {
    if n == 0 {
      assert c.sq == [] && c.kernel + multiset(c.sq) == c.kernel;
    } else {
      var run, c1 := Batches(n), Step(c, SubmitBatch);
      assert run[0] == SubmitBatch && run[1..] == Batches(n - 1);
      assert c1 == SubmitIos(c);
      BatchProgress(c);
      BatchesDrainRing(c1, n - 1);
    }
  }

  /** As many batch submits as there are batched entries put all of them into the kernel, however few the kernel
      takes at a time. */
  lemma BatchesEmptyRing(c: Channel)
    requires Reachable(c)
    ensures LegalRun(c, Batches(|c.sq|))
    ensures var c' := Exec(c, Batches(|c.sq|));
            c'.sq == [] && c'.kernel == c.kernel + multiset(c.sq) && c'.waitq == c.waitq
  {
    CountersBounded(c);
    BatchesDrainRing(c, |c.sq|);
  }

  /** Where a new request goes: past the depth it waits and nothing else happens; a full ring is pushed on and the
      request waits; otherwise it is prepared behind the others and, unless batched, the ring is pushed on. */
  lemma AcceptEffect(c: Channel, id: Id, b: Block, partOfBatch: bool)
    requires Reachable(c) && Acceptable(c, id, b)
    ensures var c' := Step(c, Submit(id, b, partOfBatch));
            && (Load(c) > QDEPTH ==> c'.waitq == c.waitq + [id] && c'.sq == c.sq && c'.kernel == c.kernel)
            && (Load(c) <= QDEPTH && |c.sq| == QDEPTH ==> c'.waitq == c.waitq + [id] && |c'.sq| < |c.sq|)
            && (Load(c) <= QDEPTH && |c.sq| < QDEPTH ==>
                  && c'.waitq == c.waitq
                  && (partOfBatch ==> c'.sq == c.sq + [id] && c'.kernel == c.kernel)
                  && (!partOfBatch ==> |c'.sq| <= |c.sq| && |c'.kernel| > |c.kernel|))
            && c'.blocks == c.blocks[id := b] && c'.past.original == c.past.original[id := b.req]
  {
    CountersBounded(c);
    var r := Register(c, id, b);
    AcceptFrame(r, id, partOfBatch);
    if Load(c) <= QDEPTH && |c.sq| < QDEPTH {
      var c1 := r.(sq := r.sq + [id], prepared := r.prepared + 1);
      if !partOfBatch { assert |multiset(c1.sq[..Taken(c1)])| == Taken(c1); }
    }
  }

  /** The requests handed to the channel over a run, by callers and by continuations. */
  function Given(calls: seq<Call>): seq<(Id, Block)> {
    if calls == [] then []
    else (if calls[0].New? then [(calls[0].id, calls[0].block)] else []) + Given(calls[1..])
  }

  function Submissions(run: seq<Event>): seq<(Id, Block)>
    decreases run
  {
    if run == [] then []
    else
      (match run[0]
       case Submit(id, b, _) => [(id, b)]
       case SubmitBatch => []
       case Completion(_, _, _, calls) => Given(calls)) + Submissions(run[1..])
  }

  /** The channel knows the request as it was handed over. */
  ghost predicate Remembers(c: Channel, id: Id, b: Block) {
    && id in c.past.accepted && id in c.past.original && c.past.original[id] == b.req
    && (id in c.blocks ==> c.blocks[id].op == b.op && c.blocks[id].vectored == b.vectored)
  }

  lemma CallRemembers(c: Channel, call: Call, id: Id, b: Block)
    requires LegalCall(c, call) && (Remembers(c, id, b) || (call.New? && call.id == id && call.block == b))
    ensures Remembers(Called(c, call), id, b)
  {
    if call.New? { AcceptFrame(Register(c, call.id, call.block), call.id, call.partOfBatch); }
  }

  lemma {:induction false} NestedRemembers(c: Channel, calls: seq<Call>, id: Id, b: Block)
    requires LegalCalls(c, calls) && (Remembers(c, id, b) || (id, b) in Given(calls))
    ensures Remembers(Nested(c, calls), id, b)
    decreases calls
  {
    if calls != [] {
      if Remembers(c, id, b) || (calls[0].New? && calls[0].id == id && calls[0].block == b) {
        CallRemembers(c, calls[0], id, b);
      }
      NestedRemembers(Called(c, calls[0]), calls[1..], id, b);
    }
  }

  lemma DispatchRemembers(c: Channel, id: Id, result: int, maxResubmit: nat, other: Id, b: Block)
    requires CanComplete(c, id, result) && Remembers(c, other, b)
    ensures Remembers(Dispatch(c, id, result, maxResubmit), other, b)
  {
  }

  lemma StepRemembers(c: Channel, e: Event, id: Id, b: Block)
    requires Legal(c, e) && (Remembers(c, id, b) || (id, b) in Submissions([e]))
    ensures Remembers(Step(c, e), id, b)
  {
    assert [e][1..] == [] && Submissions([e][1..]) == [];
    match e
    case Submit(i, bl, partOfBatch) => CallRemembers(c, New(i, bl, partOfBatch), id, b);
    case SubmitBatch => CallRemembers(c, Flush, id, b);
    case Completion(i, result, maxResubmit, calls) =>
      var d := Dispatch(c, i, result, maxResubmit);
      if Remembers(c, id, b) { DispatchRemembers(c, i, result, maxResubmit, id, b); }
      NestedRemembers(d, calls, id, b);
      DrainFrame(Nested(d, calls));
  }

  lemma {:induction false} RunRemembers(c: Channel, run: seq<Event>, id: Id, b: Block)
    requires LegalRun(c, run) && (Remembers(c, id, b) || (id, b) in Submissions(run))
    ensures Remembers(Exec(c, run), id, b)
    decreases run
  {
    if run != [] {
      var e := run[0];
      assert [e][1..] == [] && Submissions([e]) + Submissions(run[1..]) == Submissions(run);
      if Remembers(c, id, b) || (id, b) in Submissions([e]) { StepRemembers(c, e, id, b); }
      RunRemembers(Step(c, e), run[1..], id, b);
    }
  }

  /** Whatever was handed to the channel over a run is accepted, waits, is prepared, is held or is done exactly
      once, and if it is reported as a success the kernel has transferred every byte of what was handed over, once
      and in order. */
  lemma SubmittedIsServed(oracle: seq<nat>, run: seq<Event>, id: Id, b: Block)
    requires LegalRun(Empty(oracle), run) && (id, b) in Submissions(run)
    ensures var c := Exec(Empty(oracle), run);
            && multiset(c.waitq)[id] + multiset(c.sq)[id] + c.kernel[id] + multiset(c.done)[id] == 1
            && (id in c.results && c.results[id] >= 0 ==> id in c.past.moved && c.past.moved[id] == Transfers(b.req))
  {
    var c := Exec(Empty(oracle), run);
    RunRemembers(Empty(oracle), run, id, b);
    assert Reachable(c);
    EachRequestInOnePlace(c, id);
    if id in c.results && c.results[id] >= 0 { SuccessMovedEverything(c, id); }
  }

  // ---------------------------------------------------------------------------------------------------------------
  // Where the channel falls short of what its comments and assertions say

  /** A queued request has nothing outstanding that could wake it exactly when 257 completions have gone through the
      error-retry branch: that branch does not take the request off `m_in_flight_ios`. */
  lemma StrandedIffLeaked(c: Channel)
    requires Reachable(c) && c.waitq != []
    ensures c.sq == [] && c.kernel == multiset{} <==> c.past.retries == QDEPTH + 1
  {
    ReachableInv(c);
  }

  /** Short of that, a channel with nothing prepared and nothing in the kernel has fulfilled every promise. */
  lemma IdleMeansAllDone(c: Channel)
    requires Reachable(c) && c.past.retries <= QDEPTH && c.sq == [] && c.kernel == multiset{}
    ensures c.waitq == [] && multiset(c.done) == multiset(c.past.accepted)
  {
    ReachableInv(c);
  }

  /** From then on no request ever completes. */
  lemma {:induction false} LeakedIsForever(c: Channel, run: seq<Event>)
    requires Inv(c) && c.past.retries == QDEPTH + 1 && LegalRun(c, run)
    ensures Exec(c, run).done == c.done && Exec(c, run).past.retries == QDEPTH + 1
    decreases run
  {
    if run != [] {
      assert c.sq == [] && |c.kernel| == 0 && c.kernel == multiset{};
      StepKeepsInv(c, run[0]);
      LeakedIsForever(Step(c, run[0]), run[1..]);
    }
  }

  lemma {:induction false} ExecSnoc(c: Channel, run: seq<Event>, e: Event)
    requires LegalRun(c, run) && Legal(Exec(c, run), e)
    ensures LegalRun(c, run + [e]) && Exec(c, run + [e]) == Step(Exec(c, run), e)
    decreases run
  {
    if run == [] {
      assert run + [e] == [e] && [e][1..] == [];
    } else {
      ExecSnoc(Step(c, run[0]), run[1..], e);
      assert (run + [e])[1..] == run[1..] + [e];
    }
  }

  lemma ReachableStep(c: Channel, e: Event)
    requires Reachable(c) && Legal(c, e)
    ensures Reachable(Step(c, e))
  {
    var oracle, run :| LegalRun(Empty(oracle), run) && c == Exec(Empty(oracle), run);
    ExecSnoc(Empty(oracle), run, e);
    assert LegalRun(Empty(oracle), run + [e]);
  }

  /** With an empty ring a single entry goes straight to the kernel. */
  lemma SubmitAlone(c: Channel, id: Id)
    requires c.sq == [] && c.prepared == 0
    ensures var c' := SubmitIfNeeded(c, id, false);
            c' == c.(kernel := c.kernel + multiset{id}, inFlight := c.inFlight + 1,
                     oracle := if c.oracle == [] then [] else c.oracle[1..])
  {
    assert c.sq + [id] == [id];
    PushAlone(c.(sq := [id], prepared := 1), id);
  }

  lemma PushAlone(c: Channel, id: Id)
    requires c.sq == [id] && c.prepared == 1
    ensures SubmitIos(c) == c.(sq := [], prepared := 0, kernel := c.kernel + multiset{id}, inFlight := c.inFlight + 1,
                               oracle := if c.oracle == [] then [] else c.oracle[1..])
  {
    assert Taken(c) == 1 && [id][..1] == [id] && [id][1..] == [];
  }

  lemma DrainSingle(c: Channel, id: Id)
    requires c.waitq == [id] && c.sq == [] && c.prepared == 0 && CanSubmit(c)
    ensures var c' := Drain(c);
            c'.waitq == [] && c'.sq == [] && c'.kernel == c.kernel + multiset{id} && c'.past == c.past
  {
    assert c.waitq[1..] == [];
    SubmitAlone(c.(waitq := []), id);
    assert Drain(c) == Drain(DrainOne(c)) == DrainOne(c);
  }

  /** After `n` retries the one accepted request is held by the kernel again. */
  ghost predicate Retrying(c: Channel, id: Id, n: nat) {
    Reachable(c) && c.past.accepted == {id} && c.past.retries == n && c.waitq == [] && c.sq == []
            && c.kernel == multiset{id}
  }

  lemma RetryOnce(c: Channel, id: Id, n: nat) returns (c': Channel)
    requires Retrying(c, id, n) && n <= QDEPTH
    ensures Reachable(c') && c'.past.accepted == {id} && c'.past.retries == n + 1
    ensures n < QDEPTH ==> Retrying(c', id, n + 1)
    ensures n == QDEPTH ==> c'.waitq == [id]
  {
    ReachableInv(c);
    assert Accounted(c, id);
    EachRequestInOnePlace(c, id);
    var e := Completion(id, EAGAIN, 0, []);
    ReachableStep(c, e);
    c' := Step(c, e);
    var d := Dispatch(c, id, EAGAIN, 0);
    assert d.waitq == [id] && d.inFlight == n + 1 && d.kernel == multiset{};
    if n < QDEPTH { DrainSingle(d, id); }
  }

  /** Any single request, answered EAGAIN 257 times, strands itself and every later request for good. */
  lemma EagainStrandsChannel(oracle: seq<nat>, id: Id, b: Block) returns (c: Channel)
    requires WellSized(b.req) && b.resubmitCnt == 0
    ensures Reachable(c) && c.past.accepted == {id} && c.waitq == [id]
    ensures c.past.retries == QDEPTH + 1
    ensures forall run :: LegalRun(c, run) ==> Exec(c, run).done == []
  {
    c := FirstSubmit(oracle, id, b);
    var n := 0;
    while n < QDEPTH
      invariant n <= QDEPTH && Retrying(c, id, n)
    {
      c := RetryOnce(c, id, n);
      n := n + 1;
    }
    c := RetryOnce(c, id, n);
    NothingDone(c, id);
    forall run | LegalRun(c, run) ensures Exec(c, run).done == [] { LeakedIsForever(c, run); }
  }

  lemma FirstSubmit(oracle: seq<nat>, id: Id, b: Block) returns (c: Channel)
    requires WellSized(b.req) && b.resubmitCnt == 0
    ensures Retrying(c, id, 0)
  {
    var c0, e := Empty(oracle), Submit(id, b, false);
    assert LegalRun(c0, []) && Exec(c0, []) == c0;
    ReachableStep(c0, e);
    SubmitAlone(Register(c0, id, b), id);
    c := Step(c0, e);
  }

  lemma NothingDone(c: Channel, id: Id)
    requires Reachable(c) && c.past.accepted == {id} && c.waitq == [id]
    ensures c.done == [] && Inv(c)
  {
    ReachableInv(c);
    if c.done != [] {
      assert c.done[0] in multiset(c.done);
      assert c.done[0] in multiset(c.past.accepted);
      EachRequestInOnePlace(c, id);
    }
  }

  /** `held` copies of one request with the kernel and `batched` in the ring, numbered from 0, nothing waiting. */
  ghost predicate Filled(c: Channel, b: Block, held: nat, batched: nat) {
    && Reachable(c) && c.waitq == [] && c.past.retries == 0
    && |c.kernel| == held && |c.sq| == batched
    && (forall i :: i in c.past.accepted ==> i < held + batched)
    && (forall i :: i in c.blocks ==> c.blocks[i] == b)
    && (held > 0 ==> 0 in c.kernel)
  }

  lemma FillHeld(c: Channel, held: nat, b: Block) returns (c': Channel)
    requires Filled(c, b, held, 0) && held <= QDEPTH
    requires WellSized(b.req) && b.resubmitCnt == 0
    ensures Filled(c', b, held + 1, 0)
  {
    CountersBounded(c);
    ReachableStep(c, Submit(held, b, false));
    SubmitAlone(Register(c, held, b), held);
    c' := Step(c, Submit(held, b, false));
    if held == 0 { assert c.kernel == multiset{}; }
  }

  lemma FillBatched(c: Channel, held: nat, batched: nat, b: Block) returns (c': Channel)
    requires Filled(c, b, held, batched) && held + batched <= QDEPTH && batched < QDEPTH
    requires WellSized(b.req) && b.resubmitCnt == 0
    ensures Filled(c', b, held, batched + 1)
  {
    CountersBounded(c);
    ReachableStep(c, Submit(held + batched, b, true));
    c' := Step(c, Submit(held + batched, b, true));
  }

  lemma Fill(oracle: seq<nat>, held: nat, batched: nat, b: Block) returns (c: Channel)
    requires held + batched <= QDEPTH + 1 && batched <= QDEPTH
    requires WellSized(b.req) && b.resubmitCnt == 0
    ensures Filled(c, b, held, batched)
  {
    c := Empty(oracle);
    assert LegalRun(c, []) && Exec(c, []) == c;
    for i := 0 to held
      invariant Filled(c, b, i, 0)
    {
      c := FillHeld(c, i, b);
    }
    for i := 0 to batched
      invariant Filled(c, b, held, i)
    {
      c := FillBatched(c, held, i, b);
    }
  }

  /** The admission test is `<=`, so the kernel can hold 257 requests: one more than a completion queue as long as the
      submission queue takes. */
  lemma OneAboveQueueDepth(oracle: seq<nat>, b: Block) returns (c: Channel)
    requires WellSized(b.req) && b.resubmitCnt == 0
    ensures Reachable(c) && |c.kernel| == QDEPTH + 1
  {
    c := Fill(oracle, QDEPTH + 1, 0, b);
  }

  function Load(c: Channel): int {
    c.inFlight + c.prepared
  }

  /** A submission takes a channel within its depth above it exactly when one slot was left at the depth itself and the
      ring had room: the admission test lets one too many through. */
  lemma SubmitAboveDepthIff(c: Channel, id: Id, b: Block, partOfBatch: bool)
    requires Reachable(c) && Load(c) <= QDEPTH && Legal(c, Submit(id, b, partOfBatch))
    ensures Load(Step(c, Submit(id, b, partOfBatch))) > QDEPTH <==> Load(c) == QDEPTH && |c.sq| < QDEPTH
    ensures var c' := Step(c, Submit(id, b, partOfBatch));
            |c'.kernel| + |c'.sq| > QDEPTH <==> Load(c) == QDEPTH && |c.sq| < QDEPTH && c.past.retries == 0
  {
    ReachableInv(c);
    var r := Register(c, id, b);
    RegisterKeeps(c, id, b);
    CallKeeps(c, New(id, b, partOfBatch));
    CallFrame(c, New(id, b, partOfBatch));
    if RingFull(r) {
      assert Load(SubmitIos(r)) == Load(r);
    } else {
      SubmitIfNeededKeeps(r, id, partOfBatch);
    }
  }

  /** A drain fills up to one above the depth, as far as there is something waiting, unless the ring is full. */
  lemma {:induction false} DrainLoad(c: Channel)
    requires Conserved(c) && Ledger(c)
    ensures Load(Drain(c)) == if RingFull(c) || Load(c) > QDEPTH then Load(c)
                              else if Load(c) + |c.waitq| <= QDEPTH + 1 then Load(c) + |c.waitq| else QDEPTH + 1
    decreases |c.waitq|
  {
    if c.waitq != [] && CanSubmit(c) && !RingFull(c) {
      assert c.waitq == [c.waitq[0]] + c.waitq[1..];
      SubmitIfNeededKeeps(c.(waitq := c.waitq[1..]), c.waitq[0], false);
      DrainLoad(DrainOne(c));
    }
  }

  /** The drain meets a full ring exactly when it starts with one, something waits and nothing is in flight. */
  lemma {:induction false} DrainAssertsIff(c: Channel)
    requires Conserved(c) && Ledger(c)
    ensures DrainAsserts(c) <==> c.waitq != [] && RingFull(c) && c.inFlight == 0
    decreases |c.waitq|
  {
    if c.waitq != [] && CanSubmit(c) && !RingFull(c) {
      assert c.waitq == [c.waitq[0]] + c.waitq[1..];
      SubmitIfNeededKeeps(c.(waitq := c.waitq[1..]), c.waitq[0], false);
      DrainAssertsIff(DrainOne(c));
    }
  }

  /** One request in flight, 256 batched behind it, one more waiting: completing the first one trips the assertion in
      drain_waitq that the ring is never full there. */
  lemma DrainAssertReachable(oracle: seq<nat>, b: Block) returns (c: Channel)
    requires WellSized(b.req) && b.resubmitCnt == 0
    ensures Reachable(c) && Legal(c, Completion(0, b.req.size, 0, []))
    ensures DrainAsserts(Dispatch(c, 0, b.req.size, 0))
  {
    c := Fill(oracle, 1, QDEPTH, b);
    ReachableInv(c);
    var e := Submit(QDEPTH + 1, b, false);
    ReachableStep(c, e);
    c := Step(c, e);
    EachRequestInOnePlace(c, 0);
    assert Accounted(c, 0);
    assert c.blocks[0] == b;
    var d := Dispatch(c, 0, b.req.size, 0);
    assert d.waitq == [QDEPTH + 1] && d.inFlight == 0 && RingFull(d);
  }

  /** A synchronous call tests can_submit and then takes a slot for granted; the slot is there exactly when the ring is
      not full of batched entries. */
  lemma SyncSlotIff(c: Channel, id: Id)
    requires Reachable(c) && CanSubmit(c)
    ensures Accept(c, id, false).waitq == c.waitq <==> |c.sq| < QDEPTH
  {
    ReachableInv(c);
    if RingFull(c) {
      SubmitIosKeeps(c);
    } else {
      assert |c.sq + [id]| > 0;
    }
  }

  /** A ring full of batched entries passes can_submit and has no slot: the synchronous call's assertion fails there. */
  lemma SyncSlotMissing(oracle: seq<nat>, b: Block) returns (c: Channel)
    requires WellSized(b.req) && b.resubmitCnt == 0
    ensures Reachable(c) && CanSubmit(c) && forall id: Id :: Accept(c, id, false).waitq == [id]
  {
    c := Fill(oracle, 0, QDEPTH, b);
    CountersBounded(c);
  }
}
