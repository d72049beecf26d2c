/** IOManager::multicast_msg (src/lib/iomgr.cpp): which reactors get a message, and who owns each copy of it. */
module Multicast {
  import opened Options

  datatype Regex =
    | AllIo | LeastBusyIo | AllWorker | LeastBusyWorker | RandomWorker | AllUser | LeastBusyUser | AllTloop

  datatype Reactor = Reactor(idx: nat, io: bool, worker: bool, tightLoop: bool, outstandingOps: int)

  type MsgPtr = nat

  /** What is done to message objects. */
  datatype Action =
    | Clone(from: MsgPtr, to: MsgPtr)
    | TakeFuture(m: MsgPtr)
    | Deliver(m: MsgPtr, reactor: nat)
    | Free(m: MsgPtr)

  const INT64_MAX: int := 0x7fff_ffff_ffff_ffff

  predicate MatchRegex(r: Regex, reactor: Reactor) {
    if r == AllIo || r == LeastBusyIo then true
    else if r == AllTloop then reactor.tightLoop
    else if reactor.worker then r == AllWorker || r == LeastBusyWorker || r == RandomWorker
    else r == AllUser || r == LeastBusyUser
  }

  predicate IsLeastBusy(r: Regex) {
    r == LeastBusyWorker || r == LeastBusyUser
  }

  predicate Eligible(r: Regex, slot: Option<Reactor>) {
    slot.Some? && slot.value.io && MatchRegex(r, slot.value)
  }

  /** The eligible reactors among the slots, in order. */
  function Targets(r: Regex, slots: seq<Option<Reactor>>): seq<nat> {
    if slots == [] then []
    else
      var last := slots[|slots| - 1];
      Targets(r, slots[..|slots| - 1]) + (if Eligible(r, last) then [last.value.idx] else [])
  }

  /** What a sequence of actions amounts to: whether every action touched only live objects, which objects are still
      alive, and the deliveries made, by receiver and by object. */
  datatype Book = Book(sound: bool, alive: set<MsgPtr>, receivers: seq<nat>, delivered: seq<MsgPtr>)

  function Enter(b: Book, a: Action): Book {
    match a
    case Clone(from, to) => b.(sound := b.sound && from in b.alive && to !in b.alive, alive := b.alive + {to})
    case TakeFuture(m) => b.(sound := b.sound && m in b.alive)
    case Deliver(m, r) =>
      Book(b.sound && m in b.alive, b.alive - {m}, b.receivers + [r], b.delivered + [m])
    case Free(m) => b.(sound := b.sound && m in b.alive, alive := b.alive - {m})
  }

  /** The books of a call that was given the message `m`. */
  function Books(m: MsgPtr, log: seq<Action>): Book {
    if log == [] then Book(true, {m}, [], []) else Enter(Books(m, log[..|log| - 1]), log[|log| - 1])
  }

  lemma Snoc(m: MsgPtr, log: seq<Action>, a: Action)
    ensures Books(m, log + [a]) == Enter(Books(m, log), a)
  {
    assert (log + [a])[..|log + [a]| - 1] == log;
  }

  /** The steps for one delivery: the future first, if one is needed, then the hand-over. */
  function Handover(m: MsgPtr, needReply: bool, reactor: nat): seq<Action> {
    (if needReply then [TakeFuture(m)] else []) + [Deliver(m, reactor)]
  }

  lemma HandoverEntered(orig: MsgPtr, log: seq<Action>, m: MsgPtr, needReply: bool, reactor: nat)
    requires m in Books(orig, log).alive
    ensures Books(orig, log + Handover(m, needReply, reactor)) == Enter(Books(orig, log), Deliver(m, reactor))
  {
    var mid := if needReply then log + [TakeFuture(m)] else log;
    Snoc(orig, log, TakeFuture(m));
    assert log + Handover(m, needReply, reactor) == mid + [Deliver(m, reactor)];
    Snoc(orig, mid, Deliver(m, reactor));
  }

  /** The random-worker branch: the picked worker, which exists once the manager runs, is used without any
      further test. */
  method SendToRandomWorker(workers: seq<Option<Reactor>>, pick: nat, msg: MsgPtr, needReply: bool)
    returns (sentTo: nat, futures: seq<MsgPtr>, log: seq<Action>)
    requires pick < |workers| && workers[pick].Some?
    ensures sentTo == 1 && Books(msg, log) == Book(true, {}, [workers[pick].value.idx], [msg])
    ensures futures == if needReply then [msg] else []
  {
    futures := if needReply then [msg] else [];
    log := Handover(msg, needReply, workers[pick].value.idx);
    HandoverEntered(msg, [], msg, needReply, workers[pick].value.idx);
    assert [] + log == log && {msg} - {msg} == {};
    sentTo := 1;
  }

  predicate Distinct(ms: seq<MsgPtr>) {
    forall j, k :: 0 <= j < k < |ms| ==> ms[j] != ms[k]
  }

  /** The original or objects made after it. */
  predicate From(ms: seq<MsgPtr>, msg: MsgPtr) {
    forall k :: 0 <= k < |ms| ==> msg <= ms[k]
  }

  predicate Increasing(ms: seq<MsgPtr>, below: MsgPtr) {
    && (forall k :: 0 <= k < |ms| ==> ms[k] < below)
    && forall j, k :: 0 <= j < k < |ms| ==> ms[j] < ms[k]
  }

  /** Where a broadcast stands: `cur` is the one live copy, the others went to `targets`. */
  predicate Under(b: Book, cur: MsgPtr, targets: seq<nat>) {
    b.sound && b.alive == {cur} && b.receivers == targets && |b.delivered| == |targets| && Increasing(b.delivered, cur)
  }

  /** One round of a broadcast: copy, then hand over the original. */
  lemma RoundEntered(msg: MsgPtr, log: seq<Action>, cur: MsgPtr, targets: seq<nat>, needReply: bool, reactor: nat)
    requires Under(Books(msg, log), cur, targets)
    ensures var b := Books(msg, log + [Clone(cur, cur + 1)] + Handover(cur, needReply, reactor));
            Under(b, cur + 1, targets + [reactor]) && b.delivered == Books(msg, log).delivered + [cur]
  {
    var b := Books(msg, log);
    Snoc(msg, log, Clone(cur, cur + 1));
    HandoverEntered(msg, log + [Clone(cur, cur + 1)], cur, needReply, reactor);
    assert {cur} + {cur + 1} - {cur} == {cur + 1};
  }

  /** One round for reactor `reactor`: the copy is made before the original is handed over. */
  method CloneAndDeliver(msg: MsgPtr, ghost targets: seq<nat>, before: seq<Action>, cur: MsgPtr, had: seq<MsgPtr>,
                         needReply: bool, reactor: nat)
    returns (log: seq<Action>, futures: seq<MsgPtr>)
    requires Under(Books(msg, before), cur, targets) && msg <= cur && From(Books(msg, before).delivered, msg)
    requires had == if needReply then Books(msg, before).delivered else []
    ensures Under(Books(msg, log), cur + 1, targets + [reactor]) && From(Books(msg, log).delivered, msg)
    ensures futures == if needReply then Books(msg, log).delivered else []
  {
    RoundEntered(msg, before, cur, targets, needReply, reactor);
    futures := if needReply then had + [cur] else had;
    log := before + [Clone(cur, cur + 1)] + Handover(cur, needReply, reactor);
  }

  /** The walk over the slots; `cur` is the copy left over. */
  method DeliverCopies(r: Regex, slots: seq<Option<Reactor>>, msg: MsgPtr, needReply: bool)
    returns (sentTo: nat, futures: seq<MsgPtr>, log: seq<Action>, cur: MsgPtr, cloned: Option<MsgPtr>)
    ensures Under(Books(msg, log), cur, Targets(r, slots)) && sentTo == |Targets(r, slots)|
    ensures if sentTo == 0 then cloned == None && cur == msg else cloned == Some(cur)
    ensures futures == if needReply then Books(msg, log).delivered else []
    ensures From(Books(msg, log).delivered, msg)
  {
    sentTo, futures, log, cur, cloned := 0, [], [], msg, None;
    for i := 0 to |slots|
      invariant msg <= cur && From(Books(msg, log).delivered, msg)
      invariant Under(Books(msg, log), cur, Targets(r, slots[..i])) && sentTo == |Targets(r, slots[..i])|
      invariant if sentTo == 0 then cloned == None && cur == msg else cloned == Some(cur)
      invariant futures == if needReply then Books(msg, log).delivered else []
    {
      TargetsSnoc(r, slots, i);
      if Eligible(r, slots[i]) {
        log, futures := CloneAndDeliver(msg, Targets(r, slots[..i]), log, cur, futures, needReply, slots[i].value.idx);
        cloned := Some(cur + 1);
        cur := cur + 1;
        sentTo := sentTo + 1;
      }
    }
    assert slots[..|slots|] == slots;
  }

  lemma TargetsSnoc(r: Regex, slots: seq<Option<Reactor>>, i: nat)
    requires i < |slots|
    ensures Targets(r, slots[..i + 1]) == Targets(r, slots[..i])
            + (if Eligible(r, slots[i]) then [slots[i].value.idx] else [])
  {
    assert slots[..i + 1][..i] == slots[..i];
  }

  /** The broadcasting regexes: every eligible reactor gets its own copy, once and in order; every copy is delivered or
      freed, none is touched afterwards, and there is one future per delivery exactly when a reply is needed. */
  method Broadcast(r: Regex, slots: seq<Option<Reactor>>, msg: MsgPtr, needReply: bool)
    returns (sentTo: nat, futures: seq<MsgPtr>, log: seq<Action>)
    requires !IsLeastBusy(r)
    ensures var b := Books(msg, log);
            b.sound && b.alive == {} && b.receivers == Targets(r, slots) && sentTo == |b.receivers| == |b.delivered|
    ensures futures == if needReply then Books(msg, log).delivered else []
    ensures Distinct(Books(msg, log).delivered) && From(Books(msg, log).delivered, msg)
  {
    var cur, cloned;
    sentTo, futures, log, cur, cloned := DeliverCopies(r, slots, msg, needReply);
    Snoc(msg, log, Free(cur));
    assert {cur} - {cur} == {};
    assert Increasing(Books(msg, log).delivered, cur);
    if cloned.Some? {
      log := log + [Free(cloned.value)];
    }
    if sentTo == 0 {
      log := log + [Free(msg)];
    }
  }

  /** Slot `k` is eligible and no eligible one has fewer outstanding operations. */
  predicate LeastBusyAt(r: Regex, slots: seq<Option<Reactor>>, k: int) {
    && 0 <= k < |slots| && Eligible(r, slots[k])
    && forall i :: 0 <= i < |slots| && Eligible(r, slots[i]) ==>
         slots[k].value.outstandingOps <= slots[i].value.outstandingOps
  }

  predicate Countable(slots: seq<Option<Reactor>>) {
    forall i :: 0 <= i < |slots| && slots[i].Some? ==> slots[i].value.outstandingOps < INT64_MAX
  }

  /** The walk that looks for the least busy reactor. */
  method FindLeastBusy(r: Regex, slots: seq<Option<Reactor>>) returns (min: Option<nat>)
    requires Countable(slots)
    ensures min.Some? ==> LeastBusyAt(r, slots, min.value)
    ensures min.None? ==> forall i :: 0 <= i < |slots| ==> !Eligible(r, slots[i])
  {
    var minCnt := INT64_MAX;
    min := None;
    for i := 0 to |slots|
      invariant min.Some? ==> min.value < i && Eligible(r, slots[min.value])
      invariant min.Some? ==> slots[min.value].value.outstandingOps == minCnt
      invariant min.None? ==> minCnt == INT64_MAX
      invariant forall k :: 0 <= k < i && Eligible(r, slots[k]) ==> min.Some? && minCnt <= slots[k].value.outstandingOps
    {
      if Eligible(r, slots[i]) {
        if slots[i].value.outstandingOps < minCnt {
          minCnt, min := slots[i].value.outstandingOps, Some(i);
        }
      }
    }
  }

  /** The least-busy regexes: one delivery, to a reactor with the fewest outstanding operations among the eligible ones,
      if and only if there is an eligible one; otherwise the message is freed.  The delivery is made on reaching the
      last slot, whatever that slot holds. */
  method SendToLeastBusy(r: Regex, slots: seq<Option<Reactor>>, msg: MsgPtr, needReply: bool)
    returns (sentTo: nat, futures: seq<MsgPtr>, log: seq<Action>)
    requires IsLeastBusy(r)
    requires Countable(slots)
    ensures var b := Books(msg, log); b.sound && b.alive == {} && sentTo == |b.receivers| == |b.delivered|
    ensures sentTo == if exists i :: 0 <= i < |slots| && Eligible(r, slots[i]) then 1 else 0
    ensures Distinct(Books(msg, log).delivered) && From(Books(msg, log).delivered, msg)
    ensures sentTo == 1 ==> exists k :: LeastBusyAt(r, slots, k) && Books(msg, log).receivers == [slots[k].value.idx]
    ensures futures == if needReply then Books(msg, log).delivered else []
  {
    sentTo, futures, log := 0, [], [];
    assert {msg} - {msg} == {};
    var min := FindLeastBusy(r, slots);
    if |slots| > 0 && min.Some? {
      if needReply { futures := futures + [msg]; }
      HandoverEntered(msg, log, msg, needReply, slots[min.value].value.idx);
      log := log + Handover(msg, needReply, slots[min.value].value.idx);
      sentTo := sentTo + 1;
      assert LeastBusyAt(r, slots, min.value);
    }
    if sentTo == 0 {
      Snoc(msg, log, Free(msg));
      log := log + [Free(msg)];
    }
  }

  /** The slots _pick_reactors walks. */
  function Picked(r: Regex, workers: seq<Option<Reactor>>, all: seq<Option<Reactor>>): seq<Option<Reactor>> {
    if r == AllWorker || r == LeastBusyWorker then workers else all
  }

  /** All regexes together: the count returned is the number of deliveries, each copy of the message ends delivered or
      freed and is not touched after that, and the futures are those of the delivered copies exactly when a reply is
      needed. */
  method MulticastMsg(r: Regex, workers: seq<Option<Reactor>>, all: seq<Option<Reactor>>, pick: nat, msg: MsgPtr,
                      needReply: bool)
    returns (sentTo: nat, futures: seq<MsgPtr>, log: seq<Action>)
    requires r == RandomWorker ==> pick < |workers| && workers[pick].Some?
    requires Countable(workers) && Countable(all)
    ensures var b := Books(msg, log); b.sound && b.alive == {} && sentTo == |b.receivers| == |b.delivered|
    ensures futures == (if needReply then Books(msg, log).delivered else [])
    ensures Distinct(Books(msg, log).delivered) && From(Books(msg, log).delivered, msg)
    ensures r == RandomWorker ==> Books(msg, log).receivers == [workers[pick].value.idx]
    ensures r == AllIo || r == LeastBusyIo || r == AllWorker || r == AllUser || r == AllTloop ==>
              Books(msg, log).receivers == Targets(r, Picked(r, workers, all))
    ensures (r == LeastBusyWorker || r == LeastBusyUser) && sentTo > 0 ==>
              exists k :: LeastBusyAt(r, Picked(r, workers, all), k)
                          && Books(msg, log).receivers == [Picked(r, workers, all)[k].value.idx]
    ensures r != RandomWorker ==>
              (sentTo == 0 <==> forall i :: 0 <= i < |Picked(r, workers, all)| ==>
                      !Eligible(r, Picked(r, workers, all)[i]))
  {
    if r == RandomWorker {
      sentTo, futures, log := SendToRandomWorker(workers, pick, msg, needReply);
    } else if IsLeastBusy(r) {
      sentTo, futures, log := SendToLeastBusy(r, Picked(r, workers, all), msg, needReply);
    } else {
      NoTargetsIff(r, Picked(r, workers, all));
      sentTo, futures, log := Broadcast(r, Picked(r, workers, all), msg, needReply);
    }
  }

  /** The reactor is in the list. */
  predicate Listed(slots: seq<Option<Reactor>>, x: Reactor) {
    Some(x) in slots
  }

  lemma {:induction false} InTargetsIff(r: Regex, slots: seq<Option<Reactor>>, i: nat)
    ensures i in Targets(r, slots) <==> exists x :: Listed(slots, x) && Eligible(r, Some(x)) && x.idx == i
    decreases |slots|
  {
    if slots != [] {
      var front, last := slots[..|slots| - 1], slots[|slots| - 1];
      InTargetsIff(r, front, i);
      assert slots == front + [last];
      forall x ensures Listed(slots, x) <==> Listed(front, x) || last == Some(x) {}
      if Eligible(r, last) && last.value.idx == i { assert Listed(slots, last.value); }
    }
  }

  /** Which reactors a regex addresses.  Only reactors that do I/O count. */
  lemma WhoIsAddressed(x: Reactor)
    requires x.io
    ensures Eligible(AllIo, Some(x)) && Eligible(LeastBusyIo, Some(x))
    ensures Eligible(AllTloop, Some(x)) <==> x.tightLoop
    ensures Eligible(AllWorker, Some(x)) <==> x.worker
    ensures Eligible(LeastBusyWorker, Some(x)) <==> x.worker
    ensures Eligible(RandomWorker, Some(x)) <==> x.worker
    ensures Eligible(AllUser, Some(x)) <==> !x.worker
    ensures Eligible(LeastBusyUser, Some(x)) <==> !x.worker
  {
  }

  /** Who gets a broadcast: everybody for all_io and, since it is not among those that select, for least_busy_io;
      the workers of the worker table for all_worker; otherwise those of all reactors that are users or run a tight
      loop. */
  lemma WhoReceives(workers: seq<Option<Reactor>>, all: seq<Option<Reactor>>, i: nat)
    ensures i in Targets(AllIo, Picked(AllIo, workers, all)) <==> exists x :: Listed(all, x) && x.io && x.idx == i
    ensures i in Targets(LeastBusyIo, Picked(LeastBusyIo, workers, all))
            <==> exists x :: Listed(all, x) && x.io && x.idx == i
    ensures i in Targets(AllWorker, Picked(AllWorker, workers, all))
            <==> exists x :: Listed(workers, x) && x.io && x.worker && x.idx == i
    ensures i in Targets(AllUser, Picked(AllUser, workers, all))
            <==> exists x :: Listed(all, x) && x.io && !x.worker && x.idx == i
    ensures i in Targets(AllTloop, Picked(AllTloop, workers, all))
            <==> exists x :: Listed(all, x) && x.io && x.tightLoop && x.idx == i
  {
    InTargetsIff(AllIo, all, i);
    InTargetsIff(LeastBusyIo, all, i);
    InTargetsIff(AllWorker, workers, i);
    InTargetsIff(AllUser, all, i);
    InTargetsIff(AllTloop, all, i);
  }

  /** The least busy regexes choose among workers of the worker table, or among all reactors that are users. */
  lemma WhoIsLeastBusy(workers: seq<Option<Reactor>>, all: seq<Option<Reactor>>, k: nat)
    ensures LeastBusyAt(LeastBusyWorker, Picked(LeastBusyWorker, workers, all), k) ==>
              k < |workers| && workers[k].Some? && workers[k].value.io && workers[k].value.worker
              && forall x :: Listed(workers, x) && x.io && x.worker ==>
                   workers[k].value.outstandingOps <= x.outstandingOps
    ensures LeastBusyAt(LeastBusyUser, Picked(LeastBusyUser, workers, all), k) ==>
              k < |all| && all[k].Some? && all[k].value.io && !all[k].value.worker
              && forall x :: Listed(all, x) && x.io && !x.worker ==> all[k].value.outstandingOps <= x.outstandingOps
  {
  }

  /** Broadcasting reaches no one exactly when no slot holds an eligible reactor. */
  lemma {:induction false} NoTargetsIff(r: Regex, slots: seq<Option<Reactor>>)
    ensures Targets(r, slots) == [] <==> forall i :: 0 <= i < |slots| ==> !Eligible(r, slots[i])
    decreases |slots|
  {
    if slots != [] {
      var front := slots[..|slots| - 1];
      NoTargetsIff(r, front);
      assert forall i :: 0 <= i < |front| ==> front[i] == slots[i];
      if forall i :: 0 <= i < |front| ==> !Eligible(r, front[i]) {
        assert Eligible(r, slots[|slots| - 1]) || forall i :: 0 <= i < |slots| ==> !Eligible(r, slots[i]);
      }
    }
  }
}
