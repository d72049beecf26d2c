/** Adding a device to, and removing it from, all reactors, waiting or not (src/include/iomgr/io_device.hpp and
    src/lib/interfaces/generic_interface.cpp).  Without waiting, each reactor counts the pending operations down, the
    initiator adds their number, in any order, and whoever brings the counter to zero runs the post callback. */
module DeviceBarrier {

  datatype Op = Dec | Inc(n: nat)

  function After(count: int, op: Op): int {
    match op
    case Dec => count - 1
    case Inc(n) => count + n
  }

  function Value(count: int, ops: seq<Op>): int
    decreases ops
  {
    if ops == [] then count else Value(After(count, ops[0]), ops[1..])
  }

  /** For every operation, whether it leaves the counter at zero and so runs the callback. */
  function Fires(count: int, ops: seq<Op>): (r: seq<bool>)
    ensures |r| == |ops|
    decreases ops
  {
    if ops == [] then [] else [After(count, ops[0]) == 0] + Fires(After(count, ops[0]), ops[1..])
  }

  /** `decs` decrements and, if `inc`, one increment by `n`, in any order. */
  predicate Left(ops: seq<Op>, n: nat, decs: nat, inc: bool)
    decreases ops
  {
    if ops == [] then decs == 0 && !inc
    else
      match ops[0]
      case Dec => decs > 0 && Left(ops[1..], n, decs - 1, inc)
      case Inc(k) => inc && k == n && Left(ops[1..], n, decs, false)
  }

  /** A round over `n` reactors. */
  predicate Round(ops: seq<Op>, n: nat) {
    Left(ops, n, n, true)
  }

  /** Where the increment is. */
  function IncAt(ops: seq<Op>): nat {
    if ops == [] || ops[0].Inc? then 0 else 1 + IncAt(ops[1..])
  }

  lemma {:induction false} LeftLength(ops: seq<Op>, n: nat, decs: nat, inc: bool)
    requires Left(ops, n, decs, inc)
    ensures |ops| == decs + (if inc then 1 else 0) && (inc ==> IncAt(ops) <= decs)
    decreases ops
  {
    if ops != [] {
      if ops[0].Dec? { LeftLength(ops[1..], n, decs - 1, inc); } else { LeftLength(ops[1..], n, decs, false); }
    }
  }

  lemma {:induction false} ValueAfter(count: int, ops: seq<Op>, n: nat, decs: nat, inc: bool)
    requires Left(ops, n, decs, inc)
    ensures Value(count, ops) == count - decs + if inc then n else 0
    decreases ops
  {
    if ops != [] {
      if ops[0].Dec? {
        ValueAfter(count - 1, ops[1..], n, decs - 1, inc);
      } else {
        ValueAfter(count + n, ops[1..], n, decs, false);
      }
    }
  }

  lemma {:induction false} FiresIff(count: int, ops: seq<Op>, n: nat, decs: nat, inc: bool, i: nat)
    requires Left(ops, n, decs, inc) && i < |ops|
    ensures Fires(count, ops)[i] <==> i == if inc && i >= IncAt(ops) then n + count else count - 1
    decreases ops
  {
    if i > 0 {
      if ops[0].Dec? {
        FiresIff(count - 1, ops[1..], n, decs - 1, inc, i - 1);
      } else {
        FiresIff(count + n, ops[1..], n, decs, false, i - 1);
      }
    }
  }

  /** Exactly which operation of a round runs the callback, from whatever value the counter starts: before the increment
      only one that finds a surplus used up, from the increment on only the one that comes as much before the end as the
      counter was short. */
  lemma RoundFiresIff(count: int, ops: seq<Op>, n: nat, i: nat)
    requires Round(ops, n) && i <= n
    ensures |ops| == n + 1 && IncAt(ops) <= n && Value(count, ops) == count
    ensures Fires(count, ops)[i] <==> i == if i < IncAt(ops) then count - 1 else n + count
  {
    LeftLength(ops, n, n, true);
    ValueAfter(count, ops, n, n, true);
    FiresIff(count, ops, n, n, true, i);
  }

  /** From zero, for any number of reactors and any order of the n + 1 operations: the callback runs exactly once, by
      the last of them, and the counter is back at zero. */
  lemma RoundFromZero(ops: seq<Op>, n: nat)
    requires Round(ops, n)
    ensures |ops| == n + 1 && Value(0, ops) == 0
    ensures forall i :: 0 <= i < |ops| ==> Fires(0, ops)[i] == (i == n)
  {
    RoundFiresIff(0, ops, n, 0);
    forall i | 0 <= i < |ops| ensures Fires(0, ops)[i] == (i == n) { RoundFiresIff(0, ops, n, i); }
  }

  /** The last operation of a round runs the callback exactly when the round began at zero. */
  lemma CallbackLastIff(count: int, ops: seq<Op>, n: nat)
    requires Round(ops, n)
    ensures |ops| == n + 1 && Value(count, ops) == count
    ensures Fires(count, ops)[n] <==> count == 0
  {
    RoundFiresIff(count, ops, n, n);
  }

  /** From a debt the callback runs exactly when the initiator counts early enough, and then with as many reactors still
      to come as the counter was short; otherwise it never runs. */
  lemma DebtFiresEarlyIff(count: int, ops: seq<Op>, n: nat)
    requires count < 0 && Round(ops, n)
    ensures |ops| == n + 1
    ensures (exists i :: 0 <= i < |ops| && Fires(count, ops)[i]) <==> IncAt(ops) <= n + count
    ensures forall i :: 0 <= i < |ops| && Fires(count, ops)[i] ==> i == n + count
  {
    RoundFiresIff(count, ops, n, 0);
    forall i | 0 <= i < |ops| ensures Fires(count, ops)[i] <==> i == n + count && IncAt(ops) <= n + count {
      RoundFiresIff(count, ops, n, i);
    }
    if IncAt(ops) <= n + count { assert Fires(count, ops)[n + count]; }
  }

  // ---------------------------------------------------------------------------------------------------------------
  // The device over its life

  datatype Callback = Unset | PostAdd | PostRemove

  /** A waiting call: reactors that have yet to answer it, and what it does when all have. */
  datatype Wait = Wait(decs: nat, post: Callback)

  datatype State = State(
    count: int,                     // thread_op_pending_count
    ready: bool,
    callback: Callback,             // post_add_remove_cb
    decsLeft: nat,                  // reactors that have yet to count down for non-waiting calls
    incLeft: seq<nat>,              // increments not done yet
    waits: seq<Wait>,
    adds: nat,                      // times post_add ran
    removes: nat)                   // times post_remove ran, each closing the descriptor

  datatype Event =
    | Add(n: nat)                   // non-waiting add_io_device reaching n reactors
    | Remove(n: nat)                // non-waiting remove_io_device reaching n reactors
    | AddWaiting(n: nat)            // the same calls, waiting for n reactors
    | RemoveWaiting(n: nat)
    | ReactorDone                   // decrement_pending on one reactor
    | Counted                       // increment_pending by the initiator
    | Answered(i: nat)              // decrement_pending on one reactor of a waiting call
    | WaitOver(i: nat)              // a waiting call goes on and posts

  const Initial := State(0, false, Unset, 0, [], [], 0, 0)

  predicate Initiates(e: Event) {
    e.Add? || e.Remove? || e.AddWaiting? || e.RemoveWaiting?
  }

  predicate Legal(s: State, e: Event) {
    match e
    case ReactorDone => s.decsLeft > 0
    case Counted => s.incLeft != []
    case Answered(i) => i < |s.waits| && s.waits[i].decs > 0
    case WaitOver(i) => i < |s.waits| && s.waits[i].decs == 0
    case _ => true
  }

  function Post(s: State, post: Callback): State {
    match post
    case Unset => s
    case PostAdd => s.(ready := true, adds := s.adds + 1)
    case PostRemove => s.(ready := false, removes := s.removes + 1)
  }

  function Settle(s: State): State {
    if s.count != 0 then s else Post(s, s.callback)
  }

  /** Nothing is counted while no callback is set. */
  function Down(s: State): State {
    if s.callback == Unset then s else Settle(s.(count := s.count - 1))
  }

  function Up(s: State, n: nat): State {
    if s.callback == Unset then s else Settle(s.(count := s.count + n))
  }

  function Begin(s: State, n: nat, cb: Callback): State {
    s.(callback := cb, decsLeft := s.decsLeft + n, incLeft := s.incLeft + [n])
  }

  function BeginWait(s: State, n: nat, post: Callback): State {
    s.(waits := s.waits + [Wait(n, post)])
  }

  function Step(s: State, e: Event): State
    requires Legal(s, e)
  {
    match e
    case Add(n) => Begin(s, n, PostAdd)
    case Remove(n) => if s.ready then Begin(s, n, PostRemove) else s
    case AddWaiting(n) => BeginWait(s, n, PostAdd)
    case RemoveWaiting(n) => if s.ready then BeginWait(s, n, PostRemove) else s
    case ReactorDone => Down(s.(decsLeft := s.decsLeft - 1))
    case Counted => Up(s.(incLeft := s.incLeft[1..]), s.incLeft[0])
    case Answered(i) => Down(s.(waits := s.waits[i := s.waits[i].(decs := s.waits[i].decs - 1)]))
    case WaitOver(i) => Post(s.(waits := s.waits[..i] + s.waits[i + 1..]), s.waits[i].post)
  }

  predicate LegalRun(s: State, run: seq<Event>)
    decreases run
  {
    run == [] || (Legal(s, run[0]) && LegalRun(Step(s, run[0]), run[1..]))
  }

  function Exec(s: State, run: seq<Event>): State
    requires LegalRun(s, run)
    decreases run
  {
    if run == [] then s else Exec(Step(s, run[0]), run[1..])
  }

  predicate InRound(s: State) {
    s.decsLeft > 0 || s.incLeft != []
  }

  predicate Busy(s: State) {
    InRound(s) || s.waits != []
  }

  /** The caller's side: a device is added only while it is out and nothing is under way, and not removed while a
      removal is under way; a waiting call needs in addition that no callback is left over, or no reactor to reach.
      Removing a device that is not in is ignored and needs no care. */
  predicate CarefulCall(s: State, e: Event) {
    match e
    case Add(_) => !Busy(s) && !s.ready
    case Remove(_) => !s.ready || !Busy(s)
    case AddWaiting(n) => !Busy(s) && !s.ready && (s.callback == Unset || n == 0)
    case RemoveWaiting(n) => !s.ready || (!Busy(s) && (s.callback == Unset || n == 0))
    case _ => true
  }

  predicate Careful(s: State, run: seq<Event>)
    requires LegalRun(s, run)
    decreases run
  {
    run == [] || (CarefulCall(s, run[0]) && Careful(Step(s, run[0]), run[1..]))
  }

  /** What callers rely on: posts alternate, so a descriptor is closed once for every time it was added, and the counter
      is back at zero whenever nothing is under way. */
  predicate Good(s: State) {
    s.adds == s.removes + (if s.ready then 1 else 0) && (!Busy(s) ==> s.count == 0)
  }

  /** One call at most is under way; the counter shows exactly how far a round is, and a waiting call does
      not move it. */
  predicate Inv(s: State) {
    && |s.incLeft| + |s.waits| <= 1
    && (s.incLeft == [] ==> s.count == s.decsLeft)
    && (s.incLeft != [] ==> s.count == s.decsLeft - s.incLeft[0] && s.decsLeft <= s.incLeft[0])
    && (InRound(s) ==> s.waits == [] && s.callback != Unset && s.ready == (s.callback == PostRemove))
    && (s.waits != [] ==>
          && (s.callback == Unset || s.waits[0].decs == 0)
          && s.waits[0].post != Unset && s.ready == (s.waits[0].post == PostRemove))
    && s.adds == s.removes + if s.ready then 1 else 0
  }

  lemma CarefulStep(s: State, e: Event)
    requires Inv(s) && Legal(s, e) && CarefulCall(s, e)
    ensures Inv(Step(s, e))
  {
  }

  lemma {:induction false} CarefulRounds(s: State, run: seq<Event>)
    requires Inv(s) && LegalRun(s, run) && Careful(s, run)
    ensures Inv(Exec(s, run))
    decreases run
  {
    if run != [] {
      CarefulStep(s, run[0]);
      CarefulRounds(Step(s, run[0]), run[1..]);
    }
  }

  /** With careful callers calls never overlap, post_add and post_remove alternate, so a descriptor is closed once for
      every time it was added and removed, and a removal requested while an add is under way is ignored. */
  lemma RoundsDoNotOverlap(run: seq<Event>)
    requires LegalRun(Initial, run) && Careful(Initial, run)
    ensures var s := Exec(Initial, run);
            && |s.incLeft| + |s.waits| <= 1 && Good(s)
            && (InRound(s) && s.callback == PostAdd ==> forall n :: Step(s, Remove(n)) == s)
  {
    CarefulRounds(Initial, run);
  }

  // ---------------------------------------------------------------------------------------------------------------
  // And that much care is needed

  /** A run in which calls under way go on and no new one begins. */
  ghost predicate Going(s: State, run: seq<Event>) {
    LegalRun(s, run) && forall e :: e in run ==> !Initiates(e)
  }

  lemma {:induction false} GoingIsCareful(s: State, run: seq<Event>)
    requires Going(s, run)
    ensures Careful(s, run)
    decreases run
  {
    if run != [] {
      assert run[0] in run && forall e :: e in run[1..] ==> e in run;
      GoingIsCareful(Step(s, run[0]), run[1..]);
    }
  }

  lemma {:induction false} ExecAppend(s: State, a: seq<Event>, b: seq<Event>)
    requires LegalRun(s, a) && LegalRun(Exec(s, a), b)
    ensures LegalRun(s, a + b) && Exec(s, a + b) == Exec(Exec(s, a), b)
    decreases a
  {
    if a == [] {
      assert a + b == b;
    } else {
      ExecAppend(Step(s, a[0]), a[1..], b);
      assert (a + b)[1..] == a[1..] + b;
    }
  }

  /** `k` reactors count down, from a counter at exactly `k`. */
  lemma {:induction false} CountDown(s: State, k: nat) returns (run: seq<Event>)
    requires s.callback != Unset && s.count == k && k <= s.decsLeft
    ensures Going(s, run)
    ensures Exec(s, run) == if k == 0 then s else Settle(s.(count := 0, decsLeft := s.decsLeft - k))
    decreases k
  {
    if k == 0 {
      run := [];
    } else {
      var rest := CountDown(Step(s, ReactorDone), k - 1);
      run := [ReactorDone] + rest;
    }
  }

  /** The rest of the round in front: the initiator if it has not counted yet, then `k` reactors. */
  lemma FinishRound(s: State, k: nat, inc: bool) returns (run: seq<Event>)
    requires s.callback != Unset && k <= s.decsLeft
    requires if inc then s.incLeft != [] && s.count == k - s.incLeft[0] else s.count == k > 0
    ensures Going(s, run)
    ensures Exec(s, run)
         == Settle(s.(count := 0, decsLeft := s.decsLeft - k, incLeft := if inc then s.incLeft[1..] else s.incLeft))
  {
    if inc {
      var rest := CountDown(Step(s, Counted), k);
      run := [Counted] + rest;
    } else {
      run := CountDown(s, k);
    }
  }

  /** What all reactors of waiting call `i` do to the counter. */
  lemma {:induction false} AnswerAll(s: State, i: nat) returns (run: seq<Event>)
    requires i < |s.waits| && (s.callback == Unset || s.count <= 0)
    ensures Going(s, run)
    ensures Exec(s, run) == s.(count := s.count - (if s.callback == Unset then 0 else s.waits[i].decs),
                               waits := s.waits[i := s.waits[i].(decs := 0)])
    decreases s.waits[i].decs
  {
    if s.waits[i].decs == 0 {
      run := [];
      assert s.waits[i := s.waits[i]] == s.waits;
    } else {
      var s' := Step(s, Answered(i));
      var rest := AnswerAll(s', i);
      assert s'.waits[i := s'.waits[i].(decs := 0)] == s.waits[i := s.waits[i].(decs := 0)];
      run := [Answered(i)] + rest;
    }
  }

  /** Waiting call `i` from here to its end. */
  lemma FinishWait(s: State, i: nat) returns (run: seq<Event>)
    requires i < |s.waits| && (s.callback == Unset || s.count <= 0)
    ensures Going(s, run)
    ensures Exec(s, run) == Post(s.(count := s.count - (if s.callback == Unset then 0 else s.waits[i].decs),
                                    waits := s.waits[..i] + s.waits[i + 1..]), s.waits[i].post)
  {
    run := AnswerAll(s, i);
    var s1 := Exec(s, run);
    assert s1.waits[..i] + s1.waits[i + 1..] == s.waits[..i] + s.waits[i + 1..];
    assert [WaitOver(i)][1..] == [] && LegalRun(s1, [WaitOver(i)]);
    ExecAppend(s, run, [WaitOver(i)]);
    run := run + [WaitOver(i)];
  }

  /** After a careless non-waiting call, whatever was under way and then the new round go to their end. */
  lemma CarelessRound(s: State, n: nat, cb: Callback) returns (run: seq<Event>)
    requires Inv(s) && cb != Unset && (if cb == PostAdd then Busy(s) || s.ready else s.ready && Busy(s))
    ensures Going(Begin(s, n, cb), run) && !Good(Exec(Begin(s, n, cb), run))
  {
    var b := Begin(s, n, cb);
    if InRound(s) {
      run := FinishRound(b, s.decsLeft, s.incLeft != []);
      var b1 := Exec(b, run);
      assert b1.incLeft == [n];
      var more := FinishRound(b1, n, true);
      ExecAppend(b, run, more);
      run := run + more;
    } else {
      assert b.incLeft == [n];
      run := FinishRound(b, n, true);
      if s.waits != [] {
        var b1 := Exec(b, run);
        var more := FinishWait(b1, 0);
        ExecAppend(b, run, more);
        run := run + more;
      }
    }
  }

  /** After a careless waiting call, likewise: here while a round is open. */
  lemma CarelessWaitInRound(s: State, n: nat, post: Callback) returns (run: seq<Event>)
    requires Inv(s) && post != Unset && (post == PostRemove ==> s.ready) && InRound(s)
    ensures Going(BeginWait(s, n, post), run) && !Good(Exec(BeginWait(s, n, post), run))
  {
    var b := BeginWait(s, n, post);
    assert b.waits == [Wait(n, post)] && b.waits[..0] + b.waits[1..] == [];
    if post == PostAdd && s.ready && n == 0 {
      run := [WaitOver(0)];
      assert run[1..] == [];
    } else {
      run := FinishRound(b, s.decsLeft, s.incLeft != []);
      var b1 := Exec(b, run);
      var more := FinishWait(b1, 0);
      ExecAppend(b, run, more);
      run := run + more;
    }
  }

  /** And here with no round open, but perhaps another waiting call. */
  lemma CarelessWait(s: State, n: nat, post: Callback) returns (run: seq<Event>)
    requires Inv(s) && post != Unset && (post == PostRemove ==> s.ready) && !InRound(s)
    requires s.waits != [] || (post == PostAdd && s.ready) || (s.callback != Unset && n > 0)
    ensures Going(BeginWait(s, n, post), run) && !Good(Exec(BeginWait(s, n, post), run))
  {
    var b, k := BeginWait(s, n, post), |s.waits|;
    assert b.waits[k] == Wait(n, post) && b.waits[..k] == s.waits && b.waits[k + 1..] == [];
    run := FinishWait(b, k);
    if s.waits != [] && !(post == PostAdd && s.ready) {
      var b1 := Exec(b, run);
      assert b1.waits == s.waits;
      var more := FinishWait(b1, 0);
      ExecAppend(b, run, more);
      run := run + more;
    }
  }

  /** The care is exact: a call keeps what callers rely on, over all that careful callers do afterwards, if and only if
      it is careful itself. */
  lemma CareNeededIff(s: State, e: Event)
    requires Inv(s) && Initiates(e)
    ensures CarefulCall(s, e)
            <==> forall run :: LegalRun(Step(s, e), run) && Careful(Step(s, e), run) ==> Good(Exec(Step(s, e), run))
  {
    var s' := Step(s, e);
    if CarefulCall(s, e) {
      CarefulStep(s, e);
      forall run | LegalRun(s', run) && Careful(s', run) ensures Good(Exec(s', run)) { CarefulRounds(s', run); }
    } else {
      var run;
      match e {
        case Add(n) => run := CarelessRound(s, n, PostAdd);
        case Remove(n) => run := CarelessRound(s, n, PostRemove);
        case AddWaiting(n) =>
          if InRound(s) { run := CarelessWaitInRound(s, n, PostAdd); } else { run := CarelessWait(s, n, PostAdd); }
        case RemoveWaiting(n) =>
          if InRound(s) { run := CarelessWaitInRound(s, n, PostRemove); }
                  else { run := CarelessWait(s, n, PostRemove); }
      }
      GoingIsCareful(s', run);
      assert !Good(Exec(s', run));
    }
  }

  /** The `ready` test alone does not keep removals apart: over any number of reactors, a device removed a second time
      before the first removal is through can be closed twice. */
  lemma SecondRemoveClosesTwice(s: State, n: nat) returns (run: seq<Event>)
    requires Inv(s) && s.ready && !Busy(s)
    ensures LegalRun(s, run) && [Remove(n), Remove(n)] <= run
    ensures Exec(s, run).removes == s.removes + 2
  {
    var both := [Remove(n), Remove(n)];
    var s1 := Step(s, Remove(n));
    var s2 := Step(s1, Remove(n));
    assert both[1..] == [Remove(n)] && [Remove(n)][1..] == [];
    assert LegalRun(s2, []) && LegalRun(s1, [Remove(n)]) && Exec(s1, [Remove(n)]) == s2;
    assert LegalRun(s, both) && Exec(s, both) == s2 && s2.incLeft == [n, n];
    var first := FinishRound(s2, n, true);
    var s3 := Exec(s2, first);
    var second := FinishRound(s3, n, true);
    ExecAppend(s2, first, second);
    ExecAppend(s, both, first + second);
    run := both + (first + second);
  }

  // ---------------------------------------------------------------------------------------------------------------
  // Waiting calls and a callback left over

  /** What is left of a waiting removal of a device that is in, once it is through. */
  function Removed(s: State, n: nat): State {
    s.(count := s.count - (if s.callback == Unset then 0 else n), ready := false, removes := s.removes + 1)
  }

  lemma AnsweredOnce(s: State, n: nat, post: Callback)
    requires s.waits == [Wait(n, post)] && n > 0 && (s.callback == Unset || s.count <= 0)
    ensures Step(s, Answered(0))
         == s.(waits := [Wait(n - 1, post)], count := s.count - if s.callback == Unset then 0 else 1)
  {
    assert s.waits[0 := Wait(n - 1, post)] == [Wait(n - 1, post)];
  }

  lemma NothingGoesOn(s: State, run: seq<Event>)
    requires !Busy(s) && Going(s, run)
    ensures run == []
  {
    if run != [] { assert run[0] in run && Initiates(run[0]); }
  }

  /** A waiting removal, nothing else being under way, leaves the counter at zero, in every order of its events, exactly
      when no callback is left over from an earlier non-waiting call or no reactor is reached. */
  lemma WaitingRemovalDebtIff(s: State, n: nat, run: seq<Event>)
    requires Inv(s) && s.ready && !Busy(s)
    requires Going(Step(s, RemoveWaiting(n)), run) && Exec(Step(s, RemoveWaiting(n)), run).waits == []
    ensures var s' := Exec(Step(s, RemoveWaiting(n)), run);
            s' == Removed(s, n) && (s'.count == 0 <==> s.callback == Unset || n == 0)
  {
    var b := Step(s, RemoveWaiting(n));
    assert b.waits == [Wait(n, PostRemove)] && b.(waits := []) == s;
    WaitingCallRun(b, n, PostRemove, run);
  }

  /** `n` reactors answer a waiting call, and it goes on. */
  function Answers(n: nat): seq<Event> {
    if n == 0 then [WaitOver(0)] else [Answered(0)] + Answers(n - 1)
  }

  /** With one waiting call and nothing else under way, only one thing can happen. */
  lemma OnlyAnswer(s: State, n: nat, post: Callback, e: Event)
    requires !InRound(s) && s.waits == [Wait(n, post)] && Legal(s, e) && !Initiates(e)
    ensures e == if n > 0 then Answered(0) else WaitOver(0)
  {
  }

  lemma GoingOn(s: State, run: seq<Event>)
    requires Going(s, run) && run != []
    ensures Legal(s, run[0]) && !Initiates(run[0]) && Going(Step(s, run[0]), run[1..])
    ensures Exec(s, run) == Exec(Step(s, run[0]), run[1..])
  {
    assert run[0] in run && forall e :: e in run[1..] ==> e in run;
  }

  /** What is left of a waiting call once it is through. */
  function Through(s: State, n: nat, post: Callback): State {
    Post(s.(waits := [], count := s.count - if s.callback == Unset then 0 else n), post)
  }

  predicate SamePosts(s: State, s': State) {
    s'.adds == s.adds && s'.removes == s.removes && s'.ready == s.ready
  }

  lemma {:induction false} WaitingCallRun(s: State, n: nat, post: Callback, run: seq<Event>)
    requires !InRound(s) && s.waits == [Wait(n, post)] && (s.callback == Unset || s.count <= 0) && Going(s, run)
    ensures run <= Answers(n)
    ensures if run == Answers(n) then Exec(s, run) == Through(s, n, post)
            else SamePosts(s, Exec(s, run)) && Exec(s, run).waits != []
    decreases n
  {
    if run != [] {
      var rest := run[1..];
      GoingOn(s, run);
      OnlyAnswer(s, n, post, run[0]);
      assert run == [run[0]] + rest;
      if n > 0 {
        AnsweredOnce(s, n, post);
        var s' := s.(waits := [Wait(n - 1, post)], count := s.count - if s.callback == Unset then 0 else 1);
        WaitingCallRun(s', n - 1, post, rest);
        Prefixed(Answered(0), rest, Answers(n - 1));
        assert Through(s', n - 1, post) == Through(s, n, post);
      } else {
        OverAlone(s, post);
        NothingGoesOn(Through(s, 0, post), rest);
      }
    }
  }

  lemma OverAlone(s: State, post: Callback)
    requires !InRound(s) && s.waits == [Wait(0, post)]
    ensures Step(s, WaitOver(0)) == Through(s, 0, post) && !Busy(Through(s, 0, post))
  {
    assert s.waits[..0] + s.waits[1..] == [];
  }

  lemma Prefixed(e: Event, a: seq<Event>, b: seq<Event>)
    requires a <= b
    ensures [e] + a <= [e] + b && ([e] + a == [e] + b <==> a == b)
  {
    if [e] + a == [e] + b { assert a == ([e] + a)[1..] == ([e] + b)[1..] == b; }
  }

  lemma {:induction false} AnswersLength(n: nat)
    ensures |Answers(n)| == n + 1
  {
    if n > 0 { AnswersLength(n - 1); }
  }

  /** A waiting removal closes the descriptor exactly when all the reactors it reached have answered and it has gone
      on, not before and whatever callback is left over. */
  lemma RemovalWaitsForAll(s: State, n: nat, run: seq<Event>)
    requires Inv(s) && s.ready && !Busy(s) && Going(Step(s, RemoveWaiting(n)), run)
    ensures Exec(Step(s, RemoveWaiting(n)), run).removes > s.removes <==> run == Answers(n)
    ensures run <= Answers(n) && |Answers(n)| == n + 1
  {
    var b := Step(s, RemoveWaiting(n));
    assert b.waits == [Wait(n, PostRemove)];
    AnswersLength(n);
    WaitingCallRun(b, n, PostRemove, run);
  }

  /** A waiting add marks the device ready exactly when all the reactors it reached have answered and it has gone on. */
  lemma AddWaitsForAll(s: State, n: nat, run: seq<Event>)
    requires Inv(s) && !s.ready && !Busy(s) && Going(Step(s, AddWaiting(n)), run)
    ensures Exec(Step(s, AddWaiting(n)), run).ready <==> run == Answers(n)
    ensures Exec(Step(s, AddWaiting(n)), run).adds > s.adds <==> run == Answers(n)
    ensures run <= Answers(n) && |Answers(n)| == n + 1
  {
    var b := Step(s, AddWaiting(n));
    assert b.waits == [Wait(n, PostAdd)];
    AnswersLength(n);
    WaitingCallRun(b, n, PostAdd, run);
  }

  /** How often an event occurs in a run. */
  function Times(run: seq<Event>, e: Event): nat {
    if run == [] then 0 else (if run[0] == e then 1 else 0) + Times(run[1..], e)
  }

  /** All that is left of a round happens in the run. */
  predicate WholeRound(s: State, run: seq<Event>) {
    Times(run, ReactorDone) == s.decsLeft && Times(run, Counted) == |s.incLeft|
  }

  function RoundDone(s: State): State {
    Post(s.(count := 0, decsLeft := 0, incLeft := []), s.callback)
  }

  lemma RoundStep(s: State, e: Event)
    requires Inv(s) && InRound(s) && Legal(s, e) && !Initiates(e)
    ensures e == ReactorDone || e == Counted
    ensures var s' := Step(s, e);
            && s'.decsLeft == s.decsLeft - (if e == ReactorDone then 1 else 0)
            && |s'.incLeft| == |s.incLeft| - (if e == Counted then 1 else 0)
            && if InRound(s') then SamePosts(s, s') && RoundDone(s') == RoundDone(s) && s'.waits == s.waits
               else s' == RoundDone(s) && !Busy(s')
  {
  }

  lemma {:induction false} RoundRun(s: State, run: seq<Event>)
    requires Inv(s) && InRound(s) && Going(s, run)
    ensures Times(run, ReactorDone) <= s.decsLeft && Times(run, Counted) <= |s.incLeft|
    ensures if WholeRound(s, run) then Exec(s, run) == RoundDone(s) else SamePosts(s, Exec(s, run))
    decreases run
  {
    if run != [] {
      var s', rest := Step(s, run[0]), run[1..];
      GoingOn(s, run);
      RoundStep(s, run[0]);
      CarefulStep(s, run[0]);
      assert Times(run, ReactorDone) == (if run[0] == ReactorDone then 1 else 0) + Times(rest, ReactorDone);
      assert Times(run, Counted) == (if run[0] == Counted then 1 else 0) + Times(rest, Counted);
      if InRound(s') { RoundRun(s', rest); } else { NothingGoesOn(s', rest); }
    }
  }

  /** Without waiting, the descriptor is closed exactly when every reactor has counted down and the initiator has
      counted, in whatever order. */
  lemma RemovalPostsAfterAll(s: State, n: nat, run: seq<Event>)
    requires Inv(s) && s.ready && !Busy(s) && Going(Step(s, Remove(n)), run)
    ensures Exec(Step(s, Remove(n)), run).removes > s.removes
            <==> Times(run, ReactorDone) == n && Times(run, Counted) == 1
  {
    CarefulStep(s, Remove(n));
    RoundRun(Step(s, Remove(n)), run);
  }

  /** And the device is marked ready exactly then. */
  lemma AddPostsAfterAll(s: State, n: nat, run: seq<Event>)
    requires Inv(s) && !s.ready && !Busy(s) && Going(Step(s, Add(n)), run)
    ensures Exec(Step(s, Add(n)), run).ready <==> Times(run, ReactorDone) == n && Times(run, Counted) == 1
    ensures Exec(Step(s, Add(n)), run).adds > s.adds <==> Times(run, ReactorDone) == n && Times(run, Counted) == 1
  {
    CarefulStep(s, Add(n));
    RoundRun(Step(s, Add(n)), run);
  }

  /** From a debt no larger than the number of reactors, a removal can close the descriptor while as many reactors as
      are owed still have the device. */
  lemma DebtClosesEarly(s: State, n: nat) returns (run: seq<Event>)
    requires !Busy(s) && s.ready && s.count < 0 && -s.count <= n
    ensures Going(Step(s, Remove(n)), run)
    ensures var s' := Exec(Step(s, Remove(n)), run);
            s'.removes == s.removes + 1 && s'.decsLeft == -s.count && s'.callback == PostRemove
  {
    var b := Step(s, Remove(n));
    assert b.incLeft == [n];
    run := FinishRound(b, n + s.count, true);
  }

  /** Every call of the run begins only when the one before is through. */
  predicate Sequential(s: State, run: seq<Event>)
    requires LegalRun(s, run)
    decreases run
  {
    run == [] || ((Initiates(run[0]) ==> !Busy(s)) && Sequential(Step(s, run[0]), run[1..]))
  }

  ghost predicate Reached(s: State) {
    exists run :: LegalRun(Initial, run) && Sequential(Initial, run) && s == Exec(Initial, run)
  }

  lemma {:induction false} SequentialAppend(s: State, a: seq<Event>, b: seq<Event>)
    requires LegalRun(s, a) && LegalRun(Exec(s, a), b) && Sequential(s, a) && Sequential(Exec(s, a), b)
    ensures LegalRun(s, a + b) && Sequential(s, a + b)
    decreases a
  {
    ExecAppend(s, a, b);
    if a == [] {
      assert a + b == b;
    } else {
      var s' := Step(s, a[0]);
      SequentialAppend(s', a[1..], b);
      assert (a + b)[1..] == a[1..] + b && (a + b)[0] == a[0];
      assert Sequential(s', (a + b)[1..]);
    }
  }

  lemma {:induction false} GoingIsSequential(s: State, run: seq<Event>)
    requires Going(s, run)
    ensures Sequential(s, run)
    decreases run
  {
    if run != [] {
      assert run[0] in run && forall e :: e in run[1..] ==> e in run;
      GoingIsSequential(Step(s, run[0]), run[1..]);
    }
  }

  /** One more call from a state with nothing under way, and then whatever the run says. */
  lemma ReachedMore(s: State, e: Event, run: seq<Event>)
    requires Reached(s) && !Busy(s) && Initiates(e) && Going(Step(s, e), run)
    ensures Reached(Exec(Step(s, e), run))
  {
    var before :| LegalRun(Initial, before) && Sequential(Initial, before) && s == Exec(Initial, before);
    GoingIsSequential(Step(s, e), run);
    assert ([e] + run)[1..] == run;
    SequentialAppend(Initial, before, [e] + run);
    ExecAppend(Initial, before, [e] + run);
    assert LegalRun(Initial, before + ([e] + run));
  }

  /** Reactors counting down from zero or less only add to the debt. */
  lemma {:induction false} CountBelow(s: State) returns (run: seq<Event>)
    requires s.callback != Unset && s.count <= 0
    ensures Going(s, run) && Exec(s, run) == s.(count := s.count - s.decsLeft, decsLeft := 0)
    decreases s.decsLeft
  {
    if s.decsLeft == 0 {
      run := [];
    } else {
      var rest := CountBelow(Step(s, ReactorDone));
      run := [ReactorDone] + rest;
    }
  }

  /** A device added without waiting and removed with waiting owes one count for every reactor; when it is then added
      and removed without waiting, each call made only after the one before is through, it is marked ready before any
      reactor has it and closed while all of them still do. */
  lemma StaleCallbackClosesEarly(n: nat) returns (early: State, closed: State)
    requires n > 0
    ensures Reached(closed) && closed.removes == 2 && closed.decsLeft == n && closed.callback == PostRemove
    ensures Reached(early) && early.ready && early.decsLeft == n && early.callback == PostAdd
  {
    assert LegalRun(Initial, []) && Exec(Initial, []) == Initial;
    var b := Step(Initial, Add(n));
    var run := FinishRound(b, n, true);
    ReachedMore(Initial, Add(n), run);
    var added := Exec(b, run);
    b := Step(added, RemoveWaiting(n));
    run := FinishWait(b, 0);
    assert b.waits[..0] + b.waits[1..] == [];
    ReachedMore(added, RemoveWaiting(n), run);
    var owing := Exec(b, run);
    assert owing.count + n == 0 && !Busy(owing);
    early, closed := CloseEarly(owing, n);
  }

  lemma CloseEarly(s: State, n: nat) returns (early: State, closed: State)
    requires Reached(s) && !Busy(s) && n > 0 && s.count + n == 0 && s.removes == 1
    ensures Reached(closed) && closed.removes == 2 && closed.decsLeft == n && closed.callback == PostRemove
    ensures Reached(early) && early.ready && early.decsLeft == n && early.callback == PostAdd
  {
    var b := Step(s, Add(n));
    assert b.incLeft == [n];
    var run := FinishRound(b, 0, true);
    ReachedMore(s, Add(n), run);
    early := Exec(b, run);
    var more := CountBelow(early);
    ExecAppend(b, run, more);
    ReachedMore(s, Add(n), run + more);
    var again := Exec(b, run + more);
    run := DebtClosesEarly(again, n);
    ReachedMore(again, Remove(n), run);
    closed := Exec(Step(again, Remove(n)), run);
  }

  /** The device object, with the calls on it.  What is still to come of calls under way is ghost. */
  class IODevice {
    var threadOpPendingCount: int
    var ready: bool
    var postAddRemoveCb: Callback
    var adds: nat
    var closes: nat
    ghost var decsLeft: nat
    ghost var incLeft: seq<nat>
    ghost var waits: seq<Wait>

    ghost function Now(): State
      reads this
    {
      State(threadOpPendingCount, ready, postAddRemoveCb, decsLeft, incLeft, waits, adds, closes)
    }

    constructor ()
      ensures Now() == Initial && Inv(Now())
    {
      threadOpPendingCount, ready, postAddRemoveCb, adds, closes := 0, false, Unset, 0, 0;
      decsLeft, incLeft, waits := 0, [], [];
    }

    /** post_add marks the device ready, post_remove closes it and marks it not ready. */
    method RunPost(post: Callback)
      modifies this
      ensures Now() == Post(old(Now()), post)
    {
      match post {
        case Unset =>
        case PostAdd =>
          ready := true;
          adds := adds + 1;
        case PostRemove =>
          closes := closes + 1;
          ready := false;
      }
    }

    method DecrementPending()
      modifies this
      ensures Now() == Down(old(Now())) && (old(postAddRemoveCb) == Unset ==> Now() == old(Now()))
    {
      if postAddRemoveCb != Unset {
        threadOpPendingCount := threadOpPendingCount - 1;
        if threadOpPendingCount == 0 { RunPost(postAddRemoveCb); }
      }
    }

    method IncrementPending(count: nat)
      modifies this
      ensures Now() == Up(old(Now()), count) && (old(postAddRemoveCb) == Unset ==> Now() == old(Now()))
    {
      if postAddRemoveCb != Unset {
        threadOpPendingCount := threadOpPendingCount + count;
        if threadOpPendingCount == 0 { RunPost(postAddRemoveCb); }
      }
    }

    /** The operations of a whole round, arriving in any order. */
    method RunRound(ops: seq<Op>, n: nat)
      requires Round(ops, n) && postAddRemoveCb != Unset && threadOpPendingCount == 0
      modifies this
      ensures threadOpPendingCount == 0 && adds + closes == old(adds + closes) + 1
      ensures ready == (postAddRemoveCb == PostAdd) && postAddRemoveCb == old(postAddRemoveCb)
    {
      RoundFromZero(ops, n);
      var i := 0;
      while i < |ops|
        invariant i <= |ops| && postAddRemoveCb == old(postAddRemoveCb)
        invariant Value(threadOpPendingCount, ops[i..]) == 0
        invariant Fires(threadOpPendingCount, ops[i..]) == Fires(0, ops)[i..]
        invariant adds + closes == old(adds + closes) + if i == |ops| then 1 else 0
        invariant i == |ops| ==> ready == (postAddRemoveCb == PostAdd)
      {
        assert ops[i..][1..] == ops[i + 1..] && ops[i..][0] == ops[i];
        ghost var here := Fires(threadOpPendingCount, ops[i..]);
        assert here[0] == Fires(0, ops)[i];
        match ops[i] {
          case Dec => DecrementPending();
          case Inc(k) => IncrementPending(k);
        }
        assert here[1..] == Fires(threadOpPendingCount, ops[i + 1..]);
        i := i + 1;
      }
      assert ops[|ops|..] == [];
    }

    /** add_io_device up to the messages being on their way to `n` reactors. */
    method AddIoDevice(n: nat, waitToAdd: bool)
      modifies this
      ensures Now() == Step(old(Now()), if waitToAdd then AddWaiting(n) else Add(n))
      ensures Inv(old(Now())) && CarefulCall(old(Now()), if waitToAdd then AddWaiting(n) else Add(n)) ==> Inv(Now())
    {
      ghost var e := if waitToAdd then AddWaiting(n) else Add(n);
      if Inv(Now()) && CarefulCall(Now(), e) { CarefulStep(Now(), e); }
      if waitToAdd {
        waits := waits + [Wait(n, PostAdd)];
      } else {
        postAddRemoveCb := PostAdd;
        decsLeft, incLeft := decsLeft + n, incLeft + [n];
      }
    }

    /** remove_io_device likewise; a device that is not ready is left alone. */
    method RemoveIoDevice(n: nat, waitToRemove: bool) returns (ignored: bool)
      modifies this
      ensures ignored <==> !old(ready)
      ensures Now() == Step(old(Now()), if waitToRemove then RemoveWaiting(n) else Remove(n))
      ensures Inv(old(Now())) ==>
                (CarefulCall(old(Now()), if waitToRemove then RemoveWaiting(n) else Remove(n)) ==> Inv(Now()))
    {
      ghost var e := if waitToRemove then RemoveWaiting(n) else Remove(n);
      if Inv(Now()) && CarefulCall(Now(), e) { CarefulStep(Now(), e); }
      if !ready { return true; }
      if waitToRemove {
        waits := waits + [Wait(n, PostRemove)];
      } else {
        postAddRemoveCb := PostRemove;
        decsLeft, incLeft := decsLeft + n, incLeft + [n];
      }
      return false;
    }

    /** A reactor has added or removed the device for a call that does not wait. */
    method OnReactor()
      requires decsLeft > 0
      modifies this
      ensures Now() == Step(old(Now()), ReactorDone) && (Inv(old(Now())) ==> Inv(Now()))
    {
      if Inv(Now()) { CarefulStep(Now(), ReactorDone); }
      decsLeft := decsLeft - 1;
      DecrementPending();
    }

    /** The initiator of such a call adds the number of reactors reached. */
    method CountReactors(count: nat)
      requires incLeft != [] && incLeft[0] == count
      modifies this
      ensures Now() == Step(old(Now()), Counted) && (Inv(old(Now())) ==> Inv(Now()))
    {
      if Inv(Now()) { CarefulStep(Now(), Counted); }
      incLeft := incLeft[1..];
      IncrementPending(count);
    }

    /** A reactor has answered waiting call `i`. */
    method OnReactorWaiting(ghost i: nat)
      requires Legal(Now(), Answered(i))
      modifies this
      ensures Now() == Step(old(Now()), Answered(i)) && (Inv(old(Now())) ==> Inv(Now()))
    {
      if Inv(Now()) { CarefulStep(Now(), Answered(i)); }
      waits := waits[i := waits[i].(decs := waits[i].decs - 1)];
      DecrementPending();
    }

    /** The end of waiting call `i`, which posts by itself. */
    method AllAnswered(ghost i: nat, post: Callback)
      requires Legal(Now(), WaitOver(i)) && waits[i].post == post
      modifies this
      ensures Now() == Step(old(Now()), WaitOver(i)) && (Inv(old(Now())) ==> Inv(Now()))
    {
      if Inv(Now()) { CarefulStep(Now(), WaitOver(i)); }
      waits := waits[..i] + waits[i + 1..];
      RunPost(post);
    }
  }
}
