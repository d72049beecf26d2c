/** One-shot timers of an epoll reactor (src/lib/iomgr_timer.cpp): a heap ordered by expiry, drained by any number of
    threads that release the list's lock around every callback, while others schedule and cancel. */
module OneShotTimer {
  import opened Options

  type Handle = nat
  type Thread = nat

  datatype State = State(
    clock: nat,
    heap: map<Handle, nat>,          // m_timer_list: expiry by handle
    firing: map<Thread, Handle>,     // entries popped, callback not entered yet
    fired: seq<Handle>,              // callbacks entered, in order
    firedAt: seq<nat>,               // and when
    cancelled: set<Handle>,
    due: map<Handle, nat>)           // expiry of everything ever scheduled

  datatype Event =
    | Tick(d: nat)
    | Schedule(h: Handle, after: nat)
    | Cancel(h: Handle)                        // of a live handle
    | Look(t: Thread, top: Option<Handle>)     // lock, read the clock, pop `top` if it has expired, unlock
    | Fire(t: Thread)                          // call back

  const Initial := State(0, map[], map[], [], [], {}, map[])

  /** `h` can be the heap's top. */
  predicate Least(heap: map<Handle, nat>, h: Handle) {
    h in heap && forall g :: g in heap ==> heap[h] <= heap[g]
  }

  predicate NoneExpired(heap: map<Handle, nat>, clock: nat) {
    forall h :: h in heap ==> heap[h] > clock
  }

  predicate Legal(s: State, e: Event) {
    match e
    case Tick(_) => true
    case Schedule(h, _) => h !in s.due
    case Cancel(h) => h in s.heap
    case Look(t, top) =>
      && t !in s.firing
      && if top.Some? then Least(s.heap, top.value) && s.heap[top.value] <= s.clock else NoneExpired(s.heap, s.clock)
    case Fire(t) => t in s.firing
  }

  function Step(s: State, e: Event): State
    requires Legal(s, e)
  {
    match e
    case Tick(d) => s.(clock := s.clock + d)
    case Schedule(h, after) => s.(heap := s.heap[h := s.clock + after], due := s.due[h := s.clock + after])
    case Cancel(h) => s.(heap := s.heap - {h}, cancelled := s.cancelled + {h})
    case Look(t, top) =>
      if top.None? then s else s.(heap := s.heap - {top.value}, firing := s.firing[t := top.value])
    case Fire(t) => s.(firing := s.firing - {t}, fired := s.fired + [s.firing[t]], firedAt := s.firedAt + [s.clock])
  }

  predicate LegalRun(s: State, run: seq<Event>)
    decreases run
  {
    run == [] || (Legal(s, run[0]) && LegalRun(Step(s, run[0]), run[1..]))
  }

  function Exec(s: State, run: seq<Event>): State
    requires LegalRun(s, run)
    decreases run
  {
    if run == [] then s else Exec(Step(s, run[0]), run[1..])
  }

  predicate BeingFired(s: State, h: Handle) {
    exists t :: t in s.firing && s.firing[t] == h
  }

  /** Heap entries are live. */
  ghost predicate HeapOk(s: State) {
    forall h :: h in s.heap ==> h in s.due && s.heap[h] == s.due[h] && h !in s.cancelled && h !in s.fired
  }

  /** Popped entries are due, live, and in one thread's hands. */
  ghost predicate FiringOk(s: State) {
    && (forall t :: t in s.firing ==> s.firing[t] in s.due && s.due[s.firing[t]] <= s.clock)
    && (forall t :: t in s.firing ==> s.firing[t] !in s.heap && s.firing[t] !in s.cancelled && s.firing[t] !in s.fired)
    && (forall t, u :: t in s.firing && u in s.firing && s.firing[t] == s.firing[u] ==> t == u)
  }

  ghost predicate FiredOk(s: State) {
    && |s.fired| == |s.firedAt|
    && (forall i :: 0 <= i < |s.fired| ==>
          s.fired[i] in s.due && s.due[s.fired[i]] <= s.firedAt[i] <= s.clock && s.fired[i] !in s.cancelled)
    && (forall i, j :: 0 <= i < j < |s.fired| ==> s.fired[i] != s.fired[j])
    && s.cancelled <= s.due.Keys
  }

  predicate Accounted(s: State, h: Handle) {
    h in s.heap || BeingFired(s, h) || h in s.fired || h in s.cancelled
  }

  ghost predicate Inv(s: State) {
    HeapOk(s) && FiringOk(s) && FiredOk(s) && forall h :: h in s.due ==> Accounted(s, h)
  }

  lemma StepKeepsHeap(s: State, e: Event)
    requires Inv(s) && Legal(s, e)
    ensures HeapOk(Step(s, e)) && FiredOk(Step(s, e))
  {
  }

  lemma StepKeepsFiring(s: State, e: Event)
    requires HeapOk(s) && FiringOk(s) && Legal(s, e)
    ensures FiringOk(Step(s, e))
  {
    var s' := Step(s, e);
    forall t | t in s'.firing
      ensures s'.firing[t] in s'.due && s'.due[s'.firing[t]] <= s'.clock
      ensures s'.firing[t] !in s'.heap && s'.firing[t] !in s'.cancelled && s'.firing[t] !in s'.fired
    {
      FiringEntry(s, e, t);
    }
    forall t, u | t in s'.firing && u in s'.firing && s'.firing[t] == s'.firing[u] ensures t == u {
      FiringOnce(s, e, t, u);
    }
  }

  lemma FiringOnce(s: State, e: Event, t: Thread, u: Thread)
    requires FiringOk(s) && Legal(s, e) && t in Step(s, e).firing && u in Step(s, e).firing
    requires Step(s, e).firing[t] == Step(s, e).firing[u]
    ensures t == u
  {
    if e.Look? && e.top.Some? {
      assert forall v :: v in s.firing ==> s.firing[v] != e.top.value;
    }
  }

  lemma FiringEntry(s: State, e: Event, t: Thread)
    requires HeapOk(s) && FiringOk(s) && Legal(s, e) && t in Step(s, e).firing
    ensures var s' := Step(s, e);
            && s'.firing[t] in s'.due && s'.due[s'.firing[t]] <= s'.clock
            && s'.firing[t] !in s'.heap && s'.firing[t] !in s'.cancelled && s'.firing[t] !in s'.fired
  {
  }

  lemma StepAccounts(s: State, e: Event, h: Handle)
    requires Inv(s) && Legal(s, e) && h in Step(s, e).due
    ensures Accounted(Step(s, e), h)
  {
    var s' := Step(s, e);
    if h in s.due && BeingFired(s, h) {
      var t :| t in s.firing && s.firing[t] == h;
      if e == Fire(t) {
        assert s'.fired[|s.fired|] == h;
      } else {
        assert t in s'.firing && s'.firing[t] == h;
      }
    } else if e.Look? && e.top == Some(h) {
      assert s'.firing[e.t] == h;
    } else if h in s.due {
      assert Accounted(s, h);
    }
  }

  lemma StepKeepsInv(s: State, e: Event)
    requires Inv(s) && Legal(s, e)
    ensures Inv(Step(s, e))
  {
    StepKeepsHeap(s, e);
    StepKeepsFiring(s, e);
    forall h | h in Step(s, e).due ensures Accounted(Step(s, e), h) { StepAccounts(s, e, h); }
  }

  lemma {:induction false} RunsKeepInv(s: State, run: seq<Event>)
    requires Inv(s) && LegalRun(s, run)
    ensures Inv(Exec(s, run))
    decreases run
  {
    if run != [] {
      StepKeepsInv(s, run[0]);
      RunsKeepInv(Step(s, run[0]), run[1..]);
    }
  }

  ghost predicate Reachable(s: State) {
    exists run :: LegalRun(Initial, run) && s == Exec(Initial, run)
  }

  lemma ReachableInv(s: State)
    requires Reachable(s)
    ensures Inv(s)
  {
    var run :| LegalRun(Initial, run) && s == Exec(Initial, run);
    assert Inv(Initial);
    RunsKeepInv(Initial, run);
  }

  /** However threads interleave: an entry fires at most once, not before it is due, and not if it was cancelled; and no
      entry is lost, it is in the heap, about to fire, fired or cancelled. */
  lemma FiresOnceAndNotEarly(s: State)
    requires Reachable(s)
    ensures |s.fired| == |s.firedAt|
    ensures forall i :: 0 <= i < |s.fired| ==>
              s.fired[i] in s.due && s.due[s.fired[i]] <= s.firedAt[i] && s.fired[i] !in s.cancelled
    ensures forall i, j :: 0 <= i < j < |s.fired| ==> s.fired[i] != s.fired[j]
    ensures forall h :: h in s.due ==> Accounted(s, h)
  {
    ReachableInv(s);
  }

  /** A cancelled entry never fires, whatever follows. */
  lemma {:induction false} CancelledNeverFires(s: State, run: seq<Event>, h: Handle)
    requires Inv(s) && LegalRun(s, run) && h in s.cancelled
    ensures h !in Exec(s, run).fired
    decreases run
  {
    if run != [] {
      StepKeepsInv(s, run[0]);
      CancelledNeverFires(Step(s, run[0]), run[1..], h);
    }
  }

  // ---------------------------------------------------------------------------------------------------------------
  // The same from the events alone

  /** The time that passes over a run. */
  function Elapsed(run: seq<Event>): nat {
    if run == [] then 0 else (if run[0].Tick? then run[0].d else 0) + Elapsed(run[1..])
  }

  lemma {:induction false} ClockIsElapsed(s: State, run: seq<Event>)
    requires LegalRun(s, run)
    ensures Exec(s, run).clock == s.clock + Elapsed(run)
    decreases run
  {
    if run != [] { ClockIsElapsed(Step(s, run[0]), run[1..]); }
  }

  lemma {:induction false} DueStays(s: State, run: seq<Event>, h: Handle)
    requires LegalRun(s, run) && h in s.due
    ensures h in Exec(s, run).due && Exec(s, run).due[h] == s.due[h]
    decreases run
  {
    if run != [] { DueStays(Step(s, run[0]), run[1..], h); }
  }

  /** An entry scheduled by event `i` becomes due exactly its delay after that event. */
  lemma {:induction false} DueFromEvent(s: State, run: seq<Event>, i: nat, h: Handle, after: nat)
    requires LegalRun(s, run) && i < |run| && run[i] == Schedule(h, after)
    ensures h in Exec(s, run).due && Exec(s, run).due[h] == s.clock + Elapsed(run[..i]) + after
    decreases run
  {
    var s' := Step(s, run[0]);
    if i == 0 {
      DueStays(s', run[1..], h);
    } else {
      assert run[..i][1..] == run[1..][..i - 1];
      DueFromEvent(s', run[1..], i - 1, h, after);
    }
  }

  /** Over every run: an entry that has fired was fired when at least its delay had passed since it was scheduled. */
  lemma NotBeforeItsDelay(run: seq<Event>, i: nat, h: Handle, after: nat, j: nat)
    requires LegalRun(Initial, run) && i < |run| && run[i] == Schedule(h, after)
    requires j < |Exec(Initial, run).fired| && Exec(Initial, run).fired[j] == h
    ensures var s := Exec(Initial, run);
            |s.firedAt| == |s.fired| && Elapsed(run[..i]) + after <= s.firedAt[j] <= Elapsed(run)
  {
    assert Inv(Initial);
    RunsKeepInv(Initial, run);
    ClockIsElapsed(Initial, run);
    DueFromEvent(Initial, run, i, h, after);
  }

  /** Only what some event scheduled fires. */
  lemma {:induction false} FiredWasScheduled(s: State, run: seq<Event>, h: Handle)
    requires Inv(s) && LegalRun(s, run) && h in Exec(s, run).fired && h !in s.due
    ensures exists i :: 0 <= i < |run| && run[i].Schedule? && run[i].h == h
    decreases run
  {
    if run != [] && !(run[0].Schedule? && run[0].h == h) {
      StepKeepsInv(s, run[0]);
      FiredWasScheduled(Step(s, run[0]), run[1..], h);
      var i :| 0 <= i < |run[1..]| && run[1..][i].Schedule? && run[1..][i].h == h;
      assert run[i + 1] == run[1..][i];
    }
  }

  lemma {:induction false} CancelMarks(s: State, run: seq<Event>, h: Handle)
    requires LegalRun(s, run) && (h in s.cancelled || exists i :: 0 <= i < |run| && run[i] == Cancel(h))
    ensures h in Exec(s, run).cancelled
    decreases run
  {
    if run != [] {
      if h !in s.cancelled && run[0] != Cancel(h) {
        var i :| 0 <= i < |run| && run[i] == Cancel(h);
        assert run[1..][i - 1] == Cancel(h);
      }
      CancelMarks(Step(s, run[0]), run[1..], h);
    }
  }

  /** What an event of the run has cancelled is not among what has fired at its end. */
  lemma NotAfterCancelEvent(s: State, run: seq<Event>, i: nat, h: Handle)
    requires Inv(s) && LegalRun(s, run) && i < |run| && run[i] == Cancel(h)
    ensures h !in Exec(s, run).fired
  {
    RunsKeepInv(s, run);
    CancelMarks(s, run, h);
  }

  // ---------------------------------------------------------------------------------------------------------------
  // The draining code, run against every interference

  ghost predicate LeadsTo(s: State, s': State) {
    exists run :: LegalRun(s, run) && s' == Exec(s, run)
  }

  lemma {:induction false} ExecSnoc(s: State, run: seq<Event>, e: Event)
    requires LegalRun(s, run) && Legal(Exec(s, run), e)
    ensures LegalRun(s, run + [e]) && Exec(s, run + [e]) == Step(Exec(s, run), e)
    decreases run
  {
    if run == [] {
      assert run + [e] == [e] && [e][1..] == [];
    } else {
      ExecSnoc(Step(s, run[0]), run[1..], e);
      assert (run + [e])[1..] == run[1..] + [e];
    }
  }

  lemma LeadsToStep(s: State, s': State, e: Event)
    requires LeadsTo(s, s') && Inv(s') && Legal(s', e)
    ensures LeadsTo(s, Step(s', e)) && Inv(Step(s', e))
  {
    var run :| LegalRun(s, run) && s' == Exec(s, run);
    ExecSnoc(s, run, e);
    assert LegalRun(s, run + [e]);
    StepKeepsInv(s', e);
  }

  lemma {:induction false} HasLeast(heap: map<Handle, nat>) returns (h: Handle)
    requires heap != map[]
    ensures Least(heap, h)
    decreases |heap.Keys|
  {
    h :| h in heap;
    var rest := heap - {h};
    if rest == map[] {
      forall g | g in heap ensures heap[h] <= heap[g] { assert g == h || g in rest; }
    } else {
      assert rest.Keys == heap.Keys - {h};
      var k := HasLeast(rest);
      forall g | g in heap && g != h ensures rest[k] <= heap[g] { assert g in rest; }
      if heap[k] < heap[h] { h := k; }
    }
  }

  lemma LeastInFuture(heap: map<Handle, nat>, clock: nat, h: Handle)
    requires Least(heap, h) && heap[h] > clock
    ensures NoneExpired(heap, clock)
  {
  }

  class TimerEpoll {
    var clock: nat
    var timerList: map<Handle, nat>
    var firing: map<Thread, Handle>
    var fired: seq<Handle>
    var firedAt: seq<nat>
    var cancelled: set<Handle>
    var due: map<Handle, nat>
    /** What the others will do: a batch for every time the lock is free. */
    var others: seq<seq<Event>>

    function Now(): State
      reads this
    {
      State(clock, timerList, firing, fired, firedAt, cancelled, due)
    }

    /** Other threads schedule, cancel, drain, and time passes. */
    method Interfere(ghost start: State, me: Thread)
      requires Inv(Now()) && LeadsTo(start, Now())
      modifies this
      ensures Inv(Now()) && LeadsTo(start, Now())
      ensures Mine(me) == old(Mine(me))
      ensures others == if old(others) == [] then [] else old(others)[1..]
      ensures old(others) == [] ==> Now() == old(Now())
    {
      if others == [] { return; }
      var batch := others[0];
      others := others[1..];
      for i := 0 to |batch|
        invariant Inv(Now()) && LeadsTo(start, Now()) && others == old(others)[1..] && Mine(me) == old(Mine(me))
      {
        OthersStep(batch[i], start, me);
      }
    }

    /** The entry a thread has popped and not fired yet. */
    function Mine(me: Thread): Option<Handle>
      reads this
    {
      if me in firing then Some(firing[me]) else None
    }

    method OthersStep(e: Event, ghost start: State, me: Thread)
      requires Inv(Now()) && LeadsTo(start, Now())
      modifies this
      ensures Inv(Now()) && LeadsTo(start, Now()) && others == old(others) && Mine(me) == old(Mine(me))
    {
      if Legal(Now(), e) && (e.Look? || e.Fire? ==> e.t != me) {
        LeadsToStep(start, Now(), e);
        Become(Step(Now(), e));
      }
    }

    method Become(s: State)
      modifies this
      ensures Now() == s && others == old(others)
    {
      clock, timerList, firing, fired := s.clock, s.heap, s.firing, s.fired;
      firedAt, cancelled, due := s.firedAt, s.cancelled, s.due;
    }

    /** Pops the expired top under the lock, and calls it back without. */
    method PopAndFire(me: Thread, top: Handle, ghost start: State)
      requires Inv(Now()) && LeadsTo(start, Now()) && Legal(Now(), Look(me, Some(top)))
      modifies this
      ensures Inv(Now()) && LeadsTo(start, Now()) && me !in firing
      ensures |others| < |old(others)| || (|others| == |old(others)| && timerList.Keys == old(timerList).Keys - {top})
    {
      LeadsToStep(start, Now(), Look(me, Some(top)));
      timerList, firing := timerList - {top}, firing[me := top];
      Interfere(start, me);
      FireMine(me, start);
    }

    method FireMine(me: Thread, ghost start: State)
      requires Inv(Now()) && LeadsTo(start, Now()) && me in firing
      modifies this
      ensures Inv(Now()) && LeadsTo(start, Now()) && me !in firing
      ensures |others| < |old(others)| || (old(others) == others == [] && timerList == old(timerList))
    {
      LeadsToStep(start, Now(), Fire(me));
      fired, firedAt, firing := fired + [firing[me]], firedAt + [clock], firing - {me};
      Interfere(start, me);
    }

    /** The non-recurring branch of on_timer_armed.  It returns once a look under the lock found no entry expired,
        whatever the other threads did meanwhile. */
    method OnTimerArmed(me: Thread)
      requires Inv(Now()) && me !in firing
      modifies this
      ensures LeadsTo(old(Now()), Now()) && Inv(Now()) && me !in firing
      ensures NoneExpired(timerList, clock)
    {
      ghost var start := Now();
      assert LegalRun(start, []) && Exec(start, []) == start;
      while timerList != map[]
        invariant Inv(Now()) && LeadsTo(start, Now()) && me !in firing
        decreases |others|, |timerList.Keys|
      {
        ghost var least := HasLeast(timerList);
        assert least in timerList && Least(timerList, least);
        var top :| top in timerList && Least(timerList, top);
        if timerList[top] > clock {
          LeastInFuture(timerList, clock, top);
          break;
        }
        ghost var keys := timerList.Keys;
        PopAndFire(me, top, start);
        assert |keys - {top}| == |keys| - 1;
      }
    }
  }
}
