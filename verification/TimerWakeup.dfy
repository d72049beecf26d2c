/** What wakes a one-shot timer of a thread (src/lib/iomgr_timer.cpp): all of them share one timer fd, which every
    schedule sets anew and nothing else sets.  A wake-up reads the fd and fires what has expired by then; callbacks may
    schedule and cancel while that goes on, and time passes. */
module TimerWakeup {
  import T = OneShotTimer
  import opened Options

  type Handle = T.Handle

  datatype State = State(
    clock: nat,
    heap: map<Handle, nat>,     // m_timer_list: expiry by handle
    armed: Option<nat>,         // when the timer fd becomes readable
    draining: bool,             // inside on_timer_armed
    fired: seq<Handle>,
    firedAt: seq<nat>,
    cancelled: set<Handle>)

  datatype Event =
    | Tick(d: nat)
    | Schedule(h: Handle, after: nat)
    | Cancel(h: Handle)
    | ReadFd              // the fd is readable: one expiration, and the drain begins
    | Fire(h: Handle)     // pop the expired top and call it back
    | Finish              // the drain ends

  const Initial := State(0, map[], None, false, [], [], {})

  predicate Legal(s: State, e: Event) {
    match e
    case Tick(_) => true
    case Schedule(h, _) => h !in s.heap && h !in s.fired && h !in s.cancelled
    case Cancel(h) => h in s.heap
    case ReadFd => !s.draining && s.armed.Some? && s.armed.value <= s.clock
    case Fire(h) => s.draining && T.Least(s.heap, h) && s.heap[h] <= s.clock
    case Finish => s.draining && T.NoneExpired(s.heap, s.clock)
  }

  /** Setting a timer fd to zero disarms it. */
  function Armed(clock: nat, after: nat): Option<nat> {
    if after == 0 then None else Some(clock + after)
  }

  function Step(s: State, e: Event): State
    requires Legal(s, e)
  {
    match e
    case Tick(d) => s.(clock := s.clock + d)
    case Schedule(h, after) => s.(heap := s.heap[h := s.clock + after], armed := Armed(s.clock, after))
    case Cancel(h) => s.(heap := s.heap - {h}, cancelled := s.cancelled + {h})
    case ReadFd => s.(armed := None, draining := true)
    case Fire(h) => s.(heap := s.heap - {h}, fired := s.fired + [h], firedAt := s.firedAt + [s.clock])
    case Finish => s.(draining := false)
  }

  predicate LegalRun(s: State, run: seq<Event>)
    decreases run
  {
    run == [] || (Legal(s, run[0]) && LegalRun(Step(s, run[0]), run[1..]))
  }

  function Exec(s: State, run: seq<Event>): State
    requires LegalRun(s, run)
    decreases run
  {
    if run == [] then s else Exec(Step(s, run[0]), run[1..])
  }

  /** No entry fires twice or after it was cancelled. */
  ghost predicate Inv(s: State) {
    && (forall h :: h in s.heap ==> h !in s.fired && h !in s.cancelled)
    && (forall h :: h in s.fired ==> h !in s.cancelled)
    && (forall i, j :: 0 <= i < j < |s.fired| ==> s.fired[i] != s.fired[j])
    && |s.fired| == |s.firedAt|
  }

  lemma StepKeepsInv(s: State, e: Event)
    requires Inv(s) && Legal(s, e)
    ensures Inv(Step(s, e))
  {
  }

  lemma {:induction false} RunsKeepInv(s: State, run: seq<Event>)
    requires Inv(s) && LegalRun(s, run)
    ensures Inv(Exec(s, run))
    decreases run
  {
    if run != [] {
      StepKeepsInv(s, run[0]);
      RunsKeepInv(Step(s, run[0]), run[1..]);
    }
  }

  // ---------------------------------------------------------------------------------------------------------------
  // When entries fire, from the events alone

  /** The time that passes over a run. */
  function Elapsed(run: seq<Event>): nat {
    if run == [] then 0 else (if run[0].Tick? then run[0].d else 0) + Elapsed(run[1..])
  }

  lemma {:induction false} ClockIsElapsed(s: State, run: seq<Event>)
    requires LegalRun(s, run)
    ensures Exec(s, run).clock == s.clock + Elapsed(run)
    decreases run
  {
    if run != [] { ClockIsElapsed(Step(s, run[0]), run[1..]); }
  }

  /** The entry is due at `v`: it is in the heap with that expiry, was fired no earlier, or was cancelled. */
  ghost predicate DueAt(s: State, h: Handle, v: nat) {
    && (h in s.heap || h in s.fired || h in s.cancelled)
    && (h in s.heap ==> s.heap[h] == v)
    && forall j :: 0 <= j < |s.fired| && j < |s.firedAt| && s.fired[j] == h ==> v <= s.firedAt[j] <= s.clock
  }

  lemma {:induction false} DueAtStays(s: State, run: seq<Event>, h: Handle, v: nat)
    requires Inv(s) && LegalRun(s, run) && DueAt(s, h, v)
    ensures DueAt(Exec(s, run), h, v)
    decreases run
  {
    if run != [] {
      StepKeepsInv(s, run[0]);
      assert DueAt(Step(s, run[0]), h, v);
      DueAtStays(Step(s, run[0]), run[1..], h, v);
    }
  }

  lemma {:induction false} DueFromEvent(s: State, run: seq<Event>, i: nat, h: Handle, after: nat)
    requires Inv(s) && LegalRun(s, run) && i < |run| && run[i] == Schedule(h, after)
    ensures DueAt(Exec(s, run), h, s.clock + Elapsed(run[..i]) + after)
    decreases run
  {
    var s' := Step(s, run[0]);
    StepKeepsInv(s, run[0]);
    if i == 0 {
      DueAtStays(s', run[1..], h, s.clock + after);
    } else {
      assert run[..i][1..] == run[1..][..i - 1];
      DueFromEvent(s', run[1..], i - 1, h, after);
    }
  }

  /** Over every run: an entry that has fired was fired when at least its delay had passed since it was scheduled. */
  lemma NotBeforeItsDelay(run: seq<Event>, i: nat, h: Handle, after: nat, j: nat)
    requires LegalRun(Initial, run) && i < |run| && run[i] == Schedule(h, after)
    requires j < |Exec(Initial, run).fired| && Exec(Initial, run).fired[j] == h
    ensures var s := Exec(Initial, run);
            |s.firedAt| == |s.fired| && Elapsed(run[..i]) + after <= s.firedAt[j] <= Elapsed(run)
  {
    RunsKeepInv(Initial, run);
    ClockIsElapsed(Initial, run);
    DueFromEvent(Initial, run, i, h, after);
  }

  lemma {:induction false} CancelMarks(s: State, run: seq<Event>, h: Handle)
    requires LegalRun(s, run) && (h in s.cancelled || exists i :: 0 <= i < |run| && run[i] == Cancel(h))
    ensures h in Exec(s, run).cancelled
    decreases run
  {
    if run != [] {
      if h !in s.cancelled && run[0] != Cancel(h) {
        var i :| 0 <= i < |run| && run[i] == Cancel(h);
        assert run[1..][i - 1] == Cancel(h);
      }
      CancelMarks(Step(s, run[0]), run[1..], h);
    }
  }

  /** What an event of the run has cancelled is not among what has fired at its end. */
  lemma NotAfterCancelEvent(s: State, run: seq<Event>, i: nat, h: Handle)
    requires Inv(s) && LegalRun(s, run) && i < |run| && run[i] == Cancel(h)
    ensures h !in Exec(s, run).fired
  {
    RunsKeepInv(s, run);
    CancelMarks(s, run, h);
  }

  /** A run in which nothing more is scheduled. */
  ghost predicate Quiet(s: State, run: seq<Event>) {
    LegalRun(s, run) && forall e :: e in run ==> !e.Schedule?
  }

  /** Nothing is under way and nothing will wake the thread. */
  predicate AtRest(s: State) {
    !s.draining && s.armed == None
  }

  /** The entry is due by the time the wake-up, or the drain under way, looks at the clock. */
  predicate Covered(s: State, h: Handle)
    requires h in s.heap
  {
    || (s.draining && s.heap[h] <= s.clock)
    || (s.armed.Some? && (s.heap[h] <= s.armed.value || s.heap[h] <= s.clock))
  }

  // ---------------------------------------------------------------------------------------------------------------
  // Which entries are sure to fire

  lemma CoveredStays(s: State, e: Event, h: Handle)
    requires Legal(s, e) && !e.Schedule? && h in s.heap && Covered(s, h) && h in Step(s, e).heap
    ensures Covered(Step(s, e), h)
  {
  }

  lemma {:induction false} CoveredFires(s: State, run: seq<Event>, h: Handle)
    requires Quiet(s, run) && h in s.heap && Covered(s, h) && AtRest(Exec(s, run))
    ensures h in Exec(s, run).fired || h in Exec(s, run).cancelled
    decreases run
  {
    if run != [] {
      var e, s' := run[0], Step(s, run[0]);
      assert e in run && forall f :: f in run[1..] ==> f in run;
      if h in s'.heap {
        CoveredStays(s, e, h);
        CoveredFires(s', run[1..], h);
      } else {
        assert h in s'.fired || h in s'.cancelled;
        OutcomesStay(s', run[1..], h);
      }
    }
  }

  lemma {:induction false} OutcomesStay(s: State, run: seq<Event>, h: Handle)
    requires LegalRun(s, run)
    ensures h in s.fired ==> h in Exec(s, run).fired
    ensures h in s.cancelled ==> h in Exec(s, run).cancelled
    decreases run
  {
    if run != [] { OutcomesStay(Step(s, run[0]), run[1..], h); }
  }

  lemma {:induction false} ExecAppend(s: State, a: seq<Event>, b: seq<Event>)
    requires Quiet(s, a) && Quiet(Exec(s, a), b)
    ensures Quiet(s, a + b) && Exec(s, a + b) == Exec(Exec(s, a), b)
    decreases a
  {
    if a == [] {
      assert a + b == b;
    } else {
      assert forall f :: f in a[1..] ==> f in a;
      ExecAppend(Step(s, a[0]), a[1..], b);
      assert (a + b)[1..] == a[1..] + b;
    }
  }

  lemma QuietOne(s: State, e: Event)
    requires Legal(s, e) && !e.Schedule?
    ensures Quiet(s, [e]) && Exec(s, [e]) == Step(s, e)
  {
    assert [e][1..] == [];
  }

  /** Whatever fired between two states did so at the clock of the first. */
  ghost predicate FiredNow(s: State, s': State) {
    && s.fired <= s'.fired && s.firedAt <= s'.firedAt
    && |s'.fired| - |s.fired| == |s'.firedAt| - |s.firedAt|
    && forall i :: |s.firedAt| <= i < |s'.firedAt| ==> s'.firedAt[i] == s.clock
  }

  lemma FiredFirst(s: State, h: Handle, s': State)
    requires h in s.heap && s.heap[h] <= s.clock
    requires var s1 := s.(heap := s.heap - {h}, fired := s.fired + [h], firedAt := s.firedAt + [s.clock]);
             && FiredNow(s1, s') && s'.heap == (map g | g in s1.heap && s1.heap[g] > s1.clock :: s1.heap[g])
             && forall g :: g in s1.heap && s1.heap[g] <= s1.clock ==> g in s'.fired
    ensures FiredNow(s, s') && s'.heap == (map g | g in s.heap && s.heap[g] > s.clock :: s.heap[g])
    ensures forall g :: g in s.heap && s.heap[g] <= s.clock ==> g in s'.fired
  {
    assert (s.fired + [h])[|s.fired|] == h;
    assert s'.fired[|s.fired|] == h;
  }

  /** A drain left alone fires exactly what has expired. */
  lemma {:induction false} DrainAlone(s: State) returns (run: seq<Event>)
    requires s.draining
    ensures Quiet(s, run)
    ensures var s' := Exec(s, run);
            && !s'.draining && s'.clock == s.clock && s'.armed == s.armed && s'.cancelled == s.cancelled
            && s'.heap == (map h | h in s.heap && s.heap[h] > s.clock :: s.heap[h])
            && (forall h :: h in s.heap && s.heap[h] <= s.clock ==> h in s'.fired)
            && FiredNow(s, s')
    decreases |s.heap.Keys|
  {
    if T.NoneExpired(s.heap, s.clock) {
      run := [Finish];
      QuietOne(s, Finish);
    } else {
      var h := T.HasLeast(s.heap);
      var s1 := Step(s, Fire(h));
      assert s1.heap.Keys == s.heap.Keys - {h};
      var rest := DrainAlone(s1);
      QuietOne(s, Fire(h));
      ExecAppend(s, [Fire(h)], rest);
      run := [Fire(h)] + rest;
      FiredFirst(s, h, Exec(s, run));
    }
  }

  /** Left alone for long enough, the thread comes to rest, and an entry nothing covers is still there. */
  lemma RestReached(s: State) returns (run: seq<Event>)
    ensures Quiet(s, run) && AtRest(Exec(s, run)) && Exec(s, run).cancelled == s.cancelled
    ensures forall h :: h in s.heap && !Covered(s, h) ==> h in Exec(s, run).heap
  {
    run := [];
    if s.draining { run := DrainAlone(s); }
    var s1 := Exec(s, run);
    if s1.armed.Some? {
      var woken := WakeAlone(s1);
      ExecAppend(s, run, woken);
      run := run + woken;
    }
  }

  lemma WakeAlone(s: State) returns (run: seq<Event>)
    requires !s.draining && s.armed.Some?
    ensures Quiet(s, run) && AtRest(Exec(s, run)) && Exec(s, run).cancelled == s.cancelled
    ensures forall h :: h in s.heap && s.heap[h] > s.clock && s.heap[h] > s.armed.value ==> h in Exec(s, run).heap
  {
    var d := if s.armed.value > s.clock then s.armed.value - s.clock else 0;
    var s1 := Step(s, Tick(d));
    var s2 := Step(s1, ReadFd);
    var drain := DrainAlone(s2);
    QuietOne(s, Tick(d));
    QuietOne(s1, ReadFd);
    ExecAppend(s1, [ReadFd], drain);
    ExecAppend(s, [Tick(d)], [ReadFd] + drain);
    run := [Tick(d)] + ([ReadFd] + drain);
  }

  /** If nothing more is scheduled, the entry has fired or was cancelled whenever the thread comes to rest. */
  ghost predicate SureToFire(s: State, h: Handle) {
    forall run :: Quiet(s, run) && AtRest(Exec(s, run)) ==> h in Exec(s, run).fired || h in Exec(s, run).cancelled
  }

  /** An entry is sure to fire exactly when the armed time covers it. */
  lemma SureToFireIff(s: State, h: Handle)
    requires Inv(s) && h in s.heap
    ensures SureToFire(s, h) <==> Covered(s, h)
  {
    if Covered(s, h) {
      forall run | Quiet(s, run) && AtRest(Exec(s, run))
        ensures h in Exec(s, run).fired || h in Exec(s, run).cancelled
      {
        CoveredFires(s, run, h);
      }
    } else {
      var run := RestReached(s);
      RunsKeepInv(s, run);
      assert h in Exec(s, run).heap;
    }
  }

  /** An entry left in the heap of a thread at rest stays there until it is cancelled or something new is scheduled. */
  lemma {:induction false} RestIsForever(s: State, run: seq<Event>)
    requires AtRest(s) && Quiet(s, run)
    ensures AtRest(Exec(s, run)) && Exec(s, run).fired == s.fired
    decreases run
  {
    if run != [] {
      assert run[0] in run && forall f :: f in run[1..] ==> f in run;
      RestIsForever(Step(s, run[0]), run[1..]);
    }
  }

  /** A schedule leaves another entry sure to fire exactly when the entry is due no later than the new one or is about
      to be fired anyway; and the new one is itself sure to fire unless its delay is zero and no drain is under way. */
  lemma ScheduleCoversIff(s: State, h: Handle, after: nat, g: Handle)
    requires Inv(s) && Legal(s, Schedule(h, after)) && g in s.heap
    ensures var s' := Step(s, Schedule(h, after));
            && (SureToFire(s', g) <==>
                  (s.draining && s.heap[g] <= s.clock) || (after > 0 && s.heap[g] <= s.clock + after))
            && (SureToFire(s', h) <==> s.draining || after > 0)
  {
    var s' := Step(s, Schedule(h, after));
    StepKeepsInv(s, Schedule(h, after));
    SureToFireIff(s', g);
    SureToFireIff(s', h);
  }

  /** Nothing fires before the time armed for last. */
  lemma {:induction false} NotBeforeArmed(s: State, run: seq<Event>)
    requires Inv(s) && Quiet(s, run) && !s.draining && s.armed.Some?
    ensures Inv(Exec(s, run))
    ensures forall i :: |s.fired| <= i < |Exec(s, run).fired| ==> s.armed.value <= Exec(s, run).firedAt[i]
    decreases run
  {
    if run != [] {
      assert run[0] in run && forall f :: f in run[1..] ==> f in run;
      StepKeepsInv(s, run[0]);
      if run[0].ReadFd? {
        NotBeforeClock(Step(s, run[0]), run[1..]);
      } else {
        NotBeforeArmed(Step(s, run[0]), run[1..]);
      }
    }
  }

  lemma {:induction false} NotBeforeClock(s: State, run: seq<Event>)
    requires Inv(s) && LegalRun(s, run)
    ensures Inv(Exec(s, run)) && s.clock <= Exec(s, run).clock
    ensures s.fired <= Exec(s, run).fired && s.firedAt <= Exec(s, run).firedAt
    ensures forall i :: |s.fired| <= i < |Exec(s, run).fired| ==> s.clock <= Exec(s, run).firedAt[i]
    decreases run
  {
    if run != [] {
      StepKeepsInv(s, run[0]);
      NotBeforeClock(Step(s, run[0]), run[1..]);
    }
  }

  /** A shorter timer strands every longer one: the thread can come to rest with the longer in the heap, and then it
      never fires. */
  lemma ShorterStrandsLonger(s: State, h: Handle, after: nat, g: Handle) returns (run: seq<Event>)
    requires Inv(s) && Legal(s, Schedule(h, after)) && g in s.heap && s.clock + after < s.heap[g]
    ensures var s' := Step(s, Schedule(h, after));
            && Quiet(s', run) && AtRest(Exec(s', run))
            && forall more :: Quiet(Exec(s', run), more) ==> g !in Exec(Exec(s', run), more).fired
  {
    var s' := Step(s, Schedule(h, after));
    run := RestReached(s');
    var rest := Exec(s', run);
    StepKeepsInv(s, Schedule(h, after));
    RunsKeepInv(s', run);
    assert !Covered(s', g);
    forall more | Quiet(rest, more) ensures g !in Exec(rest, more).fired { RestIsForever(rest, more); }
  }

  /** `g` fires at time `t` on the way from `s` to `s'`. */
  ghost predicate FiresAt(s: State, s': State, g: Handle, t: nat) {
    exists i :: |s.fired| <= i < |s'.fired| && i < |s'.firedAt| && s'.fired[i] == g && s'.firedAt[i] == t
  }

  ghost predicate CanFireOnTime(s: State, g: Handle)
    requires g in s.heap
  {
    exists run :: Quiet(s, run) && FiresAt(s, Exec(s, run), g, s.heap[g])
  }

  /** The wake-up at exactly the time `g` is due. */
  lemma WakeOnTime(s: State, g: Handle) returns (run: seq<Event>)
    requires Inv(s) && !s.draining && s.armed.Some? && g in s.heap && s.clock <= s.heap[g] && s.armed.value <= s.heap[g]
    ensures Quiet(s, run) && FiresAt(s, Exec(s, run), g, s.heap[g])
  {
    var d := s.heap[g] - s.clock;
    var s1 := Step(s, Tick(d));
    var s2 := Step(s1, ReadFd);
    var drain := DrainAlone(s2);
    QuietOne(s, Tick(d));
    QuietOne(s1, ReadFd);
    ExecAppend(s1, [ReadFd], drain);
    ExecAppend(s, [Tick(d)], [ReadFd] + drain);
    run := [Tick(d)] + ([ReadFd] + drain);
    var s3 := Exec(s, run);
    assert s3 == Exec(s2, drain) && g in s3.fired && g !in s.fired;
    var i :| 0 <= i < |s3.fired| && s3.fired[i] == g;
    assert s.fired == s3.fired[..|s.fired|];
  }

  /** If nothing more is scheduled, an entry not yet due can fire on time exactly when the fd is armed for no later. */
  lemma OnTimeIff(s: State, g: Handle)
    requires Inv(s) && !s.draining && s.armed.Some? && g in s.heap && s.clock <= s.heap[g]
    ensures CanFireOnTime(s, g) <==> s.armed.value <= s.heap[g]
  {
    if s.armed.value <= s.heap[g] {
      var run := WakeOnTime(s, g);
    } else {
      forall run | Quiet(s, run) ensures !FiresAt(s, Exec(s, run), g, s.heap[g]) { NotBeforeArmed(s, run); }
    }
  }

  /** So an entry is both sure to fire and able to fire on time exactly when it is due at the very time armed. */
  lemma SureAndOnTimeIff(s: State, g: Handle)
    requires Inv(s) && !s.draining && s.armed.Some? && g in s.heap && s.clock < s.heap[g]
    ensures SureToFire(s, g) && CanFireOnTime(s, g) <==> s.armed.value == s.heap[g]
  {
    SureToFireIff(s, g);
    OnTimeIff(s, g);
  }

  /** A schedule leaves another entry able to fire on time exactly when the new one is due no later; after a longer one
      every shorter timer that has not fired yet is late. */
  lemma LongerDelaysShorter(s: State, h: Handle, after: nat, g: Handle)
    requires Inv(s) && !s.draining && Legal(s, Schedule(h, after)) && after > 0 && g in s.heap && s.clock <= s.heap[g]
    ensures CanFireOnTime(Step(s, Schedule(h, after)), g) <==> s.clock + after <= s.heap[g]
    ensures s.heap[g] < s.clock + after ==>
              forall run, t: nat :: Quiet(Step(s, Schedule(h, after)), run) && t < s.clock + after ==>
                !FiresAt(Step(s, Schedule(h, after)), Exec(Step(s, Schedule(h, after)), run), g, t)
  {
    var s' := Step(s, Schedule(h, after));
    StepKeepsInv(s, Schedule(h, after));
    OnTimeIff(s', g);
    forall run, t: nat | Quiet(s', run) && t < s.clock + after ensures !FiresAt(s', Exec(s', run), g, t) {
      NotBeforeArmed(s', run);
    }
  }

  // ---------------------------------------------------------------------------------------------------------------
  // The timer object

  ghost predicate LeadsTo(s: State, s': State) {
    exists run :: LegalRun(s, run) && s' == Exec(s, run)
  }

  lemma {:induction false} ExecSnoc(s: State, run: seq<Event>, e: Event)
    requires LegalRun(s, run) && Legal(Exec(s, run), e)
    ensures LegalRun(s, run + [e]) && Exec(s, run + [e]) == Step(Exec(s, run), e)
    decreases run
  {
    if run == [] {
      assert run + [e] == [e] && [e][1..] == [];
    } else {
      ExecSnoc(Step(s, run[0]), run[1..], e);
      assert (run + [e])[1..] == run[1..] + [e];
    }
  }

  lemma LeadsToStep(s: State, s': State, e: Event)
    requires LeadsTo(s, s') && Legal(s', e)
    ensures LeadsTo(s, Step(s', e))
  {
    var run :| LegalRun(s, run) && s' == Exec(s, run);
    ExecSnoc(s, run, e);
    assert LegalRun(s, run + [e]);
  }

  /** What a callback may do: let time pass, schedule and cancel. */
  predicate ByCallback(e: Event) {
    e.Tick? || e.Schedule? || e.Cancel?
  }

  /** `t` holds the entries of `s` that expired by `clock`, in order of expiry. */
  ghost predicate ExpiredInOrder(s: map<Handle, nat>, clock: nat, t: seq<Handle>) {
    && (forall h :: h in t <==> h in s && s[h] <= clock)
    && (forall i, j :: 0 <= i < j < |t| ==> t[i] != t[j] && s[t[i]] <= s[t[j]])
  }

  class ThreadTimer {
    var clock: nat
    var timerList: map<Handle, nat>
    var timerFd: Option<nat>
    var draining: bool
    var fired: seq<Handle>
    var firedAt: seq<nat>
    var cancelled: set<Handle>
    /** What the callbacks will do, one batch for each. */
    var callbacks: seq<seq<Event>>

    function Now(): State
      reads this
    {
      State(clock, timerList, timerFd, draining, fired, firedAt, cancelled)
    }

    method Schedule(h: Handle, nanosAfter: nat)
      requires Legal(Now(), Event.Schedule(h, nanosAfter))
      modifies this`timerList, this`timerFd
      ensures Now() == Step(old(Now()), Event.Schedule(h, nanosAfter))
    {
      timerList := timerList[h := clock + nanosAfter];
      timerFd := if nanosAfter == 0 then None else Some(clock + nanosAfter);
    }

    method Cancel(h: Handle)
      requires Legal(Now(), Event.Cancel(h))
      modifies this`timerList, this`cancelled
      ensures Now() == Step(old(Now()), Event.Cancel(h))
    {
      timerList, cancelled := timerList - {h}, cancelled + {h};
    }

    method Act(e: Event, ghost start: State)
      requires LeadsTo(start, Now())
      modifies this
      ensures LeadsTo(start, Now()) && draining == old(draining) && callbacks == old(callbacks)
    {
      if ByCallback(e) && Legal(Now(), e) {
        LeadsToStep(start, Now(), e);
        match e {
          case Tick(d) => clock := clock + d;
          case Schedule(h, after) => Schedule(h, after);
          case Cancel(h) => Cancel(h);
        }
      }
    }

    /** Pops the top and calls it back. */
    method CallBack(top: Handle, ghost start: State)
      requires LeadsTo(start, Now()) && Legal(Now(), Fire(top))
      modifies this
      ensures LeadsTo(start, Now()) && draining
      ensures callbacks == if old(callbacks) == [] then [] else old(callbacks)[1..]
      ensures old(callbacks) == [] ==> Now() == Step(old(Now()), Fire(top))
    {
      LeadsToStep(start, Now(), Fire(top));
      timerList, fired, firedAt := timerList - {top}, fired + [top], firedAt + [clock];
      if callbacks == [] { return; }
      var batch := callbacks[0];
      callbacks := callbacks[1..];
      for i := 0 to |batch|
        invariant LeadsTo(start, Now()) && draining && callbacks == old(callbacks)[1..]
      {
        Act(batch[i], start);
      }
    }

    /** One round of the drain, for a top that has expired. */
    method Round(top: Handle, ghost start: State)
      requires LeadsTo(start, Now()) && Legal(Now(), Fire(top))
      modifies this
      ensures LeadsTo(start, Now()) && draining
      ensures old(callbacks) != [] ==> |callbacks| < |old(callbacks)|
      ensures old(callbacks) == [] ==>
                && callbacks == [] && clock == old(clock) && timerFd == old(timerFd) && fired == old(fired) + [top]
                && timerList == old(timerList) - {top} && |timerList.Keys| < |old(timerList).Keys|
    {
      ghost var keys := timerList.Keys;
      CallBack(top, start);
      assert |keys - {top}| == |keys| - 1;
      assert old(callbacks) == [] ==> timerList.Keys == keys - {top};
    }

    /** The drain.  Whatever the callbacks do, nothing expired is left behind. */
    method OnTimerArmed(ghost start: State) returns (ghost t: seq<Handle>)
      requires LeadsTo(start, Now()) && draining
      modifies this
      ensures LeadsTo(start, Now()) && draining && T.NoneExpired(timerList, clock)
      ensures old(callbacks) == [] ==>
                && clock == old(clock) && timerFd == old(timerFd) && fired == old(fired) + t
                && Partly(old(timerList), clock, timerList, t)
    {
      ghost var heap, alone := timerList, callbacks == [];
      t := [];
      while timerList != map[]
        invariant LeadsTo(start, Now()) && draining
        invariant alone ==> callbacks == [] && clock == old(clock) && timerFd == old(timerFd)
        invariant alone ==> fired == old(fired) + t && Partly(heap, clock, timerList, t)
        decreases |callbacks|, |timerList.Keys|
      {
        var stop;
        stop, t := Turn(start, heap, t, alone);
        if stop { break; }
      }
    }

    /** One turn of the drain. */
    method Turn(ghost start: State, ghost heap: map<Handle, nat>, ghost before: seq<Handle>, ghost alone: bool)
      returns (stop: bool, ghost t: seq<Handle>)
      requires LeadsTo(start, Now()) && draining && timerList != map[]
      requires alone ==> callbacks == [] && Partly(heap, clock, timerList, before)
      modifies this
      ensures LeadsTo(start, Now()) && draining
      ensures stop ==> T.NoneExpired(timerList, clock) && Now() == old(Now()) && callbacks == old(callbacks)
      ensures stop ==> t == before
      ensures !stop && old(callbacks) != [] ==> |callbacks| < |old(callbacks)|
      ensures !stop && old(callbacks) == [] ==> callbacks == [] && |timerList.Keys| < |old(timerList).Keys|
      ensures alone && !stop ==>
                && clock == old(clock) && timerFd == old(timerFd) && Partly(heap, clock, timerList, t)
                && exists top :: t == before + [top] && fired == old(fired) + [top]
    {
      var top := Top();
      if timerList[top] > clock {
        T.LeastInFuture(timerList, clock, top);
        return true, before;
      }
      if alone { PartlyFire(heap, clock, timerList, before, top); }
      Round(top, start);
      return false, before + [top];
    }

    method Top() returns (top: Handle)
      requires timerList != map[]
      ensures T.Least(timerList, top)
    {
      ghost var least := T.HasLeast(timerList);
      assert least in timerList && T.Least(timerList, least);
      top :| top in timerList && T.Least(timerList, top);
    }

    /** What a readable fd does.  When callbacks leave the timer alone, exactly the expired entries fire, in order of
        expiry, and the fd stays disarmed whatever else waits. */
    method OnTimerFdNotification()
      requires !draining
      modifies this
      ensures LeadsTo(old(Now()), Now()) && !draining
      ensures old(Legal(Now(), ReadFd)) ==> T.NoneExpired(timerList, clock)
      ensures !old(Legal(Now(), ReadFd)) ==> Now() == old(Now())
      ensures old(Legal(Now(), ReadFd)) && old(callbacks) == [] ==>
                && timerFd == None && |old(fired)| <= |fired| && fired[..|old(fired)|] == old(fired)
                && ExpiredInOrder(old(timerList), old(clock), fired[|old(fired)|..])
                && timerList == map h | h in old(timerList) && old(timerList)[h] > old(clock) :: old(timerList)[h]
    {
      ghost var start := Now();
      assert LegalRun(start, []) && Exec(start, []) == start;
      if timerFd == None || timerFd.value > clock { return; }
      LeadsToStep(start, Now(), ReadFd);
      timerFd, draining := None, true;
      ghost var t := OnTimerArmed(start);
      LeadsToStep(start, Now(), Finish);
      draining := false;
      if old(callbacks) == [] {
        PartlyDone(start.heap, clock, timerList, t);
        assert fired[|start.fired|..] == t;
      }
    }
  }

  /** Part of a drain nobody interferes with: of `heap`, what fired is `t`, what is left is `left`, and no part of `t`
      comes after anything in `left`. */
  ghost predicate Partly(heap: map<Handle, nat>, clock: nat, left: map<Handle, nat>, t: seq<Handle>) {
    && (forall h :: h in left ==> h in heap && heap[h] == left[h])
    && (forall h :: h in heap ==> h in left || h in t)
    && (forall h :: h in t ==> h in heap && h !in left && heap[h] <= clock)
    && (forall i, j :: 0 <= i < j < |t| ==> t[i] != t[j] && heap[t[i]] <= heap[t[j]])
    && (forall h, g :: h in t && g in left ==> heap[h] <= heap[g])
  }

  lemma PartlyFire(heap: map<Handle, nat>, clock: nat, left: map<Handle, nat>, t: seq<Handle>, top: Handle)
    requires Partly(heap, clock, left, t) && T.Least(left, top) && left[top] <= clock
    ensures Partly(heap, clock, left - {top}, t + [top])
  {
    var t' := t + [top];
    forall i, j | 0 <= i < j < |t'| ensures t'[i] != t'[j] && heap[t'[i]] <= heap[t'[j]] {
      assert t'[i] in t;
    }
  }

  lemma PartlyDone(heap: map<Handle, nat>, clock: nat, left: map<Handle, nat>, t: seq<Handle>)
    requires Partly(heap, clock, left, t) && forall h :: h in left ==> left[h] > clock
    ensures ExpiredInOrder(heap, clock, t)
    ensures left == map h | h in heap && heap[h] > clock :: heap[h]
  {
  }
}
