/** SPDK requests under the I/O watchdog (src/lib/interfaces/spdk_drive_interface.cpp and src/lib/watchdog.cpp): a
    reactor with a tight loop submits a request and registers it afterwards, a finished request is erased, and the
    watchdog asserts that there was one to erase. */
module SpdkWatchdog {
  import opened Counting
  import SR = SpdkRequests

  type Id = SR.Id

  datatype State = State(
    spdk: SR.State,
    registered: set<Id>,      // requests in m_outstanding_ios
    misses: nat)              // times the assertion on erasing failed

  const Initial := State(SR.Initial, {}, 0)

  /** complete_io of the watchdog. */
  function Erase(s: State, id: Id): State {
    s.(registered := s.registered - {id}, misses := s.misses + One(id !in s.registered))
  }

  function Step(s: State, e: SR.Event): State
    requires SR.Legal(s.spdk, e)
  {
    var s1 := s.(spdk := SR.Step(s.spdk, e));
    var s2 := if s1.spdk.iocbs[e.id].place.Finished? then Erase(s1, e.id) else s1;
    if e.Submit? then s2.(registered := s2.registered + {e.id}) else s2
  }

  function Exec(s: State, run: seq<SR.Event>): State
    requires SR.LegalRun(s.spdk, run)
    decreases run
  {
    if run == [] then s else Exec(Step(s, run[0]), run[1..])
  }

  /** A submission all of whose attempts fail outright. */
  predicate FailsInside(e: SR.Event) {
    e.Submit? && SR.Outright(e.rcs, e.max + 2)
  }

  function FailuresInside(run: seq<SR.Event>): nat {
    if run == [] then 0 else One(FailsInside(run[0])) + FailuresInside(run[1..])
  }

  /** Every unfinished request is registered, and only requests are. */
  ghost predicate Inv(s: State) {
    && (forall id :: id in s.spdk.iocbs && !s.spdk.iocbs[id].place.Finished? ==> id in s.registered)
    && (forall id :: id in s.registered ==> id in s.spdk.iocbs)
  }

  lemma StepCounts(s: State, e: SR.Event)
    requires Inv(s) && SR.Legal(s.spdk, e)
    ensures Inv(Step(s, e)) && Step(s, e).misses == s.misses + One(FailsInside(e))
    ensures e.Submit? ==> (Step(s, e).spdk.iocbs[e.id].place.Finished? <==> FailsInside(e))
  {
    if e.Submit? { SR.FinishesInsideIff(SR.Work(SR.NewIocb, s.spdk.outstanding), e.rcs, e.max); }
  }

  lemma {:induction false} RunCounts(s: State, run: seq<SR.Event>)
    requires Inv(s) && SR.LegalRun(s.spdk, run)
    ensures Inv(Exec(s, run)) && Exec(s, run).misses == s.misses + FailuresInside(run)
    decreases run
  {
    if run != [] {
      StepCounts(s, run[0]);
      RunCounts(Step(s, run[0]), run[1..]);
    }
  }

  lemma {:induction false} NoFailuresIff(run: seq<SR.Event>)
    ensures FailuresInside(run) == 0 <==> forall i :: 0 <= i < |run| ==> !FailsInside(run[i])
    decreases run
  {
    if run != [] {
      NoFailuresIff(run[1..]);
      assert forall i :: 1 <= i < |run| ==> run[i] == run[1..][i - 1];
    }
  }

  /** Over every run the watchdog's assertion holds if and only if no submission fails outright limit + 2 times within
      its own call: such a request is finished before it is registered. */
  lemma ErasesOneIff(run: seq<SR.Event>)
    requires SR.LegalRun(SR.Initial, run)
    ensures Exec(Initial, run).misses == 0 <==> forall i :: 0 <= i < |run| ==> !FailsInside(run[i])
  {
    RunCounts(Initial, run);
    NoFailuresIff(run);
  }

  ghost predicate ExactlyUnfinished(s: State) {
    forall id :: id in s.registered <==> id in s.spdk.iocbs && !s.spdk.iocbs[id].place.Finished?
  }

  /** And then the watchdog watches exactly the unfinished requests. */
  lemma {:induction false} WatchesUnfinished(s: State, run: seq<SR.Event>)
    requires Inv(s) && ExactlyUnfinished(s) && SR.LegalRun(s.spdk, run)
    requires forall i :: 0 <= i < |run| ==> !FailsInside(run[i])
    ensures ExactlyUnfinished(Exec(s, run))
    decreases run
  {
    if run != [] {
      StepCounts(s, run[0]);
      WatchesUnfinished(Step(s, run[0]), run[1..]);
    }
  }

  /** One request is enough, whatever the limit. */
  lemma MissReachable(max: nat) returns (run: seq<SR.Event>)
    ensures SR.LegalRun(SR.Initial, run) && |run| == 1
    ensures Exec(Initial, run).misses == 1
  {
    var e := SR.Submit(0, seq(max + 2, _ => -5), max);
    run := [e];
    assert run[1..] == [] && FailsInside(e);
    StepCounts(Initial, e);
    assert Exec(Initial, run) == Step(Initial, e);
  }
}
