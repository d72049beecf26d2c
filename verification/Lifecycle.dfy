/** Counting reactors in and out when the I/O manager starts and stops (src/lib/iomgr.cpp).  Every access to a counter
    or to the slot table is one step, and the threads interleave freely. */
module Lifecycle {
  import opened Counting

  type Worker = nat
  type User = nat

  /** A worker on its way through reactor_started, then running, then through reactor_stopped. */
  datatype Place =
    | Created        // thread exists
    | Counted        // m_yet_to_stop_nreactors incremented
    | Slotted        // m_worker_reactors slot filled
    | Up             // m_yet_to_start_nreactors decremented
    | Down           // m_yet_to_stop_nreactors decremented

  datatype Guard = Unused | Held | Released       // the extra count stop() holds

  datatype State = State(
    workers: map<Worker, Place>,
    users: set<User>,              // user reactors that are up
    slots: set<Worker>,            // filled entries of m_worker_reactors
    guard: Guard,
    yetToStart: int,
    yetToStop: int,
    sysInits: nat,                 // times the state was set to sys_init
    stops: nat)                    // times the state was set to stopped

  datatype Event =
    | Count(w: Worker) | Fill(w: Worker) | Started(w: Worker) | WorkerStopped(w: Worker)
    | UserStarted(u: User) | UserStopped(u: User)
    | StopBegins | StopReleases

  /** create_worker_reactors: all slots empty, one count per worker. */
  function Fresh(ids: set<Worker>): State {
    State(map w | w in ids :: Created, {}, {}, Unused, |ids|, 0, 0, 0)
  }

  predicate At(s: State, w: Worker, p: Place) {
    w in s.workers && s.workers[w] == p
  }

  /** Users come after the workers are up, nothing is starting when stop begins, and workers leave only through stop. */
  predicate Legal(s: State, e: Event) {
    match e
    case Count(w) => At(s, w, Created)
    case Fill(w) => At(s, w, Counted)
    case Started(w) => At(s, w, Slotted)
    case WorkerStopped(w) => At(s, w, Up) && s.guard != Unused
    case UserStarted(u) => u !in s.users && s.guard == Unused && s.sysInits > 0
    case UserStopped(u) => u in s.users
    case StopBegins => s.guard == Unused && s.sysInits > 0
    case StopReleases => s.guard == Held
  }

  /** decrement_testz of m_yet_to_stop_nreactors and what follows it. */
  function Leave(s: State): State {
    s.(yetToStop := s.yetToStop - 1, stops := s.stops + One(s.yetToStop - 1 == 0))
  }

  function Step(s: State, e: Event): State
    requires Legal(s, e)
  {
    match e
    case Count(w) => s.(workers := s.workers[w := Counted], yetToStop := s.yetToStop + 1)
    case Fill(w) => s.(workers := s.workers[w := Slotted], slots := s.slots + {w})
    case Started(w) =>
      s.(workers := s.workers[w := Up], yetToStart := s.yetToStart - 1,
         sysInits := s.sysInits + One(s.yetToStart - 1 == 0))
    case WorkerStopped(w) => Leave(s.(workers := s.workers[w := Down]))
    case UserStarted(u) => s.(users := s.users + {u}, yetToStop := s.yetToStop + 1)
    case UserStopped(u) => Leave(s.(users := s.users - {u}))
    case StopBegins => s.(guard := Held, yetToStop := s.yetToStop + 1)
    case StopReleases => Leave(s.(guard := Released))
  }

  predicate LegalRun(s: State, run: seq<Event>)
    decreases run
  {
    run == [] || (Legal(s, run[0]) && LegalRun(Step(s, run[0]), run[1..]))
  }

  function Exec(s: State, run: seq<Event>): State
    requires LegalRun(s, run)
    decreases run
  {
    if run == [] then s else Exec(Step(s, run[0]), run[1..])
  }

  function Starting(s: State): int {
    |Where(s.workers, Created)| + |Where(s.workers, Counted)| + |Where(s.workers, Slotted)|
  }

  function Running(s: State): int {
    |Where(s.workers, Counted)| + |Where(s.workers, Slotted)| + |Where(s.workers, Up)| + |s.users|
            + One(s.guard == Held)
  }

  ghost predicate Inv(s: State) {
    && s.yetToStart == Starting(s) && s.yetToStop == Running(s)
    && (forall w :: w in s.slots <==> w in s.workers && s.workers[w] != Created && s.workers[w] != Counted)
    && s.sysInits == One(s.workers != map[] && Starting(s) == 0)
    && (s.sysInits == 0 ==> s.users == {} && s.guard == Unused)
    && (s.guard == Unused ==> Where(s.workers, Down) == {} && s.stops == 0)
    && (s.guard == Held ==> s.stops == 0)
    && (s.guard == Released ==> s.stops == One(Running(s) == 0))
  }

  lemma CountsMove(s: State, w: Worker, p: Place)
    ensures var m := s.workers[w := p];
            forall q :: |Where(m, q)| == |Where(s.workers, q)| - One(At(s, w, q)) + One(p == q)
  {
    forall q ensures |Where(s.workers[w := p], q)| == |Where(s.workers, q)| - One(At(s, w, q)) + One(p == q) {
      WhereUpdated(s.workers, w, p, q);
    }
  }

  lemma WorkerStepKeepsInv(s: State, e: Event)
    requires Inv(s) && Legal(s, e) && (e.Count? || e.Fill? || e.Started? || e.WorkerStopped?)
    ensures Inv(Step(s, e))
  {
    var s' := Step(s, e);
    CountsMove(s, e.w, s'.workers[e.w]);
    if !e.WorkerStopped? {
      assert e.w in Where(s.workers, s.workers[e.w]);
      assert Starting(s) > 0;
      assert Where(s'.workers, Down) == Where(s.workers, Down);
    }
  }

  lemma OtherStepKeepsInv(s: State, e: Event)
    requires Inv(s) && Legal(s, e) && !e.Count? && !e.Fill? && !e.Started? && !e.WorkerStopped?
    ensures Inv(Step(s, e))
  {
    if s.guard == Unused && s.workers != map[] && Starting(s) == 0 { SomeoneUp(s); }
  }

  /** Before stop begins a started manager has a worker that keeps the stop count from zero. */
  lemma SomeoneUp(s: State)
    requires s.workers != map[] && Starting(s) == 0 && Where(s.workers, Down) == {}
    ensures |Where(s.workers, Up)| > 0
  {
    assert Where(s.workers, Created) == {} && Where(s.workers, Counted) == {} && Where(s.workers, Slotted) == {};
    var w :| w in s.workers;
    assert w in Where(s.workers, s.workers[w]);
    assert forall p :: Where(s.workers, p) == {} ==> s.workers[w] != p;
    assert s.workers[w] == Up && w in Where(s.workers, Up);
  }

  lemma StepKeepsInv(s: State, e: Event)
    requires Inv(s) && Legal(s, e)
    ensures Inv(Step(s, e))
  {
    if e.Count? || e.Fill? || e.Started? || e.WorkerStopped? {
      WorkerStepKeepsInv(s, e);
    } else {
      OtherStepKeepsInv(s, e);
    }
  }

  lemma {:induction false} RunsKeepInv(s: State, run: seq<Event>)
    requires Inv(s) && LegalRun(s, run)
    ensures Inv(Exec(s, run))
    decreases run
  {
    if run != [] {
      var e := run[0];
      StepKeepsInv(s, e);
      RunsKeepInv(Step(s, e), run[1..]);
    }
  }

  lemma FreshInv(ids: set<Worker>)
    ensures Inv(Fresh(ids))
  {
    var m := Fresh(ids).workers;
    assert m.Keys == ids && (m == map[] <==> ids == {});
    assert Where(m, Counted) == {} && Where(m, Slotted) == {} && Where(m, Up) == {} && Where(m, Down) == {};
    assert Where(m, Created) == ids;
  }

  /** The state becomes sys_init at most once and, when it has, every worker slot is filled; without workers it never
      does.  It becomes stopped at most once and, when it has, every reactor ever started is down and stop has released
      its guard; and once all that is so it has become stopped. */
  lemma StartAndStopOnce(ids: set<Worker>, run: seq<Event>)
    requires LegalRun(Fresh(ids), run)
    ensures var s := Exec(Fresh(ids), run);
            && s.sysInits <= 1 && s.stops <= 1
            && (s.sysInits == 1 ==> ids != {} && s.slots == ids)
            && (s.sysInits == 1 <==> ids != {} && forall w :: w in ids ==> At(s, w, Up) || At(s, w, Down))
            && (s.stops == 1 <==> s.guard == Released && s.users == {} && forall w :: w in ids ==> At(s, w, Down))
  {
    FreshInv(ids);
    RunsKeepInv(Fresh(ids), run);
    SameWorkers(Fresh(ids), run);
    Reading(Exec(Fresh(ids), run), ids);
  }

  /** What the invariant says in terms of places. */
  lemma Reading(s: State, ids: set<Worker>)
    requires Inv(s) && s.workers.Keys == ids
    ensures s.sysInits == 1 ==> s.slots == ids
    ensures s.sysInits == 1 <==> ids != {} && forall w :: w in ids ==> At(s, w, Up) || At(s, w, Down)
    ensures s.stops == 1 <==> s.guard == Released && s.users == {} && forall w :: w in ids ==> At(s, w, Down)
  {
    assert s.workers == map[] <==> ids == {};
    Places(s);
  }

  lemma {:induction false} SameWorkers(s: State, run: seq<Event>)
    requires LegalRun(s, run)
    ensures Exec(s, run).workers.Keys == s.workers.Keys
    decreases run
  {
    if run != [] { SameWorkers(Step(s, run[0]), run[1..]); }
  }

  /** Counts and places say the same. */
  lemma Places(s: State)
    ensures Starting(s) == 0 <==> forall w :: w in s.workers ==> At(s, w, Up) || At(s, w, Down)
    ensures Running(s) == 0 && Starting(s) == 0 <==>
              s.users == {} && s.guard != Held && forall w :: w in s.workers ==> At(s, w, Down)
  {
    forall w | w in s.workers ensures w in Where(s.workers, s.workers[w]) {}
    if forall w :: w in s.workers ==> At(s, w, Up) || At(s, w, Down) {
      assert Where(s.workers, Created) == {} && Where(s.workers, Counted) == {} && Where(s.workers, Slotted) == {};
    }
    if forall w :: w in s.workers ==> At(s, w, Down) {
      assert Where(s.workers, Up) == {};
    }
  }

  // ---------------------------------------------------------------------------------------------------------------
  // Starting and stopping come to an end

  predicate StartStep(e: Event) {
    e.Count? || e.Fill? || e.Started?
  }

  function StartLeft(s: State): nat {
    3 * |Where(s.workers, Created)| + 2 * |Where(s.workers, Counted)| + |Where(s.workers, Slotted)|
  }

  lemma StartShrinks(s: State, e: Event)
    requires Legal(s, e) && StartStep(e)
    ensures StartLeft(Step(s, e)) < StartLeft(s)
  {
    var p := Step(s, e).workers[e.w];
    WhereUpdated(s.workers, e.w, p, Created);
    WhereUpdated(s.workers, e.w, p, Counted);
    WhereUpdated(s.workers, e.w, p, Slotted);
  }

  /** Every schedule of starting workers is finite, and when no worker has anything left to do the state has become
      sys_init, provided there is a worker at all. */
  lemma {:induction false} StartupEnds(s: State, run: seq<Event>)
    requires Inv(s) && LegalRun(s, run) && forall i :: 0 <= i < |run| ==> StartStep(run[i])
    ensures |run| <= StartLeft(s)
    ensures (forall e :: StartStep(e) ==> !Legal(Exec(s, run), e)) ==>
              (Exec(s, run).sysInits == 1 <==> s.workers != map[])
    decreases run
  {
    if run == [] {
      if forall e :: StartStep(e) ==> !Legal(s, e) {
        forall w | w in s.workers ensures At(s, w, Up) || At(s, w, Down) {
          assert !Legal(s, Count(w)) && !Legal(s, Fill(w)) && !Legal(s, Started(w));
        }
        Places(s);
      }
    } else {
      var s' := Step(s, run[0]);
      StartShrinks(s, run[0]);
      StepKeepsInv(s, run[0]);
      assert s'.workers.Keys == s.workers.Keys;
      StartupEnds(s', run[1..]);
    }
  }

  predicate StopStep(e: Event) {
    e.WorkerStopped? || e.UserStopped? || e.StopReleases?
  }

  function StopLeft(s: State): nat {
    |Where(s.workers, Up)| + |s.users| + One(s.guard == Held)
  }

  lemma StopShrinks(s: State, e: Event)
    requires Legal(s, e) && StopStep(e)
    ensures StopLeft(Step(s, e)) < StopLeft(s)
  {
    if e.WorkerStopped? { WhereUpdated(s.workers, e.w, Down, Up); }
  }

  lemma {:induction false} ShutdownGoes(s: State, run: seq<Event>)
    requires Inv(s) && s.guard != Unused && LegalRun(s, run) && forall i :: 0 <= i < |run| ==> StopStep(run[i])
    ensures |run| <= StopLeft(s)
    ensures (forall e :: StopStep(e) ==> !Legal(Exec(s, run), e)) ==> Exec(s, run).stops == 1
    decreases run
  {
    if run == [] {
      if forall e :: StopStep(e) ==> !Legal(s, e) { NothingRuns(s); }
    } else {
      StopShrinks(s, run[0]);
      StepKeepsInv(s, run[0]);
      ShutdownGoes(Step(s, run[0]), run[1..]);
    }
  }

  lemma NothingRuns(s: State)
    requires Inv(s) && s.guard != Unused && forall e :: StopStep(e) ==> !Legal(s, e)
    ensures s.stops == 1
  {
    assert !Legal(s, StopReleases);
    forall u ensures u !in s.users { assert StopStep(UserStopped(u)); }
    Places(s);
    forall w | w in s.workers ensures At(s, w, Down) { assert !Legal(s, WorkerStopped(w)); }
  }

  /** From the moment stop begins, every schedule of reactors going down and of stop itself is finite, and when
      nothing is left to do the state has become stopped, once. */
  lemma ShutdownEnds(s: State, run: seq<Event>)
    requires Inv(s) && Legal(s, StopBegins) && LegalRun(Step(s, StopBegins), run)
    requires forall i :: 0 <= i < |run| ==> StopStep(run[i])
    ensures |run| <= StopLeft(s) + 1
    ensures (forall e :: StopStep(e) ==> !Legal(Exec(Step(s, StopBegins), run), e)) ==>
              Exec(Step(s, StopBegins), run).stops == 1
  {
    StepKeepsInv(s, StopBegins);
    ShutdownGoes(Step(s, StopBegins), run);
  }

  /** The user reactors that are up, from the events alone. */
  function UsersAfter(users: set<User>, run: seq<Event>): set<User>
    decreases run
  {
    if run == [] then users
    else
      UsersAfter(match run[0]
                 case UserStarted(u) => users + {u}
                 case UserStopped(u) => users - {u}
                 case _ => users, run[1..])
  }

  lemma {:induction false} UsersFromEvents(s: State, run: seq<Event>)
    requires LegalRun(s, run)
    ensures Exec(s, run).users == UsersAfter(s.users, run)
    decreases run
  {
    if run != [] { UsersFromEvents(Step(s, run[0]), run[1..]); }
  }

  /** However the run went, the state has not become stopped while a user reactor that was started has not stopped. */
  lemma NotStoppedBeforeUsers(ids: set<Worker>, run: seq<Event>)
    requires LegalRun(Fresh(ids), run) && UsersAfter({}, run) != {}
    ensures Exec(Fresh(ids), run).stops == 0
  {
    UsersFromEvents(Fresh(ids), run);
    StartAndStopOnce(ids, run);
  }

  class IOManager {
    var workerReactors: set<Worker>      // filled slots
    var yetToStartNreactors: int
    var yetToStopNreactors: int
    var sysInits: nat
    var stops: nat
    ghost var workers: map<Worker, Place>
    ghost var users: set<User>
    ghost var guard: Guard

    ghost function Now(): State
      reads this
    {
      State(workers, users, workerReactors, guard, yetToStartNreactors, yetToStopNreactors, sysInits, stops)
    }

    /** The three accesses of reactor_started for a worker. */
    method CountWorker(w: Worker)
      requires Inv(Now()) && Legal(Now(), Count(w))
      modifies this
      ensures Now() == Step(old(Now()), Count(w)) && Inv(Now())
    {
      WorkerStepKeepsInv(Now(), Count(w));
      yetToStopNreactors := yetToStopNreactors + 1;
      workers := workers[w := Counted];
    }

    method FillSlot(w: Worker)
      requires Inv(Now()) && Legal(Now(), Fill(w))
      modifies this
      ensures Now() == Step(old(Now()), Fill(w)) && Inv(Now())
    {
      WorkerStepKeepsInv(Now(), Fill(w));
      workerReactors := workerReactors + {w};
      workers := workers[w := Slotted];
    }

    /** The caller enters sys_init exactly when its worker is the last one. */
    method WorkerStarted(w: Worker) returns (entered: bool)
      requires Inv(Now()) && Legal(Now(), Started(w))
      modifies this
      ensures Now() == Step(old(Now()), Started(w)) && Inv(Now())
      ensures entered <==> Starting(Now()) == 0
    {
      WorkerStepKeepsInv(Now(), Started(w));
      yetToStartNreactors := yetToStartNreactors - 1;
      entered := yetToStartNreactors == 0;
      if entered {
        sysInits := sysInits + 1;
      }
      workers := workers[w := Up];
    }

    /** reactor_stopped on a worker. */
    method WorkerDown(w: Worker) returns (last: bool)
      requires Inv(Now()) && Legal(Now(), WorkerStopped(w))
      modifies this
      ensures Now() == Step(old(Now()), WorkerStopped(w)) && Inv(Now())
      ensures last <==> Running(Now()) == 0
    {
      WorkerStepKeepsInv(Now(), WorkerStopped(w));
      yetToStopNreactors := yetToStopNreactors - 1;
      last := yetToStopNreactors == 0;
      if last {
        stops := stops + 1;
      }
      workers := workers[w := Down];
    }

    /** The guard count around stop's message to all reactors. */
    method HoldGuard()
      requires Inv(Now()) && Legal(Now(), StopBegins)
      modifies this
      ensures Now() == Step(old(Now()), StopBegins) && Inv(Now())
    {
      OtherStepKeepsInv(Now(), StopBegins);
      yetToStopNreactors := yetToStopNreactors + 1;
      guard := Held;
    }

    method ReleaseGuard() returns (last: bool)
      requires Inv(Now()) && Legal(Now(), StopReleases)
      modifies this
      ensures Now() == Step(old(Now()), StopReleases) && Inv(Now())
      ensures last <==> Running(Now()) == 0
    {
      OtherStepKeepsInv(Now(), StopReleases);
      yetToStopNreactors := yetToStopNreactors - 1;
      last := yetToStopNreactors == 0;
      if last {
        stops := stops + 1;
      }
      guard := Released;
    }
  }
}
