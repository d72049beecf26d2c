/** The readers-writer lock fibers use (src/lib/reactor/fiber_lib_boost.cpp): writer priority, one wait queue for
    readers and writers, and notify_all on every unlock.  Each region under the queue's spinlock is one step. */
module SharedMutex {
  import opened Counting

  type Fiber = nat

  datatype Owner = Nobody | By(f: Fiber)

  /** A fiber that uses the lock: about to look at it, suspended on the wait queue, or holding it.  `counted` is the
      local variable am_i_write_waiter. */
  datatype Place =
    | TryRead | ReadSuspended | Reading
    | TryWrite(counted: bool) | WriteSuspended | Writing

  datatype State = State(
    owner: Owner,                    // m_write_owner
    readers: int,                    // m_readers
    writeWaiters: int,               // m_write_waiters
    waitq: seq<Fiber>,               // m_wait_q
    at: map<Fiber, Place>)           // fibers not listed do not use the lock

  datatype Event =
    | LockShared(f: Fiber) | Lock(f: Fiber)                  // a call begins
    | LookRead(f: Fiber) | LookWrite(f: Fiber)               // one turn of its loop
    | UnlockShared(f: Fiber) | Unlock(f: Fiber)

  const Initial := State(Nobody, 0, 0, [], map[])

  predicate At(s: State, f: Fiber, p: Place) {
    f in s.at && s.at[f] == p
  }

  /** Fibers unlock only what they hold. */
  predicate Legal(s: State, e: Event) {
    match e
    case LockShared(f) => f !in s.at
    case Lock(f) => f !in s.at
    case LookRead(f) => At(s, f, TryRead)
    case LookWrite(f) => f in s.at && s.at[f].TryWrite?
    case UnlockShared(f) => At(s, f, Reading)
    case Unlock(f) => At(s, f, Writing)
  }

  function Woken(p: Place): Place {
    match p
    case ReadSuspended => TryRead
    case WriteSuspended => TryWrite(true)
    case _ => p
  }

  function WakeAll(at: map<Fiber, Place>): map<Fiber, Place> {
    map f | f in at :: Woken(at[f])
  }

  function NotifyAll(s: State): State {
    s.(waitq := [], at := WakeAll(s.at))
  }

  function Step(s: State, e: Event): State
    requires Legal(s, e)
  {
    match e
    case LockShared(f) => s.(at := s.at[f := TryRead])
    case Lock(f) => s.(at := s.at[f := TryWrite(false)])
    case LookRead(f) =>
      if s.owner != Nobody || s.writeWaiters != 0 then s.(waitq := s.waitq + [f], at := s.at[f := ReadSuspended])
      else s.(readers := s.readers + 1, at := s.at[f := Reading])
    case LookWrite(f) =>
      var counted := s.at[f].counted;
      if s.owner == Nobody && s.readers == 0 then
        s.(owner := By(f), writeWaiters := s.writeWaiters - One(counted), at := s.at[f := Writing])
      else
        s.(writeWaiters := s.writeWaiters + One(!counted), waitq := s.waitq + [f], at := s.at[f := WriteSuspended])
    case UnlockShared(f) => Released(s, f)
    case Unlock(f) => NotifyAll(s.(owner := Nobody, at := s.at - {f}))
  }

  predicate LegalRun(s: State, run: seq<Event>)
    decreases run
  {
    run == [] || (Legal(s, run[0]) && LegalRun(Step(s, run[0]), run[1..]))
  }

  function Exec(s: State, run: seq<Event>): State
    requires LegalRun(s, run)
    decreases run
  {
    if run == [] then s else Exec(Step(s, run[0]), run[1..])
  }

  // ---------------------------------------------------------------------------------------------------------------
  // Safety

  predicate Held(s: State) {
    s.owner != Nobody || s.readers > 0
  }

  /** The fields agree with what the fibers are doing. */
  ghost predicate Exact(s: State) {
    && s.readers == |Where(s.at, Reading)|
    && s.writeWaiters == |Where(s.at, TryWrite(true))| + |Where(s.at, WriteSuspended)|
    && (forall f :: At(s, f, Writing) <==> s.owner == By(f))
    && (forall f :: f in s.waitq <==> At(s, f, ReadSuspended) || At(s, f, WriteSuspended))
    && (s.owner != Nobody ==> s.readers == 0)
  }

  /** Whoever is suspended has someone who will wake it. */
  ghost predicate Waking(s: State) {
    && ((exists f :: At(s, f, WriteSuspended)) ==> Held(s))
    && ((exists f :: At(s, f, ReadSuspended)) ==> Held(s) || exists w :: At(s, w, TryWrite(true)))
  }

  ghost predicate Inv(s: State) {
    Exact(s) && Waking(s)
  }

  lemma WakeAllCounts(at: map<Fiber, Place>)
    ensures |Where(WakeAll(at), Reading)| == |Where(at, Reading)|
    ensures |Where(WakeAll(at), TryWrite(true))| + |Where(WakeAll(at), WriteSuspended)|
            == |Where(at, TryWrite(true))| + |Where(at, WriteSuspended)|
  {
    WakeAllMoves(at);
    assert Where(at, TryWrite(true)) !! Where(at, WriteSuspended);
  }

  lemma WakeAllMoves(at: map<Fiber, Place>)
    ensures Where(WakeAll(at), Reading) == Where(at, Reading)
    ensures Where(WakeAll(at), TryWrite(true)) == Where(at, TryWrite(true)) + Where(at, WriteSuspended)
    ensures Where(WakeAll(at), WriteSuspended) == {}
  {
    var now := WakeAll(at);
    forall f ensures f in Where(now, Reading) <==> f in Where(at, Reading) {}
    forall f ensures f in Where(now, TryWrite(true))
            <==> f in Where(at, TryWrite(true)) || f in Where(at, WriteSuspended) {}
    forall f ensures f !in Where(now, WriteSuspended) {}
  }

  lemma CountsUpdated(at: map<Fiber, Place>, f: Fiber, p: Place)
    ensures |Where(at[f := p], Reading)| == |Where(at, Reading)| - One(f in at && at[f] == Reading) + One(p == Reading)
    ensures |Where(at[f := p], TryWrite(true))| + |Where(at[f := p], WriteSuspended)|
         == |Where(at, TryWrite(true))| + |Where(at, WriteSuspended)|
            - One(f in at && (at[f] == TryWrite(true) || at[f] == WriteSuspended))
            + One(p == TryWrite(true) || p == WriteSuspended)
  {
    WhereUpdated(at, f, p, Reading);
    WhereUpdated(at, f, p, TryWrite(true));
    WhereUpdated(at, f, p, WriteSuspended);
  }

  lemma LookKeepsExact(s: State, e: Event)
    requires Exact(s) && Legal(s, e) && !e.UnlockShared? && !e.Unlock?
    ensures Exact(Step(s, e))
  {
    CountsUpdated(s.at, e.f, Step(s, e).at[e.f]);
    if e.LookRead? && s.owner == Nobody && s.writeWaiters == 0 {
    } else if e.LookWrite? && s.owner == Nobody && s.readers == 0 {
    }
  }

  lemma UnlockKeepsExact(s: State, e: Event)
    requires Exact(s) && Legal(s, e) && (e.UnlockShared? || e.Unlock?)
    ensures Exact(Step(s, e))
  {
    WhereRemoved(s.at, e.f, Reading);
    WhereRemoved(s.at, e.f, TryWrite(true));
    WhereRemoved(s.at, e.f, WriteSuspended);
    WakeAllCounts(s.at - {e.f});
    if e.UnlockShared? { assert e.f in Where(s.at, Reading); }
  }

  /** A positive waiter count is a waiting writer: awake, or suspended and then the lock is held. */
  lemma WaitersAreThere(s: State)
    requires Inv(s) && s.writeWaiters > 0
    ensures Held(s) || exists w :: At(s, w, TryWrite(true))
  {
    if Where(s.at, TryWrite(true)) != {} {
      var w :| w in Where(s.at, TryWrite(true));
      assert At(s, w, TryWrite(true));
    } else {
      var w :| w in Where(s.at, WriteSuspended);
      assert At(s, w, WriteSuspended);
    }
  }

  lemma StepKeepsWaking(s: State, e: Event)
    requires Inv(s) && Legal(s, e)
    ensures Waking(Step(s, e))
  {
    var s' := Step(s, e);
    if s.writeWaiters > 0 { WaitersAreThere(s); }
    forall f | At(s', f, WriteSuspended) ensures Held(s') {
      assert f != e.f ==> At(s, f, WriteSuspended);
    }
    forall f | At(s', f, ReadSuspended) ensures Held(s') || exists w :: At(s', w, TryWrite(true)) {
      assert f != e.f ==> At(s, f, ReadSuspended);
      if !Held(s') {
        var w :| At(s, w, TryWrite(true));
        assert At(s', w, TryWrite(true));
      }
    }
  }

  lemma StepKeepsInv(s: State, e: Event)
    requires Inv(s) && Legal(s, e)
    ensures Inv(Step(s, e))
  {
    if e.UnlockShared? || e.Unlock? { UnlockKeepsExact(s, e); } else { LookKeepsExact(s, e); }
    StepKeepsWaking(s, e);
  }

  lemma {:induction false} RunsKeepInv(s: State, run: seq<Event>)
    requires Inv(s) && LegalRun(s, run)
    ensures Inv(Exec(s, run))
    decreases run
  {
    if run != [] {
      StepKeepsInv(s, run[0]);
      RunsKeepInv(Step(s, run[0]), run[1..]);
    }
  }

  ghost predicate Reachable(s: State) {
    exists run :: LegalRun(Initial, run) && s == Exec(Initial, run)
  }

  lemma ReachableInv(s: State)
    requires Reachable(s)
    ensures Inv(s)
  {
    var run :| LegalRun(Initial, run) && s == Exec(Initial, run);
    RunsKeepInv(Initial, run);
  }

  /** In every reachable state a writer excludes readers and every other writer. */
  lemma MutualExclusion(s: State, f: Fiber, g: Fiber)
    requires Reachable(s) && At(s, f, Writing)
    ensures !At(s, g, Reading) && (At(s, g, Writing) ==> g == f)
  {
    ReachableInv(s);
    assert At(s, g, Reading) ==> g in Where(s.at, Reading);
  }

  /** In every reachable state the fields count exactly the fibers they stand for. */
  lemma CountersExact(s: State)
    requires Reachable(s)
    ensures s.readers == |Where(s.at, Reading)|
    ensures s.writeWaiters == |Where(s.at, TryWrite(true))| + |Where(s.at, WriteSuspended)|
    ensures forall f :: (s.owner == By(f) <==> At(s, f, Writing))
                        && (f in s.waitq <==> At(s, f, ReadSuspended) || At(s, f, WriteSuspended))
  {
    ReachableInv(s);
  }

  /** Readers share: a look for reading succeeds exactly when no fiber writes or waits to write, however many read. */
  lemma ReaderAdmittedIff(s: State, f: Fiber)
    requires Reachable(s) && At(s, f, TryRead)
    ensures At(Step(s, LookRead(f)), f, Reading)
            <==> forall g :: !At(s, g, Writing) && !At(s, g, TryWrite(true)) && !At(s, g, WriteSuspended)
  {
    ReachableInv(s);
    if s.writeWaiters != 0 {
      WaitersAreCounted(s);
    } else {
      forall g ensures !At(s, g, TryWrite(true)) && !At(s, g, WriteSuspended) {
        assert g !in Where(s.at, TryWrite(true)) && g !in Where(s.at, WriteSuspended);
      }
    }
    if s.owner != Nobody { assert At(s, s.owner.f, Writing); }
  }

  lemma WaitersAreCounted(s: State)
    requires Exact(s) && s.writeWaiters != 0
    ensures exists g :: At(s, g, TryWrite(true)) || At(s, g, WriteSuspended)
  {
    if Where(s.at, TryWrite(true)) != {} {
      var g :| g in Where(s.at, TryWrite(true));
      assert At(s, g, TryWrite(true));
    } else {
      var g :| g in Where(s.at, WriteSuspended);
      assert At(s, g, WriteSuspended);
    }
  }

  /** A look for writing succeeds exactly when no fiber holds the lock, whoever waits. */
  lemma WriterAdmittedIff(s: State, f: Fiber)
    requires Reachable(s) && f in s.at && s.at[f].TryWrite?
    ensures At(Step(s, LookWrite(f)), f, Writing) <==> forall g :: !At(s, g, Writing) && !At(s, g, Reading)
  {
    ReachableInv(s);
    if s.readers != 0 {
      var g :| g in Where(s.at, Reading);
      assert At(s, g, Reading);
    } else {
      forall g ensures !At(s, g, Reading) { assert g !in Where(s.at, Reading); }
    }
    if s.owner != Nobody { assert At(s, s.owner.f, Writing); }
  }

  /** Every unlock, of either kind, leaves nobody suspended. */
  lemma UnlockWakesAll(s: State, e: Event)
    requires Legal(s, e) && (e.UnlockShared? || e.Unlock?)
    ensures var s' := Step(s, e);
            && s'.waitq == [] && e.f !in s'.at
            && forall g :: !At(s', g, ReadSuspended) && !At(s', g, WriteSuspended)
                           && (g != e.f && At(s, g, ReadSuspended) ==> At(s', g, TryRead))
                           && (g != e.f && At(s, g, WriteSuspended) ==> At(s', g, TryWrite(true)))
  {
  }

  lemma {:induction false} ExecSnoc(s: State, run: seq<Event>, e: Event)
    requires LegalRun(s, run) && Legal(Exec(s, run), e)
    ensures LegalRun(s, run + [e]) && Exec(s, run + [e]) == Step(Exec(s, run), e)
    decreases run
  {
    if run == [] {
      assert run + [e] == [e] && [e][1..] == [];
    } else {
      ExecSnoc(Step(s, run[0]), run[1..], e);
      assert (run + [e])[1..] == run[1..] + [e];
    }
  }

  lemma ReachableStep(s: State, e: Event)
    requires Reachable(s) && Legal(s, e)
    ensures Reachable(Step(s, e))
  {
    var run :| LegalRun(Initial, run) && s == Exec(Initial, run);
    ExecSnoc(Initial, run, e);
    assert LegalRun(Initial, run + [e]);
  }

  /** Any number of fibers can hold the lock for reading at once. */
  lemma {:induction false} ManyReadersReachable(n: nat) returns (s: State)
    ensures Reachable(s) && s.readers == n && s.owner == Nobody && s.writeWaiters == 0
    ensures forall f: Fiber :: f in s.at <==> f < n
    ensures forall f :: f in s.at ==> s.at[f] == Reading
  {
    if n == 0 {
      s := Initial;
      assert LegalRun(Initial, []) && Exec(Initial, []) == Initial;
    } else {
      var s0 := ManyReadersReachable(n - 1);
      ReachableStep(s0, LockShared(n - 1));
      var s1 := Step(s0, LockShared(n - 1));
      ReachableStep(s1, LookRead(n - 1));
      s := Step(s1, LookRead(n - 1));
    }
  }

  /** A suspended fiber always has a holder, or an awake waiting writer, to wait for. */
  lemma NoStuckWaiter(s: State, f: Fiber)
    requires Reachable(s) && f in s.waitq
    ensures Held(s) || (At(s, f, ReadSuspended) && exists w :: At(s, w, TryWrite(true)))
  {
    ReachableInv(s);
  }

  // ---------------------------------------------------------------------------------------------------------------
  // Progress

  /** Steps other than new calls. */
  predicate Finishing(e: Event) {
    !e.LockShared? && !e.Lock?
  }

  /** Deadlock freedom: while any fiber uses the lock, some fiber can take a step. */
  lemma SomeoneCanMove(s: State) returns (e: Event)
    requires Inv(s) && s.at != map[]
    ensures Finishing(e) && Legal(s, e)
  {
    if s.owner != Nobody {
      e := Unlock(s.owner.f);
      assert At(s, s.owner.f, Writing);
    } else if s.readers > 0 {
      var f :| f in Where(s.at, Reading);
      e := UnlockShared(f);
    } else {
      var f :| f in s.at;
      if At(s, f, TryRead) {
        e := LookRead(f);
      } else if s.at[f].TryWrite? {
        e := LookWrite(f);
      } else {
        assert At(s, f, Reading) ==> f in Where(s.at, Reading);
        assert !At(s, f, Reading) && !At(s, f, Writing);
        assert At(s, f, ReadSuspended) || At(s, f, WriteSuspended);
        var w :| At(s, w, TryWrite(true));
        e := LookWrite(w);
      }
    }
  }

  function Awake(s: State): set<Fiber> {
    set f | f in s.at && (s.at[f] == TryRead || s.at[f].TryWrite?)
  }

  /** Fibers using the lock weigh more than all the looks a notify_all can cause. */
  function Left(s: State): nat {
    |s.at.Keys| * |s.at.Keys| + |Awake(s)|
  }

  lemma LookShrinks(s: State, e: Event)
    requires Legal(s, e) && (e.LookRead? || e.LookWrite?)
    ensures Left(Step(s, e)) < Left(s)
  {
    var s' := Step(s, e);
    assert s'.at.Keys == s.at.Keys;
    assert e.f in Awake(s);
    assert Awake(s') == Awake(s) - {e.f};
  }

  lemma UnlockShrinks(s: State, e: Event)
    requires Legal(s, e) && (e.UnlockShared? || e.Unlock?)
    ensures Left(Step(s, e)) < Left(s)
  {
    var s', n := Step(s, e), |s.at.Keys|;
    assert s'.at.Keys == s.at.Keys - {e.f} && |s'.at.Keys| == n - 1;
    Subset(Awake(s'), s'.at.Keys);
    assert (n - 1) * (n - 1) + (n - 1) < n * n;
  }

  lemma Subset<T>(a: set<T>, b: set<T>)
    requires a <= b
    ensures |a| <= |b|
  {
    assert b == a + (b - a);
  }

  /** Once no new calls arrive and holders do unlock, every schedule is finite and, run to its end, has served and
      released every fiber: no reader or writer starves. */
  lemma {:induction false} EveryoneIsServed(s: State, run: seq<Event>)
    requires Inv(s) && LegalRun(s, run)
    requires forall i :: 0 <= i < |run| ==> Finishing(run[i])
    ensures |run| <= Left(s)
    ensures (forall e :: Finishing(e) ==> !Legal(Exec(s, run), e)) ==> Exec(s, run).at == map[]
    decreases run
  {
    if run == [] {
      if s.at != map[] { var e := SomeoneCanMove(s); }
    } else {
      StepKeepsInv(s, run[0]);
      if run[0].UnlockShared? || run[0].Unlock? { UnlockShrinks(s, run[0]); } else { LookShrinks(s, run[0]); }
      EveryoneIsServed(Step(s, run[0]), run[1..]);
    }
  }

  predicate ReaderWins(s: State, e: Event)
    requires Legal(s, e)
  {
    e.LookRead? && At(Step(s, e), e.f, Reading)
  }

  predicate WriterWins(s: State, e: Event)
    requires Legal(s, e)
  {
    e.LookWrite? && At(Step(s, e), e.f, Writing)
  }

  /** No look of a reader succeeds before one of a writer does. */
  predicate WriterFirst(s: State, run: seq<Event>)
    requires LegalRun(s, run)
    decreases run
  {
    run == [] || WriterWins(s, run[0]) || (!ReaderWins(s, run[0]) && WriterFirst(Step(s, run[0]), run[1..]))
  }

  /** Writer priority: from when a writer waits until a writer gets the lock, no reader does, not even one that held it
      before. */
  lemma {:induction false} WaitingWriterBlocksReaders(s: State, run: seq<Event>)
    requires LegalRun(s, run) && s.writeWaiters > 0
    ensures WriterFirst(s, run)
    decreases run
  {
    if run != [] && !WriterWins(s, run[0]) { WaitingWriterBlocksReaders(Step(s, run[0]), run[1..]); }
  }

  // ---------------------------------------------------------------------------------------------------------------
  // An unlock by a fiber that does not hold the lock

  /** What unlock_shared does once it has found a reader, whoever calls it. */
  function Released(s: State, f: Fiber): State {
    NotifyAll(s.(readers := s.readers - 1, at := s.at - {f}))
  }

  /** unlock_shared refuses only when nobody reads; otherwise it leaves the lock sound exactly when its caller reads. */
  lemma ReleaseSoundIff(s: State, f: Fiber)
    requires Inv(s) && s.readers > 0 && (f in s.at ==> At(s, f, Reading))
    ensures Inv(Released(s, f)) <==> At(s, f, Reading)
  {
    if At(s, f, Reading) {
      StepKeepsInv(s, UnlockShared(f));
    } else {
      WakeAllCounts(s.at);
      assert s.at - {f} == s.at;
    }
  }

  /** And mutual exclusion is gone with it: a single reader loses its protection to a stranger's unlock. */
  lemma ForeignUnlockLetsWriterIn(s: State, f: Fiber, g: Fiber)
    requires Inv(s) && s.readers == 1 && At(s, f, Reading) && g !in s.at
    ensures var s' := Step(Released(s, g), Lock(g)); Legal(s', LookWrite(g))
    ensures var s' := Step(Step(Released(s, g), Lock(g)), LookWrite(g)); At(s', g, Writing) && At(s', f, Reading)
  {
    assert s.at - {g} == s.at;
    assert Released(s, g).at[f] == Reading;
  }

  /** Such a state is reached with one reader. */
  lemma OneReaderReachable() returns (s: State)
    ensures Reachable(s) && s.readers == 1 && At(s, 0, Reading) && 1 !in s.at
    ensures var s' := Step(Step(Released(s, 1), Lock(1)), LookWrite(1)); At(s', 1, Writing) && At(s', 0, Reading)
  {
    var run := [LockShared(0), LookRead(0)];
    var s1 := Step(Initial, run[0]);
    assert run[1..] == [run[1]] && run[1..][1..] == [];
    s := Step(s1, run[1]);
    assert LegalRun(s, []) && LegalRun(s1, run[1..]) && Exec(s1, run[1..]) == s;
    assert LegalRun(Initial, run) && Exec(Initial, run) == s;
    ReachableInv(s);
    ForeignUnlockLetsWriterIn(s, 0, 1);
  }

  // ---------------------------------------------------------------------------------------------------------------
  // The lock object

  class FiberSharedMutex {
    var writeOwner: Owner
    var readers: int
    var writeWaiters: int
    var waitQ: seq<Fiber>
    ghost var at: map<Fiber, Place>

    ghost function Now(): State
      reads this
    {
      State(writeOwner, readers, writeWaiters, waitQ, at)
    }

    constructor ()
      ensures Now() == Initial && Inv(Now())
    {
      writeOwner, readers, writeWaiters, waitQ, at := Nobody, 0, 0, [], map[];
      new;
      RunsKeepInv(Initial, []);
    }

    /** One turn of the loop in lock_shared, made by fiber `me`. */
    method LookShared(me: Fiber) returns (won: bool)
      requires Inv(Now()) && Legal(Now(), LookRead(me))
      modifies this
      ensures Now() == Step(old(Now()), LookRead(me)) && Inv(Now())
      ensures won <==> At(Now(), me, Reading)
    {
      StepKeepsInv(Now(), LookRead(me));
      if writeOwner != Nobody || writeWaiters != 0 {
        waitQ := waitQ + [me];
        at := at[me := ReadSuspended];
        return false;
      } else {
        readers := readers + 1;
        at := at[me := Reading];
        return true;
      }
    }

    /** One turn of the loop in lock; `amIWriteWaiter` is the local variable of the calling fiber. */
    method Look(me: Fiber, amIWriteWaiter: bool) returns (won: bool, nowWaiter: bool)
      requires Inv(Now()) && At(Now(), me, TryWrite(amIWriteWaiter))
      modifies this
      ensures Now() == Step(old(Now()), LookWrite(me)) && Inv(Now())
      ensures won <==> At(Now(), me, Writing)
      ensures !won ==> nowWaiter && Woken(Now().at[me]) == TryWrite(nowWaiter)
    {
      StepKeepsInv(Now(), LookWrite(me));
      nowWaiter := amIWriteWaiter;
      if writeOwner == Nobody && readers == 0 {
        writeOwner := By(me);
        if amIWriteWaiter {
          writeWaiters := writeWaiters - 1;
        }
        at := at[me := Writing];
        won := true;
      } else {
        if !amIWriteWaiter {
          writeWaiters := writeWaiters + 1;
          nowWaiter := true;
        }
        waitQ := waitQ + [me];
        at := at[me := WriteSuspended];
        won := false;
      }
    }

    /** Throws, leaving the lock alone, when no reader holds it; who calls is not looked at.  A running fiber either
        holds the lock or does not use it. */
    method UnlockShared(me: Fiber) returns (ok: bool)
      requires Inv(Now()) && (me in at ==> at[me] == Reading || at[me] == Writing)
      modifies this
      ensures ok <==> old(readers) > 0
      ensures Now() == if ok then Released(old(Now()), me) else old(Now())
      ensures Inv(Now()) <==> !ok || At(old(Now()), me, Reading)
    {
      if readers == 0 {
        return false;
      }
      assert !At(Now(), me, Writing);
      ReleaseSoundIff(Now(), me);
      readers := readers - 1;
      waitQ, at := [], WakeAll(at - {me});
      return true;
    }

    /** Throws, leaving the lock alone, unless the caller owns it. */
    method Unlock(me: Fiber) returns (ok: bool)
      requires Inv(Now())
      modifies this
      ensures ok <==> At(old(Now()), me, Writing)
      ensures Now() == (if ok then Step(old(Now()), Event.Unlock(me)) else old(Now())) && Inv(Now())
    {
      if writeOwner != By(me) {
        return false;
      }
      assert At(Now(), me, Writing);
      StepKeepsInv(Now(), Event.Unlock(me));
      writeOwner := Nobody;
      waitQ, at := [], WakeAll(at - {me});
      return true;
    }
  }
}
