/** The recurring global timer of SPDK mode (src/lib/iomgr_timer.cpp): every worker polls with its own term number, and
    a compare-and-exchange on one shared word lets a single one of them make the callback of each term. */
module GlobalTimer {
  import opened Counting
  import opened Options

  type Worker = nat

  const UINT64_MAX: nat := 0xffff_ffff_ffff_ffff

  /** Where a worker is in call_timer_cb_once. */
  datatype Place =
    | Resting
    | Swapping      // has raised its term, not yet tried the exchange
    | Calling       // won the exchange, has not entered the callback yet

  datatype Poller = Poller(term: nat, place: Place)

  datatype State = State(
    cur: nat,                       // cur_term_num
    cancelled: bool,                // cancel_global_timer has done its store
    pollers: map<Worker, Poller>,
    won: seq<nat>,                  // terms whose exchange succeeded, in order
    calls: nat)                     // callbacks entered

  datatype Event =
    | Join(w: Worker)               // the timer is registered on a worker, possibly late
    | Raise(w: Worker)
    | Swap(w: Worker)
    | Call(w: Worker)
    | Cancel
    | Leave(w: Worker)              // unregistered, after a cancel

  const Initial := State(0, false, map[], [], 0)

  predicate At(s: State, w: Worker, p: Place) {
    w in s.pollers && s.pollers[w].place == p
  }

  /** Terms stay below the value cancel stores. */
  predicate Legal(s: State, e: Event) {
    match e
    case Join(w) => w !in s.pollers
    case Raise(w) => At(s, w, Resting) && s.pollers[w].term + 1 < UINT64_MAX
    case Swap(w) => At(s, w, Swapping)
    case Call(w) => At(s, w, Calling)
    case Cancel => !s.cancelled
    case Leave(w) => s.cancelled && At(s, w, Resting)
  }

  function Step(s: State, e: Event): State
    requires Legal(s, e)
  {
    match e
    case Join(w) => s.(pollers := s.pollers[w := Poller(0, Resting)])
    case Raise(w) => s.(pollers := s.pollers[w := Poller(s.pollers[w].term + 1, Swapping)])
    case Swap(w) =>
      var term := s.pollers[w].term;
      if s.cur == term - 1 then s.(cur := term, won := s.won + [term], pollers := s.pollers[w := Poller(term, Calling)])
      else s.(pollers := s.pollers[w := Poller(term, Resting)])
    case Call(w) => s.(calls := s.calls + 1, pollers := s.pollers[w := s.pollers[w].(place := Resting)])
    case Cancel => s.(cur := UINT64_MAX, cancelled := true)
    case Leave(w) => s.(pollers := s.pollers - {w})
  }

  predicate LegalRun(s: State, run: seq<Event>)
    decreases run
  {
    run == [] || (Legal(s, run[0]) && LegalRun(Step(s, run[0]), run[1..]))
  }

  function Exec(s: State, run: seq<Event>): State
    requires LegalRun(s, run)
    decreases run
  {
    if run == [] then s else Exec(Step(s, run[0]), run[1..])
  }

  /** Polls a worker has finished trying. */
  function Completed(p: Poller): int {
    if p.place == Swapping then p.term - 1 else p.term
  }

  function Callers(s: State): set<Worker> {
    set w | w in s.pollers && s.pollers[w].place == Calling
  }

  ghost predicate Inv(s: State) {
    && (forall i :: 0 <= i < |s.won| ==> s.won[i] == i + 1)
    && s.calls + |Callers(s)| == |s.won|
    && (forall w :: w in s.pollers ==>
          s.pollers[w].term < UINT64_MAX && (s.pollers[w].place == Swapping ==> s.pollers[w].term > 0))
    && if s.cancelled then s.cur == UINT64_MAX else Leading(s)
  }

  lemma CallersUpdated(s: State, w: Worker, p: Poller)
    ensures |Callers(s.(pollers := s.pollers[w := p]))| == |Callers(s)| - One(At(s, w, Calling))
            + One(p.place == Calling)
  {
    var others := Callers(s) - {w};
    assert Callers(s.(pollers := s.pollers[w := p])) == if p.place == Calling then others + {w} else others;
    assert Callers(s) == if At(s, w, Calling) then others + {w} else others;
  }

  /** Until a cancel the shared word is the most polls anyone completed. */
  ghost predicate Leading(s: State) {
    && s.cur == |s.won|
    && (forall w :: w in s.pollers ==> Completed(s.pollers[w]) <= s.cur)
    && (s.cur > 0 ==> exists w :: w in s.pollers && Completed(s.pollers[w]) == s.cur)
  }

  lemma WorkerStepLeads(s: State, e: Event)
    requires Leading(s) && Legal(s, e) && !e.Cancel? && !e.Leave?
    requires e.Swap? ==> s.pollers[e.w].term > 0
    ensures Leading(Step(s, e))
  {
    var s', w := Step(s, e), e.w;
    if s'.cur > s.cur {
      assert Completed(s'.pollers[w]) == s'.cur;
    } else if s.cur > 0 {
      var x :| x in s.pollers && Completed(s.pollers[x]) == s.cur;
      assert Completed(s'.pollers[x]) == s'.cur;
    }
  }

  lemma WorkerStepKeepsInv(s: State, e: Event)
    requires Inv(s) && Legal(s, e) && !e.Cancel? && !e.Leave?
    ensures Inv(Step(s, e))
  {
    var s', w := Step(s, e), e.w;
    CallersUpdated(s, w, s'.pollers[w]);
    assert Callers(s') == Callers(s.(pollers := s.pollers[w := s'.pollers[w]]));
    if !s.cancelled { WorkerStepLeads(s, e); }
  }

  lemma StepKeepsInv(s: State, e: Event)
    requires Inv(s) && Legal(s, e)
    ensures Inv(Step(s, e))
  {
    if e.Cancel? {
      assert Callers(Step(s, e)) == Callers(s);
    } else if e.Leave? {
      assert Callers(Step(s, e)) == Callers(s);
    } else {
      WorkerStepKeepsInv(s, e);
    }
  }

  lemma {:induction false} RunsKeepInv(s: State, run: seq<Event>)
    requires Inv(s) && LegalRun(s, run)
    ensures Inv(Exec(s, run))
    decreases run
  {
    if run != [] {
      StepKeepsInv(s, run[0]);
      RunsKeepInv(Step(s, run[0]), run[1..]);
    }
  }

  ghost predicate Reachable(s: State) {
    exists run :: LegalRun(Initial, run) && s == Exec(Initial, run)
  }

  /** In every reachable state the terms won are 1, 2, 3, ... with none repeated or skipped; every one of them has made
      its callback or is about to; and until a cancel their number is the shared word, which is also the largest number
      of polls any worker has completed. */
  lemma OneCallbackPerTerm(s: State)
    requires Reachable(s)
    ensures forall i :: 0 <= i < |s.won| ==> s.won[i] == i + 1
    ensures s.calls + |Callers(s)| == |s.won|
    ensures !s.cancelled ==> s.cur == |s.won|
    ensures !s.cancelled ==> forall w :: w in s.pollers ==> Completed(s.pollers[w]) <= s.cur
    ensures !s.cancelled && s.cur > 0 ==> exists w :: w in s.pollers && Completed(s.pollers[w]) == s.cur
  {
    var run :| LegalRun(Initial, run) && s == Exec(Initial, run);
    assert Callers(Initial) == {};
    RunsKeepInv(Initial, run);
  }

  /** The polls a worker has begun since it was registered, from the events alone; none while it is not registered. */
  function PollsAfter(polls: Option<nat>, run: seq<Event>, w: Worker): Option<nat>
    decreases run
  {
    if run == [] then polls
    else
      PollsAfter(match run[0]
                 case Join(x) => if x == w then Some(0) else polls
                 case Leave(x) => if x == w then None else polls
                 case Raise(x) => if x == w && polls.Some? then Some(polls.value + 1) else polls
                 case _ => polls, run[1..], w)
  }

  function Polls(s: State, w: Worker): Option<nat> {
    if w in s.pollers then Some(s.pollers[w].term) else None
  }

  /** A worker's term is the number of its polls, won or lost. */
  lemma {:induction false} TermsFromEvents(s: State, run: seq<Event>, w: Worker)
    requires LegalRun(s, run)
    ensures Polls(Exec(s, run), w) == PollsAfter(Polls(s, w), run, w)
    decreases run
  {
    if run != [] { TermsFromEvents(Step(s, run[0]), run[1..], w); }
  }

  /** The callbacks made or about to be made are at least as many as the polls any worker has finished, and no more than
      the polls of some worker: each round of polls makes one. */
  lemma CallbacksFollowPolls(run: seq<Event>, w: Worker)
    requires LegalRun(Initial, run) && forall i :: 0 <= i < |run| ==> run[i] != Cancel
    ensures var s, polls := Exec(Initial, run), PollsAfter(None, run, w);
            && (polls.Some? ==> |s.won| >= polls.value - One(At(s, w, Swapping)))
            && (s.won != [] ==>
                  exists x :: PollsAfter(None, run, x).Some? && |s.won| <= PollsAfter(None, run, x).value)
  {
    var s := Exec(Initial, run);
    NotCancelled(Initial, run);
    OneCallbackPerTerm(s);
    TermsFromEvents(Initial, run, w);
    if s.won != [] {
      var x :| x in s.pollers && Completed(s.pollers[x]) == s.cur;
      TermsFromEvents(Initial, run, x);
    }
  }

  lemma {:induction false} NotCancelled(s: State, run: seq<Event>)
    requires LegalRun(s, run) && !s.cancelled && forall i :: 0 <= i < |run| ==> run[i] != Cancel
    ensures !Exec(s, run).cancelled
    decreases run
  {
    if run != [] { NotCancelled(Step(s, run[0]), run[1..]); }
  }

  /** After cancel's store no exchange succeeds any more; the callbacks still to come are those already won. */
  lemma {:induction false} NoTermWonAfterCancel(s: State, run: seq<Event>)
    requires Inv(s) && s.cancelled && LegalRun(s, run)
    ensures Exec(s, run).won == s.won
    ensures s.calls <= Exec(s, run).calls <= s.calls + |Callers(s)|
    decreases run
  {
    if run != [] {
      StepKeepsInv(s, run[0]);
      NoTermWonAfterCancel(Step(s, run[0]), run[1..]);
    }
  }

  lemma ExecOne(s: State, e: Event)
    requires Legal(s, e)
    ensures LegalRun(s, [e]) && Exec(s, [e]) == Step(s, e)
  {
    var run := [e];
    assert run[1..] == [];
    assert LegalRun(Step(s, e), run[1..]) && Exec(Step(s, e), run[1..]) == Step(s, e);
  }

  /** The comment on cancel_global_timer says the callback is never called once it returns.  That holds exactly when no
      worker stands between its exchange and the callback at that moment. */
  lemma SilentAfterCancelIff(s: State)
    requires Inv(s) && s.cancelled
    ensures (forall run :: LegalRun(s, run) ==> Exec(s, run).calls == s.calls) <==> Callers(s) == {}
  {
    if Callers(s) == {} {
      forall run | LegalRun(s, run) ensures Exec(s, run).calls == s.calls { NoTermWonAfterCancel(s, run); }
    } else {
      var w :| w in Callers(s);
      ExecOne(s, Call(w));
      assert Exec(s, [Call(w)]).calls == s.calls + 1;
    }
  }

  /** And such a moment exists: one worker polls, wins, and is overtaken by the cancel. */
  lemma CallbackAfterCancel() returns (s: State)
    ensures Reachable(s) && s.cancelled && s.calls == 0 && Callers(s) == {0}
  {
    var run := [Join(0), Raise(0), Swap(0), Cancel];
    var s1 := Step(Initial, Join(0));
    var s2 := Step(s1, Raise(0));
    var s3 := Step(s2, Swap(0));
    s := Step(s3, Cancel);
    assert run[1..] == [Raise(0), Swap(0), Cancel] && run[1..][1..] == [Swap(0), Cancel];
    assert [Swap(0), Cancel][1..] == [Cancel] && [Cancel][1..] == [];
    assert LegalRun(s3, [Cancel]) && Exec(s3, [Cancel]) == s;
    assert LegalRun(s2, [Swap(0), Cancel]) && Exec(s2, [Swap(0), Cancel]) == s;
    assert LegalRun(s1, run[1..]) && Exec(s1, run[1..]) == s;
    assert LegalRun(Initial, run) && Exec(Initial, run) == s;
  }

  class SpdkTimerInfo {
    var curTermNum: nat
    var cancelled: bool
    var pollers: map<Worker, Poller>
    var calls: nat
    ghost var won: seq<nat>

    ghost function Now(): State
      reads this
    {
      State(curTermNum, cancelled, pollers, won, calls)
    }

    /** The local increment of call_timer_cb_once. */
    method RaiseTerm(w: Worker)
      requires Inv(Now()) && Legal(Now(), Raise(w))
      modifies this
      ensures Now() == Step(old(Now()), Raise(w)) && Inv(Now())
    {
      StepKeepsInv(Now(), Raise(w));
      pollers := pollers[w := Poller(pollers[w].term + 1, Swapping)];
    }

    /** compare_exchange_strong of the old term against the new one. */
    method CompareExchange(w: Worker) returns (mine: bool)
      requires Inv(Now()) && Legal(Now(), Swap(w))
      modifies this
      ensures Now() == Step(old(Now()), Swap(w)) && Inv(Now())
      ensures mine <==> won == old(won) + [pollers[w].term]
    {
      StepKeepsInv(Now(), Swap(w));
      var term := pollers[w].term;
      if curTermNum == term - 1 {
        curTermNum := term;
        won := won + [term];
        pollers := pollers[w := Poller(term, Calling)];
        return true;
      }
      pollers := pollers[w := Poller(term, Resting)];
      return false;
    }

    method RunCallback(w: Worker)
      requires Inv(Now()) && Legal(Now(), Call(w))
      modifies this
      ensures Now() == Step(old(Now()), Call(w)) && Inv(Now())
    {
      StepKeepsInv(Now(), Call(w));
      calls := calls + 1;
      pollers := pollers[w := pollers[w].(place := Resting)];
    }

    method CancelGlobalTimer()
      requires Inv(Now()) && !cancelled
      modifies this
      ensures Now() == Step(old(Now()), Cancel) && Inv(Now())
    {
      StepKeepsInv(Now(), Cancel);
      curTermNum, cancelled := UINT64_MAX, true;
    }
  }
}
