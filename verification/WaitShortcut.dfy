/** Where deliver_msg puts a copy (src/lib/reactor/reactor.cpp): handled on the spot when sender and receiver are on the
    same thread, so that a fiber never waits for itself. */
module WaitShortcut {
  import MF = MessageFlow
  import opened MulticastWait
  import opened WaitCycles

  predicate SameReactor(x: Caller, d: Delivery) {
    x.OnFiber? && x.reactor == d.reactor
  }

  /** A copy to the caller's own fiber has run, and its future is set, when the delivery is over. */
  lemma OwnFiberRunsAtOnce(w: World, x: Caller, d: Delivery)
    requires Legal(w, Send(x, d)) && SameReactor(x, d) && d.fiber == x.fiber
    ensures var s, s' := w.reactors[d.reactor], Step(w, Send(x, d)).reactors[d.reactor];
            && s'.executed == s.executed + [Message(d)] && s'.ranOn == s.ranOn + [x.fiber]
            && s'.mailbox == s.mailbox && s'.fibers == s.fibers
    ensures Settled(Step(w, Send(x, d)).reactors, d)
  {
  }

  /** A copy to another fiber of the caller's reactor is the last in that fiber's queue, past the mailbox. */
  lemma OtherFiberQueuesAtOnce(w: World, x: Caller, d: Delivery)
    requires Sound(w.reactors) && Legal(w, Send(x, d)) && SameReactor(x, d) && d.fiber != x.fiber
    ensures var s, s' := w.reactors[d.reactor], Step(w, Send(x, d)).reactors[d.reactor];
            && MF.Queued(s', d.fiber) == MF.Queued(s, d.fiber) + [Message(d)]
            && s'.mailbox == s.mailbox && s'.executed == s.executed
            && forall f :: f != d.fiber ==> MF.Queued(s', f) == MF.Queued(s, f)
  {
    var s, m := w.reactors[d.reactor], Message(d);
    assert MF.Inv(s) && MF.QueueOk(s.fibers[d.fiber], d.fiber);
    var s1 := s.(sent := s.sent + [m], stranded := if ToOwnMain(x, d) then s.stranded + [m] else s.stranded);
    MF.HandleQueues(s1, m, x.fiber, d.fiber);
  }

  /** Any other copy is the last in the receiver's mailbox. */
  lemma ElsewhereGoesToMailbox(w: World, x: Caller, d: Delivery)
    requires Legal(w, Send(x, d)) && !SameReactor(x, d)
    ensures var s, s' := w.reactors[d.reactor], Step(w, Send(x, d)).reactors[d.reactor];
            s'.mailbox == s.mailbox + [Message(d)] && s'.fibers == s.fibers && s'.executed == s.executed
  {
  }

  /** Copies within the caller's reactor are in no mailbox, and those to its own fiber have run. */
  ghost predicate Near(rs: Reactors, x: Caller, d: Delivery) {
    SameReactor(x, d) ==>
      d.reactor in rs && Message(d) !in rs[d.reactor].mailbox && (d.fiber == x.fiber ==> Settled(rs, d))
  }

  ghost predicate AllNear(w: World) {
    forall x, d :: Awaits(w, x, d) ==> Near(w.reactors, x, d)
  }

  lemma NearStays(rs: Reactors, r: ReactorId, e: MF.Event, x: Caller, d: Delivery)
    requires CanAct(rs, r, e) && Near(rs, x, d) && (SameReactor(x, d) ==> Sent(rs, d))
    ensures Near(Acted(rs, r, e), x, d)
  {
    if SameReactor(x, d) && r == d.reactor {
      MailboxFrom(rs[r], e, Message(d));
      FulfilledStays(rs[r], e, Message(d));
    }
  }

  lemma MailboxFrom(s: MF.State, e: MF.Event, m: MF.Msg)
    requires MF.Legal(s, e) && m in s.sent
    ensures m in MF.Step(s, e).mailbox ==> m in s.mailbox
  {
  }

  lemma FulfilledStays(s: MF.State, e: MF.Event, m: MF.Msg)
    requires MF.Legal(s, e)
    ensures s.fulfilled[m] <= MF.Step(s, e).fulfilled[m]
  {
  }

  lemma JustSentNear(w: World, x: Caller, d: Delivery)
    requires Sound(w.reactors) && Legal(w, Send(x, d))
    ensures Near(Step(w, Send(x, d)).reactors, x, d)
  {
    if SameReactor(x, d) {
      NotYetInMailbox(w.reactors[d.reactor], Message(d));
      if d.fiber == x.fiber { OwnFiberRunsAtOnce(w, x, d); } else { OtherFiberQueuesAtOnce(w, x, d); }
    }
  }

  lemma NotYetInMailbox(s: MF.State, m: MF.Msg)
    requires MF.Conserved(s) && m !in s.sent
    ensures m !in s.mailbox
  {
    assert MF.Occurrences(s, m) == multiset(s.sent)[m] == 0;
    assert m !in multiset(s.mailbox);
  }

  lemma NearKept(w: World, e: Event, x: Caller, d: Delivery)
    requires Inv(w) && AllNear(w) && Legal(w, e) && Awaits(Step(w, e), x, d)
    ensures Near(Step(w, e).reactors, x, d)
  {
    AwaitedBefore(w, e, x, d);
    if Awaits(w, x, d) {
      assert SentBy(w.reactors, d, x) && Near(w.reactors, x, d);
      match e
      case On(r, a) => NearStays(w.reactors, r, a, x, d);
      case Send(y, c) => NearStays(w.reactors, c.reactor, Sending(c, y), x, d);
      case _ =>
    } else {
      JustSentNear(w, x, d);
    }
  }

  lemma {:induction false} RunsKeepNear(w: World, run: seq<Event>)
    requires Inv(w) && AllNear(w) && LegalRun(w, run)
    ensures AllNear(Exec(w, run))
    decreases run
  {
    if run != [] {
      var w' := Step(w, run[0]);
      forall x, d | Awaits(w', x, d) ensures Near(w'.reactors, x, d) { NearKept(w, run[0], x, d); }
      StepKeepsInv(w, run[0]);
      RunsKeepNear(w', run[1..]);
    }
  }

  /** Over all reachable worlds no fiber waits for a copy that it would have to take itself. */
  lemma NeverWaitsOnItself(w: World, x: Caller)
    requires Reachable(w)
    ensures !WaitsOn(w, x, x)
  {
    ReachableInv(w);
    var fibers, run :| LegalRun(Fresh(fibers), run) && w == Exec(Fresh(fibers), run);
    FreshInv(fibers);
    RunsKeepNear(Fresh(fibers), run);
    forall d | Awaits(w, x, d) ensures !LiesWith(w.reactors, d, x) {
      assert Near(w.reactors, x, d);
      if LiesWith(w.reactors, d, x) { LyingIsUnsettled(w.reactors, d, x); }
    }
  }
}
