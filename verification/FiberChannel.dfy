/** The message queue of an I/O fiber (src/lib/reactor/fiber_lib_boost.cpp): a bounded channel with an unbounded
    overflow queue behind it, meant to act as one unbounded first-in first-out queue. */
module FiberChannel {
  import opened Options

  datatype Fifo<T> = Fifo(channel: seq<T>, overflow: seq<T>, closed: bool)

  datatype Status = Success | Full | Closed

  /** What the queue stands for. */
  function Contents<T>(q: Fifo<T>): seq<T> {
    q.channel + q.overflow
  }

  predicate Ordered<T>(q: Fifo<T>, cap: nat) {
    |q.channel| <= cap && (q.overflow != [] ==> |q.channel| == cap)
  }

  /** try_push of the bounded channel. */
  function TryPush<T>(channel: seq<T>, closed: bool, cap: nat, m: T): (r: (seq<T>, Status)) {
    if closed then (channel, Closed)
    else if |channel| >= cap then (channel, Full)
    else (channel + [m], Success)
  }

  function Push<T>(q: Fifo<T>, cap: nat, m: T): Fifo<T> {
    var (channel, status) := TryPush(q.channel, q.closed, cap, m);
    Fifo(channel, if status == Full then q.overflow + [m] else q.overflow, q.closed)
  }

  /** pop blocks while the channel is empty and open; on a closed and empty one it yields nothing. */
  predicate CanPop<T>(q: Fifo<T>) {
    q.channel != [] || q.closed
  }

  function Pop<T>(q: Fifo<T>, cap: nat): (r: (Fifo<T>, Option<T>))
    requires CanPop(q)
    ensures r.1 == None <==> q.channel == []
  {
    var (m, rest) := if q.channel == [] then (None, []) else (Some(q.channel[0]), q.channel[1..]);
    if q.overflow == [] then (q.(channel := rest), m)
    else
      var (channel, status) := TryPush(rest, q.closed, cap, q.overflow[0]);
      (q.(channel := channel, overflow := if status == Success then q.overflow[1..] else q.overflow), m)
  }

  /** push_msg on an open channel appends; on a closed one the message goes nowhere. */
  lemma PushAppends<T>(q: Fifo<T>, cap: nat, m: T)
    requires Ordered(q, cap)
    ensures Ordered(Push(q, cap, m), cap)
    ensures Contents(Push(q, cap, m)) == if q.closed then Contents(q) else Contents(q) + [m]
  {
    assert q.overflow == [] ==> q.channel + q.overflow == q.channel;
    assert q.channel + (q.overflow + [m]) == (q.channel + q.overflow) + [m];
  }

  /** pop_msg on an open channel removes the head, and its move from the overflow queue never fails. */
  lemma PopRemovesHead<T>(q: Fifo<T>, cap: nat)
    requires Ordered(q, cap) && !q.closed && CanPop(q)
    ensures var (q', m) := Pop(q, cap);
            Ordered(q', cap) && m.Some? && [m.value] + Contents(q') == Contents(q) && !q'.closed
    ensures q.overflow != [] ==> TryPush(q.channel[1..], q.closed, cap, q.overflow[0]).1 == Success
  {
    assert q.channel == [q.channel[0]] + q.channel[1..];
    if q.overflow != [] {
      assert q.overflow == [q.overflow[0]] + q.overflow[1..];
      assert (q.channel[1..] + [q.overflow[0]]) + q.overflow[1..] == q.channel[1..] + q.overflow;
    }
  }

  /** With room for at least one message in the channel, the queue is empty exactly when the fiber would block. */
  lemma BlocksOnlyWhenEmpty<T>(q: Fifo<T>, cap: nat)
    requires Ordered(q, cap) && cap > 0 && !q.closed
    ensures CanPop(q) <==> Contents(q) != []
  {
  }

  datatype Op<T> = PushOp(m: T) | PopOp

  predicate LegalOps<T>(q: Fifo<T>, cap: nat, ops: seq<Op<T>>)
    decreases ops
  {
    ops == [] ||
    match ops[0]
    case PushOp(m) => LegalOps(Push(q, cap, m), cap, ops[1..])
    case PopOp => CanPop(q) && LegalOps(Pop(q, cap).0, cap, ops[1..])
  }

  /** The messages popped by a run, in order. */
  function Popped<T>(q: Fifo<T>, cap: nat, ops: seq<Op<T>>): seq<Option<T>>
    requires LegalOps(q, cap, ops)
    decreases ops
  {
    if ops == [] then []
    else
      match ops[0]
      case PushOp(m) => Popped(Push(q, cap, m), cap, ops[1..])
      case PopOp => [Pop(q, cap).1] + Popped(Pop(q, cap).0, cap, ops[1..])
  }

  /** The run on a plain unbounded queue, which blocks on a pop while it is empty. */
  predicate PlainLegal<T>(s: seq<T>, ops: seq<Op<T>>)
    decreases ops
  {
    ops == [] ||
    match ops[0]
    case PushOp(m) => PlainLegal(s + [m], ops[1..])
    case PopOp => s != [] && PlainLegal(s[1..], ops[1..])
  }

  function PlainPopped<T>(s: seq<T>, ops: seq<Op<T>>): seq<Option<T>>
    requires PlainLegal(s, ops)
    decreases ops
  {
    if ops == [] then []
    else
      match ops[0]
      case PushOp(m) => PlainPopped(s + [m], ops[1..])
      case PopOp => [Some(s[0])] + PlainPopped(s[1..], ops[1..])
  }

  /** Channel plus overflow is one unbounded queue: it blocks on the same operations as the plain one, and every run
      gives exactly the same messages. */
  lemma {:induction false} RefinesUnboundedQueue<T>(q: Fifo<T>, cap: nat, ops: seq<Op<T>>)
    requires Ordered(q, cap) && cap > 0 && !q.closed
    ensures LegalOps(q, cap, ops) <==> PlainLegal(Contents(q), ops)
    ensures LegalOps(q, cap, ops) ==> Popped(q, cap, ops) == PlainPopped(Contents(q), ops)
    decreases ops
  {
    if ops != [] {
      if ops[0].PushOp? {
        PushAppends(q, cap, ops[0].m);
        RefinesUnboundedQueue(Push(q, cap, ops[0].m), cap, ops[1..]);
      } else {
        BlocksOnlyWhenEmpty(q, cap);
        if CanPop(q) {
          PopRemovesHead(q, cap);
          var (q', m) := Pop(q, cap);
          assert Contents(q)[0] == m.value && Contents(q)[1..] == Contents(q');
          RefinesUnboundedQueue(q', cap, ops[1..]);
        }
      }
    }
  }

  const MAX_CHANNEL_CAP: nat := 1024

  class IOFiber<T> {
    var channel: seq<T>
    var overflowMsgs: seq<T>
    var closed: bool

    ghost function Now(): Fifo<T>
      reads this
    {
      Fifo(channel, overflowMsgs, closed)
    }

    ghost predicate Valid()
      reads this
    {
      Ordered(Now(), MAX_CHANNEL_CAP)
    }

    constructor ()
      ensures Valid() && Contents(Now()) == [] && !closed
    {
      channel, overflowMsgs, closed := [], [], false;
    }

    /** The answer says whether the message went straight into the channel; an overflowing one is kept all the same. */
    method PushMsg(m: T) returns (direct: bool)
      requires Valid()
      modifies this
      ensures Valid() && closed == old(closed)
      ensures Contents(Now()) == if closed then old(Contents(Now())) else old(Contents(Now())) + [m]
      ensures direct <==> !closed && |old(Contents(Now()))| < MAX_CHANNEL_CAP
    {
      PushAppends(Now(), MAX_CHANNEL_CAP, m);
      var (ch, status) := TryPush(channel, closed, MAX_CHANNEL_CAP, m);
      channel := ch;
      if status == Full {
        overflowMsgs := overflowMsgs + [m];
      }
      direct := status == Success;
    }

    method PopMsg() returns (m: Option<T>)
      requires Valid() && CanPop(Now())
      modifies this
      ensures !old(closed) ==> Valid() && m.Some? && [m.value] + Contents(Now()) == old(Contents(Now()))
      ensures Now() == Pop(old(Now()), MAX_CHANNEL_CAP).0 && m == Pop(old(Now()), MAX_CHANNEL_CAP).1
    {
      if !closed { PopRemovesHead(Now(), MAX_CHANNEL_CAP); }
      m := None;
      if channel != [] {
        m := Some(channel[0]);
        channel := channel[1..];
      }
      if overflowMsgs != [] {
        var (ch, status) := TryPush(channel, closed, MAX_CHANNEL_CAP, overflowMsgs[0]);
        if status == Success {
          channel := ch;
          overflowMsgs := overflowMsgs[1..];
        }
      }
    }
  }
}
