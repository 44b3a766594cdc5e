/**
 * The bounded connection queue: a FIFO of accepted sockets with a fixed
 * capacity and a shutdown flag.
 *
 * The queue is modelled single-threaded. A timed wait on the condition
 * variable becomes "the wait predicate holds now, otherwise the call fails";
 * the wait without timeout may only be entered when its predicate already
 * holds, since otherwise it would block forever.
 */
module ConnectionQueues {
  import opened Wrappers
  import opened Sockets

  /** The queue as a value: its sockets front first, its capacity and its shutdown flag. */
  datatype QueueState = QueueState(items: seq<Socket>, maxSize: nat, shutdown: bool)

  /** The queue never holds more sockets than its capacity. */
  predicate Bounded(q: QueueState) {
    |q.items| <= q.maxSize
  }

  /** A freshly constructed queue. */
  function Init(maxSize: nat): QueueState {
    QueueState([], maxSize, false)
  }

  /**
   * `push`: wait for room or shutdown, give up if shut down, else append at
   * the back. The second component reports success.
   */
  function PushStep(q: QueueState, s: Socket): (r: (QueueState, bool))
    ensures r.1 <==> !q.shutdown && |q.items| < q.maxSize
    ensures r.1 ==> r.0.items == q.items + [s]
    ensures !r.1 ==> r.0 == q
    ensures r.0.maxSize == q.maxSize && r.0.shutdown == q.shutdown
  {
    if !(q.shutdown || |q.items| < q.maxSize) then
      (q, false)  // the wait timed out
    else if q.shutdown then
      (q, false)
    else
      (q.(items := q.items + [s]), true)
  }

  /**
   * Timed `pop`: wait for an item or shutdown, give up if shut down and
   * empty, else remove and return the front socket.
   */
  function PopStep(q: QueueState): (r: (QueueState, Option<Socket>))
    ensures r.1.Some? <==> q.items != []
    ensures r.1.Some? ==> r.1.value == q.items[0] && r.0.items == q.items[1..]
    ensures r.1.None? ==> r.0 == q
    ensures r.0.maxSize == q.maxSize && r.0.shutdown == q.shutdown
  {
    if !(q.shutdown || q.items != []) then
      (q, None)  // the wait timed out
    else if q.shutdown && q.items == [] then
      (q, None)
    else
      (q.(items := q.items[1..]), Some(q.items[0]))
  }

  /** `shutdown`: raise the flag, keep every item. */
  function ShutdownStep(q: QueueState): (r: QueueState)
    ensures r.shutdown && r.items == q.items && r.maxSize == q.maxSize
  {
    q.(shutdown := true)
  }

  /** Shutting down twice is the same as shutting down once. */
  lemma ShutdownIdempotent(q: QueueState)
    ensures ShutdownStep(ShutdownStep(q)) == ShutdownStep(q)
  {
  }

  /** A queue of capacity zero turns every push away. */
  lemma ZeroCapacityRejects(s: Socket, shutdown: bool)
    ensures !PushStep(QueueState([], 0, shutdown), s).1
  {
  }

  /** A socket pushed on an empty open queue is the next one popped, leaving it empty again. */
  lemma PushThenPop(maxSize: nat, s: Socket)
    requires maxSize > 0
    ensures PopStep(PushStep(Init(maxSize), s).0) == (Init(maxSize), Some(s))
  {
  }

  /** One operation of a single-threaded client of the queue. */
  datatype Op = PushOp(socket: Socket) | PopOp | ShutdownOp

  /** What a run of operations leaves: the final queue, the sockets accepted by push and those returned by pop. */
  datatype Outcome = Outcome(last: QueueState, accepted: seq<Socket>, popped: seq<Socket>)

  function Run(q: QueueState, ops: seq<Op>): Outcome
    decreases |ops|
  {
    if ops == [] then Outcome(q, [], [])
    else
      match ops[0]
      case PushOp(s) =>
        var (q1, ok) := PushStep(q, s);
        var o := Run(q1, ops[1..]);
        o.(accepted := (if ok then [s] else []) + o.accepted)
      case PopOp =>
        var (q1, r) := PopStep(q);
        var o := Run(q1, ops[1..]);
        o.(popped := (if r.Some? then [r.value] else []) + o.popped)
      case ShutdownOp =>
        Run(ShutdownStep(q), ops[1..])
  }

  /** How many pops a run of operations performs. */
  function PopCount(ops: seq<Op>): nat {
    if ops == [] then 0 else (if ops[0].PopOp? then 1 else 0) + PopCount(ops[1..])
  }

  /**
   * Any run keeps the queue within its capacity and loses or invents no
   * socket: what was queued plus what was accepted equals what was popped
   * plus what is still queued, in that order.
   */
  lemma {:induction false} RunConserves(q: QueueState, ops: seq<Op>)
    ensures var o := Run(q, ops);
      && q.items + o.accepted == o.popped + o.last.items
      && o.last.maxSize == q.maxSize
      && (Bounded(q) ==> Bounded(o.last))
      && (q.shutdown ==> o.last.shutdown)
    decreases |ops|
  {
    if ops != [] {
      match ops[0]
      case PushOp(s) =>
        RunConserves(PushStep(q, s).0, ops[1..]);
      case PopOp =>
        var (q1, r) := PopStep(q);
        RunConserves(q1, ops[1..]);
        var o1 := Run(q1, ops[1..]);
        if r.Some? {
          assert q.items == [r.value] + q1.items;
          assert q.items + o1.accepted == [r.value] + (q1.items + o1.accepted);
          assert Run(q, ops).popped == [r.value] + o1.popped;
        }
      case ShutdownOp =>
        RunConserves(ShutdownStep(q), ops[1..]);
    }
  }

  /**
   * FIFO: starting from a fresh queue, the sockets popped are always a prefix
   * of the sockets successfully pushed, and the rest are still queued.
   */
  lemma PoppedIsPrefixOfPushed(maxSize: nat, ops: seq<Op>)
    ensures var o := Run(Init(maxSize), ops);
      && o.accepted == o.popped + o.last.items
      && o.popped <= o.accepted
      && |o.last.items| <= maxSize
  {
    RunConserves(Init(maxSize), ops);
  }

  /**
   * After shutdown no push is accepted any more, and the pops return the
   * remaining sockets front first, one per pop, until the queue is empty.
   */
  lemma {:induction false} DrainAfterShutdown(q: QueueState, ops: seq<Op>)
    requires q.shutdown
    ensures var o := Run(q, ops);
      && o.accepted == []
      && o.popped + o.last.items == q.items
      && |o.popped| == if PopCount(ops) < |q.items| then PopCount(ops) else |q.items|
    decreases |ops|
  {
    if ops != [] {
      match ops[0]
      case PushOp(s) =>
        DrainAfterShutdown(q, ops[1..]);
      case PopOp =>
        var (q1, r) := PopStep(q);
        DrainAfterShutdown(q1, ops[1..]);
        if r.Some? {
          assert q.items == [r.value] + q1.items;
        }
      case ShutdownOp =>
        DrainAfterShutdown(ShutdownStep(q), ops[1..]);
    }
  }

  /**
   * The queue object. `pushed` and `popped` are the histories of sockets that
   * entered and left it; `Valid` ties them to the contents (FIFO order).
   */
  class ConnectionQueue {
    var items: seq<Socket>
    const maxSize: nat
    var isShutdown: bool
    ghost var pushed: seq<Socket>
    ghost var popped: seq<Socket>

    ghost predicate Valid()
      reads this
    {
      |items| <= maxSize && pushed == popped + items
    }

    function State(): QueueState
      reads this
    {
      QueueState(items, maxSize, isShutdown)
    }

    constructor (maxSize: nat)
      ensures Valid()
      ensures State() == Init(maxSize)
      ensures pushed == [] && popped == []
    {
      this.maxSize := maxSize;
      items := [];
      isShutdown := false;
      pushed, popped := [], [];
    }

    /** `push` with its bounded wait: succeeds exactly when open and not full. */
    method Push(s: Socket) returns (ok: bool)
      requires Valid()
      modifies this
      ensures Valid()
      ensures (State(), ok) == PushStep(old(State()), s)
      ensures pushed == old(pushed) + (if ok then [s] else []) && popped == old(popped)
    {
      if !(isShutdown || |items| < maxSize) {
        return false;
      }
      if isShutdown {
        return false;
      }
      items := items + [s];
      pushed := pushed + [s];
      ok := true;
    }

    /** Timed `pop`: returns the front socket exactly when the queue is not empty. */
    method Pop() returns (r: Option<Socket>)
      requires Valid()
      modifies this
      ensures Valid()
      ensures (State(), r) == PopStep(old(State()))
      ensures pushed == old(pushed)
      ensures popped == old(popped) + (if r.Some? then [r.value] else [])
    {
      if !(isShutdown || items != []) {
        return None;
      }
      if isShutdown && items == [] {
        return None;
      }
      r := Some(items[0]);
      items := items[1..];
      popped := popped + [r.value];
    }

    /** `pop` without timeout, entered only when its wait would return at once. */
    method PopWait() returns (r: Option<Socket>)
      requires Valid()
      requires isShutdown || items != []
      modifies this
      ensures Valid()
      ensures (State(), r) == PopStep(old(State()))
      ensures pushed == old(pushed)
      ensures popped == old(popped) + (if r.Some? then [r.value] else [])
    {
      if isShutdown && items == [] {
        return None;
      }
      r := Some(items[0]);
      items := items[1..];
      popped := popped + [r.value];
    }

    method Size() returns (n: nat)
      ensures n == |items|
    {
      n := |items|;
    }

    method MaxSize() returns (n: nat)
      ensures n == maxSize
    {
      n := maxSize;
    }

    method Empty() returns (b: bool)
      ensures b <==> items == []
    {
      b := items == [];
    }

    /** `shutdown`: sets the flag only; idempotent. */
    method Shutdown()
      requires Valid()
      modifies this
      ensures Valid()
      ensures State() == ShutdownStep(old(State()))
      ensures pushed == old(pushed) && popped == old(popped)
    {
      isShutdown := true;
    }
  }
}
