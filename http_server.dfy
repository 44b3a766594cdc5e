/**
 * The server's bookkeeping, run single-threaded over the queue model: the
 * `start` guard, `stop`, one iteration of the accept loop (with load
 * shedding through `push`), one iteration of the worker loop (outcome
 * counters and the integer running average) and the worker loop's drain
 * after `stop`.
 *
 * The OS calls are inputs: the outcome of socket/bind/listen, the result
 * of each `accept`, and, for each popped connection, whether the handler
 * returned or threw and how many milliseconds it took. Closing a socket is
 * recorded by appending it to `closed`.
 */
module Server {
  import opened Wrappers
  import opened Sockets
  import opened ConnectionQueues

  datatype Stats = Stats(
    totalConnections: nat,
    successfulRequests: nat,
    failedRequests: nat,
    droppedConnections: nat,
    averageResponseTime: nat)

  const ZeroStats := Stats(0, 0, 0, 0, 0)

  function Min(a: nat, b: nat): nat { if a <= b then a else b }
  function Max(a: nat, b: nat): nat { if a <= b then b else a }

  lemma MulMono(a: nat, b: nat, c: nat)
    requires a <= b
    ensures a * c <= b * c
  {
    assert b * c == a * c + (b - a) * c;
  }

  lemma MulSucc(a: nat, n: nat)
    ensures (a + 1) * n == a * n + n
  {
  }

  /** Integer division keeps a value that lies between `lo * n` and `hi * n` between `lo` and `hi`. */
  lemma DivBetween(x: nat, n: nat, lo: nat, hi: nat)
    requires n > 0
    requires lo * n <= x <= hi * n
    ensures lo <= x / n <= hi
  {
    var q := x / n;
    assert q * n + x % n == x;
    MulSucc(q, n);
    if q < lo {
      MulMono(q + 1, lo, n);
    }
    if q > hi {
      MulMono(hi + 1, q, n);
      MulSucc(hi, n);
    }
  }

  /** The weighted sum of the old average and the new sample lies between `n` times either. */
  lemma WeightedBetween(oldAvg: nat, newTime: nat, n: nat)
    requires n > 0
    ensures Min(oldAvg, newTime) * n <= oldAvg * (n - 1) + newTime <= Max(oldAvg, newTime) * n
  {
    var lo, hi := Min(oldAvg, newTime), Max(oldAvg, newTime);
    MulMono(lo, oldAvg, n - 1);
    MulMono(oldAvg, hi, n - 1);
    MulSucc(lo, n - 1);
    MulSucc(hi, n - 1);
    assert lo * n == lo * (n - 1) + lo;
    assert hi * n == hi * (n - 1) + hi;
  }

  /**
   * The running-average update of the worker loop: with `n` requests counted
   * so far, `(oldAvg * (n - 1) + newTime) / n` in integer division; left
   * alone when `n` is zero. The new average lies between the old one and
   * the new sample, and is the floor of the exact weighted mean.
   */
  function UpdateAverage(oldAvg: nat, newTime: nat, n: nat): (r: nat)
    ensures n == 0 ==> r == oldAvg
    ensures n > 0 ==> Min(oldAvg, newTime) <= r <= Max(oldAvg, newTime)
    ensures n > 0 ==> r * n <= oldAvg * (n - 1) + newTime < r * n + n
  {
    if n > 0 then
      var x := oldAvg * (n - 1) + newTime;
      WeightedBetween(oldAvg, newTime, n);
      DivBetween(x, n, Min(oldAvg, newTime), Max(oldAvg, newTime));
      assert x / n * n + x % n == x;
      x / n
    else
      oldAvg
  }

  /** The average after a sequence of samples, one update per sample, from zero. */
  function FoldAverage(samples: seq<nat>): nat {
    if samples == [] then 0
    else UpdateAverage(FoldAverage(samples[..|samples| - 1]), samples[|samples| - 1], |samples|)
  }

  function Sum(samples: seq<nat>): nat {
    if samples == [] then 0 else Sum(samples[..|samples| - 1]) + samples[|samples| - 1]
  }

  /**
   * Against the exact mean: the folded average times the count never exceeds
   * the sum of the samples, and falls short by less than one per earlier
   * update, so at most n(n-1)/2 in all.
   */
  lemma {:induction false} AverageBelowMean(samples: seq<nat>)
    ensures FoldAverage(samples) * |samples| <= Sum(samples)
    ensures 2 * (Sum(samples) - FoldAverage(samples) * |samples|) <= |samples| * (|samples| - 1)
  {
    if samples != [] {
      var n := |samples|;
      var init := samples[..n - 1];
      AverageBelowMean(init);
      var a, r := FoldAverage(init), FoldAverage(samples);
      var prev, now := a * (n - 1), r * n;
      var before, after := (n - 1) * (n - 2), n * (n - 1);
      assert now <= prev + samples[n - 1] < now + n;
      assert Sum(samples) == Sum(init) + samples[n - 1];
      assert prev <= Sum(init) && 2 * (Sum(init) - prev) <= before;
      TriangleStep(n);
      assert before + 2 * (n - 1) == after;
    }
  }

  lemma TriangleStep(n: nat)
    requires n >= 1
    ensures (n - 1) * (n - 2) + 2 * (n - 1) == n * (n - 1)
  {
  }

  /** When every response takes the same time, the average is exactly that time. */
  lemma {:induction false} ConstantSamplesAverage(samples: seq<nat>, c: nat)
    requires samples != []
    requires forall i :: 0 <= i < |samples| ==> samples[i] == c
    ensures FoldAverage(samples) == c
  {
    var n := |samples|;
    if n > 1 {
      ConstantSamplesAverage(samples[..n - 1], c);
    }
  }

  /** The outcome of socket, bind and listen in `start`. */
  datatype ListenSetup =
    | SocketFailed            // socket() returned INVALID_SOCKET
    | BindFailed(handle: Socket)
    | ListenFailed(handle: Socket)
    | Listening(handle: Socket)

  datatype StartResult = AlreadyRunning | StartError(reason: string) | Started

  /** What the handler did with one popped connection: returned or threw, and how long it took. */
  datatype HandlerOutcome = HandlerOutcome(succeeded: bool, elapsedMs: nat)

  /** The response times of a run of outcomes, in order. */
  function Elapsed(outcomes: seq<HandlerOutcome>): (times: seq<nat>)
    ensures |times| == |outcomes|
    ensures forall k :: 0 <= k < |outcomes| ==> times[k] == outcomes[k].elapsedMs
  {
    if outcomes == [] then [] else Elapsed(outcomes[..|outcomes| - 1]) + [outcomes[|outcomes| - 1].elapsedMs]
  }

  /** Extending a prefix of the outcomes by one adds that outcome's time and, if it succeeded, one success. */
  lemma OutcomesPrefixStep(outcomes: seq<HandlerOutcome>, i: nat)
    requires i < |outcomes|
    ensures Elapsed(outcomes[..i + 1]) == Elapsed(outcomes[..i]) + [outcomes[i].elapsedMs]
    ensures Successes(outcomes[..i + 1]) == Successes(outcomes[..i]) + (if outcomes[i].succeeded then 1 else 0)
  {
    assert outcomes[..i + 1][..i] == outcomes[..i];
  }

  /** How many of a run of outcomes are successes. */
  function Successes(outcomes: seq<HandlerOutcome>): (n: nat)
    ensures n <= |outcomes|
  {
    if outcomes == [] then 0
    else Successes(outcomes[..|outcomes| - 1]) + (if outcomes[|outcomes| - 1].succeeded then 1 else 0)
  }

  /** The sockets of the successful accepts in a run of `accept` results, in order. */
  function Accepted(incoming: seq<Option<Socket>>): (sockets: seq<Socket>)
    ensures |sockets| <= |incoming|
  {
    if incoming == [] then []
    else Accepted(incoming[..|incoming| - 1]) + (if incoming[|incoming| - 1].Some? then [incoming[|incoming| - 1].value] else [])
  }

  /** Where the accept loop's connections went: the queue it leaves, and the sockets pushed and rejected. */
  datatype AcceptOutcome = AcceptOutcome(last: QueueState, enqueued: seq<Socket>, rejected: seq<Socket>)

  /**
   * The accept loop on the queue: each accepted socket in turn is offered
   * to `push`; a rejected one is set aside to be closed.
   */
  function AcceptRun(q: QueueState, incoming: seq<Option<Socket>>): (o: AcceptOutcome)
    ensures o.last.items == q.items + o.enqueued
    ensures o.last.maxSize == q.maxSize && o.last.shutdown == q.shutdown
  {
    if incoming == [] then AcceptOutcome(q, [], [])
    else
      var o := AcceptRun(q, incoming[..|incoming| - 1]);
      match incoming[|incoming| - 1]
      case None => o
      case Some(s) =>
        var (q1, ok) := PushStep(o.last, s);
        if ok then AcceptOutcome(q1, o.enqueued + [s], o.rejected)
        else AcceptOutcome(q1, o.enqueued, o.rejected + [s])
  }

  /** The free places of a queue: none once it is shut down. */
  function Room(q: QueueState): nat {
    if q.shutdown || q.maxSize <= |q.items| then 0 else q.maxSize - |q.items|
  }

  /**
   * With nothing popped in between, the accept loop fills the free places
   * of the queue with the first accepted sockets and rejects every later
   * one: the enqueued sockets are the first `Room(q)` accepted ones and the
   * rejected sockets are the rest, both in accept order.
   */
  lemma {:induction false} AcceptRunFills(q: QueueState, incoming: seq<Option<Socket>>)
    ensures var o, acc := AcceptRun(q, incoming), Accepted(incoming);
      && o.enqueued == acc[..Min(Room(q), |acc|)]
      && o.rejected == acc[Min(Room(q), |acc|)..]
  {
    if incoming != [] {
      var init := incoming[..|incoming| - 1];
      AcceptRunFills(q, init);
      var o, acc := AcceptRun(q, init), Accepted(init);
      var k := Min(Room(q), |acc|);
      match incoming[|incoming| - 1]
      case None =>
      case Some(s) =>
        var acc' := acc + [s];
        assert Accepted(incoming) == acc';
        if k < Room(q) {
          assert k == |acc| && |o.last.items| < q.maxSize && !q.shutdown;
          assert acc'[..Min(Room(q), |acc'|)] == acc';
        } else {
          assert |o.last.items| >= q.maxSize || q.shutdown;
          assert acc'[k..] == acc[k..] + [s];
        }
    }
  }

  class HttpServer {
    var running: bool
    var serverSocket: Socket
    var stats: Stats
    const queue: ConnectionQueue
    /** Every socket closed, in order. */
    var closed: seq<Socket>
    /** The response times of every handled connection, in order. */
    ghost var samples: seq<nat>

    /**
     * The accounting invariants: every accepted connection was either
     * enqueued or dropped; every dequeued connection was counted once as a
     * success or a failure; the average is the fold of the samples.
     */
    ghost predicate Valid()
      reads this, queue
    {
      && queue.Valid()
      && stats.totalConnections == |queue.pushed| + stats.droppedConnections
      && stats.successfulRequests + stats.failedRequests == |queue.popped| == |samples|
      && stats.averageResponseTime == FoldAverage(samples)
    }

    constructor (maxConnections: nat)
      ensures Valid()
      ensures !running && serverSocket == InvalidSocket && stats == ZeroStats && closed == []
      ensures queue.State() == Init(maxConnections) && fresh(queue)
    {
      running := false;
      serverSocket := InvalidSocket;
      stats := ZeroStats;
      queue := new ConnectionQueue(maxConnections);
      closed := [];
      samples := [];
    }

    /**
     * `start`: refused when already running; otherwise the listening socket
     * is created, bound and put to listen, and the server is running. A
     * failed bind or listen closes the new socket.
     */
    method Start(setup: ListenSetup) returns (r: StartResult)
      requires Valid()
      requires !setup.SocketFailed? ==> setup.handle != InvalidSocket
      modifies this
      ensures Valid()
      ensures old(running) ==> r == AlreadyRunning && running && serverSocket == old(serverSocket) && closed == old(closed)
      ensures !old(running) ==> match setup
        case SocketFailed => r.StartError? && !running && serverSocket == InvalidSocket && closed == old(closed)
        case BindFailed(h) => r.StartError? && !running && serverSocket == h && closed == old(closed) + [h]
        case ListenFailed(h) => r.StartError? && !running && serverSocket == h && closed == old(closed) + [h]
        case Listening(h) => r == Started && running && serverSocket == h && closed == old(closed)
      ensures stats == old(stats) && samples == old(samples)
    {
      if running {
        return AlreadyRunning;
      }
      match setup
      case SocketFailed =>
        serverSocket := InvalidSocket;
        return StartError("Failed to create socket");
      case BindFailed(h) =>
        serverSocket := h;
        closed := closed + [h];
        return StartError("Failed to bind socket to port");
      case ListenFailed(h) =>
        serverSocket := h;
        closed := closed + [h];
        return StartError("Failed to listen on socket");
      case Listening(h) =>
        serverSocket := h;
        running := true;
        return Started;
    }

    /**
     * `stop`: nothing when not running; otherwise clear `running`, close the
     * listening socket if there is one and forget it, and shut the queue down.
     */
    method Stop()
      requires Valid()
      modifies this, queue
      ensures Valid()
      ensures !old(running) ==>
        && serverSocket == old(serverSocket) && closed == old(closed)
        && queue.State() == old(queue.State())
      ensures old(running) ==>
        && serverSocket == InvalidSocket
        && closed == old(closed) + (if old(serverSocket) != InvalidSocket then [old(serverSocket)] else [])
        && queue.State() == ShutdownStep(old(queue.State()))
      ensures !running && stats == old(stats) && samples == old(samples)
      ensures queue.pushed == old(queue.pushed) && queue.popped == old(queue.popped)
    {
      if !running {
        return;
      }
      running := false;
      if serverSocket != InvalidSocket {
        closed := closed + [serverSocket];
        serverSocket := InvalidSocket;
      }
      queue.Shutdown();
    }

    /** Calling `stop` twice closes the listening socket at most once. */
    method StopTwice()
      requires Valid()
      modifies this, queue
      ensures Valid() && !running
      ensures closed == old(closed) + (if old(running) && old(serverSocket) != InvalidSocket then [old(serverSocket)] else [])
    {
      Stop();
      Stop();
    }

    /**
     * One iteration of the accept loop: a failed `accept` changes nothing;
     * an accepted connection is counted, then offered to the queue and, if
     * the push fails, closed and counted as dropped.
     */
    method AcceptStep(accepted: Option<Socket>)
      requires Valid()
      requires accepted.Some? ==> accepted.value != InvalidSocket
      modifies this, queue
      ensures Valid()
      ensures accepted.None? ==>
        && stats == old(stats) && closed == old(closed)
        && queue.State() == old(queue.State()) && queue.pushed == old(queue.pushed)
      ensures accepted.Some? ==>
        var (q, ok) := PushStep(old(queue.State()), accepted.value);
        && queue.State() == q
        && queue.pushed == old(queue.pushed) + (if ok then [accepted.value] else [])
        && stats.totalConnections == old(stats.totalConnections) + 1
        && stats.droppedConnections == old(stats.droppedConnections) + (if ok then 0 else 1)
        && closed == old(closed) + (if ok then [] else [accepted.value])
      ensures stats.successfulRequests == old(stats.successfulRequests)
      ensures stats.failedRequests == old(stats.failedRequests)
      ensures stats.averageResponseTime == old(stats.averageResponseTime)
      ensures running == old(running) && serverSocket == old(serverSocket) && samples == old(samples)
      ensures queue.popped == old(queue.popped)
    {
      if accepted.None? {
        return;
      }
      var client := accepted.value;
      stats := stats.(totalConnections := stats.totalConnections + 1);
      var ok := queue.Push(client);
      if !ok {
        closed := closed + [client];
        stats := stats.(droppedConnections := stats.droppedConnections + 1);
      }
    }

    /**
     * The accept loop over a finite run of `accept` results; it stops when
     * the server is not running, and otherwise offers every accepted
     * connection to the queue in turn, closing and counting as dropped each
     * one the queue rejects.
     */
    method AcceptConnections(incoming: seq<Option<Socket>>)
      requires Valid()
      requires forall k :: 0 <= k < |incoming| ==> incoming[k] != Some(InvalidSocket)
      modifies this, queue
      ensures Valid()
      ensures !running ==>
        && stats == old(stats) && closed == old(closed)
        && queue.State() == old(queue.State()) && queue.pushed == old(queue.pushed)
      ensures running ==>
        var o := AcceptRun(old(queue.State()), incoming);
        && queue.State() == o.last
        && queue.pushed == old(queue.pushed) + o.enqueued
        && closed == old(closed) + o.rejected
        && stats.totalConnections == old(stats.totalConnections) + |Accepted(incoming)|
        && stats.droppedConnections == old(stats.droppedConnections) + |o.rejected|
      ensures stats.successfulRequests == old(stats.successfulRequests)
      ensures stats.failedRequests == old(stats.failedRequests)
      ensures stats.averageResponseTime == old(stats.averageResponseTime)
      ensures running == old(running) && serverSocket == old(serverSocket) && samples == old(samples)
      ensures queue.popped == old(queue.popped)
    {
      ghost var q0, pushed0, closed0 := queue.State(), queue.pushed, closed;
      var i := 0;
      while running && i < |incoming|
        invariant 0 <= i <= |incoming|
        invariant Valid()
        invariant running == old(running) && serverSocket == old(serverSocket) && samples == old(samples)
        invariant !running ==> i == 0
        invariant var o := AcceptRun(q0, incoming[..i]);
          && queue.State() == o.last
          && queue.pushed == pushed0 + o.enqueued
          && closed == closed0 + o.rejected
          && stats.totalConnections == old(stats.totalConnections) + |Accepted(incoming[..i])|
          && stats.droppedConnections == old(stats.droppedConnections) + |o.rejected|
        invariant stats.successfulRequests == old(stats.successfulRequests)
        invariant stats.failedRequests == old(stats.failedRequests)
        invariant stats.averageResponseTime == old(stats.averageResponseTime)
        invariant queue.popped == old(queue.popped)
      {
        AcceptStep(incoming[i]);
        assert incoming[..i + 1][..i] == incoming[..i];
        i := i + 1;
      }
      if running {
        assert incoming[..i] == incoming;
      }
    }

    /**
     * One iteration of the worker loop: a timed pop; if it yields a
     * connection, the outcome is counted as a success or a failure (a failed
     * handler's socket is closed by the worker, a successful handler closes
     * it itself) and the average is updated with the new request count.
     */
    method WorkerStep(outcome: HandlerOutcome) returns (handled: bool)
      requires Valid()
      modifies this, queue
      ensures Valid()
      ensures var (q, r) := PopStep(old(queue.State()));
        && queue.State() == q
        && handled == r.Some?
        && (r.None? ==> stats == old(stats) && closed == old(closed))
        && (r.Some? ==>
              && closed == old(closed) + [r.value]
              && stats.successfulRequests == old(stats.successfulRequests) + (if outcome.succeeded then 1 else 0)
              && stats.failedRequests == old(stats.failedRequests) + (if outcome.succeeded then 0 else 1)
              && stats.averageResponseTime == UpdateAverage(old(stats.averageResponseTime), outcome.elapsedMs,
                                                            stats.successfulRequests + stats.failedRequests))
      ensures stats.totalConnections == old(stats.totalConnections)
      ensures stats.droppedConnections == old(stats.droppedConnections)
      ensures running == old(running) && serverSocket == old(serverSocket)
      ensures samples == old(samples) + (if handled then [outcome.elapsedMs] else [])
      ensures queue.pushed == old(queue.pushed)
    {
      var r := queue.Pop();
      if r.None? {
        return false;
      }
      var client := r.value;
      if outcome.succeeded {
        closed := closed + [client];
        stats := stats.(successfulRequests := stats.successfulRequests + 1);
      } else {
        stats := stats.(failedRequests := stats.failedRequests + 1);
        closed := closed + [client];
      }
      var totalReqs := stats.successfulRequests + stats.failedRequests;
      stats := stats.(averageResponseTime := UpdateAverage(stats.averageResponseTime, outcome.elapsedMs, totalReqs));
      samples := samples + [outcome.elapsedMs];
      assert samples[..|samples| - 1] == old(samples);
      handled := true;
    }

    /** One worker iteration on a non-empty queue: the front connection is handled, counted and closed. */
    method HandleNext(outcome: HandlerOutcome)
      requires Valid()
      requires queue.items != []
      modifies this, queue
      ensures Valid()
      ensures queue.items == old(queue.items)[1..]
      ensures closed == old(closed) + [old(queue.items)[0]]
      ensures samples == old(samples) + [outcome.elapsedMs]
      ensures stats.successfulRequests == old(stats.successfulRequests) + (if outcome.succeeded then 1 else 0)
      ensures stats.failedRequests == old(stats.failedRequests) + (if outcome.succeeded then 0 else 1)
      ensures stats.totalConnections == old(stats.totalConnections)
      ensures stats.droppedConnections == old(stats.droppedConnections)
      ensures running == old(running) && serverSocket == old(serverSocket)
      ensures queue.isShutdown == old(queue.isShutdown) && queue.pushed == old(queue.pushed)
    {
      var handled := WorkerStep(outcome);
    }

    /**
     * The worker loop `while (running || !empty())` once `stop` has cleared
     * `running`: it handles every connection still queued, one outcome each,
     * and exits exactly when the queue is empty. Afterwards every accepted
     * connection is accounted for as a success, a failure or a drop.
     */
    method WorkerLoopAfterStop(outcomes: seq<HandlerOutcome>)
      requires Valid()
      requires !running
      requires |outcomes| >= |queue.items|
      modifies this, queue
      ensures Valid()
      ensures queue.items == []
      ensures closed == old(closed) + old(queue.items)
      ensures stats.successfulRequests + stats.failedRequests
              == old(stats.successfulRequests + stats.failedRequests) + |old(queue.items)|
      ensures stats.totalConnections
              == stats.successfulRequests + stats.failedRequests + stats.droppedConnections
      ensures var handledNow := outcomes[..|old(queue.items)|];
        && samples == old(samples) + Elapsed(handledNow)
        && stats.successfulRequests == old(stats.successfulRequests) + Successes(handledNow)
        && stats.failedRequests == old(stats.failedRequests) + (|handledNow| - Successes(handledNow))
        && stats.averageResponseTime == FoldAverage(samples)
      ensures !running && serverSocket == old(serverSocket)
      ensures stats.totalConnections == old(stats.totalConnections)
      ensures stats.droppedConnections == old(stats.droppedConnections)
      ensures queue.isShutdown == old(queue.isShutdown) && queue.pushed == old(queue.pushed)
    {
      ghost var pending, closed0 := queue.items, closed;
      ghost var samples0, succ0, fail0 := samples, stats.successfulRequests, stats.failedRequests;
      var i := 0;
      var empty := queue.Empty();
      while running || !empty
        invariant Valid()
        invariant !running && serverSocket == old(serverSocket)
        invariant stats.totalConnections == old(stats.totalConnections)
        invariant stats.droppedConnections == old(stats.droppedConnections)
        invariant queue.isShutdown == old(queue.isShutdown) && queue.pushed == old(queue.pushed)
        invariant empty <==> queue.items == []
        invariant 0 <= i <= |pending|
        invariant queue.items == pending[i..]
        invariant closed == closed0 + pending[..i]
        invariant samples == samples0 + Elapsed(outcomes[..i])
        invariant stats.successfulRequests == succ0 + Successes(outcomes[..i])
        invariant stats.failedRequests == fail0 + (i - Successes(outcomes[..i]))
        decreases |queue.items|
      {
        var client := queue.items[0];
        HandleNext(outcomes[i]);
        assert pending[..i + 1] == pending[..i] + [client];
        OutcomesPrefixStep(outcomes, i);
        i := i + 1;
        empty := queue.Empty();
      }
      assert pending[..i] == pending;
      assert i == |old(queue.items)|;
      assert Successes(outcomes[..i]) <= i;
    }

    method IsRunning() returns (b: bool)
      ensures b == running
    {
      b := running;
    }

    method GetStats() returns (s: Stats)
      ensures s == stats
    {
      s := stats;
    }
  }

  /**
   * A whole run of the server: constructed with room for `capacity`
   * connections, started on a listening socket, fed a finite run of
   * `accept` results, stopped, and drained by the worker loop. Every
   * accepted connection ends as exactly one success, failure or drop, only
   * the connections beyond the queue's capacity are dropped, and every
   * accepted socket and the listening socket are closed exactly once.
   */
  method Lifecycle(capacity: nat, listener: Socket, incoming: seq<Option<Socket>>, outcomes: seq<HandlerOutcome>)
    returns (stats: Stats, closedSockets: seq<Socket>)
    requires listener != InvalidSocket
    requires forall k :: 0 <= k < |incoming| ==> incoming[k] != Some(InvalidSocket)
    requires |outcomes| >= |incoming|
    ensures stats.totalConnections == |Accepted(incoming)|
    ensures stats.successfulRequests + stats.failedRequests + stats.droppedConnections == |Accepted(incoming)|
    ensures stats.droppedConnections == |Accepted(incoming)| - Min(capacity, |Accepted(incoming)|)
    ensures multiset(closedSockets) == multiset(Accepted(incoming) + [listener])
  {
    var server := new HttpServer(capacity);
    var started := server.Start(Listening(listener));
    server.AcceptConnections(incoming);
    ghost var o := AcceptRun(Init(capacity), incoming);
    FreshAcceptRun(capacity, incoming);
    server.Stop();
    server.WorkerLoopAfterStop(outcomes);
    stats, closedSockets := server.stats, server.closed;
    assert closedSockets == o.rejected + [listener] + o.enqueued;
  }

  /** On a fresh queue the accept loop splits the accepted sockets into those within the capacity and the rest. */
  lemma FreshAcceptRun(capacity: nat, incoming: seq<Option<Socket>>)
    ensures var o, acc := AcceptRun(Init(capacity), incoming), Accepted(incoming);
      && multiset(o.rejected + o.enqueued) == multiset(acc)
      && |o.enqueued| <= |incoming|
      && |o.rejected| == |acc| - Min(capacity, |acc|)
  {
    var o, acc := AcceptRun(Init(capacity), incoming), Accepted(incoming);
    AcceptRunFills(Init(capacity), incoming);
    assert Room(Init(capacity)) == capacity;
    var k := Min(capacity, |acc|);
    assert o.enqueued == acc[..k] && o.rejected == acc[k..];
    assert acc == acc[..k] + acc[k..];
    calc {
      multiset(o.rejected + o.enqueued);
      multiset(o.rejected) + multiset(o.enqueued);
      multiset(acc[..k] + acc[k..]);
    }
  }
}
