/**
  The batch a cycle launches: a countdown initialised to the batch size and
  one worker per index 0..N-1, each of which releases the countdown once on
  exit; the completion channel is closed once the countdown is zero. Only the
  sequential bookkeeping is modelled, not the goroutines running in parallel.
 */
module Batch {
  /** `FetchesAmount`, the number of workers launched per cycle. */
  const FetchesAmount: nat := 10

  /**
    The launch loop, which starts one worker for each index from 0 up to
    n-1: the workers get the indices 0, 1, ..., n-1, in that order, each once.
   */
  method LaunchWorkers(n: nat) returns (launched: seq<nat>)
    ensures |launched| == n
    ensures forall k :: 0 <= k < |launched| ==> launched[k] == k
    ensures forall j: nat :: j in launched <==> j < n
  {
    launched := [];
    var i := 0;
    while i < n
      invariant 0 <= i <= n
      invariant |launched| == i
      invariant forall k :: 0 <= k < i ==> launched[k] == k
    {
      launched := launched + [i];
      i := i + 1;
    }
    forall j: nat | j < n
      ensures j in launched
    {
      assert launched[j] == j;
    }
  }

  /** The configured batch launches the ten workers 0..9. */
  method LaunchConfiguredBatch() returns (launched: seq<nat>)
    ensures launched == [0, 1, 2, 3, 4, 5, 6, 7, 8, 9]
  {
    launched := LaunchWorkers(FetchesAmount);
  }

  /**
    The per-cycle handler: the wait group's counter and whether the
    completion channel has been closed. A fresh one is made every cycle.
   */
  class IntervalHandler {
    var pending: int
    var closed: bool

    /** The monitor closes the channel only once nothing is pending. */
    ghost predicate Valid()
      reads this
    {
      pending >= 0 && (closed ==> pending == 0)
    }

    constructor ()
      ensures Valid() && pending == 0 && !closed
    {
      pending := 0;
      closed := false;
    }

    /** `wg.Add(delta)`. */
    method Add(delta: nat)
      requires Valid() && !closed
      modifies this
      ensures Valid()
      ensures pending == old(pending) + delta && closed == old(closed)
    {
      pending := pending + delta;
    }

    /** `wg.Done()`, deferred by every worker; Go panics on a negative counter. */
    method Done()
      requires Valid() && pending > 0
      modifies this
      ensures Valid()
      ensures pending == old(pending) - 1 && closed == old(closed)
    {
      pending := pending - 1;
    }

    /** The monitor: once `wg.Wait()` returns, it closes the channel. */
    method Monitor()
      requires Valid()
      modifies this
      ensures Valid()
      ensures pending == old(pending)
      ensures closed == (old(closed) || pending == 0)
    {
      if pending == 0 {
        closed := true;
      }
    }
  }

  /**
    One cycle's countdown from start to finish: a fresh handler, `Add(n)`, the
    launch of n workers, and each worker's one `Done()`, with the monitor
    looking after every step. `initialCount` is the counter right after
    `Add`; `openAfter[k]` records whether the channel is still open once k
    workers have finished. It is open until the last worker has finished,
    and closed afterwards.
   */
  method RunCountdown(n: nat) returns (handler: IntervalHandler, launched: seq<nat>,
                                       ghost initialCount: int, ghost openAfter: seq<bool>)
    ensures fresh(handler) && handler.Valid()
    ensures handler.pending == 0 && handler.closed
    ensures |launched| == n && forall k :: 0 <= k < n ==> launched[k] == k
    ensures initialCount == |launched|
    ensures |openAfter| == n + 1
    ensures forall k :: 0 <= k <= n ==> (openAfter[k] <==> k < n)
  {
    handler := new IntervalHandler();
    handler.Add(n);
    initialCount := handler.pending;
    launched := LaunchWorkers(n);
    handler.Monitor();
    openAfter := [!handler.closed];
    var finished := 0;
    while finished < n
      invariant 0 <= finished <= n
      invariant handler.Valid()
      invariant handler.pending == n - finished
      invariant handler.closed <==> finished == n
      invariant |openAfter| == finished + 1
      invariant forall k :: 0 <= k <= finished ==> (openAfter[k] <==> k < n)
      modifies handler
    {
      handler.Done();
      finished := finished + 1;
      handler.Monitor();
      openAfter := openAfter + [!handler.closed];
    }
  }
}
