/**
 * The ION process thread: a FIFO queue of call descriptors that a single
 * control loop takes one at a time and runs against the service, the
 * futures (AsyncResult objects) that hand the outcome back, cancellation of
 * queued and running calls, the busy-time counter and the heartbeat stall
 * detector.
 *
 * Greenlets are not modelled. What the control loop does for one queue
 * entry is split in two steps, `TakeNext` (dequeue and the skip checks) and
 * `FinishCall` (the outcome of running the operation), so that a heartbeat
 * or a cancellation can be observed while a call is in flight. The clock,
 * the stack snapshot of the control greenlet, the outcome of running an
 * operation and the liveness of listener greenlets are parameters.
 */
module Process {
  import opened Wrappers
  import Text

  /** Identity of an AsyncResult created by `_routing_call`. */
  type FutureId = nat
  /** Identity of the greenlet that routed a call (where errors are raised). */
  type CallerId = nat
  /** The bound operation a call descriptor carries. */
  type OperationRef = nat
  type ListenerId = nat
  /** A greenlet spawned by the thread manager for a listener. */
  type WorkerId = nat
  /** A value handed to or returned from an operation. */
  type Value = string
  /** A stack snapshot of the control greenlet, compared only for equality. */
  type Stack = seq<string>

  /** The header of an incoming call that carries its deadline. */
  const ReplyBy: string := "reply-by"

  /** One entry of `_ctrl_queue`: a call tuple, or the `StopIteration` put by `_notify_stop`. */
  datatype QueueItem = CallItem(call: Call) | StopMarker

  /** `(calling_gl, ar, call, callargs, callkwargs, context)`; keyword arguments are keyed by name. */
  datatype Call = Call(
    caller: CallerId,
    future: FutureId,
    op: OperationRef,
    args: seq<Value>,
    kwargs: map<string, Value>,
    context: Option<map<string, string>>)

  /** What an AsyncResult is set to: `False` on cancel, `None` on interrupt or error, or a result. */
  datatype FutureValue = CancelFalse | NoneValue | Returned(value: Value)

  datatype ExcKind = TypeError | IonException | OtherException
  datatype Exception = Exception(kind: ExcKind, message: string)

  /** How running an operation ended. */
  datatype Outcome = Completed(value: Value) | Interrupted | Raised(exc: Exception)

  /** What is raised into the calling greenlet: the failure itself, or a ContainerError wrapping it. */
  datatype Delivered = Forward(exc: Exception) | ContainerError(cause: Exception)
  datatype Signal = Signal(caller: CallerId, delivered: Delivered)

  /** An entry of `_errors`. */
  datatype ErrorRecord = ErrorRecord(call: Call, exc: Exception)

  /** The call being run by the control loop and the clock reading taken before it. */
  datatype InFlight = InFlight(call: Call, start: int)

  /** What one pass of the control loop did with the head of the queue. */
  datatype StepResult =
    | Idle                      // queue empty: the loop blocks in `get`
    | Stopped                   // StopIteration ends the loop
    | Expired(call: Call)       // reply-by already passed: skipped
    | AlreadySet(call: Call)    // future already set (cancelled): skipped
    | Started(call: Call)       // the operation is now running
    | Crashed(call: Call)       // `int(context['reply-by'])` raised: the control greenlet dies

  /** Result of scanning the queue for a future (`has_pending_call`). */
  datatype Lookup = Found | Absent | UnpackFailure

  /** `(_heartbeat_op, _heartbeat_stack, _heartbeat_time, _heartbeat_count)`. */
  datatype HeartbeatState = HeartbeatState(op: Option<FutureId>, stack: Option<Stack>, time: int, count: nat)

  /** The two stall thresholds read from configuration (a count, and seconds). */
  datatype Thresholds = Thresholds(count: int, seconds: int)

  /** One heartbeat sample while a call runs: the snapshot and the clock. */
  datatype Sample = Sample(stack: Stack, now: int)

  /** The effects of `_notify_stop`, in the order they happen. */
  datatype StopEvent = Closed(listener: ListenerId) | StopQueued | ChildrenJoined | CleanupRan

  // -----------------------------------------------------------------------
  // Queue views

  /** The futures of the call entries, in queue order. */
  function QueueFutures(q: seq<QueueItem>): (fs: seq<FutureId>)
    ensures |fs| <= |q|
  {
    if q == [] then []
    else if q[0].StopMarker? then QueueFutures(q[1..])
    else [q[0].call.future] + QueueFutures(q[1..])
  }

  lemma {:induction false} QueueFuturesAppend(q: seq<QueueItem>, x: QueueItem)
    ensures QueueFutures(q + [x]) == QueueFutures(q) + (if x.CallItem? then [x.call.future] else [])
  {
    if q != [] {
      assert (q + [x])[1..] == q[1..] + [x];
      QueueFuturesAppend(q[1..], x);
    } else {
      assert [x][1..] == [];
    }
  }

  lemma {:induction false} QueueFuturesMember(q: seq<QueueItem>, i: int)
    requires 0 <= i < |q| && q[i].CallItem?
    ensures q[i].call.future in QueueFutures(q)
  {
    if i > 0 {
      QueueFuturesMember(q[1..], i - 1);
    }
  }

  lemma {:induction false} QueuedHasEntry(q: seq<QueueItem>, f: FutureId)
    requires f in QueueFutures(q)
    ensures exists i :: 0 <= i < |q| && q[i].CallItem? && q[i].call.future == f
  {
    if q[0].StopMarker? || q[0].call.future != f {
      QueuedHasEntry(q[1..], f);
      var i :| 0 <= i < |q[1..]| && q[1..][i].CallItem? && q[1..][i].call.future == f;
      assert q[i + 1] == q[1..][i];
    }
  }

  /**
   * `has_pending_call`: the loop unpacks each entry as a 6-tuple, so
   * reaching the StopIteration marker before a match raises TypeError.
   */
  function Pending(q: seq<QueueItem>, ar: FutureId): Lookup
  {
    if q == [] then Absent
    else if q[0].StopMarker? then UnpackFailure
    else if q[0].call.future == ar then Found
    else Pending(q[1..], ar)
  }

  predicate NoStopMarker(q: seq<QueueItem>) {
    forall i :: 0 <= i < |q| ==> q[i].CallItem?
  }

  /** Before a stop is requested, `has_pending_call(ar)` holds iff a queued call carries `ar`. */
  lemma {:induction false} PendingIffQueued(q: seq<QueueItem>, ar: FutureId)
    requires NoStopMarker(q)
    ensures Pending(q, ar) != UnpackFailure
    ensures Pending(q, ar) == Found <==> ar in QueueFutures(q)
  {
    if q != [] {
      assert NoStopMarker(q[1..]) by {
        forall i | 0 <= i < |q[1..]| ensures q[1..][i].CallItem? {
          assert q[1..][i] == q[i + 1];
        }
      }
      PendingIffQueued(q[1..], ar);
    }
  }

  /** Found means the future sits in the queue, whatever stands behind it. */
  lemma {:induction false} FoundIsQueued(q: seq<QueueItem>, ar: FutureId)
    requires Pending(q, ar) == Found
    ensures ar in QueueFutures(q)
  {
    if q[0].call.future != ar {
      FoundIsQueued(q[1..], ar);
    }
  }

  /** `ar.ready()` over the futures made so far; an AsyncResult not made here is not set. */
  predicate IsSet(futures: map<FutureId, Option<FutureValue>>, ar: FutureId) {
    ar in futures && futures[ar].Some?
  }

  /**
   * What one pass of the control loop does with call `c`, dequeued at
   * clock `now` when its future's readiness is `ready`.
   */
  function Classify(c: Call, ready: bool, now: int): StepResult
  {
    if c.context.Some? && ReplyBy in c.context.value then
      match Text.ParseInt(c.context.value[ReplyBy])
      case None => Crashed(c)
      case Some(deadline) =>
        if now >= deadline then Expired(c) else if ready then AlreadySet(c) else Started(c)
    else if ready then AlreadySet(c) else Started(c)
  }

  /** What one pass of the control loop does with the head of queue `q`. */
  function NextStep(q: seq<QueueItem>, futures: map<FutureId, Option<FutureValue>>, now: int): StepResult
  {
    if q == [] then Idle
    else if q[0].StopMarker? then Stopped
    else Classify(q[0].call, IsSet(futures, q[0].call.future), now)
  }

  /** The deadline check: the call's context has a reply-by that parses and has passed. */
  predicate PastReplyBy(c: Call, now: int) {
    c.context.Some? && ReplyBy in c.context.value
    && var d := Text.ParseInt(c.context.value[ReplyBy]); d.Some? && now >= d.value
  }

  /**
   * A dequeued call runs exactly when its reply-by deadline (if any, and
   * readable) has not passed and its future is not already set.
   */
  lemma StartsIffLiveAndUnset(c: Call, ready: bool, now: int)
    requires !Classify(c, ready, now).Crashed?
    ensures Classify(c, ready, now).Started? <==> !PastReplyBy(c, now) && !ready
    ensures Classify(c, ready, now).Expired? <==> PastReplyBy(c, now)
    ensures Classify(c, ready, now).AlreadySet? <==> !PastReplyBy(c, now) && ready
    ensures Classify(c, ready, now).call == c
  {
  }

  /** The control greenlet dies on a dequeued call only when its reply-by is not an integer. */
  lemma CrashesIffBadReplyBy(c: Call, ready: bool, now: int)
    ensures Classify(c, ready, now).Crashed? <==>
      c.context.Some? && ReplyBy in c.context.value && Text.ParseInt(c.context.value[ReplyBy]).None?
  {
  }

  // -----------------------------------------------------------------------
  // Heartbeat stall detection

  /**
   * One stall check of `heartbeat()`: the new heartbeat fields and whether
   * this part of the heartbeat is ok. `current` is `_ctrl_current`; `st` is
   * the stack snapshot taken when a call is running.
   */
  function HeartbeatStep(s: HeartbeatState, current: Option<FutureId>, st: Stack, now: int, t: Thresholds)
    : (HeartbeatState, bool)
  {
    if current.None? then
      (s.(op := None, count := 0), true)
    else if current == s.op then
      if Some(st) == s.stack then
        var c := s.count + 1;
        (s.(count := c), !(c > t.count || now - s.time >= t.seconds * 1000))
      else
        (s.(count := 1, stack := Some(st), time := now), true)
    else
      (HeartbeatState(current, Some(st), now, 1), true)
  }

  /** The heartbeat verdicts over successive samples taken while call `f` runs. */
  function RunHeartbeats(s: HeartbeatState, f: FutureId, samples: seq<Sample>, t: Thresholds)
    : (r: (HeartbeatState, seq<bool>))
    ensures |r.1| == |samples|
    decreases |samples|
  {
    if samples == [] then (s, [])
    else
      var (s1, ok) := HeartbeatStep(s, Some(f), samples[0].stack, samples[0].now, t);
      var (sn, oks) := RunHeartbeats(s1, f, samples[1..], t);
      (sn, [ok] + oks)
  }

  predicate SameStack(samples: seq<Sample>, st: Stack) {
    forall i :: 0 <= i < |samples| ==> samples[i].stack == st
  }

  /** Every sample's snapshot differs from the one before it. */
  predicate AlwaysProgressing(samples: seq<Sample>) {
    forall i :: 0 < i < |samples| ==> samples[i].stack != samples[i - 1].stack
  }

  /**
   * After any sample of a running call `f`, the tracked op is `f`, the
   * tracked stack is that sample's snapshot and the count is positive.
   */
  lemma TrackedAfterSample(s: HeartbeatState, f: FutureId, x: Sample, t: Thresholds)
    ensures HeartbeatStep(s, Some(f), x.stack, x.now, t).0.op == Some(f)
    ensures HeartbeatStep(s, Some(f), x.stack, x.now, t).0.stack == Some(x.stack)
    ensures HeartbeatStep(s, Some(f), x.stack, x.now, t).0.count >= 1
  {
  }

  /**
   * Samples with the same snapshot while `f` is already tracked at that
   * snapshot: the count grows by one per sample and the timestamp stays.
   */
  lemma {:induction false} RepeatsCount(s: HeartbeatState, f: FutureId, st: Stack, samples: seq<Sample>, t: Thresholds)
    requires s.op == Some(f) && s.stack == Some(st)
    requires SameStack(samples, st)
    ensures RunHeartbeats(s, f, samples, t).0 == s.(count := s.count + |samples|)
    ensures forall i :: 0 <= i < |samples| ==>
      RunHeartbeats(s, f, samples, t).1[i] ==
        !(s.count + i + 1 > t.count || samples[i].now - s.time >= t.seconds * 1000)
    decreases |samples|
  {
    if samples != [] {
      var s1 := s.(count := s.count + 1);
      assert SameStack(samples[1..], st) by {
        forall i | 0 <= i < |samples[1..]| ensures samples[1..][i].stack == st {
          assert samples[1..][i] == samples[i + 1];
        }
      }
      RepeatsCount(s1, f, st, samples[1..], t);
      var oks := RunHeartbeats(s, f, samples, t).1;
      forall i | 0 <= i < |samples|
        ensures oks[i] == !(s.count + i + 1 > t.count || samples[i].now - s.time >= t.seconds * 1000)
      {
        if i > 0 {
          assert samples[1..][i - 1] == samples[i];
        }
      }
    }
  }

  /**
   * A call whose stack snapshot never changes is reported as stalled once
   * it has been seen more than `count`-threshold times in a row.
   */
  lemma StallByCount(s: HeartbeatState, f: FutureId, st: Stack, samples: seq<Sample>, t: Thresholds)
    requires |samples| >= 2 && |samples| > t.count
    requires SameStack(samples, st)
    ensures !RunHeartbeats(s, f, samples, t).1[|samples| - 1]
  {
    var x := samples[0];
    var s1 := HeartbeatStep(s, Some(f), x.stack, x.now, t).0;
    TrackedAfterSample(s, f, x, t);
    assert SameStack(samples[1..], st) by {
      forall i | 0 <= i < |samples[1..]| ensures samples[1..][i].stack == st {
        assert samples[1..][i] == samples[i + 1];
      }
    }
    RepeatsCount(s1, f, st, samples[1..], t);
  }

  /**
   * A call first seen at one sample and then seen with the same snapshot
   * `seconds`-threshold seconds (in ms) later is reported as stalled.
   */
  lemma StallByTime(s: HeartbeatState, f: FutureId, st: Stack, samples: seq<Sample>, t: Thresholds)
    requires s.op != Some(f)
    requires |samples| >= 2 && SameStack(samples, st)
    requires samples[|samples| - 1].now - samples[0].now >= t.seconds * 1000
    ensures !RunHeartbeats(s, f, samples, t).1[|samples| - 1]
  {
    var x := samples[0];
    var s1 := HeartbeatStep(s, Some(f), x.stack, x.now, t).0;
    assert s1 == HeartbeatState(Some(f), Some(st), x.now, 1);
    assert SameStack(samples[1..], st) by {
      forall i | 0 <= i < |samples[1..]| ensures samples[1..][i].stack == st {
        assert samples[1..][i] == samples[i + 1];
      }
    }
    RepeatsCount(s1, f, st, samples[1..], t);
  }

  /** A call whose snapshot changes at every sample is never reported as stalled. */
  lemma {:induction false} ProgressNeverStalls(s: HeartbeatState, f: FutureId, samples: seq<Sample>, t: Thresholds)
    requires AlwaysProgressing(samples)
    requires samples != [] && s.op == Some(f) ==> s.stack != Some(samples[0].stack)
    ensures forall i :: 0 <= i < |samples| ==> RunHeartbeats(s, f, samples, t).1[i]
    decreases |samples|
  {
    if samples != [] {
      var x := samples[0];
      var s1 := HeartbeatStep(s, Some(f), x.stack, x.now, t).0;
      assert s1.op == Some(f) && s1.stack == Some(x.stack);
      assert AlwaysProgressing(samples[1..]) by {
        forall i | 0 < i < |samples[1..]| ensures samples[1..][i].stack != samples[1..][i - 1].stack {
          assert samples[1..][i] == samples[i + 1] && samples[1..][i - 1] == samples[i];
        }
      }
      if |samples| > 1 {
        assert samples[1..][0] == samples[1];
      }
      ProgressNeverStalls(s1, f, samples[1..], t);
      var oks := RunHeartbeats(s, f, samples, t).1;
      forall i | 0 <= i < |samples| ensures oks[i] {
        if i > 0 {
          assert oks[i] == RunHeartbeats(s1, f, samples[1..], t).1[i - 1];
        }
      }
    }
  }

  // -----------------------------------------------------------------------
  // The process

  /** A future is unset, or holds the `False` of a cancellation. */
  predicate Unsettled(futures: map<FutureId, Option<FutureValue>>, f: FutureId) {
    f in futures && (futures[f].None? || futures[f] == Some(CancelFalse))
  }

  /** Every future that was set stays set to the same value. */
  ghost predicate KeepsResolutions(before: map<FutureId, Option<FutureValue>>, after: map<FutureId, Option<FutureValue>>) {
    forall f :: f in before ==> f in after && (before[f].Some? ==> after[f] == before[f])
  }

  /** No entry of `s` after the `k`-th and before the `n`-th repeats it. */
  predicate LastEntry<T(==)>(s: seq<T>, k: nat, n: nat)
    requires k < n <= |s|
  {
    forall j :: k < j < n ==> s[j] != s[k]
  }

  predicate Distinct(s: seq<FutureId>) {
    forall i, j :: 0 <= i < j < |s| ==> s[i] != s[j]
  }

  lemma DistinctSplit(a: seq<FutureId>, b: seq<FutureId>, x: FutureId)
    requires Distinct(a + b) && x in a
    ensures x !in b
  {
    var i :| 0 <= i < |a| && a[i] == x;
    assert (a + b)[i] == x;
    forall j | 0 <= j < |b| ensures b[j] != x {
      assert (a + b)[|a| + j] == b[j];
    }
  }

  class IonProcessThread {
    /** `_cleanup_method is not None`. */
    const hasCleanup: bool

    var queue: seq<QueueItem>
    /** Every AsyncResult created by `_routing_call`, and what it was set to. */
    var futures: map<FutureId, Option<FutureValue>>
    var nextFuture: FutureId
    /** `_ctrl_current`. */
    var current: Option<FutureId>
    /** The locals of `_control_flow` while an operation runs. */
    var inFlight: Option<InFlight>
    /** `_proc_time`, in ms. */
    var procTime: int
    /** `_start_time`, set when the process body starts. */
    var startTime: Option<int>
    /** `_errors`. */
    var errors: seq<ErrorRecord>
    /** Exceptions raised into calling greenlets, in order. */
    var signals: seq<Signal>
    /** One entry per interrupt sent to the control greenlet: the call running at that moment. */
    var interrupts: seq<Option<FutureId>>
    /** Whether the control greenlet is running. */
    var controlRunning: bool
    /** Whether `self.proc` exists, i.e. the process has been started. */
    var started: bool

    var heartbeatOp: Option<FutureId>
    var heartbeatStack: Option<Stack>
    var heartbeatTime: int
    var heartbeatCount: nat

    var startupListeners: seq<ListenerId>
    var listeners: seq<ListenerId>
    var listenerMap: map<ListenerId, WorkerId>
    /** What `_notify_stop` did, in order. */
    var stopLog: seq<StopEvent>

    /** Every future ever routed, in routing order. */
    ghost var routed: seq<FutureId>
    /** Every future the control loop has dequeued, in dequeue order. */
    ghost var taken: seq<FutureId>

    ghost predicate Valid()
      reads this
    {
      && (forall f :: f in futures ==> f < nextFuture)
      && Distinct(routed)
      && (forall i :: 0 <= i < |routed| ==> routed[i] in futures)
      // FIFO: what was taken, followed by what is still queued, is what was routed.
      && taken + QueueFutures(queue) == routed
      && (forall i :: 0 <= i < |queue| && queue[i].CallItem? ==> Unsettled(futures, queue[i].call.future))
      && (inFlight.None? <==> current.None?)
      && (inFlight.Some? ==>
            && current == Some(inFlight.value.call.future)
            && inFlight.value.call.future in futures
            && futures[inFlight.value.call.future].None?
            && inFlight.value.call.future !in QueueFutures(queue))
    }

    function Heartbeat(): HeartbeatState
      reads this
    {
      HeartbeatState(heartbeatOp, heartbeatStack, heartbeatTime, heartbeatCount)
    }

    /** The future `ar` is set (`ar.ready()`); an AsyncResult not made here is not. */
    function Ready(ar: FutureId): bool
      reads this
    {
      IsSet(futures, ar)
    }

    constructor (startup: seq<ListenerId>, cleanup: bool)
      ensures Valid()
      ensures queue == [] && futures == map[] && current == None && inFlight == None
      ensures procTime == 0 && startTime == None && errors == [] && signals == [] && interrupts == []
      ensures !started && !controlRunning
      ensures Heartbeat() == HeartbeatState(None, None, 0, 0)
      ensures startupListeners == startup && listeners == [] && listenerMap == map[] && stopLog == []
      ensures hasCleanup == cleanup
    {
      hasCleanup := cleanup;
      queue, futures, nextFuture := [], map[], 0;
      current, inFlight := None, None;
      procTime, startTime := 0, None;
      errors, signals, interrupts := [], [], [];
      controlRunning, started := false, false;
      heartbeatOp, heartbeatStack, heartbeatTime, heartbeatCount := None, None, 0, 0;
      startupListeners, listeners, listenerMap, stopLog := startup, [], map[], [];
      routed, taken := [], [];
    }

    /** Starting the process: `self.proc` exists, `target` records the start time and spawns the control loop. */
    method Start(now: int)
      requires Valid()
      modifies this`started, this`startTime, this`controlRunning
      ensures Valid()
      ensures started && controlRunning && startTime == Some(now)
    {
      started := true;
      startTime := Some(now);
      controlRunning := true;
    }

    /**
     * `_routing_call`: enqueue one descriptor holding a fresh, unset future
     * at the end of the queue and return that future.
     */
    method RoutingCall(caller: CallerId, op: OperationRef, args: seq<Value>, kwargs: map<string, Value>,
                       context: Option<map<string, string>>)
      returns (ar: FutureId)
      requires Valid()
      modifies this`nextFuture, this`futures, this`queue, this`routed
      ensures Valid()
      ensures ar !in old(futures) && futures == old(futures)[ar := None]
      ensures queue == old(queue) + [CallItem(Call(caller, ar, op, args, kwargs, context))]
      ensures routed == old(routed) + [ar]
    {
      ar := nextFuture;
      assert ar !in routed;
      assert inFlight.Some? ==> inFlight.value.call.future != ar;
      nextFuture := nextFuture + 1;
      futures := futures[ar := None];
      var item := CallItem(Call(caller, ar, op, args, kwargs, context));
      QueueFuturesAppend(queue, item);
      ghost var q0 := queue;
      queue := queue + [item];
      assert forall i :: 0 <= i < |queue| && queue[i].CallItem? ==> Unsettled(futures, queue[i].call.future) by {
        forall i | 0 <= i < |queue| && queue[i].CallItem? ensures Unsettled(futures, queue[i].call.future) {
          if i < |q0| {
            assert queue[i] == q0[i];
          }
        }
      }
      routed := routed + [ar];
    }

    /** `has_pending_call`: scan the queue in order for a descriptor carrying `ar`. */
    method HasPendingCall(ar: FutureId) returns (r: Lookup)
      ensures r == Pending(queue, ar)
    {
      var i := 0;
      while i < |queue|
        invariant 0 <= i <= |queue|
        invariant Pending(queue, ar) == Pending(queue[i..], ar)
      {
        var rest := queue[i..];
        assert rest != [] && rest[0] == queue[i] && rest[1..] == queue[i + 1..];
        if queue[i].StopMarker? {
          return UnpackFailure;
        }
        if queue[i].call.future == ar {
          return Found;
        }
        i := i + 1;
      }
      assert queue[i..] == [];
      return Absent;
    }

    /**
     * `_cancel_pending_call`: set a still-queued future to `False` and
     * report it; otherwise change nothing. `UnpackFailure` is the TypeError
     * that escapes when the scan meets the stop marker first.
     */
    method CancelPendingCall(ar: FutureId) returns (r: Lookup)
      requires Valid()
      modifies this`futures
      ensures Valid()
      ensures r == Pending(old(queue), ar)
      ensures futures == if r == Found then old(futures)[ar := Some(CancelFalse)] else old(futures)
      ensures KeepsResolutions(old(futures), futures)
    {
      r := HasPendingCall(ar);
      if r == Found {
        FoundIsQueued(queue, ar);
        QueuedHasEntry(queue, ar);
        assert ar in routed;
        assert Unsettled(futures, ar);
        futures := futures[ar := Some(CancelFalse)];
      }
    }

    /**
     * `cancel_or_abort_call`: cancel `ar` if it is queued; otherwise, when
     * it is not set, interrupt whatever the control greenlet is running.
     * `ok` is false when the TypeError of the queue scan escapes.
     */
    method CancelOrAbortCall(ar: FutureId) returns (ok: bool)
      requires Valid()
      modifies this`futures, this`interrupts
      ensures Valid()
      ensures ok == (Pending(old(queue), ar) != UnpackFailure)
      ensures futures == if Pending(old(queue), ar) == Found then old(futures)[ar := Some(CancelFalse)] else old(futures)
      ensures interrupts == old(interrupts) +
        (if Pending(old(queue), ar) == Absent && !old(Ready(ar)) then [old(current)] else [])
      ensures KeepsResolutions(old(futures), futures)
    {
      var r := CancelPendingCall(ar);
      ok := r != UnpackFailure;
      if r == Absent && !Ready(ar) {
        interrupts := interrupts + [current];
      }
    }

    /**
     * The first half of one pass of `_control_flow`: take the head of the
     * queue, skip it when its reply-by deadline has passed or its future is
     * already set, and otherwise mark it as the current call.
     */
    method TakeNext(now: int) returns (r: StepResult)
      requires Valid() && controlRunning && inFlight.None?
      modifies this`queue, this`taken, this`controlRunning, this`current, this`inFlight
      ensures Valid()
      ensures r == NextStep(old(queue), old(futures), now)
      ensures queue == if old(queue) == [] then [] else old(queue)[1..]
      ensures taken == old(taken) + (if r.Idle? || r.Stopped? then [] else [r.call.future])
      ensures controlRunning == !(r.Stopped? || r.Crashed?)
      ensures r.Started? ==> current == Some(r.call.future) && inFlight == Some(InFlight(r.call, now))
      ensures !r.Started? ==> current == None && inFlight == None
    {
      if queue == [] {
        return Idle;
      }
      var item := queue[0];
      queue := queue[1..];
      if item.StopMarker? {
        controlRunning := false;
        return Stopped;
      }
      var c := item.call;
      assert Unsettled(futures, c.future);
      taken := taken + [c.future];
      assert taken + QueueFutures(queue) == routed;
      DistinctSplit(taken, QueueFutures(queue), c.future);
      if c.context.Some? && ReplyBy in c.context.value {
        var deadline := Text.ParseInt(c.context.value[ReplyBy]);
        if deadline.None? {
          controlRunning := false;
          return Crashed(c);
        }
        if now >= deadline.value {
          return Expired(c);
        }
      }
      if Ready(c.future) {
        return AlreadySet(c);
      }
      current := Some(c.future);
      inFlight := Some(InFlight(c, now));
      r := Started(c);
    }

    /**
     * The second half: the operation has ended with `outcome` at clock
     * `end`. Failures are raised into the caller (TypeError and IonException
     * as they are, others recorded in `_errors` and wrapped in a
     * ContainerError); the elapsed time is added to `_proc_time`; the
     * current call is cleared; the future is set to the result, or None.
     */
    method FinishCall(end: int, outcome: Outcome)
      requires Valid() && inFlight.Some?
      modifies this`futures, this`signals, this`errors, this`procTime, this`current, this`inFlight
      ensures Valid()
      ensures var c := old(inFlight).value.call;
        && futures == old(futures)[c.future := Some(if outcome.Completed? then Returned(outcome.value) else NoneValue)]
        && signals == old(signals) +
             (if outcome.Raised? then
                [Signal(c.caller, if IsForwarded(outcome.exc) then Forward(outcome.exc) else ContainerError(outcome.exc))]
              else [])
        && errors == old(errors) +
             (if outcome.Raised? && !IsForwarded(outcome.exc) then [ErrorRecord(c, outcome.exc)] else [])
      ensures procTime == old(procTime) + (end - old(inFlight).value.start)
      ensures end >= old(inFlight).value.start ==> procTime >= old(procTime)
      ensures current == None && inFlight == None
      ensures KeepsResolutions(old(futures), futures)
    {
      var c := inFlight.value.call;
      var res := NoneValue;
      match outcome {
        case Completed(v) =>
          res := Returned(v);
        case Interrupted =>
        case Raised(e) =>
          if IsForwarded(e) {
            signals := signals + [Signal(c.caller, Forward(e))];
          } else {
            errors := errors + [ErrorRecord(c, e)];
            signals := signals + [Signal(c.caller, ContainerError(e))];
          }
      }
      procTime := procTime + (end - inFlight.value.start);
      current := None;
      inFlight := None;
      forall i | 0 <= i < |queue| && queue[i].CallItem? ensures queue[i].call.future != c.future {
        QueueFuturesMember(queue, i);
      }
      futures := futures[c.future := Some(res)];
    }

    /**
     * One full pass of `_control_flow`: take the next entry and, when it
     * starts, run it to `outcome`, which ends at clock `end`.
     */
    method RunOne(now: int, end: int, outcome: Outcome) returns (r: StepResult)
      requires Valid() && controlRunning && inFlight.None?
      modifies this`queue, this`taken, this`controlRunning, this`current, this`inFlight
      modifies this`futures, this`signals, this`errors, this`procTime
      ensures Valid()
      ensures current == None && inFlight == None
      ensures old(queue) != [] ==> queue == old(queue)[1..]
      ensures controlRunning == !(r.Stopped? || r.Crashed?)
      ensures r == NextStep(old(queue), old(futures), now)
      ensures !r.Started? ==> futures == old(futures) && procTime == old(procTime) && errors == old(errors) && signals == old(signals)
      ensures r.Started? ==>
        && futures == old(futures)[r.call.future := Some(if outcome.Completed? then Returned(outcome.value) else NoneValue)]
        && procTime == old(procTime) + (end - now)
        && errors == old(errors) + (if outcome.Raised? && !IsForwarded(outcome.exc) then [ErrorRecord(r.call, outcome.exc)] else [])
        && signals == old(signals) +
             (if outcome.Raised? then
                [Signal(r.call.caller, if IsForwarded(outcome.exc) then Forward(outcome.exc) else ContainerError(outcome.exc))]
              else [])
      ensures KeepsResolutions(old(futures), futures)
    {
      r := TakeNext(now);
      if r.Started? {
        FinishCall(end, outcome);
      }
    }

    /** The stall-detection part of the heartbeat as a state change of the four heartbeat fields. */
    method CheckStall(st: Stack, now: int, t: Thresholds) returns (ok: bool)
      requires Valid()
      modifies this`heartbeatOp, this`heartbeatStack, this`heartbeatTime, this`heartbeatCount
      ensures Valid()
      ensures (Heartbeat(), ok) == HeartbeatStep(old(Heartbeat()), current, st, now, t)
    {
      ok := true;
      if current.Some? {
        if current == heartbeatOp {
          if Some(st) == heartbeatStack {
            heartbeatCount := heartbeatCount + 1;
            if heartbeatCount > t.count || now - heartbeatTime >= t.seconds * 1000 {
              ok := false;
            }
          } else {
            heartbeatCount := 1;
            heartbeatStack := Some(st);
            heartbeatTime := now;
          }
        } else {
          heartbeatOp := current;
          heartbeatCount := 1;
          heartbeatTime := now;
          heartbeatStack := Some(st);
        }
      } else {
        heartbeatOp := None;
        heartbeatCount := 0;
      }
    }

    /** Every attached listener has a greenlet in `_listener_map` that is not dead. */
    method ListenersAlive(dead: set<WorkerId>) returns (ok: bool)
      ensures ok <==> forall i :: 0 <= i < |listeners| ==>
        listeners[i] in listenerMap && listenerMap[listeners[i]] !in dead
    {
      ok := true;
      var i := 0;
      while i < |listeners|
        invariant 0 <= i <= |listeners|
        invariant ok <==> forall k :: 0 <= k < i ==> listeners[k] in listenerMap && listenerMap[listeners[k]] !in dead
      {
        var l := listeners[i];
        if !(l in listenerMap && listenerMap[l] !in dead) {
          ok := false;
        }
        i := i + 1;
      }
    }

    /**
     * `heartbeat()`: (listeners ok, control greenlet ok, no stall). It may
     * only be called after the process has started. `dead` is the set of
     * spawned greenlets that have died.
     */
    method Heartbeat3(st: Stack, now: int, t: Thresholds, dead: set<WorkerId>)
      returns (listenersOk: bool, controlOk: bool, stallOk: bool)
      requires Valid() && started
      modifies this`heartbeatOp, this`heartbeatStack, this`heartbeatTime, this`heartbeatCount
      ensures Valid()
      ensures listenersOk <==> forall i :: 0 <= i < |listeners| ==>
        listeners[i] in listenerMap && listenerMap[listeners[i]] !in dead
      ensures controlOk == controlRunning
      ensures (Heartbeat(), stallOk) == HeartbeatStep(old(Heartbeat()), current, st, now, t)
    {
      stallOk := CheckStall(st, now, t);
      listenersOk := ListenersAlive(dead);
      controlOk := controlRunning;
    }

    /**
     * `time_stats`: (total, idle, busy) in ms at clock `now`; None stands
     * for the TypeError raised before the start time is recorded.
     */
    function TimeStats(now: int): (r: Option<(int, int, int)>)
      reads this
      ensures r.None? <==> startTime.None?
      ensures r.Some? ==> r.value.0 == now - startTime.value
      ensures r.Some? ==> r.value.2 == procTime && r.value.0 == r.value.1 + r.value.2
    {
      if startTime.None? then None
      else
        var running := now - startTime.value;
        Some((running, running - procTime, procTime))
    }

    /**
     * `add_endpoint`: once started, the listener is wired to `_routing_call`,
     * its listen loop runs in greenlet `worker` and it is attached; before
     * that, it is kept for start-up.
     */
    method AddEndpoint(l: ListenerId, worker: WorkerId)
      requires Valid()
      modifies this`listeners, this`listenerMap, this`startupListeners
      ensures Valid()
      ensures old(started) ==>
        listeners == old(listeners) + [l] && listenerMap == old(listenerMap)[l := worker]
        && startupListeners == old(startupListeners)
      ensures !old(started) ==>
        startupListeners == old(startupListeners) + [l]
        && listeners == old(listeners) && listenerMap == old(listenerMap)
    {
      if started {
        listenerMap := listenerMap[l := worker];
        listeners := listeners + [l];
      } else {
        startupListeners := startupListeners + [l];
      }
    }

    /**
     * `start_listeners`, which must be called after the process started:
     * every start-up listener is attached in order, the i-th in greenlet
     * `workers[i]`, so a listener listed twice ends up mapped to the
     * greenlet of its last entry. The start-up list itself is not cleared.
     */
    method StartListeners(workers: seq<WorkerId>)
      requires Valid() && started && |workers| == |startupListeners|
      modifies this`listeners, this`listenerMap, this`startupListeners
      ensures Valid()
      ensures listeners == old(listeners) + old(startupListeners)
      ensures startupListeners == old(startupListeners)
      ensures forall l :: l in listenerMap <==> l in old(listenerMap) || l in startupListeners
      ensures forall k :: 0 <= k < |workers| && LastEntry(startupListeners, k, |workers|) ==>
        listenerMap[startupListeners[k]] == workers[k]
      ensures forall l :: l in old(listenerMap) && l !in startupListeners ==> listenerMap[l] == old(listenerMap)[l]
    {
      var i := 0;
      while i < |startupListeners|
        invariant 0 <= i <= |startupListeners|
        invariant startupListeners == old(startupListeners) && started
        invariant listeners == old(listeners) + startupListeners[..i]
        invariant forall l :: l in listenerMap <==> l in old(listenerMap) || l in startupListeners[..i]
        invariant forall k :: 0 <= k < i && LastEntry(startupListeners, k, i) ==>
          listenerMap[startupListeners[k]] == workers[k]
        invariant forall l :: l in old(listenerMap) && l !in startupListeners[..i] ==> listenerMap[l] == old(listenerMap)[l]
        invariant Valid()
      {
        AddEndpoint(startupListeners[i], workers[i]);
        assert startupListeners[..i + 1] == startupListeners[..i] + [startupListeners[i]];
        i := i + 1;
      }
      assert startupListeners[..i] == startupListeners;
    }

    /**
     * `_notify_stop`: close every attached listener, put the stop marker at
     * the end of the queue, join the children, then run the cleanup method
     * if there is one.
     */
    method NotifyStop()
      requires Valid()
      modifies this`stopLog, this`queue
      ensures Valid()
      ensures queue == old(queue) + [StopMarker]
      ensures stopLog == old(stopLog) + ClosingOf(listeners) + [StopQueued, ChildrenJoined]
                         + (if hasCleanup then [CleanupRan] else [])
    {
      var i := 0;
      while i < |listeners|
        invariant 0 <= i <= |listeners|
        invariant stopLog == old(stopLog) + ClosingOf(listeners[..i])
        invariant queue == old(queue)
      {
        assert listeners[..i + 1] == listeners[..i] + [listeners[i]];
        stopLog := stopLog + [Closed(listeners[i])];
        i := i + 1;
      }
      assert listeners[..i] == listeners;
      QueueFuturesAppend(queue, StopMarker);
      ghost var q0 := queue;
      queue := queue + [StopMarker];
      assert forall i :: 0 <= i < |queue| && queue[i].CallItem? ==> Unsettled(futures, queue[i].call.future) by {
        forall i | 0 <= i < |queue| && queue[i].CallItem? ensures Unsettled(futures, queue[i].call.future) {
          assert i < |q0| && queue[i] == q0[i];
        }
      }
      stopLog := stopLog + [StopQueued, ChildrenJoined];
      if hasCleanup {
        stopLog := stopLog + [CleanupRan];
      }
    }
  }

  /** The failures `_control_flow` raises into the caller as they are. */
  predicate IsForwarded(e: Exception) {
    e.kind == TypeError || e.kind == IonException
  }

  function ClosingOf(ls: seq<ListenerId>): (r: seq<StopEvent>)
    ensures |r| == |ls| && forall i :: 0 <= i < |ls| ==> r[i] == Closed(ls[i])
  {
    if ls == [] then [] else ClosingOf(ls[..|ls| - 1]) + [Closed(ls[|ls| - 1])]
  }

  /** A started process with calls A and B routed in that order and B cancelled while queued. */
  method RouteTwoCancelSecond() returns (p: IonProcessThread, fa: FutureId, fb: FutureId)
    ensures fresh(p) && p.Valid() && p.controlRunning && p.inFlight.None? && p.procTime == 0
    ensures p.queue == [CallItem(Call(1, fa, 10, [], map[], None)), CallItem(Call(2, fb, 11, [], map[], None))]
    ensures fa != fb && p.futures == map[fa := None, fb := Some(CancelFalse)]
  {
    p := new IonProcessThread([], false);
    p.Start(0);
    fa := p.RoutingCall(1, 10, [], map[], None);
    fb := p.RoutingCall(2, 11, [], map[], None);
    assert Pending(p.queue, fb) == Found;
    var ok := p.CancelOrAbortCall(fb);
  }

  /**
   * Two calls A and B are routed in that order, B is cancelled while
   * queued, and the loop runs two passes: A runs and its future is set to
   * its result, B is skipped and stays `False`, and the busy time is A's
   * duration.
   */
  method TwoCallScenario(va: Value, da: nat) returns (a: Option<FutureValue>, b: Option<FutureValue>, busy: int)
    ensures a == Some(Returned(va)) && b == Some(CancelFalse)
    ensures busy == da
  {
    var p, fa, fb := RouteTwoCancelSecond();
    var r1 := p.RunOne(1, 1 + da, Completed(va));
    assert p.queue == [CallItem(Call(2, fb, 11, [], map[], None))];
    var r2 := p.RunOne(2 + da, 2 + da, Completed(va));
    a, b := p.futures[fa], p.futures[fb];
    busy := p.procTime;
  }
}
