/** Properties of runs of several engine steps: how the stop protocol releases,
    what a reset leaves behind, scale-out, and how the two backends differ once a
    queue has been drained. */
module EngineProps {
  import opened Types
  import opened Backend
  import opened StopProtocol
  import opened EngineSpec

  // ---------------------------------------------------------------------------
  // The stop protocol

  /** Thread `w` runs the park/count block `k` times in a row, with no other
      thread taking a step. Its type's tally moves exactly as `k` observations. */
  function ParkTimes(s: Tables, w: WorkerId, k: nat): (r: Tables)
    requires Inv(s) && CanPark(s, w)
    ensures Inv(r) && CanPark(r, w)
    ensures r == s.(stoppedCount := r.stoppedCount, allStopped := r.allStopped)
    ensures SameOtherPools(s, r, s.threads[w])
    ensures var t := s.threads[w];
      && t in s.stoppedCount && t in s.allStopped && t in r.stoppedCount && t in r.allStopped
      && TallyOf(r, t) == ObserveTimes(|s.workers[t]|, TallyOf(s, t), k)
    decreases k
  {
    assert PoolOk(s, s.threads[w]);
    if k == 0 then s
    else
      var s1 := ParkStep(s, w);
      var r := ParkTimes(s1, w, k - 1);
      r
  }

  /** After a stop request on a pool at rest, the all-stopped flag stays low for
      fewer passes than the pool has handles, and rises at that many passes, all
      made by one and the same thread: the counter counts passes, not threads. */
  lemma OneThreadReleasesStop(s: Tables, t: EventType, w: WorkerId)
    requires Inv(s) && t in s.workers && !IsWorkerStopping(s, t)
    requires w in s.threads && s.threads[w] == t
    ensures CanPark(RequestStop(s, t), w)
    ensures var p := RequestStop(s, t); var n := |s.workers[t]|;
      && (forall k: nat :: k < n ==> !ParkTimes(p, w, k).allStopped[t])
      && ParkTimes(p, w, n).allStopped[t]
  {
    var p := RequestStop(s, t);
    var n := |s.workers[t]|;
    assert PoolOk(s, t);
    assert TallyOf(p, t) == Tally(0, false);
    forall k: nat | k <= n
      ensures t in ParkTimes(p, w, k).allStopped
      ensures ParkTimes(p, w, k).allStopped[t] <==> k == n
    {
      ObservationsRelease(n, 0, k);
    }
  }

  /** `ResetToOneWorker` up to the end of its wait, from a pool at rest: raise
      the stop flag, then let thread `w` of the pool pass the park/count block
      once per handle. That raises all-stopped and touches nothing else. */
  function StopAndPark(s: Tables, t: EventType, w: WorkerId): (r: Tables)
    requires Inv(s) && t in s.workers && !IsWorkerStopping(s, t)
    requires w in s.threads && s.threads[w] == t
    ensures Inv(r) && t in r.allStopped && r.allStopped[t]
    ensures r.workers == s.workers && r.threads == s.threads && r.nextThread == s.nextThread
    ensures SameOtherPools(s, r, t)
    ensures SameQueues(s, r) && r.typeNames == s.typeNames
  {
    var p := RequestStop(s, t);
    OneThreadReleasesStop(s, t, w);
    var r := ParkTimes(p, w, |s.workers[t]|);
    r
  }

  /** `ResetToOneWorker` from a pool at rest, with thread `w` doing the parking. */
  function ResetToOneWorker(s: Tables, t: EventType, w: WorkerId): (r: Tables)
    requires Inv(s) && t in s.workers && !IsWorkerStopping(s, t)
    requires w in s.threads && s.threads[w] == t
    ensures Inv(r)
    ensures Workers(r, t) == [s.nextThread] && s.nextThread !in s.threads
    ensures !IsWorkerStopping(r, t) && TallyOf(r, t) == Tally(0, false)
    ensures r.threads == s.threads[s.nextThread := t]
    ensures SameOtherPools(s, r, t)
    ensures SameQueues(s, r) && r.typeNames == s.typeNames
  {
    var parked := StopAndPark(s, t, w);
    var r := CompleteReset(parked, t);
    r
  }

  /** The threads whose handles a reset cleared are not stopped: with the stop
      flag low again, each of them runs the dispatch loop beside the new worker,
      though the handle list no longer names it. */
  lemma RetiredThreadsKeepDispatching(s: Tables, t: EventType, w: WorkerId)
    requires Inv(s) && t in s.workers && !IsWorkerStopping(s, t)
    requires w in s.threads && s.threads[w] == t
    ensures var r := ResetToOneWorker(s, t, w);
      forall v :: v in s.workers[t] ==> CanDispatch(r, v) && v !in Workers(r, t)
  {
    var r := ResetToOneWorker(s, t, w);
    HandlesOutliveReset(s, r, t);
  }

  /** Once the list of `t` is replaced by the one new thread `nextThread` and the
      stop flag is low, every old handle of `t` names a thread that dispatches
      and that the list no longer holds. */
  lemma HandlesOutliveReset(s: Tables, r: Tables, t: EventType)
    requires Shape(s) && t in s.workers
    requires r.threads == s.threads[s.nextThread := t] && Workers(r, t) == [s.nextThread]
    requires !IsWorkerStopping(r, t)
    ensures forall v :: v in s.workers[t] ==> CanDispatch(r, v) && v !in Workers(r, t)
  {
    forall v | v in s.workers[t]
      ensures CanDispatch(r, v) && v !in Workers(r, t)
    {
      var i :| 0 <= i < |s.workers[t]| && s.workers[t][i] == v;
      assert v in s.threads && s.threads[v] == t;
    }
  }

  // ---------------------------------------------------------------------------
  // Scale-out

  /** `k` calls of `AddAndStartWorker` in a row. */
  function AddWorkers(s: Tables, t: EventType, k: nat): (r: Tables)
    requires Inv(s)
    requires NeedsFirstWorker(s, t) ==> !IsWorkerStopping(s, t)
    ensures Inv(r)
    ensures CountStatistic(r, t).workerCount == CountStatistic(s, t).workerCount + k
    ensures k > 0 ==> t in r.allStopped && !r.allStopped[t]
    ensures SameOtherPools(s, r, t)
    ensures SameQueues(s, r) && r.typeNames == s.typeNames
    decreases k
  {
    if k == 0 then s
    else
      var s1 := AddAndStartWorker(s, t);
      assert Workers(s1, t) != [];
      var r := AddWorkers(s1, t, k - 1);
      r
  }

  // ---------------------------------------------------------------------------
  // Draining and refilling a queue

  /** In the shared-store branch, taking the last item of a queue removes its
      key, so the next push of that type counts as creating the queue and starts
      one more worker beside the ones still running. */
  lemma StoreRefillStartsAnotherWorker(s: Tables, w: WorkerId,
                                       decode: (EventType, string) -> Option<Event>,
                                       handlerOk: bool, e: Event, json: string)
    requires Inv(s) && s.redisEnabled && CanDispatch(s, w)
    requires e.ty == s.threads[w] && QueueDepth(s, e.ty) == 1
    ensures PushCreatesQueue(DispatchStep(s, w, decode, handlerOk).0, e)
    ensures var d := DispatchStep(s, w, decode, handlerOk).0;
      && Workers(Push(d, e, json), e.ty) == Workers(s, e.ty) + [s.nextThread]
      && |Workers(s, e.ty)| > 0
  {
    var t := e.ty;
    var d := DispatchStep(s, w, decode, handlerOk).0;
    assert PoolOk(s, t);
    assert RedisList(d, BuildRedisQueueName(t)) == [];
    PushStartsFirstWorker(d, e, json);
  }

  /** In the in-memory branch, an emptied queue stays in the table, so the next
      push of that type only enqueues and starts no worker. */
  lemma MemoryRefillKeepsWorkers(s: Tables, w: WorkerId,
                                 decode: (EventType, string) -> Option<Event>,
                                 handlerOk: bool, e: Event, json: string)
    requires Inv(s) && !s.redisEnabled && CanDispatch(s, w)
    requires e.ty == s.threads[w] && QueueDepth(s, e.ty) == 1
    ensures var d := DispatchStep(s, w, decode, handlerOk).0;
      && MemQueue(d, e.ty) == [] && !PushCreatesQueue(d, e)
    ensures var d := DispatchStep(s, w, decode, handlerOk).0;
      && SameWorkerTables(Push(d, e, json), s)
      && MemQueue(Push(d, e, json), e.ty) == [e]
  {
  }

  /** A queue left in the shared store by an earlier run is never drained by
      this process: pushing onto it finds the key, so no worker is started. */
  lemma LeftoverStoreQueueHasNoWorker(store: map<string, seq<string>>, e: Event, json: string)
    requires forall q :: q in store ==> store[q] != []
    requires BuildRedisQueueName(e.ty) in store
    ensures var r := Push(Initial(true, store), e, json);
      && CountStatistic(r, e.ty).workerCount == 0
      && QueueDepth(r, e.ty) == |store[BuildRedisQueueName(e.ty)]| + 1
  {
  }

  // ---------------------------------------------------------------------------
  // Dispatch order and failures

  /** The deserializer passed to in-memory dispatch steps, which never use it. */
  function NoDecode(t: EventType, payload: string): Option<Event>
  {
    None
  }

  /** Thread `w` runs `k` in-memory dispatch passes in a row; the second half is
      the sequence of items handed to the handler. */
  function DrainMemory(s: Tables, w: WorkerId, k: nat, handlerOk: bool): (r: (Tables, seq<Event>))
    requires Inv(s) && !s.redisEnabled && CanDispatch(s, w)
    requires k <= QueueDepth(s, s.threads[w])
    ensures Inv(r.0) && !r.0.redisEnabled && CanDispatch(r.0, w)
    ensures SameWorkerTables(r.0, s) && r.0.typeNames == s.typeNames
    ensures var q := MemQueue(s, s.threads[w]);
      && r.1 == q[..k]
      && MemQueue(r.0, s.threads[w]) == q[k..]
    decreases k
  {
    if k == 0 then (s, [])
    else
      var t := s.threads[w];
      var q := MemQueue(s, t);
      assert DispatchStep(s, w, NoDecode, handlerOk) == DispatchFromMemory(s, t, handlerOk);
      var (s1, d) := DispatchStep(s, w, NoDecode, handlerOk);
      assert d == Executed(q[0], handlerOk) && MemQueue(s1, t) == q[1..];
      var (r, rest) := DrainMemory(s1, w, k - 1, handlerOk);
      assert q[..k] == [q[0]] + q[1..][..k - 1];
      (r, [d.evt] + rest)
  }

  /** Items pushed onto a type's empty or missing in-memory queue reach the
      handler in push order when the queue is drained. */
  lemma MemoryDispatchIsFifo(s: Tables, w: WorkerId, e1: Event, e2: Event, handlerOk: bool)
    requires Inv(s) && !s.redisEnabled && CanDispatch(s, w)
    requires e1.ty == s.threads[w] && e2.ty == e1.ty && MemQueue(s, e1.ty) == []
    ensures var p := Push(Push(s, e1, ""), e2, "");
      && CanDispatch(p, w) && QueueDepth(p, e1.ty) == 2
      && DrainMemory(p, w, QueueDepth(p, e1.ty), handlerOk).1 == [e1, e2]
  {
    var p1 := Push(s, e1, "");
    PushKeepsDispatching(s, w, e1);
    var p := Push(p1, e2, "");
    PushKeepsDispatching(p1, w, e2);
    assert MemQueue(p, e1.ty) == [e1, e2];
    DrainWholeQueue(p, w, handlerOk);
  }

  /** On the shared store, two payloads pushed onto a type's absent key come
      back from the right end in push order, and taking the second removes
      the key again. */
  lemma StoreDispatchIsFifo(s: Tables, e1: Event, e2: Event, j1: string, j2: string,
                            decode: (EventType, string) -> Option<Event>, handlerOk: bool)
    requires Inv(s) && s.redisEnabled && e2.ty == e1.ty
    requires BuildRedisQueueName(e1.ty) !in s.redis
    ensures var p := PushEnqueue(PushEnqueue(s, e1, j1), e2, j2);
      var first := DispatchFromStore(p, e1.ty, decode, handlerOk);
      var second := DispatchFromStore(first.0, e1.ty, decode, handlerOk);
      && first.1 == Decoded(decode, e1.ty, j1, handlerOk)
      && second.1 == Decoded(decode, e1.ty, j2, handlerOk)
      && BuildRedisQueueName(e1.ty) !in second.0.redis
  {
    var q := BuildRedisQueueName(e1.ty);
    var p := PushEnqueue(PushEnqueue(s, e1, j1), e2, j2);
    assert RedisList(p, q) == [j2, j1];
  }

  /** An in-memory push by the type of thread `w` appends to its queue and
      leaves `w` dispatching. */
  lemma PushKeepsDispatching(s: Tables, w: WorkerId, e: Event)
    requires Inv(s) && !s.redisEnabled && CanDispatch(s, w) && e.ty == s.threads[w]
    ensures var p := Push(s, e, "");
      && Inv(p) && !p.redisEnabled && CanDispatch(p, w) && p.threads[w] == e.ty
      && MemQueue(p, e.ty) == MemQueue(s, e.ty) + [e]
  {
  }

  /** Draining the whole in-memory queue hands on its items in queue order. */
  lemma DrainWholeQueue(s: Tables, w: WorkerId, handlerOk: bool)
    requires Inv(s) && !s.redisEnabled && CanDispatch(s, w)
    ensures DrainMemory(s, w, QueueDepth(s, s.threads[w]), handlerOk).1 == MemQueue(s, s.threads[w])
  {
    var q := MemQueue(s, s.threads[w]);
    assert q[..|q|] == q;
  }

  /** A handler failure changes nothing but the reported outcome: the item is
      gone either way and nothing is put back. */
  lemma FailureDoesNotRequeue(s: Tables, w: WorkerId, decode: (EventType, string) -> Option<Event>)
    requires Inv(s) && CanDispatch(s, w)
    ensures DispatchStep(s, w, decode, false).0 == DispatchStep(s, w, decode, true).0
    ensures var t := s.threads[w]; var depth := QueueDepth(s, t);
      depth > 0 ==> QueueDepth(DispatchStep(s, w, decode, false).0, t) == depth - 1
  {
  }
}
