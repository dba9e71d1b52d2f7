/** The work-queue engine as an object whose fields are the engine's static
    tables. Each state-changing method changes them in place, as the engine
    does, and is proved to take the tables to the state the matching
    transition of `EngineSpec` describes. The queries `IsWorkerStopping`,
    `CountStatistic` and `GetType` are proved equal to their `EngineSpec`
    function on the current fields; `ListAllCommandName` is specified on the
    registry field directly. */
module Engine {
  import opened Types
  import opened Backend
  import opened StopProtocol
  import EngineSpec

  class EngineeEventWorkerQueue {
    /** The global switch that selects the shared-store backend. */
    const redisEnabled: bool
    var memQueue: map<EventType, seq<Event>>
    /** The shared store's lists, by key. A key is present only while its list is non-empty. */
    var redis: map<string, seq<string>>
    var workers: map<EventType, seq<WorkerId>>
    var stopWorker: map<EventType, bool>
    var stoppedCount: map<EventType, int>
    var allStopped: map<EventType, bool>
    var typeNames: map<string, EventType>
    /** Every thread started so far, with the type it drains. */
    var threads: map<WorkerId, EventType>
    var nextThread: nat

    ghost function Snapshot(): EngineSpec.Tables
      reads this
    {
      EngineSpec.Tables(redisEnabled, memQueue, redis, workers, stopWorker, stoppedCount,
                        allStopped, typeNames, threads, nextThread)
    }

    ghost predicate Valid()
      reads this
    {
      EngineSpec.Inv(Snapshot())
    }

    /** The engine at start-up, over a shared store that may already hold lists. */
    constructor (redisEnabled: bool, store: map<string, seq<string>>)
      requires forall q :: q in store ==> store[q] != []
      ensures Valid() && Snapshot() == EngineSpec.Initial(redisEnabled, store)
    {
      this.redisEnabled := redisEnabled;
      memQueue, redis := map[], store;
      workers, stopWorker, stoppedCount, allStopped := map[], map[], map[], map[];
      typeNames, threads, nextThread := map[], map[], 0;
    }

    function IsWorkerStopping(t: EventType): (r: bool)
      reads this
      ensures r == EngineSpec.IsWorkerStopping(Snapshot(), t)
    {
      t in stopWorker && stopWorker[t]
    }

    function CountStatistic(t: EventType): (r: EngineSpec.Statistic)
      reads this
      ensures r == EngineSpec.CountStatistic(Snapshot(), t)
    {
      var workerCount := if t in workers then |workers[t]| else 0;
      var queueDataCount :=
        if redisEnabled then
          var q := EngineSpec.BuildRedisQueueName(t);
          Int32Cast(if q in redis then |redis[q]| else 0)
        else if t in memQueue then |memQueue[t]|
        else 0;
      EngineSpec.Statistic(queueDataCount, workerCount)
    }

    function GetType(fullName: string): (r: Option<EventType>)
      reads this
      ensures r == EngineSpec.GetType(Snapshot(), fullName)
    {
      if fullName in typeNames then Some(typeNames[fullName]) else None
    }

    /** The registered full names, each once. */
    method ListAllCommandName() returns (names: seq<string>)
      ensures forall n :: n in names <==> n in typeNames
      ensures forall i, j :: 0 <= i < j < |names| ==> names[i] != names[j]
    {
      names := [];
      var rest := typeNames.Keys;
      while rest != {}
        invariant rest <= typeNames.Keys
        invariant forall n :: n in names <==> n in typeNames && n !in rest
        invariant forall i, j :: 0 <= i < j < |names| ==> names[i] != names[j]
        decreases rest
      {
        var n :| n in rest;
        names := names + [n];
        rest := rest - {n};
      }
    }

    method InitFirstWorker(t: EventType)
      requires EngineSpec.InvBut(Snapshot(), t)
      requires !IsWorkerStopping(t)
      modifies this
      ensures Snapshot() == EngineSpec.InitFirstWorker(old(Snapshot()), t)
      ensures Valid()
    {
      if t !in workers || workers[t] == [] {
        ResetPool(t);
      }
      var _ := StartThread(t);
    }

    /** Make `t`'s worker list a new empty one and lower its stop fields. */
    method ResetPool(t: EventType)
      requires EngineSpec.Shape(Snapshot())
      modifies this
      ensures Snapshot() == EngineSpec.ResetPool(old(Snapshot()), t)
    {
      stopWorker := stopWorker[t := false];
      stoppedCount := stoppedCount[t := 0];
      allStopped := allStopped[t := false];
      workers := workers[t := []];
    }

    /** Start a thread on `t`'s queue and append its handle to `t`'s list. */
    method StartThread(t: EventType) returns (w: WorkerId)
      requires EngineSpec.Shape(Snapshot()) && t in workers
      modifies this
      ensures Snapshot() == EngineSpec.StartThread(old(Snapshot()), t)
      ensures w == old(nextThread)
    {
      w := nextThread;
      nextThread := nextThread + 1;
      workers := workers[t := workers[t] + [w]];
      threads := threads[w := t];
    }

    /** `Push`: queue the item and, when that created the queue, start the
        first worker. */
    method Push(e: Event, json: string)
      requires Valid()
      requires EngineSpec.PushCreatesQueue(Snapshot(), e) ==> !IsWorkerStopping(e.ty)
      modifies this
      ensures Snapshot() == EngineSpec.Push(old(Snapshot()), e, json)
      ensures Valid()
    {
      var created := PushEnqueue(e, json);
      if created {
        EngineSpec.InvButOfInv(Snapshot(), e.ty);
        InitFirstWorker(e.ty);
      }
    }

    /** `Push` up to the wait in `InitFirstWorker`: register the type when its
        queue is missing and queue the item; `created` tells whether the queue
        was missing. */
    method PushEnqueue(e: Event, json: string) returns (created: bool)
      requires Valid()
      modifies this
      ensures Snapshot() == EngineSpec.PushEnqueue(old(Snapshot()), e, json)
      ensures created == EngineSpec.PushCreatesQueue(old(Snapshot()), e)
      ensures Valid()
    {
      var t := e.ty;
      if redisEnabled {
        var q := EngineSpec.BuildRedisQueueName(t);
        created := q !in redis;
        if q in redis {
          redis := redis[q := ListLeftPush(redis[q], json)];
        } else {
          typeNames := typeNames[t.fullName := t];
          redis := redis[q := ListLeftPush([], json)];
        }
      } else {
        created := t !in memQueue;
        if t in memQueue {
          memQueue := memQueue[t := Enqueue(memQueue[t], e)];
        } else {
          typeNames := typeNames[t.fullName := t];
          memQueue := memQueue[t := Enqueue([], e)];
        }
      }
    }

    method AddAndStartWorker(t: EventType) returns (ok: bool)
      requires Valid()
      requires EngineSpec.NeedsFirstWorker(Snapshot(), t) ==> !IsWorkerStopping(t)
      modifies this
      ensures Snapshot() == EngineSpec.AddAndStartWorker(old(Snapshot()), t)
      ensures Valid()
      ensures ok
    {
      if t !in workers || workers[t] == [] {
        EngineSpec.InvButOfInv(Snapshot(), t);
        InitFirstWorker(t);
      } else {
        ghost var s0 := Snapshot();
        allStopped := allStopped[t := false];
        assert Snapshot() == EngineSpec.LowerAllStopped(s0, t);
        var _ := StartThread(t);
      }
      ok := true;
    }

    /** `ResetToOneWorker` up to its wait: raise the stop flag. */
    method RequestStop(t: EventType)
      requires Valid()
      modifies this
      ensures Snapshot() == EngineSpec.RequestStop(old(Snapshot()), t)
      ensures Valid()
    {
      stopWorker := stopWorker[t := true];
    }

    /** `ResetToOneWorker` after its wait, which ends once all-stopped is raised:
        lower the stop fields, clear the list and start one worker. */
    method CompleteReset(t: EventType) returns (ok: bool)
      requires Valid()
      requires t in allStopped && allStopped[t]
      modifies this
      ensures Snapshot() == EngineSpec.CompleteReset(old(Snapshot()), t)
      ensures Valid()
      ensures ok
    {
      ghost var s0 := Snapshot();
      ResetPool(t);
      EngineSpec.OtherPoolsOk(s0, Snapshot(), t);
      InitFirstWorker(t);
      ok := true;
    }

    /** One pass of the dispatch loop of thread `w`. */
    method DispatchStep(w: WorkerId, decode: (EventType, string) -> Option<Event>, handlerOk: bool)
      returns (d: EngineSpec.Dispatch)
      requires Valid() && EngineSpec.CanDispatch(Snapshot(), w)
      modifies this
      ensures (Snapshot(), d) == EngineSpec.DispatchStep(old(Snapshot()), w, decode, handlerOk)
      ensures Valid()
    {
      if redisEnabled {
        d := DispatchFromStore(threads[w], decode, handlerOk);
      } else {
        d := DispatchFromMemory(threads[w], handlerOk);
      }
    }

    /** The shared-store branch: pop the oldest payload and deserialize it. */
    method DispatchFromStore(t: EventType, decode: (EventType, string) -> Option<Event>, handlerOk: bool)
      returns (d: EngineSpec.Dispatch)
      requires Valid() && redisEnabled
      modifies this
      ensures (Snapshot(), d) == EngineSpec.DispatchFromStore(old(Snapshot()), t, decode, handlerOk)
    {
      var q := EngineSpec.BuildRedisQueueName(t);
      match ListRightPop(if q in redis then redis[q] else [])
      case Empty =>
        d := EngineSpec.Idle;
      case Popped(payload, rest) =>
        StoreList(q, rest);
        match decode(t, payload)
        case None =>
          d := EngineSpec.Dropped(payload);
        case Some(evt) =>
          d := EngineSpec.Executed(evt, handlerOk);
        assert d == EngineSpec.Decoded(decode, t, payload, handlerOk);
    }

    /** The in-memory branch: dequeue the oldest item. */
    method DispatchFromMemory(t: EventType, handlerOk: bool) returns (d: EngineSpec.Dispatch)
      requires Valid() && !redisEnabled
      modifies this
      ensures (Snapshot(), d) == EngineSpec.DispatchFromMemory(old(Snapshot()), t, handlerOk)
    {
      match TryDequeue(if t in memQueue then memQueue[t] else [])
      case Empty =>
        d := EngineSpec.Idle;
      case Popped(evt, rest) =>
        StoreQueue(t, rest);
        d := EngineSpec.Executed(evt, handlerOk);
    }

    /** Replace the shared-store list under `key`; the store drops an emptied key. */
    method StoreList(key: string, l: seq<string>)
      requires Valid()
      modifies this
      ensures Snapshot() == EngineSpec.WithRedisList(old(Snapshot()), key, l)
    {
      redis := if l == [] then redis - {key} else redis[key := l];
    }

    /** Replace the in-memory queue of `t`. */
    method StoreQueue(t: EventType, q: seq<Event>)
      requires Valid()
      modifies this
      ensures Snapshot() == EngineSpec.WithMemQueue(old(Snapshot()), t, q)
    {
      memQueue := memQueue[t := q];
    }

    /** One pass of the park/count block of thread `w`. */
    method ParkStep(w: WorkerId)
      requires Valid() && EngineSpec.CanPark(Snapshot(), w)
      modifies this
      ensures Snapshot() == EngineSpec.ParkStep(old(Snapshot()), w)
      ensures Valid()
    {
      var t := threads[w];
      if !allStopped[t] {
        var counter := stoppedCount[t] + 1;
        var stopped := false;
        if t in workers && |workers[t]| == counter {
          stopped, counter := true, 0;
        }
        assert Tally(counter, stopped) == Observe(|workers[t]|, EngineSpec.TallyOf(Snapshot(), t));
        WriteTally(t, Tally(counter, stopped));
      }
    }

    /** Store the stopped-counter and the all-stopped flag of `t`. */
    method WriteTally(t: EventType, p: Tally)
      requires EngineSpec.Shape(Snapshot()) && t in workers
      modifies this
      ensures Snapshot() == EngineSpec.WithTally(old(Snapshot()), t, p)
    {
      stoppedCount := stoppedCount[t := p.counter];
      allStopped := allStopped[t := p.allStopped];
    }
  }
}
