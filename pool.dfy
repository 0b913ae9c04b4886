/**
 * The two worker pools of package `pool` (pool/qpool.go and pool/pool.go),
 * as single-threaded state machines.
 *
 * The buffered task channel is a sequence with a capacity, the pool's
 * context is a `cancelled` flag, and a closed channel is a `closed` flag.
 * Blocking is never waited out: a send on a full channel reports
 * `WouldBlock` and changes nothing. A worker receiving a task is the step
 * `QPool.WorkerStep`; the routine it calls is recorded in a dispatch log
 * rather than run.
 */
module Pool {
  import opened Base

  /** One call `routine(ctx, worker, task)`, with whether ctx was already cancelled. */
  datatype Dispatch<T> = Dispatch(worker: nat, task: T, cancelled: bool)

  /** What a call to Push comes to. */
  datatype PushResult =
    | Pushed
      /** Push returned this error and enqueued nothing */
    | Rejected(err: Error)
      /** the channel is full: a real Push would block here */
    | WouldBlock
      /** the send case of a select was taken on a closed channel */
    | Panicked(msg: string)

  /** The tasks of a dispatch log, in dispatch order. */
  function Tasks<T>(log: seq<Dispatch<T>>): (r: seq<T>)
    ensures |r| == |log|
    ensures forall k :: 0 <= k < |log| ==> r[k] == log[k].task
  {
    seq(|log|, k requires 0 <= k < |log| => log[k].task)
  }

  /** The worker ids 0..n-1 that the spawning loop hands out. */
  function Ids(n: nat): (r: seq<nat>)
    ensures |r| == n
    ensures forall k :: 0 <= k < n ==> r[k] == k
  {
    seq(n, k => k)
  }

  /** The dispatches that draining `queue` makes, worker `schedule[k]` taking the k-th task. */
  function DrainLog<T>(queue: seq<T>, schedule: seq<nat>): (r: seq<Dispatch<T>>)
    requires |schedule| == |queue|
    ensures |r| == |queue| && Tasks(r) == queue
    ensures forall k :: 0 <= k < |r| ==> r[k] == Dispatch(schedule[k], queue[k], true)
  {
    seq(|queue|, k requires 0 <= k < |queue| => Dispatch(schedule[k], queue[k], true))
  }

  lemma TasksAppend<T>(log: seq<Dispatch<T>>, d: Dispatch<T>)
    ensures Tasks(log + [d]) == Tasks(log) + [d.task]
  {
    assert Tasks(log + [d])[|log|] == d.task;
  }

  /** pool/qpool.go: a pool whose workers drain the queue after Stop. */
  class QPool<T> {
    /** the `workers` argument of NewQPool; also the channel's capacity */
    const workers: nat
    /** the id given to each spawned worker, in spawn order */
    const workerIds: seq<nat>
    /** contents of the buffered channel `tasks`, oldest first */
    var tasks: seq<T>
    /** the pool's context has been cancelled */
    var cancelled: bool
    /** the channel has been closed */
    var closed: bool
    /** the `once` guarding Stop's body has fired */
    var stopped: bool
    /** every routine call so far, in order */
    var dispatched: seq<Dispatch<T>>
    /** every task Push has admitted, in order */
    ghost var accepted: seq<T>

    /** Bookkeeping that holds between any two steps, also halfway through Stop. */
    ghost predicate Accounting()
      reads this
    {
      && workerIds == Ids(workers)
      && |tasks| <= workers
      && accepted == Tasks(dispatched) + tasks
      && (forall k :: 0 <= k < |dispatched| ==> dispatched[k].worker < workers)
    }

    /** The pool invariant between public calls. */
    ghost predicate Valid()
      reads this
    {
      && Accounting()
      && cancelled == closed
      && stopped == closed
      && (closed ==> tasks == [])
    }

    /** NewQPool(workers, routine): an empty queue of capacity `workers` and workers 0..workers-1. */
    constructor (workers: nat)
      ensures Valid()
      ensures this.workers == workers && workerIds == Ids(workers)
      ensures tasks == [] && dispatched == [] && accepted == []
      ensures !cancelled && !closed && !stopped
    {
      this.workers := workers;
      var ids: seq<nat> := [];
      for i := 0 to workers
        invariant ids == Ids(i)
      {
        ids := ids + [i];
      }
      workerIds := ids;
      tasks := [];
      cancelled, closed, stopped := false, false, false;
      dispatched := [];
      accepted := [];
    }

    /**
     * Worker `worker` takes one turn of `for task := range ip.tasks`: it
     * receives the oldest queued task and calls the routine with the pool's
     * context, or finds nothing to receive.
     */
    method WorkerStep(worker: nat) returns (got: Option<T>)
      requires Accounting() && worker < workers
      modifies this
      ensures Accounting()
      ensures got.Some? <==> old(tasks) != []
      ensures old(tasks) != [] ==>
        && got.value == old(tasks)[0]
        && tasks == old(tasks)[1..]
        && dispatched == old(dispatched) + [Dispatch(worker, old(tasks)[0], cancelled)]
      ensures old(tasks) == [] ==> tasks == [] && dispatched == old(dispatched)
      ensures accepted == old(accepted)
      ensures cancelled == old(cancelled) && closed == old(closed) && stopped == old(stopped)
    {
      if tasks == [] {
        return None;
      }
      var task := tasks[0];
      TasksAppend(dispatched, Dispatch(worker, task, cancelled));
      dispatched := dispatched + [Dispatch(worker, task, cancelled)];
      tasks := tasks[1..];
      got := Some(task);
    }

    /**
     * Push(task): `select` between the context being done and the send.
     * When both are ready Go picks one at random; `sendWins` says which.
     */
    method Push(task: T, sendWins: bool) returns (r: PushResult)
      requires Valid()
      modifies this
      ensures Valid()
      ensures r.Pushed? <==> !old(closed) && |old(tasks)| < workers && (!old(cancelled) || sendWins)
      ensures r.Pushed? ==> tasks == old(tasks) + [task] && accepted == old(accepted) + [task]
      ensures !r.Pushed? ==> tasks == old(tasks) && accepted == old(accepted)
      ensures r.Rejected? ==> r.err == Canceled && old(cancelled)
      ensures r.WouldBlock? <==> !old(cancelled) && |old(tasks)| == workers
      ensures r.Panicked? <==> old(closed) && sendWins
      ensures dispatched == old(dispatched)
      ensures cancelled == old(cancelled) && closed == old(closed) && stopped == old(stopped)
    {
      var doneReady := cancelled;
      var sendReady := closed || |tasks| < workers;
      if doneReady && (!sendReady || !sendWins) {
        r := Rejected(Canceled);
      } else if sendReady {
        if closed {
          r := Panicked("send on closed channel");
        } else {
          tasks := tasks + [task];
          accepted := accepted + [task];
          r := Pushed;
        }
      } else {
        r := WouldBlock;
      }
    }

    /**
     * Stop(): the first call cancels the context, closes the channel and
     * waits until the workers have drained it, worker `schedule[k]`
     * receiving the k-th queued task; later calls do nothing.
     */
    method Stop(schedule: seq<nat>)
      requires Valid()
      requires |schedule| == |tasks|
      requires forall k :: 0 <= k < |schedule| ==> schedule[k] < workers
      modifies this
      ensures Valid()
      ensures old(stopped) ==> tasks == old(tasks) && dispatched == old(dispatched)
      ensures stopped && cancelled && closed && tasks == []
      ensures dispatched == old(dispatched) + DrainLog(old(tasks), schedule)
      ensures Tasks(dispatched) == accepted && accepted == old(accepted)
    {
      if stopped {
        return;
      }
      stopped := true;
      cancelled := true;
      // pushWg.Wait(): no Push is in flight in a sequential run
      closed := true;
      // wg.Wait(): each worker keeps receiving until the closed channel is empty
      ghost var queue := tasks;
      ghost var before := dispatched;
      var k := 0;
      while k < |schedule|
        invariant Accounting()
        invariant 0 <= k <= |schedule|
        invariant tasks == queue[k..]
        invariant dispatched == before + DrainLog(queue[..k], schedule[..k])
        invariant accepted == old(accepted) && cancelled && closed && stopped
      {
        var got := WorkerStep(schedule[k]);
        assert queue[..k + 1] == queue[..k] + [queue[k]];
        assert schedule[..k + 1] == schedule[..k] + [schedule[k]];
        k := k + 1;
      }
      assert queue[..k] == queue && schedule[..k] == schedule;
    }
  }

  /** pool/pool.go: a pool with an atomic `closing` flag and no drain guarantee. */
  class Pool<T> {
    /** the `workers` argument of NewPool; also the channel's capacity */
    const workers: nat
    /** the id given to each spawned worker, in spawn order */
    const workerIds: seq<nat>
    /** contents of the buffered channel `tasks`, oldest first */
    var tasks: seq<T>
    /** the atomic.Bool `closing` */
    var closing: bool
    var closed: bool
    var cancelled: bool

    ghost predicate Valid()
      reads this
    {
      && workerIds == Ids(workers)
      && |tasks| <= workers
      && closed == closing
      && cancelled == closing
    }

    /** NewPool(workers, routine): an empty queue of capacity `workers` and workers 0..workers-1. */
    constructor (workers: nat)
      ensures Valid()
      ensures this.workers == workers && workerIds == Ids(workers)
      ensures tasks == [] && !closing && !closed && !cancelled
    {
      this.workers := workers;
      var ids: seq<nat> := [];
      for i := 0 to workers
        invariant ids == Ids(i)
      {
        ids := ids + [i];
      }
      workerIds := ids;
      tasks := [];
      closing, closed, cancelled := false, false, false;
    }

    /** Push(task): admitted while not closing, otherwise ErrPoolIsClosing. */
    method Push(task: T) returns (r: PushResult)
      requires Valid()
      modifies this
      ensures Valid()
      ensures !r.Panicked?
      ensures r.Pushed? <==> !old(closing) && |old(tasks)| < workers
      ensures r.Pushed? ==> tasks == old(tasks) + [task]
      ensures !r.Pushed? ==> tasks == old(tasks)
      ensures r.Rejected? <==> old(closing)
      ensures r.Rejected? ==> r.err == PoolIsClosing
      ensures closing == old(closing) && closed == old(closed) && cancelled == old(cancelled)
    {
      if !closing {
        if |tasks| < workers {
          tasks := tasks + [task];
          r := Pushed;
        } else {
          r := WouldBlock;
        }
        return;
      }
      r := Rejected(PoolIsClosing);
    }

    /** Stop(): only the call that flips `closing` closes the channel and cancels. */
    method Stop()
      requires Valid()
      modifies this
      ensures Valid()
      ensures closing && closed && cancelled
      ensures tasks == old(tasks)
    {
      if closing {
        return;
      }
      closing := true;
      closed := true;
      cancelled := true;
      // wg.Wait(): what the workers do with queued tasks after the cancel is not modelled
    }
  }
}
