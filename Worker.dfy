/**
 * The worker pool of src/utils/worker.cpp, sequentially. A worker owns a FIFO queue
 * of pending tasks and a FIFO queue of results; its thread's loop takes the front
 * task, stops on the poison pill (a NULL task) and otherwise appends the task's
 * result. The pool keeps its workers in two sets, idle and busy: run_async moves one
 * idle worker (a new one when there is none) to busy and hands it the task, and a
 * worker that finds its queue empty notifies the pool, which moves it back to idle.
 *
 * Threads, locks and condition variables are not modelled: one call of RunStep is
 * one pass of the worker loop, and a wait on a condition variable becomes a
 * precondition (Pop) or the end of a step (RunStep on an empty queue).
 */
module Worker {
  import opened Wrappers

  /** A queued task_data: a task and its argument, or the poison pill (task NULL). */
  datatype TaskData<!V> = Task(f: V -> V, data: V) | Poison

  /** The part of a worker the loop changes: its two queues, and whether run() has
      returned. */
  datatype WorkerState<!V> = WorkerState(pending: seq<TaskData<V>>, results: seq<V>, finished: bool)

  /** Whether a queue holds the poison pill. */
  predicate HasPoison<V>(ts: seq<TaskData<V>>)
  {
    exists i :: 0 <= i < |ts| && ts[i].Poison?
  }

  /** A queue holds the poison pill when its front is the pill or its rest holds one. */
  lemma PoisonSplit<V>(ts: seq<TaskData<V>>)
    requires ts != []
    ensures HasPoison(ts) == (ts[0].Poison? || HasPoison(ts[1..]))
  {
    if HasPoison(ts[1..]) {
      var i :| 0 <= i < |ts[1..]| && ts[1..][i].Poison?;
      assert ts[i + 1].Poison?;
    }
    if ts[0].Poison? {
      assert HasPoison(ts);
    }
    if HasPoison(ts) && !ts[0].Poison? {
      var i :| 0 <= i < |ts| && ts[i].Poison?;
      assert ts[1..][i - 1].Poison?;
    }
  }

  /** One pass of the loop in worker::run on a running worker whose queue is not
      empty: the front task is removed; the poison pill ends the loop, any other task
      appends its result. */
  function Step<V>(s: WorkerState<V>): (r: WorkerState<V>)
    requires !s.finished && s.pending != []
    ensures r.pending == s.pending[1..]
  {
    match s.pending[0]
    case Poison => WorkerState(s.pending[1..], s.results, true)
    case Task(f, data) => WorkerState(s.pending[1..], s.results + [f(data)], false)
  }

  /** The loop run until it returns or finds its queue empty. */
  function Drain<V>(s: WorkerState<V>): WorkerState<V>
    decreases |s.pending|
  {
    if s.finished || s.pending == [] then s else Drain(Step(s))
  }

  /** The results of the tasks queued before the first poison pill, in queue order. */
  function Outputs<V>(ts: seq<TaskData<V>>): seq<V>
  {
    if ts == [] || ts[0].Poison? then [] else [ts[0].f(ts[0].data)] + Outputs(ts[1..])
  }

  /** What is left of a queue once the loop has taken the first poison pill. */
  function AfterPoison<V>(ts: seq<TaskData<V>>): seq<TaskData<V>>
  {
    if ts == [] then [] else if ts[0].Poison? then ts[1..] else AfterPoison(ts[1..])
  }

  /** Draining a running worker appends the results of the tasks before the first
      poison pill, in the order they were queued; the worker stops exactly when the
      queue held a poison pill, and the tasks after it are left queued. */
  lemma {:induction false} DrainResults<V>(s: WorkerState<V>)
    requires !s.finished
    ensures Drain(s).results == s.results + Outputs(s.pending)
    ensures Drain(s).finished == HasPoison(s.pending)
    ensures Drain(s).pending == if HasPoison(s.pending) then AfterPoison(s.pending) else []
    decreases |s.pending|
  {
    if s.pending != [] {
      var ts := s.pending;
      if ts[0].Poison? {
        PoisonSplit(ts);
      } else {
        DrainResults(Step(s));
        PoisonSplit(ts);
      }
    }
  }

  /** Without a poison pill every task runs: result i is task i applied to its data. */
  lemma {:induction false} OutputsInOrder<V>(ts: seq<TaskData<V>>)
    requires !HasPoison(ts)
    ensures |Outputs(ts)| == |ts|
    ensures forall i :: 0 <= i < |ts| ==> Outputs(ts)[i] == ts[i].f(ts[i].data)
  {
    if ts != [] {
      PoisonSplit(ts);
      OutputsInOrder(ts[1..]);
    }
  }

  /** Tasks pushed after a poison-free queue have their results after its results. */
  lemma {:induction false} OutputsAppend<V>(a: seq<TaskData<V>>, b: seq<TaskData<V>>)
    requires !HasPoison(a)
    ensures Outputs(a + b) == Outputs(a) + Outputs(b)
  {
    if a != [] {
      PoisonSplit(a);
      assert (a + b)[0] == a[0] && (a + b)[1..] == a[1..] + b;
      OutputsAppend(a[1..], b);
    } else {
      assert a + b == b;
    }
  }

  /** Once a queue holds the poison pill, tasks pushed behind it add no results. */
  lemma {:induction false} OutputsStopAtPoison<V>(a: seq<TaskData<V>>, b: seq<TaskData<V>>)
    requires HasPoison(a)
    ensures Outputs(a + b) == Outputs(a)
  {
    PoisonSplit(a);
    assert (a + b)[0] == a[0];
    if !a[0].Poison? {
      assert (a + b)[1..] == a[1..] + b;
      OutputsStopAtPoison(a[1..], b);
    }
  }

  /** The poison pill behind a poison-free queue: the loop runs exactly the tasks
      before it, and the tasks pushed after it are never run but left queued. */
  lemma {:induction false} PoisonCuts<V>(pre: seq<TaskData<V>>, post: seq<TaskData<V>>)
    requires !HasPoison(pre)
    ensures HasPoison(pre + [Poison] + post)
    ensures Outputs(pre + [Poison] + post) == Outputs(pre)
    ensures AfterPoison(pre + [Poison] + post) == post
  {
    var q := pre + [Poison] + post;
    assert q[|pre|].Poison?;
    if pre != [] {
      PoisonSplit(pre);
      assert q[0] == pre[0] && q[1..] == pre[1..] + [Poison] + post;
      PoisonCuts(pre[1..], post);
    } else {
      assert q == [Poison] + post;
    }
  }

  /** FIFO: tasks pushed behind a poison-free queue run after every task already
      queued, and their results follow, in the order they were pushed. */
  lemma PushThenDrain<V>(s: WorkerState<V>, ts: seq<TaskData<V>>)
    requires !s.finished && !HasPoison(s.pending) && !HasPoison(ts)
    ensures Drain(WorkerState(s.pending + ts, s.results, false)).results ==
            Drain(s).results + Outputs(ts)
  {
    var s2 := WorkerState(s.pending + ts, s.results, false);
    calc {
      Drain(s2).results;
      { DrainResults(s2); }
      s.results + Outputs(s.pending + ts);
      { OutputsAppend(s.pending, ts); }
      s.results + Outputs(s.pending) + Outputs(ts);
      { DrainResults(s); }
      Drain(s).results + Outputs(ts);
    }
  }

  // ---------------------------------------------------------------------------
  // The pool's two sets

  /** m_empty_workers and m_occupied_workers. */
  datatype PoolSets<W> = PoolSets(idle: set<W>, busy: set<W>)

  predicate Disjoint<W>(p: PoolSets<W>)
  {
    p.idle !! p.busy
  }

  /** notify(w): w leaves the busy set and joins the idle set. */
  function Notified<W>(p: PoolSets<W>, w: W): (r: PoolSets<W>)
    ensures w in r.idle && w !in r.busy
  {
    PoolSets(p.idle + {w}, p.busy - {w})
  }

  /** The bookkeeping of run_async once w is chosen from the idle set. */
  function Dispatched<W>(p: PoolSets<W>, w: W): (r: PoolSets<W>)
    requires w in p.idle
    ensures w in r.busy && w !in r.idle
  {
    PoolSets(p.idle - {w}, p.busy + {w})
  }

  /** notify keeps the sets disjoint, loses no worker, and a second notify of the same
      worker changes nothing. */
  lemma NotifiedFacts<W>(p: PoolSets<W>, w: W)
    requires Disjoint(p)
    ensures Disjoint(Notified(p, w))
    ensures p.idle + p.busy <= Notified(p, w).idle + Notified(p, w).busy
    ensures Notified(Notified(p, w), w) == Notified(p, w)
  {
  }

  /** Moving the chosen worker to busy keeps the sets disjoint and the same workers in
      the pool. */
  lemma DispatchedFacts<W>(p: PoolSets<W>, w: W)
    requires Disjoint(p) && w in p.idle
    ensures Disjoint(Dispatched(p, w))
    ensures Dispatched(p, w).idle + Dispatched(p, w).busy == p.idle + p.busy
  {
  }

  // ---------------------------------------------------------------------------
  // The objects

  /** struct worker. */
  class Worker<V> {
    var pending: seq<TaskData<V>>
    var results: seq<V>
    var finished: bool
    const observer: Pool<V>

    function State(): WorkerState<V>
      reads this
    {
      WorkerState(pending, results, finished)
    }

    /** A new worker: both queues empty, its loop not yet returned. */
    constructor (observer: Pool<V>)
      ensures this.observer == observer
      ensures pending == [] && results == [] && !finished
    {
      this.observer := observer;
      pending, results, finished := [], [], false;
    }

    /** worker::push: the task goes to the back of the queue. */
    method Push(t: TaskData<V>)
      modifies this
      ensures pending == old(pending) + [t]
      ensures results == old(results) && finished == old(finished)
    {
      pending := pending + [t];
    }

    /** worker::pop: takes the oldest result (blocking until there is one). */
    method Pop() returns (r: V)
      requires results != []
      modifies this
      ensures r == old(results[0]) && results == old(results[1..])
      ensures pending == old(pending) && finished == old(finished)
    {
      r := results[0];
      results := results[1..];
    }

    /** One pass of the loop of worker::run. On an empty queue the worker notifies the
        pool and waits, which ends the step; otherwise the step is Step. */
    method RunStep()
      requires !finished && observer.Valid()
      modifies this, observer
      ensures observer.Valid()
      ensures old(pending) == [] ==>
        State() == old(State()) && observer.Sets() == Notified(old(observer.Sets()), this)
      ensures old(pending) != [] ==> State() == Step(old(State())) && unchanged(observer)
    {
      if pending == [] {
        observer.Notify(this);
        return;
      }
      var data := pending[0];
      pending := pending[1..];
      match data
      case Poison =>
        finished := true;
      case Task(f, arg) =>
        var res := f(arg);
        results := results + [res];
    }

    /** ~worker: push the poison pill and join the thread, i.e. let the loop run until
        it returns. A running worker first runs every task queued before the first
        poison pill. */
    method Destroy()
      requires observer.Valid()
      modifies this, observer
      ensures finished && unchanged(observer) && observer.Valid()
      ensures !old(finished) ==> results == old(results) + Outputs(old(pending))
      ensures !old(finished) && !HasPoison(old(pending)) ==> pending == []
    {
      ghost var before := State();
      Push(Poison);
      if finished {
        return;
      }
      ghost var s0 := State();
      assert s0.pending[|s0.pending| - 1].Poison?;
      while !finished
        invariant HasPoison(pending) || finished
        invariant unchanged(observer) && observer.Valid()
        invariant !finished ==> Drain(State()) == Drain(s0)
        invariant finished ==> State() == Drain(s0)
        decreases |pending|
      {
        RunStep();
      }
      DrainResults(s0);
      if !before.finished {
        if HasPoison(before.pending) {
          OutputsStopAtPoison(before.pending, [Poison]);
        } else {
          PoisonCuts(before.pending, []);
          assert before.pending + [Poison] + [] == s0.pending;
        }
      }
    }
  }

  /** class worker_pool. */
  class Pool<V> {
    var idle: set<Worker<V>>
    var busy: set<Worker<V>>

    function Sets(): PoolSets<Worker<V>>
      reads this
    {
      PoolSets(idle, busy)
    }

    /** The sets are disjoint and hold only this pool's workers. */
    predicate Valid()
      reads this, idle, busy
    {
      idle !! busy && forall w :: w in idle + busy ==> w.observer == this
    }

    /** An empty pool. */
    constructor ()
      ensures idle == {} && busy == {} && Valid()
    {
      idle, busy := {}, {};
    }

    /** worker_pool::notify. */
    method Notify(w: Worker<V>)
      requires Valid() && w.observer == this
      modifies this
      ensures Valid()
      ensures Sets() == Notified(old(Sets()), w)
    {
      busy := busy - {w};
      idle := idle + {w};
    }

    /** worker_pool::run_async: takes an idle worker (a new one when none is idle),
        moves it to busy, pushes the task (a NULL task is the poison pill) and returns
        the worker as the handle. */
    method RunAsync(task: Option<V -> V>, data: V) returns (w: Worker<V>)
      requires Valid()
      modifies this, idle
      ensures Valid()
      ensures old(idle) != {} ==> w in old(idle) && Sets() == Dispatched(old(Sets()), w)
      ensures old(idle) == {} ==> fresh(w) && idle == {} && busy == old(busy) + {w}
      ensures w.pending == (if old(idle) != {} then old(w.pending) else []) + [MakeTask(task, data)]
      ensures old(idle) != {} ==> w.results == old(w.results) && w.finished == old(w.finished)
      ensures old(idle) == {} ==> w.results == [] && !w.finished
      ensures w.observer == this
      ensures unchanged(old(idle) - {w})
    {
      if idle == {} {
        var nw := new Worker(this);
        idle := idle + {nw};
      }
      w :| w in idle;
      idle := idle - {w};
      busy := busy + {w};
      w.Push(MakeTask(task, data));
    }

    /** worker_pool::wait_task: pop on the worker the handle names. */
    method WaitTask(handle: Worker<V>) returns (r: V)
      requires handle.results != []
      modifies handle
      ensures r == old(handle.results[0]) && handle.results == old(handle.results[1..])
      ensures handle.pending == old(handle.pending) && handle.finished == old(handle.finished)
    {
      r := handle.Pop();
    }

    /** ~worker_pool: destroys every worker, idle or busy. */
    method Shutdown()
      requires Valid()
      modifies this, idle, busy
      ensures idle == old(idle) && busy == old(busy)
      ensures forall w :: w in old(idle) + old(busy) ==> w.finished
      ensures forall w :: w in old(idle) + old(busy) && !old(w.finished) ==>
        w.results == old(w.results) + Outputs(old(w.pending))
    {
      var left := idle + busy;
      while left != {}
        invariant left <= old(idle) + old(busy)
        invariant idle == old(idle) && busy == old(busy) && Valid()
        invariant forall w :: w in old(idle) + old(busy) && w !in left ==> w.finished
        invariant forall w :: w in old(idle) + old(busy) && w !in left && !old(w.finished) ==>
          w.results == old(w.results) + Outputs(old(w.pending))
        invariant forall w :: w in left ==>
          w.results == old(w.results) && w.pending == old(w.pending) && w.finished == old(w.finished)
        decreases left
      {
        var w :| w in left;
        w.Destroy();
        left := left - {w};
      }
    }
  }

  /** The task_data run_async queues: a NULL task is the poison pill. */
  function MakeTask<V>(task: Option<V -> V>, data: V): (t: TaskData<V>)
    ensures t.Poison? <==> task.None?
  {
    match task
    case None => Poison
    case Some(f) => Task(f, data)
  }
}
