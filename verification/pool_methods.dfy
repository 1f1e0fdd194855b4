/** The members of the ThreadPool class as they are written, each proved to be a run of the
    steps of module ThreadPool. */
module PoolMethods {
  import opened Sequences
  import opened ThreadPool

  ghost predicate Path(path: seq<ThreadPool.Pool>) {
    path != [] && forall n :: 0 <= n < |path| - 1 ==> Next(path[n], path[n + 1])
  }

  lemma Extend(path: seq<ThreadPool.Pool>, p: ThreadPool.Pool)
    requires Path(path) && Next(Last(path), p)
    ensures Path(path + [p])
  {
    var longer := path + [p];
    forall n | 0 <= n < |longer| - 1
      ensures Next(longer[n], longer[n + 1])
    {
      if n < |path| - 1 {
        assert Next(path[n], path[n + 1]);
      }
    }
  }

  /** The pool as its constructor leaves it: every worker is about to lock the mutex. */
  function Started(threads: nat): ThreadPool.Pool {
    ThreadPool.Pool([], false, Free, seq(threads, _ => Awake), 0, [], [], {})
  }

  /** Some outcome of notify_one. */
  lemma SomeNotified(workers: seq<Worker>) returns (workers': seq<Worker>)
    ensures Notified(workers, workers')
  {
    workers' := workers;
    if j :| 0 <= j < |workers| && workers[j] == Asleep {
      workers' := workers[j := Awake];
    }
  }

  /** What a round of the worker loop came to. */
  datatype Round = Waits | Leaves | Ran(task: Task)

  class Pool {
    var tasks: seq<Task>
    var stopPool: bool

    /** Starts the workers; with them the pool is in the initial state of its runs. */
    constructor (threads: nat)
      ensures tasks == [] && !stopPool && Mirrors(Started(threads))
      ensures |Started(threads).workers| == threads && ThreadPool.Init(Started(threads)) && Path([Started(threads)])
    {
      tasks, stopPool := [], false;
    }

    ghost predicate Mirrors(p: ThreadPool.Pool)
      reads this
    {
      p.tasks == tasks && p.stop == stopPool
    }

    /** enqueue: false stands for the exception. */
    method Enqueue(task: Task, ghost before: seq<ThreadPool.Pool>) returns (ok: bool, ghost path: seq<ThreadPool.Pool>)
      requires Path(before) && Mirrors(Last(before)) && Last(before).lock == Free
      modifies this`tasks
      ensures Path(path) && before <= path && Mirrors(Last(path)) && Last(path).lock == Free
      ensures ok == !stopPool
      ensures ok ==> tasks == old(tasks) + [task] && Last(path).accepted == Last(before).accepted + [task]
      ensures !ok ==> tasks == old(tasks) && path == before
      ensures Last(path).owed == Last(before).owed
    {
      if stopPool {
        return false, before;
      }
      tasks := tasks + [task];
      path := EnqueuePath(before, task);
      ok := true;
    }

    /** One round of the worker loop, started with worker i about to lock the mutex. */
    method WorkerRound(i: nat, ghost before: seq<ThreadPool.Pool>) returns (round: Round, ghost path: seq<ThreadPool.Pool>)
      requires Path(before) && Mirrors(Last(before)) && Last(before).lock == Free
      requires i < |Last(before).workers| && Last(before).workers[i] == Awake
      modifies this`tasks
      ensures Path(path) && before <= path && Mirrors(Last(path)) && Last(path).lock == Free
      ensures old(tasks) == [] ==> tasks == [] && round == if stopPool then Leaves else Waits
      ensures old(tasks) != [] ==> round == Ran(old(tasks)[0]) && tasks == old(tasks)[1..]
      ensures old(tasks) != [] ==> Last(path).finished == Last(before).finished + {|Last(before).popped|}
      ensures i < |Last(path).workers| && Last(path).workers[i] ==
        match round case Waits => Asleep case Leaves => Exited case Ran(_) => Awake
    {
      if tasks == [] {
        path := IdlePath(before, i);
        return if stopPool then Leaves else Waits, path;
      }
      var task := tasks[0];
      tasks := tasks[1..];
      path := BusyPath(before, i);
      round := Ran(task);
    }

    /** The destructor up to the joins. */
    method Stop(ghost before: seq<ThreadPool.Pool>) returns (ghost path: seq<ThreadPool.Pool>)
      requires Path(before) && Mirrors(Last(before))
      modifies this`stopPool
      ensures Path(path) && before <= path && Mirrors(Last(path)) && stopPool
      ensures Asleep !in Last(path).workers
    {
      stopPool := true;
      ghost var p := Last(before).(stop := true);
      assert SetStop(Last(before), p);
      Extend(before, p);
      ghost var q := p.(workers := WakeAll(p.workers));
      assert NotifyAll(p, q);
      Extend(before + [p], q);
      path := before + [p] + [q];
    }
  }

  lemma EnqueuePath(before: seq<ThreadPool.Pool>, task: Task) returns (path: seq<ThreadPool.Pool>)
    requires Path(before) && Last(before).lock == Free && !Last(before).stop
    ensures Path(path) && before <= path
    ensures var p := Last(before);
            Last(path) == p.(tasks := p.tasks + [task], accepted := p.accepted + [task], workers := Last(path).workers)
  {
    var p := Last(before);
    var p1 := p.(lock := Enqueuing(task));
    assert EnqueueLock(p, p1, task);
    Extend(before, p1);
    var p2 := p1.(tasks := p.tasks + [task], accepted := p.accepted + [task], lock := Free, owed := p.owed + 1);
    assert EnqueuePush(p1, p2);
    Extend(before + [p1], p2);
    var workers' := SomeNotified(p2.workers);
    var p3 := p2.(owed := p.owed, workers := workers');
    assert EnqueueNotify(p2, p3);
    Extend(before + [p1] + [p2], p3);
    path := before + [p1] + [p2] + [p3];
  }

  lemma IdlePath(before: seq<ThreadPool.Pool>, i: nat) returns (path: seq<ThreadPool.Pool>)
    requires Path(before) && Last(before).lock == Free && Last(before).tasks == []
    requires i < |Last(before).workers| && Last(before).workers[i] == Awake
    ensures Path(path) && before <= path
    ensures var p := Last(before);
            Last(path) == p.(workers := p.workers[i := if p.stop then Exited else Asleep])
  {
    var p := Last(before);
    var p1 := p.(lock := Testing(i));
    assert WorkerLock(p, p1, i);
    Extend(before, p1);
    if p.stop {
      var p2 := p.(lock := Deciding(i));
      assert WorkerTest(p1, p2);
      Extend(before + [p1], p2);
      var p3 := p.(workers := p.workers[i := Exited]);
      assert WorkerExit(p2, p3);
      Extend(before + [p1] + [p2], p3);
      path := before + [p1] + [p2] + [p3];
    } else {
      var p2 := p.(workers := p.workers[i := Asleep]);
      assert WorkerTest(p1, p2);
      Extend(before + [p1], p2);
      path := before + [p1] + [p2];
    }
  }

  lemma BusyPath(before: seq<ThreadPool.Pool>, i: nat) returns (path: seq<ThreadPool.Pool>)
    requires Path(before) && Last(before).lock == Free && Last(before).tasks != []
    requires i < |Last(before).workers| && Last(before).workers[i] == Awake
    ensures Path(path) && before <= path
    ensures var p := Last(before);
            Last(path) == p.(tasks := p.tasks[1..], popped := p.popped + [p.tasks[0]],
                             finished := p.finished + {|p.popped|}, workers := Last(path).workers)
    ensures i < |Last(path).workers| && Last(path).workers[i] == Awake
  {
    var p := Last(before);
    var k := |p.popped|;
    var p1 := p.(lock := Testing(i));
    assert WorkerLock(p, p1, i);
    Extend(before, p1);
    var p2 := p.(lock := Deciding(i));
    assert WorkerTest(p1, p2);
    Extend(before + [p1], p2);
    var p3 := p.(tasks := p.tasks[1..], popped := p.popped + [p.tasks[0]], workers := p.workers[i := Running(k)]);
    assert WorkerPop(p2, p3);
    Extend(before + [p1] + [p2], p3);
    var p4 := p3.(finished := p.finished + {k}, workers := p3.workers[i := Notifying]);
    assert WorkerFinish(p3, p4, i);
    Extend(before + [p1] + [p2] + [p3], p4);
    var workers' := SomeNotified(p4.workers[i := Awake]);
    var p5 := p4.(workers := workers');
    assert WorkerNotify(p4, p5, i);
    Extend(before + [p1] + [p2] + [p3] + [p4], p5);
    path := before + [p1] + [p2] + [p3] + [p4] + [p5];
    NotifiedShape(p4.workers[i := Awake], workers');
  }
}
