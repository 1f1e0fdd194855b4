/** The generator's script on its thread pool: which tasks it enqueues, and when it waits for
    which futures. What module Tasks takes for granted, that a phase is over when its futures
    are ready, follows from the pool's invariant. */
module PoolSchedule {
  import opened Arith
  import opened Schedule
  import opened Sequences
  import Tasks
  import ThreadPool

  /** The script enqueues the tmp tasks file by file and thread by thread, then the merge tasks;
      task k is the k-th of them. */
  datatype Duty = Tmp(slot: Tasks.Slot) | Merge(thread: nat)

  function TmpCount(g: Tasks.Grid): nat {
    g.files * |g.tmp|
  }

  function DutyOf(g: Tasks.Grid, k: nat): Duty
    requires k < TmpCount(g) + |g.tmp|
  {
    if k < TmpCount(g) then
      assert |g.tmp| > 0;
      Tmp(Tasks.Slot(k / |g.tmp|, k % |g.tmp|))
    else Merge(k - TmpCount(g))
  }

  /** Every tmp task is among them. */
  lemma SlotIsTask(g: Tasks.Grid, p: Tasks.Slot) returns (k: nat)
    requires g.IsTask(p)
    ensures k < TmpCount(g) && DutyOf(g, k) == Tmp(p)
  {
    k := RowColumn(p.file, p.thread, g.files, |g.tmp|);
  }

  lemma RowColumn(row: nat, column: nat, rows: nat, columns: nat) returns (k: nat)
    requires row < rows && column < columns
    ensures k < rows * columns && k / columns == row && k % columns == column
  {
    k := columns * row + column;
    ModUnique(row, column, columns);
    MulSucc(row, columns);
    MulMonotone(row + 1, rows, columns);
  }

  datatype System = System(pool: ThreadPool.Pool, work: Tasks.Work)

  predicate Init(x: System) {
    ThreadPool.Init(x.pool) && x.work == Tasks.START
  }

  /** The tasks of the phase that the script is in. */
  predicate InPhase(g: Tasks.Grid, w: Tasks.Work, k: nat) {
    if w.merging then TmpCount(g) <= k < TmpCount(g) + |g.tmp| else k < TmpCount(g)
  }

  /** The task's body has come to its end. */
  predicate Done(g: Tasks.Grid, w: Tasks.Work, k: nat) {
    k < TmpCount(g) + |g.tmp|
    && match DutyOf(g, k)
       case Tmp(p) => w.merging || p in w.tmp
       case Merge(t) => t in w.parts
  }

  /** Some worker is running task k. */
  predicate Running(p: ThreadPool.Pool, k: nat) {
    exists i :: 0 <= i < |p.workers| && p.workers[i].Running?
      && p.workers[i].k < |p.popped| && p.popped[p.workers[i].k] == k
  }

  /** What the pool does by itself: the script enqueues its next task, and a worker ends a task
      only when its body has come to its end. */
  ghost predicate PoolStep(g: Tasks.Grid, x: System, x': System) {
    && ThreadPool.Next(x.pool, x'.pool) && x'.work == x.work
    && (x'.pool.lock.Enqueuing? && x'.pool.lock != x.pool.lock ==>
          x'.pool.lock.task == |x.pool.accepted| && InPhase(g, x.work, x'.pool.lock.task))
    && forall j :: j in x'.pool.finished && j !in x.pool.finished && j < |x.pool.popped| ==> Done(g, x.work, x.pool.popped[j])
  }

  /** A task's body makes a step while some worker runs it. */
  ghost predicate BodyStep(g: Tasks.Grid, x: System, x': System, k: nat)
    requires g.Ok()
  {
    k < TmpCount(g) + |g.tmp| && Running(x.pool, k) && x'.pool == x.pool
    && match DutyOf(g, k)
       case Tmp(p) => Tasks.Compute(g, x.work, x'.work, p) || Tasks.WriteTmp(x.work, x'.work, p)
       case Merge(t) => Tasks.Load(g, x.work, x'.work, t) || Tasks.WritePart(g, x.work, x'.work, t)
  }

  /** The futures of the first n tasks are ready. */
  predicate Ready(p: ThreadPool.Pool, n: nat) {
    |p.accepted| >= n && forall k :: 0 <= k < n ==> k in p.finished
  }

  /** The script has got all futures of the first phase. */
  predicate Proceed(g: Tasks.Grid, x: System, x': System) {
    !x.work.merging && !x.pool.lock.Enqueuing? && Ready(x.pool, TmpCount(g))
    && x' == x.(work := x.work.(merging := true))
  }

  ghost predicate Next(g: Tasks.Grid, x: System, x': System)
    requires g.Ok()
  {
    PoolStep(g, x, x') || Proceed(g, x, x') || exists k :: BodyStep(g, x, x', k)
  }

  ghost predicate StepAt(g: Tasks.Grid, run: seq<System>, n: nat)
    requires g.Ok() && n < |run| - 1
  {
    Next(g, run[n], run[n + 1])
  }

  ghost predicate Run(g: Tasks.Grid, run: seq<System>)
    requires g.Ok()
  {
    run != [] && Init(run[0]) && forall n :: 0 <= n < |run| - 1 ==> StepAt(g, run, n)
  }

  // ----- what the futures mean

  /** The script's tasks come in order, and what has ended is done. */
  predicate ScriptInv(g: Tasks.Grid, x: System) {
    && (forall k :: 0 <= k < |x.pool.accepted| ==> x.pool.accepted[k] == k)
    && |x.pool.accepted| <= TmpCount(g) + |g.tmp|
    && (if x.work.merging then TmpCount(g) <= |x.pool.accepted| else |x.pool.accepted| <= TmpCount(g))
    && (x.pool.lock.Enqueuing? ==> x.pool.lock.task == |x.pool.accepted| && InPhase(g, x.work, x.pool.lock.task))
    && (forall k :: k in x.pool.finished ==> Done(g, x.work, k))
  }

  ghost predicate Inv(g: Tasks.Grid, x: System)
    requires g.Ok()
  {
    ThreadPool.Inv(x.pool) && Tasks.Inv(g, x.work) && ScriptInv(g, x)
  }

  /** First in, first out: the task at position k of the popped ones is task k. */
  lemma PoppedInOrder(g: Tasks.Grid, x: System, j: nat)
    requires ThreadPool.Fifo(x.pool) && ScriptInv(g, x) && j < |x.pool.popped|
    ensures x.pool.popped[j] == j
  {
    assert x.pool.accepted[j] == (x.pool.popped + x.pool.tasks)[j];
  }

  lemma PoolKeeps(g: Tasks.Grid, x: System, x': System)
    requires g.Ok() && Inv(g, x) && PoolStep(g, x, x')
    ensures Inv(g, x')
  {
    ThreadPool.NextKeeps(x.pool, x'.pool);
    AcceptedStep(x.pool, x'.pool);
    forall k | k in x'.pool.finished
      ensures Done(g, x.work, k)
    {
      if k !in x.pool.finished {
        FinishedStep(x.pool, x'.pool, k);
        PoppedInOrder(g, x, k);
      }
    }
  }

  lemma AcceptedStep(p: ThreadPool.Pool, p': ThreadPool.Pool)
    requires ThreadPool.Inv(p) && ThreadPool.Next(p, p')
    ensures p'.accepted == if p.lock.Enqueuing? && !p'.lock.Enqueuing? then p.accepted + [p.lock.task] else p.accepted
    ensures p.lock.Enqueuing? && p'.lock.Enqueuing? ==> p'.lock == p.lock
  {
  }

  lemma FinishedStep(p: ThreadPool.Pool, p': ThreadPool.Pool, k: nat)
    requires ThreadPool.Inv(p) && ThreadPool.Next(p, p') && k in p'.finished && k !in p.finished
    ensures k < |p.popped|
  {
  }

  lemma BodyKeeps(g: Tasks.Grid, x: System, x': System, k: nat)
    requires g.Ok() && Inv(g, x) && BodyStep(g, x, x', k)
    ensures Inv(g, x')
  {
    BodyIsStep(g, x, x', k);
    Tasks.NextKeeps(g, x.work, x'.work);
    forall j | j in x'.pool.finished
      ensures Done(g, x'.work, j)
    {
      assert Done(g, x.work, j);
    }
  }

  lemma BodyIsStep(g: Tasks.Grid, x: System, x': System, k: nat)
    requires g.Ok() && BodyStep(g, x, x', k)
    ensures Tasks.Next(g, x.work, x'.work) && x'.work.merging == x.work.merging
    ensures !x.work.merging ==> forall p :: p in x.work.tmp ==> p in x'.work.tmp
    ensures forall t :: t in x.work.parts ==> t in x'.work.parts
  {
  }

  /** When its futures are ready, the first phase has written every tmp file. */
  lemma ReadyMeansWritten(g: Tasks.Grid, x: System)
    requires g.Ok() && Inv(g, x) && !x.work.merging && Ready(x.pool, TmpCount(g))
    ensures forall p :: g.IsTask(p) ==> p in x.work.tmp
  {
    forall p | g.IsTask(p)
      ensures p in x.work.tmp
    {
      var k := SlotIsTask(g, p);
      assert Done(g, x.work, k);
    }
  }

  lemma ProceedKeeps(g: Tasks.Grid, x: System, x': System)
    requires g.Ok() && Inv(g, x) && Proceed(g, x, x')
    ensures Inv(g, x') && Tasks.Barrier(g, x.work, x'.work)
  {
    ReadyMeansWritten(g, x);
    assert Tasks.Barrier(g, x.work, x'.work);
    Tasks.NextKeeps(g, x.work, x'.work);
    forall j | j in x'.pool.finished
      ensures Done(g, x'.work, j)
    {
      assert Done(g, x.work, j);
    }
  }

  /** Seen from the files, a step of the script on its pool is a step of module Tasks. */
  lemma NextIsStep(g: Tasks.Grid, x: System, x': System)
    requires g.Ok() && Inv(g, x) && Next(g, x, x')
    ensures Inv(g, x') && (x'.work == x.work || Tasks.Next(g, x.work, x'.work))
  {
    if PoolStep(g, x, x') {
      PoolKeeps(g, x, x');
    } else if Proceed(g, x, x') {
      ProceedKeeps(g, x, x');
    } else {
      var k :| BodyStep(g, x, x', k);
      BodyKeeps(g, x, x', k);
      BodyIsStep(g, x, x', k);
    }
  }

  /** The run of the tasks that a run of the script on its pool contains. */
  lemma {:induction false} FilesRun(g: Tasks.Grid, run: seq<System>, n: nat) returns (files: seq<Tasks.Work>)
    requires g.Ok() && Run(g, run) && n < |run|
    ensures Inv(g, run[n]) && Tasks.Run(g, files) && Last(files) == run[n].work
    decreases n
  {
    if n == 0 {
      files := [Tasks.START];
    } else {
      var before := FilesRun(g, run, n - 1);
      assert StepAt(g, run, n - 1);
      NextIsStep(g, run[n - 1], run[n]);
      files := if run[n].work == run[n - 1].work then before else before + [run[n].work];
      if run[n].work != run[n - 1].work {
        Extend(g, before, run[n].work);
      }
    }
  }

  lemma Extend(g: Tasks.Grid, run: seq<Tasks.Work>, w: Tasks.Work)
    requires g.Ok() && Tasks.Run(g, run) && Tasks.Next(g, Last(run), w)
    ensures Tasks.Run(g, run + [w])
  {
    var longer := run + [w];
    forall n | 0 <= n < |longer| - 1
      ensures Tasks.Next(g, longer[n], longer[n + 1])
    {
      if n < |run| - 1 {
        assert Tasks.Next(g, run[n], run[n + 1]);
      }
    }
  }

  lemma ReadyMeansFinished(g: Tasks.Grid, x: System)
    requires g.Ok() && Inv(g, x) && x.work.merging && Ready(x.pool, TmpCount(g) + |g.tmp|)
    ensures Tasks.Finished(g, x.work)
  {
    forall t: nat | t < |g.tmp|
      ensures t in x.work.parts
    {
      assert Done(g, x.work, TmpCount(g) + t);
    }
  }

  /** When all futures are ready, the part files are those of the running key: the pool has run
      every accepted task, and all of them were the script's. */
  lemma FuturesMeanKey(job: Job, run: seq<System>, n: nat)
    requires job.Ok() && Run(Tasks.GridOf(job), run) && n < |run| && run[n].work.merging
    requires Ready(run[n].pool, TmpCount(Tasks.GridOf(job)) + job.threads)
    ensures var g := Tasks.GridOf(job);
            Tasks.Finished(g, run[n].work) && run[n].work.tmp == map[] && Tasks.PartFiles(g, run[n].work) == job.Parts()
  {
    var g := Tasks.GridOf(job);
    var files := FilesRun(g, run, n);
    ReadyMeansFinished(g, run[n]);
    Tasks.AnySchedule(job, files, |files| - 1);
  }
}
