/** The generator's script on its pool can always be completed: from every state that a run
    reaches with workers and without a stop, some continuation makes all futures ready. */
module PoolProgress {
  import opened Arith
  import opened Bits
  import opened PoolSchedule
  import opened Schedule
  import opened Sequences
  import PoolMethods

  predicate Complete(g: Tasks.Grid, x: System) {
    x.work.merging && Ready(x.pool, TmpCount(g) + |g.tmp|)
  }

  /** The pool has workers, and its destructor has not begun. */
  predicate Alive(x: System) {
    x.pool.workers != [] && !x.pool.stop
  }

  // ----- the work that is left

  function Left(g: Tasks.Grid, w: Tasks.Work, k: nat): nat
    requires k < TmpCount(g) + |g.tmp|
  {
    match DutyOf(g, k)
    case Tmp(p) => if w.merging then 0 else (if p in w.held then 0 else 1) + (if p in w.tmp then 0 else 1)
    case Merge(t) =>
      (if |Tasks.Loaded(w, t)| < g.files then g.files - |Tasks.Loaded(w, t)| else 0) + (if t in w.parts then 0 else 1)
  }

  function LeftUpTo(g: Tasks.Grid, w: Tasks.Work, n: nat): nat
    requires n <= TmpCount(g) + |g.tmp|
  {
    if n == 0 then 0 else LeftUpTo(g, w, n - 1) + Left(g, w, n - 1)
  }

  function AllLeft(g: Tasks.Grid, w: Tasks.Work): nat {
    LeftUpTo(g, w, TmpCount(g) + |g.tmp|)
  }

  predicate NoMoreLeft(g: Tasks.Grid, w: Tasks.Work, w': Tasks.Work, k: nat)
    requires k < TmpCount(g) + |g.tmp|
  {
    Left(g, w', k) <= Left(g, w, k)
  }

  lemma {:induction false} LeftFalls(g: Tasks.Grid, w: Tasks.Work, w': Tasks.Work, n: nat)
    requires n <= TmpCount(g) + |g.tmp| && forall k :: 0 <= k < n ==> NoMoreLeft(g, w, w', k)
    ensures LeftUpTo(g, w', n) <= LeftUpTo(g, w, n)
    ensures (exists k :: 0 <= k < n && Left(g, w', k) < Left(g, w, k)) ==> LeftUpTo(g, w', n) < LeftUpTo(g, w, n)
  {
    if n > 0 {
      LeftFalls(g, w, w', n - 1);
      assert NoMoreLeft(g, w, w', n - 1);
    }
  }

  // ----- a measure of a state

  function Weight(w: ThreadPool.Worker): nat {
    match w
    case Running(_) => 6
    case Notifying => 5
    case Awake => 2
    case _ => 0
  }

  function Weights(workers: seq<ThreadPool.Worker>): nat {
    if workers == [] then 0 else Weights(workers[..|workers| - 1]) + Weight(workers[|workers| - 1])
  }

  lemma {:induction false} WeightsUpdate(workers: seq<ThreadPool.Worker>, i: nat, w: ThreadPool.Worker)
    requires i < |workers|
    ensures Weights(workers[i := w]) + Weight(workers[i]) == Weights(workers) + Weight(w)
  {
    var n := |workers| - 1;
    if i < n {
      assert workers[i := w][..n] == workers[..n][i := w];
      WeightsUpdate(workers[..n], i, w);
    } else {
      assert workers[i := w][..n] == workers[..n];
    }
  }

  /** What is left, by importance: the work of the tasks, the phase, the tasks to be accepted,
      whether one is being accepted, the queue, the notifications owed, the workers, the lock. */
  datatype Rank = Rank(work: nat, phase: nat, waiting: nat, opening: nat, queued: nat, owed: nat, workers: nat, lock: nat)

  function RankOf(g: Tasks.Grid, x: System): Rank {
    Rank(AllLeft(g, x.work),
         if x.work.merging then 0 else 1,
         if |x.pool.accepted| <= TmpCount(g) + |g.tmp| then TmpCount(g) + |g.tmp| - |x.pool.accepted| else 0,
         if x.pool.lock.Enqueuing? then 0 else 1,
         |x.pool.tasks|, x.pool.owed, Weights(x.pool.workers),
         match x.pool.lock case Free => 2 case Testing(_) => 1 case _ => 0)
  }

  predicate Lower(r: Rank, s: Rank) {
    || r.work < s.work
    || (r.work == s.work && r.phase < s.phase)
    || (r.work == s.work && r.phase == s.phase && LowerPool(r, s))
  }

  predicate LowerPool(r: Rank, s: Rank) {
    || r.waiting < s.waiting
    || (r.waiting == s.waiting && r.opening < s.opening)
    || (r.waiting == s.waiting && r.opening == s.opening && LowerWorkers(r, s))
  }

  predicate LowerWorkers(r: Rank, s: Rank) {
    || r.queued < s.queued
    || (r.queued == s.queued && r.owed < s.owed)
    || (r.queued == s.queued && r.owed == s.owed && r.workers < s.workers)
    || (r.queued == s.queued && r.owed == s.owed && r.workers == s.workers && r.lock < s.lock)
  }

  // ----- some step goes on

  ghost predicate GoesOn(g: Tasks.Grid, x: System, x': System)
    requires g.Ok()
  {
    Next(g, x, x') && Alive(x') && Lower(RankOf(g, x'), RankOf(g, x))
  }

  /** The mutex is held: its holder goes on. */
  lemma HolderGoesOn(g: Tasks.Grid, x: System) returns (x': System)
    requires g.Ok() && Inv(g, x) && Alive(x) && x.pool.lock != ThreadPool.Free
    ensures GoesOn(g, x, x')
  {
    var p := x.pool;
    match p.lock {
      case Enqueuing(task) =>
        var p' := p.(tasks := p.tasks + [task], accepted := p.accepted + [task], lock := ThreadPool.Free, owed := p.owed + 1);
        assert ThreadPool.EnqueuePush(p, p');
        x' := x.(pool := p');
      case Testing(i) =>
        var p' := if p.tasks != [] then p.(lock := ThreadPool.Deciding(i))
                  else p.(lock := ThreadPool.Free, workers := p.workers[i := ThreadPool.Asleep]);
        assert ThreadPool.WorkerTest(p, p');
        WeightsUpdate(p.workers, i, ThreadPool.Asleep);
        x' := x.(pool := p');
      case Deciding(i) =>
        var p' := p.(lock := ThreadPool.Free, tasks := p.tasks[1..], popped := p.popped + [p.tasks[0]],
                     workers := p.workers[i := ThreadPool.Running(|p.popped|)]);
        assert ThreadPool.WorkerPop(p, p');
        x' := x.(pool := p');
    }
  }

  /** A notification is owed, by an enqueue or by a worker. */
  lemma NotifierGoesOn(g: Tasks.Grid, x: System) returns (x': System)
    requires g.Ok() && Inv(g, x) && Alive(x) && x.pool.lock == ThreadPool.Free
    requires x.pool.owed > 0 || ThreadPool.Notifying in x.pool.workers
    ensures GoesOn(g, x, x')
  {
    var p := x.pool;
    if p.owed > 0 {
      var workers' := PoolMethods.SomeNotified(p.workers);
      var p' := p.(owed := p.owed - 1, workers := workers');
      assert ThreadPool.EnqueueNotify(p, p');
      ThreadPool.NotifiedShape(p.workers, workers');
      x' := x.(pool := p');
    } else {
      var i :| 0 <= i < |p.workers| && p.workers[i] == ThreadPool.Notifying;
      var mid := p.workers[i := ThreadPool.Awake];
      var workers' := PoolMethods.SomeNotified(mid);
      var p' := p.(workers := workers');
      assert ThreadPool.WorkerNotify(p, p', i);
      WeightsUpdate(p.workers, i, ThreadPool.Awake);
      if ThreadPool.Asleep in mid {
        var j :| 0 <= j < |mid| && mid[j] == ThreadPool.Asleep && workers' == mid[j := ThreadPool.Awake];
        WeightsUpdate(mid, j, ThreadPool.Awake);
      }
      x' := x.(pool := p');
    }
  }

  lemma WakerGoesOn(g: Tasks.Grid, x: System, i: nat) returns (x': System)
    requires g.Ok() && Inv(g, x) && Alive(x) && x.pool.lock == ThreadPool.Free
    requires i < |x.pool.workers| && x.pool.workers[i] == ThreadPool.Awake
    ensures GoesOn(g, x, x')
  {
    var p' := x.pool.(lock := ThreadPool.Testing(i));
    assert ThreadPool.WorkerLock(x.pool, p', i);
    x' := x.(pool := p');
  }

  /** A worker is running a task: it ends the task or goes on with it. */
  lemma RunnerGoesOn(g: Tasks.Grid, x: System, i: nat) returns (x': System)
    requires g.Ok() && Inv(g, x) && Alive(x) && i < |x.pool.workers| && x.pool.workers[i].Running?
    ensures GoesOn(g, x, x')
  {
    var p := x.pool;
    var k := p.workers[i].k;
    PoppedInOrder(g, x, k);
    assert |p.popped| <= |p.accepted|;
    if Done(g, x.work, k) {
      var p' := p.(finished := p.finished + {k}, workers := p.workers[i := ThreadPool.Notifying]);
      assert ThreadPool.WorkerFinish(p, p', i);
      WeightsUpdate(p.workers, i, ThreadPool.Notifying);
      x' := x.(pool := p');
      assert PoolStep(g, x, x');
    } else {
      assert Running(p, k);
      x' := BodyGoesOn(g, x, k);
    }
  }

  lemma BodyGoesOn(g: Tasks.Grid, x: System, k: nat) returns (x': System)
    requires g.Ok() && Inv(g, x) && Alive(x) && Running(x.pool, k) && k < |x.pool.accepted| && !Done(g, x.work, k)
    ensures GoesOn(g, x, x')
  {
    var w := x.work;
    match DutyOf(g, k) {
      case Tmp(p) =>
        SlotOfTask(g, k, p);
        var w' := if p in w.held then w.(tmp := w.tmp[p := w.held[p]]) else w.(held := w.held[p := g.Tmp(p)]);
        x' := x.(work := w');
        assert BodyStep(g, x, x', k);
        TmpLeft(g, w, w', p, g.Tmp(p), k);
      case Merge(t) =>
        var file := Tasks.Slot(|Tasks.Loaded(w, t)|, t);
        if |Tasks.Loaded(w, t)| < g.files {
          assert g.IsTask(file);
          var more := Tasks.Loaded(w, t) + [w.tmp[file]];
          var w' := w.(tmp := w.tmp - {file}, loaded := w.loaded[t := more]);
          x' := x.(work := w');
          assert BodyStep(g, x, x', k);
          MergeLeft(g, w, w', t, more, k);
        } else {
          var w' := w.(parts := w.parts[t := Tasks.MergeOf(Tasks.Loaded(w, t), g.n)]);
          x' := x.(work := w');
          assert BodyStep(g, x, x', k);
          MergeLeft(g, w, w', t, [], k);
        }
    }
  }

  lemma SlotOfTask(g: Tasks.Grid, k: nat, p: Tasks.Slot)
    requires k < TmpCount(g) + |g.tmp| && DutyOf(g, k) == Tmp(p)
    ensures g.IsTask(p)
  {
    if k / |g.tmp| >= g.files {
      MulMonotone(g.files, k / |g.tmp|, |g.tmp|);
    }
  }

  lemma TmpLeft(g: Tasks.Grid, w: Tasks.Work, w': Tasks.Work, p: Tasks.Slot, data: Bytes, k: nat)
    requires k < TmpCount(g) + |g.tmp| && DutyOf(g, k) == Tmp(p) && !w.merging
    requires if p in w.held then p !in w.tmp && w' == w.(tmp := w.tmp[p := w.held[p]])
             else w' == w.(held := w.held[p := data])
    ensures AllLeft(g, w') < AllLeft(g, w)
  {
    var n := TmpCount(g) + |g.tmp|;
    forall j | 0 <= j < n
      ensures NoMoreLeft(g, w, w', j)
    {
    }
    assert Left(g, w', k) < Left(g, w, k);
    LeftFalls(g, w, w', n);
  }

  lemma MergeLeft(g: Tasks.Grid, w: Tasks.Work, w': Tasks.Work, t: nat, more: seq<Bytes>, k: nat)
    requires k < TmpCount(g) + |g.tmp| && DutyOf(g, k) == Merge(t) && w.merging && w'.merging
    requires if |Tasks.Loaded(w, t)| < g.files
             then w'.parts == w.parts && w'.loaded == w.loaded[t := more] && |more| == |Tasks.Loaded(w, t)| + 1
             else t !in w.parts && w'.loaded == w.loaded && w'.parts.Keys == w.parts.Keys + {t}
    ensures AllLeft(g, w') < AllLeft(g, w)
  {
    var n := TmpCount(g) + |g.tmp|;
    forall j | 0 <= j < n
      ensures NoMoreLeft(g, w, w', j)
    {
    }
    assert Left(g, w', k) < Left(g, w, k);
    LeftFalls(g, w, w', n);
  }

  /** Everybody sleeps and nothing is owed: the script goes on. */
  lemma ScriptGoesOn(g: Tasks.Grid, x: System) returns (x': System)
    requires g.Ok() && Inv(g, x) && Alive(x) && !Complete(g, x) && x.pool.lock == ThreadPool.Free && x.pool.owed == 0
    requires forall i :: 0 <= i < |x.pool.workers| ==> x.pool.workers[i] == ThreadPool.Asleep
    ensures GoesOn(g, x, x')
  {
    var p := x.pool;
    AllFinished(p);
    var limit := if x.work.merging then TmpCount(g) + |g.tmp| else TmpCount(g);
    if |p.accepted| < limit {
      var p' := p.(lock := ThreadPool.Enqueuing(|p.accepted|));
      assert ThreadPool.EnqueueLock(p, p', |p.accepted|);
      x' := x.(pool := p');
      assert PoolStep(g, x, x');
    } else {
      assert Ready(p, TmpCount(g));
      x' := x.(work := x.work.(merging := true));
      assert Proceed(g, x, x');
      PhaseLeft(g, x.work, x'.work);
    }
  }

  lemma AllFinished(p: ThreadPool.Pool)
    requires ThreadPool.Inv(p) && p.workers != [] && p.owed == 0
    requires forall i :: 0 <= i < |p.workers| ==> p.workers[i] == ThreadPool.Asleep
    ensures p.tasks == [] && forall k :: 0 <= k < |p.accepted| ==> k in p.finished
  {
    assert p.workers[0] in p.workers;
    ThreadPool.NoneIdle(p.workers);
    forall k | 0 <= k < |p.popped|
      ensures k in p.finished
    {
      assert ThreadPool.Running(k) !in p.workers;
    }
  }

  lemma PhaseLeft(g: Tasks.Grid, w: Tasks.Work, w': Tasks.Work)
    requires w' == w.(merging := true)
    ensures AllLeft(g, w') <= AllLeft(g, w)
  {
    var n := TmpCount(g) + |g.tmp|;
    forall j | 0 <= j < n
      ensures NoMoreLeft(g, w, w', j)
    {
    }
    LeftFalls(g, w, w', n);
  }

  /** Some step goes on as long as not all futures are ready. */
  lemma NeverStuck(g: Tasks.Grid, x: System) returns (x': System)
    requires g.Ok() && Inv(g, x) && Alive(x) && !Complete(g, x)
    ensures GoesOn(g, x, x')
  {
    var p := x.pool;
    if p.lock != ThreadPool.Free {
      x' := HolderGoesOn(g, x);
    } else if p.owed > 0 || ThreadPool.Notifying in p.workers {
      x' := NotifierGoesOn(g, x);
    } else if i :| 0 <= i < |p.workers| && p.workers[i] == ThreadPool.Awake {
      x' := WakerGoesOn(g, x, i);
    } else if i :| 0 <= i < |p.workers| && p.workers[i].Running? {
      x' := RunnerGoesOn(g, x, i);
    } else {
      forall i | 0 <= i < |p.workers|
        ensures p.workers[i] == ThreadPool.Asleep
      {
        assert p.workers[i] in p.workers;
      }
      x' := ScriptGoesOn(g, x);
    }
  }

  lemma {:induction false} Continue(g: Tasks.Grid, run: seq<System>, rank: Rank) returns (longer: seq<System>)
    requires g.Ok() && Run(g, run) && Inv(g, Last(run)) && Alive(Last(run)) && rank == RankOf(g, Last(run))
    ensures Run(g, longer) && run <= longer && Complete(g, Last(longer))
    decreases rank.work, rank.phase, rank.waiting, rank.opening, rank.queued, rank.owed, rank.workers, rank.lock
  {
    if Complete(g, Last(run)) {
      longer := run;
    } else {
      var x' := NeverStuck(g, Last(run));
      NextIsStep(g, Last(run), x');
      OneStepMore(g, run, x');
      longer := Continue(g, run + [x'], RankOf(g, x'));
    }
  }

  lemma OneStepMore(g: Tasks.Grid, run: seq<System>, x': System)
    requires g.Ok() && Run(g, run) && Next(g, Last(run), x')
    ensures Run(g, run + [x'])
  {
    var longer := run + [x'];
    forall n | 0 <= n < |longer| - 1
      ensures StepAt(g, longer, n)
    {
      if n < |run| - 1 {
        assert StepAt(g, run, n);
      }
    }
  }

  /** Whatever the pool, the script and the tasks have done so far, the message can be completed,
      and then the part files are those of its running key. */
  lemma KeyIsReachable(job: Job, run: seq<System>) returns (longer: seq<System>)
    requires job.Ok() && Run(Tasks.GridOf(job), run) && Alive(Last(run))
    ensures var g := Tasks.GridOf(job);
            Run(g, longer) && run <= longer && Complete(g, Last(longer))
            && Tasks.Finished(g, Last(longer).work) && Tasks.PartFiles(g, Last(longer).work) == job.Parts()
  {
    var g := Tasks.GridOf(job);
    var files := FilesRun(g, run, |run| - 1);
    longer := Continue(g, run, RankOf(g, Last(run)));
    CompleteMeansKey(job, longer);
  }

  lemma CompleteMeansKey(job: Job, run: seq<System>)
    requires job.Ok() && Run(Tasks.GridOf(job), run) && Complete(Tasks.GridOf(job), Last(run))
    ensures var g := Tasks.GridOf(job);
            Tasks.Finished(g, Last(run).work) && Tasks.PartFiles(g, Last(run).work) == job.Parts()
  {
    FuturesMeanKey(job, run, |run| - 1);
  }
}
