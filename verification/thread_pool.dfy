/** The ThreadPool monitor of src/utils/thread.h as a state machine. Every step is one
    stretch of code that no other thread can see inside: either it holds the mutex or it is
    a single atomic access. The stop flag is set outside the mutex, at any moment. */
module ThreadPool {

  /** What a task does is not modelled; its number tells it from the others. */
  type Task = nat

  /** Awake: not asleep in wait and not running a task, so about to (re)check the queue.
      Running and Notifying name the task by its position in the order of popping. */
  datatype Worker = Asleep | Awake | Running(k: nat) | Notifying | Exited

  /** Who holds the mutex, and how far it has come. */
  datatype Lock = Free
                | Enqueuing(task: Task)   // has seen stopPool_ false, has not pushed yet
                | Testing(i: nat)         // worker i is about to evaluate the predicate
                | Deciding(i: nat)        // worker i has seen the predicate true

  /** owed counts the enqueue calls that have pushed but not yet called notify_one;
      accepted, popped and finished are history. */
  datatype Pool = Pool(
    tasks: seq<Task>, stop: bool, lock: Lock, workers: seq<Worker>, owed: nat,
    accepted: seq<Task>, popped: seq<Task>, finished: set<nat>)

  predicate Init(p: Pool) {
    && p.tasks == [] && !p.stop && p.lock == Free && p.owed == 0
    && p.accepted == [] && p.popped == [] && p.finished == {}
    && forall i :: 0 <= i < |p.workers| ==> p.workers[i] == Awake
  }

  // ----- steps

  predicate SetStop(p: Pool, p': Pool) {
    p' == p.(stop := true)
  }

  function WakeAll(workers: seq<Worker>): (r: seq<Worker>)
    ensures |r| == |workers|
  {
    seq(|workers|, i requires 0 <= i < |workers| => if workers[i] == Asleep then Awake else workers[i])
  }

  predicate NotifyAll(p: Pool, p': Pool) {
    p.stop && p' == p.(workers := WakeAll(p.workers))
  }

  /** notify_one wakes some sleeper, and nobody iff nobody sleeps. */
  predicate Notified(workers: seq<Worker>, workers': seq<Worker>) {
    || (Asleep !in workers && workers' == workers)
    || exists j :: 0 <= j < |workers| && workers[j] == Asleep && workers' == workers[j := Awake]
  }

  predicate SpuriousWakeup(p: Pool, p': Pool, i: nat) {
    i < |p.workers| && p.workers[i] == Asleep && p' == p.(workers := p.workers[i := Awake])
  }

  predicate EnqueueLock(p: Pool, p': Pool, t: Task) {
    p.lock == Free && !p.stop && p' == p.(lock := Enqueuing(t))
  }

  /** enqueue on a stopped pool throws and leaves everything as it was. */
  predicate EnqueueThrows(p: Pool, p': Pool) {
    p.lock == Free && p.stop && p' == p
  }

  predicate EnqueuePush(p: Pool, p': Pool) {
    p.lock.Enqueuing?
    && p' == p.(tasks := p.tasks + [p.lock.task], accepted := p.accepted + [p.lock.task], lock := Free, owed := p.owed + 1)
  }

  predicate EnqueueNotify(p: Pool, p': Pool) {
    p.owed > 0 && p' == p.(owed := p.owed - 1, workers := p'.workers) && Notified(p.workers, p'.workers)
  }

  predicate WorkerLock(p: Pool, p': Pool, i: nat) {
    p.lock == Free && i < |p.workers| && p.workers[i] == Awake && p' == p.(lock := Testing(i))
  }

  predicate WorkerTest(p: Pool, p': Pool) {
    p.lock.Testing? && p.lock.i < |p.workers|
    && p' == if p.stop || p.tasks != [] then p.(lock := Deciding(p.lock.i))
             else p.(lock := Free, workers := p.workers[p.lock.i := Asleep])
  }

  predicate WorkerExit(p: Pool, p': Pool) {
    p.lock.Deciding? && p.lock.i < |p.workers| && p.stop && p.tasks == []
    && p' == p.(lock := Free, workers := p.workers[p.lock.i := Exited])
  }

  predicate WorkerPop(p: Pool, p': Pool) {
    p.lock.Deciding? && p.lock.i < |p.workers| && p.tasks != []
    && p' == p.(lock := Free, tasks := p.tasks[1..], popped := p.popped + [p.tasks[0]],
                workers := p.workers[p.lock.i := Running(|p.popped|)])
  }

  predicate WorkerFinish(p: Pool, p': Pool, i: nat) {
    i < |p.workers| && p.workers[i].Running?
    && p' == p.(finished := p.finished + {p.workers[i].k}, workers := p.workers[i := Notifying])
  }

  predicate WorkerNotify(p: Pool, p': Pool, i: nat) {
    i < |p.workers| && p.workers[i] == Notifying && p' == p.(workers := p'.workers)
    && Notified(p.workers[i := Awake], p'.workers)
  }

  ghost predicate Next(p: Pool, p': Pool) {
    || SetStop(p, p') || NotifyAll(p, p') || EnqueueThrows(p, p') || EnqueuePush(p, p') || EnqueueNotify(p, p')
    || WorkerTest(p, p') || WorkerExit(p, p') || WorkerPop(p, p')
    || (exists t: Task :: EnqueueLock(p, p', t))
    || (exists i: nat :: SpuriousWakeup(p, p', i) || WorkerLock(p, p', i))
    || (exists i: nat :: WorkerFinish(p, p', i) || WorkerNotify(p, p', i))
  }

  ghost predicate Run(run: seq<Pool>) {
    run != [] && Init(run[0]) && forall n :: 0 <= n < |run| - 1 ==> Next(run[n], run[n + 1])
  }

  // ----- the invariant

  function One(w: Worker): nat {
    if w in {Awake, Notifying} then 1 else 0
  }

  function Idle(workers: seq<Worker>): nat {
    if workers == [] then 0 else Idle(workers[..|workers| - 1]) + One(workers[|workers| - 1])
  }

  lemma {:induction false} IdleUpdate(workers: seq<Worker>, i: nat, w: Worker)
    requires i < |workers|
    ensures Idle(workers[i := w]) + One(workers[i]) == Idle(workers) + One(w)
  {
    var n := |workers| - 1;
    if i < n {
      assert workers[i := w][..n] == workers[..n][i := w];
      IdleUpdate(workers[..n], i, w);
    } else {
      assert workers[i := w][..n] == workers[..n];
    }
  }

  lemma {:induction false} NoneIdle(workers: seq<Worker>)
    requires forall i :: 0 <= i < |workers| ==> One(workers[i]) == 0
    ensures Idle(workers) == 0
  {
    if workers != [] {
      NoneIdle(workers[..|workers| - 1]);
    }
  }

  /** First in, first out: what was popped followed by what is queued is what was accepted. */
  predicate Fifo(p: Pool) {
    p.popped + p.tasks == p.accepted
  }

  predicate LockSane(p: Pool) {
    match p.lock
    case Testing(i) => i < |p.workers| && p.workers[i] == Awake
    case Deciding(i) => i < |p.workers| && p.workers[i] == Awake && (p.stop || p.tasks != [])
    case _ => true
  }

  /** Once a worker has left, the pool is stopped and drained and nobody can refill it. */
  predicate ExitedMeansDrained(p: Pool) {
    Exited in p.workers ==> p.stop && p.tasks == [] && !p.lock.Enqueuing?
  }

  /** Every popped task is either finished or in exactly one worker's hands. */
  predicate EachRunOnce(p: Pool) {
    && (forall k :: k in p.finished ==> k < |p.popped|)
    && (forall i :: 0 <= i < |p.workers| && p.workers[i].Running? ==> p.workers[i].k < |p.popped| && p.workers[i].k !in p.finished)
    && (forall i, j :: 0 <= i < j < |p.workers| && p.workers[i].Running? && p.workers[j].Running? ==> p.workers[i].k != p.workers[j].k)
    && (forall k :: 0 <= k < |p.popped| && k !in p.finished ==> Running(k) in p.workers)
  }

  /** While some worker sleeps, at least as many workers are about to look at the queue, or
      notifications are owed, as there are queued tasks. */
  predicate WorkConserving(p: Pool) {
    Asleep in p.workers ==> |p.tasks| <= p.owed + Idle(p.workers)
  }

  predicate Inv(p: Pool) {
    Fifo(p) && LockSane(p) && ExitedMeansDrained(p) && EachRunOnce(p) && WorkConserving(p)
  }

  lemma NotifiedShape(workers: seq<Worker>, workers': seq<Worker>)
    requires Notified(workers, workers')
    ensures |workers'| == |workers|
    ensures forall i :: 0 <= i < |workers| ==> workers'[i] == workers[i] || (workers[i] == Asleep && workers'[i] == Awake)
    ensures Asleep in workers ==> Idle(workers') == Idle(workers) + 1
    ensures Asleep !in workers ==> workers' == workers
  {
    if Asleep in workers {
      var j :| 0 <= j < |workers| && workers[j] == Asleep && workers' == workers[j := Awake];
      IdleUpdate(workers, j, Awake);
    }
  }

  /** Waking some sleepers changes nothing but the sleepers. */
  lemma WokenKeeps(p: Pool, workers': seq<Worker>)
    requires LockSane(p) && ExitedMeansDrained(p) && EachRunOnce(p)
    requires |workers'| == |p.workers|
    requires forall i :: 0 <= i < |workers'| ==> workers'[i] == p.workers[i] || (p.workers[i] == Asleep && workers'[i] == Awake)
    ensures var p' := p.(workers := workers'); LockSane(p') && ExitedMeansDrained(p') && EachRunOnce(p')
  {
    var p' := p.(workers := workers');
    forall k | 0 <= k < |p.popped| && k !in p.finished
      ensures Running(k) in workers'
    {
      var i :| 0 <= i < |p.workers| && p.workers[i] == Running(k);
      assert workers'[i] == Running(k);
    }
  }

  /** A worker that runs nothing turns into one that runs nothing. */
  lemma ReplaceKeepsRuns(p: Pool, i: nat, w: Worker)
    requires EachRunOnce(p) && i < |p.workers| && !p.workers[i].Running? && !w.Running?
    ensures EachRunOnce(p.(workers := p.workers[i := w]))
  {
    var workers' := p.workers[i := w];
    forall k | 0 <= k < |p.popped| && k !in p.finished
      ensures Running(k) in workers'
    {
      var j :| 0 <= j < |p.workers| && p.workers[j] == Running(k);
      assert workers'[j] == Running(k);
    }
  }

  lemma WakeAllKeeps(p: Pool, p': Pool)
    requires Inv(p) && NotifyAll(p, p')
    ensures Inv(p')
  {
    WokenKeeps(p, p'.workers);
  }

  lemma EnqueueNotifyKeeps(p: Pool, p': Pool)
    requires Inv(p) && EnqueueNotify(p, p')
    ensures Inv(p')
  {
    NotifiedShape(p.workers, p'.workers);
    WokenKeeps(p, p'.workers);
  }

  lemma SpuriousKeeps(p: Pool, p': Pool, i: nat)
    requires Inv(p) && SpuriousWakeup(p, p', i)
    ensures Inv(p')
  {
    WokenKeeps(p, p'.workers);
    IdleUpdate(p.workers, i, Awake);
  }

  lemma WorkerTestKeeps(p: Pool, p': Pool)
    requires Inv(p) && WorkerTest(p, p')
    ensures Inv(p')
  {
    if !(p.stop || p.tasks != []) {
      ReplaceKeepsRuns(p, p.lock.i, Asleep);
    }
  }

  lemma WorkerExitKeeps(p: Pool, p': Pool)
    requires Inv(p) && WorkerExit(p, p')
    ensures Inv(p')
  {
    ReplaceKeepsRuns(p, p.lock.i, Exited);
  }

  lemma WorkerPopKeeps(p: Pool, p': Pool)
    requires Inv(p) && WorkerPop(p, p')
    ensures Inv(p')
  {
    var i := p.lock.i;
    IdleUpdate(p.workers, i, Running(|p.popped|));
    PopRuns(p, p', i);
  }

  lemma PopRuns(p: Pool, p': Pool, i: nat)
    requires EachRunOnce(p) && i < |p.workers| && p.workers[i] == Awake && p.tasks != []
    requires p'.workers == p.workers[i := Running(|p.popped|)] && p'.popped == p.popped + [p.tasks[0]] && p'.finished == p.finished
    ensures EachRunOnce(p')
  {
    forall k | 0 <= k < |p'.popped| && k !in p'.finished
      ensures Running(k) in p'.workers
    {
      if k < |p.popped| {
        var j :| 0 <= j < |p.workers| && p.workers[j] == Running(k);
        assert p'.workers[j] == Running(k);
      } else {
        assert p'.workers[i] == Running(k);
      }
    }
  }

  lemma WorkerFinishKeeps(p: Pool, p': Pool, i: nat)
    requires Inv(p) && WorkerFinish(p, p', i)
    ensures Inv(p')
  {
    IdleUpdate(p.workers, i, Notifying);
    FinishRuns(p, p', i);
  }

  lemma FinishRuns(p: Pool, p': Pool, i: nat)
    requires EachRunOnce(p) && WorkerFinish(p, p', i)
    ensures EachRunOnce(p')
  {
    forall k | 0 <= k < |p'.popped| && k !in p'.finished
      ensures Running(k) in p'.workers
    {
      var j :| 0 <= j < |p.workers| && p.workers[j] == Running(k);
      assert p'.workers[j] == Running(k);
    }
  }

  lemma WorkerNotifyKeeps(p: Pool, p': Pool, i: nat)
    requires Inv(p) && WorkerNotify(p, p', i)
    ensures Inv(p')
  {
    ReplaceKeepsRuns(p, i, Awake);
    IdleUpdate(p.workers, i, Awake);
    var mid := p.(workers := p.workers[i := Awake]);
    NotifiedShape(mid.workers, p'.workers);
    WokenKeeps(mid, p'.workers);
  }

  lemma NextKeeps(p: Pool, p': Pool)
    requires Inv(p) && Next(p, p')
    ensures Inv(p')
  {
    if NotifyAll(p, p') {
      WakeAllKeeps(p, p');
    } else if EnqueueNotify(p, p') {
      EnqueueNotifyKeeps(p, p');
    } else if WorkerTest(p, p') {
      WorkerTestKeeps(p, p');
    } else if WorkerExit(p, p') {
      WorkerExitKeeps(p, p');
    } else if WorkerPop(p, p') {
      WorkerPopKeeps(p, p');
    } else if i: nat :| SpuriousWakeup(p, p', i) || WorkerLock(p, p', i) {
      if SpuriousWakeup(p, p', i) {
        SpuriousKeeps(p, p', i);
      }
    } else if i: nat :| WorkerFinish(p, p', i) || WorkerNotify(p, p', i) {
      if WorkerFinish(p, p', i) {
        WorkerFinishKeeps(p, p', i);
      } else {
        WorkerNotifyKeeps(p, p', i);
      }
    }
  }

  lemma {:induction false} RunKeeps(run: seq<Pool>, n: nat)
    requires Run(run) && n < |run|
    ensures Inv(run[n])
    decreases n
  {
    if n > 0 {
      RunKeeps(run, n - 1);
      NextKeeps(run[n - 1], run[n]);
    }
  }

  // ----- what it means for callers

  /** Nothing is dropped, reordered or run twice; when every worker has left, every accepted
      task has run to its end. */
  lemma NothingDropped(run: seq<Pool>, n: nat)
    requires Run(run) && n < |run|
    ensures run[n].popped + run[n].tasks == run[n].accepted
    ensures forall i, j :: 0 <= i < j < |run[n].workers| && run[n].workers[i].Running? ==> run[n].workers[i] != run[n].workers[j]
    ensures forall i :: 0 <= i < |run[n].workers| && run[n].workers[i].Running? ==> run[n].workers[i].k !in run[n].finished
    ensures run[n].workers != [] && (forall i :: 0 <= i < |run[n].workers| ==> run[n].workers[i] == Exited)
      ==> forall k :: k in run[n].finished <==> 0 <= k < |run[n].accepted|
  {
    RunKeeps(run, n);
    var p := run[n];
    if p.workers != [] && forall i :: 0 <= i < |p.workers| ==> p.workers[i] == Exited {
      assert p.workers[0] in p.workers;
      assert p.popped == p.accepted;
      forall k | 0 <= k < |p.popped|
        ensures k in p.finished
      {
        assert Running(k) !in p.workers;
      }
    }
  }

  /** Before or after stop: a queued task never faces a pool whose workers all sleep while no
      enqueue still owes its notification. */
  lemma NeverStranded(run: seq<Pool>, n: nat)
    requires Run(run) && n < |run| && run[n].workers != []
    requires run[n].tasks != [] && forall i :: 0 <= i < |run[n].workers| ==> run[n].workers[i] == Asleep
    ensures run[n].owed >= |run[n].tasks|
  {
    RunKeeps(run, n);
    assert run[n].workers[0] in run[n].workers;
    NoneIdle(run[n].workers);
  }

  lemma ExitIsStable(p: Pool, p': Pool)
    requires Inv(p) && Next(p, p') && Exited in p.workers
    ensures Exited in p'.workers && p'.accepted == p.accepted && p'.tasks == [] && p'.stop
  {
    var e :| 0 <= e < |p.workers| && p.workers[e] == Exited;
    assert e < |p'.workers| && p'.workers[e] == Exited by {
      if EnqueueNotify(p, p') {
        NotifiedShape(p.workers, p'.workers);
      } else if i: nat :| i < |p.workers| && WorkerNotify(p, p', i) {
        NotifiedShape(p.workers[i := Awake], p'.workers);
      }
    }
    NextKeeps(p, p');
  }

  lemma ClosedStep(run: seq<Pool>, m: nat)
    requires Run(run) && m + 1 < |run| && Exited in run[m].workers
    ensures Exited in run[m + 1].workers && run[m + 1].accepted == run[m].accepted
  {
    RunKeeps(run, m);
    ExitIsStable(run[m], run[m + 1]);
  }

  /** From the moment any worker has left, the queue stays empty and nothing more is accepted. */
  lemma {:induction false} ClosedForEver(run: seq<Pool>, n: nat, m: nat)
    requires Run(run) && n <= m < |run| && Exited in run[n].workers
    ensures Exited in run[m].workers && run[m].accepted == run[n].accepted
    ensures run[m].tasks == [] && run[m].stop
    decreases m - n
  {
    if n < m {
      ClosedForEver(run, n, m - 1);
      ClosedStep(run, m - 1);
    }
    RunKeeps(run, m);
  }
}
