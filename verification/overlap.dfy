/** When gather can overlap a request: the loop that joins a batch stops at the first failure,
    and only the last batch is not waited for again before gather starts. */
module Overlap {
  import opened Arith
  import opened Bits
  import opened DamageExample
  import opened SecretFile
  import opened Sequences
  import opened Transfer
  import opened TransferClient
  import opened TransferInvariant
  import opened TransferTheorems

  /** Past pulling with a request still under way. */
  predicate Overlaps(s: Session) {
    !Pulling(s.client) && exists i :: 0 <= i < |s.reqs| && InFlight(s.reqs[i].stage)
  }

  ghost predicate CanOverlap(env: Env)
    requires env.Ok()
  {
    exists s :: Reaches(env, s) && Overlaps(s)
  }

  function BatchEnd(env: Env, first: nat): nat
    requires env.Ok()
  {
    if first + env.p.clientThreads <= env.Total() then first + env.p.clientThreads else env.Total()
  }

  predicate Aligned(first: nat, threads: nat)
    requires threads > 0
  {
    first % threads == 0
  }

  lemma NextAligned(first: nat, threads: nat)
    requires threads > 0 && Aligned(first, threads)
    ensures Aligned(first + threads, threads)
  {
    ModAdd(first, threads, threads);
    ModOnce(threads, threads);
  }

  /** The last batch and how many requests it has. */
  lemma LastBatch(first: nat, total: nat, threads: nat)
    requires threads > 0 && Aligned(first, threads) && first < total <= first + threads
    ensures (total - 1) % threads == total - 1 - first
  {
    ModAdd(first, total - 1 - first, threads);
    ModSmall(total - 1 - first, threads);
  }

  // ----- a last batch of one request

  /** Batches begin at multiples of CLIENT_THREAD_NUM and are full but for the last. */
  ghost predicate AlignedInv(env: Env, s: Session)
    requires env.Ok()
  {
    match s.client
    case Dispatching(first) => Aligned(first, env.p.clientThreads)
    case Joining(first, next) => Aligned(first, env.p.clientThreads) && first < s.clientCount == BatchEnd(env, first)
    case Draining(first) => Aligned(first, env.p.clientThreads) && s.clientCount == first + env.p.clientThreads
    case _ => (env.Total() - 1) % env.p.clientThreads == 0 ==> TerminalBefore(s, |s.reqs|)
  }

  lemma InitAligned(env: Env, s: Session)
    requires env.Ok() && Init(env, s)
    ensures AlignedInv(env, s)
  {
    ModSmall(0, env.p.clientThreads);
  }

  lemma RequestAligned(env: Env, s: Session, s': Session, i: nat)
    requires env.Ok() && AlignedInv(env, s) && OneRequest(s, s', i) && !Terminal(s.reqs[i].stage)
    ensures AlignedInv(env, s')
  {
  }

  lemma DispatchAligned(env: Env, s: Session, s': Session)
    requires env.Ok() && Inv(env, s) && BatchInv(env, s) && AlignedInv(env, s) && s.client.Dispatching? && ClientStep(env, s, s')
    ensures AlignedInv(env, s')
  {
  }

  lemma JoinAligned(env: Env, s: Session, s': Session)
    requires env.Ok() && ClientInv(env, s) && AlignedInv(env, s) && (s.client.Joining? || s.client.Draining?) && ClientStep(env, s, s')
    ensures AlignedInv(env, s')
  {
    var first := s.client.first;
    if s.client.Draining? {
      NextAligned(first, env.p.clientThreads);
    } else if s'.client.Gathering? {
      LastBatch(first, env.Total(), env.p.clientThreads);
      if first + 1 == env.Total() {
        forall i | 0 <= i < |s.reqs|
          ensures Terminal(s.reqs[i].stage)
        {
          assert i < first || i == first;
        }
      }
    }
  }

  lemma LaterAligned(env: Env, s: Session, s': Session)
    requires env.Ok() && AlignedInv(env, s) && !Pulling(s.client) && ClientStep(env, s, s')
    ensures AlignedInv(env, s')
  {
  }

  lemma NextKeepsAligned(env: Env, s: Session, s': Session)
    requires env.Ok() && Inv(env, s) && BatchInv(env, s) && AlignedInv(env, s) && Next(env, s, s')
    ensures AlignedInv(env, s')
  {
    if ClientStep(env, s, s') {
      if s.client.Dispatching? {
        DispatchAligned(env, s, s');
      } else if Pulling(s.client) {
        JoinAligned(env, s, s');
      } else {
        LaterAligned(env, s, s');
      }
    } else {
      var i: nat :| RequestStep(env, s, s', i) || RequestFault(s, s', i);
      if RequestStep(env, s, s', i) {
        RequestStages(env, s, s', i);
      }
      RequestAligned(env, s, s', i);
    }
  }

  lemma AlignedOnwards(env: Env, run: seq<Session>, n: nat)
    requires env.Ok() && SharedRun(env, run) && n + 1 < |run| && AlignedInv(env, run[n])
    ensures AlignedInv(env, run[n + 1])
  {
    RunKeeps(env, run, n);
    InFlightBounded(env, run, n);
    StepInRun(env, run, n);
    NextKeepsAligned(env, run[n], run[n + 1]);
  }

  lemma {:induction false} RunAligned(env: Env, run: seq<Session>, n: nat)
    requires env.Ok() && SharedRun(env, run) && n < |run|
    ensures AlignedInv(env, run[n])
    decreases n
  {
    if n == 0 {
      InitAligned(env, run[0]);
    } else {
      RunAligned(env, run, n - 1);
      AlignedOnwards(env, run, n - 1);
    }
  }

  lemma OneAtLast(env: Env, run: seq<Session>, n: nat)
    requires env.Ok() && SharedRun(env, run) && n < |run| && (env.Total() - 1) % env.p.clientThreads == 0
    ensures !Overlaps(run[n])
  {
    RunAligned(env, run, n);
  }

  // ----- a last batch of more than one

  /** Chunks before first have failed, those up to count are sent, the rest is idle. */
  ghost predicate At(env: Env, s: Session, first: nat, count: nat)
    requires env.Ok()
  {
    && Reaches(env, s) && |s.reqs| == env.Total() && first <= count == s.clientCount <= env.Total()
    && forall i :: 0 <= i < |s.reqs| ==> s.reqs[i].stage == if i < first then Failed else if i < count then Sent else Idle
  }

  lemma {:induction false} SendBatch(env: Env, s: Session, first: nat, count: nat) returns (t: Session)
    requires env.Ok() && At(env, s, first, count) && s.client == Dispatching(first)
    requires count < env.Total() && count < first + env.p.clientThreads
    ensures At(env, t, first, BatchEnd(env, first)) && t.client == Joining(first, first)
    decreases env.Total() - count
  {
    var progress := count + 1;
    var stop := progress >= env.Total() || progress - first >= env.p.clientThreads;
    var u := s.(clientCount := progress, client := if stop then Joining(first, first) else Dispatching(first));
    var s' := SetStage(u, count, Sent);
    assert ClientStep(env, s, s');
    Step(env, s, s');
    if stop {
      t := s';
    } else {
      t := SendBatch(env, s', first, progress);
    }
  }

  /** One more of the batch fails. */
  lemma Fail(env: Env, s: Session, first: nat, count: nat) returns (t: Session)
    requires env.Ok() && At(env, s, first, count) && first < count
    ensures At(env, t, first + 1, count) && t.client == s.client
  {
    t := SetStage(s, first, Failed);
    assert RequestFault(s, t, first);
    Step(env, s, t);
  }

  lemma {:induction false} FailAll(env: Env, s: Session, first: nat, count: nat) returns (t: Session)
    requires env.Ok() && At(env, s, first, count)
    ensures At(env, t, count, count) && t.client == s.client
    decreases count - first
  {
    if first == count {
      t := s;
    } else {
      var u := Fail(env, s, first, count);
      t := FailAll(env, u, first + 1, count);
    }
  }

  /** The join stops at the first request of the batch, which has failed. */
  lemma StopJoining(env: Env, s: Session, first: nat, failed: nat, count: nat) returns (t: Session)
    requires env.Ok() && At(env, s, failed, count) && first < failed && s.client == Joining(first, first)
    ensures At(env, t, failed, count) && t.client == if count >= env.Total() then Gathering(0) else Draining(first)
  {
    t := s.(client := if count >= env.Total() then Gathering(0) else Draining(first));
    assert ClientStep(env, s, t);
    Step(env, s, t);
  }

  lemma NextBatch(env: Env, s: Session, first: nat, count: nat) returns (t: Session)
    requires env.Ok() && At(env, s, count, count) && count < env.Total() && s.client == Draining(first)
    ensures At(env, t, count, count) && t.client == Dispatching(count)
  {
    t := s.(client := Dispatching(count));
    assert ClientStep(env, s, t);
    Step(env, s, t);
  }

  /** Everything fails until the last batch; there the first request fails and the others are
      still under way when gather starts. */
  lemma {:induction false} ReachOverlap(env: Env, s: Session, first: nat) returns (t: Session)
    requires env.Ok() && At(env, s, first, first) && s.client == Dispatching(first) && first < env.Total()
    requires Aligned(first, env.p.clientThreads) && (env.Total() - 1) % env.p.clientThreads != 0
    ensures Reaches(env, t) && Overlaps(t)
    decreases env.Total() - first
  {
    var count := BatchEnd(env, first);
    var sent := SendBatch(env, s, first, first);
    if count == env.Total() {
      LastBatch(first, env.Total(), env.p.clientThreads);
      var failed := Fail(env, sent, first, count);
      t := StopJoining(env, failed, first, first + 1, count);
      assert t.reqs[first + 1].stage == Sent;
    } else {
      var failed := FailAll(env, sent, first, count);
      var joined := StopJoining(env, failed, first, count, count);
      var next := NextBatch(env, joined, first, count);
      NextAligned(first, env.p.clientThreads);
      t := ReachOverlap(env, next, count);
    }
  }

  /** gather can start while a request is under way exactly when the last batch has more than one
      request. */
  lemma CanOverlapIff(env: Env, file: Bytes)
    requires env.Ok() && |file| == env.p.secretSize >= CRC_LEN && CrcOk(env.crc, file)
    ensures CanOverlap(env) <==> (env.Total() - 1) % env.p.clientThreads != 0
  {
    if (env.Total() - 1) % env.p.clientThreads != 0 {
      var s := Fresh(env, [], file);
      FreshRun(env, [], file);
      assert SharedRun(env, [s]) && Last([s]) == s;
      ModSmall(0, env.p.clientThreads);
      var t := ReachOverlap(env, s, 0);
    } else if s :| Reaches(env, s) && Overlaps(s) {
      var run: seq<Session> :| SharedRun(env, run) && Last(run) == s;
      OneAtLast(env, run, |run| - 1);
      assert false;
    }
  }
}
