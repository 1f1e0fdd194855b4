/** What a transfer asks of the client on the way: how many requests run at once, and which
    chunk files it leaves behind. */
module TransferClient {
  import opened Tiling
  import opened Transfer
  import opened TransferInvariant
  import opened TransferTheorems

  // ----- requests in flight

  predicate InFlight(stage: Stage) {
    stage != Idle && stage != Done && stage != Failed
  }

  function Count(reqs: seq<Request>): (n: nat)
    ensures n <= |reqs|
  {
    if reqs == [] then 0
    else Count(reqs[..|reqs| - 1]) + (if InFlight(reqs[|reqs| - 1].stage) then 1 else 0)
  }

  lemma {:induction false} CountUpdate(reqs: seq<Request>, i: nat, r: Request)
    requires i < |reqs| && InFlight(reqs[i].stage)
    ensures Count(reqs[i := r]) <= Count(reqs)
  {
    var n := |reqs| - 1;
    if i < n {
      assert reqs[i := r][..n] == reqs[..n][i := r];
      CountUpdate(reqs[..n], i, r);
    } else {
      assert reqs[i := r][..n] == reqs[..n];
    }
  }

  /** Only requests of the batch are in flight. */
  lemma {:induction false} CountWithin(reqs: seq<Request>, first: nat, end: nat)
    requires first <= end <= |reqs|
    requires forall i :: 0 <= i < |reqs| && InFlight(reqs[i].stage) ==> first <= i < end
    ensures Count(reqs) <= end - first
  {
    if reqs != [] {
      var n := |reqs| - 1;
      var front := reqs[..n];
      assert forall i :: 0 <= i < n ==> front[i] == reqs[i];
      if end <= n {
        CountWithin(front, first, end);
      } else if first <= n {
        CountWithin(front, first, n);
      } else {
        CountWithin(front, n, n);
      }
    }
  }

  /** The current batch is no larger than CLIENT_THREAD_NUM, with room left while it is being
      dispatched. */
  predicate BatchInv(env: Env, s: Session) {
    && Count(s.reqs) <= env.p.clientThreads
    && match s.client
       case Dispatching(first) => first <= s.clientCount < first + env.p.clientThreads
       case Joining(first, next) => s.clientCount <= first + env.p.clientThreads
       case Draining(first) => s.clientCount <= first + env.p.clientThreads
       case _ => true
  }

  lemma InitBatch(env: Env, s: Session)
    requires env.Ok() && Init(env, s)
    ensures BatchInv(env, s)
  {
    CountWithin(s.reqs, 0, 0);
  }

  lemma RequestBatch(env: Env, s: Session, s': Session, i: nat)
    requires env.Ok() && BatchInv(env, s) && OneRequest(s, s', i) && InFlight(s.reqs[i].stage)
    ensures BatchInv(env, s')
  {
    CountUpdate(s.reqs, i, s'.reqs[i]);
  }

  lemma DispatchBatch(env: Env, s: Session, s': Session)
    requires env.Ok() && Inv(env, s) && BatchInv(env, s) && s.client.Dispatching? && ClientStep(env, s, s')
    ensures BatchInv(env, s')
  {
    DispatchClient(env, s, s');
    var first := s.client.first;
    assert s'.reqs == s.reqs[s.clientCount := s.reqs[s.clientCount].(stage := Sent)];
    forall i | 0 <= i < |s'.reqs| && InFlight(s'.reqs[i].stage)
      ensures first <= i < s'.clientCount
    {
    }
    CountWithin(s'.reqs, first, s'.clientCount);
  }

  lemma OtherBatch(env: Env, s: Session, s': Session)
    requires env.Ok() && BatchInv(env, s) && !s.client.Dispatching? && ClientStep(env, s, s')
    ensures BatchInv(env, s')
  {
  }

  lemma NextBatch(env: Env, s: Session, s': Session)
    requires env.Ok() && Inv(env, s) && BatchInv(env, s) && Next(env, s, s')
    ensures BatchInv(env, s')
  {
    if ClientStep(env, s, s') {
      if s.client.Dispatching? {
        DispatchBatch(env, s, s');
      } else {
        OtherBatch(env, s, s');
      }
    } else {
      var i: nat :| RequestStep(env, s, s', i) || RequestFault(s, s', i);
      if RequestStep(env, s, s', i) {
        RequestStages(env, s, s', i);
      }
      RequestBatch(env, s, s', i);
    }
  }

  /** In every state of every run at most CLIENT_THREAD_NUM requests are under way. */
  lemma {:induction false} InFlightBounded(env: Env, run: seq<Session>, n: nat)
    requires env.Ok() && SharedRun(env, run) && n < |run|
    ensures BatchInv(env, run[n]) && Count(run[n].reqs) <= env.p.clientThreads
    decreases n
  {
    if n == 0 {
      InitBatch(env, run[0]);
    } else {
      InFlightBounded(env, run, n - 1);
      BatchOnwards(env, run, n - 1);
    }
  }

  lemma BatchOnwards(env: Env, run: seq<Session>, n: nat)
    requires env.Ok() && SharedRun(env, run) && n + 1 < |run| && BatchInv(env, run[n])
    ensures BatchInv(env, run[n + 1])
  {
    RunKeeps(env, run, n);
    StepInRun(env, run, n);
    NextBatch(env, run[n], run[n + 1]);
  }

  // ----- chunk files

  /** The request has written its first block. */
  predicate Wrote(stage: Stage) {
    match stage
    case Writing(n) => n > 0
    case Done => true
    case _ => false
  }

  /** Once gather has passed a chunk its file is there iff gather found nothing and something
      has been written since. */
  predicate LeftOk(s: Session, j: nat)
    requires j < |s.reqs|
  {
    Gathered(s.client, j) ==>
      j < |s.got| && (j in s.chunks <==> s.got[j] == 0 && Wrote(s.reqs[j].stage)) && (s.got[j] > 0 ==> Wrote(s.reqs[j].stage))
  }

  predicate LeftInv(s: Session) {
    && (s.client == Finished ==> TerminalBefore(s, |s.reqs|))
    && (forall j :: j in s.chunks ==> j < |s.reqs|)
    && forall j :: 0 <= j < |s.reqs| ==> LeftOk(s, j)
  }

  /** A step of request i that writes nothing. */
  lemma QuietLeft(env: Env, s: Session, s': Session, i: nat)
    requires env.Ok() && LeftInv(s) && OneRequest(s, s', i) && s'.chunks == s.chunks
    requires Wrote(s.reqs[i].stage) == Wrote(s'.reqs[i].stage) && !Terminal(s.reqs[i].stage)
    ensures LeftInv(s')
  {
    forall j | 0 <= j < |s'.reqs|
      ensures LeftOk(s', j)
    {
      assert LeftOk(s, j);
    }
  }

  lemma WriteLeft(env: Env, s: Session, s': Session, i: nat)
    requires env.Ok() && LeftInv(s) && i < |s.reqs| && WriteStep(env, s, s', i)
    ensures LeftInv(s')
  {
    DecryptCoversIff(env.p.eachNum, env.p.runningThreads);
    forall j | 0 <= j < |s'.reqs|
      ensures LeftOk(s', j)
    {
      assert LeftOk(s, j);
    }
  }

  lemma RequestLeft(env: Env, s: Session, s': Session, i: nat)
    requires env.Ok() && LeftInv(s) && RequestStep(env, s, s', i)
    ensures LeftInv(s')
  {
    RequestStages(env, s, s', i);
    if WriteStep(env, s, s', i) {
      WriteLeft(env, s, s', i);
    } else {
      NotWriting(env, s, s', i);
      QuietLeft(env, s, s', i);
    }
  }

  lemma NotWriting(env: Env, s: Session, s': Session, i: nat)
    requires env.Ok() && i < |s.reqs| && (ServeStep(env, s, s', i) || CountStep(env, s, s', i) || MoveStep(env, s, s', i))
    ensures i < |s'.reqs| && s'.chunks == s.chunks && !Wrote(s.reqs[i].stage) && !Wrote(s'.reqs[i].stage)
  {
    if ServeStep(env, s, s', i) {
      ServeShape(env, s, s', i);
    }
  }

  lemma GatherLeft(env: Env, s: Session, s': Session)
    requires env.Ok() && Inv(env, s) && LeftInv(s) && s.client.Gathering? && s.client.num < s.clientCount
    requires s' == ReadChunk(env, s, s.client.num)
    ensures LeftInv(s')
  {
    var num := s.client.num;
    ChunkFits(env, num);
    GatherGot(env, s, s');
    assert ChunkOk(env, s, num);
    if num in s.chunks {
      FileNotEmpty(env, s, num);
    }
    forall j | 0 <= j < |s'.reqs|
      ensures LeftOk(s', j)
    {
      assert LeftOk(s, j);
    }
  }

  lemma FileNotEmpty(env: Env, s: Session, num: nat)
    requires env.Ok() && num < |s.reqs| && ChunkOk(env, s, num) && num in s.chunks
    ensures |s.chunks[num]| > 0 && Wrote(s.reqs[num].stage)
  {
  }

  lemma ClientLeft(env: Env, s: Session, s': Session)
    requires env.Ok() && Inv(env, s) && LeftInv(s) && ClientStep(env, s, s')
    ensures LeftInv(s')
  {
    if s.client.Gathering? && s.client.num < s.clientCount {
      GatherLeft(env, s, s');
    } else {
      forall j | 0 <= j < |s'.reqs|
        ensures LeftOk(s', j)
      {
        assert LeftOk(s, j);
      }
    }
  }

  lemma NextLeft(env: Env, s: Session, s': Session)
    requires env.Ok() && Inv(env, s) && LeftInv(s) && Next(env, s, s')
    ensures LeftInv(s')
  {
    if ClientStep(env, s, s') {
      ClientLeft(env, s, s');
    } else {
      var i: nat :| RequestStep(env, s, s', i) || RequestFault(s, s', i);
      if RequestStep(env, s, s', i) {
        RequestLeft(env, s, s', i);
      } else {
        QuietLeft(env, s, s', i);
      }
    }
  }

  lemma {:induction false} RunLeft(env: Env, run: seq<Session>, n: nat)
    requires env.Ok() && SharedRun(env, run) && n < |run|
    ensures LeftInv(run[n])
    decreases n
  {
    if n > 0 {
      RunLeft(env, run, n - 1);
      LeftOnwards(env, run, n - 1);
    }
  }

  lemma LeftOnwards(env: Env, run: seq<Session>, n: nat)
    requires env.Ok() && SharedRun(env, run) && n + 1 < |run| && LeftInv(run[n])
    ensures LeftInv(run[n + 1])
  {
    RunKeeps(env, run, n);
    StepInRun(env, run, n);
    NextLeft(env, run[n], run[n + 1]);
  }

  /** A finished transfer leaves exactly the chunk files that were first written after gather
      had passed them; when no request failed it leaves none. */
  lemma ChunkFilesLeft(env: Env, run: seq<Session>, n: nat)
    requires env.Ok() && SharedRun(env, run) && n < |run| && run[n].client == Finished
    ensures |run[n].got| == |run[n].reqs|
    ensures forall j: nat :: j in run[n].chunks <==> j < |run[n].reqs| && run[n].reqs[j].stage == Done && run[n].got[j] == 0
    ensures AllDone(run[n]) ==> run[n].chunks == map[]
  {
    RunLeft(env, run, n);
    RunKeeps(env, run, n);
    FinishedLeft(env, run[n]);
  }

  lemma FinishedLeft(env: Env, s: Session)
    requires env.Ok() && Inv(env, s) && LeftInv(s) && s.client == Finished
    ensures |s.got| == |s.reqs|
    ensures forall j: nat :: j in s.chunks <==> j < |s.reqs| && s.reqs[j].stage == Done && s.got[j] == 0
    ensures AllDone(s) ==> s.chunks == map[]
  {
    forall j: nat | j < |s.reqs|
      ensures j in s.chunks <==> s.reqs[j].stage == Done && s.got[j] == 0
    {
      assert LeftOk(s, j) && Terminal(s.reqs[j].stage);
    }
  }
}
