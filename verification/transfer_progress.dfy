/** Every transfer ends: no run is longer than a bound, no run is stuck before it is finished,
    and without faults no request ever fails. Hence a transfer that is left alone stores the
    secret on both nodes. */
module TransferProgress {
  import opened Arith
  import opened Bits
  import opened Lwe
  import opened SecretFile
  import opened Tiling
  import opened Transfer
  import opened TransferInvariant
  import opened TransferTheorems
  import opened Wrappers

  // ----- a bound on the length of a run

  /** How many steps a request may still take. */
  function StageRank(each: nat, stage: Stage): nat {
    match stage
    case Idle => each + 13
    case Sent => each + 12
    case Guarded => each + 11
    case Opening => each + 10
    case Reading => each + 9
    case Encrypting => each + 8
    case Counting => each + 7
    case MoveCheck => each + 6
    case MoveRead => each + 5
    case MoveWrite => each + 4
    case MoveMark => each + 3
    case MoveRemove => each + 2
    case Writing(n) => if n <= each then each + 1 - n else 0
    case Done => 0
    case Failed => 0
  }

  function RequestRank(each: nat, reqs: seq<Request>): nat {
    if reqs == [] then 0
    else RequestRank(each, reqs[..|reqs| - 1]) + StageRank(each, reqs[|reqs| - 1].stage)
  }

  lemma {:induction false} RankUpdate(each: nat, reqs: seq<Request>, i: nat, r: Request)
    requires i < |reqs|
    ensures RequestRank(each, reqs[i := r]) + StageRank(each, reqs[i].stage)
         == RequestRank(each, reqs) + StageRank(each, r.stage)
  {
    var n := |reqs| - 1;
    if i < n {
      assert reqs[i := r][..n] == reqs[..n][i := r];
      RankUpdate(each, reqs[..n], i, r);
    } else {
      assert reqs[i := r][..n] == reqs[..n];
    }
  }

  lemma {:induction false} IdleRank(each: nat, reqs: seq<Request>)
    requires forall i :: 0 <= i < |reqs| ==> reqs[i].stage == Idle
    ensures RequestRank(each, reqs) == |reqs| * (each + 13)
  {
    if reqs != [] {
      IdleRank(each, reqs[..|reqs| - 1]);
      MulSucc(|reqs| - 1, each + 13);
    }
  }

  /** How many steps the client may still take before its next launch, total being the number
      of chunks. */
  function StepRank(total: nat, c: ClientStage, count: nat): (r: nat)
    ensures r > 0
  {
    match c
    case Dispatching(_) => total + 6
    case Draining(_) => total + 7
    case Joining(_, next) => total + 8 + (if next <= count then count - next else 0)
    case Gathering(num) => 5 + (if num <= total then total - num else 0)
    case ReportValid => 4
    case ReportInvalid => 4
    case Storing => 3
    case Removing => 3
    case Closing => 2
    case Finished => 1
  }

  /** What the launches still to come add to that. */
  function LaunchRank(total: nat, c: ClientStage, count: nat): nat {
    if Pulling(c) && count <= total then (total - count) * (total + 4) else 0
  }

  function ClientRank(total: nat, c: ClientStage, count: nat): nat {
    StepRank(total, c, count) + LaunchRank(total, c, count)
  }

  function Rank(env: Env, s: Session): nat
    requires env.Ok()
  {
    RequestRank(env.p.eachNum, s.reqs) + ClientRank(env.Total(), s.client, s.clientCount)
  }

  lemma RequestDecreases(env: Env, s: Session, s': Session, i: nat)
    requires env.Ok() && Inv(env, s) && (RequestStep(env, s, s', i) || RequestFault(s, s', i))
    ensures Rank(env, s') < Rank(env, s)
  {
    StageDecreases(env, s, s', i);
    RankUpdate(env.p.eachNum, s.reqs, i, s'.reqs[i]);
  }

  lemma StageDecreases(env: Env, s: Session, s': Session, i: nat)
    requires env.Ok() && Inv(env, s) && (RequestStep(env, s, s', i) || RequestFault(s, s', i))
    ensures i < |s.reqs| && |s'.reqs| == |s.reqs| && s'.reqs == s.reqs[i := s'.reqs[i]]
    ensures s'.client == s.client && s'.clientCount == s.clientCount
    ensures StageRank(env.p.eachNum, s'.reqs[i].stage) < StageRank(env.p.eachNum, s.reqs[i].stage)
  {
    if RequestStep(env, s, s', i) {
      RequestStages(env, s, s', i);
      assert ChunkOk(env, s, i);
      StageRankStep(env, s, s', i);
    }
  }

  lemma StageRankStep(env: Env, s: Session, s': Session, i: nat)
    requires env.Ok() && i < |s.reqs| && ChunkOk(env, s, i) && RequestStep(env, s, s', i) && |s'.reqs| == |s.reqs|
    ensures StageRank(env.p.eachNum, s'.reqs[i].stage) < StageRank(env.p.eachNum, s.reqs[i].stage)
  {
    if WriteStep(env, s, s', i) {
      DecryptCoversIff(env.p.eachNum, env.p.runningThreads);
    } else if ServeStep(env, s, s', i) {
      ServeShape(env, s, s', i);
    }
  }

  lemma DispatchDecreases(env: Env, s: Session, s': Session)
    requires env.Ok() && ClientInv(env, s) && s.client.Dispatching? && ClientStep(env, s, s')
    ensures Rank(env, s') < Rank(env, s)
  {
    var i := s.clientCount;
    DispatchShape(env, s, s');
    RankUpdate(env.p.eachNum, s.reqs, i, s'.reqs[i]);
    DispatchRank(env.Total(), s.client, i, s'.client);
  }

  lemma DispatchShape(env: Env, s: Session, s': Session)
    requires env.Ok() && ClientInv(env, s) && s.client.Dispatching? && ClientStep(env, s, s')
    ensures s.clientCount < |s.reqs| == |s'.reqs| && s'.clientCount == s.clientCount + 1
    ensures s.reqs[s.clientCount].stage == Idle && s'.reqs == s.reqs[s.clientCount := s'.reqs[s.clientCount]]
    ensures s'.reqs[s.clientCount].stage == Sent
    ensures s'.client == Dispatching(s.client.first) || s'.client == Joining(s.client.first, s.client.first)
  {
  }

  lemma DispatchRank(total: nat, c: ClientStage, count: nat, c': ClientStage)
    requires c.Dispatching? && count < total && (c'.Dispatching? || c'.Joining?)
    ensures ClientRank(total, c', count + 1) <= ClientRank(total, c, count)
  {
    MulSucc(total - count - 1, total + 4);
  }

  /** The joining loop and what follows never launch anything. */
  lemma OtherDecreases(env: Env, s: Session, s': Session)
    requires env.Ok() && ClientInv(env, s) && !s.client.Dispatching? && ClientStep(env, s, s')
    ensures s'.reqs == s.reqs && s'.clientCount == s.clientCount && (Pulling(s'.client) ==> Pulling(s.client))
    ensures StepRank(env.Total(), s'.client, s'.clientCount) < StepRank(env.Total(), s.client, s.clientCount)
  {
  }

  lemma OtherKeepsGot(env: Env, s: Session, s': Session)
    requires env.Ok() && ClientInv(env, s) && ClientStep(env, s, s') && !s.client.Dispatching?
    requires s.client.Gathering? ==> s.client.num >= s.clientCount
    ensures s'.got == s.got
    ensures Pulling(s.client) && !Pulling(s'.client) ==> s.clientCount == |s.reqs|
  {
  }

  lemma ClientDecreases(env: Env, s: Session, s': Session)
    requires env.Ok() && ClientInv(env, s) && ClientStep(env, s, s')
    ensures Rank(env, s') < Rank(env, s)
  {
    if s.client.Dispatching? {
      DispatchDecreases(env, s, s');
    } else {
      OtherDecreases(env, s, s');
    }
  }

  lemma NextDecreases(env: Env, s: Session, s': Session)
    requires env.Ok() && Inv(env, s) && Next(env, s, s')
    ensures Rank(env, s') < Rank(env, s)
  {
    if ClientStep(env, s, s') {
      ClientDecreases(env, s, s');
    } else {
      var i: nat :| RequestStep(env, s, s', i) || RequestFault(s, s', i);
      RequestDecreases(env, s, s', i);
    }
  }

  /** The longest a transfer of total chunks of each blocks can take. */
  function Longest(total: nat, each: nat): nat {
    total * (each + 13) + total * (total + 4) + total + 6
  }

  lemma InitRank(env: Env, s: Session)
    requires env.Ok() && Init(env, s)
    ensures Rank(env, s) == Longest(env.Total(), env.p.eachNum)
  {
    IdleRank(env.p.eachNum, s.reqs);
  }

  lemma {:induction false} RankFalls(env: Env, run: seq<Session>, n: nat)
    requires env.Ok() && SharedRun(env, run) && n < |run|
    ensures Rank(env, run[n]) + n <= Longest(env.Total(), env.p.eachNum)
    decreases n
  {
    if n == 0 {
      InitRank(env, run[0]);
    } else {
      RankFalls(env, run, n - 1);
      RunKeeps(env, run, n - 1);
      StepInRun(env, run, n - 1);
      NextDecreases(env, run[n - 1], run[n]);
    }
  }

  /** Whatever fails and whatever the order, no transfer goes on for ever. */
  lemma RunsAreBounded(env: Env, run: seq<Session>)
    requires env.Ok() && SharedRun(env, run)
    ensures |run| <= Longest(env.Total(), env.p.eachNum)
  {
    RankFalls(env, run, |run| - 1);
    assert Rank(env, run[|run| - 1]) > 0;
  }

  // ----- nothing gets stuck

  /** A step that no fault is needed for. */
  ghost predicate Works(env: Env, s: Session, s': Session)
    requires env.Ok()
  {
    ClientStep(env, s, s') || exists i: nat :: RequestStep(env, s, s', i)
  }

  ghost predicate Stuck(env: Env, s: Session)
    requires env.Ok()
  {
    forall s' :: !Works(env, s, s')
  }

  function NoNoise(n: nat): (e: seq<nat>)
    ensures |e| == n && AllBelow(e, 1)
  {
    seq(n, _ => 0)
  }

  /** Every chunk has an encryption: this one, without noise. */
  function AnswerTo(env: Env, key: Bytes, chunk: Bytes, k: nat): Block
    requires 4 <= env.p.q <= 256 && |chunk| == env.p.ChunkSize() && k < env.p.eachNum
  {
    var message := Slice(chunk, k, env.p.sLen);
    EncryptBlock(env.Product(key), Zeros(8 * env.p.sLen, 0), NoNoise(8 * |message|), message, env.p.q)
  }

  lemma AnswerEncrypts(env: Env, key: Bytes, chunk: Bytes, k: nat)
    requires env.Ok() && |chunk| == env.p.ChunkSize() && k < env.p.eachNum
    ensures BlockOf(env.Product(key), chunk, k, env.p.sLen, env.p.q, AnswerTo(env, key, chunk, k))
  {
    var message := Slice(chunk, k, env.p.sLen);
    assert AllBelow(NoNoise(8 * |message|), env.p.q / 2 - 1);
    assert EncryptionOf(env.Product(key), message, AnswerTo(env, key, chunk, k), env.p.q);
  }

  lemma Answers(env: Env, key: Bytes, chunk: Bytes) returns (resp: seq<Block>)
    requires env.Ok() && |chunk| == env.p.ChunkSize()
    ensures ChunkEncryption(env, key, chunk, resp)
  {
    resp := seq(env.p.eachNum, k requires 0 <= k < env.p.eachNum => AnswerTo(env, key, chunk, k));
    forall k | 0 <= k < |resp|
      ensures BlockOf(env.Product(key), chunk, k, env.p.sLen, env.p.q, resp[k])
    {
      AnswerEncrypts(env, key, chunk, k);
    }
  }

  /** A request that was sent and is not over can go on. */
  lemma RequestGoesOn(env: Env, s: Session, i: nat) returns (s': Session)
    requires env.Ok() && Inv(env, s) && i < |s.reqs| && s.reqs[i].stage != Idle && !Terminal(s.reqs[i].stage)
    ensures RequestStep(env, s, s', i)
  {
    var r := s.reqs[i];
    assert DataOk(env, s, i) && ChunkOk(env, s, i);
    match r.stage {
      case Sent => s' := SetStage(s, i, if s.waiting.Some? then Guarded else Failed);
      case Guarded => s' := SetStage(s, i, if s.secret == None then Opening else Failed);
      case Opening => s' := if s.waiting.Some? then SetData(s, i, Reading, s.waiting.value) else SetStage(s, i, Failed);
      case Reading => s' := SetData(s, i, Encrypting, ChunkOf(env, r.data, i));
      case Encrypting =>
        var resp := Answers(env, s.keyS, r.data);
        s' := SetResponse(s, i, resp);
      case Counting =>
        var count := s.count + 1;
        s' := if count >= env.Total() then SetStage(s, i, MoveCheck).(count := count, mover := Some(i))
              else SetStage(s, i, Writing(0)).(count := count);
      case MoveCheck => s' := SetStage(s, i, if s.status != UNKNOWN then Failed else MoveRead);
      case MoveRead => s' := SetData(s, i, MoveWrite, MoveBuffer(env, s.waiting));
      case MoveWrite => s' := SetStage(s, i, MoveMark).(secret := Some(r.data));
      case MoveMark => s' := SetStage(s, i, MoveRemove).(status := INVALID);
      case MoveRemove => s' := SetStage(s, i, Writing(0)).(waiting := None);
      case Writing(n) => s' := WriteGoesOn(env, s, i);
    }
  }

  lemma WriteGoesOn(env: Env, s: Session, i: nat) returns (s': Session)
    requires env.Ok() && i < |s.reqs| && s.reqs[i].stage.Writing? && DataOk(env, s, i)
    ensures WriteStep(env, s, s', i)
  {
    DecryptCoversIff(env.p.eachNum, env.p.runningThreads);
    var r := s.reqs[i];
    var n := r.stage.n;
    if n < DecryptedBlocks(env) {
      var chunks := if n == 0 || i in s.chunks
                    then Append(s.chunks, i, DecryptBlock(env.Product(s.keyC), r.resp[n], env.p.q)) else s.chunks;
      s' := SetStage(s, i, Writing(n + 1)).(chunks := chunks);
    } else {
      s' := SetStage(s, i, Done);
    }
  }

  /** The client can go on unless it waits for a request. */
  lemma ClientGoesOn(env: Env, s: Session) returns (s': Session)
    requires env.Ok() && Inv(env, s) && s.client != Finished
    requires forall i :: 0 <= i < |s.reqs| ==> s.reqs[i].stage == Idle || Terminal(s.reqs[i].stage)
    ensures ClientStep(env, s, s')
  {
    match s.client
    case Dispatching(first) =>
      var progress := s.clientCount + 1;
      var stop := progress >= env.Total() || progress - first >= env.p.clientThreads;
      var t := s.(clientCount := progress, client := if stop then Joining(first, first) else Dispatching(first));
      s' := if progress <= env.Total() && s.clientCount < |s.reqs| then SetStage(t, s.clientCount, Sent) else t;
    case Joining(first, next) =>
      var over := s.(client := if s.clientCount >= env.Total() then Gathering(0) else Draining(first));
      s' := if next < s.clientCount && next < |s.reqs| && s.reqs[next].stage == Done
            then s.(client := Joining(first, next + 1)) else over;
    case Draining(first) => s' := s.(client := Dispatching(s.clientCount));
    case Gathering(num) =>
      s' := if num < s.clientCount then ReadChunk(env, s, num)
            else s.(client := if CrcOk(env.crc, s.buffer) then ReportValid else ReportInvalid);
    case ReportValid => s' := s.(status := VALID, client := Storing);
    case Storing => s' := s.(clientFile := Some(s.buffer), client := Closing);
    case ReportInvalid => s' := s.(status := INVALID, client := Removing);
    case Removing => s' := s.(secret := None, client := Closing);
    case Closing => s' := s.(client := Finished);
  }

  /** A transfer that is not finished has a next step, with or without failed requests. */
  lemma NoDeadlock(env: Env, run: seq<Session>) returns (s': Session)
    requires env.Ok() && SharedRun(env, run) && run[|run| - 1].client != Finished
    ensures Works(env, run[|run| - 1], s')
  {
    var s := run[|run| - 1];
    RunKeeps(env, run, |run| - 1);
    if i :| 0 <= i < |s.reqs| && s.reqs[i].stage != Idle && !Terminal(s.reqs[i].stage) {
      s' := RequestGoesOn(env, s, i);
      assert RequestStep(env, s, s', i);
    } else {
      s' := ClientGoesOn(env, s);
    }
  }

  // ----- without faults

  ghost predicate FaultFree(env: Env, run: seq<Session>)
    requires env.Ok()
  {
    SharedRun(env, run) && forall n :: 0 <= n < |run| - 1 ==> WorksAt(env, run, n)
  }

  ghost predicate WorksAt(env: Env, run: seq<Session>, n: nat)
    requires env.Ok() && n < |run| - 1
  {
    Works(env, run[n], run[n + 1])
  }

  /** No step of the protocol makes a request fail: the guards of getData and of move hold. */
  lemma WorksKeepsSuccess(env: Env, s: Session, s': Session)
    requires env.Ok() && Inv(env, s) && !SomeFailed(s) && Works(env, s, s')
    ensures !SomeFailed(s')
  {
    if ClientStep(env, s, s') {
      LaunchSucceeds(env, s, s');
    } else {
      var i: nat :| RequestStep(env, s, s', i);
      RequestStages(env, s, s', i);
      RequestSucceeds(env, s, s', i);
    }
  }

  lemma LaunchSucceeds(env: Env, s: Session, s': Session)
    requires env.Ok() && ClientInv(env, s) && !SomeFailed(s) && ClientStep(env, s, s')
    ensures !SomeFailed(s')
  {
    if s.client.Dispatching? {
      DispatchShape(env, s, s');
    } else {
      OtherDecreases(env, s, s');
    }
  }

  lemma RequestSucceeds(env: Env, s: Session, s': Session, i: nat)
    requires env.Ok() && CountInv(env, s) && ServerInv(s) && ClientInv(env, s) && RequestStep(env, s, s', i)
    ensures i < |s'.reqs| && s'.reqs[i].stage != Failed
  {
    if ServeStep(env, s, s', i) {
      ServeSucceeds(env, s, s', i);
    } else if MoveStep(env, s, s', i) {
      MoveStatus(env, s, i);
    }
  }

  lemma ServeSucceeds(env: Env, s: Session, s': Session, i: nat)
    requires env.Ok() && CountInv(env, s) && ServerInv(s) && i < |s.reqs| && ServeStep(env, s, s', i)
    ensures i < |s'.reqs| && s'.reqs[i].stage != Failed
  {
    NotAllCounted(s.reqs, i);
    assert s.mover == None;
  }

  lemma WorkInRun(env: Env, run: seq<Session>, n: nat)
    requires env.Ok() && FaultFree(env, run) && n < |run| - 1
    ensures Works(env, run[n], run[n + 1])
  {
    assert WorksAt(env, run, n);
  }

  lemma FaultFreeStep(env: Env, run: seq<Session>, n: nat)
    requires env.Ok() && FaultFree(env, run) && n < |run| - 1 && !SomeFailed(run[n])
    ensures !SomeFailed(run[n + 1])
  {
    RunKeeps(env, run, n);
    WorkInRun(env, run, n);
    WorksKeepsSuccess(env, run[n], run[n + 1]);
  }

  lemma {:induction false} FaultFreeNeverFails(env: Env, run: seq<Session>, n: nat)
    requires env.Ok() && FaultFree(env, run) && n < |run|
    ensures !SomeFailed(run[n])
    decreases n
  {
    if n > 0 {
      FaultFreeNeverFails(env, run, n - 1);
      FaultFreeStep(env, run, n - 1);
    }
  }

  /** Total correctness: a fault-free transfer that can go no further, and by the bound every
      transfer gets there, has the secret VALID and in both stores. */
  lemma LeftAloneItSucceeds(env: Env, run: seq<Session>)
    requires env.Ok() && FaultFree(env, run) && Stuck(env, run[|run| - 1])
    ensures run[|run| - 1].client == Finished && run[|run| - 1].status == VALID
    ensures run[|run| - 1].secret == Some(run[0].file) && run[|run| - 1].clientFile == Some(run[0].file)
  {
    var n: nat := |run| - 1;
    if run[n].client != Finished {
      var s' := NoDeadlock(env, run);
      assert false;
    }
    FaultFreeNeverFails(env, run, n);
    RunKeeps(env, run, n);
    assert AllDone(run[n]);
    TransferCorrect(env, run, n);
  }
}
