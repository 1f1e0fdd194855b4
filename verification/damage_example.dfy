/** Transfers that break agreement. The first chunk is all zero and its request fails, so the
    zeros that gather starts from happen to be right and the checksum passes, while the server,
    one increment short, never moves the secret. */
module DamageExample {
  import opened Arith
  import opened Bits
  import opened SecretFile
  import opened Sequences
  import opened Transfer
  import opened TransferInvariant
  import opened TransferProgress
  import opened TransferTheorems
  import opened Wrappers

  /** A proper secret whose first chunk is zero. */
  ghost predicate ZeroHead(env: Env, file: Bytes) {
    |file| == env.p.secretSize >= CRC_LEN && CrcOk(env.crc, file)
    && ChunkOf(env, file, 0) == Zeros(env.p.ChunkSize(), 0)
  }

  lemma TwoChunks(env: Env)
    requires env.Ok() && env.Total() >= 2
    ensures env.p.secretSize >= 2 * env.p.ChunkSize() >= env.p.ChunkSize() + CRC_LEN
  {
    MulMonotone(2, env.Total(), env.p.ChunkSize());
  }

  lemma ZeroSecret(env: Env) returns (file: Bytes)
    requires env.Ok() && env.Total() >= 2
    ensures ZeroHead(env, file)
  {
    TwoChunks(env);
    var body := Zeros(env.p.secretSize - CRC_LEN, 0);
    file := body + Trailer(env.crc(body));
    TrailerReadsBack(env.crc(body));
    assert file[..|file| - CRC_LEN] == body && file[|file| - CRC_LEN..] == Trailer(env.crc(body));
  }

  ghost predicate Reaches(env: Env, s: Session)
    requires env.Ok()
  {
    exists run: seq<Session> :: SharedRun(env, run) && Last(run) == s
  }

  lemma Step(env: Env, s: Session, s': Session)
    requires env.Ok() && Reaches(env, s) && Next(env, s, s')
    ensures Reaches(env, s')
  {
    var run: seq<Session> :| SharedRun(env, run) && Last(run) == s;
    var longer := run + [s'];
    forall n | 0 <= n < |longer| - 1
      ensures StepAt(env, longer, n)
    {
      if n < |run| - 1 {
        assert StepAt(env, run, n);
      }
    }
    assert SharedRun(env, longer) && Last(longer) == s';
  }

  lemma ReachedInv(env: Env, s: Session)
    requires env.Ok() && Reaches(env, s)
    ensures Inv(env, s)
  {
    var run: seq<Session> :| SharedRun(env, run) && Last(run) == s;
    RunKeeps(env, run, |run| - 1);
  }

  // ----- only the first request fails

  /** The first request has failed, no other; once gather is at work all others are done, and
      it finds everything but the first chunk. */
  predicate Doomed(env: Env, s: Session) {
    && s.reqs != [] && s.reqs[0].stage == Failed && (forall j :: 0 < j < |s.reqs| ==> s.reqs[j].stage != Failed)
    && (!Pulling(s.client) ==> forall j :: 0 < j < |s.reqs| ==> s.reqs[j].stage == Done)
    && (forall j :: 0 <= j < |s.got| ==> s.got[j] == if j == 0 then 0 else env.p.ChunkSize())
  }

  /** The first request is launched and fails. */
  lemma FirstFails(env: Env, file: Bytes) returns (s: Session)
    requires env.Ok() && ZeroHead(env, file)
    ensures Reaches(env, s) && Doomed(env, s) && s.file == file
  {
    var s0 := Fresh(env, [], file);
    FreshRun(env, [], file);
    assert Last([s0]) == s0;
    ReachedInv(env, s0);
    var s1 := ClientGoesOn(env, s0);
    Step(env, s0, s1);
    DispatchShape(env, s0, s1);
    s := SetStage(s1, 0, Failed);
    assert RequestFault(s1, s, 0);
    Step(env, s1, s);
    StepKeepsFile(env, s0, s1);
    FirstLaunch(env, s0, s1);
  }

  lemma FirstLaunch(env: Env, s0: Session, s1: Session)
    requires env.Ok() && s0.client == Dispatching(0) && s0.clientCount == 0 && |s0.reqs| == env.Total() && s0.got == []
    requires forall i :: 0 <= i < |s0.reqs| ==> s0.reqs[i].stage == Idle
    requires ClientStep(env, s0, s1)
    ensures |s1.reqs| == |s0.reqs| && Doomed(env, SetStage(s1, 0, Failed))
  {
  }

  /** From there on the requests are served before the client moves. */
  lemma KeepDoomed(env: Env, s: Session) returns (s': Session)
    requires env.Ok() && Inv(env, s) && Doomed(env, s) && s.client != Finished
    ensures Next(env, s, s') && Doomed(env, s')
  {
    if i :| 0 <= i < |s.reqs| && s.reqs[i].stage != Idle && !Terminal(s.reqs[i].stage) {
      s' := RequestGoesOn(env, s, i);
      RequestStages(env, s, s', i);
      RequestSucceeds(env, s, s', i);
    } else {
      s' := ClientGoesOn(env, s);
      ClientKeepsDoomed(env, s, s');
    }
  }

  lemma ClientKeepsDoomed(env: Env, s: Session, s': Session)
    requires env.Ok() && Inv(env, s) && Doomed(env, s) && ClientStep(env, s, s')
    requires forall i :: 0 <= i < |s.reqs| ==> s.reqs[i].stage == Idle || Terminal(s.reqs[i].stage)
    ensures Doomed(env, s')
  {
    if s.client.Dispatching? {
      DispatchShape(env, s, s');
      LaunchKeepsGot(env, s, s');
    } else if s.client.Gathering? && s.client.num < s.clientCount {
      GatherKeepsDoomed(env, s, s');
    } else {
      OtherDecreases(env, s, s');
      OtherKeepsGot(env, s, s');
    }
  }

  lemma LaunchKeepsGot(env: Env, s: Session, s': Session)
    requires env.Ok() && s.client.Dispatching? && ClientStep(env, s, s')
    ensures s'.got == s.got
  {
  }

  lemma GatherKeepsDoomed(env: Env, s: Session, s': Session)
    requires env.Ok() && ChunkInv(env, s) && BufferInv(env, s) && Doomed(env, s) && s.client.Gathering?
    requires s.client.num < |s.reqs| && s' == ReadChunk(env, s, s.client.num)
    ensures Doomed(env, s')
  {
    var num := s.client.num;
    GatherGot(env, s, s');
    assert ChunkOk(env, s, num);
    if num > 0 {
      ChunkFileIsPiece(env, s, num);
    }
  }

  lemma {:induction false} ReachEnd(env: Env, s: Session) returns (t: Session)
    requires env.Ok() && Reaches(env, s) && Doomed(env, s)
    ensures Reaches(env, t) && Doomed(env, t) && t.client == Finished && t.file == s.file
    decreases Rank(env, s)
  {
    ReachedInv(env, s);
    if s.client == Finished {
      t := s;
    } else {
      var s' := KeepDoomed(env, s);
      Step(env, s, s');
      NextDecreases(env, s, s');
      StepKeepsFile(env, s, s');
      t := ReachEnd(env, s');
    }
  }

  /** Nothing but zeros was lost. */
  lemma NothingLost(env: Env, s: Session)
    requires env.Ok() && Doomed(env, s) && ZeroHead(env, s.file) && |s.got| == env.Total()
    ensures Received(env, s.file, s.got) == s.file
  {
    forall j | 0 <= j < env.Total()
      ensures ChunkOf(env, Received(env, s.file, s.got), j) == ChunkOf(env, s.file, j)
    {
      ReceivedSegment(env, s.file, s.got, env.Total(), j);
      var chunk := ChunkOf(env, s.file, j);
      if j == 0 {
        assert Piece(chunk, 0) == chunk;
      } else {
        assert Piece(chunk, env.p.ChunkSize()) == chunk;
      }
    }
    SegmentsEqual(env, Received(env, s.file, s.got), s.file);
  }

  /** For every configuration with more than one chunk, every checksum and every tensor
      product there is a secret and a run that ends with the index VALID, the secret stored by
      the client and not stored by the server. */
  lemma AgreementCanBreak(env: Env) returns (file: Bytes, run: seq<Session>)
    requires env.Ok() && env.Total() >= 2
    ensures SharedRun(env, run) && run[0].file == file && Last(run).client == Finished && Last(run).status == VALID
    ensures Last(run).secret == None && Last(run).clientFile == Some(file) && !Agrees(Last(run))
  {
    file := ZeroSecret(env);
    var s := FirstFails(env, file);
    var t := ReachEnd(env, s);
    DoomedBreaks(env, t);
    run :| SharedRun(env, run) && Last(run) == t;
    FileNeverChanges(env, run, |run| - 1);
  }

  lemma DoomedBreaks(env: Env, s: Session)
    requires env.Ok() && Reaches(env, s) && Doomed(env, s) && s.client == Finished && ZeroHead(env, s.file)
    ensures s.status == VALID && s.secret == None && s.clientFile == Some(s.file) && !Agrees(s)
  {
    ReachedInv(env, s);
    NothingLost(env, s);
    LostZerosBreak(env, s);
  }

  /** A single chunk carries the trailer, so its loss is always noticed. */
  lemma OneChunkAgrees(env: Env, run: seq<Session>)
    requires env.Ok() && env.Total() == 1 && SharedRun(env, run) && Last(run).client == Finished
    ensures Agrees(Last(run))
  {
    RunKeeps(env, run, |run| - 1);
    OneRequestAgrees(env, Last(run));
  }

  lemma OneRequestAgrees(env: Env, s: Session)
    requires env.Ok() && env.Total() == 1 && Inv(env, s) && s.client == Finished
    ensures Agrees(s)
  {
    FinishedAgrees(env, s);
    if !AllDone(s) {
      var f :| 0 <= f < |s.reqs| && s.reqs[f].stage == Failed;
      assert f == env.Total() - 1 && Got(env, s.got, f) == 0;
      LastChunkShort(env, s);
    }
  }

  ghost predicate CanBreak(env: Env)
    requires env.Ok()
  {
    exists run: seq<Session> :: SharedRun(env, run) && Last(run).client == Finished && !Agrees(Last(run))
  }

  /** A finished transfer can leave the nodes in disagreement exactly when a secret has more
      than one chunk. */
  lemma CanBreakIff(env: Env)
    requires env.Ok()
    ensures CanBreak(env) <==> env.Total() >= 2
  {
    if env.Total() >= 2 {
      var file, run := AgreementCanBreak(env);
    } else if run: seq<Session> :| SharedRun(env, run) && Last(run).client == Finished && !Agrees(Last(run)) {
      OneChunkAgrees(env, run);
    }
  }
}
