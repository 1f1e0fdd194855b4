/** What a transfer guarantees, over every run with a common running key. */
module TransferTheorems {
  import opened Arith
  import opened Bits
  import opened Lwe
  import opened SecretFile
  import opened Tiling
  import opened Transfer
  import opened TransferInvariant
  import opened Wrappers

  ghost predicate SharedRun(env: Env, run: seq<Session>)
    requires env.Ok()
  {
    Run(env, run) && run[0].keyS == run[0].keyC
  }

  /** The state that the generator leaves behind, with one key for both nodes. */
  function Fresh(env: Env, key: Bytes, file: Bytes): Session
    requires env.Ok()
  {
    Session(key, key, file, Some(file), None, UNKNOWN, 0, None, seq<Request>(env.Total(), _ => Request(Idle, [], [])),
            Dispatching(0), 0, map[], Zeros(env.p.secretSize, 0), [], None)
  }

  lemma FreshRun(env: Env, key: Bytes, file: Bytes)
    requires env.Ok() && |file| == env.p.secretSize >= CRC_LEN && CrcOk(env.crc, file)
    ensures SharedRun(env, [Fresh(env, key, file)])
  {
  }

  lemma {:induction false} FileNeverChanges(env: Env, run: seq<Session>, n: nat)
    requires env.Ok() && Run(env, run) && n < |run|
    ensures run[n].file == run[0].file && run[n].keyS == run[0].keyS && run[n].keyC == run[0].keyC
    decreases n
  {
    if n > 0 {
      FileNeverChanges(env, run, n - 1);
      StepInRun(env, run, n - 1);
      StepKeepsFile(env, run[n - 1], run[n]);
    }
  }

  lemma StepKeepsFile(env: Env, s: Session, s': Session)
    requires env.Ok() && Next(env, s, s')
    ensures s'.file == s.file && s'.keyS == s.keyS && s'.keyC == s.keyC
  {
    if !ClientStep(env, s, s') {
      var i: nat :| RequestStep(env, s, s', i) || RequestFault(s, s', i);
      if RequestStep(env, s, s', i) {
        RequestConstants(env, s, s', i);
      }
    }
  }

  /** If every request succeeds, then whatever the order of requests, threads and steps and
      whatever s and noise are drawn, gather reassembles the server's secret, the report is
      VALID, and both stores end up with exactly that file. */
  lemma TransferCorrect(env: Env, run: seq<Session>, n: nat)
    requires env.Ok() && SharedRun(env, run) && n < |run|
    requires run[n].client == Finished && AllDone(run[n])
    ensures run[n].buffer == run[0].file && run[n].status == VALID && run[n].waiting == None
    ensures run[n].secret == Some(run[0].file) && run[n].clientFile == Some(run[0].file)
  {
    RunKeeps(env, run, n);
    FileNeverChanges(env, run, n);
    AllDoneMoved(env, run[n]);
    AllGot(env, run[n]);
  }

  lemma AllDoneMoved(env: Env, s: Session)
    requires env.Ok() && CountInv(env, s) && AllDone(s)
    ensures s.mover.Some? && MoverStage(s) == Done
  {
    AllCounted(s.reqs);
  }

  lemma {:induction false} AllCounted(reqs: seq<Request>)
    requires forall i :: 0 <= i < |reqs| ==> Counted(reqs[i].stage)
    ensures CountedIn(reqs) == |reqs|
  {
    if reqs != [] {
      AllCounted(reqs[..|reqs| - 1]);
    }
  }

  predicate BeforeIncrement(stage: Stage) {
    stage.Sent? || stage.Guarded? || stage.Opening? || stage.Reading? || stage.Encrypting? || stage.Counting?
  }

  /** The guards never fire on a fresh index: a request that checks, opens or reads the
      waiting file finds it, one that checks the secret file does not find it, and move
      finds no status yet. */
  lemma WaitingFilePresent(env: Env, run: seq<Session>, n: nat, i: nat)
    requires env.Ok() && SharedRun(env, run) && n < |run| && i < |run[n].reqs|
    ensures BeforeIncrement(run[n].reqs[i].stage) ==> run[n].waiting == Some(run[n].file) && run[n].secret == None
    ensures Moving(run[n].reqs[i].stage) ==> run[n].waiting == Some(run[n].file)
    ensures run[n].reqs[i].stage.MoveCheck? ==> run[n].status == UNKNOWN
  {
    RunKeeps(env, run, n);
    var s := run[n];
    if BeforeIncrement(s.reqs[i].stage) {
      NotAllCounted(s.reqs, i);
    } else if Moving(s.reqs[i].stage) {
      MoveStatus(env, s, i);
    }
  }

  /** Until its increment a request may fail at any step; afterwards only move's look at the
      status can fail it. */
  lemma FailsUntilCounted(env: Env, s: Session, s': Session, i: nat)
    requires env.Ok() && i < |s.reqs| && s.reqs[i].stage != Failed
    ensures BeforeIncrement(s.reqs[i].stage) ==> Next(env, s, SetStage(s, i, Failed))
    ensures RequestStep(env, s, s', i) && Counted(s.reqs[i].stage) && i < |s'.reqs| && s'.reqs[i].stage == Failed
      ==> s.reqs[i].stage.MoveCheck? && s.status != UNKNOWN
  {
    if BeforeIncrement(s.reqs[i].stage) {
      assert RequestFault(s, SetStage(s, i, Failed), i);
    } else if MoveStep(env, s, s', i) {
      MoveShape(env, s, s', i);
    }
  }

  /** At most one request ever moves, and only after every request has read its chunk and
      made its increment; while it moves, nothing has been reported. */
  lemma MoveOnceAfterAllReads(env: Env, run: seq<Session>, n: nat, i: nat)
    requires env.Ok() && SharedRun(env, run) && n < |run| && i < |run[n].reqs| && Moving(run[n].reqs[i].stage)
    ensures forall j :: 0 <= j < |run[n].reqs| ==> Counted(run[n].reqs[j].stage)
    ensures forall j :: 0 <= j < |run[n].reqs| && Moving(run[n].reqs[j].stage) ==> j == i
    ensures run[n].status != VALID && Pulling(run[n].client)
  {
    RunKeeps(env, run, n);
    var s := run[n];
    MoveStatus(env, s, i);
    forall j | 0 <= j < |s.reqs|
      ensures Counted(s.reqs[j].stage)
    {
      if !Counted(s.reqs[j].stage) {
        NotAllCounted(s.reqs, j);
      }
    }
  }

  /** What a step must not take back. */
  predicate Keeps(s: Session, s': Session) {
    && (s.status == VALID ==> s'.status == VALID)
    && (s.mover.Some? ==> s'.mover == s.mover)
    && s.got <= s'.got
  }

  lemma RequestVerdictStep(env: Env, s: Session, s': Session, i: nat)
    requires env.Ok() && CountInv(env, s) && ServerInv(s) && ClientInv(env, s) && RequestStep(env, s, s', i)
    ensures Keeps(s, s')
  {
    RequestStages(env, s, s', i);
    if ServeStep(env, s, s', i) {
      ServeShape(env, s, s', i);
    } else if CountStep(env, s, s', i) {
      CountStepCount(env, s, s', i);
    } else if MoveStep(env, s, s', i) {
      MoveStatus(env, s, i);
    }
  }

  lemma ClientVerdictStep(env: Env, s: Session, s': Session)
    requires env.Ok() && VerdictInv(env, s) && ServerInv(s) && ClientStep(env, s, s')
    ensures Keeps(s, s')
  {
    ClientKeepsGot(env, s, s');
    ClientKeepsValid(env, s, s');
  }

  lemma ClientKeepsGot(env: Env, s: Session, s': Session)
    requires env.Ok() && ClientStep(env, s, s')
    ensures s.got <= s'.got && s'.mover == s.mover
  {
  }

  lemma ClientKeepsValid(env: Env, s: Session, s': Session)
    requires env.Ok() && VerdictInv(env, s) && ServerInv(s) && ClientStep(env, s, s')
    ensures s.status == VALID ==> s'.status == VALID
  {
  }

  lemma VerdictStep(env: Env, s: Session, s': Session)
    requires env.Ok() && Inv(env, s) && Next(env, s, s')
    ensures Keeps(s, s')
  {
    if ClientStep(env, s, s') {
      ClientVerdictStep(env, s, s');
    } else {
      var i: nat :| RequestStep(env, s, s', i) || RequestFault(s, s', i);
      if RequestStep(env, s, s', i) {
        RequestVerdictStep(env, s, s', i);
      }
    }
  }

  lemma StepInRunKeeps(env: Env, run: seq<Session>, m: nat)
    requires env.Ok() && SharedRun(env, run) && m + 1 < |run|
    ensures Keeps(run[m], run[m + 1])
  {
    RunKeeps(env, run, m);
    StepInRun(env, run, m);
    VerdictStep(env, run[m], run[m + 1]);
  }

  lemma {:induction false} ChainKeeps(run: seq<Session>, n: nat, m: nat)
    requires n <= m < |run| && forall k: nat :: k + 1 < |run| ==> Keeps(run[k], run[k + 1])
    ensures Keeps(run[n], run[m])
    decreases m - n
  {
    if n < m {
      ChainKeeps(run, n, m - 1);
      assert Keeps(run[m - 1], run[m - 1 + 1]);
    }
  }

  /** The VALID report is final, move's INVALID never overwrites it, and the mover is chosen
      once for the whole run. */
  lemma VerdictIsFinal(env: Env, run: seq<Session>, n: nat, m: nat)
    requires env.Ok() && SharedRun(env, run) && n <= m < |run|
    ensures run[n].status == VALID ==> run[m].status == VALID
    ensures run[n].mover.Some? ==> run[m].mover == run[n].mover
  {
    RunKeepsAll(env, run, n, m);
  }

  lemma RunKeepsAll(env: Env, run: seq<Session>, n: nat, m: nat)
    requires env.Ok() && SharedRun(env, run) && n <= m < |run|
    ensures Keeps(run[n], run[m])
  {
    forall k: nat | k + 1 < |run|
      ensures Keeps(run[k], run[k + 1])
    {
      StepInRunKeeps(env, run, k);
    }
    ChainKeeps(run, n, m);
  }

  lemma GotStays(env: Env, run: seq<Session>, n: nat, m: nat)
    requires env.Ok() && SharedRun(env, run) && n <= m < |run|
    ensures run[n].got <= run[m].got
  {
    RunKeepsAll(env, run, n, m);
  }

  /** If some request fails, the secret is never moved: it stays in the waiting directory. */
  lemma FailedNeverMoves(env: Env, run: seq<Session>, n: nat)
    requires env.Ok() && SharedRun(env, run) && n < |run| && SomeFailed(run[n])
    ensures run[n].mover == None && run[n].secret == None && run[n].waiting == Some(run[0].file)
  {
    RunKeeps(env, run, n);
    FileNeverChanges(env, run, n);
    var f :| 0 <= f < |run[n].reqs| && run[n].reqs[f].stage == Failed;
    NotAllCounted(run[n].reqs, f);
  }

  // ----- what arrived

  /** At every moment gather's buffer is the secret with what it has not found zeroed. What it
      has found are whole blocks, and none of a chunk whose request failed. */
  lemma BufferIsWhatArrived(env: Env, run: seq<Session>, n: nat)
    requires env.Ok() && SharedRun(env, run) && n < |run|
    ensures run[n].buffer == Received(env, run[0].file, run[n].got)
    ensures |run[n].got| <= |run[n].reqs| == env.Total()
    ensures forall j :: 0 <= j < |run[n].got| ==> run[n].got[j] <= env.p.ChunkSize() && WholeBlocks(env, run[n].got[j])
    ensures forall j :: 0 <= j < |run[n].got| && run[n].reqs[j].stage == Failed ==> run[n].got[j] == 0
  {
    RunKeeps(env, run, n);
    FileNeverChanges(env, run, n);
    BufferIsReceived(env, run[n]);
  }

  /** What gather puts into its buffer from chunk j is what is in that chunk file when it gets
      there; whatever arrives later is lost. */
  lemma OneLook(env: Env, run: seq<Session>, m: nat, n: nat)
    requires env.Ok() && SharedRun(env, run) && m < n < |run|
    requires run[m].client.Gathering? && run[m].client.num < env.Total()
    requires run[m + 1].client == Gathering(run[m].client.num + 1)
    ensures var j := run[m].client.num;
            j < |run[n].got| && run[n].got[j] == if j in run[m].chunks then |run[m].chunks[j]| else 0
  {
    RunKeeps(env, run, m);
    StepInRun(env, run, m);
    LookStep(env, run[m], run[m + 1]);
    GotStays(env, run, m + 1, n);
  }

  lemma LookStep(env: Env, s: Session, s': Session)
    requires env.Ok() && Inv(env, s) && Next(env, s, s') && s.client.Gathering? && s.client.num < env.Total()
    requires s'.client == Gathering(s.client.num + 1)
    ensures var j := s.client.num;
            |s.got| == j && s'.got == s.got + [if j in s.chunks then |s.chunks[j]| else 0]
  {
    var j := s.client.num;
    OnlyGatherGathers(env, s, s');
    assert ChunkOk(env, s, j);
    if j in s.chunks {
      ChunkFileIsPiece(env, s, j);
    }
    GatherGot(env, s, s');
  }

  lemma OnlyGatherGathers(env: Env, s: Session, s': Session)
    requires env.Ok() && Inv(env, s) && Next(env, s, s') && s.client.Gathering? && s'.client != s.client
    requires s.client.num < env.Total()
    ensures s' == ReadChunk(env, s, s.client.num)
  {
    if !ClientStep(env, s, s') {
      var i: nat :| RequestStep(env, s, s', i) || RequestFault(s, s', i);
      if RequestStep(env, s, s', i) {
        RequestStages(env, s, s', i);
      }
    }
  }

  lemma LastByteZero(env: Env, s: Session)
    requires env.Ok() && BufferInv(env, s) && Got(env, s.got, env.Total() - 1) < env.p.ChunkSize()
    ensures |s.buffer| > 0 && s.buffer[|s.buffer| - 1] == 0
  {
    var last, c := env.Total() - 1, env.p.ChunkSize();
    ChunkFits(env, last);
    MulSucc(last, c);
    assert last * c + (c - 1) == |s.buffer| - 1;
    assert ChunkOf(env, s.buffer, last)[c - 1] == s.buffer[last * c + (c - 1)];
    assert Piece(ChunkOf(env, s.file, last), Got(env, s.got, last))[c - 1] == 0;
  }

  /** If the last chunk was missing or incomplete when gather came to it, the report is
      INVALID and nothing is stored on either side, whatever the checksum function is and
      whatever becomes of the request that was to bring it. */
  lemma LastChunkIncomplete(env: Env, run: seq<Session>, m: nat, n: nat)
    requires env.Ok() && SharedRun(env, run) && m < n < |run|
    requires run[m].client == Gathering(env.Total() - 1) && run[m + 1].client == Gathering(env.Total())
    requires env.Total() - 1 in run[m].chunks ==> |run[m].chunks[env.Total() - 1]| < env.p.ChunkSize()
    requires run[n].client == Finished
    ensures run[n].status == INVALID && run[n].clientFile == None && run[n].secret == None
  {
    OneLook(env, run, m, n);
    RunKeeps(env, run, n);
    LastChunkShort(env, run[n]);
  }

  lemma LastChunkShort(env: Env, s: Session)
    requires env.Ok() && Inv(env, s) && s.client == Finished && Got(env, s.got, env.Total() - 1) < env.p.ChunkSize()
    ensures s.status == INVALID && s.clientFile == None && s.secret == None
  {
    LastByteZero(env, s);
    ZeroTailRejected(env.crc, s.buffer);
    FinishedAgrees(env, s);
  }

  /** An INVALID report never finds a file to remove on the server. */
  lemma NothingToRemove(env: Env, run: seq<Session>, n: nat)
    requires env.Ok() && SharedRun(env, run) && n < |run|
    requires run[n].client.ReportInvalid? || run[n].client.Removing?
    ensures run[n].secret == None && run[n].waiting == Some(run[0].file)
  {
    RunKeeps(env, run, n);
    FileNeverChanges(env, run, n);
    InvalidNeverMoved(env, run[n]);
  }

  /** In particular when the request for the last chunk is the one that failed. */
  lemma LastChunkMissing(env: Env, run: seq<Session>, n: nat)
    requires env.Ok() && SharedRun(env, run) && n < |run| && run[n].client == Finished
    requires |run[n].reqs| > 0 && run[n].reqs[|run[n].reqs| - 1].stage == Failed
    ensures run[n].status == INVALID && run[n].clientFile == None && run[n].secret == None
  {
    RunKeeps(env, run, n);
    LastChunkShort(env, run[n]);
  }

  // ----- the key

  predicate DifferAt(a: Bytes, b: Bytes, i: nat) {
    i < 8 * |a| && i < 8 * |b| && Unpack(a)[i] != Unpack(b)[i]
  }

  /** A node with another running key does not get the secret: wherever key' * s is half of Q
      away from key * s, it decrypts the other bit. */
  lemma WrongKeyFlips(env: Env, key: Bytes, key': Bytes, chunk: Bytes, resp: seq<Block>, k: nat, i: nat)
    requires env.Ok() && |chunk| == env.p.ChunkSize() && ChunkEncryption(env, key, chunk, resp) && k < |resp| && i < 8 * env.p.sLen
    requires IsHalfOff(env.matmul(key, resp[k].s, i), env.matmul(key', resp[k].s, i), env.p.q)
    ensures DifferAt(DecryptBlock(env.Product(key'), resp[k], env.p.q), Slice(chunk, k, env.p.sLen), i)
  {
    assert BlockOf(env.Product(key), chunk, k, env.p.sLen, env.p.q, resp[k]);
    HalfOffDecrypts(env.Product(key), env.Product(key'), Slice(chunk, k, env.p.sLen), resp[k], env.p.q, i);
  }

  // ----- agreement

  /** A VALID index has the same file in both stores. */
  predicate Agrees(s: Session) {
    s.status == VALID ==> s.secret.Some? && s.clientFile == s.secret
  }

  /** The checksum accepts the secret with the pieces zeroed that did not arrive. */
  ghost predicate Unnoticed(env: Env, s: Session)
    requires env.Ok() && env.p.secretSize >= CRC_LEN
  {
    CrcOk(env.crc, Received(env, s.file, s.got))
  }

  lemma FinishedAgrees(env: Env, s: Session)
    requires env.Ok() && Inv(env, s) && s.client == Finished
    ensures env.p.secretSize >= CRC_LEN
    ensures s.status == if Unnoticed(env, s) then VALID else INVALID
    ensures Agrees(s) <==> AllDone(s) || !Unnoticed(env, s)
    ensures AllDone(s) ==> s.status == VALID && s.secret == Some(s.file) && s.clientFile == Some(s.file)
    ensures !AllDone(s) ==> s.secret == None
    ensures s.clientFile == if s.status == VALID then Some(Received(env, s.file, s.got)) else None
  {
    BufferIsReceived(env, s);
    if AllDone(s) {
      AllDoneMoved(env, s);
      AllGot(env, s);
    } else {
      var f :| 0 <= f < |s.reqs| && s.reqs[f].stage == Failed;
      NotAllCounted(s.reqs, f);
    }
  }

  /** Exactly when a finished transfer leaves the two nodes in agreement: when no request
      failed, or when the checksum rejects the secret with the lost pieces zeroed. */
  lemma AgreesIff(env: Env, run: seq<Session>, n: nat)
    requires env.Ok() && SharedRun(env, run) && n < |run| && run[n].client == Finished
    ensures |run[n].got| == env.Total() && env.p.secretSize >= CRC_LEN
    ensures var arrived := Received(env, run[0].file, run[n].got);
            (run[n].status == VALID <==> CrcOk(env.crc, arrived))
            && (Agrees(run[n]) <==> AllDone(run[n]) || !CrcOk(env.crc, arrived))
  {
    RunKeeps(env, run, n);
    FileNeverChanges(env, run, n);
    FinishedAgrees(env, run[n]);
  }

  /** When all that got lost was zeros, no checksum can notice, and agreement is broken. */
  lemma LostZerosBreak(env: Env, s: Session)
    requires env.Ok() && Inv(env, s) && s.client == Finished && !AllDone(s) && Received(env, s.file, s.got) == s.file
    ensures s.status == VALID && s.clientFile == Some(s.file) && s.secret == None && !Agrees(s)
  {
    FinishedAgrees(env, s);
  }

  /** At any moment of a transfer without failures: once the index is VALID the server holds
      the secret, and the client holds it too or is just about to write it. */
  lemma ValidMeansStored(env: Env, run: seq<Session>, n: nat)
    requires env.Ok() && SharedRun(env, run) && n < |run| && run[n].status == VALID && !SomeFailed(run[n])
    ensures run[n].secret == Some(run[0].file)
    ensures run[n].clientFile == Some(run[0].file) || (run[n].client == Storing && run[n].buffer == run[0].file)
  {
    RunKeeps(env, run, n);
    FileNeverChanges(env, run, n);
    ValidIsStored(env, run[n]);
  }

  lemma ValidIsStored(env: Env, s: Session)
    requires env.Ok() && Inv(env, s) && s.status == VALID && !SomeFailed(s)
    ensures s.secret == Some(s.file)
    ensures s.clientFile == Some(s.file) || (s.client == Storing && s.buffer == s.file)
  {
    AllDoneMoved(env, s);
    AllGot(env, s);
  }
}
