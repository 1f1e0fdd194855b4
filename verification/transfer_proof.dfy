/** The invariant of a transfer and its preservation by every step. */
module TransferInvariant {
  import opened Arith
  import opened Bits
  import opened Buffers
  import opened Lwe
  import opened SecretFile
  import opened Tiling
  import opened Transfer
  import opened Wrappers

  // ----- counting

  /** The request has made its increment. */
  predicate Counted(stage: Stage) {
    stage.MoveCheck? || stage.MoveRead? || stage.MoveWrite? || stage.MoveMark? || stage.MoveRemove?
    || stage.Writing? || stage.Done?
  }

  predicate Moving(stage: Stage) {
    stage.MoveCheck? || stage.MoveRead? || stage.MoveWrite? || stage.MoveMark? || stage.MoveRemove?
  }

  function CountedIn(reqs: seq<Request>): (n: nat)
    ensures n <= |reqs|
  {
    if reqs == [] then 0
    else CountedIn(reqs[..|reqs| - 1]) + (if Counted(reqs[|reqs| - 1].stage) then 1 else 0)
  }

  lemma {:induction false} CountedUpdate(reqs: seq<Request>, i: nat, r: Request)
    requires i < |reqs|
    ensures CountedIn(reqs[i := r]) + Num(Counted(reqs[i].stage)) == CountedIn(reqs) + Num(Counted(r.stage))
  {
    var n := |reqs| - 1;
    if i < n {
      assert reqs[i := r][..n] == reqs[..n][i := r];
      CountedUpdate(reqs[..n], i, r);
    } else {
      assert reqs[i := r][..n] == reqs[..n];
    }
  }

  lemma {:induction false} NotAllCounted(reqs: seq<Request>, i: nat)
    requires i < |reqs| && !Counted(reqs[i].stage)
    ensures CountedIn(reqs) < |reqs|
  {
    var n := |reqs| - 1;
    if i < n {
      NotAllCounted(reqs[..n], i);
    }
  }

  lemma {:induction false} NoneCounted(reqs: seq<Request>)
    requires forall i :: 0 <= i < |reqs| ==> !Counted(reqs[i].stage)
    ensures CountedIn(reqs) == 0
  {
    if reqs != [] {
      NoneCounted(reqs[..|reqs| - 1]);
    }
  }

  /** The server's counter counts the increments; exactly the last of them makes a mover, and
      only the mover moves. */
  ghost predicate CountInv(env: Env, s: Session)
    requires env.Ok()
  {
    && |s.reqs| == env.Total()
    && s.count == CountedIn(s.reqs)
    && (s.mover == None <==> s.count < env.Total())
    && (s.mover.Some? ==> s.mover.value < |s.reqs| && Counted(s.reqs[s.mover.value].stage))
    && (forall i :: 0 <= i < |s.reqs| && Moving(s.reqs[i].stage) ==> s.mover == Some(i))
  }

  // ----- what the mover has done so far

  function MoverStage(s: Session): Stage {
    if s.mover.Some? && s.mover.value < |s.reqs| then s.reqs[s.mover.value].stage else Idle
  }

  predicate Written(stage: Stage) {
    stage.MoveMark? || stage.MoveRemove? || stage.Writing? || stage.Done?
  }

  predicate Marked(stage: Stage) {
    stage.MoveRemove? || stage.Writing? || stage.Done?
  }

  predicate Removed(stage: Stage) {
    stage.Writing? || stage.Done?
  }

  predicate Reported(c: ClientStage) {
    c.Storing? || c.Removing? || c.Closing? || c.Finished?
  }

  predicate Over(c: ClientStage) {
    c.Closing? || c.Finished?
  }

  /** The server's files and status are determined by the mover's progress and the report. */
  predicate ServerInv(s: Session) {
    && s.waiting == (if s.mover.Some? && Removed(MoverStage(s)) then None else Some(s.file))
    && s.secret == (if s.mover.Some? && Written(MoverStage(s)) then Some(s.file) else None)
    && (!Reported(s.client) ==> s.status == if s.mover.Some? && Marked(MoverStage(s)) then INVALID else UNKNOWN)
  }

  // ----- the client's progress

  predicate Gathered(c: ClientStage, i: nat) {
    match c
    case Dispatching(_) => false
    case Joining(_, _) => false
    case Draining(_) => false
    case Gathering(num) => i < num
    case _ => true
  }

  predicate Pulling(c: ClientStage) {
    c.Dispatching? || c.Joining? || c.Draining?
  }

  predicate AllDone(s: Session) {
    forall i :: 0 <= i < |s.reqs| ==> s.reqs[i].stage == Done
  }

  predicate SomeFailed(s: Session) {
    exists i :: 0 <= i < |s.reqs| && s.reqs[i].stage == Failed
  }

  predicate TerminalBefore(s: Session, n: nat) {
    forall i :: 0 <= i < |s.reqs| && i < n ==> Terminal(s.reqs[i].stage)
  }

  /** Chunks are launched in order; gather starts only when all requests have succeeded or
      one has failed. */
  ghost predicate ClientInv(env: Env, s: Session)
    requires env.Ok()
  {
    && s.clientCount <= |s.reqs| == env.Total()
    && (forall i :: 0 <= i < |s.reqs| ==> (s.reqs[i].stage == Idle <==> i >= s.clientCount))
    && match s.client
       case Dispatching(first) => first <= s.clientCount < env.Total() && TerminalBefore(s, first)
       case Joining(first, next) =>
         first <= next <= s.clientCount && TerminalBefore(s, first)
         && forall i :: first <= i < next ==> s.reqs[i].stage == Done
       case Draining(first) => first <= s.clientCount < env.Total() && TerminalBefore(s, first)
       case Gathering(num) => num <= s.clientCount == env.Total() && (AllDone(s) || SomeFailed(s))
       case _ => s.clientCount == env.Total() && (AllDone(s) || SomeFailed(s))
  }

  // ----- the data on its way

  ghost predicate Response(env: Env, key: Bytes, file: Bytes, i: nat, resp: seq<Block>)
    requires env.Ok()
  {
    |resp| == env.p.eachNum && CarryChunk(env.Product(key), resp, ChunkOf(env, file, i), env.p.sLen, env.p.q)
  }

  ghost predicate DataOk(env: Env, s: Session, i: nat)
    requires env.Ok() && i < |s.reqs|
  {
    var r := s.reqs[i];
    && (r.stage.Reading? || r.stage.MoveWrite? ==> r.data == s.file)
    && (r.stage.Encrypting? ==> r.data == ChunkOf(env, s.file, i))
    && (r.stage.Counting? || (Counted(r.stage) && !r.stage.Done?) ==> Response(env, s.keyS, s.file, i, r.resp))
  }

  ghost predicate DataInv(env: Env, s: Session)
    requires env.Ok()
  {
    forall i :: 0 <= i < |s.reqs| ==> DataOk(env, s, i)
  }

  /** The chunk file holds the decrypted blocks in order; it is there until gather takes it. */
  ghost predicate ChunkOk(env: Env, s: Session, i: nat)
    requires env.Ok() && i < |s.reqs|
  {
    match s.reqs[i].stage
    case Writing(n) =>
      n <= env.p.eachNum
      && (i in s.chunks ==> n > 0 && IsPrefix(env, s, i, n))
      && (n > 0 && !Gathered(s.client, i) ==> i in s.chunks)
    case Done =>
      (i in s.chunks ==> s.chunks[i] == ChunkOf(env, s.file, i)) && (!Gathered(s.client, i) ==> i in s.chunks)
    case _ => i !in s.chunks
  }

  ghost predicate IsPrefix(env: Env, s: Session, i: nat, n: nat)
    requires env.Ok() && i in s.chunks
  {
    n * env.p.sLen <= env.p.ChunkSize() && s.chunks[i] == ChunkOf(env, s.file, i)[..n * env.p.sLen]
  }

  ghost predicate ChunkInv(env: Env, s: Session)
    requires env.Ok()
  {
    forall i :: 0 <= i < |s.reqs| ==> ChunkOk(env, s, i)
  }

  /** The first k bytes of a chunk, the rest zero. */
  function Piece(chunk: Bytes, k: nat): (r: Bytes)
    requires k <= |chunk|
    ensures |r| == |chunk|
  {
    chunk[..k] + Zeros(|chunk| - k, 0)
  }

  /** How much of chunk j gather has put into its buffer. */
  function Got(env: Env, got: seq<nat>, j: nat): (k: nat)
    ensures k <= env.p.ChunkSize()
  {
    if j < |got| && got[j] <= env.p.ChunkSize() then got[j] else 0
  }

  /** What is left of a file when only these pieces of its first n chunks arrive. */
  function ReceivedUpTo(env: Env, file: Bytes, got: seq<nat>, n: nat): (r: Bytes)
    ensures |r| == n * env.p.ChunkSize()
  {
    if n == 0 then []
    else
      MulSucc(n - 1, env.p.ChunkSize());
      ReceivedUpTo(env, file, got, n - 1) + Piece(ChunkOf(env, file, n - 1), Got(env, got, n - 1))
  }

  /** The file with what did not arrive zeroed. */
  function Received(env: Env, file: Bytes, got: seq<nat>): (r: Bytes)
    requires env.Ok()
    ensures |r| == env.p.secretSize
  {
    ReceivedUpTo(env, file, got, env.Total())
  }

  predicate WholeBlocks(env: Env, n: nat) {
    exists k: nat :: k <= env.p.eachNum && n == k * env.p.sLen
  }

  /** gather has looked at the first |got| chunks. */
  predicate GotLength(env: Env, s: Session)
    requires env.Ok()
  {
    |s.got| == if Pulling(s.client) then 0 else if s.client.Gathering? then s.client.num else env.Total()
  }

  /** What gather found is whole blocks of chunks whose requests had come to writing; when
      nothing has failed, it is everything. */
  ghost predicate GotInv(env: Env, s: Session)
    requires env.Ok()
  {
    && GotLength(env, s) && |s.reqs| == env.Total()
    && (forall j :: 0 <= j < |s.got| && j < |s.reqs| ==>
          s.got[j] <= env.p.ChunkSize() && WholeBlocks(env, s.got[j]) && (s.got[j] > 0 ==> Removed(s.reqs[j].stage)))
    && (AllDone(s) ==> forall j :: 0 <= j < |s.got| ==> s.got[j] == env.p.ChunkSize())
  }

  /** Segment by segment, gather's buffer is the secret with what it has not found zeroed. */
  ghost predicate BufferInv(env: Env, s: Session)
    requires env.Ok()
  {
    && |s.buffer| == |s.file| == env.p.secretSize >= CRC_LEN && GotInv(env, s)
    && forall j :: 0 <= j < env.Total() ==> ChunkOf(env, s.buffer, j) == Piece(ChunkOf(env, s.file, j), Got(env, s.got, j))
  }

  /** The report and what is stored follow the checksum. */
  ghost predicate VerdictInv(env: Env, s: Session)
    requires env.Ok()
  {
    && |s.buffer| >= CRC_LEN && |s.file| >= CRC_LEN && CrcOk(env.crc, s.file)
    && (s.client.ReportValid? || s.client.Storing? ==> CrcOk(env.crc, s.buffer))
    && (s.client.ReportInvalid? || s.client.Removing? ==> !CrcOk(env.crc, s.buffer))
    && (s.client.Storing? ==> s.status == VALID)
    && (s.client.Removing? ==> s.status == INVALID)
    && (Over(s.client) ==> s.status == if CrcOk(env.crc, s.buffer) then VALID else INVALID)
    && s.clientFile == (if Over(s.client) && s.status == VALID then Some(s.buffer) else None)
  }

  ghost predicate Inv(env: Env, s: Session)
    requires env.Ok()
  {
    && |s.file| >= CRC_LEN && s.keyS == s.keyC
    && CountInv(env, s) && ServerInv(s) && ClientInv(env, s) && DataInv(env, s) && ChunkInv(env, s)
    && BufferInv(env, s) && VerdictInv(env, s)
  }

  // ----- requests

  /** Before its increment a request touches nothing but itself. */
  lemma ServeShape(env: Env, s: Session, s': Session, i: nat)
    requires env.Ok() && i < |s.reqs| && ServeStep(env, s, s', i)
    ensures |s'.reqs| == |s.reqs| && s' == s.(reqs := s.reqs[i := s'.reqs[i]])
    ensures !Counted(s.reqs[i].stage) && !Counted(s'.reqs[i].stage)
    ensures !s.reqs[i].stage.Idle? && !s'.reqs[i].stage.Idle? && !Terminal(s.reqs[i].stage) && !s'.reqs[i].stage.Done?
  {
  }

  /** A step of request i leaves the other requests and the client's own state alone. */
  predicate OneRequest(s: Session, s': Session, i: nat) {
    i < |s.reqs| == |s'.reqs| && s'.reqs == s.reqs[i := s'.reqs[i]]
    && s'.client == s.client && s'.clientCount == s.clientCount && s'.buffer == s.buffer && s'.got == s.got && s'.clientFile == s.clientFile
    && s'.file == s.file && s'.keyS == s.keyS && s'.keyC == s.keyC
  }

  /** While the mover is at work no request has failed and the client is still pulling. */
  lemma MoverMeansPulling(env: Env, s: Session, i: nat)
    requires env.Ok() && CountInv(env, s) && ClientInv(env, s) && i < |s.reqs| && Moving(s.reqs[i].stage)
    ensures s.mover == Some(i) && !SomeFailed(s) && Pulling(s.client)
  {
    if f :| 0 <= f < |s.reqs| && s.reqs[f].stage == Failed {
      NotAllCounted(s.reqs, f);
    }
  }

  lemma ReplaceCount(env: Env, s: Session, s': Session, i: nat)
    requires env.Ok() && CountInv(env, s) && i < |s.reqs|
    requires |s'.reqs| == |s.reqs| && s'.reqs == s.reqs[i := s'.reqs[i]] && s'.count == s.count && s'.mover == s.mover
    requires Counted(s.reqs[i].stage) == Counted(s'.reqs[i].stage)
    requires Moving(s'.reqs[i].stage) ==> Moving(s.reqs[i].stage)
    ensures CountInv(env, s')
  {
    CountedUpdate(s.reqs, i, s'.reqs[i]);
  }

  lemma CountStepCount(env: Env, s: Session, s': Session, i: nat)
    requires env.Ok() && CountInv(env, s) && i < |s.reqs| && CountStep(env, s, s', i)
    ensures CountInv(env, s') && s.mover == None
  {
    CountedUpdate(s.reqs, i, s'.reqs[i]);
    NotAllCounted(s.reqs, i);
  }

  lemma MoveStatus(env: Env, s: Session, i: nat)
    requires env.Ok() && CountInv(env, s) && ServerInv(s) && ClientInv(env, s) && i < |s.reqs| && Moving(s.reqs[i].stage)
    ensures s.mover == Some(i) && MoverStage(s) == s.reqs[i].stage && Pulling(s.client)
    ensures s.status == if s.reqs[i].stage.MoveRemove? then INVALID else UNKNOWN
    ensures s.waiting == Some(s.file)
  {
    MoverMeansPulling(env, s, i);
  }

  lemma RequestCount(env: Env, s: Session, s': Session, i: nat)
    requires env.Ok() && CountInv(env, s) && ServerInv(s) && ClientInv(env, s) && RequestStep(env, s, s', i)
    ensures CountInv(env, s')
  {
    if ServeStep(env, s, s', i) {
      ServeShape(env, s, s', i);
      ReplaceCount(env, s, s', i);
    } else if CountStep(env, s, s', i) {
      CountStepCount(env, s, s', i);
    } else if MoveStep(env, s, s', i) {
      MoveCount(env, s, s', i);
    } else {
      WriteCount(env, s, s', i);
    }
  }

  lemma MoveCount(env: Env, s: Session, s': Session, i: nat)
    requires env.Ok() && CountInv(env, s) && ServerInv(s) && ClientInv(env, s) && i < |s.reqs| && MoveStep(env, s, s', i)
    ensures CountInv(env, s')
  {
    MoveShape(env, s, s', i);
    MoveStatus(env, s, i);
    ReplaceCount(env, s, s', i);
  }

  lemma WriteCount(env: Env, s: Session, s': Session, i: nat)
    requires env.Ok() && CountInv(env, s) && i < |s.reqs| && WriteStep(env, s, s', i)
    ensures CountInv(env, s')
  {
    ReplaceCount(env, s, s', i);
  }

  /** A request that is not the mover does not show in the server's files. */
  lemma OtherServer(s: Session, s': Session, i: nat)
    requires ServerInv(s) && i < |s.reqs| && s.mover != Some(i)
    requires |s'.reqs| == |s.reqs| && s'.reqs == s.reqs[i := s'.reqs[i]] && s'.mover == s.mover
    requires s'.waiting == s.waiting && s'.secret == s.secret && s'.status == s.status && s'.client == s.client && s'.file == s.file
    ensures ServerInv(s')
  {
  }

  lemma MoveServer(env: Env, s: Session, s': Session, i: nat)
    requires env.Ok() && CountInv(env, s) && ServerInv(s) && ClientInv(env, s) && DataInv(env, s)
    requires i < |s.reqs| && MoveStep(env, s, s', i)
    ensures ServerInv(s')
  {
    MoveStatus(env, s, i);
    assert DataOk(env, s, i);
  }

  lemma CountServer(env: Env, s: Session, s': Session, i: nat)
    requires env.Ok() && CountInv(env, s) && ServerInv(s) && i < |s.reqs| && CountStep(env, s, s', i)
    ensures ServerInv(s')
  {
    CountStepCount(env, s, s', i);
  }

  lemma WriteServer(env: Env, s: Session, s': Session, i: nat)
    requires env.Ok() && ServerInv(s) && i < |s.reqs| && WriteStep(env, s, s', i)
    ensures ServerInv(s')
  {
    assert s'.reqs == s.reqs[i := s'.reqs[i]] && (s'.reqs[i].stage.Writing? || s'.reqs[i].stage.Done?);
    if s.mover != Some(i) {
      OtherServer(s, s', i);
    } else {
      assert MoverStage(s) == s.reqs[i].stage && MoverStage(s') == s'.reqs[i].stage;
    }
  }

  lemma RequestServer(env: Env, s: Session, s': Session, i: nat)
    requires env.Ok() && CountInv(env, s) && ServerInv(s) && ClientInv(env, s) && DataInv(env, s)
    requires RequestStep(env, s, s', i)
    ensures ServerInv(s')
  {
    if ServeStep(env, s, s', i) {
      ServeShape(env, s, s', i);
      OtherServer(s, s', i);
    } else if CountStep(env, s, s', i) {
      CountServer(env, s, s', i);
    } else if MoveStep(env, s, s', i) {
      MoveServer(env, s, s', i);
    } else {
      WriteServer(env, s, s', i);
    }
  }

  /** The client's view: a request that is launched and not over moves on. */
  lemma RequestClient(env: Env, s: Session, s': Session, i: nat)
    requires env.Ok() && CountInv(env, s) && ServerInv(s) && ClientInv(env, s) && RequestStep(env, s, s', i)
    ensures ClientInv(env, s')
  {
    RequestStages(env, s, s', i);
    StageClient(env, s, s', i);
  }

  lemma RequestStages(env: Env, s: Session, s': Session, i: nat)
    requires env.Ok() && RequestStep(env, s, s', i)
    ensures OneRequest(s, s', i)
    ensures !s.reqs[i].stage.Idle? && !s'.reqs[i].stage.Idle? && !Terminal(s.reqs[i].stage)
  {
    if ServeStep(env, s, s', i) {
      ServeShape(env, s, s', i);
    } else {
      LateShape(env, s, s', i);
    }
  }

  /** From its increment on a request touches nothing on the client but its chunk file. */
  lemma LateShape(env: Env, s: Session, s': Session, i: nat)
    requires env.Ok() && i < |s.reqs|
    requires CountStep(env, s, s', i) || MoveStep(env, s, s', i) || WriteStep(env, s, s', i)
    ensures OneRequest(s, s', i)
    ensures !s.reqs[i].stage.Idle? && !s'.reqs[i].stage.Idle? && !Terminal(s.reqs[i].stage)
  {
    if MoveStep(env, s, s', i) {
      MoveShape(env, s, s', i);
    }
  }

  lemma MoveShape(env: Env, s: Session, s': Session, i: nat)
    requires i < |s.reqs| && MoveStep(env, s, s', i)
    ensures OneRequest(s, s', i) && Moving(s.reqs[i].stage) && Counted(s'.reqs[i].stage) == (s'.reqs[i].stage != Failed)
    ensures s'.count == s.count && s'.mover == s.mover
    ensures s'.reqs[i].stage == Failed ==> s.reqs[i].stage.MoveCheck? && s.status != UNKNOWN
  {
  }

  lemma StageClient(env: Env, s: Session, s': Session, i: nat)
    requires env.Ok() && ClientInv(env, s) && i < |s.reqs| == |s'.reqs| && s'.reqs == s.reqs[i := s'.reqs[i]]
    requires s'.client == s.client && s'.clientCount == s.clientCount
    requires !s.reqs[i].stage.Idle? && !s'.reqs[i].stage.Idle? && !Terminal(s.reqs[i].stage)
    ensures ClientInv(env, s')
    ensures !Pulling(s.client) ==> !AllDone(s) && SomeFailed(s') && !AllDone(s')
  {
    if !Pulling(s.client) {
      var f :| 0 <= f < |s.reqs| && s.reqs[f].stage == Failed;
      assert s'.reqs[f].stage == Failed;
    }
  }

  // ----- data

  lemma ResponseCarries(env: Env, key: Bytes, chunk: Bytes, resp: seq<Block>)
    requires env.Ok() && |chunk| == env.p.ChunkSize() && ChunkEncryption(env, key, chunk, resp)
    ensures |resp| == env.p.eachNum && CarryChunk(env.Product(key), resp, chunk, env.p.sLen, env.p.q)
  {
    forall k | 0 <= k < |resp|
      ensures CarriesBlock(env.Product(key), chunk, k, env.p.sLen, env.p.q, resp[k])
    {
      BlockCarries(env.Product(key), chunk, k, env.p.sLen, env.p.q, resp[k]);
    }
  }

  lemma ServeData(env: Env, s: Session, s': Session, i: nat)
    requires env.Ok() && ServerInv(s) && i < |s.reqs| && DataOk(env, s, i) && ServeStep(env, s, s', i)
    ensures i < |s'.reqs| && DataOk(env, s', i)
  {
    ServeShape(env, s, s', i);
    if s.reqs[i].stage.Encrypting? {
      ResponseCarries(env, s.keyS, s.reqs[i].data, s'.reqs[i].resp);
    }
  }

  lemma OtherData(env: Env, s: Session, s': Session, i: nat)
    requires env.Ok() && DataInv(env, s) && i < |s.reqs| && s'.keyS == s.keyS && s'.file == s.file
    requires |s'.reqs| == |s.reqs| && s'.reqs == s.reqs[i := s'.reqs[i]] && DataOk(env, s', i)
    ensures DataInv(env, s')
  {
    forall j | 0 <= j < |s'.reqs|
      ensures DataOk(env, s', j)
    {
      assert DataOk(env, s, j);
    }
  }

  lemma LateData(env: Env, s: Session, s': Session, i: nat)
    requires env.Ok() && CountInv(env, s) && ServerInv(s) && ClientInv(env, s)
    requires i < |s.reqs| && DataOk(env, s, i) && |s.file| == env.p.secretSize
    requires CountStep(env, s, s', i) || MoveStep(env, s, s', i) || WriteStep(env, s, s', i)
    ensures |s'.reqs| == |s.reqs| && s'.reqs == s.reqs[i := s'.reqs[i]] && s'.keyS == s.keyS && s'.file == s.file
    ensures DataOk(env, s', i)
  {
    if MoveStep(env, s, s', i) {
      MoveStatus(env, s, i);
      WholeFile(env, s.file);
    }
    assert s'.reqs[i].resp == s.reqs[i].resp;
  }

  /** A waiting file of the secret's size is moved as it is. */
  lemma WholeFile(env: Env, file: Bytes)
    requires |file| == env.p.secretSize
    ensures MoveBuffer(env, Some(file)) == file
  {
  }

  lemma RequestData(env: Env, s: Session, s': Session, i: nat)
    requires env.Ok() && CountInv(env, s) && ServerInv(s) && ClientInv(env, s) && DataInv(env, s)
    requires |s.file| == env.p.secretSize && RequestStep(env, s, s', i)
    ensures DataInv(env, s')
  {
    assert DataOk(env, s, i);
    if ServeStep(env, s, s', i) {
      ServeShape(env, s, s', i);
      ServeData(env, s, s', i);
    } else {
      LateData(env, s, s', i);
    }
    OtherData(env, s, s', i);
  }

  // ----- chunk files

  /** The next decrypted block extends the prefix. */
  lemma WriteExtends(env: Env, key: Bytes, file: Bytes, i: nat, resp: seq<Block>, n: nat)
    requires env.Ok() && Response(env, key, file, i, resp) && n < env.p.eachNum
    ensures (n + 1) * env.p.sLen <= env.p.ChunkSize() && n * env.p.sLen <= env.p.ChunkSize()
    ensures ChunkOf(env, file, i)[..n * env.p.sLen] + DecryptBlock(env.Product(key), resp[n], env.p.q)
         == ChunkOf(env, file, i)[..(n + 1) * env.p.sLen]
  {
    var chunk := ChunkOf(env, file, i);
    assert CarriesBlock(env.Product(key), chunk, n, env.p.sLen, env.p.q, resp[n]);
    MulMonotone(n + 1, env.p.eachNum, env.p.sLen);
    MulSucc(n, env.p.sLen);
    PrefixGrows(chunk, n, env.p.sLen);
  }

  lemma WriteChunk(env: Env, s: Session, s': Session, i: nat)
    requires env.Ok() && s.keyS == s.keyC && i < |s.reqs| && DataOk(env, s, i) && ChunkOk(env, s, i) && WriteStep(env, s, s', i)
    ensures |s'.reqs| == |s.reqs| && ChunkOk(env, s', i)
  {
    DecryptCoversIff(env.p.eachNum, env.p.runningThreads);
    var n := s.reqs[i].stage.n;
    if n < env.p.eachNum {
      WriteExtends(env, s.keyS, s.file, i, s.reqs[i].resp, n);
      if n == 0 {
        assert ChunkOf(env, s.file, i)[..0 * env.p.sLen] == [];
        assert [] + DecryptBlock(env.Product(s.keyC), s.reqs[i].resp[0], env.p.q) == DecryptBlock(env.Product(s.keyC), s.reqs[i].resp[0], env.p.q);
      }
    } else {
      assert ChunkOf(env, s.file, i)[..env.p.ChunkSize()] == ChunkOf(env, s.file, i);
    }
  }

  lemma OtherChunk(env: Env, s: Session, s': Session, i: nat)
    requires env.Ok() && ChunkInv(env, s) && i < |s.reqs| == |s'.reqs| && s'.reqs == s.reqs[i := s'.reqs[i]]
    requires s'.file == s.file && s'.client == s.client && ChunkOk(env, s', i)
    requires forall j :: j != i ==> (j in s'.chunks <==> j in s.chunks) && (j in s.chunks ==> s'.chunks[j] == s.chunks[j])
    ensures ChunkInv(env, s')
  {
    forall j | 0 <= j < |s'.reqs|
      ensures ChunkOk(env, s', j)
    {
      assert ChunkOk(env, s, j);
    }
  }

  lemma RequestChunk(env: Env, s: Session, s': Session, i: nat)
    requires env.Ok() && s.keyS == s.keyC && DataInv(env, s) && ChunkInv(env, s) && RequestStep(env, s, s', i)
    ensures ChunkInv(env, s')
  {
    assert DataOk(env, s, i) && ChunkOk(env, s, i);
    if ServeStep(env, s, s', i) {
      ServeShape(env, s, s', i);
    } else if WriteStep(env, s, s', i) {
      WriteChunk(env, s, s', i);
    }
    OtherChunk(env, s, s', i);
  }

  // ----- the buffer and the verdict under requests

  lemma RequestBuffer(env: Env, s: Session, s': Session, i: nat)
    requires env.Ok() && CountInv(env, s) && ServerInv(s) && ClientInv(env, s) && BufferInv(env, s) && RequestStep(env, s, s', i)
    ensures BufferInv(env, s')
  {
    RequestStages(env, s, s', i);
    StageClient(env, s, s', i);
    if Removed(s.reqs[i].stage) {
      RemovedStays(env, s, s', i);
    }
    StageGot(env, s, s', i);
  }

  lemma StageGot(env: Env, s: Session, s': Session, i: nat)
    requires env.Ok() && GotInv(env, s) && OneRequest(s, s', i)
    requires Removed(s.reqs[i].stage) ==> Removed(s'.reqs[i].stage)
    requires !Pulling(s.client) ==> !AllDone(s')
    ensures GotInv(env, s')
  {
  }

  lemma RemovedStays(env: Env, s: Session, s': Session, i: nat)
    requires env.Ok() && i < |s.reqs| && RequestStep(env, s, s', i) && Removed(s.reqs[i].stage)
    ensures i < |s'.reqs| && Removed(s'.reqs[i].stage)
  {
  }

  lemma VerdictFrame(env: Env, s: Session, s': Session)
    requires env.Ok() && VerdictInv(env, s)
    requires s'.client == s.client && s'.buffer == s.buffer && s'.file == s.file && s'.clientFile == s.clientFile
    requires s'.status == s.status || Pulling(s.client)
    ensures VerdictInv(env, s')
  {
  }

  lemma RequestVerdictShape(env: Env, s: Session, s': Session, i: nat)
    requires env.Ok() && CountInv(env, s) && ServerInv(s) && ClientInv(env, s) && RequestStep(env, s, s', i)
    ensures OneRequest(s, s', i) && (s'.status == s.status || Pulling(s.client))
  {
    RequestStages(env, s, s', i);
    if ServeStep(env, s, s', i) {
      ServeShape(env, s, s', i);
    } else if MoveStep(env, s, s', i) {
      MoveStatus(env, s, i);
    }
  }

  lemma RequestVerdict(env: Env, s: Session, s': Session, i: nat)
    requires env.Ok() && CountInv(env, s) && ServerInv(s) && ClientInv(env, s) && VerdictInv(env, s) && RequestStep(env, s, s', i)
    ensures VerdictInv(env, s')
  {
    RequestVerdictShape(env, s, s', i);
    VerdictFrame(env, s, s');
  }

  lemma RequestKeeps(env: Env, s: Session, s': Session, i: nat)
    requires env.Ok() && Inv(env, s) && RequestStep(env, s, s', i)
    ensures Inv(env, s')
  {
    RequestCount(env, s, s', i);
    RequestServer(env, s, s', i);
    RequestClient(env, s, s', i);
    RequestData(env, s, s', i);
    RequestChunk(env, s, s', i);
    RequestBuffer(env, s, s', i);
    RequestVerdict(env, s, s', i);
    RequestConstants(env, s, s', i);
  }

  lemma RequestConstants(env: Env, s: Session, s': Session, i: nat)
    requires env.Ok() && RequestStep(env, s, s', i)
    ensures s'.keyS == s.keyS && s'.keyC == s.keyC && s'.file == s.file
  {
    RequestStages(env, s, s', i);
  }

  // ----- faults

  lemma FaultKeeps(env: Env, s: Session, s': Session, i: nat)
    requires env.Ok() && Inv(env, s) && RequestFault(s, s', i)
    ensures Inv(env, s')
  {
    ReplaceCount(env, s, s', i);
    FaultIsNotMover(env, s, i);
    OtherServer(s, s', i);
    StageClient(env, s, s', i);
    assert DataOk(env, s, i) && ChunkOk(env, s, i);
    OtherData(env, s, s', i);
    OtherChunk(env, s, s', i);
    FaultBuffer(env, s, s', i);
  }

  lemma FaultIsNotMover(env: Env, s: Session, i: nat)
    requires env.Ok() && CountInv(env, s) && i < |s.reqs| && !Counted(s.reqs[i].stage)
    ensures s.mover != Some(i)
  {
  }

  lemma FaultBuffer(env: Env, s: Session, s': Session, i: nat)
    requires env.Ok() && BufferInv(env, s) && RequestFault(s, s', i)
    ensures BufferInv(env, s')
  {
    assert s'.reqs[i].stage == Failed;
    StageGot(env, s, s', i);
  }

  // ----- the client

  /** Pulling steps change the client's own fields and launch at most one request. */
  lemma DispatchKeeps(env: Env, s: Session, s': Session)
    requires env.Ok() && Inv(env, s) && s.client.Dispatching? && ClientStep(env, s, s')
    ensures Inv(env, s')
  {
    var i := s.clientCount;
    assert i < |s.reqs| && s.reqs[i].stage == Idle;
    assert s'.reqs == s.reqs[i := s.reqs[i].(stage := Sent)];
    assert DataOk(env, s, i) && ChunkOk(env, s, i);
    ReplaceCount(env, s, s', i);
    FaultIsNotMover(env, s, i);
    DispatchServer(s, s', i);
    DispatchClient(env, s, s');
    OtherData(env, s, s', i);
    DispatchChunk(env, s, s', i);
    DispatchBuffer(env, s, s', i);
  }

  lemma DispatchServer(s: Session, s': Session, i: nat)
    requires ServerInv(s) && i < |s.reqs| && s.mover != Some(i)
    requires s'.reqs == s.reqs[i := s.reqs[i].(stage := Sent)] && s'.mover == s.mover
    requires s'.waiting == s.waiting && s'.secret == s.secret && s'.status == s.status && s'.file == s.file
    requires Pulling(s.client) && Pulling(s'.client)
    ensures ServerInv(s')
  {
  }

  lemma DispatchClient(env: Env, s: Session, s': Session)
    requires env.Ok() && ClientInv(env, s) && s.client.Dispatching? && ClientStep(env, s, s')
    ensures ClientInv(env, s') && Pulling(s'.client)
  {
    var i := s.clientCount;
    assert s'.reqs == s.reqs[i := s.reqs[i].(stage := Sent)];
    assert TerminalBefore(s', s.client.first);
  }

  lemma DispatchChunk(env: Env, s: Session, s': Session, i: nat)
    requires env.Ok() && ChunkInv(env, s) && i < |s.reqs| && s.reqs[i].stage == Idle
    requires s'.reqs == s.reqs[i := s.reqs[i].(stage := Sent)]
    requires s'.chunks == s.chunks && s'.file == s.file && Pulling(s.client) && Pulling(s'.client)
    ensures ChunkInv(env, s')
  {
    forall j | 0 <= j < |s'.reqs|
      ensures ChunkOk(env, s', j)
    {
      assert ChunkOk(env, s, j);
    }
  }

  lemma DispatchBuffer(env: Env, s: Session, s': Session, i: nat)
    requires env.Ok() && BufferInv(env, s) && i < |s.reqs| && s.reqs[i].stage == Idle
    requires s'.reqs == s.reqs[i := s.reqs[i].(stage := Sent)]
    requires s'.buffer == s.buffer && s'.got == s.got && s'.file == s.file && Pulling(s.client) && Pulling(s'.client)
    ensures BufferInv(env, s')
  {
  }

  lemma JoinKeeps(env: Env, s: Session, s': Session)
    requires env.Ok() && Inv(env, s) && (s.client.Joining? || s.client.Draining?) && ClientStep(env, s, s')
    ensures Inv(env, s')
  {
    JoinClient(env, s, s');
    JoinChunk(env, s, s');
    JoinFrame(env, s, s');
    JoinData(env, s, s');
  }

  lemma JoinFrame(env: Env, s: Session, s': Session)
    requires env.Ok() && Pulling(s.client) && s' == s.(client := s'.client) && (Pulling(s'.client) || s'.client == Gathering(0))
    requires CountInv(env, s) && ServerInv(s) && BufferInv(env, s) && VerdictInv(env, s)
    ensures CountInv(env, s') && ServerInv(s') && BufferInv(env, s') && VerdictInv(env, s')
  {
  }

  lemma JoinData(env: Env, s: Session, s': Session)
    requires env.Ok() && DataInv(env, s) && s' == s.(client := s'.client)
    ensures DataInv(env, s')
  {
    forall j | 0 <= j < |s'.reqs|
      ensures DataOk(env, s', j)
    {
      assert DataOk(env, s, j);
    }
  }

  lemma JoinClient(env: Env, s: Session, s': Session)
    requires env.Ok() && ClientInv(env, s) && (s.client.Joining? || s.client.Draining?) && ClientStep(env, s, s')
    ensures s' == s.(client := s'.client)
    ensures ClientInv(env, s') && (Pulling(s'.client) || s'.client == Gathering(0))
  {
    if s'.client == Gathering(0) {
      var next := s.client.next;
      if next < s.clientCount {
        assert s.reqs[next].stage == Failed;
      } else if !AllDone(s) {
        var f :| 0 <= f < |s.reqs| && s.reqs[f].stage != Done;
        assert Terminal(s.reqs[f].stage);
        assert s.reqs[f].stage == Failed;
      }
      assert AllDone(s) || SomeFailed(s);
    }
  }

  lemma JoinChunk(env: Env, s: Session, s': Session)
    requires env.Ok() && ChunkInv(env, s) && Pulling(s.client) && s' == s.(client := s'.client)
    requires Pulling(s'.client) || s'.client == Gathering(0)
    ensures ChunkInv(env, s')
  {
    forall j | 0 <= j < |s'.reqs|
      ensures ChunkOk(env, s', j)
    {
      assert ChunkOk(env, s, j);
    }
  }

  // ----- gathering

  /** Writing the beginning of a chunk over zeros changes that segment and no other. */
  lemma SpliceSegment(env: Env, buf: Bytes, num: nat, data: Bytes, j: nat)
    requires num * env.p.ChunkSize() + env.p.ChunkSize() <= |buf| && |data| <= env.p.ChunkSize()
    ensures ChunkOf(env, Splice(buf, num * env.p.ChunkSize(), data), j)
         == if j == num then data + ChunkOf(env, buf, j)[|data|..] else ChunkOf(env, buf, j)
  {
    var c := env.p.ChunkSize();
    if j < num {
      MulMonotone(j + 1, num, c);
      MulSucc(j, c);
      SpliceElsewhere(buf, num * c, data, j * c, c);
    } else if j > num {
      MulMonotone(num + 1, j, c);
      MulSucc(num, c);
      SpliceElsewhere(buf, num * c, data, j * c, c);
    } else {
      SpliceHere(buf, num * c, data, c);
    }
  }

  lemma SpliceElsewhere(buf: Bytes, offset: nat, data: Bytes, start: nat, len: nat)
    requires offset + |data| <= |buf| && (start + len <= offset || offset + |data| <= start)
    ensures ReadAt(Splice(buf, offset, data), start, len) == ReadAt(buf, start, len)
  {
  }

  lemma SpliceHere(buf: Bytes, offset: nat, data: Bytes, len: nat)
    requires |data| <= len && offset + len <= |buf|
    ensures ReadAt(Splice(buf, offset, data), offset, len) == data + ReadAt(buf, offset, len)[|data|..]
  {
  }

  /** Two buffers of the right size with equal segments are equal. */
  lemma SegmentsEqual(env: Env, a: Bytes, b: Bytes)
    requires env.Ok() && |a| == |b| == env.p.secretSize
    requires forall j :: 0 <= j < env.Total() ==> ChunkOf(env, a, j) == ChunkOf(env, b, j)
    ensures a == b
  {
    var c, n := env.p.ChunkSize(), env.Total();
    forall x | 0 <= x < |a|
      ensures a[x] == b[x]
    {
      var j, y := x / c, x % c;
      assert x == c * j + y && c * j == j * c;
      if j >= n {
        MulMonotone(n, j, c);
      }
      assert ChunkOf(env, a, j)[y] == a[j * c + y];
      assert ChunkOf(env, b, j)[y] == b[j * c + y];
    }
  }

  lemma ChunkFits(env: Env, num: nat)
    requires env.Ok() && num < env.Total()
    ensures num * env.p.ChunkSize() + env.p.ChunkSize() <= env.p.secretSize
    ensures num + 1 < env.Total() ==> num * env.p.ChunkSize() + env.p.ChunkSize() < env.p.secretSize
  {
    MulSucc(num, env.p.ChunkSize());
    MulMonotone(num + 1, env.Total(), env.p.ChunkSize());
    if num + 1 < env.Total() {
      MulSucc(num + 1, env.p.ChunkSize());
      MulMonotone(num + 2, env.Total(), env.p.ChunkSize());
    }
  }

  lemma GatherKeeps(env: Env, s: Session, s': Session)
    requires env.Ok() && Inv(env, s) && s.client.Gathering? && s.client.num < s.clientCount && ClientStep(env, s, s')
    ensures Inv(env, s')
  {
    GatherFrame(env, s, s');
    GatherChunk(env, s, s');
    GatherBuffer(env, s, s');
  }

  lemma GatherFrame(env: Env, s: Session, s': Session)
    requires env.Ok() && CountInv(env, s) && ServerInv(s) && ClientInv(env, s) && DataInv(env, s) && VerdictInv(env, s)
    requires s.client.Gathering? && s.client.num < s.clientCount && s' == ReadChunk(env, s, s.client.num)
    ensures s'.client == Gathering(s.client.num + 1) && s'.keyS == s.keyS && s'.keyC == s.keyC && s'.file == s.file
    ensures CountInv(env, s') && ServerInv(s') && ClientInv(env, s') && DataInv(env, s') && VerdictInv(env, s')
  {
    assert |s'.buffer| == |s.buffer| && s' == s.(buffer := s'.buffer, chunks := s'.chunks, got := s'.got, client := s'.client);
    GatherFrameData(env, s, s');
  }

  lemma GatherFrameData(env: Env, s: Session, s': Session)
    requires env.Ok() && DataInv(env, s) && s' == s.(buffer := s'.buffer, chunks := s'.chunks, got := s'.got, client := s'.client)
    ensures DataInv(env, s')
  {
    forall j | 0 <= j < |s'.reqs|
      ensures DataOk(env, s', j)
    {
      assert DataOk(env, s, j);
    }
  }

  lemma GatherChunk(env: Env, s: Session, s': Session)
    requires env.Ok() && ChunkInv(env, s) && s.client.Gathering? && s' == ReadChunk(env, s, s.client.num)
    requires |s.buffer| == env.p.secretSize && s.client.num < |s.reqs| == env.Total()
    ensures ChunkInv(env, s')
  {
    ChunkFits(env, s.client.num);
    forall j | 0 <= j < |s'.reqs|
      ensures ChunkOk(env, s', j)
    {
      assert ChunkOk(env, s, j);
    }
  }

  /** What a chunk file holds is the beginning of the chunk, in whole blocks. */
  lemma ChunkFileIsPiece(env: Env, s: Session, num: nat)
    requires env.Ok() && num < |s.reqs| && ChunkOk(env, s, num) && num in s.chunks
    ensures |s.chunks[num]| <= env.p.ChunkSize() && WholeBlocks(env, |s.chunks[num]|)
    ensures s.chunks[num] == ChunkOf(env, s.file, num)[..|s.chunks[num]|]
    ensures Removed(s.reqs[num].stage)
    ensures s.reqs[num].stage.Done? ==> |s.chunks[num]| == env.p.ChunkSize()
  {
    if s.reqs[num].stage.Writing? {
      assert |s.chunks[num]| == s.reqs[num].stage.n * env.p.sLen;
    } else {
      assert |s.chunks[num]| == env.p.eachNum * env.p.sLen;
    }
  }

  /** How many bytes this round of gather finds. */
  function Found(env: Env, s: Session, num: nat): nat {
    if num in s.chunks then |ChunkPart(env, s.chunks[num])| else 0
  }

  lemma GatherGot(env: Env, s: Session, s': Session)
    requires env.Ok() && ChunkInv(env, s) && BufferInv(env, s) && s.client.Gathering? && s' == ReadChunk(env, s, s.client.num)
    requires s.client.num < |s.reqs|
    ensures GotInv(env, s') && s'.got == s.got + [Found(env, s, s.client.num)]
  {
    var num := s.client.num;
    ChunkFits(env, num);
    assert ChunkOk(env, s, num);
    FoundIsPiece(env, s, num);
    OneMoreGot(env, s, s', Found(env, s, num));
  }

  lemma FoundIsPiece(env: Env, s: Session, num: nat)
    requires env.Ok() && num < |s.reqs| && ChunkOk(env, s, num)
    ensures var found := Found(env, s, num);
            found <= env.p.ChunkSize() && WholeBlocks(env, found) && (found > 0 ==> Removed(s.reqs[num].stage))
    ensures s.reqs[num].stage.Done? && !Gathered(s.client, num) ==> Found(env, s, num) == env.p.ChunkSize()
  {
    if num in s.chunks {
      ChunkFileIsPiece(env, s, num);
    } else {
      assert 0 == 0 * env.p.sLen;
    }
  }

  lemma OneMoreGot(env: Env, s: Session, s': Session, found: nat)
    requires env.Ok() && GotInv(env, s) && s.client.Gathering? && s.client.num < |s.reqs|
    requires s'.reqs == s.reqs && s'.got == s.got + [found] && s'.client == Gathering(s.client.num + 1)
    requires found <= env.p.ChunkSize() && WholeBlocks(env, found) && (found > 0 ==> Removed(s.reqs[s.client.num].stage))
    requires s.reqs[s.client.num].stage.Done? ==> found == env.p.ChunkSize()
    ensures GotInv(env, s')
  {
  }

  lemma GatherSegments(env: Env, s: Session, s': Session, j: nat)
    requires env.Ok() && ChunkInv(env, s) && BufferInv(env, s) && s.client.Gathering? && s' == ReadChunk(env, s, s.client.num)
    requires s.client.num < |s.reqs| && j < env.Total() && s'.got == s.got + [Found(env, s, s.client.num)]
    ensures ChunkOf(env, s'.buffer, j) == Piece(ChunkOf(env, s'.file, j), Got(env, s'.got, j))
  {
    var num := s.client.num;
    ChunkFits(env, num);
    assert ChunkOk(env, s, num);
    if num in s.chunks {
      ChunkFileIsPiece(env, s, num);
      SpliceSegment(env, s.buffer, num, s.chunks[num], j);
      if j == num {
        PieceGrows(ChunkOf(env, s.file, num), |s.chunks[num]|);
      }
    }
  }

  lemma PieceGrows(chunk: Bytes, k: nat)
    requires k <= |chunk|
    ensures chunk[..k] + Piece(chunk, 0)[k..] == Piece(chunk, k)
  {
  }

  lemma GatherBuffer(env: Env, s: Session, s': Session)
    requires env.Ok() && ChunkInv(env, s) && BufferInv(env, s) && s.client.Gathering? && s' == ReadChunk(env, s, s.client.num)
    requires s.client.num < |s.reqs|
    ensures BufferInv(env, s')
  {
    GatherGot(env, s, s');
    ChunkFits(env, s.client.num);
    forall j | 0 <= j < env.Total()
      ensures ChunkOf(env, s'.buffer, j) == Piece(ChunkOf(env, s'.file, j), Got(env, s'.got, j))
    {
      GatherSegments(env, s, s', j);
    }
  }

  lemma {:induction false} ReceivedSegment(env: Env, file: Bytes, got: seq<nat>, n: nat, j: nat)
    requires j < n
    ensures ChunkOf(env, ReceivedUpTo(env, file, got, n), j) == Piece(ChunkOf(env, file, j), Got(env, got, j))
  {
    var c := env.p.ChunkSize();
    var before, last := ReceivedUpTo(env, file, got, n - 1), Piece(ChunkOf(env, file, n - 1), Got(env, got, n - 1));
    assert ReceivedUpTo(env, file, got, n) == before + last && |last| == c;
    if j < n - 1 {
      ReceivedSegment(env, file, got, n - 1, j);
      SegmentEnd(j, n - 1, c);
      ReadAtFront(before, last, j * c, c);
    } else {
      ReadAtBack(before, last);
    }
  }

  lemma SegmentEnd(j: nat, n: nat, c: nat)
    requires j < n
    ensures j * c + c <= n * c
  {
    MulSucc(j, c);
    MulMonotone(j + 1, n, c);
  }

  lemma ReadAtBack(a: Bytes, b: Bytes)
    ensures ReadAt(a + b, |a|, |b|) == b
  {
  }

  lemma ReadAtFront(a: Bytes, b: Bytes, start: nat, len: nat)
    requires start + len <= |a|
    ensures ReadAt(a + b, start, len) == ReadAt(a, start, len)
  {
  }

  /** At every moment gather's buffer is the secret with what has not arrived zeroed. */
  lemma BufferIsReceived(env: Env, s: Session)
    requires env.Ok() && BufferInv(env, s)
    ensures s.buffer == Received(env, s.file, s.got)
  {
    forall j | 0 <= j < env.Total()
      ensures ChunkOf(env, s.buffer, j) == ChunkOf(env, Received(env, s.file, s.got), j)
    {
      ReceivedSegment(env, s.file, s.got, env.Total(), j);
    }
    SegmentsEqual(env, s.buffer, Received(env, s.file, s.got));
  }

  /** When everything has arrived the buffer is the secret. */
  lemma AllGot(env: Env, s: Session)
    requires env.Ok() && BufferInv(env, s) && |s.got| == env.Total()
    requires forall j :: 0 <= j < |s.got| ==> s.got[j] == env.p.ChunkSize()
    ensures s.buffer == s.file
  {
    forall j | 0 <= j < env.Total()
      ensures ChunkOf(env, s.buffer, j) == ChunkOf(env, s.file, j)
    {
      assert Got(env, s.got, j) == env.p.ChunkSize();
    }
    SegmentsEqual(env, s.buffer, s.file);
  }

  lemma DecideKeeps(env: Env, s: Session, s': Session)
    requires env.Ok() && Inv(env, s) && s.client.Gathering? && s.client.num >= s.clientCount && ClientStep(env, s, s')
    ensures Inv(env, s')
  {
    assert Decide(env, s, s');
    LateClientStep(env, s, s');
    LateBuffer(env, s, s');
  }

  lemma LateBuffer(env: Env, s: Session, s': Session)
    requires env.Ok() && BufferInv(env, s) && |s.got| == env.Total()
    requires s'.buffer == s.buffer && s'.file == s.file && s'.got == s.got && s'.reqs == s.reqs
    requires !Pulling(s'.client) && !s'.client.Gathering?
    ensures BufferInv(env, s')
  {
  }

  /** Everything about requests survives a step of a client that is past pulling and whose
      buffer and chunk files stay as they are. */
  lemma LateClientStep(env: Env, s: Session, s': Session)
    requires env.Ok() && CountInv(env, s) && ClientInv(env, s) && DataInv(env, s) && ChunkInv(env, s)
    requires !Pulling(s.client) && !Pulling(s'.client) && !s'.client.Gathering?
    requires s.client.Gathering? ==> s.client.num == s.clientCount
    requires s'.reqs == s.reqs && s'.count == s.count && s'.mover == s.mover && s'.clientCount == s.clientCount
    requires s'.keyS == s.keyS && s'.file == s.file && s'.chunks == s.chunks
    ensures CountInv(env, s') && ClientInv(env, s') && DataInv(env, s') && ChunkInv(env, s')
  {
    forall j | 0 <= j < |s'.reqs|
      ensures DataOk(env, s', j) && ChunkOk(env, s', j)
    {
      assert DataOk(env, s, j) && ChunkOk(env, s, j);
    }
  }

  /** An INVALID report means that some request failed, so that nothing was ever moved. */
  lemma InvalidNeverMoved(env: Env, s: Session)
    requires env.Ok() && Inv(env, s) && (s.client.ReportInvalid? || s.client.Removing?)
    ensures s.mover == None && s.secret == None
  {
    if AllDone(s) {
      AllGot(env, s);
    }
    var f :| 0 <= f < |s.reqs| && s.reqs[f].stage == Failed;
    NotAllCounted(s.reqs, f);
  }

  /** Reporting happens with no mover at work: either nothing was moved or everything was. */
  lemma ReportKeeps(env: Env, s: Session, s': Session)
    requires env.Ok() && Inv(env, s) && ClientStep(env, s, s')
    requires !Pulling(s.client) && !s.client.Gathering?
    ensures Inv(env, s')
  {
    if s.client.Removing? {
      InvalidNeverMoved(env, s);
    }
    LateClientStep(env, s, s');
    LateBuffer(env, s, s');
    ReportServer(env, s, s');
  }

  lemma ReportServer(env: Env, s: Session, s': Session)
    requires env.Ok() && CountInv(env, s) && ServerInv(s) && ClientInv(env, s) && ClientStep(env, s, s') && VerdictInv(env, s)
    requires !Pulling(s.client) && !s.client.Gathering?
    requires s.client.Removing? ==> s.secret == None
    ensures ServerInv(s') && VerdictInv(env, s')
  {
  }

  lemma ClientKeeps(env: Env, s: Session, s': Session)
    requires env.Ok() && Inv(env, s) && ClientStep(env, s, s')
    ensures Inv(env, s')
  {
    match s.client
    case Dispatching(_) => DispatchKeeps(env, s, s');
    case Joining(_, _) => JoinKeeps(env, s, s');
    case Draining(_) => JoinKeeps(env, s, s');
    case Gathering(num) =>
      if num < s.clientCount {
        GatherKeeps(env, s, s');
      } else {
        DecideKeeps(env, s, s');
      }
    case _ => ReportKeeps(env, s, s');
  }

  // ----- runs

  lemma InitCounts(env: Env, s: Session)
    requires env.Ok() && Init(env, s)
    ensures CountInv(env, s) && ServerInv(s) && ClientInv(env, s)
  {
    NoneCounted(s.reqs);
  }

  lemma InitData(env: Env, s: Session)
    requires env.Ok() && Init(env, s)
    ensures DataInv(env, s) && ChunkInv(env, s)
  {
  }

  lemma InitBuffer(env: Env, s: Session)
    requires env.Ok() && Init(env, s)
    ensures BufferInv(env, s) && VerdictInv(env, s)
  {
    forall j | 0 <= j < env.Total()
      ensures ChunkOf(env, s.buffer, j) == Piece(ChunkOf(env, s.file, j), 0)
    {
    }
  }

  lemma InitHolds(env: Env, s: Session)
    requires env.Ok() && Init(env, s) && s.keyS == s.keyC
    ensures Inv(env, s)
  {
    InitCounts(env, s);
    InitData(env, s);
    InitBuffer(env, s);
  }

  lemma NextKeeps(env: Env, s: Session, s': Session)
    requires env.Ok() && Inv(env, s) && Next(env, s, s')
    ensures Inv(env, s')
  {
    if ClientStep(env, s, s') {
      ClientKeeps(env, s, s');
    } else {
      var i: nat :| RequestStep(env, s, s', i) || RequestFault(s, s', i);
      if RequestStep(env, s, s', i) {
        RequestKeeps(env, s, s', i);
      } else {
        FaultKeeps(env, s, s', i);
      }
    }
  }

  lemma StepInRun(env: Env, run: seq<Session>, n: nat)
    requires env.Ok() && Run(env, run) && n < |run| - 1
    ensures Next(env, run[n], run[n + 1])
  {
    assert StepAt(env, run, n);
  }

  lemma RunKeeps(env: Env, run: seq<Session>, n: nat)
    requires env.Ok() && Run(env, run) && run[0].keyS == run[0].keyC && n < |run|
    ensures Inv(env, run[n])
  {
    InitHolds(env, run[0]);
    for k := 0 to n
      invariant Inv(env, run[k])
    {
      KeptFromBefore(env, run, k + 1);
    }
  }

  lemma KeptFromBefore(env: Env, run: seq<Session>, n: nat)
    requires env.Ok() && Run(env, run) && 0 < n < |run| && Inv(env, run[n - 1])
    ensures Inv(env, run[n])
  {
    StepInRun(env, run, n - 1);
    NextKeeps(env, run[n - 1], run[n]);
  }
}
