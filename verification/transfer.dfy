/** One transfer of a secret, from the first chunk request to the report, as a state
    machine: src/ClientApp.cc, src/main/Decrypt.cc, src/main/Encrypt.cc and the getData and
    resultReport endpoints. Requests run concurrently with one another and with the client;
    one step is one access to a file, to Redis or to the response. */
module Transfer {
  import opened Bits
  import opened Buffers
  import opened Config
  import opened Lwe
  import opened SecretFile
  import opened Tiling
  import opened Wrappers

  /** The configuration, the checksum and the tensor product key * s, element by element. */
  datatype Env = Env(p: Params, crc: Checksum, matmul: (Bytes, Bytes, nat) -> nat)
  {
    function Product(key: Bytes): TensorProduct {
      (s: Bytes, i: nat) => matmul(key, s, i)
    }

    ghost predicate Ok() {
      p.TransferOk()
    }

    function Total(): nat
      requires Ok()
    {
      p.Progress()
    }
  }

  /** Where one chunk request stands, on the server up to the move stages and then back on
      the client, which has appended n decrypted blocks in Writing(n). */
  datatype Stage =
    | Idle | Sent | Guarded | Opening | Reading | Encrypting | Counting
    | MoveCheck | MoveRead | MoveWrite | MoveMark | MoveRemove
    | Writing(n: nat) | Done | Failed

  /** data is what the request has read; resp is the response being built or received. */
  datatype Request = Request(stage: Stage, data: Bytes, resp: seq<Block>)

  /** The pulling loop; the current batch is the chunks from first to the counter. */
  datatype ClientStage =
    | Dispatching(first: nat) | Joining(first: nat, next: nat) | Draining(first: nat)
    | Gathering(num: nat) | ReportValid | Storing | ReportInvalid | Removing | Closing | Finished

  const UNKNOWN := 0
  const VALID := 1
  const INVALID := 2

  /** file is the secret that the generator wrote, mover the request whose increment
      completed the count, and got how many bytes gather found of each chunk so far; these
      three are history. The rest is the server's waiting and secret file, the index's score
      in the valid zset, the server's and the client's counter, the chunk files, gather's
      buffer and the client's secret file. */
  datatype Session = Session(
    keyS: Bytes, keyC: Bytes, file: Bytes,
    waiting: Option<Bytes>, secret: Option<Bytes>, status: nat, count: nat, mover: Option<nat>,
    reqs: seq<Request>,
    client: ClientStage, clientCount: nat, chunks: map<nat, Bytes>, buffer: Bytes, got: seq<nat>,
    clientFile: Option<Bytes>)

  ghost predicate Init(env: Env, s: Session)
    requires env.Ok()
  {
    && |s.file| == env.p.secretSize >= CRC_LEN && CrcOk(env.crc, s.file)
    && s.waiting == Some(s.file) && s.secret == None && s.status == UNKNOWN && s.count == 0 && s.mover == None
    && |s.reqs| == env.Total() && (forall i :: 0 <= i < |s.reqs| ==> s.reqs[i].stage == Idle)
    && s.client == Dispatching(0) && s.clientCount == 0 && s.chunks == map[]
    && s.buffer == Zeros(env.p.secretSize, 0) && s.got == [] && s.clientFile == None
  }

  function ChunkOf(env: Env, file: Bytes, i: nat): (chunk: Bytes)
    ensures |chunk| == env.p.ChunkSize()
  {
    ReadAt(file, i * env.p.ChunkSize(), env.p.ChunkSize())
  }

  // ----- a request

  function SetStage(s: Session, i: nat, stage: Stage): Session
    requires i < |s.reqs|
  {
    s.(reqs := s.reqs[i := s.reqs[i].(stage := stage)])
  }

  function SetData(s: Session, i: nat, stage: Stage, data: Bytes): Session
    requires i < |s.reqs|
  {
    s.(reqs := s.reqs[i := s.reqs[i].(stage := stage, data := data)])
  }

  function SetResponse(s: Session, i: nat, resp: seq<Block>): Session
    requires i < |s.reqs|
  {
    s.(reqs := s.reqs[i := s.reqs[i].(stage := Counting, resp := resp)])
  }

  /** resp encrypts a chunk block by block. */
  ghost predicate ChunkEncryption(env: Env, key: Bytes, chunk: Bytes, resp: seq<Block>)
    requires env.Ok() && |chunk| == env.p.ChunkSize()
  {
    |resp| == env.p.eachNum
    && forall k :: 0 <= k < |resp| ==> BlockOf(env.Product(key), chunk, k, env.p.sLen, env.p.q, resp[k])
  }

  function Append(chunks: map<nat, Bytes>, i: nat, data: Bytes): map<nat, Bytes> {
    chunks[i := (if i in chunks then chunks[i] else []) + data]
  }

  /** How many blocks the client's threads decrypt. */
  function DecryptedBlocks(env: Env): int
    requires env.Ok()
  {
    Covered(env.p.eachNum, env.p.runningThreads)
  }

  /** getData and Encrypt::process up to the increment. The guards want the waiting file
      and no secret file; an open file stays readable when it is unlinked. */
  ghost predicate ServeStep(env: Env, s: Session, s': Session, i: nat)
    requires env.Ok() && i < |s.reqs|
  {
    var r := s.reqs[i];
    match r.stage
    case Sent => s' == SetStage(s, i, if s.waiting.Some? then Guarded else Failed)
    case Guarded => s' == SetStage(s, i, if s.secret == None then Opening else Failed)
    case Opening =>
      s' == (if s.waiting.Some? then SetData(s, i, Reading, s.waiting.value) else SetStage(s, i, Failed))
    case Reading => s' == SetData(s, i, Encrypting, ChunkOf(env, r.data, i))
    case Encrypting =>
      |r.data| == env.p.ChunkSize() && |s'.reqs| == |s.reqs|
      && ChunkEncryption(env, s.keyS, r.data, s'.reqs[i].resp) && s' == SetResponse(s, i, s'.reqs[i].resp)
    case _ => false
  }

  /** The atomic increment of the server's counter. */
  ghost predicate CountStep(env: Env, s: Session, s': Session, i: nat)
    requires env.Ok() && i < |s.reqs|
  {
    var count := s.count + 1;
    s.reqs[i].stage.Counting?
    && s' == if count >= env.Total() then SetStage(s, i, MoveCheck).(count := count, mover := Some(i))
             else SetStage(s, i, Writing(0)).(count := count)
  }

  /** What move reads from the waiting file into a zeroed buffer of the secret's size. */
  function MoveBuffer(env: Env, waiting: Option<Bytes>): (copy: Bytes)
    ensures |copy| == env.p.secretSize
    ensures forall x :: 0 <= x < |copy| ==> copy[x] == if waiting.Some? && x < |waiting.value| then waiting.value[x] else 0
  {
    ReadAt(if waiting.Some? then waiting.value else [], 0, env.p.secretSize)
  }

  /** Encrypt::move. */
  predicate MoveStep(env: Env, s: Session, s': Session, i: nat)
    requires i < |s.reqs|
  {
    var r := s.reqs[i];
    match r.stage
    case MoveCheck => s' == SetStage(s, i, if s.status != UNKNOWN then Failed else MoveRead)
    case MoveRead =>
      s' == SetData(s, i, MoveWrite, MoveBuffer(env, s.waiting))
    case MoveWrite => s' == SetStage(s, i, MoveMark).(secret := Some(r.data))
    case MoveMark => s' == SetStage(s, i, MoveRemove).(status := INVALID)
    case MoveRemove => s' == SetStage(s, i, Writing(0)).(waiting := None)
    case _ => false
  }

  /** Decrypt::process after the response: the first write creates the chunk file; a later
      one goes nowhere once gather has unlinked it. */
  ghost predicate WriteStep(env: Env, s: Session, s': Session, i: nat)
    requires env.Ok() && i < |s.reqs|
  {
    var r := s.reqs[i];
    r.stage.Writing?
    && var n := r.stage.n;
       if n < DecryptedBlocks(env) then
         n < |r.resp|
         && s' == SetStage(s, i, Writing(n + 1)).(
                    chunks := if n == 0 || i in s.chunks
                              then Append(s.chunks, i, DecryptBlock(env.Product(s.keyC), r.resp[n], env.p.q))
                              else s.chunks)
       else s' == SetStage(s, i, Done)
  }

  /** The next access of request i, for chunk i. */
  ghost predicate RequestStep(env: Env, s: Session, s': Session, i: nat)
    requires env.Ok()
  {
    i < |s.reqs|
    && (ServeStep(env, s, s', i) || CountStep(env, s, s', i) || MoveStep(env, s, s', i) || WriteStep(env, s, s', i))
  }

  /** A request may fail at any time before its increment: encryption, transport or proxy. */
  predicate RequestFault(s: Session, s': Session, i: nat) {
    i < |s.reqs| && s.reqs[i].stage in {Sent, Guarded, Opening, Reading, Encrypting, Counting}
    && s' == SetStage(s, i, Failed)
  }

  // ----- the client

  predicate Terminal(stage: Stage) {
    stage == Done || stage == Failed
  }

  ghost predicate AfterJoin(env: Env, s: Session, s': Session, first: nat)
    requires env.Ok()
  {
    s' == s.(client := if s.clientCount >= env.Total() then Gathering(0) else Draining(first))
  }

  ghost predicate Decide(env: Env, s: Session, s': Session) {
    |s.buffer| >= CRC_LEN && s' == s.(client := if CrcOk(env.crc, s.buffer) then ReportValid else ReportInvalid)
  }

  /** What a read of one chunk takes from a chunk file. */
  function ChunkPart(env: Env, data: Bytes): (part: Bytes)
    ensures part <= data && |part| <= env.p.ChunkSize() && (|part| == |data| || |part| == env.p.ChunkSize())
  {
    if |data| <= env.p.ChunkSize() then data else data[..env.p.ChunkSize()]
  }

  /** One round of gather: a chunk file that exists goes to its place and is removed. */
  function ReadChunk(env: Env, s: Session, num: nat): Session {
    var found := num in s.chunks && num * env.p.ChunkSize() + env.p.ChunkSize() <= |s.buffer|;
    var part := if found then ChunkPart(env, s.chunks[num]) else [];
    var t := s.(client := Gathering(num + 1), got := s.got + [|part|]);
    if found then t.(buffer := Splice(s.buffer, num * env.p.ChunkSize(), part), chunks := s.chunks - {num}) else t
  }

  ghost predicate ClientStep(env: Env, s: Session, s': Session)
    requires env.Ok()
  {
    match s.client
    case Dispatching(first) =>
      var progress := s.clientCount + 1;
      var stop := progress >= env.Total() || progress - first >= env.p.clientThreads;
      var t := s.(clientCount := progress, client := if stop then Joining(first, first) else Dispatching(first));
      s' == if progress <= env.Total() && s.clientCount < |s.reqs| then SetStage(t, s.clientCount, Sent) else t
    case Joining(first, next) =>
      if next < s.clientCount && next < |s.reqs| then
        Terminal(s.reqs[next].stage)
        && if s.reqs[next].stage == Done then s' == s.(client := Joining(first, next + 1)) else AfterJoin(env, s, s', first)
      else AfterJoin(env, s, s', first)
    // leaving the scope of the futures waits for all of them
    case Draining(first) =>
      (forall i :: first <= i < s.clientCount && i < |s.reqs| ==> Terminal(s.reqs[i].stage))
      && s' == s.(client := Dispatching(s.clientCount))
    case Gathering(num) =>
      if num < s.clientCount then s' == ReadChunk(env, s, num) else Decide(env, s, s')
    case ReportValid => s' == s.(status := VALID, client := Storing)
    case Storing => s' == s.(clientFile := Some(s.buffer), client := Closing)
    case ReportInvalid => s' == s.(status := INVALID, client := Removing)
    // the file system may refuse the removal
    case Removing => s' == s.(secret := s'.secret, client := Closing) && (s'.secret == None || s'.secret == s.secret)
    case Closing =>
      (forall i :: 0 <= i < |s.reqs| ==> Terminal(s.reqs[i].stage)) && s' == s.(client := Finished)
    case Finished => false
  }

  ghost predicate Next(env: Env, s: Session, s': Session)
    requires env.Ok()
  {
    ClientStep(env, s, s') || exists i: nat :: RequestStep(env, s, s', i) || RequestFault(s, s', i)
  }

  ghost predicate Run(env: Env, run: seq<Session>)
    requires env.Ok()
  {
    run != [] && Init(env, run[0]) && forall n :: 0 <= n < |run| - 1 ==> StepAt(env, run, n)
  }

  /** The step from run[n]. As the name of a step it is also what the quantifiers over runs are
      instantiated with. */
  ghost predicate StepAt(env: Env, run: seq<Session>, n: nat)
    requires env.Ok() && n < |run| - 1
  {
    Next(env, run[n], run[n + 1])
  }
}
