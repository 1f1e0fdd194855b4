/** The client's side of a transfer as it is written: Decrypt::process appends decrypted
    blocks to chunk files, Decrypt::gather reads them into one buffer, checks the checksum,
    reports and stores. Both are proved to be runs of the steps of module Transfer. */
module ClientNode {
  import opened Arith
  import opened Bits
  import opened Buffers
  import opened Lwe
  import opened Nodes
  import opened SecretFile
  import opened Sequences
  import opened Tiling
  import opened Transfer
  import opened Wrappers

  // ----- one response

  /** Chunk i after n blocks were written to it. */
  function WithBlocks(env: Env, chunks: map<nat, Bytes>, i: nat, resp: seq<Block>, n: nat, key: Bytes): map<nat, Bytes>
    requires env.Ok() && n <= |resp|
  {
    if n == 0 then chunks else Append(chunks, i, Plaintexts(env.Product(key), resp, n, env.p.q))
  }

  lemma WithOneMore(env: Env, chunks: map<nat, Bytes>, i: nat, resp: seq<Block>, n: nat, key: Bytes)
    requires env.Ok() && n < |resp|
    ensures WithBlocks(env, chunks, i, resp, n + 1, key)
         == Append(WithBlocks(env, chunks, i, resp, n, key), i, DecryptBlock(env.Product(key), resp[n], env.p.q))
  {
    var block := DecryptBlock(env.Product(key), resp[n], env.p.q);
    var had := if i in chunks then chunks[i] else [];
    if n == 0 {
      assert Plaintexts(env.Product(key), resp, 1, env.p.q) == [] + block;
      assert [] + block == block;
    } else {
      var sofar := Plaintexts(env.Product(key), resp, n, env.p.q);
      assert had + sofar + block == had + (sofar + block);
    }
  }

  function Receiving(env: Env, s: Session, i: nat, n: nat): Session
    requires env.Ok() && i < |s.reqs| && n <= |s.reqs[i].resp|
  {
    SetStage(s, i, Writing(n)).(chunks := WithBlocks(env, s.chunks, i, s.reqs[i].resp, n, s.keyC))
  }

  lemma WriteBlock(env: Env, s: Session, i: nat, n: nat)
    requires env.Ok() && i < |s.reqs| && n < |s.reqs[i].resp| == env.p.eachNum
    ensures WriteStep(env, Receiving(env, s, i, n), Receiving(env, s, i, n + 1), i)
  {
    DecryptCoversIff(env.p.eachNum, env.p.runningThreads);
    var resp := s.reqs[i].resp;
    WithOneMore(env, s.chunks, i, resp, n, s.keyC);
    assert n > 0 ==> i in WithBlocks(env, s.chunks, i, resp, n, s.keyC);
    assert Receiving(env, s, i, n).reqs[i] == s.reqs[i].(stage := Writing(n));
  }

  /** The steps that write the first k blocks. */
  lemma {:induction false} WritePath(env: Env, before: seq<Session>, s: Session, i: nat, k: nat) returns (path: seq<Session>)
    requires env.Ok() && i < |s.reqs| && k <= |s.reqs[i].resp| == env.p.eachNum
    requires RequestPath(env, before, i) && Last(before) == Receiving(env, s, i, 0)
    ensures RequestPath(env, path, i) && before <= path && Last(path) == Receiving(env, s, i, k)
  {
    path := before;
    if k > 0 {
      var rest := WritePath(env, before, s, i, k - 1);
      WriteBlock(env, s, i, k - 1);
      ExtendRequest(env, rest, Receiving(env, s, i, k), i);
      path := rest + [Receiving(env, s, i, k)];
    }
  }

  lemma WriteLast(env: Env, s: Session, i: nat)
    requires env.Ok() && i < |s.reqs| && |s.reqs[i].resp| == env.p.eachNum
    ensures var t := Receiving(env, s, i, env.p.eachNum); WriteStep(env, t, SetStage(t, i, Done), i)
  {
    DecryptCoversIff(env.p.eachNum, env.p.runningThreads);
  }

  // ----- gathering

  function Assembling(s: Session, num: nat, buffer: Bytes, chunks: map<nat, Bytes>, got: seq<nat>): Session {
    s.(client := Gathering(num), buffer := buffer, chunks := chunks, got := got)
  }

  /** The report, what it does on the server, and what the client keeps. */
  lemma ReportPath(env: Env, before: seq<Session>, removable: bool) returns (path: seq<Session>)
    requires env.Ok() && ClientPath(env, before) && Last(before).client == Gathering(Last(before).clientCount)
    requires |Last(before).buffer| >= CRC_LEN
    ensures ClientPath(env, path) && before <= path
    ensures var s := Last(before);
            Last(path) == if CrcOk(env.crc, s.buffer)
                          then s.(client := Closing, status := VALID, clientFile := Some(s.buffer))
                          else s.(client := Closing, status := INVALID, secret := if removable then None else s.secret)
  {
    var s := Last(before);
    var ok := CrcOk(env.crc, s.buffer);
    var s1 := s.(client := if ok then ReportValid else ReportInvalid);
    assert Decide(env, s, s1);
    ExtendClient(env, before, s1);
    var s2 := if ok then s1.(status := VALID, client := Storing) else s1.(status := INVALID, client := Removing);
    ExtendClient(env, before + [s1], s2);
    var s3 := if ok then s2.(clientFile := Some(s.buffer), client := Closing) else s2.(secret := if removable then None else s.secret, client := Closing);
    ExtendClient(env, before + [s1] + [s2], s3);
    path := before + [s1] + [s2] + [s3];
  }

  /** The client's chunk files and secret file of one index. */
  class Client {
    const env: Env
    const key: Bytes
    var chunks: map<nat, Bytes>
    var file: Option<Bytes>

    constructor (env: Env, key: Bytes)
      ensures this.env == env && this.key == key && chunks == map[] && file == None
    {
      this.env, this.key := env, key;
      chunks, file := map[], None;
    }

    ghost predicate Mirrors(s: Session)
      reads this
    {
      s.chunks == chunks && s.clientFile == file && s.keyC == key
    }

    /** Writing what one thread has decrypted. */
    method WriteAll(progress: nat, res: seq<Bytes>, ghost had: map<nat, Bytes>, ghost resp: seq<Block>, ghost written: nat)
      requires env.Ok() && written + |res| <= |resp|
      requires chunks == WithBlocks(env, had, progress, resp, written, key)
      requires forall j :: 0 <= j < |res| ==> res[j] == DecryptBlock(env.Product(key), resp[written + j], env.p.q)
      modifies this`chunks
      ensures chunks == WithBlocks(env, had, progress, resp, written + |res|, key)
    {
      for j := 0 to |res|
        invariant chunks == WithBlocks(env, had, progress, resp, written + j, key)
      {
        WithOneMore(env, had, progress, resp, written + j, key);
        chunks := Append(chunks, progress, res[j]);
      }
    }

    /** One thread: its blocks decrypted and written after those of the threads before it. */
    method WriteThread(progress: nat, secrets: seq<Secret>, t: nat, ghost had: map<nat, Bytes>)
      requires env.Ok() && |secrets| == env.p.eachNum && t < env.p.runningThreads
      requires 0 <= Reached(|secrets|, env.p.runningThreads, t) <= |secrets|
      requires chunks == WithBlocks(env, had, progress, Blocks(secrets), Reached(|secrets|, env.p.runningThreads, t), key)
      modifies this`chunks
      ensures 0 <= Reached(|secrets|, env.p.runningThreads, t + 1) <= |secrets|
      ensures chunks == WithBlocks(env, had, progress, Blocks(secrets), Reached(|secrets|, env.p.runningThreads, t + 1), key)
    {
      var threads := env.p.runningThreads;
      Reaches(|secrets|, threads, t);
      var res := DecryptSecretsGpu(env.Product(key), secrets, Offset(|secrets|, threads, t), t, threads, env.p.q);
      WriteAll(progress, res, had, Blocks(secrets), Reached(|secrets|, threads, t));
    }

    /** Decrypting and writing, thread by thread in order. */
    method WriteThreads(progress: nat, secrets: seq<Secret>)
      requires env.Ok() && |secrets| == env.p.eachNum
      modifies this`chunks
      ensures chunks == WithBlocks(env, old(chunks), progress, Blocks(secrets), env.p.eachNum, key)
    {
      var threads := env.p.runningThreads;
      ghost var had := chunks;
      Reaches(|secrets|, threads, 0);
      for t := 0 to threads
        invariant 0 <= Reached(|secrets|, threads, t) <= |secrets|
        invariant chunks == WithBlocks(env, had, progress, Blocks(secrets), Reached(|secrets|, threads, t), key)
      {
        WriteThread(progress, secrets, t, had);
      }
      DecryptCoversIff(|secrets|, threads);
    }

    /** Decrypt::process once the response is there. */
    method Process(progress: nat, code: nat, secrets: seq<Secret>, ghost before: seq<Session>)
        returns (ok: bool, ghost path: seq<Session>)
      requires env.Ok() && RequestPath(env, before, progress) && Mirrors(Last(before)) && progress < |Last(before).reqs|
      requires code == OK ==> |secrets| == env.p.eachNum && Last(before).reqs[progress].stage == Writing(0)
                              && Last(before).reqs[progress].resp == Blocks(secrets)
      modifies this`chunks
      ensures ok == (code == OK)
      ensures !ok ==> path == before && chunks == old(chunks)
      ensures ok ==>
        chunks == Append(old(chunks), progress, Plaintexts(env.Product(key), Blocks(secrets), env.p.eachNum, env.p.q))
      ensures ok ==> RequestPath(env, path, progress) && before <= path
      ensures ok ==> Last(path) == SetStage(Last(before), progress, Done).(chunks := chunks)
    {
      path := before;
      if code != OK {
        return false, path;
      }
      ghost var s := Last(before);
      assert Receiving(env, s, progress, 0) == s by {
        assert s.reqs[progress := s.reqs[progress]] == s.reqs;
      }
      path := WritePath(env, before, s, progress, env.p.eachNum);
      WriteThreads(progress, secrets);
      WriteLast(env, s, progress);
      ghost var received := Receiving(env, s, progress, env.p.eachNum);
      ExtendRequest(env, path, SetStage(received, progress, Done), progress);
      path := path + [SetStage(received, progress, Done)];
      ok := true;
    }

    /** One round of the gathering loop: the chunk file, if it is there, goes to its place in
        the buffer and is removed. */
    method GatherChunk(num: nat, bufferVec: array<Byte>, ghost s: Session, ghost had: seq<nat>) returns (ghost got: seq<nat>)
      requires env.Ok() && num < env.Total() && bufferVec.Length == env.p.secretSize
      modifies this`chunks, bufferVec
      ensures Assembling(s, num + 1, bufferVec[..], chunks, got)
           == ReadChunk(env, Assembling(s, num, old(bufferVec[..]), old(chunks), had), num)
    {
      var offset := num * env.p.ChunkSize();
      MulSucc(num, env.p.ChunkSize());
      MulMonotone(num + 1, env.Total(), env.p.ChunkSize());
      got := had + [if num in chunks then |ChunkPart(env, chunks[num])| else 0];
      if num in chunks {
        CopyInto(bufferVec, offset, ChunkPart(env, chunks[num]));
        chunks := chunks - {num};
      }
    }

    /** The checksum comparison, the report and the final copy. */
    method Report(buffer: Bytes, server: Server, removable: bool)
      requires server.generated && |buffer| >= CRC_LEN
      modifies this`file, server`status, server`secret
      ensures if CrcOk(env.crc, buffer)
              then server.status == VALID && server.secret == old(server.secret) && file == Some(buffer)
              else server.status == INVALID && server.secret == (if removable then None else old(server.secret))
                   && file == old(file)
    {
      var crc32Send := buffer[|buffer| - CRC_LEN..];
      var crc32Cal := env.crc(buffer[..|buffer| - CRC_LEN]);
      if Trailer(crc32Cal) != crc32Send {
        var code := server.ResultReport(INVALID, removable);
      } else {
        var code := server.ResultReport(VALID, removable);
        file := Some(buffer);
      }
    }

    /** Decrypt::gather. */
    method Gather(progress: nat, server: Server, removable: bool, ghost before: seq<Session>) returns (ghost path: seq<Session>)
      requires env.Ok() && server.env == env && server.generated && env.p.secretSize >= CRC_LEN
      requires ClientPath(env, before) && Mirrors(Last(before)) && server.Mirrors(Last(before))
      requires Last(before).client == Gathering(0) && Last(before).clientCount == progress <= env.Total()
      requires Last(before).buffer == Zeros(env.p.secretSize, 0)
      modifies this, server`status, server`secret
      ensures ClientPath(env, path) && before <= path && Mirrors(Last(path)) && server.Mirrors(Last(path))
      ensures Last(path).client == Closing && |Last(path).buffer| == env.p.secretSize
      ensures Last(path).reqs == Last(before).reqs
      ensures if CrcOk(env.crc, Last(path).buffer)
              then server.status == VALID && server.secret == old(server.secret) && file == Some(Last(path).buffer)
              else server.status == INVALID && server.secret == (if removable then None else old(server.secret))
                   && file == old(file)
    {
      path := before;
      ghost var s := Last(before);
      var size := env.p.secretSize;
      var bufferVec := new Byte[size](_ => 0);
      assert bufferVec[..] == Zeros(size, 0);
      ghost var got := s.got;
      for num := 0 to progress
        invariant ClientPath(env, path) && before <= path
        invariant Last(path) == Assembling(s, num, bufferVec[..], chunks, got)
        invariant server.Mirrors(s) && file == s.clientFile && server.generated
      {
        got := GatherChunk(num, bufferVec, s, got);
        ghost var s' := Assembling(s, num + 1, bufferVec[..], chunks, got);
        ExtendClient(env, path, s');
        path := path + [s'];
      }
      var buffer := bufferVec[..];
      path := ReportPath(env, path, removable);
      Report(buffer, server, removable);
    }
  }
}
