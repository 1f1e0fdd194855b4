/** The handlers as they are written, one after another statement, on the fields they change.
    Each is proved to be a run of the steps of module Transfer, so that what holds for every
    interleaving of those steps holds for any number of these handlers running at once. */
module Nodes {
  import opened Bits
  import opened Buffers
  import opened Lwe
  import opened Sequences
  import opened Tiling
  import opened Transfer
  import opened Wrappers

  // ----- runs of one participant

  ghost predicate RequestPath(env: Env, path: seq<Session>, i: nat)
    requires env.Ok()
  {
    path != [] && forall n :: 0 <= n < |path| - 1 ==> RequestAt(env, path, n, i)
  }

  ghost predicate RequestAt(env: Env, path: seq<Session>, n: nat, i: nat)
    requires env.Ok() && n < |path| - 1
  {
    RequestStep(env, path[n], path[n + 1], i) || RequestFault(path[n], path[n + 1], i)
  }

  ghost predicate ClientPath(env: Env, path: seq<Session>)
    requires env.Ok()
  {
    path != [] && forall n :: 0 <= n < |path| - 1 ==> ClientAt(env, path, n)
  }

  ghost predicate ClientAt(env: Env, path: seq<Session>, n: nat)
    requires env.Ok() && n < |path| - 1
  {
    ClientStep(env, path[n], path[n + 1])
  }

  lemma ExtendRequest(env: Env, path: seq<Session>, s: Session, i: nat)
    requires env.Ok() && RequestPath(env, path, i)
    requires RequestStep(env, Last(path), s, i) || RequestFault(Last(path), s, i)
    ensures RequestPath(env, path + [s], i)
  {
    var longer := path + [s];
    forall n | 0 <= n < |longer| - 1
      ensures RequestAt(env, longer, n, i)
    {
      if n < |path| - 1 {
        assert RequestAt(env, path, n, i);
      }
    }
  }

  lemma ExtendClient(env: Env, path: seq<Session>, s: Session)
    requires env.Ok() && ClientPath(env, path) && ClientStep(env, Last(path), s)
    ensures ClientPath(env, path + [s])
  {
    var longer := path + [s];
    forall n | 0 <= n < |longer| - 1
      ensures ClientAt(env, longer, n)
    {
      if n < |path| - 1 {
        assert ClientAt(env, path, n);
      }
    }
  }

  /** What a participant does on its own extends a run of the whole transfer. */
  lemma PathsAreRuns(env: Env, run: seq<Session>, path: seq<Session>, i: nat)
    requires env.Ok() && Run(env, run) && path != [] && path[0] == Last(run)
    requires RequestPath(env, path, i) || ClientPath(env, path)
    ensures Run(env, run + path[1..])
  {
    var longer := run + path[1..];
    forall n | 0 <= n < |longer| - 1
      ensures StepAt(env, longer, n)
    {
      if n < |run| - 1 {
        assert StepAt(env, run, n);
      } else {
        var m := n - (|run| - 1);
        assert longer[n] == path[m] && longer[n + 1] == path[m + 1];
        assert RequestPath(env, path, i) ==> RequestAt(env, path, m, i);
        assert ClientPath(env, path) ==> ClientAt(env, path, m);
      }
    }
  }

  // ----- the server

  const OK := 200
  const PROGRESS_ERROR := 201
  const FAILURE := 500

  lemma RefusedPath(env: Env, before: seq<Session>, i: nat) returns (path: seq<Session>)
    requires env.Ok() && RequestPath(env, before, i)
    requires i < |Last(before).reqs| ==> Last(before).reqs[i].stage == Sent
    ensures RequestPath(env, path, i) && before <= path
    ensures Last(path) == if i < |Last(before).reqs| then SetStage(Last(before), i, Failed) else Last(before)
  {
    path := before;
    if i < |Last(before).reqs| {
      var f := SetStage(Last(before), i, Failed);
      ExtendRequest(env, before, f, i);
      path := before + [f];
    }
  }

  lemma GuardPath(env: Env, before: seq<Session>, i: nat) returns (path: seq<Session>)
    requires env.Ok() && RequestPath(env, before, i) && Last(before).waiting.Some? && Last(before).secret == None
    requires i < |Last(before).reqs| ==> Last(before).reqs[i].stage == Sent
    ensures RequestPath(env, path, i) && before <= path
    ensures Last(path) == if i < |Last(before).reqs| then SetStage(Last(before), i, Opening) else Last(before)
  {
    path := before;
    if i < |Last(before).reqs| {
      var s1 := SetStage(Last(before), i, Guarded);
      ExtendRequest(env, before, s1, i);
      var s2 := SetStage(s1, i, Opening);
      ExtendRequest(env, before + [s1], s2, i);
      path := before + [s1] + [s2];
      assert s2.reqs == SetStage(Last(before), i, Opening).reqs;
    }
  }

  /** From s to s' a request has changed nothing but itself and the server's members. */
  predicate ServerOnly(s: Session, s': Session, i: nat) {
    |s'.reqs| == |s.reqs|
    && s' == s.(waiting := s'.waiting, secret := s'.secret, status := s'.status, count := s'.count, mover := s'.mover,
                reqs := if i < |s.reqs| then s.reqs[i := s'.reqs[i]] else s.reqs)
  }

  /** The increment of a request that has read and encrypted its chunk is next. */
  lemma ReadPath(env: Env, before: seq<Session>, i: nat, resp: seq<Block>) returns (path: seq<Session>)
    requires env.Ok() && RequestPath(env, before, i) && i < |Last(before).reqs|
    requires Last(before).reqs[i].stage == Opening && Last(before).waiting.Some?
    requires ChunkEncryption(env, Last(before).keyS, ChunkOf(env, Last(before).waiting.value, i), resp)
    ensures RequestPath(env, path, i) && before <= path
    ensures var s, chunk := Last(before), ChunkOf(env, Last(before).waiting.value, i);
            Last(path) == s.(reqs := s.reqs[i := Request(Counting, chunk, resp)])
  {
    var s0 := Last(before);
    var chunk := ChunkOf(env, s0.waiting.value, i);
    var s1 := SetData(s0, i, Reading, s0.waiting.value);
    ExtendRequest(env, before, s1, i);
    var s2 := SetData(s1, i, Encrypting, chunk);
    ExtendRequest(env, before + [s1], s2, i);
    var s3 := SetResponse(s2, i, resp);
    ExtendRequest(env, before + [s1] + [s2], s3, i);
    path := before + [s1] + [s2] + [s3];
    assert s3.reqs == s0.reqs[i := Request(Counting, chunk, resp)];
  }

  /** move, file access by file access. */
  lemma MovePath(env: Env, before: seq<Session>, i: nat, copy: Bytes) returns (path: seq<Session>)
    requires env.Ok() && RequestPath(env, before, i) && i < |Last(before).reqs|
    requires Last(before).reqs[i].stage == MoveCheck && Last(before).status == UNKNOWN
    requires copy == MoveBuffer(env, Last(before).waiting)
    ensures RequestPath(env, path, i) && before <= path
    ensures var s := Last(before);
            Last(path) == s.(reqs := s.reqs[i := Request(Writing(0), copy, s.reqs[i].resp)],
                             secret := Some(copy), status := INVALID, waiting := None)
  {
    var s0 := Last(before);
    var s1 := SetStage(s0, i, MoveRead);
    ExtendRequest(env, before, s1, i);
    var s2 := SetData(s1, i, MoveWrite, copy);
    ExtendRequest(env, before + [s1], s2, i);
    var s3 := SetStage(s2, i, MoveMark).(secret := Some(copy));
    ExtendRequest(env, before + [s1] + [s2], s3, i);
    var s4 := SetStage(s3, i, MoveRemove).(status := INVALID);
    ExtendRequest(env, before + [s1] + [s2] + [s3], s4, i);
    var s5 := SetStage(s4, i, Writing(0)).(waiting := None);
    ExtendRequest(env, before + [s1] + [s2] + [s3] + [s4], s5, i);
    path := before + [s1] + [s2] + [s3] + [s4] + [s5];
    assert s5.reqs == s0.reqs[i := Request(Writing(0), copy, s0.reqs[i].resp)];
  }

  /** The blocks of EncryptChunk are an encryption of the chunk. */
  lemma BlocksEncrypt(env: Env, key: Bytes, secrets: seq<Secret>, chunk: Bytes, index: nat)
    requires env.Ok() && |chunk| == env.p.ChunkSize() && |secrets| == env.p.eachNum
    requires Encrypted(env.Product(key), secrets, chunk, 0, index, env.p.eachNum, env.p.sLen, env.p.q)
    ensures ChunkEncryption(env, key, chunk, Blocks(secrets))
  {
    var resp := Blocks(secrets);
    forall k | 0 <= k < |resp|
      ensures BlockOf(env.Product(key), chunk, k, env.p.sLen, env.p.q, resp[k])
    {
      assert BlockOf(env.Product(key), chunk, 0 + k, env.p.sLen, env.p.q, secrets[k].blk);
    }
  }

  /** The server's files and Redis members that belong to one index. */
  class Server {
    const env: Env
    const key: Bytes
    /** The index is in the time zset, and its running key is on disk. */
    var generated: bool
    var running: bool
    var waiting: Option<Bytes>
    var secret: Option<Bytes>
    var status: nat
    var count: nat

    constructor (env: Env, key: Bytes, file: Bytes)
      ensures this.env == env && this.key == key && generated && running
      ensures waiting == Some(file) && secret == None && status == UNKNOWN && count == 0
    {
      this.env, this.key := env, key;
      generated, running := true, true;
      waiting, secret, status, count := Some(file), None, UNKNOWN, 0;
    }

    ghost predicate Mirrors(s: Session)
      reads this
    {
      s.waiting == waiting && s.secret == secret && s.status == status && s.count == count && s.keyS == key
    }

    /** Encrypt::move. */
    method Move(ghost before: seq<Session>, i: nat) returns (moved: bool, ghost path: seq<Session>)
      requires env.Ok() && RequestPath(env, before, i) && Mirrors(Last(before))
      requires i < |Last(before).reqs| && Last(before).reqs[i].stage == MoveCheck
      modifies this`waiting, this`secret, this`status
      ensures RequestPath(env, path, i) && before <= path && Mirrors(Last(path))
      ensures ServerOnly(Last(before), Last(path), i)
      ensures i < |Last(path).reqs| && Last(path).reqs[i].resp == Last(before).reqs[i].resp
      ensures moved == (old(status) == UNKNOWN)
      ensures moved ==>
        secret == Some(MoveBuffer(env, old(waiting)))
        && status == INVALID && waiting == None && count == old(count) && Last(path).reqs[i].stage == Writing(0)
      ensures !moved ==> unchanged(this) && Last(path).reqs[i].stage == Failed
    {
      if status != UNKNOWN {
        ghost var f := SetStage(Last(before), i, Failed);
        ExtendRequest(env, before, f, i);
        return false, before + [f];
      }
      var copy := MoveBuffer(env, waiting);
      secret := Some(copy);
      status := INVALID;
      waiting := None;
      path := MovePath(env, before, i, copy);
      moved := true;
    }

    /** What the increment of a request leads to: the last one moves the secret from the
        waiting directory to the secrets, INVALID for now, unless the index has a status. */
    ghost predicate Counted(waiting0: Option<Bytes>, secret0: Option<Bytes>, status0: nat, count0: nat, code: nat)
      requires env.Ok()
      reads this
    {
      && count == count0 + 1
      && if count >= env.Total() && status0 == UNKNOWN
         then code == OK && waiting == None && secret == Some(MoveBuffer(env, waiting0)) && status == INVALID
         else code == (if count >= env.Total() then FAILURE else OK)
              && waiting == waiting0 && secret == secret0 && status == status0
    }

    /** data encrypts chunk number progress of the file, its blocks numbered over all chunks. */
    ghost predicate Answers(file: Bytes, progress: nat, data: seq<Secret>)
      requires env.Ok()
    {
      |data| == env.p.eachNum
      && Encrypted(env.Product(key), data, ChunkOf(env, file, progress), 0, progress * env.p.eachNum,
                   env.p.eachNum, env.p.sLen, env.p.q)
    }

    /** Encrypt::process. */
    method Process(progress: nat, ghost before: seq<Session>)
        returns (code: nat, data: seq<Secret>, ghost path: seq<Session>)
      requires env.Ok() && RequestPath(env, before, progress) && Mirrors(Last(before))
      requires |Last(before).reqs| == env.Total()
      requires progress < env.Total() ==> Last(before).reqs[progress].stage == Opening
      modifies this`waiting, this`secret, this`status, this`count
      ensures RequestPath(env, path, progress) && before <= path && Mirrors(Last(path))
      ensures ServerOnly(Last(before), Last(path), progress)
      ensures progress < env.Total() ==> Last(path).reqs[progress].stage == if code == OK then Writing(0) else Failed
      ensures progress < env.Total() && code == OK ==> Last(path).reqs[progress].resp == Blocks(data)
      ensures old(waiting) == None ==> code == FAILURE && data == [] && unchanged(this)
      ensures old(waiting).Some? && progress >= env.Total() ==>
        code == PROGRESS_ERROR && unchanged(this)
        && data == [Secret(Block([], []), (old(count) + 0xFFFF_FFFF) % 0x1_0000_0000)]
      ensures old(waiting).Some? && progress < env.Total() ==> Counted(old(waiting), old(secret), old(status), old(count), code)
      ensures code == OK ==> old(waiting).Some? && Answers(old(waiting).value, progress, data)
      ensures code == FAILURE ==> data == []
    {
      path, data := before, [];
      ghost var s := Last(before);
      if waiting == None {
        if progress < env.Total() {
          ghost var f := SetStage(s, progress, Failed);
          ExtendRequest(env, before, f, progress);
          path := before + [f];
        }
        return FAILURE, [], path;
      }
      if progress >= env.Total() {
        var redisProgress := count;
        return PROGRESS_ERROR, [Secret(Block([], []), (redisProgress + 0xFFFF_FFFF) % 0x1_0000_0000)], path;
      }
      var chunk := ReadAt(waiting.value, progress * env.p.ChunkSize(), env.p.ChunkSize());
      data := EncryptChunk(env.Product(key), chunk, progress, env.p.eachNum, env.p.runningThreads, env.p.sLen, env.p.q);
      BlocksEncrypt(env, key, data, chunk, progress * env.p.eachNum);
      path := ReadPath(env, before, progress, Blocks(data));
      ghost var counting := Last(path);
      count := count + 1;
      if count >= env.Total() {
        ghost var s' := SetStage(counting, progress, MoveCheck).(count := count, mover := Some(progress));
        ExtendRequest(env, path, s', progress);
        var moved: bool;
        moved, path := Move(path + [s'], progress);
        if !moved {
          return FAILURE, [], path;
        }
      } else {
        ghost var s' := SetStage(counting, progress, Writing(0)).(count := count);
        ExtendRequest(env, path, s', progress);
        path := path + [s'];
      }
      code := OK;
    }

    /** The getData endpoint: its guards in order, then process. */
    method GetData(progress: nat, ghost before: seq<Session>)
        returns (code: nat, data: seq<Secret>, ghost path: seq<Session>)
      requires env.Ok() && RequestPath(env, before, progress) && Mirrors(Last(before))
      requires |Last(before).reqs| == env.Total()
      requires progress < env.Total() ==> Last(before).reqs[progress].stage == Sent
      modifies this`waiting, this`secret, this`status, this`count
      ensures RequestPath(env, path, progress) && before <= path && Mirrors(Last(path))
      ensures ServerOnly(Last(before), Last(path), progress)
      ensures progress < env.Total() ==> Last(path).reqs[progress].stage == if code == OK then Writing(0) else Failed
      ensures progress < env.Total() && code == OK ==> Last(path).reqs[progress].resp == Blocks(data)
      ensures !generated || !running || old(waiting) == None || old(secret).Some? ==>
        code == FAILURE && data == [] && unchanged(this)
      ensures generated && running && old(waiting).Some? && old(secret) == None ==>
        if progress < env.Total() then Counted(old(waiting), old(secret), old(status), old(count), code)
        else code == PROGRESS_ERROR && unchanged(this)
      ensures code == OK ==> old(waiting).Some? && Answers(old(waiting).value, progress, data)
    {
      if !generated || !running || waiting == None || secret.Some? {
        path := RefusedPath(env, before, progress);
        return FAILURE, [], path;
      }
      path := GuardPath(env, before, progress);
      code, data, path := Process(progress, path);
    }

    /** The resultReport endpoint; removable says whether the file system lets the file go. */
    method ResultReport(isValid: nat, removable: bool) returns (code: nat)
      modifies this`status, this`secret
      ensures !generated ==> code == FAILURE && unchanged(this)
      ensures generated && isValid == VALID ==> code == OK && status == VALID && secret == old(secret)
      ensures generated && isValid != VALID ==>
        code == (if old(secret).Some? && removable then OK else FAILURE) && status == INVALID
        && secret == if removable then None else old(secret)
    {
      if !generated {
        return FAILURE;
      }
      if isValid == VALID {
        status := VALID;
        return OK;
      }
      status := INVALID;
      if secret == None || !removable {
        return FAILURE;
      }
      secret := None;
      code := OK;
    }
  }
}
