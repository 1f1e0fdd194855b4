/** The pulling loop and the handlers of both nodes put together: the whole transfer of one
    secret as a program, whichever requests fail. Its launches, joins, drains, handlers and its
    gather are one of the runs of module Transfer. */
module EndToEnd {
  import opened Bits
  import opened ClientNode
  import opened Nodes
  import opened SecretFile
  import opened Sequences
  import opened Transfer
  import opened TransferInvariant
  import opened TransferProgress
  import opened TransferTheorems
  import opened Wrappers

  /** The first done requests are over, as it was to happen; those up to the counter are sent. */
  predicate Stages(s: Session, outcomes: seq<bool>, done: nat)
    requires |outcomes| == |s.reqs|
  {
    forall j :: 0 <= j < |s.reqs| ==>
      s.reqs[j].stage == if j < done then (if outcomes[j] then Done else Failed) else if j < s.clientCount then Sent else Idle
  }

  ghost predicate At(env: Env, run: seq<Session>, c: ClientStage, outcomes: seq<bool>, count: nat, done: nat)
    requires env.Ok()
  {
    SharedRun(env, run) && Last(run).client == c && Last(run).clientCount == count <= env.Total()
    && |outcomes| == |Last(run).reqs| == env.Total()
    && done <= count && Stages(Last(run), outcomes, done) && Last(run).buffer == Zeros(env.p.secretSize, 0) && Last(run).got == []
  }

  ghost predicate InStep(server: Server, client: Client, env: Env, run: seq<Session>)
    requires env.Ok()
    reads server, client
  {
    run != [] && server.env == env && client.env == env && server.generated && server.running
    && server.Mirrors(Last(run)) && client.Mirrors(Last(run))
  }

  lemma ClientTakes(env: Env, run: seq<Session>, s: Session)
    requires env.Ok() && SharedRun(env, run) && ClientStep(env, Last(run), s)
    ensures SharedRun(env, run + [s])
  {
    var path := [Last(run), s];
    assert ClientPath(env, path);
    PathsAreRuns(env, run, path, 0);
    assert path[1..] == [s];
    assert (run + [s])[0] == run[0];
  }

  /** A request that has just been sent meets no guard and no status. */
  lemma NothingInTheWay(env: Env, run: seq<Session>, i: nat)
    requires env.Ok() && SharedRun(env, run) && i < |Last(run).reqs| && Last(run).reqs[i].stage == Sent
    requires Last(run).client.Joining?
    ensures Last(run).waiting.Some? && Last(run).secret == None && Last(run).status == UNKNOWN
  {
    RunKeeps(env, run, |run| - 1);
    NotAllCounted(Last(run).reqs, i);
  }

  /** Only request i has changed, and it is over. */
  predicate Answered(s: Session, s': Session, i: nat, ok: bool) {
    i < |s.reqs| == |s'.reqs| && s'.reqs == s.reqs[i := s'.reqs[i]] && s'.reqs[i].stage == (if ok then Done else Failed)
    && s'.clientCount == s.clientCount && s'.client == s.client && s'.buffer == s.buffer && s'.got == s.got
  }

  lemma ThenWritten(s: Session, served: Session, s': Session, i: nat)
    requires i < |s.reqs| && ServerOnly(s, served, i) && s' == SetStage(served, i, Done).(chunks := s'.chunks)
    ensures Answered(s, s', i, true)
  {
  }

  /** One request from the client's call to the written chunk file, or to its failure on the
      way there. */
  method Exchange(i: nat, succeeds: bool, server: Server, client: Client, env: Env, ghost s: Session)
      returns (ok: bool, ghost path: seq<Session>)
    requires env.Ok() && InStep(server, client, env, [s]) && i < |s.reqs| == env.Total() && s.reqs[i].stage == Sent
    requires s.waiting.Some? && s.secret == None && s.status == UNKNOWN
    modifies server, client
    ensures ok == succeeds && RequestPath(env, path, i) && path[0] == s
    ensures InStep(server, client, env, path) && Answered(s, Last(path), i, succeeds)
  {
    if !succeeds {
      path := FaultPath(env, s, i);
      return false, path;
    }
    ok, path := Answer(i, server, client, env, s);
  }

  method Answer(i: nat, server: Server, client: Client, env: Env, ghost s: Session)
      returns (ok: bool, ghost path: seq<Session>)
    requires env.Ok() && InStep(server, client, env, [s]) && i < |s.reqs| == env.Total() && s.reqs[i].stage == Sent
    requires s.waiting.Some? && s.secret == None && s.status == UNKNOWN
    modifies server, client
    ensures ok && RequestPath(env, path, i) && path[0] == s
    ensures InStep(server, client, env, path) && Answered(s, Last(path), i, true)
  {
    var code, data, answered := server.GetData(i, [s]);
    assert code == OK;
    ok, path := client.Process(i, code, data, answered);
    ThenWritten(s, Last(answered), Last(path), i);
  }

  lemma FaultPath(env: Env, s: Session, i: nat) returns (path: seq<Session>)
    requires env.Ok() && i < |s.reqs| && s.reqs[i].stage == Sent
    ensures RequestPath(env, path, i) && path[0] == s && Last(path) == SetStage(s, i, Failed)
    ensures Answered(s, Last(path), i, false)
  {
    ExtendRequest(env, [s], SetStage(s, i, Failed), i);
    path := [s] + [SetStage(s, i, Failed)];
  }

  /** The run that goes on with what one participant did. */
  lemma GoOn(env: Env, before: seq<Session>, path: seq<Session>, i: nat) returns (run: seq<Session>)
    requires env.Ok() && SharedRun(env, before) && path != [] && path[0] == Last(before)
    requires RequestPath(env, path, i) || ClientPath(env, path)
    ensures SharedRun(env, run) && Last(run) == Last(path) && run[0] == before[0]
  {
    PathsAreRuns(env, before, path, i);
    run := before + path[1..];
  }

  /** A batch of launches. */
  method DispatchBatch(env: Env, first: nat, ghost outcomes: seq<bool>, ghost before: seq<Session>)
      returns (count: nat, ghost run: seq<Session>)
    requires env.Ok() && At(env, before, Dispatching(first), outcomes, first, first) && first < env.Total()
    ensures first < count <= env.Total() && At(env, run, Joining(first, first), outcomes, count, first) && run[0] == before[0]
    ensures Last(run) == Last(before).(client := Joining(first, first), clientCount := count, reqs := Last(run).reqs)
  {
    count, run := first, before;
    while true
      invariant first <= count < env.Total() && At(env, run, Dispatching(first), outcomes, count, first) && run[0] == before[0]
      invariant Last(run) == Last(before).(client := Dispatching(first), clientCount := count, reqs := Last(run).reqs)
      decreases env.Total() - count
    {
      var progress := count + 1;
      var stop := progress >= env.Total() || progress - first >= env.p.clientThreads;
      ghost var s := Last(run).(clientCount := progress, client := if stop then Joining(first, first) else Dispatching(first));
      ghost var t := SetStage(s, count, Sent);
      ClientTakes(env, run, t);
      run := run + [t];
      count := progress;
      if stop {
        break;
      }
    }
  }

  /** What the launched requests do. */
  method ServeBatch(env: Env, first: nat, count: nat, outcomes: seq<bool>, server: Server, client: Client,
                    ghost before: seq<Session>) returns (ghost run: seq<Session>)
    requires env.Ok() && InStep(server, client, env, before)
    requires first < count && At(env, before, Joining(first, first), outcomes, count, first)
    modifies server, client
    ensures InStep(server, client, env, run)
    ensures At(env, run, Joining(first, first), outcomes, count, count) && run[0] == before[0]
  {
    run := before;
    for next := first to count
      invariant InStep(server, client, env, run) && At(env, run, Joining(first, first), outcomes, count, next)
      invariant run[0] == before[0]
    {
      NothingInTheWay(env, run, next);
      ghost var path;
      var ok;
      ok, path := Exchange(next, outcomes[next], server, client, env, Last(run));
      run := OneServed(env, run, path, first, outcomes, next, count);
    }
  }

  lemma OneServed(env: Env, before: seq<Session>, path: seq<Session>, first: nat, outcomes: seq<bool>, next: nat, count: nat)
      returns (run: seq<Session>)
    requires env.Ok() && At(env, before, Joining(first, first), outcomes, count, next) && next < count
    requires RequestPath(env, path, next) && path[0] == Last(before) && Answered(path[0], Last(path), next, outcomes[next])
    ensures At(env, run, Joining(first, first), outcomes, count, next + 1) && run[0] == before[0] && Last(run) == Last(path)
  {
    run := GoOn(env, before, path, next);
  }

  /** The joining loop, which stops at the first failure, and what follows it. */
  method Join(env: Env, first: nat, count: nat, outcomes: seq<bool>, ghost before: seq<Session>)
      returns (runningFlag: bool, ghost run: seq<Session>)
    requires env.Ok() && first < count && At(env, before, Joining(first, first), outcomes, count, count)
    ensures runningFlag <==> forall j :: first <= j < count ==> outcomes[j]
    ensures At(env, run, if count >= env.Total() then Gathering(0) else Draining(first), outcomes, count, count)
    ensures run[0] == before[0] && Last(run) == Last(before).(client := Last(run).client)
  {
    runningFlag, run := true, before;
    var next := first;
    while next < count
      invariant first <= next <= count && At(env, run, Joining(first, next), outcomes, count, count)
      invariant run[0] == before[0] && Last(run) == Last(before).(client := Last(run).client)
      invariant runningFlag && forall j :: first <= j < next ==> outcomes[j]
    {
      runningFlag := outcomes[next];
      if !runningFlag {
        break;
      }
      ghost var s := Last(run).(client := Joining(first, next + 1));
      ClientTakes(env, run, s);
      run := run + [s];
      next := next + 1;
    }
    ghost var s := Last(run).(client := if count >= env.Total() then Gathering(0) else Draining(first));
    assert AfterJoin(env, Last(run), s, first);
    ClientTakes(env, run, s);
    run := run + [s];
  }

  /** Leaving the scope of the futures when all of them are ready. */
  lemma Drain(env: Env, before: seq<Session>, first: nat, outcomes: seq<bool>, count: nat) returns (run: seq<Session>)
    requires env.Ok() && At(env, before, Draining(first), outcomes, count, count)
    ensures At(env, run, Dispatching(count), outcomes, count, count) && run[0] == before[0]
    ensures Last(run) == Last(before).(client := Dispatching(count))
  {
    var s := Last(before).(client := Dispatching(count));
    ClientTakes(env, before, s);
    run := before + [s];
  }

  /** What gather finds: the chunks whose requests succeeded, whole. */
  function Arrivals(env: Env, outcomes: seq<bool>): (got: seq<nat>)
    ensures |got| == |outcomes|
  {
    seq(|outcomes|, j requires 0 <= j < |outcomes| => if outcomes[j] then env.p.ChunkSize() else 0)
  }

  predicate Happened(s: Session, outcomes: seq<bool>) {
    |outcomes| == |s.reqs| && forall j :: 0 <= j < |s.reqs| ==> s.reqs[j].stage == if outcomes[j] then Done else Failed
  }

  /** Past pulling, with all requests over. */
  ghost predicate Settled(env: Env, s: Session, outcomes: seq<bool>)
    requires env.Ok()
  {
    Inv(env, s) && !Pulling(s.client) && Happened(s, outcomes) && s.got <= Arrivals(env, outcomes)
  }

  lemma SettledStays(env: Env, s: Session, s': Session, outcomes: seq<bool>)
    requires env.Ok() && Settled(env, s, outcomes) && ClientStep(env, s, s')
    ensures Settled(env, s', outcomes)
  {
    ClientKeeps(env, s, s');
    OtherDecreases(env, s, s');
    if s.client.Gathering? && s.client.num < s.clientCount {
      GatherArrivals(env, s, s', outcomes);
    } else {
      OtherKeepsGot(env, s, s');
    }
  }

  lemma GatherArrivals(env: Env, s: Session, s': Session, outcomes: seq<bool>)
    requires env.Ok() && ChunkInv(env, s) && BufferInv(env, s) && Happened(s, outcomes) && s.got <= Arrivals(env, outcomes)
    requires s.client.Gathering? && s.client.num < |s.reqs| && s' == ReadChunk(env, s, s.client.num)
    ensures s'.got <= Arrivals(env, outcomes)
  {
    var num := s.client.num;
    GatherGot(env, s, s');
    assert ChunkOk(env, s, num);
    FoundIsPiece(env, s, num);
    assert Found(env, s, num) == Arrivals(env, outcomes)[num];
  }

  lemma SettledNext(env: Env, path: seq<Session>, outcomes: seq<bool>, n: nat)
    requires env.Ok() && ClientPath(env, path) && n < |path| - 1 && Settled(env, path[n], outcomes)
    ensures Settled(env, path[n + 1], outcomes)
  {
    assert ClientAt(env, path, n);
    SettledStays(env, path[n], path[n + 1], outcomes);
  }

  lemma SettledAlong(env: Env, path: seq<Session>, outcomes: seq<bool>)
    requires env.Ok() && ClientPath(env, path) && Settled(env, path[0], outcomes)
    ensures Settled(env, Last(path), outcomes)
  {
    for n := 0 to |path| - 1
      invariant Settled(env, path[n], outcomes)
    {
      SettledNext(env, path, outcomes, n);
    }
  }

  /** How a finished transfer looks from outside: the client keeps what arrived iff its checksum
      is right, and the server moves the secret iff every request succeeded. */
  ghost predicate Outcome(env: Env, file: Bytes, outcomes: seq<bool>, server: Server, client: Client)
    requires env.Ok() && env.p.secretSize >= CRC_LEN
    reads server, client
  {
    var arrived := Received(env, file, Arrivals(env, outcomes));
    var all := forall j :: 0 <= j < |outcomes| ==> outcomes[j];
    && server.status == (if CrcOk(env.crc, arrived) then VALID else INVALID)
    && client.file == (if CrcOk(env.crc, arrived) then Some(arrived) else None)
    && server.secret == (if all then Some(file) else None)
    && server.waiting == (if all then None else Some(file))
    && (all ==> arrived == file && server.status == VALID)
  }

  lemma FinishedOutcome(env: Env, s: Session, outcomes: seq<bool>, server: Server, client: Client)
    requires env.Ok() && Settled(env, s, outcomes) && s.client == Finished && server.Mirrors(s) && client.Mirrors(s)
    ensures env.p.secretSize >= CRC_LEN && Outcome(env, s.file, outcomes, server, client)
  {
    FinishedAgrees(env, s);
    assert s.got == Arrivals(env, outcomes);
    if AllDone(s) {
      AllDoneMoved(env, s);
      AllGot(env, s);
      BufferIsReceived(env, s);
    } else {
      var f :| 0 <= f < |s.reqs| && s.reqs[f].stage == Failed;
      NotAllCounted(s.reqs, f);
    }
  }

  method Finish(env: Env, count: nat, outcomes: seq<bool>, server: Server, client: Client, ghost before: seq<Session>)
      returns (ghost run: seq<Session>)
    requires env.Ok() && InStep(server, client, env, before) && env.p.secretSize >= CRC_LEN
    requires count == env.Total() && At(env, before, Gathering(0), outcomes, count, count)
    modifies server, client
    ensures SharedRun(env, run) && Last(run).client == Finished && Happened(Last(run), outcomes) && run[0] == before[0]
    ensures Outcome(env, run[0].file, outcomes, server, client)
  {
    ghost var path := client.Gather(count, server, true, [Last(before)]);
    assert path[0] == Last(before);
    run := FinishRun(env, before, path, outcomes);
    FinishedOutcome(env, Last(run), outcomes, server, client);
  }

  lemma FinishRun(env: Env, before: seq<Session>, path: seq<Session>, outcomes: seq<bool>) returns (run: seq<Session>)
    requires env.Ok() && At(env, before, Gathering(0), outcomes, env.Total(), env.Total())
    requires ClientPath(env, path) && path[0] == Last(before) && Last(path).client == Closing
    ensures SharedRun(env, run) && run[0] == before[0] && Last(run) == Last(path).(client := Finished)
    ensures Settled(env, Last(run), outcomes) && Last(run).file == before[0].file
  {
    AllSettled(env, before, outcomes);
    SettledAlong(env, path, outcomes);
    LastStep(env, Last(path), outcomes);
    run := CloseRun(env, before, path, Last(path).(client := Finished));
  }

  lemma CloseRun(env: Env, before: seq<Session>, path: seq<Session>, s: Session) returns (run: seq<Session>)
    requires env.Ok() && SharedRun(env, before) && ClientPath(env, path) && path[0] == Last(before)
    requires ClientStep(env, Last(path), s)
    ensures SharedRun(env, run) && run[0] == before[0] && Last(run) == s && s.file == before[0].file
  {
    run := GoOn(env, before, path, 0);
    ClientTakes(env, run, s);
    run := run + [s];
    FileNeverChanges(env, run, |run| - 1);
  }

  lemma AllSettled(env: Env, run: seq<Session>, outcomes: seq<bool>)
    requires env.Ok() && At(env, run, Gathering(0), outcomes, env.Total(), env.Total())
    ensures Settled(env, Last(run), outcomes)
  {
    RunKeeps(env, run, |run| - 1);
  }

  lemma LastStep(env: Env, s: Session, outcomes: seq<bool>)
    requires env.Ok() && Settled(env, s, outcomes) && s.client == Closing
    ensures ClientStep(env, s, s.(client := Finished)) && Settled(env, s.(client := Finished), outcomes)
  {
    SettledStays(env, s, s.(client := Finished), outcomes);
  }

  /** Pulling one secret: batches until the counter reaches the total, then gather. outcomes
      says which requests fail on their way to the server. */
  method TransferSecret(env: Env, key: Bytes, file: Bytes, outcomes: seq<bool>)
      returns (server: Server, client: Client, ghost run: seq<Session>)
    requires env.Ok() && |file| == env.p.secretSize >= CRC_LEN && CrcOk(env.crc, file) && |outcomes| == env.Total()
    ensures SharedRun(env, run) && Last(run).client == Finished && Happened(Last(run), outcomes) && run[0].file == file
    ensures Outcome(env, file, outcomes, server, client)
  {
    server := new Server(env, key, file);
    client := new Client(env, key);
    run := [Fresh(env, key, file)];
    FreshRun(env, key, file);
    var count: nat := 0;
    while true
      invariant InStep(server, client, env, run) && fresh(server) && fresh(client)
      invariant At(env, run, Dispatching(count), outcomes, count, count) && count < env.Total() && run[0].file == file
      decreases env.Total() - count
    {
      var first := count;
      count, run := DispatchBatch(env, first, outcomes, run);
      run := ServeBatch(env, first, count, outcomes, server, client, run);
      var runningFlag;
      runningFlag, run := Join(env, first, count, outcomes, run);
      if count >= env.Total() {
        break;
      }
      run := Drain(env, run, first, outcomes, count);
    }
    run := Finish(env, count, outcomes, server, client, run);
  }
}
