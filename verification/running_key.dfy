/** One generator message from the list of valid files to the running key, and why two
    nodes that agree on the files agree on the key. */
module RunningKey {
  import opened Arith
  import opened Bits
  import opened Buffers
  import opened Config
  import opened KeyGen
  import opened Schedule
  import opened Selection
  import opened Sequences
  import opened Wrappers

  /** The files used: all of them, or fileNum random ones, with the number of draws spent. */
  function Select<T>(draws: seq<nat>, list: seq<T>, fileNum: nat): (r: Option<(seq<T>, nat)>)
    ensures r.Some? ==> r.value.1 <= |draws|
    ensures r.Some? && fileNum > 0 ==> r.value.0 != []
  {
    if list == [] then None
    else if |list| <= fileNum then Some((list, 0))
    else
      PickFinishesIff(draws, |list|, fileNum);
      match Pick(Residues(draws, |list|), [], fileNum)
      case None => None
      case Some((ps, c)) => Some((Choose(list, ps), c))
  }

  function JobOf(files: seq<Bytes>, offs: seq<seq<nat>>, p: Params): Job
    requires p.KeyOk()
  {
    Job(files, offs, p.threadNum, p.secretSize / p.threadNum, p.readNum, p.readLen / 8, p.Num())
  }

  lemma JobIsOk(files: seq<Bytes>, offs: seq<seq<nat>>, p: Params)
    requires p.KeyOk() && files != [] && |offs| == |files| * p.threadNum
    requires forall r :: 0 <= r < |offs| ==> |offs[r]| == p.Num()
    ensures JobOf(files, offs, p).Ok()
    ensures |JobOf(files, offs, p).Key()| == p.keySize
  {
    assert JobOf(files, offs, p).PartLen() == p.Num() * (p.readNum / 8);
  }

  /** The key of the chosen files, with offsets from the given draws. */
  function KeyOfFiles(draws: seq<nat>, files: seq<Bytes>, p: Params): (key: Option<Bytes>)
    requires p.KeyOk() && files != []
    ensures key.Some? ==> |key.value| == p.keySize
  {
    match OffsetRows(draws, |files| * p.threadNum, p.Num(), p.secretSize, p.readLen)
    case None => None
    case Some(offs) =>
      JobIsOk(files, offs, p);
      Some(JobOf(files, offs, p).Key())
  }

  /** The running key as a function of the draws and the contents of the valid files; None
      when there is no valid file or the generator is still drawing. */
  function KeyFrom(draws: seq<nat>, list: seq<Bytes>, p: Params): (key: Option<Bytes>)
    requires p.KeyOk()
    ensures key.Some? ==> |key.value| == p.keySize
  {
    match Select(draws, list, p.fileNum)
    case None => None
    case Some((files, used)) => KeyOfFiles(draws[used..], files, p)
  }

  /** Which files are used: a list of at most FILE_NUM files as it is, without a draw; of a
      longer one the files at the first FILE_NUM different values of rand() % size, and no
      draw after the last of them. */
  lemma SelectIs<T>(draws: seq<nat>, list: seq<T>, fileNum: nat, r: seq<nat>) returns (ps: seq<nat>, ks: seq<nat>)
    requires Select(draws, list, fileNum).Some?
    requires |r| == |draws| && forall k :: 0 <= k < |r| ==> r[k] == draws[k] % |list|
    ensures |list| <= fileNum ==> Select(draws, list, fileNum) == Some((list, 0))
    ensures |list| > fileNum ==>
      var (files, used) := Select(draws, list, fileNum).value;
      && |files| == |ps| == fileNum && FirstValues(r[..used], ps, ks)
      && (if fileNum == 0 then used == 0 else used == ks[fileNum - 1] + 1)
      && (forall j :: 0 <= j < fileNum ==> ps[j] < |list| && files[j] == list[ps[j]])
  {
    ps, ks := [], [];
    if |list| > fileNum {
      assert r == Residues(draws, |list|);
      PickFinishesIff(draws, |list|, fileNum);
      ks := PickPositions(r, fileNum);
      assert Pick(r, [], fileNum).value.1 == 0 <==> fileNum == 0;
      ps := Pick(r, [], fileNum).value.0;
    }
  }

  /** There is a choice unless the list is empty or too few different values are drawn. */
  lemma SelectSomeIff<T>(draws: seq<nat>, list: seq<T>, fileNum: nat)
    ensures Select(draws, list, fileNum).Some? <==>
      list != [] && (|list| > fileNum ==> |SetOf(seq<nat>(|draws|, k requires 0 <= k < |draws| => draws[k] % |list|))| >= fileNum)
  {
    if |list| > fileNum {
      PickFinishesIff(draws, |list|, fileNum);
      assert Residues(draws, |list|) == seq<nat>(|draws|, k requires 0 <= k < |draws| => draws[k] % |list|);
    }
  }

  lemma ChosenAreListed<T>(draws: seq<nat>, list: seq<T>, fileNum: nat)
    requires Select(draws, list, fileNum).Some?
    ensures forall x :: x in Select(draws, list, fileNum).value.0 ==> x in list
  {
    var files := Select(draws, list, fileNum).value.0;
    var ps, ks := SelectIs(draws, list, fileNum, Residues(draws, |list|));
    forall x | x in files && |list| > fileNum
      ensures x in list
    {
      var j :| 0 <= j < |files| && files[j] == x;
      assert x == list[ps[j]];
    }
  }

  /** The same draws and equally long lists lead both nodes to the same positions, to the
      same number of draws and hence to the same offsets, whatever the lists contain. */
  lemma SeededReplay<T, U>(draws: seq<nat>, mine: seq<T>, theirs: seq<U>, fileNum: nat)
    requires |mine| == |theirs|
    ensures Select(draws, mine, fileNum).Some? == Select(draws, theirs, fileNum).Some?
    ensures Select(draws, mine, fileNum).Some? ==>
      var (a, usedA), (b, usedB) := Select(draws, mine, fileNum).value, Select(draws, theirs, fileNum).value;
      usedA == usedB && exists ps: seq<nat> ::
        Distinct(ps) && (forall p :: p in ps ==> p < |mine|) && a == Choose(mine, ps) && b == Choose(theirs, ps)
  {
    if mine != [] {
      if |mine| <= fileNum {
        var ps := seq(|mine|, i => i);
        assert mine == Choose(mine, ps) && theirs == Choose(theirs, ps) && Distinct(ps);
      } else {
        PickFinishesIff(draws, |mine|, fileNum);
      }
    }
  }

  method SelectFiles<T>(list: seq<T>, fileNum: nat, rand: Rand) returns (files: Option<seq<T>>)
    requires rand.Valid()
    modifies rand
    ensures rand.Valid()
    ensures match Select(old(rand.Rest()), list, fileNum)
      case None => files == None
      case Some((chosen, used)) => files == Some(chosen) && rand.Rest() == old(rand.Rest())[used..]
  {
    if list == [] {
      return None;
    }
    if |list| > fileNum {
      PickFinishesIff(rand.Rest(), |list|, fileNum);
      files := GenerateRandomFile(list, fileNum, rand);
    } else {
      files := Some(list);
    }
  }

  /** generateSecretFileScript, from the seeded draws to the saved key, run sequentially;
      Tasks.AnySchedule shows that the pool's order does not matter. */
  method GenerateKey(draws: seq<nat>, list: seq<Bytes>, p: Params) returns (key: Option<Bytes>)
    requires p.KeyOk()
    ensures key == KeyFrom(draws, list, p)
  {
    var rand := new Rand(draws);
    var files := SelectFiles(list, p.fileNum, rand);
    if files == None {
      return None;
    }
    key := FinishKey(files.value, rand, p);
  }

  method FinishKey(files: seq<Bytes>, rand: Rand, p: Params) returns (key: Option<Bytes>)
    requires p.KeyOk() && files != [] && rand.Valid()
    modifies rand
    ensures key == KeyOfFiles(old(rand.Rest()), files, p)
  {
    var offs := GenerateRandom(|files| * p.threadNum, p.Num(), p.secretSize, p.readLen, rand);
    if offs == None {
      return None;
    }
    JobIsOk(files, offs.value, p);
    var bytes := RunJob(JobOf(files, offs.value, p));
    key := Some(bytes);
  }

  /** The tmp tasks, the merge tasks and the final concatenation. */
  method RunJob(job: Job) returns (key: Bytes)
    requires job.Ok()
    ensures key == job.Key()
  {
    var parts: seq<Bytes> := [];
    for t := 0 to job.threads
      invariant parts == job.Parts()[..t]
    {
      var tmps: seq<Bytes> := [];
      for f := 0 to |job.files|
        invariant tmps == job.Tmps(t)[..f]
      {
        var tmp := ProcessTmpSecret(job.Buffer(f, t), job.Randoms(f, t), job.readNum, job.readChars);
        tmps := tmps + [tmp];
      }
      assert tmps == job.Tmps(t);
      var part := ProcessBinSecret(tmps, job.PartLen());
      parts := parts + [part];
    }
    assert parts == job.Parts();
    key := Collect(parts, job.PartLen());
  }

  /** The part files read into one zeroed buffer at i * (SECRET_FILE_SIZE / THREAD_NUM). */
  method Collect(parts: seq<Bytes>, n: nat) returns (key: Bytes)
    requires SameLength(parts, n)
    ensures key == Concat(parts, n)
  {
    var buffer := new Byte[|parts| * n](_ => 0);
    for i := 0 to |parts|
      invariant i * n <= buffer.Length && buffer[..i * n] == Concat(parts[..i], n)
    {
      MulSucc(i, n);
      MulMonotone(i + 1, |parts|, n);
      ghost var before := buffer[..];
      CopyInto(buffer, i * n, parts[i]);
      SpliceFront(before, i * n, parts[i]);
      ConcatNext(parts, n, i);
    }
    assert parts[..|parts|] == parts;
    key := buffer[..];
  }

  lemma SpliceFront(buf: Bytes, offset: nat, data: Bytes)
    requires offset + |data| <= |buf|
    ensures Splice(buf, offset, data)[..offset + |data|] == buf[..offset] + data
  {
  }

  lemma ConcatNext(parts: seq<Bytes>, n: nat, i: nat)
    requires SameLength(parts, n) && i < |parts|
    ensures Concat(parts[..i + 1], n) == Concat(parts[..i], n) + parts[i]
  {
    assert parts[..i + 1][..i] == parts[..i];
  }
}
