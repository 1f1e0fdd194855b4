/** What the generator's pool tasks produce: one tmp file per secret file and thread, their
    merge per thread, and the parts concatenated to the running key, bit by bit. */
module Schedule {
  import opened Arith
  import opened Bits
  import opened Buffers
  import opened KeyGen

  /** One message's work: the selected secret files and, for file f and thread t, the
      random numbers in row f * threads + t. */
  datatype Job = Job(files: seq<Bytes>, offs: seq<seq<nat>>, threads: nat,
                     bufSize: nat, readNum: nat, readChars: nat, num: nat)
  {
    predicate Ok() {
      && files != [] && threads > 0 && readChars < bufSize && readNum > 0 && readNum % 8 == 0
      && |offs| == |files| * threads
      && forall r :: 0 <= r < |offs| ==> |offs[r]| == num
    }

    function PartLen(): nat {
      num * (readNum / 8)
    }

    /** generateSecretFileScript passes randomVec[fileIdx * THREAD_NUM + threadIdx]. */
    function Randoms(f: nat, t: nat): (r: seq<nat>)
      requires Ok() && f < |files| && t < threads
      ensures |r| == num
    {
      MulSucc(f, threads);
      MulMonotone(f + 1, |files|, threads);
      offs[f * threads + t]
    }

    /** The share of file f that thread t reads. */
    function Buffer(f: nat, t: nat): (buf: Bytes)
      requires f < |files|
      ensures |buf| == bufSize
    {
      ReadAt(files[f], bufSize * t, bufSize)
    }

    function Tmp(f: nat, t: nat): (out: Bytes)
      requires Ok() && f < |files| && t < threads
      ensures |out| == PartLen()
    {
      TmpSecret(Buffer(f, t), Randoms(f, t), readNum, readChars)
    }

    function Tmps(t: nat): (out: seq<Bytes>)
      requires Ok() && t < threads
      ensures |out| == |files| && SameLength(out, PartLen())
    {
      seq(|files|, f requires 0 <= f < |files| => Tmp(f, t))
    }

    function Part(t: nat): (out: Bytes)
      requires Ok() && t < threads
      ensures |out| == PartLen()
    {
      MergeSecrets(Tmps(t), PartLen())
    }

    function Parts(): (parts: seq<Bytes>)
      requires Ok()
      ensures |parts| == threads && SameLength(parts, PartLen())
    {
      seq(threads, t requires 0 <= t < threads => Part(t))
    }

    /** The running key. */
    function Key(): (key: Bytes)
      requires Ok()
      ensures |key| == threads * PartLen()
    {
      Concat(Parts(), PartLen())
    }

    /** The bit that read i of random number r gives to part t, in closed form: the
        exclusive or over the files of the parity of one window each. */
    function KeyBit(t: nat, r: nat, i: nat): bool
      requires Ok() && t < threads && r < num
    {
      Parity(Windows(t, r, i))
    }

    function Windows(t: nat, r: nat, i: nat): (bits: seq<bool>)
      requires Ok() && t < threads && r < num
      ensures |bits| == |files|
    {
      seq(|files|, f requires 0 <= f < |files| => RowBit(Buffer(f, t), Randoms(f, t)[r], i, readChars))
    }
  }

  function Concat(parts: seq<Bytes>, n: nat): (s: Bytes)
    requires SameLength(parts, n)
    ensures |s| == |parts| * n
  {
    if parts == [] then []
    else
      var m := |parts| - 1;
      MulSucc(m, n);
      Concat(parts[..m], n) + parts[m]
  }

  lemma {:induction false} ConcatBit(parts: seq<Bytes>, n: nat, t: nat, k: nat)
    requires SameLength(parts, n) && t < |parts| && k < 8 * n
    ensures 8 * (t * n) + k < 8 * (|parts| * n)
    ensures Unpack(Concat(parts, n))[8 * (t * n) + k] == Unpack(parts[t])[k]
  {
    var m := |parts| - 1;
    MulSucc(m, n);
    MulSucc(t, n);
    MulMonotone(t + 1, |parts|, n);
    UnpackConcat(Concat(parts[..m], n), parts[m]);
    if t < m {
      ConcatBit(parts[..m], n, t, k);
    }
  }

  lemma EightTimes(n: nat, readNum: nat)
    requires readNum % 8 == 0
    ensures 8 * (n * (readNum / 8)) == n * readNum
  {
    assert readNum == 8 * (readNum / 8);
    assert 8 * (n * (readNum / 8)) == n * (8 * (readNum / 8));
  }

  /** Which bit of a part read i of random number r gives. */
  function InPart(job: Job, r: nat, i: nat): (k: nat)
    requires job.Ok() && r < job.num && i < job.readNum
    ensures k == r * job.readNum + i < 8 * job.PartLen()
  {
    EightTimes(job.num, job.readNum);
    MulSucc(r, job.readNum);
    MulMonotone(r + 1, job.num, job.readNum);
    r * job.readNum + i
  }

  /** The running key meets its closed form at every bit: bit r * readNum + i of part t. */
  lemma KeyMeetsClosedForm(job: Job, t: nat, r: nat, i: nat)
    requires job.Ok() && t < job.threads && r < job.num && i < job.readNum
    ensures 8 * (t * job.PartLen()) + InPart(job, r, i) < 8 * |job.Key()|
    ensures Unpack(job.Key())[8 * (t * job.PartLen()) + InPart(job, r, i)] == job.KeyBit(t, r, i)
  {
    PartBit(job, t, r, i);
    ConcatBit(job.Parts(), job.PartLen(), t, InPart(job, r, i));
  }

  lemma PartBit(job: Job, t: nat, r: nat, i: nat)
    requires job.Ok() && t < job.threads && r < job.num && i < job.readNum
    ensures Unpack(job.Part(t))[InPart(job, r, i)] == job.KeyBit(t, r, i)
  {
    TmpsBits(job, t, r, i);
    MergeSecretsBit(job.Tmps(t), job.PartLen(), InPart(job, r, i));
  }

  lemma TmpsBits(job: Job, t: nat, r: nat, i: nat)
    requires job.Ok() && t < job.threads && r < job.num && i < job.readNum
    ensures BitsAt(job.Tmps(t), job.PartLen(), InPart(job, r, i)) == job.Windows(t, r, i)
  {
    var bits := BitsAt(job.Tmps(t), job.PartLen(), InPart(job, r, i));
    var windows := job.Windows(t, r, i);
    forall f | 0 <= f < |job.files|
      ensures bits[f] == windows[f]
    {
      TmpBit(job, f, t, r, i);
      assert job.Tmps(t)[f] == job.Tmp(f, t);
    }
    assert |bits| == |windows|;
  }

  lemma TmpBit(job: Job, f: nat, t: nat, r: nat, i: nat)
    requires job.Ok() && f < |job.files| && t < job.threads && r < job.num && i < job.readNum
    ensures Unpack(job.Tmp(f, t))[InPart(job, r, i)] == RowBit(job.Buffer(f, t), job.Randoms(f, t)[r], i, job.readChars)
  {
    TmpBitAt(job.Buffer(f, t), job.Randoms(f, t), job.readNum, job.readChars, r, i);
  }

  lemma ShareFits(bufSize: nat, t: nat, threads: nat)
    requires t < threads
    ensures bufSize * t + bufSize <= bufSize * threads
  {
    MulMonotone(t + 1, threads, bufSize);
    MulSucc(t, bufSize);
  }

  /** Where the window of one read starts in the secret file. */
  function Start(job: Job, t: nat, random: nat, i: nat): (start: nat)
    requires job.Ok() && t < job.threads
    ensures start + job.readChars <= job.bufSize * job.threads
  {
    ShareFits(job.bufSize, t, job.threads);
    job.bufSize * t + WindowOffset(random, i, job.bufSize - job.readChars)
  }

  /** All secret files are as long as the threads take them to be. */
  predicate LongEnough(job: Job) {
    forall f :: 0 <= f < |job.files| ==> |job.files[f]| >= job.bufSize * job.threads
  }

  /** A window of thread t is a window of the secret file at bufSize * t + offset. */
  lemma WindowInFile(job: Job, f: nat, t: nat, random: nat, i: nat)
    requires job.Ok() && LongEnough(job) && f < |job.files| && t < job.threads
    ensures var start := Start(job, t, random, i);
            start + job.readChars <= |job.files[f]|
            && Window(job.Buffer(f, t), random, i, job.readChars) == job.files[f][start..start + job.readChars]
  {
    ShareFits(job.bufSize, t, job.threads);
  }

  /** The parity of one window of every secret file. */
  function FileBits(job: Job, t: nat, r: nat, i: nat): (bits: seq<bool>)
    requires job.Ok() && LongEnough(job) && t < job.threads && r < job.num
    ensures |bits| == |job.files|
  {
    seq(|job.files|, f requires 0 <= f < |job.files| =>
      var start := Start(job, t, job.Randoms(f, t)[r], i);
      Parity(Unpack(job.files[f][start..start + job.readChars])))
  }

  lemma WindowsAreFileBits(job: Job, t: nat, r: nat, i: nat)
    requires job.Ok() && LongEnough(job) && t < job.threads && r < job.num
    ensures job.Windows(t, r, i) == FileBits(job, t, r, i)
  {
    forall f | 0 <= f < |job.files|
      ensures job.Windows(t, r, i)[f] == FileBits(job, t, r, i)[f]
    {
      WindowInFile(job, f, t, job.Randoms(f, t)[r], i);
    }
  }
}
