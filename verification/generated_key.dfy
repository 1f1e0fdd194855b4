/** The running key in the generator's own arithmetic: which draw, which bytes of which file
    and which bit of the key belong together. */
module GeneratedKey {
  import opened Arith
  import opened Bits
  import opened Config
  import opened RunningKey
  import opened Schedule
  import opened Selection
  import opened Wrappers

  /** Where a thread reads: its share of the file begins at size / threads * t, and the offset
      drawn, times the number of the read, is reduced to what leaves room for READ_LEN bits. A
      draw is reduced to the file size and moved back so that READ_LEN more fit. */
  function Place(draw: nat, size: nat, readLen: nat, threads: nat, t: nat, i: nat): int
    requires 0 < readLen <= size && t < threads && readLen / 8 < size / threads
  {
    var random := if draw % size + readLen > size then size - readLen else draw % size;
    size / threads * t + random * i % (size / threads - readLen / 8)
  }

  lemma PlaceInside(draw: nat, size: nat, readLen: nat, threads: nat, t: nat, i: nat)
    requires 0 < readLen <= size && t < threads && readLen / 8 < size / threads
    ensures 0 <= Place(draw, size, readLen, threads, t, i) <= size - readLen / 8
  {
    var share := size / threads;
    var random := if draw % size + readLen > size then size - readLen else draw % size;
    WholeShares(size, threads);
    ProductModulo(random, i, share - readLen / 8);
    InShare(size, share, threads, t, random * i % (share - readLen / 8), readLen / 8);
  }

  lemma InShare(size: nat, share: nat, threads: nat, t: nat, offset: nat, chars: nat)
    requires t < threads && share * threads <= size && offset + chars <= share
    ensures 0 <= share * t + offset <= size - chars
  {
    ShareFits(share, t, threads);
  }

  lemma ProductModulo(a: nat, b: nat, m: nat)
    requires m > 0
    ensures 0 <= a * b % m < m
  {
  }

  lemma WholeShares(size: nat, threads: nat)
    requires threads > 0
    ensures size / threads * threads <= size
  {
  }

  /** The bit that one draw takes from one file. */
  predicate SourceBit(draw: nat, file: Bytes, size: nat, readLen: nat, threads: nat, t: nat, i: nat)
    requires 0 < readLen <= size <= |file| && t < threads && readLen / 8 < size / threads
  {
    var start := Place(draw, size, readLen, threads, t, i);
    PlaceInside(draw, size, readLen, threads, t, i);
    Parity(Unpack(file[start..start + readLen / 8]))
  }

  lemma RowFits(f: nat, files: nat, t: nat, threads: nat, r: nat, num: nat, draws: nat)
    requires f < files && t < threads && r < num && files * threads * num <= draws
    ensures f * threads + t < files * threads
    ensures (f * threads + t) * num + r < draws
  {
    MulSucc(f, threads);
    MulMonotone(f + 1, files, threads);
    MulSucc(f * threads + t, num);
    MulMonotone(f * threads + t + 1, files * threads, num);
  }

  predicate Enough(draws: seq<nat>, files: seq<Bytes>, size: nat, threads: nat, num: nat) {
    |files| * threads * num <= |draws| && forall f :: 0 <= f < |files| ==> |files[f]| >= size
  }

  /** Of the draws, which come row by row, file after file and thread after thread: the one for
      random number r of thread t in file f. */
  function DrawFor(draws: seq<nat>, files: seq<Bytes>, size: nat, threads: nat, num: nat, f: nat, t: nat, r: nat): nat
    requires Enough(draws, files, size, threads, num) && f < |files| && t < threads && r < num
  {
    RowFits(f, |files|, t, threads, r, num, |draws|);
    draws[(f * threads + t) * num + r]
  }

  /** What the files contribute to read i of random number r of thread t. */
  function SourceBits(draws: seq<nat>, files: seq<Bytes>, size: nat, readLen: nat, threads: nat, num: nat, t: nat, r: nat, i: nat)
      : (bits: seq<bool>)
    requires 0 < readLen <= size && t < threads && readLen / 8 < size / threads && r < num
    requires Enough(draws, files, size, threads, num)
    ensures |bits| == |files|
  {
    seq(|files|, f requires 0 <= f < |files| =>
      SourceBit(DrawFor(draws, files, size, threads, num, f, t, r), files[f], size, readLen, threads, t, i))
  }

  /** Bit r * READ_NUM + i of part t of the key is the exclusive or of what the files contribute. */
  predicate KeyBitIsParity(key: Bytes, draws: seq<nat>, files: seq<Bytes>, size: nat, readLen: nat, readNum: nat,
                           threads: nat, num: nat, t: nat, r: nat, i: nat)
    requires 0 < readLen <= size && t < threads && readLen / 8 < size / threads && r < num
    requires Enough(draws, files, size, threads, num)
  {
    var k := 8 * (t * (num * (readNum / 8))) + (r * readNum + i);
    0 <= k < 8 * |key| && Unpack(key)[k] == Parity(SourceBits(draws, files, size, readLen, threads, num, t, r, i))
  }

  /** The job's numbers are those of the source. */
  predicate Configured(job: Job, draws: seq<nat>, size: nat, readLen: nat) {
    && job.Ok() && 0 < readLen <= size && job.bufSize == size / job.threads && job.readChars == readLen / 8
    && Enough(draws, job.files, size, job.threads, job.num)
    && OffsetRows(draws, |job.files| * job.threads, job.num, size, readLen) == Some(job.offs)
  }

  lemma FilesLongEnough(job: Job, draws: seq<nat>, size: nat, readLen: nat)
    requires Configured(job, draws, size, readLen)
    ensures LongEnough(job)
  {
    WholeShares(size, job.threads);
  }

  lemma StartIsPlace(job: Job, draw: nat, size: nat, readLen: nat, t: nat, random: nat, i: nat)
    requires job.Ok() && t < job.threads && 0 < readLen <= size
    requires job.bufSize == size / job.threads && job.readChars == readLen / 8
    requires random == if draw % size + readLen > size then size - readLen else draw % size
    ensures Start(job, t, random, i) == Place(draw, size, readLen, job.threads, t, i)
  {
  }

  lemma RandomIsDraw(job: Job, draws: seq<nat>, size: nat, readLen: nat, f: nat, t: nat, r: nat)
    requires Configured(job, draws, size, readLen) && f < |job.files| && t < job.threads && r < job.num
    ensures var draw := DrawFor(draws, job.files, size, job.threads, job.num, f, t, r);
            job.Randoms(f, t)[r] == if draw % size + readLen > size then size - readLen else draw % size
  {
    RowFits(f, |job.files|, t, job.threads, r, job.num, |draws|);
    OffsetAt(draws, |job.files| * job.threads, job.num, size, readLen, f * job.threads + t, r);
  }

  lemma FileBit(job: Job, draws: seq<nat>, size: nat, readLen: nat, f: nat, t: nat, r: nat, i: nat)
    requires Configured(job, draws, size, readLen) && LongEnough(job)
    requires f < |job.files| && t < job.threads && r < job.num
    ensures FileBits(job, t, r, i)[f] == SourceBits(draws, job.files, size, readLen, job.threads, job.num, t, r, i)[f]
  {
    RandomIsDraw(job, draws, size, readLen, f, t, r);
    StartIsPlace(job, DrawFor(draws, job.files, size, job.threads, job.num, f, t, r), size, readLen, t, job.Randoms(f, t)[r], i);
  }

  /** Every bit of a job's key in those terms. */
  lemma JobKeyBit(job: Job, draws: seq<nat>, size: nat, readLen: nat, t: nat, r: nat, i: nat)
    requires Configured(job, draws, size, readLen) && t < job.threads && r < job.num && i < job.readNum
    ensures KeyBitIsParity(job.Key(), draws, job.files, size, readLen, job.readNum, job.threads, job.num, t, r, i)
  {
    KeyMeetsClosedForm(job, t, r, i);
    JobBits(job, draws, size, readLen, t, r, i);
    IndexIsNat(t, job.PartLen(), r, job.readNum, i);
  }

  lemma JobBits(job: Job, draws: seq<nat>, size: nat, readLen: nat, t: nat, r: nat, i: nat)
    requires Configured(job, draws, size, readLen) && t < job.threads && r < job.num
    ensures job.KeyBit(t, r, i) == Parity(SourceBits(draws, job.files, size, readLen, job.threads, job.num, t, r, i))
  {
    FilesLongEnough(job, draws, size, readLen);
    forall f | 0 <= f < |job.files|
      ensures FileBits(job, t, r, i)[f] == SourceBits(draws, job.files, size, readLen, job.threads, job.num, t, r, i)[f]
    {
      FileBit(job, draws, size, readLen, f, t, r, i);
    }
    assert FileBits(job, t, r, i) == SourceBits(draws, job.files, size, readLen, job.threads, job.num, t, r, i);
    WindowsAreFileBits(job, t, r, i);
  }

  lemma IndexIsNat(t: nat, part: nat, r: nat, row: nat, i: nat)
    ensures 0 <= 8 * (t * part) + (r * row + i)
  {
  }

  lemma KeyOfFilesBit(draws: seq<nat>, files: seq<Bytes>, p: Params, t: nat, r: nat, i: nat)
    requires p.KeyOk() && files != [] && KeyOfFiles(draws, files, p).Some? && t < p.threadNum && r < p.Num() && i < p.readNum
    requires forall f :: 0 <= f < |files| ==> |files[f]| >= p.secretSize
    ensures Enough(draws, files, p.secretSize, p.threadNum, p.Num())
    ensures KeyBitIsParity(KeyOfFiles(draws, files, p).value, draws, files, p.secretSize, p.readLen, p.readNum,
                           p.threadNum, p.Num(), t, r, i)
  {
    var offs := OffsetRows(draws, |files| * p.threadNum, p.Num(), p.secretSize, p.readLen).value;
    JobIsOk(files, offs, p);
    JobKeyBit(JobOf(files, offs, p), draws, p.secretSize, p.readLen, t, r, i);
  }

  /** Every bit of the key that is generated: the exclusive or, over the chosen files, of the
      parity of READ_LEN bits of each, found as the source finds them. */
  lemma KeyBitIs(draws: seq<nat>, list: seq<Bytes>, p: Params, t: nat, r: nat, i: nat)
    requires p.KeyOk() && KeyFrom(draws, list, p).Some? && t < p.threadNum && r < p.Num() && i < p.readNum
    requires forall file :: file in list ==> |file| >= p.secretSize
    ensures var (files, used) := Select(draws, list, p.fileNum).value;
            && Enough(draws[used..], files, p.secretSize, p.threadNum, p.Num())
            && KeyBitIsParity(KeyFrom(draws, list, p).value, draws[used..], files, p.secretSize, p.readLen, p.readNum,
                              p.threadNum, p.Num(), t, r, i)
  {
    var (files, used) := Select(draws, list, p.fileNum).value;
    ChosenAreListed(draws, list, p.fileNum);
    forall f | 0 <= f < |files|
      ensures |files[f]| >= p.secretSize
    {
      assert files[f] in files;
    }
    KeyOfFilesBit(draws[used..], files, p, t, r, i);
  }
}
