/** Key extraction as a GF(2)-linear map, and merging as an order-free sum. */
module Linearity {
  import opened Bits
  import opened Buffers
  import opened KeyGen
  import opened Schedule
  import opened Sequences

  lemma XorZero()
    ensures XorByte(0, 0) == 0
  {
    ByteOfBitsOf(XorByte(0, 0));
    assert XorBits(BitsOf(0), BitsOf(0)) == BitsOf(0) by {
      ZeroByte();
    }
    ByteOfBitsOf(0);
  }

  lemma ReadAtXor(a: Bytes, b: Bytes, start: nat, len: nat)
    requires |a| == |b|
    ensures ReadAt(XorBytes(a, b), start, len) == XorBytes(ReadAt(a, start, len), ReadAt(b, start, len))
  {
    XorZero();
  }

  lemma RowBitXor(a: Bytes, b: Bytes, random: nat, i: nat, readChars: nat)
    requires |a| == |b| && Extractable(a, readChars)
    ensures RowBit(XorBytes(a, b), random, i, readChars) == (RowBit(a, random, i, readChars) != RowBit(b, random, i, readChars))
  {
    var wa, wb := Window(a, random, i, readChars), Window(b, random, i, readChars);
    assert Window(XorBytes(a, b), random, i, readChars) == XorBytes(wa, wb);
    UnpackXor(wa, wb);
    ParityXor(Unpack(wa), Unpack(wb));
  }

  lemma PackXor(a: seq<bool>, b: seq<bool>)
    requires |a| == |b| && |a| % 8 == 0
    ensures Pack(XorBits(a, b)) == XorBytes(Pack(a), Pack(b))
  {
    UnpackPack(a);
    UnpackPack(b);
    UnpackXor(Pack(a), Pack(b));
    PackUnpack(XorBytes(Pack(a), Pack(b)));
  }

  /** For fixed random numbers, extracting from the exclusive or of two buffers gives the
      exclusive or of what they give. */
  lemma {:induction false} ExtractionIsLinear(a: Bytes, b: Bytes, randoms: seq<nat>, readNum: nat, readChars: nat)
    requires |a| == |b| && Extractable(a, readChars) && readNum % 8 == 0
    ensures TmpSecret(XorBytes(a, b), randoms, readNum, readChars)
         == XorBytes(TmpSecret(a, randoms, readNum, readChars), TmpSecret(b, randoms, readNum, readChars))
  {
    if randoms != [] {
      var n := |randoms| - 1;
      ExtractionIsLinear(a, b, randoms[..n], readNum, readChars);
      RowXor(a, b, randoms[n], readNum, readChars);
      XorBytesConcat(TmpSecret(a, randoms[..n], readNum, readChars), Pack(RowBits(a, randoms[n], readNum, readChars)),
                     TmpSecret(b, randoms[..n], readNum, readChars), Pack(RowBits(b, randoms[n], readNum, readChars)));
    }
  }

  lemma RowXor(a: Bytes, b: Bytes, random: nat, readNum: nat, readChars: nat)
    requires |a| == |b| && Extractable(a, readChars) && readNum % 8 == 0
    ensures Pack(RowBits(XorBytes(a, b), random, readNum, readChars))
         == XorBytes(Pack(RowBits(a, random, readNum, readChars)), Pack(RowBits(b, random, readNum, readChars)))
  {
    var ra, rb := RowBits(a, random, readNum, readChars), RowBits(b, random, readNum, readChars);
    forall i: nat | i < readNum
      ensures RowBits(XorBytes(a, b), random, readNum, readChars)[i] == XorBits(ra, rb)[i]
    {
      RowBitXor(a, b, random, i, readChars);
    }
    assert RowBits(XorBytes(a, b), random, readNum, readChars) == XorBits(ra, rb);
    PackXor(ra, rb);
  }

  lemma XorBytesConcat(a: Bytes, a': Bytes, b: Bytes, b': Bytes)
    requires |a| == |b| && |a'| == |b'|
    ensures XorBytes(a + a', b + b') == XorBytes(a, b) + XorBytes(a', b')
  {
  }

  /** The same for whole secret files: thread t's share of the exclusive or of two files. */
  lemma TmpFileIsLinear(a: Bytes, b: Bytes, start: nat, len: nat, randoms: seq<nat>, readNum: nat, readChars: nat)
    requires |a| == |b| && readChars < len && readNum % 8 == 0
    ensures TmpSecret(ReadAt(XorBytes(a, b), start, len), randoms, readNum, readChars)
         == XorBytes(TmpSecret(ReadAt(a, start, len), randoms, readNum, readChars),
                     TmpSecret(ReadAt(b, start, len), randoms, readNum, readChars))
  {
    ReadAtXor(a, b, start, len);
    ExtractionIsLinear(ReadAt(a, start, len), ReadAt(b, start, len), randoms, readNum, readChars);
  }

  // ----- order

  function Image<T, U>(g: T -> U, s: seq<T>): (r: seq<U>)
    ensures |r| == |s|
  {
    seq(|s|, i requires 0 <= i < |s| => g(s[i]))
  }

  lemma ImageExtract<T, U>(g: T -> U, b: seq<T>, k: nat)
    requires k < |b|
    ensures multiset(Image(g, b)) == multiset(Image(g, b[..k] + b[k + 1..])) + multiset{g(b[k])}
  {
    var image := Image(g, b);
    MultisetExtract(image, k);
    assert image[..k] + image[k + 1..] == Image(g, b[..k] + b[k + 1..]);
    assert image[k] in multiset(image);
  }

  lemma {:induction false} ImagePermutation<T, U>(g: T -> U, a: seq<T>, b: seq<T>)
    requires multiset(a) == multiset(b)
    ensures multiset(Image(g, a)) == multiset(Image(g, b))
  {
    if a == [] {
      assert |multiset(b)| == 0;
    } else {
      var k := FindFirst(a, b);
      ImagePermutation(g, a[1..], b[..k] + b[k + 1..]);
      assert a[..0] + a[1..] == a[1..];
      ImageExtract(g, a, 0);
      ImageExtract(g, b, k);
    }
  }

  lemma BitsAtPermutation(a: seq<Bytes>, b: seq<Bytes>, n: nat, k: nat)
    requires SameLength(a, n) && SameLength(b, n) && multiset(a) == multiset(b) && k < 8 * n
    ensures multiset(BitsAt(a, n, k)) == multiset(BitsAt(b, n, k))
  {
    var g := (s: Bytes) => k < 8 * |s| && Unpack(s)[k];
    assert BitsAt(a, n, k) == Image(g, a) && BitsAt(b, n, k) == Image(g, b);
    ImagePermutation(g, a, b);
  }

  lemma MergePermutation(a: seq<Bytes>, b: seq<Bytes>, n: nat)
    requires SameLength(a, n) && SameLength(b, n) && multiset(a) == multiset(b)
    ensures MergeSecrets(a, n) == MergeSecrets(b, n)
  {
    var x, y := MergeSecrets(a, n), MergeSecrets(b, n);
    forall k: nat | k < 8 * n
      ensures Unpack(x)[k] == Unpack(y)[k]
    {
      MergeSecretsBit(a, n, k);
      MergeSecretsBit(b, n, k);
      BitsAtPermutation(a, b, n, k);
      ParityPermutation(BitsAt(a, n, k), BitsAt(b, n, k));
    }
    assert Unpack(x) == Unpack(y);
    PackUnpack(x);
    PackUnpack(y);
  }

  /** A secret file with the rows of random numbers that belong to it. */
  function Inputs(job: Job): (pairs: seq<(Bytes, seq<seq<nat>>)>)
    requires job.Ok()
    ensures |pairs| == |job.files|
  {
    seq(|job.files|, f requires 0 <= f < |job.files| =>
      (job.files[f], seq(job.threads, t requires 0 <= t < job.threads => job.Randoms(f, t))))
  }

  /** The running key does not depend on the order in which the (file, offsets) pairs come. */
  lemma KeyIsOrderFree(job: Job, other: Job)
    requires job.Ok() && other.Ok()
    requires other == job.(files := other.files, offs := other.offs)
    requires multiset(Inputs(job)) == multiset(Inputs(other))
    ensures job.Key() == other.Key()
  {
    forall t: nat | t < job.threads
      ensures job.Part(t) == other.Part(t)
    {
      PartIsOrderFree(job, other, t);
    }
    assert job.Parts() == other.Parts();
  }

  lemma PartIsOrderFree(job: Job, other: Job, t: nat)
    requires job.Ok() && other.Ok() && t < job.threads
    requires other == job.(files := other.files, offs := other.offs)
    requires multiset(Inputs(job)) == multiset(Inputs(other))
    ensures job.Part(t) == other.Part(t)
  {
    var g := (p: (Bytes, seq<seq<nat>>)) =>
      if t < |p.1| && job.readChars < job.bufSize
      then TmpSecret(ReadAt(p.0, job.bufSize * t, job.bufSize), p.1[t], job.readNum, job.readChars) else [];
    assert job.Tmps(t) == Image(g, Inputs(job));
    assert other.Tmps(t) == Image(g, Inputs(other));
    ImagePermutation(g, Inputs(job), Inputs(other));
    MergePermutation(job.Tmps(t), other.Tmps(t), job.PartLen());
  }
}
