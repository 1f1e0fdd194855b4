/** How src/main/Encrypt.cc and src/main/Decrypt.cc cut a chunk of EACH_NUM blocks over
    RUNNING_THREAD_NUM threads, and the loops of those threads. */
module Tiling {
  import opened Arith
  import opened Bits
  import opened Buffers
  import opened Lwe

  // ----- the ranges

  function Offset(each: nat, threads: nat, t: nat): nat
    requires threads > 0
  {
    each / threads * t
  }

  /** Where the loop of encryptSecretsGPU stops. */
  function EncryptEnd(each: nat, threads: nat, t: nat): nat
    requires t < threads
  {
    if t != threads - 1 then Offset(each, threads, t) + each / threads else each
  }

  /** How many blocks decryptSecretsGPU takes from its offset. */
  function DecryptCount(each: nat, threads: nat, t: nat): int
    requires t < threads
  {
    if t != threads - 1 then each / threads else each - t * each / threads
  }

  /** One past the last block that some decrypting thread takes. */
  function Covered(each: nat, threads: nat): int
    requires threads > 0
  {
    Offset(each, threads, threads - 1) + DecryptCount(each, threads, threads - 1)
  }

  /** The encrypting ranges follow one another without gap or overlap from 0 to EACH_NUM. */
  lemma EncryptRangesPartition(each: nat, threads: nat, t: nat)
    requires t < threads
    ensures Offset(each, threads, 0) == 0 && EncryptEnd(each, threads, threads - 1) == each
    ensures Offset(each, threads, t) <= EncryptEnd(each, threads, t) <= each
    ensures t + 1 < threads ==> EncryptEnd(each, threads, t) == Offset(each, threads, t + 1)
    ensures DecryptCount(each, threads, t) >= 0
    ensures Offset(each, threads, t) + DecryptCount(each, threads, t) <= each
  {
    var w := each / threads;
    assert threads * w <= each;
    MulMonotone(t + 1, threads, w);
    MulSucc(t, w);
    assert w * t == t * w && w * (t + 1) == (t + 1) * w;
    if t == threads - 1 {
      LastCount(each, threads);
    }
  }

  lemma LastCount(each: nat, threads: nat)
    requires threads > 0
    ensures Covered(each, threads) == each - (if each % threads <= 1 then 0 else each % threads - 1)
    ensures DecryptCount(each, threads, threads - 1) >= 0
  {
    var w, r, t := each / threads, each % threads, threads - 1;
    LastQuotient(w, r, threads);
    assert each == threads * w + r;
    assert threads * w == w * t + w;
  }

  lemma LastQuotient(w: nat, r: nat, threads: nat)
    requires r < threads
    ensures (threads - 1) * (threads * w + r) / threads == w * (threads - 1) + (if r == 0 then 0 else r - 1)
  {
    var t := threads - 1;
    var d, rest := w * t + (if r == 0 then 0 else r - 1), if r == 0 then 0 else threads - r;
    Expand(t, w, r);
    Quotient(t * (threads * w + r), d, rest, threads);
  }

  lemma Quotient(v: int, d: nat, rest: nat, threads: nat)
    requires rest < threads && v == threads * d + rest
    ensures v / threads == d
  {
    ModUnique(d, rest, threads);
  }

  lemma Expand(t: nat, w: nat, r: nat)
    requires r <= t
    ensures t * ((t + 1) * w + r) == (t + 1) * (w * t + (if r == 0 then 0 else r - 1)) + (if r == 0 then 0 else t + 1 - r)
  {
    Distribute(t, (t + 1) * w, r);
    Reorder(t, w);
    if r > 0 {
      Distribute(t + 1, w * t, r - 1);
      MulSucc(t, r - 1);
      Distribute(t, r - 1, 1);
    }
  }

  lemma Reorder(t: int, w: int)
    ensures t * ((t + 1) * w) == (t + 1) * (w * t)
  {
    assert t * ((t + 1) * w) == (t + 1) * (t * w);
    assert t * w == w * t;
  }

  /** Decrypt's counts reach the end of the chunk iff EACH_NUM mod R is 0 or 1; otherwise
      exactly (EACH_NUM mod R) - 1 trailing blocks are never decrypted. */
  lemma DecryptCoversIff(each: nat, threads: nat)
    requires threads > 0
    ensures Covered(each, threads) == each <==> each % threads <= 1
    ensures each % threads > 1 ==> each - Covered(each, threads) == each % threads - 1
  {
    LastCount(each, threads);
  }

  // ----- the loops over blocks

  /** The message at data + k * S_LEN. */
  function Slice(data: Bytes, k: nat, sLen: nat): (block: Bytes)
    ensures |block| == sLen
  {
    ReadAt(data, k * sLen, sLen)
  }

  lemma SliceInside(data: Bytes, k: nat, sLen: nat)
    requires (k + 1) * sLen <= |data|
    ensures k * sLen <= (k + 1) * sLen && Slice(data, k, sLen) == data[k * sLen..(k + 1) * sLen]
  {
    MulSucc(k, sLen);
  }

  predicate InChunk(data: Bytes, each: nat, sLen: nat) {
    |data| == each * sLen
  }

  /** The message a block carries under the shared product. */
  predicate Carries(mm: TensorProduct, blk: Block, q: nat, message: Bytes)
    requires q > 0
  {
    |blk.b| == 8 * |message| && DecryptBlock(mm, blk, q) == message
  }

  /** blk is encryptGPU of the message for some drawn noise. */
  ghost predicate EncryptionOf(mm: TensorProduct, message: Bytes, blk: Block, q: nat)
    requires 4 <= q <= 256
  {
    exists e: seq<nat> :: |e| == 8 * |message| && AllBelow(e, q / 2 - 1) && blk == EncryptBlock(mm, blk.s, e, message, q)
  }

  /** With a product that is half of Q off there, a block decrypts to the other bit. */
  lemma HalfOffDecrypts(mm: TensorProduct, mm': TensorProduct, message: Bytes, blk: Block, q: nat, i: nat)
    requires 4 <= q <= 256 && EncryptionOf(mm, message, blk, q) && i < 8 * |message|
    requires IsHalfOff(mm(blk.s, i), mm'(blk.s, i), q)
    ensures i < 8 * |DecryptBlock(mm', blk, q)|
    ensures Unpack(DecryptBlock(mm', blk, q))[i] != Unpack(message)[i]
  {
    var e: seq<nat> :| |e| == 8 * |message| && AllBelow(e, q / 2 - 1) && blk == EncryptBlock(mm, blk.s, e, message, q);
    DecryptedBit(mm', blk, |message|, q, i);
    BlockRow(mm, blk.s, e, message, q, i);
    HalfOffFlips(mm(blk.s, i), mm'(blk.s, i), e[i], Unpack(message)[i], q);
  }

  lemma EncryptionCarries(mm: TensorProduct, message: Bytes, blk: Block, q: nat)
    requires 4 <= q <= 256 && EncryptionOf(mm, message, blk, q)
    ensures Carries(mm, blk, q, message)
  {
    var e: seq<nat> :| |e| == 8 * |message| && AllBelow(e, q / 2 - 1) && blk == EncryptBlock(mm, blk.s, e, message, q);
    assert AllBelow(e, q / 2);
    GpuRoundTrip(mm, blk.s, e, message, q);
  }

  datatype Secret = Secret(blk: Block, progress: nat)

  /** A public vector of n bytes below Q. */
  predicate PublicOk(s: Bytes, n: nat, q: nat) {
    |s| == n && forall i :: 0 <= i < n ==> s[i] < q
  }

  /** blk encrypts block k of a chunk under a public vector of N = 8 * S_LEN bytes below Q. */
  ghost predicate BlockOf(mm: TensorProduct, data: Bytes, k: nat, sLen: nat, q: nat, blk: Block)
    requires 4 <= q <= 256
  {
    EncryptionOf(mm, Slice(data, k, sLen), blk, q) && PublicOk(blk.s, 8 * sLen, q)
  }

  /** blk decrypts to block k of a chunk. */
  predicate CarriesBlock(mm: TensorProduct, data: Bytes, k: nat, sLen: nat, q: nat, blk: Block)
    requires q > 0
  {
    Carries(mm, blk, q, Slice(data, k, sLen))
  }

  lemma BlockCarries(mm: TensorProduct, data: Bytes, k: nat, sLen: nat, q: nat, blk: Block)
    requires 4 <= q <= 256 && BlockOf(mm, data, k, sLen, q, blk)
    ensures CarriesBlock(mm, data, k, sLen, q, blk)
  {
    EncryptionCarries(mm, Slice(data, k, sLen), blk, q);
  }

  /** secrets encrypts the blocks of data from first on, numbered from index. */
  ghost predicate Encrypted(mm: TensorProduct, secrets: seq<Secret>, data: Bytes, first: nat, index: nat,
                            each: nat, sLen: nat, q: nat)
    requires 4 <= q <= 256 && InChunk(data, each, sLen) && first + |secrets| <= each
  {
    forall j: nat :: j < |secrets| ==> NthSecret(mm, data, first, index, sLen, q)(j, secrets[j])
  }

  /** What secret j of such a list is. */
  ghost function NthSecret(mm: TensorProduct, data: Bytes, first: nat, index: nat, sLen: nat, q: nat): (nat, Secret) -> bool
    requires 4 <= q <= 256
  {
    (j: nat, x: Secret) => x.progress == index + j && BlockOf(mm, data, first + j, sLen, q, x.blk)
  }

  /** torch::randint(high, {n, 1}) stored in bytes: any values in [0, high). */
  method RandInt(high: nat, n: nat, source: Randomness) returns (v: Bytes)
    requires 0 < high <= 256
    modifies source
    ensures PublicOk(v, n, high) && source.drawn == old(source.drawn) + v
  {
    v := [];
    while |v| < n
      invariant |v| <= n && PublicOk(v, |v|, high)
      invariant source.drawn == old(source.drawn) + v
    {
      var drawn := source.Draw(0, high - 1);
      v := v + [drawn];
    }
  }

  /** encryptGPU on one block: s and e are drawn, the message is always recoverable. */
  method EncryptGpu(mm: TensorProduct, message: Bytes, n: nat, q: nat, source: Randomness) returns (blk: Block, ghost noise: Bytes)
    requires 4 <= q <= 256
    modifies source
    ensures PublicOk(blk.s, n, q) && PublicOk(noise, 8 * |message|, q / 2 - 1)
    ensures source.drawn == old(source.drawn) + blk.s + noise && blk == EncryptBlock(mm, blk.s, noise, message, q)
    ensures EncryptionOf(mm, message, blk, q) && Carries(mm, blk, q, message)
  {
    var s := RandInt(q, n, source);
    var e := RandInt(q / 2 - 1, 8 * |message|, source);
    noise := e;
    blk := EncryptBlock(mm, s, e, message, q);
    EncryptionCarries(mm, message, blk, q);
  }

  /** One encrypting thread: its range of blocks, numbered consecutively from index. */
  method EncryptSecretsGpu(mm: TensorProduct, data: Bytes, index: nat, offset: nat, t: nat,
                           each: nat, threads: nat, sLen: nat, q: nat) returns (secrets: seq<Secret>)
    requires t < threads && offset == Offset(each, threads, t) && InChunk(data, each, sLen) && 4 <= q <= 256
    ensures offset + |secrets| == EncryptEnd(each, threads, t) <= each
    ensures Encrypted(mm, secrets, data, offset, index, each, sLen, q)
  {
    EncryptRangesPartition(each, threads, t);
    var currentNum := EncryptEnd(each, threads, t);
    secrets := [];
    var progress := index;
    for i := offset to currentNum
      invariant offset + |secrets| == i <= each && progress == index + |secrets|
      invariant Encrypted(mm, secrets, data, offset, index, each, sLen, q)
    {
      var blk := EncryptNth(mm, data, i, each, sLen, q);
      OneMore(secrets, Secret(blk, progress), NthSecret(mm, data, offset, index, sLen, q));
      secrets := secrets + [Secret(blk, progress)];
      progress := progress + 1;
    }
  }

  /** encryptGPU on data + i * S_LEN. */
  method EncryptNth(mm: TensorProduct, data: Bytes, i: nat, each: nat, sLen: nat, q: nat) returns (blk: Block)
    requires InChunk(data, each, sLen) && 4 <= q <= 256 && i < each
    ensures BlockOf(mm, data, i, sLen, q, blk)
  {
    ghost var noise;
    var source := new Randomness();
    blk, noise := EncryptGpu(mm, Slice(data, i, sLen), 8 * sLen, q, source);
  }

  /** One encrypted block more, whatever is known of all of them. */
  lemma OneMore<T>(s: seq<T>, x: T, holds: (nat, T) -> bool)
    requires (forall j: nat :: j < |s| ==> holds(j, s[j])) && holds(|s|, x)
    ensures forall j: nat :: j < |s| + 1 ==> holds(j, (s + [x])[j])
  {
  }

  /** The encryption of one chunk in Encrypt::process: all threads, joined in order. */
  method EncryptChunk(mm: TensorProduct, data: Bytes, progress: nat,
                      each: nat, threads: nat, sLen: nat, q: nat) returns (secrets: seq<Secret>)
    requires threads > 0 && InChunk(data, each, sLen) && 4 <= q <= 256
    ensures |secrets| == each
    ensures Encrypted(mm, secrets, data, 0, progress * each, each, sLen, q)
  {
    secrets := [];
    EncryptRangesPartition(each, threads, 0);
    for t := 0 to threads
      invariant |secrets| == if t < threads then Offset(each, threads, t) else each
      invariant |secrets| <= each
      invariant Encrypted(mm, secrets, data, 0, progress * each, each, sLen, q)
    {
      EncryptRangesPartition(each, threads, t);
      var offset := Offset(each, threads, t);
      var res := EncryptSecretsGpu(mm, data, progress * each + offset, offset, t, each, threads, sLen, q);
      ghost var before := secrets;
      secrets := secrets + res;
      Appended(mm, before, res, data, progress * each, each, sLen, q);
    }
  }

  lemma Appended(mm: TensorProduct, before: seq<Secret>, res: seq<Secret>, data: Bytes, index: nat,
                 each: nat, sLen: nat, q: nat)
    requires 4 <= q <= 256 && InChunk(data, each, sLen) && |before| + |res| <= each
    requires Encrypted(mm, before, data, 0, index, each, sLen, q)
    requires Encrypted(mm, res, data, |before|, index + |before|, each, sLen, q)
    ensures Encrypted(mm, before + res, data, 0, index, each, sLen, q)
  {
    var all := before + res;
    forall j | 0 <= j < |all|
      ensures all[j].progress == index + j && BlockOf(mm, data, 0 + j, sLen, q, all[j].blk)
    {
      if j >= |before| {
        assert all[j] == res[j - |before|];
      }
    }
  }

  /** The first n blocks decrypted and written one after another. */
  function Plaintexts(mm: TensorProduct, blocks: seq<Block>, n: nat, q: nat): Bytes
    requires n <= |blocks| && q > 0
  {
    if n == 0 then [] else Plaintexts(mm, blocks, n - 1, q) + DecryptBlock(mm, blocks[n - 1], q)
  }

  function Blocks(secrets: seq<Secret>): (blocks: seq<Block>)
    ensures |blocks| == |secrets|
  {
    seq(|secrets|, i requires 0 <= i < |secrets| => secrets[i].blk)
  }

  /** One decrypting thread: count blocks from begin, in order. */
  method DecryptSecretsGpu(mm: TensorProduct, secrets: seq<Secret>, begin: nat, t: nat,
                           threads: nat, q: nat) returns (secretVec: seq<Bytes>)
    requires t < threads && begin == Offset(|secrets|, threads, t) && q > 0
    ensures |secretVec| == DecryptCount(|secrets|, threads, t) && begin + |secretVec| <= |secrets|
    ensures forall j :: 0 <= j < |secretVec| ==> secretVec[j] == DecryptBlock(mm, secrets[begin + j].blk, q)
  {
    EncryptRangesPartition(|secrets|, threads, t);
    var currentNum := DecryptCount(|secrets|, threads, t);
    secretVec := [];
    for i := 0 to currentNum
      invariant |secretVec| == i
      invariant forall j :: 0 <= j < i ==> secretVec[j] == DecryptBlock(mm, secrets[begin + j].blk, q)
    {
      var data := Lwe.DecryptGpu(mm, secrets[begin + i].blk, q);
      secretVec := secretVec + [data];
    }
  }

  /** Where the blocks of the first t threads end. */
  function Reached(each: nat, threads: nat, t: nat): int
    requires threads > 0
  {
    if t < threads then Offset(each, threads, t) else Covered(each, threads)
  }

  lemma Reaches(each: nat, threads: nat, t: nat)
    requires t < threads
    ensures Reached(each, threads, 0) == 0
    ensures 0 <= Reached(each, threads, t) == Offset(each, threads, t) <= each
    ensures 0 <= Reached(each, threads, t + 1) == Offset(each, threads, t) + DecryptCount(each, threads, t) <= each
  {
    EncryptRangesPartition(each, threads, 0);
    EncryptRangesPartition(each, threads, t);
  }

  /** One thread's blocks decrypted and written after those of the threads before it. */
  method WriteBlocks(mm: TensorProduct, secrets: seq<Secret>, had: Bytes, t: nat, threads: nat, q: nat) returns (file: Bytes)
    requires q > 0 && t < threads && 0 <= Reached(|secrets|, threads, t) <= |secrets|
    requires had == Plaintexts(mm, Blocks(secrets), Reached(|secrets|, threads, t), q)
    ensures 0 <= Reached(|secrets|, threads, t + 1) <= |secrets|
    ensures file == Plaintexts(mm, Blocks(secrets), Reached(|secrets|, threads, t + 1), q)
  {
    ghost var start := Reached(|secrets|, threads, t);
    Reaches(|secrets|, threads, t);
    var res := DecryptSecretsGpu(mm, secrets, Offset(|secrets|, threads, t), t, threads, q);
    file := had;
    for j := 0 to |res|
      invariant file == Plaintexts(mm, Blocks(secrets), start + j, q)
    {
      file := file + res[j];
    }
  }

  /** The writing loop of Decrypt::process: the chunk file holds the covered blocks, in order. */
  method DecryptChunk(mm: TensorProduct, secrets: seq<Secret>, threads: nat, q: nat) returns (file: Bytes)
    requires threads > 0 && q > 0
    ensures 0 <= Covered(|secrets|, threads) <= |secrets|
    ensures file == Plaintexts(mm, Blocks(secrets), Covered(|secrets|, threads), q)
  {
    file := [];
    Reaches(|secrets|, threads, 0);
    for t := 0 to threads
      invariant 0 <= Reached(|secrets|, threads, t) <= |secrets|
      invariant file == Plaintexts(mm, Blocks(secrets), Reached(|secrets|, threads, t), q)
    {
      file := WriteBlocks(mm, secrets, file, t, threads, q);
    }
  }

  /** Blocks that carry the slices of a chunk decrypt, block after block, to its prefixes. */
  lemma {:induction false} PlaintextsArePrefix(mm: TensorProduct, blocks: seq<Block>, data: Bytes, n: nat, sLen: nat, q: nat)
    requires q > 0 && InChunk(data, |blocks|, sLen) && n <= |blocks|
    requires CarryChunk(mm, blocks, data, sLen, q)
    ensures n * sLen <= |data| && Plaintexts(mm, blocks, n, q) == data[..n * sLen]
  {
    MulMonotone(n, |blocks|, sLen);
    if n > 0 {
      MulSucc(n - 1, sLen);
      PlaintextsArePrefix(mm, blocks, data, n - 1, sLen, q);
      assert CarriesBlock(mm, data, n - 1, sLen, q, blocks[n - 1]);
      PrefixGrows(data, n - 1, sLen);
    }
  }

  lemma PrefixGrows(data: Bytes, n: nat, sLen: nat)
    requires n * sLen <= (n + 1) * sLen <= |data|
    ensures data[..n * sLen] + Slice(data, n, sLen) == data[..(n + 1) * sLen]
  {
  }

  predicate CarryChunk(mm: TensorProduct, blocks: seq<Block>, data: Bytes, sLen: nat, q: nat)
    requires q > 0 && InChunk(data, |blocks|, sLen)
  {
    forall k :: 0 <= k < |blocks| ==> CarriesBlock(mm, data, k, sLen, q, blocks[k])
  }

  lemma EncryptedCarries(mm: TensorProduct, secrets: seq<Secret>, data: Bytes, index: nat, each: nat, sLen: nat, q: nat)
    requires 4 <= q <= 256 && InChunk(data, each, sLen) && |secrets| == each
    requires Encrypted(mm, secrets, data, 0, index, each, sLen, q)
    ensures CarryChunk(mm, Blocks(secrets), data, sLen, q)
  {
    forall k | 0 <= k < each
      ensures CarriesBlock(mm, data, k, sLen, q, Blocks(secrets)[k])
    {
      assert BlockOf(mm, data, 0 + k, sLen, q, secrets[k].blk);
      BlockCarries(mm, data, k, sLen, q, secrets[k].blk);
    }
  }

  /** What the client writes for a chunk that the server encrypted is the chunk itself iff
      the decrypting threads cover it, that is iff EACH_NUM mod R <= 1. */
  lemma ChunkRoundTripIff(mm: TensorProduct, secrets: seq<Secret>, data: Bytes, index: nat,
                          each: nat, threads: nat, sLen: nat, q: nat)
    requires 4 <= q <= 256 && sLen > 0 && threads > 0 && InChunk(data, each, sLen) && |secrets| == each
    requires Encrypted(mm, secrets, data, 0, index, each, sLen, q)
    ensures 0 <= Covered(each, threads) <= each
    ensures Plaintexts(mm, Blocks(secrets), Covered(each, threads), q) == data <==> each % threads <= 1
  {
    EncryptRangesPartition(each, threads, threads - 1);
    var n := Covered(each, threads);
    EncryptedCarries(mm, secrets, data, index, each, sLen, q);
    PlaintextsArePrefix(mm, Blocks(secrets), data, n, sLen, q);
    DecryptCoversIff(each, threads);
    PrefixIsWholeIff(data, n, each, sLen);
  }

  lemma PrefixIsWholeIff(data: Bytes, n: nat, each: nat, sLen: nat)
    requires InChunk(data, each, sLen) && sLen > 0 && n <= each && n * sLen <= |data|
    ensures data[..n * sLen] == data <==> n == each
  {
    if n < each {
      MulMonotone(n + 1, each, sLen);
      MulSucc(n, sLen);
    }
  }
}
