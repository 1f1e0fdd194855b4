/** The LWE scheme of src/LWE.hpp: b = A*s + e + m*(Q/2), decided by the threshold Q/2.
    The CPU path runs in uint16_t and wraps; the GPU path runs on tensors whose product
    A*s is only known to be the same on both sides. */
module Lwe {
  import opened Arith
  import opened Bits
  import opened Sequences

  const WORD := 0x1_0000

  /** Conversion of an arithmetic result to uint16_t. */
  function Word(v: int): (w: nat)
    ensures w < WORD
  {
    v % WORD
  }

  // ----- the uint16_t dot product

  /** A way to accumulate a dot product: Eigen may reassociate and reorder the terms. */
  datatype Acc = Zero | Term(i: nat) | Add(left: Acc, right: Acc)

  function Terms(t: Acc): seq<nat> {
    match t
    case Zero => []
    case Term(i) => [i]
    case Add(l, r) => Terms(l) + Terms(r)
  }

  function Product(row: seq<nat>, s: seq<nat>, i: nat): nat {
    if i < |row| && i < |s| then row[i] * s[i] else 0
  }

  /** The accumulation evaluated in uint16_t: every product and every sum wraps. */
  function Wrapped(t: Acc, row: seq<nat>, s: seq<nat>): (w: nat)
    ensures w < WORD
  {
    match t
    case Zero => 0
    case Term(i) => Word(Product(row, s, i))
    case Add(l, r) => Word(Wrapped(l, row, s) + Wrapped(r, row, s))
  }

  /** The exact sum of the chosen products. */
  function SumOver(idx: seq<nat>, row: seq<nat>, s: seq<nat>): nat {
    if idx == [] then 0 else Product(row, s, idx[0]) + SumOver(idx[1..], row, s)
  }

  function Indices(n: nat): (idx: seq<nat>)
    ensures |idx| == n
  {
    seq(n, i => i)
  }

  /** What the repository calls A*s for one row, in uint16_t. */
  function Mask(row: seq<nat>, s: seq<nat>): (x: nat)
    ensures x < WORD
  {
    Word(SumOver(Indices(|row|), row, s))
  }

  lemma {:induction false} SumOverConcat(a: seq<nat>, b: seq<nat>, row: seq<nat>, s: seq<nat>)
    ensures SumOver(a + b, row, s) == SumOver(a, row, s) + SumOver(b, row, s)
  {
    if a == [] {
      assert a + b == b;
    } else {
      assert (a + b)[1..] == a[1..] + b;
      SumOverConcat(a[1..], b, row, s);
    }
  }

  lemma SumOverExtract(b: seq<nat>, k: nat, row: seq<nat>, s: seq<nat>)
    requires k < |b|
    ensures SumOver(b, row, s) == Product(row, s, b[k]) + SumOver(b[..k] + b[k + 1..], row, s)
  {
    assert b == b[..k] + b[k..] && b[k..][1..] == b[k + 1..];
    SumOverConcat(b[..k], b[k..], row, s);
    SumOverConcat(b[..k], b[k + 1..], row, s);
  }

  lemma {:induction false} SumOverPermutation(a: seq<nat>, b: seq<nat>, row: seq<nat>, s: seq<nat>)
    requires multiset(a) == multiset(b)
    ensures SumOver(a, row, s) == SumOver(b, row, s)
  {
    if a == [] {
      assert |multiset(b)| == 0;
    } else {
      var k := FindFirst(a, b);
      SumOverPermutation(a[1..], b[..k] + b[k + 1..], row, s);
      SumOverExtract(b, k, row, s);
    }
  }

  lemma WordSplit(v: int) returns (k: int)
    ensures v == Word(v) + WORD * k
  {
    k := v / WORD;
  }

  lemma WordJoin(w: nat, k: int)
    requires w < WORD
    ensures Word(w + WORD * k) == w
  {
  }

  /** Each wrap takes away a multiple of 2^16. */
  lemma {:induction false} WrappedDrops(t: Acc, row: seq<nat>, s: seq<nat>) returns (k: int)
    ensures SumOver(Terms(t), row, s) == Wrapped(t, row, s) + WORD * k
  {
    match t
    case Zero =>
      k := 0;
    case Term(i) =>
      SumOverOne(i, row, s);
      k := WordSplit(Product(row, s, i));
    case Add(l, r) =>
      var kl := WrappedDrops(l, row, s);
      var kr := WrappedDrops(r, row, s);
      k := SumDrops(l, r, row, s, kl, kr);
  }

  lemma SumDrops(l: Acc, r: Acc, row: seq<nat>, s: seq<nat>, kl: int, kr: int) returns (k: int)
    requires SumOver(Terms(l), row, s) == Wrapped(l, row, s) + WORD * kl
    requires SumOver(Terms(r), row, s) == Wrapped(r, row, s) + WORD * kr
    ensures SumOver(Terms(l) + Terms(r), row, s) == Wrapped(Add(l, r), row, s) + WORD * k
  {
    var x, y := Wrapped(l, row, s), Wrapped(r, row, s);
    var kw := WordSplit(x + y);
    SumOverConcat(Terms(l), Terms(r), row, s);
    AddMultiples(x, kl, y, kr, Word(x + y), kw);
    k := kl + kr + kw;
  }

  lemma SumOverOne(i: nat, row: seq<nat>, s: seq<nat>)
    ensures SumOver([i], row, s) == Product(row, s, i)
  {
    assert [i][1..] == [];
  }

  lemma AddMultiples(x: int, kx: int, y: int, ky: int, w: int, kw: int)
    requires x + y == w + WORD * kw
    ensures (x + WORD * kx) + (y + WORD * ky) == w + WORD * (kx + ky + kw)
  {
  }

  /** Wrapping at every step loses nothing modulo 2^16. */
  lemma WrappedIsExact(t: Acc, row: seq<nat>, s: seq<nat>)
    ensures Wrapped(t, row, s) == Word(SumOver(Terms(t), row, s))
  {
    var k := WrappedDrops(t, row, s);
    WordJoin(Wrapped(t, row, s), k);
  }

  /** However the product is accumulated, as long as every index is added once, the
      uint16_t result is the exact dot product modulo 2^16. */
  lemma AnyAccumulationOrder(t: Acc, row: seq<nat>, s: seq<nat>)
    requires |row| == |s| && multiset(Terms(t)) == multiset(Indices(|row|))
    ensures Wrapped(t, row, s) == Mask(row, s)
  {
    WrappedIsExact(t, row, s);
    SumOverPermutation(Terms(t), Indices(|row|), row, s);
  }

  /** The exact dot product. */
  function Dot(row: seq<nat>, s: seq<nat>): nat
    requires |row| == |s|
  {
    if row == [] then 0
    else
      var n := |row| - 1;
      Dot(row[..n], s[..n]) + row[n] * s[n]
  }

  /** A*s in uint16_t is the sum of the products row[i] * s[i] modulo 2^16. */
  lemma MaskIsDot(row: seq<nat>, s: seq<nat>)
    requires |row| == |s|
    ensures Mask(row, s) == Dot(row, s) % 0x1_0000
  {
    SumIsDot(row, s, |row|);
    assert Indices(|row|)[..|row|] == Indices(|row|) && row[..|row|] == row && s[..|s|] == s;
  }

  lemma {:induction false} SumIsDot(row: seq<nat>, s: seq<nat>, k: nat)
    requires |row| == |s| && k <= |row|
    ensures SumOver(Indices(|row|)[..k], row, s) == Dot(row[..k], s[..k])
  {
    if k > 0 {
      SumIsDot(row, s, k - 1);
      assert Indices(|row|)[..k] == Indices(|row|)[..k - 1] + [k - 1];
      SumOverConcat(Indices(|row|)[..k - 1], [k - 1], row, s);
      SumOverOne(k - 1, row, s);
      assert row[..k][..k - 1] == row[..k - 1] && s[..k][..k - 1] == s[..k - 1];
    }
  }

  // ----- one row, CPU

  /** One element of b: ((A*s) % Q + e + m * halfQ) % Q with every sum in uint16_t. */
  function EncryptRow(x: nat, e: nat, bit: bool, q: nat): nat
    requires q > 0
  {
    NoisySum(x % q, e, bit, q) % q
  }

  /** The two sums of uint16_t below the outer reduction. */
  function NoisySum(r: nat, e: nat, bit: bool, q: nat): nat {
    Word(Word(r + e) + Word(Num(bit) * (q / 2)))
  }

  /** ((b + Q) - (A*s) % Q) % Q in uint16_t. */
  function Residue(b: nat, x: nat, q: nat): (w: nat)
    requires q > 0
    ensures w < q
  {
    Unmasked(b, x % q, q) % q
  }

  function Unmasked(b: nat, r: nat, q: nat): nat {
    Word(Word(b + q) - r)
  }

  /** One decision of decrypt: 0 iff the residue is below Q/2. */
  function DecodeRow(b: nat, x: nat, q: nat): bool
    requires q > 0
  {
    !(Residue(b, x, q) < q / 2)
  }

  /** Subtracting the mask undoes adding it, modulo q. */
  lemma Unmask(r: nat, n: nat, q: nat)
    requires r < q && n < 2 * q
    ensures (r + n) % q < q
    ensures ((r + n) % q + q - r) % q == (if n < q then n else n - q)
    ensures ((r + n) % q - r) % q == (if n < q then n else n - q)
  {
    var w := if n < q then n else n - q;
    var b := if r + w < q then r + w else r + w - q;
    var d := (if n < q then 0 else 1) + (if r + w < q then 0 else 1);
    assert q * d + b == r + n by {
      assert q * 0 == 0 && q * 1 == q && q * 2 == q + q;
    }
    ModUnique(d, b, q);
    if r + w < q {
      ModOnce(b + q - r, q);
      ModSmall(b - r, q);
    } else {
      ModSmall(b + q - r, q);
      ModNegative(b - r, q);
    }
  }

  /** Exactly which noise values are harmless: below Q/2 under a 0 bit and below
      Q - Q/2 under a 1 bit. */
  lemma RowDecodesIff(x: nat, e: nat, bit: bool, q: nat)
    requires 2 <= q && e < q && q - 1 + e + q / 2 < WORD && 2 * q <= WORD
    ensures EncryptRow(x, e, bit, q) < q
    ensures DecodeRow(EncryptRow(x, e, bit, q), x, q) == bit <==> e < (if bit then q - q / 2 else q / 2)
  {
    RowResidue(x, e, bit, q);
    Decision(Residue(EncryptRow(x, e, bit, q), x, q), e, bit, q);
  }

  /** What decryption thresholds: the noise plus the bit's half of Q, modulo Q. */
  lemma RowResidue(x: nat, e: nat, bit: bool, q: nat)
    requires 2 <= q && e < q && q - 1 + e + q / 2 < WORD && 2 * q <= WORD
    ensures EncryptRow(x, e, bit, q) < q
    ensures Residue(EncryptRow(x, e, bit, q), x, q) == Signal(e, bit, q)
  {
    var b := EncryptRow(x, e, bit, q);
    EncryptSmall(x, e, bit, q);
    UnmaskedSignal(b, x % q, e, bit, q);
    DecodeSmall(b, x, q);
  }

  lemma UnmaskedSignal(b: nat, r: nat, e: nat, bit: bool, q: nat)
    requires 2 <= q && e < q && r < q && b == (r + (e + (if bit then q / 2 else 0))) % q
    ensures b < q && (b + q - r) % q == Signal(e, bit, q)
  {
    Unmask(r, e + (if bit then q / 2 else 0), q);
  }

  function Signal(e: nat, bit: bool, q: nat): nat
    requires e < q
  {
    var n := e + (if bit then q / 2 else 0);
    if n < q then n else n - q
  }

  lemma Decision(w: nat, e: nat, bit: bool, q: nat)
    requires 2 <= q && e < q && w == Signal(e, bit, q)
    ensures !(w < q / 2) == bit <==> e < (if bit then q - q / 2 else q / 2)
  {
  }

  /** Nothing but the dot product wraps while encrypting a row. */
  lemma SumFits(r: nat, e: nat, bit: bool, q: nat)
    requires r + e + q / 2 < WORD
    ensures NoisySum(r, e, bit, q) == r + (e + (if bit then q / 2 else 0))
  {
    var k := if bit then q / 2 else 0;
    assert Num(bit) * (q / 2) == k;
    WordSmall(r + e);
    WordSmall(k);
    WordSmall(r + e + k);
  }

  lemma EncryptSmall(x: nat, e: nat, bit: bool, q: nat)
    requires 2 <= q && q - 1 + e + q / 2 < WORD
    ensures EncryptRow(x, e, bit, q) == (x % q + (e + (if bit then q / 2 else 0))) % q
  {
    SumFits(x % q, e, bit, q);
  }

  /** Nothing wraps while decrypting a row. */
  lemma DifferenceFits(b: nat, r: nat, q: nat)
    requires r < q && b + q < WORD
    ensures Unmasked(b, r, q) == b + q - r
  {
    WordSmall(b + q);
    WordSmall(b + q - r);
  }

  lemma DecodeSmall(b: nat, x: nat, q: nat)
    requires 2 <= q && b + q < WORD
    ensures Residue(b, x, q) == (b + q - x % q) % q
  {
    DifferenceFits(b, x % q, q);
  }

  lemma WordSmall(v: int)
    requires 0 <= v < WORD
    ensures Word(v) == v
  {
  }

  /** The configured noise range [0, Q/2 - 1] is harmless, and Q/2 is the first value that
      is not: it turns a 0 into a 1. No sum but the dot product wraps. */
  lemma NoiseBoundIsTight(x: nat, e: nat, bit: bool, q: nat)
    requires 2 <= q <= 0x8000
    ensures e < q / 2 ==> DecodeRow(EncryptRow(x, e, bit, q), x, q) == bit
    ensures DecodeRow(EncryptRow(x, q / 2, false, q), x, q)
    ensures e < q / 2 ==> x % q + e + Num(bit) * (q / 2) < WORD && EncryptRow(x, e, bit, q) + q < WORD
  {
    if e < q / 2 {
      RowDecodesIff(x, e, bit, q);
    }
    RowDecodesIff(x, q / 2, false, q);
  }

  // ----- words as bytes (little endian, as the strings s and b are laid out)

  function WordBytes(ws: seq<nat>): (s: Bytes)
    ensures |s| == 2 * |ws|
  {
    if ws == [] then [] else [ws[0] % 256, ws[0] / 256 % 256] + WordBytes(ws[1..])
  }

  /** Little endian: the low byte first. */
  lemma {:induction false} WordBytesAt(ws: seq<nat>, i: nat)
    requires i < |ws|
    ensures WordBytes(ws)[2 * i] == ws[i] % 256 && WordBytes(ws)[2 * i + 1] == ws[i] / 256 % 256
  {
    if i > 0 {
      WordBytesAt(ws[1..], i - 1);
    }
  }

  function WordsOf(s: Bytes): (ws: seq<nat>)
    ensures |ws| == |s| / 2
  {
    if |s| < 2 then [] else [s[0] as int + 256 * s[1] as int] + WordsOf(s[2..])
  }

  lemma {:induction false} WordsRoundTrip(ws: seq<nat>)
    requires forall i :: 0 <= i < |ws| ==> ws[i] < WORD
    ensures WordsOf(WordBytes(ws)) == ws
  {
    if ws != [] {
      var s := WordBytes(ws);
      assert s[2..] == WordBytes(ws[1..]);
      WordsRoundTrip(ws[1..]);
    }
  }

  // ----- whole messages, CPU

  predicate IsMatrix(A: seq<seq<nat>>, m: nat, n: nat) {
    |A| == m && forall i :: 0 <= i < m ==> |A[i]| == n
  }

  predicate AllBelow(v: seq<nat>, bound: nat) {
    forall i :: 0 <= i < |v| ==> v[i] < bound
  }

  function CipherWords(A: seq<seq<nat>>, s: seq<nat>, e: seq<nat>, bits: seq<bool>, q: nat): (b: seq<nat>)
    requires q > 0 && |e| == |bits| && IsMatrix(A, |bits|, |s|)
    ensures |b| == |bits|
  {
    seq<nat>(|bits|, i requires 0 <= i < |bits| => EncryptRow(Mask(A[i], s), e[i], bits[i], q))
  }

  /** Each element of b is the dot product modulo 2^16 plus the noise plus the bit's half of
      Q, modulo Q. */
  lemma CipherRow(A: seq<seq<nat>>, s: seq<nat>, e: seq<nat>, bits: seq<bool>, q: nat, i: nat)
    requires 2 <= q <= 0x8000 && |e| == |bits| && IsMatrix(A, |bits|, |s|) && i < |bits| && e[i] < q / 2
    ensures CipherWords(A, s, e, bits, q)[i] == CpuWord(A[i], s, e[i], bits[i], q)
  {
    CipherWordAt(A, s, e, bits, q, i);
    CpuWordValue(A[i], s, e[i], bits[i], q);
  }

  function CpuWord(row: seq<nat>, s: seq<nat>, e: nat, bit: bool, q: nat): nat
    requires q > 0 && |row| == |s|
  {
    (Dot(row, s) % 0x1_0000 + e + (if bit then q / 2 else 0)) % q
  }

  lemma CipherWordAt(A: seq<seq<nat>>, s: seq<nat>, e: seq<nat>, bits: seq<bool>, q: nat, i: nat)
    requires q > 0 && |e| == |bits| && IsMatrix(A, |bits|, |s|) && i < |bits|
    ensures CipherWords(A, s, e, bits, q)[i] == EncryptRow(Mask(A[i], s), e[i], bits[i], q)
  {
  }

  lemma CpuWordValue(row: seq<nat>, s: seq<nat>, e: nat, bit: bool, q: nat)
    requires 2 <= q <= 0x8000 && e < q / 2 && |row| == |s|
    ensures EncryptRow(Mask(row, s), e, bit, q) == CpuWord(row, s, e, bit, q)
  {
    MaskIsDot(row, s);
    CpuRowValue(Mask(row, s), e, bit, q);
  }

  lemma CpuRowValue(x: nat, e: nat, bit: bool, q: nat)
    requires 2 <= q <= 0x8000 && e < q / 2
    ensures EncryptRow(x, e, bit, q) == (x + e + (if bit then q / 2 else 0)) % q
  {
    EncryptSmall(x, e, bit, q);
    ModAdd(x, e + (if bit then q / 2 else 0), q);
  }

  /** What decrypt computes from the shared matrix and the two received strings. */
  function Plain(A: seq<seq<nat>>, inS: Bytes, inB: Bytes, q: nat): Bytes
    requires q > 0 && IsMatrix(A, |inB| / 2, |inS| / 2)
  {
    var s, b := WordsOf(inS), WordsOf(inB);
    Pack(seq(|b|, i requires 0 <= i < |b| => DecodeRow(b[i], Mask(A[i], s), q)))
  }

  /** Decryption inverts encryption for every matrix of words, every s, all noise in
      [0, Q/2 - 1] and every message of M/8 bytes, although A*s wraps modulo 2^16. */
  lemma CpuRoundTrip(A: seq<seq<nat>>, s: seq<nat>, e: seq<nat>, message: Bytes, q: nat)
    requires 2 <= q <= 0x8000 && |e| == 8 * |message| && IsMatrix(A, 8 * |message|, |s|)
    requires AllBelow(s, q) && AllBelow(e, q / 2)
    ensures Plain(A, WordBytes(s), WordBytes(CipherWords(A, s, e, Unpack(message), q)), q) == message
  {
    var bits := Unpack(message);
    var b := CipherWords(A, s, e, bits, q);
    forall i | 0 <= i < |b|
      ensures b[i] < q && DecodeRow(b[i], Mask(A[i], s), q) == bits[i]
    {
      NoiseBoundIsTight(Mask(A[i], s), e[i], bits[i], q);
      RowDecodesIff(Mask(A[i], s), e[i], bits[i], q);
    }
    WordsRoundTrip(s);
    WordsRoundTrip(b);
    assert seq(|b|, i requires 0 <= i < |b| => DecodeRow(b[i], Mask(A[i], s), q)) == bits;
    PackUnpack(message);
  }

  // ----- the GPU path

  /** torch.remainder on integers: C's truncated remainder moved to the divisor's sign. */
  function TorchRemainder(v: int, q: nat): int
    requires q > 0
  {
    var r := if v >= 0 then v % q else -((-v) % q);
    if r < 0 then r + q else r
  }

  /** One element of b, stored as uint8. */
  function EncryptRowGpu(v: nat, e: nat, bit: bool, q: nat): (b: Byte)
    requires 0 < q <= 256
    ensures b < q
  {
    (v % q + e + Num(bit) * (q / 2)) % q
  }

  /** The element sent: product, noise and the bit's half of Q, modulo Q. */
  lemma GpuRowValue(v: nat, e: nat, bit: bool, q: nat)
    requires 0 < q <= 256
    ensures EncryptRowGpu(v, e, bit, q) == (v + e + (if bit then q / 2 else 0)) % q
  {
    var n := e + (if bit then q / 2 else 0);
    assert Num(bit) * (q / 2) == if bit then q / 2 else 0;
    ModAdd(v, n, q);
  }

  function DecodeRowGpu(b: nat, v: nat, q: nat): bool
    requires q > 0
  {
    TorchRemainder(b - v % q, q) >= q / 2
  }

  /** The remainder with the divisor's sign, for negative differences too. */
  lemma TorchIsEuclidean(v: int, q: nat)
    requires q > 0
    ensures TorchRemainder(v, q) == v % q
  {
    if v < 0 {
      var d, r := -v / q, -v % q;
      if r == 0 {
        ModIs(v, -d, 0, q);
      } else {
        Distribute(q, -d, -1);
        ModIs(v, -d - 1, q - r, q);
      }
    }
  }

  /** Thresholding b - x with the divisor-signed remainder and thresholding b + Q - x
      decide the same bit. */
  lemma DecodersAgree(b: nat, x: nat, q: nat)
    requires 2 <= q && b + q < WORD
    ensures DecodeRowGpu(b, x, q) == DecodeRow(b, x, q)
  {
    DecodeSmall(b, x, q);
    GpuDecision(b, x, q);
    AddDivisor(b - x % q, q);
  }

  lemma GpuDecision(b: nat, x: nat, q: nat)
    requires q > 0
    ensures DecodeRowGpu(b, x, q) == ((b - x % q) % q >= q / 2)
  {
    TorchIsEuclidean(b - x % q, q);
  }

  lemma AddDivisor(v: int, q: nat)
    requires q > 0
    ensures (v + q) % q == v % q
  {
    Distribute(q, v / q, 1);
    ModIs(v + q, v / q + 1, v % q, q);
  }

  /** With the truncated remainder of C the same code would misread: the sign matters. */
  lemma TruncationWouldMisread(b: nat, x: nat, q: nat)
    requires 2 <= q && b < x % q && x % q - b <= q - q / 2
    ensures -((x % q - b) % q) < q / 2 && DecodeRowGpu(b, x, q)
  {
    ModSmall(x % q - b, q);
  }

  /** One encrypted block as it is sent: the public s and b. */
  datatype Block = Block(s: Bytes, b: Bytes)

  /** The product A*s as a tensor library gives it: element i of a vector that depends
      on s only. Nothing is assumed about its exactness. */
  type TensorProduct = (Bytes, nat) -> nat

  function EncryptBlock(mm: TensorProduct, s: Bytes, e: seq<nat>, message: Bytes, q: nat): (blk: Block)
    requires 0 < q <= 256 && |e| == 8 * |message|
    ensures blk.s == s && |blk.b| == 8 * |message|
  {
    var bits := Unpack(message);
    Block(s, seq<Byte>(|bits|, i requires 0 <= i < |bits| => EncryptRowGpu(mm(s, i), e[i], bits[i], q)))
  }

  function DecryptBlock(mm: TensorProduct, blk: Block, q: nat): (message: Bytes)
    requires q > 0
    ensures |message| == |blk.b| / 8
  {
    Pack(seq(|blk.b|, i requires 0 <= i < |blk.b| => DecodeRowGpu(blk.b[i], mm(blk.s, i), q)))
  }

  /** decryptGPU inverts encryptGPU for any product both sides compute alike and any
      noise below Q/2, which contains the drawn range [0, Q/2 - 2]. */
  lemma GpuRoundTrip(mm: TensorProduct, s: Bytes, e: seq<nat>, message: Bytes, q: nat)
    requires 2 <= q <= 256 && |e| == 8 * |message| && AllBelow(e, q / 2)
    ensures DecryptBlock(mm, EncryptBlock(mm, s, e, message, q), q) == message
  {
    var bits := Unpack(message);
    var blk := EncryptBlock(mm, s, e, message, q);
    forall i | 0 <= i < |bits|
      ensures DecodeRowGpu(blk.b[i], mm(s, i), q) == bits[i]
    {
      GpuRowRoundTrip(mm(s, i), e[i], bits[i], q);
    }
    assert seq(|blk.b|, i requires 0 <= i < |blk.b| => DecodeRowGpu(blk.b[i], mm(blk.s, i), q)) == bits;
    PackUnpack(message);
  }

  /** Exactly which noise values the tensor path bears: the same as the CPU path. */
  lemma GpuRowDecodesIff(v: nat, e: nat, bit: bool, q: nat)
    requires 2 <= q <= 256 && e < q
    ensures DecodeRowGpu(EncryptRowGpu(v, e, bit, q), v, q) == bit <==> e < (if bit then q - q / 2 else q / 2)
  {
    var b := EncryptRowGpu(v, e, bit, q);
    assert Num(bit) * (q / 2) == if bit then q / 2 else 0;
    UnmaskedSignal(b, v % q, e, bit, q);
    DecodersAgree(b, v, q);
    DecodeSmall(b, v, q);
    Decision(Residue(b, v, q), e, bit, q);
  }

  lemma GpuRowRoundTrip(v: nat, e: nat, bit: bool, q: nat)
    requires 2 <= q <= 256 && e < q / 2
    ensures DecodeRowGpu(EncryptRowGpu(v, e, bit, q), v, q) == bit
  {
    GpuRowDecodesIff(v, e, bit, q);
  }

  /** Every element of a block carries its own noise. */
  lemma GpuCipherRow(mm: TensorProduct, s: Bytes, e: seq<nat>, message: Bytes, q: nat, i: nat)
    requires 0 < q <= 256 && |e| == 8 * |message| && i < 8 * |message|
    ensures EncryptBlock(mm, s, e, message, q).b[i] == (mm(s, i) + e[i] + (if Unpack(message)[i] then q / 2 else 0)) % q
  {
    GpuRowValue(mm(s, i), e[i], Unpack(message)[i], q);
  }

  /** What decryption makes of a row when the other product is v': the two cancel, or do not. */
  predicate Remains(v: nat, e: nat, bit: bool, v': nat, q: nat)
    requires q > 0
  {
    (v + e + (if bit then q / 2 else 0) - v') % q >= q / 2
  }

  lemma AnyProductDecodes(v: nat, v': nat, e: nat, bit: bool, q: nat)
    requires 2 <= q <= 256
    ensures DecodeRowGpu(EncryptRowGpu(v, e, bit, q), v', q) == Remains(v, e, bit, v', q)
  {
    GpuRowValue(v, e, bit, q);
    GpuDecision(EncryptRowGpu(v, e, bit, q), v', q);
    ModDiff(v + e + (if bit then q / 2 else 0), v', q);
  }

  /** Bit by bit, what a block encrypted with one product decrypts to with another. */
  lemma AnyProductDecrypts(mm: TensorProduct, mm': TensorProduct, s: Bytes, e: seq<nat>, message: Bytes, q: nat, i: nat)
    requires 2 <= q <= 256 && |e| == 8 * |message| && i < 8 * |message|
    ensures Unpack(DecryptBlock(mm', EncryptBlock(mm, s, e, message, q), q))[i]
         == Remains(mm(s, i), e[i], Unpack(message)[i], mm'(s, i), q)
  {
    var blk := EncryptBlock(mm, s, e, message, q);
    DecryptedBit(mm', blk, |message|, q, i);
    assert Unpack(DecryptBlock(mm', blk, q))[i] == DecodeRowGpu(blk.b[i], mm'(s, i), q);
    BlockRow(mm, s, e, message, q, i);
    AnyProductDecodes(mm(s, i), mm'(s, i), e[i], Unpack(message)[i], q);
  }

  lemma BlockRow(mm: TensorProduct, s: Bytes, e: seq<nat>, message: Bytes, q: nat, i: nat)
    requires 0 < q <= 256 && |e| == 8 * |message| && i < 8 * |message|
    ensures EncryptBlock(mm, s, e, message, q).b[i] == EncryptRowGpu(mm(s, i), e[i], Unpack(message)[i], q)
  {
  }

  lemma DecryptedBit(mm: TensorProduct, blk: Block, m: nat, q: nat, i: nat)
    requires q > 0 && |blk.b| == 8 * m && i < 8 * m
    ensures |DecryptBlock(mm, blk, q)| == m
    ensures Unpack(DecryptBlock(mm, blk, q))[i] == DecodeRowGpu(blk.b[i], mm(blk.s, i), q)
  {
    UnpackPack(seq(|blk.b|, j requires 0 <= j < |blk.b| => DecodeRowGpu(blk.b[j], mm(blk.s, j), q)));
  }

  predicate IsHalfOff(v: nat, v': nat, q: nat)
    requires q > 0
  {
    v' % q == (v + q / 2) % q
  }

  /** A product that is half of Q off flips the bit, whatever the noise. */
  lemma HalfOffFlips(v: nat, v': nat, e: nat, bit: bool, q: nat)
    requires 2 <= q <= 256 && e < q / 2 && IsHalfOff(v, v', q)
    ensures DecodeRowGpu(EncryptRowGpu(v, e, bit, q), v', q) != bit
  {
    var r, n := v % q, e + (if bit then q / 2 else 0);
    var b := EncryptRowGpu(v, e, bit, q);
    var r' := v' % q;
    GpuRowValue(v, e, bit, q);
    ModAdd(v, q / 2, q);
    GpuDecision(b, v', q);
    ModAdd(v, n, q);
    assert b == (r + n) % q && r' == (r + q / 2) % q;
    HalfOff(r, n, q);
  }

  lemma HalfOff(r: nat, n: nat, q: nat)
    requires 2 <= q && r < q && n < q
    ensures ((r + n) % q - (r + q / 2) % q) % q == if n >= q / 2 then n - q / 2 else n + q - q / 2
  {
    ModDiff(r + n, r + q / 2, q);
    if n >= q / 2 {
      ModSmall(n - q / 2, q);
    } else {
      ModNegative(n - q / 2, q);
    }
  }

  // ----- the loops

  function BitWords(bits: seq<bool>): (ws: seq<nat>)
    ensures |ws| == |bits|
  {
    seq<nat>(|bits|, i requires 0 <= i < |bits| => Num(bits[i]))
  }

  method Message2Bin(message: Bytes) returns (bin: seq<nat>)
    ensures bin == BitWords(Unpack(message))
  {
    bin := [];
    ghost var bits: seq<bool> := [];
    for k := 0 to |message|
      invariant bits == Unpack(message[..k]) && bin == BitWords(bits)
    {
      var bs := BitsOf(message[k]);
      ghost var before := bits;
      var i := 8;
      while i > 0
        invariant 0 <= i <= 8
        invariant bits == before + bs[..8 - i] && bin == BitWords(bits)
      {
        i := i - 1;
        bin := bin + [Num(bs[7 - i])];
        bits := bits + [bs[7 - i]];
      }
      assert bs[..8] == bs;
      assert message[..k + 1] == message[..k] + [message[k]];
      UnpackConcat(message[..k], [message[k]]);
      UnpackOne(message[k]);
    }
    assert message[..|message|] == message;
  }

  function Threshold(items: seq<nat>, h: nat): (bits: seq<bool>)
    ensures |bits| == |items|
  {
    seq(|items|, i requires 0 <= i < |items| => items[i] >= h)
  }

  /** The final loop of both decryptions: one character of cur per item, one byte of out
      per eight characters, a rest shorter than eight dropped. */
  method Assemble(items: seq<nat>, h: nat) returns (out: Bytes)
    ensures out == Pack(Threshold(items, h))
  {
    out := [];
    var cur: seq<bool> := [];
    ghost var bits := Threshold(items, h);
    for k := 0 to |items|
      invariant (out, cur) == Packing(bits, k)
    {
      cur := cur + [items[k] >= h];
      if |cur| == 8 {
        out := out + [ByteOf(cur)];
        cur := [];
      }
    }
    PackedAll(bits);
  }

  /** A source of random numbers; drawn is the history of what it has given. */
  class Randomness {
    ghost var drawn: seq<nat>

    constructor ()
      ensures drawn == []
    {
      drawn := [];
    }

    /** Any value of the range. */
    method Draw(low: nat, high: nat) returns (v: nat)
      requires low <= high
      modifies this
      ensures low <= v <= high && drawn == old(drawn) + [v]
    {
      v :| low <= v <= high;
      drawn := drawn + [v];
    }
  }

  /** The random vectors: m*n values drawn in [0, Q - 1], or in [0, Q/2 - 1] for noise. */
  method GenerateSecret(m: nat, n: nat, half: bool, q: nat, source: Randomness) returns (out: array<nat>)
    requires 2 <= q
    modifies source
    ensures fresh(out) && out.Length == m * n
    ensures AllBelow(out[..], if half then q / 2 else q)
    ensures source.drawn == old(source.drawn) + out[..]
  {
    var high := if half then q / 2 - 1 else q - 1;
    out := new nat[m * n];
    for i := 0 to out.Length
      invariant forall j :: 0 <= j < i ==> out[j] <= high
      invariant source.drawn == old(source.drawn) + out[..i]
    {
      out[i] := source.Draw(0, high);
    }
    assert out[..out.Length] == out[..];
  }

  /** CPU encryption: whatever is drawn, the two strings decrypt to the message. */
  method Encrypt(message: Bytes, A: seq<seq<nat>>, n: nat, q: nat, source: Randomness)
      returns (outS: Bytes, outB: Bytes, ghost s: seq<nat>, ghost e: seq<nat>)
    requires 2 <= q <= 0x8000 && message != [] && IsMatrix(A, 8 * |message|, n)
    modifies source
    ensures source.drawn == old(source.drawn) + s + e
    ensures |s| == n && |e| == 8 * |message| && AllBelow(s, q) && AllBelow(e, q / 2)
    ensures outS == WordBytes(s) && outB == WordBytes(CipherWords(A, s, e, Unpack(message), q))
    ensures Plain(A, outS, outB, q) == message
  {
    var vecS := GenerateSecret(n, 1, false, q, source);
    var vecE := GenerateSecret(8 * |message|, 1, true, q, source);
    s, e := vecS[..], vecE[..];
    var ms := Message2Bin(message);
    var sv, ev := vecS[..], vecE[..];
    var b: seq<nat> := seq<nat>(|ms|, i requires 0 <= i < |ms| == |ev| == |A| =>
      EncryptRow(Mask(A[i], sv), ev[i], ms[i] != 0, q));
    assert b == CipherWords(A, s, e, Unpack(message), q);
    CpuRoundTrip(A, s, e, message, q);
    outS, outB := WordBytes(sv), WordBytes(b);
  }

  /** CPU decryption of any two received strings of the right lengths. */
  method Decrypt(A: seq<seq<nat>>, inS: Bytes, inB: Bytes, q: nat) returns (message: Bytes)
    requires q > 0 && IsMatrix(A, |inB| / 2, |inS| / 2)
    ensures message == Plain(A, inS, inB, q)
  {
    var s, b := WordsOf(inS), WordsOf(inB);
    var res: seq<nat> := seq<nat>(|b|, i requires 0 <= i < |b| => Residue(b[i], Mask(A[i], s), q));
    message := Assemble(res, q / 2);
    assert Threshold(res, q / 2) == seq(|b|, i requires 0 <= i < |b| => DecodeRow(b[i], Mask(A[i], s), q));
  }

  method DecryptGpu(mm: TensorProduct, blk: Block, q: nat) returns (message: Bytes)
    requires q > 0
    ensures message == DecryptBlock(mm, blk, q)
  {
    var res: seq<nat> := seq<nat>(|blk.b|, i requires 0 <= i < |blk.b| => Num(DecodeRowGpu(blk.b[i], mm(blk.s, i), q)));
    message := Assemble(res, 1);
    ghost var bits := seq(|blk.b|, i requires 0 <= i < |blk.b| => DecodeRowGpu(blk.b[i], mm(blk.s, i), q));
    forall i | 0 <= i < |bits|
      ensures Threshold(res, 1)[i] == bits[i]
    {
      assert res[i] == Num(bits[i]);
    }
    assert Threshold(res, 1) == bits;
  }
}
