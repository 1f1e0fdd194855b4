/** Bytes, bits and GF(2) arithmetic: the std::bitset view that the encryption and
    the key extraction share. Bits are most significant first, as bitset::to_string
    prints them. */
module Bits {
  import opened Arith
  import opened Sequences

  type Byte = x: int | 0 <= x < 256

  type Bytes = seq<Byte>

  function Num(b: bool): (n: nat)
    ensures n <= 1
  {
    if b then 1 else 0
  }

  /** The low n bits of v, most significant first: bitset<n>(v).to_string(). */
  function LowBits(v: nat, n: nat): (bits: seq<bool>)
    ensures |bits| == n
  {
    if n == 0 then [] else LowBits(v / 2, n - 1) + [v % 2 == 1]
  }

  /** bitset<n>(string).to_ulong() */
  function Value(bits: seq<bool>): nat {
    if bits == [] then 0 else 2 * Value(bits[..|bits| - 1]) + Num(bits[|bits| - 1])
  }

  function Pow2(n: nat): (p: nat)
    ensures p > 0
  {
    if n == 0 then 1 else 2 * Pow2(n - 1)
  }

  lemma {:induction false} ValueBound(bits: seq<bool>)
    ensures Value(bits) < Pow2(|bits|)
  {
    if bits != [] {
      ValueBound(bits[..|bits| - 1]);
    }
  }

  lemma ValueStep(high: seq<bool>, low: bool)
    ensures Value(high + [low]) == 2 * Value(high) + Num(low)
  {
    assert (high + [low])[..|high|] == high;
  }

  lemma {:induction false} ValueLowBits(v: nat, n: nat)
    requires v < Pow2(n)
    ensures Value(LowBits(v, n)) == v
  {
    if n > 0 {
      var high, low := LowBits(v / 2, n - 1), v % 2 == 1;
      assert v == 2 * (v / 2) + Num(low);
      ValueLowBits(v / 2, n - 1);
      ValueStep(high, low);
    }
  }

  lemma {:induction false} LowBitsValue(bits: seq<bool>)
    ensures LowBits(Value(bits), |bits|) == bits
  {
    if bits != [] {
      var high, low := bits[..|bits| - 1], bits[|bits| - 1];
      LowBitsValue(high);
      assert Value(bits) / 2 == Value(high);
      assert bits == high + [low];
    }
  }

  function BitsOf(b: Byte): (bits: seq<bool>)
    ensures |bits| == 8
  {
    LowBits(b, 8)
  }

  lemma HalfThenDivide(v: nat, p: nat)
    requires p > 0
    ensures v / 2 / p == v / (2 * p)
  {
    var d, r := v / 2 / p, v / 2 % p;
    assert v / 2 == p * d + r;
    assert v == (2 * p) * d + (2 * r + v % 2);
    ModUnique(d, 2 * r + v % 2, 2 * p);
  }

  /** Most significant bit first: bit i of n counts 2 to the power n - 1 - i. */
  lemma {:induction false} BitInOrder(v: nat, n: nat, i: nat)
    requires i < n
    ensures LowBits(v, n)[i] == (v / Pow2(n - 1 - i) % 2 == 1)
  {
    if i < n - 1 {
      BitInOrder(v / 2, n - 1, i);
      HalfThenDivide(v, Pow2(n - 2 - i));
    }
  }

  lemma Pow8()
    ensures Pow2(8) == 256
  {
    assert Pow2(4) == 16;
    assert Pow2(6) == 64;
  }

  function ByteOf(bits: seq<bool>): Byte
    requires |bits| == 8
  {
    Pow8();
    ValueBound(bits);
    Value(bits)
  }

  lemma ByteOfBitsOf(b: Byte)
    ensures ByteOf(BitsOf(b)) == b
  {
    Pow8();
    ValueLowBits(b, 8);
  }

  lemma BitsOfByteOf(bits: seq<bool>)
    requires |bits| == 8
    ensures BitsOf(ByteOf(bits)) == bits
  {
    LowBitsValue(bits);
  }

  /** All bits of a byte string, in order. */
  function Unpack(s: Bytes): (bits: seq<bool>)
    ensures |bits| == 8 * |s|
  {
    if s == [] then [] else BitsOf(s[0]) + Unpack(s[1..])
  }

  /** Whole groups of eight bits to bytes; a trailing partial group is dropped. */
  function Pack(bits: seq<bool>): (s: Bytes)
    ensures |s| == |bits| / 8
  {
    if |bits| < 8 then [] else [ByteOf(bits[..8])] + Pack(bits[8..])
  }

  lemma {:induction false} PackUnpack(s: Bytes)
    ensures Pack(Unpack(s)) == s
  {
    if s != [] {
      var u := Unpack(s);
      assert u[..8] == BitsOf(s[0]) && u[8..] == Unpack(s[1..]);
      ByteOfBitsOf(s[0]);
      PackUnpack(s[1..]);
    }
  }

  lemma {:induction false} UnpackPack(bits: seq<bool>)
    requires |bits| % 8 == 0
    ensures Unpack(Pack(bits)) == bits
  {
    if |bits| >= 8 {
      BitsOfByteOf(bits[..8]);
      UnpackPack(bits[8..]);
      assert Pack(bits)[1..] == Pack(bits[8..]);
      assert bits == bits[..8] + bits[8..];
    } else {
      assert |bits| == 0;
    }
  }

  lemma {:induction false} UnpackConcat(a: Bytes, b: Bytes)
    ensures Unpack(a + b) == Unpack(a) + Unpack(b)
  {
    if a == [] {
      assert a + b == b;
    } else {
      assert (a + b)[1..] == a[1..] + b;
      UnpackConcat(a[1..], b);
    }
  }

  lemma UnpackOne(b: Byte)
    ensures Unpack([b]) == BitsOf(b)
  {
    assert [b][1..] == [];
  }

  lemma PackStep(eight: seq<bool>, rest: seq<bool>)
    requires |eight| == 8
    ensures Pack(eight + rest) == [ByteOf(eight)] + Pack(rest)
  {
    assert (eight + rest)[..8] == eight && (eight + rest)[8..] == rest;
  }

  /** Packing can be done piecewise at any byte boundary. */
  lemma {:induction false} PackConcat(a: seq<bool>, b: seq<bool>, bytes: nat)
    requires |a| == 8 * bytes
    ensures Pack(a + b) == Pack(a) + Pack(b)
  {
    if bytes == 0 {
      assert a + b == b;
    } else {
      var rest := a[8..];
      PackConcat(rest, b, bytes - 1);
      PackStep(a[..8], rest);
      PackStep(a[..8], rest + b);
      assert a == a[..8] + rest;
      assert a + b == a[..8] + (rest + b);
    }
  }

  /** Packing bit by bit: the bytes flushed after i bits and the bits still pending. */
  function Packing(bits: seq<bool>, i: nat): (r: (Bytes, seq<bool>))
    requires i <= |bits|
    ensures |r.1| < 8
  {
    if i == 0 then ([], [])
    else
      var (flushed, pending) := Packing(bits, i - 1);
      if |pending| < 7 then (flushed, pending + [bits[i - 1]])
      else (flushed + [ByteOf(pending + [bits[i - 1]])], [])
  }

  /** What Packing returns after i bits. */
  predicate Packed(bits: seq<bool>, i: nat, flushed: Bytes, pending: seq<bool>)
    requires i <= |bits|
  {
    8 * |flushed| <= i && pending == bits[8 * |flushed|..i] && Pack(bits[..8 * |flushed|]) == flushed
  }

  lemma {:induction false} PackingIsPack(bits: seq<bool>, i: nat)
    requires i <= |bits|
    ensures Packed(bits, i, Packing(bits, i).0, Packing(bits, i).1)
  {
    if i > 0 {
      PackingIsPack(bits, i - 1);
      var (flushed, pending) := Packing(bits, i - 1);
      if |pending| == 7 {
        PackByte(bits, i, flushed, pending);
      }
    }
  }

  lemma PackByte(bits: seq<bool>, i: nat, flushed: Bytes, pending: seq<bool>)
    requires 0 < i <= |bits| && |pending| == 7 && Packed(bits, i - 1, flushed, pending)
    ensures Packed(bits, i, flushed + [ByteOf(pending + [bits[i - 1]])], [])
  {
    var done, eight := bits[..8 * |flushed|], pending + [bits[i - 1]];
    PackConcat(done, eight, |flushed|);
    assert eight + [] == eight;
    PackStep(eight, []);
    assert bits[..i] == done + eight;
  }

  lemma PackRest(bits: seq<bool>, flushed: Bytes, pending: seq<bool>)
    requires |pending| < 8 && Packed(bits, |bits|, flushed, pending)
    ensures Pack(bits) == flushed
  {
    var done := bits[..8 * |flushed|];
    PackConcat(done, pending, |flushed|);
    assert bits == done + pending;
  }

  /** Bits still pending at the end are dropped. */
  lemma PackedAll(bits: seq<bool>)
    ensures Packing(bits, |bits|).0 == Pack(bits)
  {
    PackingIsPack(bits, |bits|);
    PackRest(bits, Packing(bits, |bits|).0, Packing(bits, |bits|).1);
  }

  lemma {:induction false} UnpackAt(s: Bytes, k: nat)
    requires k < 8 * |s|
    ensures Unpack(s)[k] == BitsOf(s[k / 8])[k % 8]
  {
    if k >= 8 {
      assert Unpack(s)[k] == Unpack(s[1..])[k - 8];
      UnpackAt(s[1..], k - 8);
      assert s[1..][(k - 8) / 8] == s[k / 8];
    }
  }

  // ----- exclusive or

  function XorBits(a: seq<bool>, b: seq<bool>): (r: seq<bool>)
    requires |a| == |b|
    ensures |r| == |a|
  {
    seq(|a|, i requires 0 <= i < |a| => a[i] != b[i])
  }

  /** bitset<8>(a) ^ bitset<8>(b) */
  function XorByte(a: Byte, b: Byte): (r: Byte)
    ensures BitsOf(r) == XorBits(BitsOf(a), BitsOf(b))
  {
    var bits := XorBits(BitsOf(a), BitsOf(b));
    BitsOfByteOf(bits);
    ByteOf(bits)
  }

  function XorBytes(a: Bytes, b: Bytes): (r: Bytes)
    requires |a| == |b|
    ensures |r| == |a|
  {
    seq(|a|, i requires 0 <= i < |a| => XorByte(a[i], b[i]))
  }

  lemma {:induction false} UnpackXor(a: Bytes, b: Bytes)
    requires |a| == |b|
    ensures Unpack(XorBytes(a, b)) == XorBits(Unpack(a), Unpack(b))
  {
    var x := XorBytes(a, b);
    forall k: nat | k < 8 * |a|
      ensures Unpack(x)[k] == XorBits(Unpack(a), Unpack(b))[k]
    {
      UnpackAt(x, k);
      UnpackAt(a, k);
      UnpackAt(b, k);
    }
  }

  /** Exclusive or of a whole bit string. */
  function Parity(bits: seq<bool>): bool {
    if bits == [] then false else bits[0] != Parity(bits[1..])
  }

  lemma {:induction false} ParityConcat(a: seq<bool>, b: seq<bool>)
    ensures Parity(a + b) == (Parity(a) != Parity(b))
  {
    if a == [] {
      assert a + b == b;
    } else {
      assert (a + b)[1..] == a[1..] + b;
      ParityConcat(a[1..], b);
    }
  }

  lemma {:induction false} ParityXor(a: seq<bool>, b: seq<bool>)
    requires |a| == |b|
    ensures Parity(XorBits(a, b)) == (Parity(a) != Parity(b))
  {
    if a != [] {
      assert XorBits(a, b)[1..] == XorBits(a[1..], b[1..]);
      ParityXor(a[1..], b[1..]);
    }
  }

  /** Moving one bit to the front changes nothing. */
  lemma ParityExtract(b: seq<bool>, k: nat)
    requires k < |b|
    ensures Parity(b) == (b[k] != Parity(b[..k] + b[k + 1..]))
  {
    assert b == b[..k] + b[k..] && b[k..][1..] == b[k + 1..];
    ParityConcat(b[..k], b[k..]);
    ParityConcat(b[..k], b[k + 1..]);
  }

  /** Parity does not see the order of its bits. */
  lemma {:induction false} ParityPermutation(a: seq<bool>, b: seq<bool>)
    requires multiset(a) == multiset(b)
    ensures Parity(a) == Parity(b)
  {
    if a == [] {
      assert |multiset(b)| == 0;
    } else {
      var k := FindFirst(a, b);
      ParityPermutation(a[1..], b[..k] + b[k + 1..]);
      ParityExtract(b, k);
    }
  }
}
