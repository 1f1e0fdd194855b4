/** Running-key generation (src/scripts/generateSecretFile.cc): 128-bit parities of
    pseudo-random windows, merged over the secret files by exclusive or. */
module KeyGen {
  import opened Arith
  import opened Bits

  // ----- what the loops compute

  /** Where read i of a random number starts: (random * i) % availRead. */
  function WindowOffset(random: nat, i: nat, avail: nat): (offset: nat)
    requires avail > 0
    ensures offset < avail
  {
    random * i % avail
  }

  predicate Extractable(buf: Bytes, readChars: nat) {
    readChars < |buf|
  }

  /** The bytes of read i; the window never leaves the buffer. */
  function Window(buf: Bytes, random: nat, i: nat, readChars: nat): (w: Bytes)
    requires Extractable(buf, readChars)
    ensures |w| == readChars
  {
    var offset := WindowOffset(random, i, |buf| - readChars);
    buf[offset..offset + readChars]
  }

  /** The exclusive or of all 8 * readChars bits of a window. */
  function RowBit(buf: Bytes, random: nat, i: nat, readChars: nat): bool
    requires Extractable(buf, readChars)
  {
    Parity(Unpack(Window(buf, random, i, readChars)))
  }

  /** The readNum bits that one random number contributes. */
  function RowBits(buf: Bytes, random: nat, readNum: nat, readChars: nat): (bits: seq<bool>)
    requires Extractable(buf, readChars)
    ensures |bits| == readNum
  {
    seq(readNum, i requires 0 <= i < readNum => RowBit(buf, random, i, readChars))
  }

  /** The tmp file of one secret file and one thread. */
  function TmpSecret(buf: Bytes, randoms: seq<nat>, readNum: nat, readChars: nat): (out: Bytes)
    requires Extractable(buf, readChars)
    ensures |out| == |randoms| * (readNum / 8)
  {
    if randoms == [] then []
    else
      var n := |randoms| - 1;
      MulSucc(n, readNum / 8);
      TmpSecret(buf, randoms[..n], readNum, readChars) + Pack(RowBits(buf, randoms[n], readNum, readChars))
  }

  function FoldXor(s: Bytes): Byte {
    if s == [] then 0 else XorByte(FoldXor(s[..|s| - 1]), s[|s| - 1])
  }

  predicate SameLength(files: seq<Bytes>, n: nat) {
    forall j :: 0 <= j < |files| ==> |files[j]| == n
  }

  function Column(files: seq<Bytes>, n: nat, i: nat): (c: Bytes)
    requires SameLength(files, n) && i < n
    ensures |c| == |files|
  {
    seq(|files|, j requires 0 <= j < |files| => files[j][i])
  }

  /** The tmp files of one thread merged over all secret files. */
  function MergeSecrets(files: seq<Bytes>, n: nat): (out: Bytes)
    requires SameLength(files, n)
    ensures |out| == n
  {
    seq(n, i requires 0 <= i < n => FoldXor(Column(files, n, i)))
  }

  // ----- bit-level meaning

  lemma ZeroByte()
    ensures Parity(BitsOf(0)) == false && forall i :: 0 <= i < 8 ==> !BitsOf(0)[i]
  {
    var z := BitsOf(0);
    forall i | 0 <= i < 8
      ensures !z[i]
    {
      ZeroBit(8, i);
    }
    ZeroParity(z);
  }

  lemma {:induction false} ZeroBit(n: nat, i: nat)
    requires i < n
    ensures !LowBits(0, n)[i]
  {
    if i < n - 1 {
      ZeroBit(n - 1, i);
    }
  }

  lemma {:induction false} ZeroParity(bits: seq<bool>)
    requires forall i :: 0 <= i < |bits| ==> !bits[i]
    ensures !Parity(bits)
  {
    if bits != [] {
      ZeroParity(bits[1..]);
    }
  }

  /** Folding a window to one byte and that byte to one bit is the parity of all its bits. */
  lemma {:induction false} FoldParity(w: Bytes)
    ensures Parity(BitsOf(FoldXor(w))) == Parity(Unpack(w))
  {
    if w == [] {
      ZeroByte();
    } else {
      var n := |w| - 1;
      FoldParity(w[..n]);
      ParityXor(BitsOf(FoldXor(w[..n])), BitsOf(w[n]));
      assert w == w[..n] + [w[n]];
      UnpackConcat(w[..n], [w[n]]);
      UnpackOne(w[n]);
      ParityConcat(Unpack(w[..n]), Unpack([w[n]]));
    }
  }

  function BitColumn(s: Bytes, b: nat): (c: seq<bool>)
    requires b < 8
    ensures |c| == |s|
  {
    seq(|s|, j requires 0 <= j < |s| => BitsOf(s[j])[b])
  }

  lemma {:induction false} FoldXorBit(s: Bytes, b: nat)
    requires b < 8
    ensures BitsOf(FoldXor(s))[b] == Parity(BitColumn(s, b))
  {
    if s == [] {
      ZeroByte();
    } else {
      var n := |s| - 1;
      FoldXorBit(s[..n], b);
      assert BitColumn(s, b) == BitColumn(s[..n], b) + [BitsOf(s[n])[b]];
      ParityConcat(BitColumn(s[..n], b), [BitsOf(s[n])[b]]);
      assert [BitsOf(s[n])[b]][1..] == [];
    }
  }

  /** The rows of all random numbers, one after another. */
  function KeyBits(buf: Bytes, randoms: seq<nat>, readNum: nat, readChars: nat): (bits: seq<bool>)
    requires Extractable(buf, readChars)
    ensures |bits| == |randoms| * readNum
  {
    if randoms == [] then []
    else
      var n := |randoms| - 1;
      MulSucc(n, readNum);
      KeyBits(buf, randoms[..n], readNum, readChars) + RowBits(buf, randoms[n], readNum, readChars)
  }

  /** The bits of a tmp file are exactly those rows. */
  lemma {:induction false} TmpSecretIsKeyBits(buf: Bytes, randoms: seq<nat>, readNum: nat, readChars: nat)
    requires Extractable(buf, readChars) && readNum % 8 == 0
    ensures Unpack(TmpSecret(buf, randoms, readNum, readChars)) == KeyBits(buf, randoms, readNum, readChars)
  {
    if randoms != [] {
      var n := |randoms| - 1;
      var row := RowBits(buf, randoms[n], readNum, readChars);
      TmpSecretIsKeyBits(buf, randoms[..n], readNum, readChars);
      UnpackPack(row);
      UnpackConcat(TmpSecret(buf, randoms[..n], readNum, readChars), Pack(row));
    }
  }

  /** Bit r * readNum + i of the rows is read i of random number r. */
  lemma {:induction false} KeyBitAt(buf: Bytes, randoms: seq<nat>, readNum: nat, readChars: nat, r: nat, i: nat)
    requires Extractable(buf, readChars) && r < |randoms| && i < readNum
    ensures r * readNum + i < |randoms| * readNum
    ensures KeyBits(buf, randoms, readNum, readChars)[r * readNum + i] == RowBit(buf, randoms[r], i, readChars)
  {
    var n := |randoms| - 1;
    MulSucc(n, readNum);
    if r < n {
      KeyBitAt(buf, randoms[..n], readNum, readChars, r, i);
    }
  }

  /** Bit r * readNum + i of a tmp file is the parity of window i of random number r. */
  lemma TmpBitAt(buf: Bytes, randoms: seq<nat>, readNum: nat, readChars: nat, r: nat, i: nat)
    requires Extractable(buf, readChars) && readNum % 8 == 0 && r < |randoms| && i < readNum
    ensures r * readNum + i < 8 * |TmpSecret(buf, randoms, readNum, readChars)|
    ensures Unpack(TmpSecret(buf, randoms, readNum, readChars))[r * readNum + i] == RowBit(buf, randoms[r], i, readChars)
  {
    TmpSecretIsKeyBits(buf, randoms, readNum, readChars);
    KeyBitAt(buf, randoms, readNum, readChars, r, i);
  }

  function BitsAt(files: seq<Bytes>, n: nat, k: nat): (bits: seq<bool>)
    requires SameLength(files, n) && k < 8 * n
    ensures |bits| == |files|
  {
    seq(|files|, j requires 0 <= j < |files| => Unpack(files[j])[k])
  }

  /** Bit k of a merged file is the exclusive or of bit k of every input. */
  lemma MergeSecretsBit(files: seq<Bytes>, n: nat, k: nat)
    requires SameLength(files, n) && k < 8 * n
    ensures Unpack(MergeSecrets(files, n))[k] == Parity(BitsAt(files, n, k))
  {
    var c := Column(files, n, k / 8);
    UnpackAt(MergeSecrets(files, n), k);
    FoldXorBit(c, k % 8);
    forall j | 0 <= j < |files|
      ensures BitsAt(files, n, k)[j] == BitColumn(c, k % 8)[j]
    {
      UnpackAt(files[j], k);
    }
    assert BitsAt(files, n, k) == BitColumn(c, k % 8);
  }

  // ----- the loops themselves

  /** processTmpSecret, from the buffer read to the bytes written. */
  method ProcessTmpSecret(buf: Bytes, randoms: seq<nat>, readNum: nat, readChars: nat) returns (ss: Bytes)
    requires Extractable(buf, readChars)
    ensures ss == TmpSecret(buf, randoms, readNum, readChars)
  {
    ss := [];
    for r := 0 to |randoms|
      invariant ss == TmpSecret(buf, randoms[..r], readNum, readChars)
    {
      var chars := ProcessRandom(buf, randoms[r], readNum, readChars);
      ss := ss + chars;
      assert randoms[..r + 1][..r] == randoms[..r];
    }
    assert randoms[..|randoms|] == randoms;
  }

  lemma WholeByte(bytes: nat, bits: nat)
    requires 1 <= bits <= 8
    ensures (8 * bytes + bits) % 8 == 0 <==> bits == 8
  {
  }

  /** The loop over READ_NUM reads of one random number; a byte is flushed every eight bits. */
  method ProcessRandom(buf: Bytes, random: nat, readNum: nat, readChars: nat) returns (ss: Bytes)
    requires Extractable(buf, readChars)
    ensures ss == Pack(RowBits(buf, random, readNum, readChars))
  {
    ss := [];
    var num := 0;
    var charSS: seq<bool> := [];
    ghost var row := RowBits(buf, random, readNum, readChars);
    for i := 0 to readNum
      invariant num == i == 8 * |ss| + |charSS| && (ss, charSS) == Packing(row, i)
    {
      var bit := FirstBit(Window(buf, random, i, readChars));
      assert bit == row[i];
      charSS := charSS + [bit];
      num := num + 1;
      WholeByte(|ss|, |charSS|);
      if num % 8 == 0 {
        ss := ss + [ByteOf(charSS)];
        charSS := [];
      }
    }
    PackedAll(row);
  }

  /** The two inner loops: bytes of the window, then characters of the resulting bitset. */
  method FirstBit(str: Bytes) returns (bit: bool)
    ensures bit == Parity(Unpack(str))
  {
    var bitFirst8: Byte := 0;
    for c := 0 to |str|
      invariant bitFirst8 == FoldXor(str[..c])
    {
      bitFirst8 := XorByte(bitFirst8, str[c]);
      assert str[..c + 1][..c] == str[..c];
    }
    assert str[..|str|] == str;
    FoldParity(str);
    var bitStr := BitsOf(bitFirst8);
    bit := false;
    for cc := 0 to |bitStr|
      invariant bit == Parity(bitStr[..cc])
    {
      bit := bit != bitStr[cc];
      assert bitStr[..cc + 1] == bitStr[..cc] + [bitStr[cc]];
      ParityConcat(bitStr[..cc], [bitStr[cc]]);
      assert [bitStr[cc]][1..] == [];
    }
    assert bitStr[..8] == bitStr;
  }

  /** processBinSecret on the tmp files it has read. */
  method ProcessBinSecret(bufferVec: seq<Bytes>, n: nat) returns (ss: Bytes)
    requires SameLength(bufferVec, n)
    ensures ss == MergeSecrets(bufferVec, n)
  {
    ss := [];
    for i := 0 to n
      invariant ss == MergeSecrets(bufferVec, n)[..i]
    {
      var bitFirst8: Byte := 0;
      ghost var column := Column(bufferVec, n, i);
      for j := 0 to |bufferVec|
        invariant bitFirst8 == FoldXor(column[..j])
      {
        bitFirst8 := XorByte(bitFirst8, bufferVec[j][i]);
        assert column[..j + 1][..j] == column[..j];
      }
      assert column[..|bufferVec|] == column;
      ss := ss + [bitFirst8];
    }
  }
}
