/** The secret file format: random bytes followed by their CRC-32C as ten decimal digits,
    written by generateSecret and checked by gather. The checksum is any function into 32
    bits. */
module SecretFile {
  import opened Bits
  import Lwe

  type U32 = v: int | 0 <= v < 0x1_0000_0000

  type Checksum = Bytes -> U32

  const CRC_LEN := 10

  const ASCII_ZERO: Byte := 48

  /** std::to_string */
  function Digits(v: nat): (s: Bytes)
    ensures s != []
  {
    if v < 10 then [ASCII_ZERO + v] else Digits(v / 10) + [ASCII_ZERO + v % 10]
  }

  function Zeros(n: nat, z: Byte): (s: Bytes)
    ensures |s| == n && forall i :: 0 <= i < n ==> s[i] == z
  {
    seq(n, _ => z)
  }

  /** setw(CRC_LEN) << setfill('0') << to_string(v); setw never truncates. */
  function Trailer(v: nat): Bytes {
    var d := Digits(v);
    if |d| < CRC_LEN then Zeros(CRC_LEN - |d|, ASCII_ZERO) + d else d
  }

  function Pow10(n: nat): (p: nat)
    ensures p > 0
  {
    if n == 0 then 1 else 10 * Pow10(n - 1)
  }

  /** Reading a decimal number back. */
  function Number(s: Bytes): int {
    if s == [] then 0 else 10 * Number(s[..|s| - 1]) + (s[|s| - 1] - ASCII_ZERO)
  }

  lemma {:induction false} DigitsLength(v: nat, k: nat)
    requires 1 <= k && v < Pow10(k)
    ensures |Digits(v)| <= k
  {
    if v >= 10 {
      assert k >= 2 by {
        assert Pow10(1) == 10;
      }
      DigitsLength(v / 10, k - 1);
    }
  }

  lemma {:induction false} NumberDigits(v: nat)
    ensures Number(Digits(v)) == v
  {
    var d := Digits(v);
    if v >= 10 {
      NumberDigits(v / 10);
      assert d[..|d| - 1] == Digits(v / 10);
    } else {
      assert d[..0] == [];
    }
  }

  lemma {:induction false} NumberPadding(n: nat, d: Bytes)
    ensures Number(Zeros(n, ASCII_ZERO) + d) == Number(d)
  {
    var p := Zeros(n, ASCII_ZERO) + d;
    if d != [] {
      assert p[..|p| - 1] == Zeros(n, ASCII_ZERO) + d[..|d| - 1];
      NumberPadding(n, d[..|d| - 1]);
    } else if n > 0 {
      assert p[..n - 1] == Zeros(n - 1, ASCII_ZERO) + [];
      NumberPadding(n - 1, []);
    } else {
      assert p == [];
    }
  }

  lemma {:induction false} DigitsAreDigits(v: nat, i: nat)
    requires i < |Digits(v)|
    ensures 48 <= Digits(v)[i] <= 57
  {
    if v >= 10 && i < |Digits(v)| - 1 {
      DigitsAreDigits(v / 10, i);
    }
  }

  /** Every 32-bit checksum prints to exactly ten digits, and the digits give it back. */
  lemma TrailerReadsBack(v: U32)
    ensures |Trailer(v)| == CRC_LEN && Number(Trailer(v)) == v
    ensures forall i :: 0 <= i < CRC_LEN ==> 48 <= Trailer(v)[i] <= 57
  {
    TenDigitsSuffice(v);
    NumberDigits(v);
    NumberPadding(CRC_LEN - |Digits(v)|, Digits(v));
    if |Digits(v)| == CRC_LEN {
      assert Zeros(0, ASCII_ZERO) + Digits(v) == Digits(v);
    }
    forall i | 0 <= i < CRC_LEN
      ensures 48 <= Trailer(v)[i] <= 57
    {
      var pad := CRC_LEN - |Digits(v)|;
      if i >= pad {
        DigitsAreDigits(v, i - pad);
      }
    }
  }

  lemma TenDigitsSuffice(v: U32)
    ensures |Digits(v)| <= CRC_LEN
  {
    assert Pow10(5) == 100000;
    assert Pow10(10) == 10000000000 by {
      assert Pow10(7) == 10000000;
    }
    DigitsLength(v, 10);
  }

  lemma TrailerInjective(v: U32, w: U32)
    requires Trailer(v) == Trailer(w)
    ensures v == w
  {
    TrailerReadsBack(v);
    TrailerReadsBack(w);
  }

  /** gather's check: the last ten bytes print the checksum of everything before them. */
  predicate CrcOk(crc: Checksum, buf: Bytes)
    requires |buf| >= CRC_LEN
  {
    Trailer(crc(buf[..|buf| - CRC_LEN])) == buf[|buf| - CRC_LEN..]
  }

  /** The check accepts exactly the buffers that the writer could have produced. */
  lemma CrcOkIffWritten(crc: Checksum, buf: Bytes)
    requires |buf| >= CRC_LEN
    ensures CrcOk(crc, buf) <==> exists body: Bytes :: buf == body + Trailer(crc(body))
  {
    var n := |buf| - CRC_LEN;
    if CrcOk(crc, buf) {
      assert buf == buf[..n] + Trailer(crc(buf[..n]));
    }
    if body: Bytes :| buf == body + Trailer(crc(body)) {
      TrailerReadsBack(crc(body));
      assert buf[..n] == body && buf[n..] == Trailer(crc(body));
    }
  }

  /** Damage confined to the trailer is always detected, whatever the checksum is. */
  lemma TrailerDamageDetected(crc: Checksum, file: Bytes, buf: Bytes)
    requires |file| == |buf| >= CRC_LEN && CrcOk(crc, file)
    requires file[..|file| - CRC_LEN] == buf[..|buf| - CRC_LEN] && file != buf
    ensures !CrcOk(crc, buf)
  {
    var n := |file| - CRC_LEN;
    assert file == file[..n] + file[n..] && buf == buf[..n] + buf[n..];
  }

  /** A trailer with a zero byte is no trailer: a buffer whose tail was never filled is
      rejected whatever the checksum function is. */
  lemma ZeroTailRejected(crc: Checksum, buf: Bytes)
    requires |buf| >= CRC_LEN && buf[|buf| - 1] == 0
    ensures !CrcOk(crc, buf)
  {
    TrailerReadsBack(crc(buf[..|buf| - CRC_LEN]));
    assert buf[|buf| - CRC_LEN..][CRC_LEN - 1] == buf[|buf| - 1];
  }

  /** generateSecret with an output file: words * 2 bytes exactly, and acceptable to gather. */
  method GenerateSecretFile(crc: Checksum, words: nat, q: nat, source: Lwe.Randomness)
      returns (file: Bytes, ghost drawn: seq<nat>)
    requires 2 <= q && 2 * words >= CRC_LEN
    modifies source
    ensures |file| == 2 * words && CrcOk(crc, file)
    ensures |drawn| == words && Lwe.AllBelow(drawn, q) && source.drawn == old(source.drawn) + drawn
    ensures file[..2 * words - CRC_LEN] == Lwe.WordBytes(drawn)[..2 * words - CRC_LEN]
  {
    var mat := Lwe.GenerateSecret(words, 1, false, q, source);
    drawn := mat[..];
    var data := Lwe.WordBytes(mat[..]);
    var n := |data| - CRC_LEN;
    var crcStr := Trailer(crc(data[..n]));
    TrailerReadsBack(crc(data[..n]));
    file := data[..n] + crcStr;
    assert file[..n] == data[..n] && file[n..] == crcStr;
  }
}
