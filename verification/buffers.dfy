/** Reading a file into the middle of a buffer, as ifstream::read(data + offset) does. */
module Buffers {
  import opened Bits

  /** Bytes start .. start+len of a file read into a zeroed buffer. */
  function ReadAt(file: Bytes, start: nat, len: nat): (buf: Bytes)
    ensures |buf| == len
  {
    seq(len, i requires 0 <= i => if start + i < |file| then file[start + i] else 0)
  }

  function Splice<T>(buf: seq<T>, offset: nat, data: seq<T>): (r: seq<T>)
    requires offset + |data| <= |buf|
    ensures |r| == |buf|
    ensures r[offset..offset + |data|] == data
  {
    buf[..offset] + data + buf[offset + |data|..]
  }

  method CopyInto<T>(buffer: array<T>, offset: nat, data: seq<T>)
    requires offset + |data| <= buffer.Length
    modifies buffer
    ensures buffer[..] == Splice(old(buffer[..]), offset, data)
  {
    forall j | 0 <= j < |data| {
      buffer[offset + j] := data[j];
    }
  }
}
