/**
 * The two byte streams of the trajectory file: a `DataOutputStream` that
 * appends big-endian values, and a `RandomAccessFile` opened for reading,
 * with its cursor. A file is the sequence of its bytes.
 */
module Streams {
  import opened JavaTypes
  import opened DataStream
  import opened Ieee

  /** A `DataOutputStream` over a fresh file: the bytes written so far. */
  class ByteSink {
    var written: seq<byte>

    constructor ()
      ensures written == []
    {
      written := [];
    }

    /** `writeInt`: four bytes, high byte first. */
    method WriteInt(x: int32)
      modifies this
      ensures written == old(written) + EncodeInt32(x)
    {
      written := written + EncodeInt32(x);
    }

    /** `writeLong`: eight bytes, high byte first. */
    method WriteLong(x: int64)
      modifies this
      ensures written == old(written) + EncodeInt64(x)
    {
      written := written + EncodeInt64(x);
    }

    /** `writeFloat`: the word of `floatToIntBits`, as `writeInt` writes an int. */
    method WriteFloat(w: Float32)
      modifies this
      ensures written == old(written) + EncodeFloat(w)
    {
      written := written + EncodeFloat(w);
    }

    /** `writeDouble`: the binary64 word, as `writeLong` writes a long. */
    method WriteDouble(w: Float64)
      modifies this
      ensures written == old(written) + EncodeWord64(w)
    {
      written := written + EncodeWord64(w);
    }
  }

  /**
   * Where the cursor of a `RandomAccessFile` stands after asking for `k`
   * bytes at `pos`: past them if they are all there, otherwise at the end
   * of the file (single-byte reads at the end do not move the cursor).
   */
  function CursorAfter(pos: nat, k: nat, length: nat): (p: nat)
    ensures pos + k <= length ==> p == pos + k
    ensures pos + k > length ==> p >= length && p >= pos && p <= pos + k
  {
    if pos + k <= length then pos + k else if pos < length then length else pos
  }

  /** A `RandomAccessFile` opened with mode `"r"`: fixed contents and a cursor. */
  class ByteSource {
    const bytes: seq<byte>
    var pos: nat

    constructor (bytes: seq<byte>)
      ensures this.bytes == bytes && pos == 0
    {
      this.bytes := bytes;
      pos := 0;
    }

    /** `length()`. */
    function Length(): (n: nat)
      ensures n == |bytes|
    {
      |bytes|
    }

    /** `seek(p)`: a negative offset is an `IOException`; any other, even past the end, is kept. */
    method Seek(p: int64) returns (r: Result<()>)
      modifies this
      ensures p < 0 ==> r == Failure(InputOutput) && pos == old(pos)
      ensures p >= 0 ==> r == Success(()) && pos == p
    {
      if p < 0 {
        return Failure(InputOutput);
      }
      pos := p;
      return Success(());
    }

    /** `readFully` of `k` bytes: the bytes at the cursor, or `EOFException` when the file ends first. */
    method ReadBytes(k: nat) returns (r: Result<seq<byte>>)
      modifies this
      ensures pos == CursorAfter(old(pos), k, |bytes|)
      ensures old(pos) + k <= |bytes| ==> r == Success(bytes[old(pos)..old(pos) + k])
      ensures old(pos) + k > |bytes| ==> r == Failure(EndOfFile)
    {
      if pos + k <= |bytes| {
        r := Success(bytes[pos..pos + k]);
      } else {
        r := Failure(EndOfFile);
      }
      pos := CursorAfter(pos, k, |bytes|);
    }

    /** `readInt`. */
    method ReadInt() returns (r: Result<int32>)
      modifies this
      ensures pos == CursorAfter(old(pos), 4, |bytes|)
      ensures old(pos) + 4 <= |bytes| ==> r == Success(DecodeInt32(bytes[old(pos)..old(pos) + 4]))
      ensures old(pos) + 4 > |bytes| ==> r == Failure(EndOfFile)
    {
      var b := ReadBytes(4);
      if b.Failure? {
        return Failure(b.error);
      }
      return Success(DecodeInt32(b.value));
    }

    /** `readLong`. */
    method ReadLong() returns (r: Result<int64>)
      modifies this
      ensures pos == CursorAfter(old(pos), 8, |bytes|)
      ensures old(pos) + 8 <= |bytes| ==> r == Success(DecodeInt64(bytes[old(pos)..old(pos) + 8]))
      ensures old(pos) + 8 > |bytes| ==> r == Failure(EndOfFile)
    {
      var b := ReadBytes(8);
      if b.Failure? {
        return Failure(b.error);
      }
      return Success(DecodeInt64(b.value));
    }

    /** `readFloat`: the binary32 word of the next four bytes. */
    method ReadFloat() returns (r: Result<Float32>)
      modifies this
      ensures pos == CursorAfter(old(pos), 4, |bytes|)
      ensures old(pos) + 4 <= |bytes| ==> r == Success(DecodeWord32(bytes[old(pos)..old(pos) + 4]))
      ensures old(pos) + 4 > |bytes| ==> r == Failure(EndOfFile)
    {
      var b := ReadBytes(4);
      if b.Failure? {
        return Failure(b.error);
      }
      return Success(DecodeWord32(b.value));
    }

    /** `readDouble`: the binary64 word of the next eight bytes. */
    method ReadDouble() returns (r: Result<Float64>)
      modifies this
      ensures pos == CursorAfter(old(pos), 8, |bytes|)
      ensures old(pos) + 8 <= |bytes| ==> r == Success(DecodeWord64(bytes[old(pos)..old(pos) + 8]))
      ensures old(pos) + 8 > |bytes| ==> r == Failure(EndOfFile)
    {
      var b := ReadBytes(8);
      if b.Failure? {
        return Failure(b.error);
      }
      return Success(DecodeWord64(b.value));
    }
  }
}
